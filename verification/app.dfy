/**
 * The application shell: the document it starts from, the name of the
 * exported picture, and the busy flag that keeps one export in flight.
 * The picture itself comes from an opaque rasteriser whose result is a
 * parameter; the clock's reading is a parameter too.
 */
module App {
  import opened Wrappers
  import opened Text
  import opened Report
  import opened Form
  import opened Drawing
  import Preview

  /** `iso.split('T')[0]`: the text before the first 'T', or all of it when there is none. */
  function DatePart(iso: string): (r: string)
    ensures 'T' !in r
    ensures |r| <= |iso| && r == iso[..|r|]
    ensures |r| < |iso| ==> iso[|r|] == 'T'
  {
    if iso == [] || iso[0] == 'T' then []
    else [iso[0]] + DatePart(iso[1..])
  }

  /** An ISO timestamp's date part is the date it was built from. */
  lemma {:induction false} DatePartOfTimestamp(date: string, time: string)
    requires 'T' !in date
    ensures DatePart(date + "T" + time) == date
  {
    var s := date + "T" + time;
    if date == [] {
      assert s[0] == 'T';
    } else {
      assert s[0] == date[0] && s[1..] == date[1..] + "T" + time;
      DatePartOfTimestamp(date[1..], time);
    }
  }

  /**
   * The document the application starts with: the iOS environment, the
   * date part of the clock's ISO reading, no images, no marker, no tags,
   * empty texts and an image expected result.
   */
  function InitialReport(isoNow: string): (r: ReportData)
    ensures r.environment == EnvName(IOS) && r.testDate == DatePart(isoNow)
    ensures r.screenshot == None && r.expectedImage == None && r.markerBox == None
    ensures r.problemDescription == "" && r.expectedText == "" && r.tags == []
    ensures r.expectedResultType == ImageResult
  {
    ReportData(EnvName(IOS), DatePart(isoNow), None, "", ImageResult, "", None, None, [])
  }

  /** The form opens on the initial document with the iOS button selected and no drag. */
  function InitialScreen(isoNow: string): (s: Screen)
    ensures s.data == InitialReport(isoNow)
    ensures Inv(s)
    ensures !s.form.otherEnvSelected && s.form.draw.Idle? && !s.form.tagInput.adding
  {
    Screen(InitialReport(isoNow), InitialForm(InitialReport(isoNow)))
  }

  /** Every screen the form can reach from the initial one keeps the form invariant. */
  lemma ReachableScreensKeepInv(isoNow: string, es: seq<FormEvent>)
    ensures Inv(Run(InitialScreen(isoNow), es))
  {
    RunPreservesInv(InitialScreen(isoNow), es);
  }

  /** On every screen the form can reach, exactly one environment button is highlighted. */
  lemma ReachableOneButton(isoNow: string, es: seq<FormEvent>)
    ensures OneHighlighted(Run(InitialScreen(isoNow), es))
  {
    ReachableScreensKeepInv(isoNow, es);
    OneButtonHighlighted(Run(InitialScreen(isoNow), es));
  }

  /**
   * After the drag of `Form.DragScenario` the preview shows the uploaded
   * screenshot with the dragged box over it.
   */
  lemma DragScenarioPreview(s: Screen, img: string)
    requires img != ""
    ensures var r := Run(s, [ChooseFile(ScreenshotField, FileRead(Some(img))),
                             PointerDown(Point(10.0, 10.0)), PointerMove(Point(50.0, 40.0)), PointerUp]);
            Preview.Render(r.data).actual == Preview.ScreenshotPanel(img, Some(MarkerBox(10.0, 10.0, 40.0, 30.0)))
  {
    DragScenario(s, img);
  }

  /**
   * The marker left behind by a failed screenshot read is never shown: the
   * preview has no screenshot to draw it on and shows the placeholder.
   */
  lemma OrphanMarkerHidden(s: Screen, img: string)
    requires img != ""
    ensures var r := Run(s, [ChooseFile(ScreenshotField, FileRead(Some(img))), PointerDown(Point(10.0, 10.0)),
                             ChooseFile(ScreenshotField, FileRead(None)), PointerMove(Point(50.0, 40.0))]);
            r.data.markerBox.Some?
            && Preview.Render(r.data).actual == Preview.MissingScreenshot(Preview.ImagePlaceholder)
  {
    MarkerWithoutScreenshot(s, img);
  }

  /** `String(n).padStart(2, '0')`: two digits for n below 100, the plain digits above. */
  function Pad2(n: nat): (r: string)
    ensures AllDigits(r)
    ensures n < 100 ==> |r| == 2 && DecimalValue(r) == n
    ensures n >= 100 ==> r == Digits(n)
  {
    PaddedDigits(n);
    PadStart(Digits(n), 2, '0')
  }

  lemma PaddedDigits(n: nat)
    ensures AllDigits(PadStart(Digits(n), 2, '0'))
    ensures n < 100 ==> |PadStart(Digits(n), 2, '0')| == 2 && DecimalValue(PadStart(Digits(n), 2, '0')) == n
    ensures n >= 100 ==> PadStart(Digits(n), 2, '0') == Digits(n)
  {
    var ds := Digits(n);
    DigitsLength(n);
    DigitsRoundTrip(n);
    if n < 10 {
      OneDigitPadded(ds);
    }
  }

  /** A single digit gets one '0' in front. */
  lemma OneDigitPadded(ds: string)
    requires |ds| == 1 && AllDigits(ds)
    ensures PadStart(ds, 2, '0') == "0" + ds
    ensures AllDigits("0" + ds) && DecimalValue("0" + ds) == DecimalValue(ds)
  {
    assert PadStart("0" + ds, 2, '0') == "0" + ds;
    LeadingZero(ds);
  }

  /** A calendar day as the clock reports it: full year, month from 0, day of month. */
  datatype CalendarDay = CalendarDay(year: int, month0: nat, day: nat)

  /** A plausible clock reading: a four-digit year, a month index from 0 to 11, a day from 1 to 31. */
  predicate PlausibleDay(today: CalendarDay) {
    1000 <= today.year <= 9999 && today.month0 < 12 && 1 <= today.day <= 31
  }

  /**
   * The date stamp: year, two-digit month counted from 1, two-digit day.
   * For a four-digit year it is eight digits that read back as year, month
   * and day.
   */
  function DateStamp(today: CalendarDay): (r: string)
    ensures PlausibleDay(today) ==>
              && |r| == 8 && AllDigits(r)
              && DecimalValue(r[..4]) == today.year
              && DecimalValue(r[4..6]) == today.month0 + 1
              && DecimalValue(r[6..8]) == today.day
  {
    var y := IntToString(today.year);
    var m := Pad2(today.month0 + 1);
    var d := Pad2(today.day);
    StampParts(today, y, m, d);
    y + m + d
  }

  lemma StampParts(today: CalendarDay, y: string, m: string, d: string)
    requires y == IntToString(today.year) && AllDigits(m) && AllDigits(d)
    requires today.month0 < 12 ==> |m| == 2 && DecimalValue(m) == today.month0 + 1
    requires today.day < 100 ==> |d| == 2 && DecimalValue(d) == today.day
    ensures PlausibleDay(today) ==>
              var x := y + m + d;
              && |x| == 8 && AllDigits(x)
              && DecimalValue(x[..4]) == today.year
              && DecimalValue(x[4..6]) == today.month0 + 1
              && DecimalValue(x[6..8]) == today.day
  {
    if PlausibleDay(today) {
      assert y == Digits(today.year);
      DigitsLength(today.year);
      var x := y + m + d;
      assert x[..4] == y && x[4..6] == m && x[6..8] == d;
    }
  }

  /** The download name: the date stamp, then the fixed suffix. */
  function ExportFileName(today: CalendarDay): (r: string)
    ensures PlausibleDay(today) ==> |r| == 24 && r[..8] == DateStamp(today) && r[8..] == "_test_report.png"
  {
    DateStamp(today) + "_test_report.png"
  }

  /** The shell's state: the document and whether an export is running. */
  datatype Shell = Shell(report: ReportData, isExporting: bool)

  /** What the rasteriser delivered: a PNG data URI, or a failure anywhere in producing it. */
  datatype RenderOutcome = Rendered(png: string) | RenderFailed

  /** What the user sees at the end of an export. */
  datatype Effect = NoEffect | Download(filename: string, href: string) | FailureAlert

  datatype Finished = Finished(shell: Shell, effect: Effect)

  /** The download button is enabled exactly while no export is running. */
  predicate ExportEnabled(s: Shell) {
    !s.isExporting
  }

  /**
   * A click on the download button. A disabled button or an absent report
   * node leaves everything alone; otherwise the export starts and the flag
   * goes up, the document untouched.
   */
  function BeginExport(s: Shell, reportMounted: bool): (r: Shell)
    ensures !ExportEnabled(s) || !reportMounted ==> r == s
    ensures ExportEnabled(s) && reportMounted ==> r.isExporting && r.report == s.report
  {
    if s.isExporting || !reportMounted then s else s.(isExporting := true)
  }

  /**
   * The end of a started export, successful or not: the flag comes down
   * and the document is untouched. Success downloads the picture under
   * today's name; failure alerts.
   */
  function FinishExport(s: Shell, outcome: RenderOutcome, today: CalendarDay): (r: Finished)
    ensures !r.shell.isExporting && r.shell.report == s.report
    ensures outcome.Rendered? ==> r.effect == Download(ExportFileName(today), outcome.png)
    ensures outcome.RenderFailed? ==> r.effect == FailureAlert
  {
    var done := s.(isExporting := false);
    match outcome
    case Rendered(png) => Finished(done, Download(ExportFileName(today), png))
    case RenderFailed => Finished(done, FailureAlert)
  }

  /**
   * A whole export from an idle shell: the button is disabled while it
   * runs, a second click in that time does nothing, and afterwards the
   * shell is back where it was whatever the outcome.
   */
  lemma ExportCycle(s: Shell, outcome: RenderOutcome, today: CalendarDay, mounted: bool)
    requires ExportEnabled(s) && mounted
    ensures !ExportEnabled(BeginExport(s, mounted))
    ensures BeginExport(BeginExport(s, mounted), mounted) == BeginExport(s, mounted)
    ensures FinishExport(BeginExport(s, mounted), outcome, today).shell == s
  {
  }
}
