/**
 * The report form: every control's handler as a whole-document update, the
 * form's own local state (drag state, "other environment" mode, the custom
 * tag input), and the event step that dispatches a user action to them.
 * Events on controls the form does not currently render change nothing.
 */
module Form {
  import opened Wrappers
  import opened Text
  import opened Report
  import opened Tags
  import opened Drawing

  /** The free-text environment input starts open exactly when the environment is not an iOS, Android or Web button. */
  function InitialOtherEnv(environment: string): (r: bool)
    ensures r <==> environment != "iOS" && environment != "Android" && environment != "Web"
  {
    environment !in [EnvName(IOS), EnvName(Android), EnvName(Web)]
  }

  /** `Tablet` has no button of its own, so a Tablet report opens in "other" mode. */
  lemma TabletCountsAsOther()
    ensures InitialOtherEnv(EnvName(Tablet))
    ensures InitialOtherEnv("")
    ensures !InitialOtherEnv(EnvName(IOS)) && !InitialOtherEnv(EnvName(Android)) && !InitialOtherEnv(EnvName(Web))
  {
  }

  datatype EnvChoice = EnvChoice(data: ReportData, otherEnvSelected: bool)

  /**
   * An environment button. `Other` empties the environment for free-text
   * entry; any preset stores its name. Either way the marker box is dropped
   * and nothing else in the document changes.
   */
  function SelectEnvironment(data: ReportData, env: DeviceEnvironment): (r: EnvChoice)
    ensures env == Other ==> r.data.environment == "" && r.otherEnvSelected
    ensures env != Other ==> r.data.environment == EnvName(env) && !r.otherEnvSelected
    ensures r.data.markerBox == None
    ensures r.data.(environment := data.environment, markerBox := data.markerBox) == data
  {
    if env == Other then EnvChoice(data.(environment := "", markerBox := None), true)
    else EnvChoice(data.(environment := EnvName(env), markerBox := None), false)
  }

  /** A chip click on the document: only the tags change, and the tag's membership flips. */
  function ToggleTag(data: ReportData, t: string): (r: ReportData)
    ensures r.(tags := data.tags) == data
    ensures t in r.tags <==> t !in data.tags
    ensures forall u :: u != t ==> (u in r.tags <==> u in data.tags)
  {
    data.(tags := Toggle(data.tags, t))
  }

  datatype ImageField = ScreenshotField | ExpectedImageField

  /**
   * What a file input delivers: nothing chosen, or the reader's result,
   * which is null when reading failed.
   */
  datatype FileSelection = NoFile | FileRead(result: Option<string>)

  /**
   * A file input's change. With no file nothing happens. A new screenshot
   * replaces the old one and drops the marker box; a new expected image
   * replaces only itself.
   */
  function Upload(data: ReportData, field: ImageField, sel: FileSelection): (r: ReportData)
    ensures sel.NoFile? ==> r == data
    ensures sel.FileRead? && field == ScreenshotField ==>
              r.screenshot == sel.result && r.markerBox == None
              && r.(screenshot := data.screenshot, markerBox := data.markerBox) == data
    ensures sel.FileRead? && field == ExpectedImageField ==>
              r.expectedImage == sel.result && r.(expectedImage := data.expectedImage) == data
  {
    match sel
    case NoFile => data
    case FileRead(result) =>
      if field == ScreenshotField then data.(screenshot := result, markerBox := None)
      else data.(expectedImage := result)
  }

  /** The clear-marker button: the marker box goes, nothing else changes. */
  function ClearMarker(data: ReportData): (r: ReportData)
    ensures r.markerBox == None
    ensures r.(markerBox := data.markerBox) == data
  {
    data.(markerBox := None)
  }

  /** The form's own state beside the document. */
  datatype FormState = FormState(draw: DrawState, otherEnvSelected: bool, tagInput: TagInput)

  /** What the form shows: the document and the form's own state. */
  datatype Screen = Screen(data: ReportData, form: FormState)

  /**
   * The form's state when it mounts: no drag, the tag input closed and
   * empty, and "other" mode on exactly for an environment without a button.
   */
  function InitialForm(data: ReportData): (r: FormState)
    ensures r.draw.Idle? && r.tagInput == TagInput("", false)
    ensures r.otherEnvSelected <==>
              data.environment != EnvName(IOS) && data.environment != EnvName(Android) && data.environment != EnvName(Web)
  {
    FormState(Idle, InitialOtherEnv(data.environment), TagInput("", false))
  }

  /** One user action on the form. */
  datatype FormEvent =
    | ClickEnvironment(env: DeviceEnvironment)
    | TypeEnvironment(text: string)
    | PickDate(date: string)
    | ClickTag(tag: string)
    | OpenTagInput
    | TypeTag(text: string)
    | CommitTag
    | BlurTagInput
    | TypeProblem(text: string)
    | ChooseFile(field: ImageField, sel: FileSelection)
    | ClickClearMarker
    | ChooseExpectedType(kind: ExpectedResultType)
    | TypeExpectedText(text: string)
    | PointerDown(p: Point)
    | PointerMove(p: Point)
    | PointerUp
    | PointerLeave

  /** The environment buttons: every preset except Tablet. */
  predicate EnvOffered(env: DeviceEnvironment) {
    env != Tablet
  }

  /** The chips shown: the three presets plus every tag already in the document. */
  predicate TagOffered(data: ReportData, t: string) {
    t in DefaultTags || t in data.tags
  }

  /**
   * The form's reaction to one event. An event on a control the form does
   * not render leaves the screen as it is: the missing Tablet button, the
   * environment text box outside "other" mode, a chip that is neither a
   * preset nor a stored tag, the tag input while closed (and the open
   * button while it is open), the clear button without a screenshot, the
   * expected-image upload outside image mode and the expected-text box
   * outside text mode. A blur with text in the tag input keeps it open.
   * Tag-input and pointer press/release events never touch the document.
   */
  function Step(s: Screen, e: FormEvent): (r: Screen)
    ensures e.ClickEnvironment? && !EnvOffered(e.env) ==> r == s
    ensures e.TypeEnvironment? && !s.form.otherEnvSelected ==> r == s
    ensures e.ClickTag? && !TagOffered(s.data, e.tag) ==> r == s
    ensures e.OpenTagInput? && s.form.tagInput.adding ==> r == s
    ensures (e.TypeTag? || e.CommitTag? || e.BlurTagInput?) && !s.form.tagInput.adding ==> r == s
    ensures e.BlurTagInput? && s.form.tagInput.buffer != "" ==> r == s
    ensures e.ClickClearMarker? && !Present(s.data.screenshot) ==> r == s
    ensures e.ChooseFile? && e.field == ExpectedImageField && s.data.expectedResultType != ImageResult ==> r == s
    ensures e.TypeExpectedText? && s.data.expectedResultType != TextResult ==> r == s
    ensures e.OpenTagInput? || e.TypeTag? || e.BlurTagInput? || e.PointerDown? || e.PointerUp? || e.PointerLeave? ==>
              r.data == s.data
  {
    var d := s.data;
    var f := s.form;
    match e
    case ClickEnvironment(env) =>
      if !EnvOffered(env) then s
      else
        var c := SelectEnvironment(d, env);
        Screen(c.data, f.(otherEnvSelected := c.otherEnvSelected))
    case TypeEnvironment(text) =>
      if f.otherEnvSelected then s.(data := d.(environment := text)) else s
    case PickDate(date) => s.(data := d.(testDate := date))
    case ClickTag(t) =>
      if TagOffered(d, t) then s.(data := ToggleTag(d, t)) else s
    case OpenTagInput =>
      if f.tagInput.adding then s else s.(form := f.(tagInput := f.tagInput.(adding := true)))
    case TypeTag(text) =>
      if f.tagInput.adding then s.(form := f.(tagInput := f.tagInput.(buffer := text))) else s
    case CommitTag =>
      if f.tagInput.adding then
        var edit := AddCustomTag(d.tags, f.tagInput);
        Screen(d.(tags := edit.tags), f.(tagInput := edit.input))
      else s
    case BlurTagInput =>
      if f.tagInput.adding && f.tagInput.buffer == "" then
        s.(form := f.(tagInput := f.tagInput.(adding := false)))
      else s
    case TypeProblem(text) => s.(data := d.(problemDescription := text))
    case ChooseFile(field, sel) =>
      if field == ExpectedImageField && d.expectedResultType != ImageResult then s
      else s.(data := Upload(d, field, sel))
    case ClickClearMarker =>
      if Present(d.screenshot) then s.(data := ClearMarker(d)) else s
    case ChooseExpectedType(kind) => s.(data := d.(expectedResultType := kind))
    case TypeExpectedText(text) =>
      if d.expectedResultType == TextResult then s.(data := d.(expectedText := text)) else s
    case PointerDown(p) => s.(form := f.(draw := MouseDown(f.draw, d, p)))
    case PointerMove(p) => s.(data := MouseMove(f.draw, d, p))
    case PointerUp => s.(form := f.(draw := MouseUp(f.draw)))
    case PointerLeave => s.(form := f.(draw := MouseUp(f.draw)))
  }

  /** The form's reaction to a sequence of events, in order. */
  function Run(s: Screen, es: seq<FormEvent>): Screen
    decreases |es|
  {
    if es == [] then s else Run(Step(s, es[0]), es[1..])
  }

  /** Each document field is changed only by the events that own it. */
  lemma StepFieldOwnership(s: Screen, e: FormEvent)
    ensures Step(s, e).data.markerBox != s.data.markerBox ==>
              e.ClickEnvironment? || e.PointerMove? || e.ChooseFile? || e.ClickClearMarker?
    ensures Step(s, e).data.screenshot != s.data.screenshot ==> e.ChooseFile? && e.field == ScreenshotField
    ensures Step(s, e).data.expectedImage != s.data.expectedImage ==> e.ChooseFile? && e.field == ExpectedImageField
    ensures Step(s, e).data.tags != s.data.tags ==> e.ClickTag? || e.CommitTag?
    ensures Step(s, e).data.environment != s.data.environment ==> e.ClickEnvironment? || e.TypeEnvironment?
    ensures Step(s, e).data.testDate != s.data.testDate ==> e.PickDate?
    ensures Step(s, e).data.problemDescription != s.data.problemDescription ==> e.TypeProblem?
    ensures Step(s, e).data.expectedResultType != s.data.expectedResultType ==> e.ChooseExpectedType?
    ensures Step(s, e).data.expectedText != s.data.expectedText ==> e.TypeExpectedText?
  {
  }

  /** A tag as the form can store it: non-empty, neither starting nor ending with space. */
  predicate CleanTag(t: string) {
    t != "" && !IsTrimSpace(t[0]) && !IsTrimSpace(t[|t| - 1])
  }

  /** A clean tag is its own trim, so trimming it again finds the same tag. */
  lemma CleanTagIsTrimmed(t: string)
    requires CleanTag(t)
    ensures Trim(t) == t
  {
    TrimmedIsFixed(t);
  }

  /**
   * What every reachable screen satisfies: a well-formed marker box, a
   * duplicate-free list of clean tags, an empty buffer whenever the
   * custom tag input is closed, and, outside "other" mode, an environment
   * that names one of the three buttons, so that exactly one environment
   * button is highlighted.
   */
  predicate Inv(s: Screen) {
    && MarkerWellFormed(s.data.markerBox)
    && NoDup(s.data.tags)
    && (forall u :: u in s.data.tags ==> CleanTag(u))
    && (!s.form.tagInput.adding ==> s.form.tagInput.buffer == "")
    && (!s.form.otherEnvSelected ==> s.data.environment in [EnvName(IOS), EnvName(Android), EnvName(Web)])
  }

  /**
   * Whether an environment's button is drawn highlighted: the Other button
   * in "other" mode, otherwise the button whose name is the environment.
   */
  predicate Highlighted(s: Screen, env: DeviceEnvironment) {
    EnvOffered(env) && (if s.form.otherEnvSelected then EnvName(Other) else s.data.environment) == EnvName(env)
  }

  /** Exactly one environment button is highlighted. */
  predicate OneHighlighted(s: Screen) {
    && (exists env :: Highlighted(s, env))
    && (forall a, b :: Highlighted(s, a) && Highlighted(s, b) ==> a == b)
  }

  /** On every screen that keeps the invariant exactly one environment button is highlighted. */
  lemma OneButtonHighlighted(s: Screen)
    requires Inv(s)
    ensures OneHighlighted(s)
  {
    if s.form.otherEnvSelected {
      assert Highlighted(s, Other);
    } else if s.data.environment == EnvName(IOS) {
      assert Highlighted(s, IOS);
    } else if s.data.environment == EnvName(Android) {
      assert Highlighted(s, Android);
    } else {
      assert Highlighted(s, Web);
    }
  }

  lemma DefaultTagsClean(t: string)
    requires t in DefaultTags
    ensures CleanTag(t)
  {
  }

  lemma ClickTagKeepsTags(s: Screen, t: string)
    requires NoDup(s.data.tags) && (forall u :: u in s.data.tags ==> CleanTag(u))
    ensures NoDup(Step(s, ClickTag(t)).data.tags)
    ensures forall u :: u in Step(s, ClickTag(t)).data.tags ==> CleanTag(u)
  {
    var tags := s.data.tags;
    if TagOffered(s.data, t) {
      var r := Toggle(tags, t);
      assert Step(s, ClickTag(t)).data.tags == r;
      ToggleNoDup(tags, t);
      forall u | u in r
        ensures CleanTag(u)
      {
        if u == t {
          DefaultTagsClean(t);
        }
      }
    } else {
      assert Step(s, ClickTag(t)).data.tags == tags;
    }
  }

  /** A committed custom tag is clean, because it is trimmed and non-empty. */
  lemma AddCustomTagClean(tags: seq<string>, input: TagInput)
    requires forall u :: u in tags ==> CleanTag(u)
    ensures forall u :: u in AddCustomTag(tags, input).tags ==> CleanTag(u)
  {
    var v := Trim(input.buffer);
    var r := AddCustomTag(tags, input).tags;
    if v != [] && v !in tags {
      assert r == tags + [v];
      assert !IsTrimSpace(v[0]) && !IsTrimSpace(v[|v| - 1]);
      AppendClean(tags, v);
    } else {
      assert r == tags;
    }
  }

  lemma AppendClean(tags: seq<string>, v: string)
    requires (forall u :: u in tags ==> CleanTag(u)) && CleanTag(v)
    ensures forall u :: u in tags + [v] ==> CleanTag(u)
  {
    forall u | u in tags + [v]
      ensures CleanTag(u)
    {
      if u !in tags {
        assert u in [v];
      }
    }
  }

  lemma CommitTagKeepsTags(s: Screen)
    requires NoDup(s.data.tags) && (forall u :: u in s.data.tags ==> CleanTag(u))
    ensures NoDup(Step(s, CommitTag).data.tags)
    ensures forall u :: u in Step(s, CommitTag).data.tags ==> CleanTag(u)
  {
    var tags := s.data.tags;
    if s.form.tagInput.adding {
      assert Step(s, CommitTag).data.tags == AddCustomTag(tags, s.form.tagInput).tags;
      AddCustomTagNoDup(tags, s.form.tagInput);
      AddCustomTagClean(tags, s.form.tagInput);
    } else {
      assert Step(s, CommitTag).data.tags == tags;
    }
  }

  /** Every event keeps the tag part of the invariant. */
  lemma StepKeepsTags(s: Screen, e: FormEvent)
    requires NoDup(s.data.tags) && (forall u :: u in s.data.tags ==> CleanTag(u))
    ensures NoDup(Step(s, e).data.tags)
    ensures forall u :: u in Step(s, e).data.tags ==> CleanTag(u)
  {
    StepFieldOwnership(s, e);
    if e.ClickTag? {
      ClickTagKeepsTags(s, e.tag);
    } else if e.CommitTag? {
      CommitTagKeepsTags(s);
    }
  }

  /** Every event keeps the invariant. */
  lemma StepPreservesInv(s: Screen, e: FormEvent)
    requires Inv(s)
    ensures Inv(Step(s, e))
  {
    StepKeepsTags(s, e);
    if e.PointerMove? {
      MouseMovePreservesMarker(s.form.draw, s.data, e.p);
    }
  }

  /** Every sequence of events keeps the invariant. */
  lemma {:induction false} RunPreservesInv(s: Screen, es: seq<FormEvent>)
    requires Inv(s)
    ensures Inv(Run(s, es))
    decreases |es|
  {
    if es != [] {
      StepPreservesInv(s, es[0]);
      RunPreservesInv(Step(s, es[0]), es[1..]);
    }
  }

  lemma RunFour(s: Screen, es: seq<FormEvent>)
    requires |es| == 4
    ensures Run(s, es) == Step(Step(Step(Step(s, es[0]), es[1]), es[2]), es[3])
  {
    var s1 := Step(s, es[0]);
    var s2 := Step(s1, es[1]);
    var s3 := Step(s2, es[2]);
    var s4 := Step(s3, es[3]);
    assert es[1..][0] == es[1] && es[1..][1..] == es[2..];
    assert es[2..][0] == es[2] && es[2..][1..] == es[3..];
    assert es[3..][0] == es[3] && es[3..][1..] == [];
    assert Run(s, es) == Run(s1, es[1..]);
    assert Run(s1, es[1..]) == Run(s2, es[2..]);
    assert Run(s2, es[2..]) == Run(s3, es[3..]);
    assert Run(s3, es[3..]) == Run(s4, []);
  }

  /**
   * A drag on the screenshot: upload, press at (10, 10), move to (50, 40),
   * release. The marker box is the drag's rectangle and the drag is over.
   */
  lemma DragScenario(s: Screen, img: string)
    requires img != ""
    ensures var r := Run(s, [ChooseFile(ScreenshotField, FileRead(Some(img))),
                             PointerDown(Point(10.0, 10.0)), PointerMove(Point(50.0, 40.0)), PointerUp]);
            r.data.screenshot == Some(img)
            && r.data.markerBox == Some(MarkerBox(10.0, 10.0, 40.0, 30.0))
            && r.form.draw.Idle?
  {
    var es := [ChooseFile(ScreenshotField, FileRead(Some(img))),
               PointerDown(Point(10.0, 10.0)), PointerMove(Point(50.0, 40.0)), PointerUp];
    var s1 := Step(s, es[0]);
    var s2 := Step(s1, es[1]);
    var s3 := Step(s2, es[2]);
    var s4 := Step(s3, es[3]);
    RunFour(s, es);
  }

  /**
   * A screenshot read that fails in the middle of a drag leaves the
   * screenshot null, and the next move still sets a marker box: the
   * document can hold a marker without a screenshot.
   */
  lemma MarkerWithoutScreenshot(s: Screen, img: string)
    requires img != ""
    ensures var r := Run(s, [ChooseFile(ScreenshotField, FileRead(Some(img))), PointerDown(Point(10.0, 10.0)),
                             ChooseFile(ScreenshotField, FileRead(None)), PointerMove(Point(50.0, 40.0))]);
            r.data.screenshot == None && r.data.markerBox.Some?
  {
    var es := [ChooseFile(ScreenshotField, FileRead(Some(img))), PointerDown(Point(10.0, 10.0)),
               ChooseFile(ScreenshotField, FileRead(None)), PointerMove(Point(50.0, 40.0))];
    var s1 := Step(s, es[0]);
    var s2 := Step(s1, es[1]);
    var s3 := Step(s2, es[2]);
    var s4 := Step(s3, es[3]);
    RunFour(s, es);
  }
}
