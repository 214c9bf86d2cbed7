/**
 * The report preview: what the exported picture shows for a document.
 * Layout and styling are dropped; what remains is which panel each column
 * shows, the text of every line, and the tag chips.
 */
module Preview {
  import opened Wrappers
  import opened Text
  import opened Report

  const EnvironmentPlaceholder: string := "未填寫"
  const DatePlaceholder: string := "未選擇"
  const ProblemPlaceholder: string := "尚未輸入問題描述內容"
  const ExpectedTextPlaceholder: string := "尚未輸入預期效果內容"
  const ImagePlaceholder: string := "尚未上傳截圖"

  /**
   * A tag chip's text: the first character upper-cased, the rest
   * lower-cased (ASCII letters only), same length.
   */
  function FormatTag(tag: string): (r: string)
    ensures |r| == |tag|
    ensures tag != "" ==> r[0] == UpperChar(tag[0])
    ensures forall i :: 1 <= i < |tag| ==> r[i] == LowerChar(tag[i])
  {
    if tag == "" then "" else [UpperChar(tag[0])] + LowerAll(tag[1..])
  }

  /** Formatting a formatted tag changes nothing. */
  lemma FormatTagIdempotent(tag: string)
    ensures FormatTag(FormatTag(tag)) == FormatTag(tag)
  {
    var f := FormatTag(tag);
    var g := FormatTag(f);
    if tag != "" {
      assert g[0] == f[0];
      forall i | 1 <= i < |g|
        ensures g[i] == f[i]
      {
      }
    }
  }

  /** Formatting only changes letter case: ignoring case, the chip reads as the stored tag. */
  lemma FormatTagKeepsLetters(tag: string)
    ensures LowerAll(FormatTag(tag)) == LowerAll(tag)
  {
    var a := LowerAll(FormatTag(tag));
    var b := LowerAll(tag);
    forall i | 0 <= i < |a|
      ensures a[i] == b[i]
    {
    }
  }

  /** A stored "wEB" tag shows as "Web", and an empty tag as nothing. */
  lemma FormatTagExample()
    ensures FormatTag("wEB") == "Web"
    ensures FormatTag("") == ""
  {
    var a := FormatTag("wEB");
    assert a[0] == 'W' && a[1] == 'e' && a[2] == 'b';
  }

  /** JavaScript's `value || placeholder` for a string. */
  function OrPlaceholder(value: string, placeholder: string): (r: string)
    ensures value != "" ==> r == value
    ensures value == "" ==> r == placeholder
  {
    if value != "" then value else placeholder
  }

  /**
   * The date line: an empty date shows its placeholder; otherwise every
   * '-' becomes '/', every other character and the length stay.
   */
  function DisplayDate(testDate: string): (r: string)
    ensures testDate == "" ==> r == DatePlaceholder
    ensures testDate != "" ==> |r| == |testDate| && '-' !in r
    ensures testDate != "" ==> forall i :: 0 <= i < |testDate| ==>
              if testDate[i] == '-' then r[i] == '/' else r[i] == testDate[i]
  {
    if testDate == "" then DatePlaceholder else ReplaceAll(testDate, '-', '/')
  }

  /** An ISO date displays with slashes, and the slashes can be turned back into the stored date. */
  lemma DisplayDateRoundTrip(testDate: string)
    requires testDate != "" && '/' !in testDate
    ensures ReplaceAll(DisplayDate(testDate), '/', '-') == testDate
  {
    ReplaceAllRoundTrip(testDate, '-', '/');
  }

  datatype ActualPanel =
    | ScreenshotPanel(src: string, overlay: Option<MarkerBox>)
    | MissingScreenshot(caption: string)

  datatype ExpectedPanel =
    | ExpectedImagePanel(src: string)
    | MissingExpectedImage(caption: string)
    | ExpectedTextPanel(text: string)

  /** What the preview shows. `narrowColumns` is the mobile column width. */
  datatype View = View(
    narrowColumns: bool,
    actual: ActualPanel,
    expected: ExpectedPanel,
    environmentLine: string,
    dateLine: string,
    chips: Option<seq<string>>,
    problemLine: string)

  /**
   * The preview of a document. The left column shows the screenshot, with
   * the marker box over it exactly when both are there. The right column
   * follows the expected-result type. Empty fields show placeholders, and
   * the chip row is left out for an empty tag list.
   */
  function Render(d: ReportData): (v: View)
    ensures v.narrowColumns <==> d.environment == "iOS" || d.environment == "Android"
    ensures v.actual.ScreenshotPanel? <==> Present(d.screenshot)
    ensures v.actual.ScreenshotPanel? ==> v.actual.src == d.screenshot.value
    ensures v.actual.ScreenshotPanel? && v.actual.overlay.Some? <==> Present(d.screenshot) && d.markerBox.Some?
    ensures v.actual.ScreenshotPanel? ==> v.actual.overlay == d.markerBox
    ensures v.actual.MissingScreenshot? ==> v.actual.caption == ImagePlaceholder
    ensures v.expected.ExpectedTextPanel? <==> d.expectedResultType == TextResult
    ensures v.expected.ExpectedImagePanel? <==> d.expectedResultType == ImageResult && Present(d.expectedImage)
    ensures v.expected.ExpectedImagePanel? ==> v.expected.src == d.expectedImage.value
    ensures v.expected.MissingExpectedImage? ==> v.expected.caption == ImagePlaceholder
    ensures v.expected.ExpectedTextPanel? && d.expectedText != "" ==> v.expected.text == d.expectedText
    ensures v.expected.ExpectedTextPanel? && d.expectedText == "" ==> v.expected.text == ExpectedTextPlaceholder
    ensures d.environment != "" ==> v.environmentLine == d.environment
    ensures d.environment == "" ==> v.environmentLine == EnvironmentPlaceholder
    ensures d.problemDescription != "" ==> v.problemLine == d.problemDescription
    ensures d.problemDescription == "" ==> v.problemLine == ProblemPlaceholder
    ensures v.dateLine == DisplayDate(d.testDate)
    ensures v.chips.None? <==> d.tags == []
    ensures v.chips.Some? ==>
              |v.chips.value| == |d.tags| && forall i :: 0 <= i < |d.tags| ==> v.chips.value[i] == FormatTag(d.tags[i])
  {
    View(
      IsMobile(d.environment),
      if Present(d.screenshot) then ScreenshotPanel(d.screenshot.value, d.markerBox)
      else MissingScreenshot(ImagePlaceholder),
      if d.expectedResultType == ImageResult then
        (if Present(d.expectedImage) then ExpectedImagePanel(d.expectedImage.value)
         else MissingExpectedImage(ImagePlaceholder))
      else ExpectedTextPanel(OrPlaceholder(d.expectedText, ExpectedTextPlaceholder)),
      OrPlaceholder(d.environment, EnvironmentPlaceholder),
      DisplayDate(d.testDate),
      if |d.tags| > 0 then Some(seq(|d.tags|, i requires 0 <= i < |d.tags| => FormatTag(d.tags[i])))
      else None,
      OrPlaceholder(d.problemDescription, ProblemPlaceholder))
  }
}
