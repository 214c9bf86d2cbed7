/**
 * The report document the application edits and renders: one actual
 * screenshot with at most one marker box, and an expected result that is
 * either text or an image.
 */
module Report {
  import opened Wrappers

  /** A rectangle in percent of the screenshot's rendered size; (x, y) is its top-left corner. */
  datatype MarkerBox = MarkerBox(x: real, y: real, width: real, height: real)

  /** Which half of the expected-result toggle is chosen. */
  datatype ExpectedResultType = TextResult | ImageResult

  /**
   * One report document. Nullable fields are `Option`s; images are the data
   * URIs the file reader produced, kept opaque.
   */
  datatype ReportData = ReportData(
    environment: string,
    testDate: string,
    screenshot: Option<string>,
    problemDescription: string,
    expectedResultType: ExpectedResultType,
    expectedText: string,
    expectedImage: Option<string>,
    markerBox: Option<MarkerBox>,
    tags: seq<string>)

  /** The environment presets; the form offers all but `Tablet` as buttons. */
  datatype DeviceEnvironment = IOS | Android | Tablet | Web | Other

  function EnvName(env: DeviceEnvironment): string {
    match env
    case IOS => "iOS"
    case Android => "Android"
    case Tablet => "Tablet"
    case Web => "Web"
    case Other => "Other"
  }

  /** JavaScript truthiness of a `string | null`: null and "" are both falsy. */
  predicate Present(o: Option<string>) {
    o.Some? && o.value != ""
  }

  /** Mobile layout: the environment is exactly the iOS or Android preset name. */
  predicate IsMobile(environment: string) {
    environment == EnvName(IOS) || environment == EnvName(Android)
  }

  /** Truthiness in JavaScript terms: exactly null and the empty string are falsy. */
  lemma PresentIsTruthy(o: Option<string>)
    ensures Present(o) <==> o != None && o != Some("")
  {
  }

  /** Of the presets, exactly iOS and Android get the mobile layout; an empty environment does not. */
  lemma MobileIsPhones(env: DeviceEnvironment)
    ensures IsMobile(EnvName(env)) <==> env == IOS || env == Android
    ensures !IsMobile("")
  {
  }
}
