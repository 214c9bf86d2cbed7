# QA test-report builder: report document, form and preview

This project models the state logic of a browser-based QA test-report builder. The user fills in a report form: device environment, test date, tags, a problem description, an "actual" screenshot with one red marker box drawn over it, and an expected result given as text or an image. A live preview composes the report, and the shell exports that preview as a PNG file.

The model follows the document shape that `App.tsx`, `components/ReportForm.tsx` and `components/ReportPreview.tsx` actually use. That shape has a single optional `markerBox` and an `expectedResultType` toggle. `types.ts` supplies the `ReportData` type and the `DeviceEnvironment` names that this code uses, but it also declares per-image marker lists and file names, and the code never reads or writes those.

Modules (one per concern, all pure functions over immutable values):

- `Wrappers`: the `Option` used for every nullable field.
- `Text`: the JavaScript string primitives the code relies on. These are `trim`, ASCII case mapping, single-character `replace(/c/g, d)`, `padStart` and `String(n)`.
- `Report`: the `ReportData` document, `MarkerBox`, the environment presets, JavaScript truthiness of a nullable string, and the mobile-layout predicate.
- `Tags`: the insertion-ordered tag list. It covers the chip toggle (`toggleTag`) and the custom tag input (`addCustomTag`).
- `Drawing`: the Idle/Drawing gesture machine and the draft rectangle spanned by the start point and the pointer.
- `Form`: every form handler as a whole-document update, plus the form's local state. `Form.Step` dispatches one user event. An event on a control that is not rendered has no effect. `Form.Run` replays a sequence of events, and `Form.Inv` is the invariant that every reachable screen keeps.
- `Preview`: what the preview shows for a document. That covers panels, overlay, placeholder texts, the date line and tag chips.
- `App`: the initial document, the export file name, and the `isExporting` flag around an export.

Two modelling points are worth knowing:

- The code has no minimum marker size, no clamping of coordinates to [0, 100], and no MIME-type or 10 MiB checks on uploads: the file inputs carry `accept="image/*"` (components/ReportForm.tsx:259, 297, 342, 357), which only filters the browser's file picker and which the handler does not enforce. It also has no "remove image" action and no marker lists. The model leaves all of these out.
- The browser's file reader reports a failed read with a null result, and the upload handler stores that null. So a screenshot read that fails in the middle of a drag, followed by a pointer move, leaves a marker box without a screenshot. `Form.MarkerWithoutScreenshot` exhibits this trace. The preview still shows no overlay in that state, because it checks both fields (`Preview.Render`). For this reason `Form.Inv` does not claim that a marker implies a screenshot.

## Model

| member | source | states |
|---|---|---|
| `Text.Trim` | components/ReportForm.tsx:86 | the input splits as space, result, space; the result neither starts nor ends with JavaScript trim-space; it is empty exactly when the input is all space |
| `Text.TrimIdempotent` | components/ReportForm.tsx:86-87 | trimming the trimmed custom tag again changes nothing |
| `Text.UpperChar` | components/ReportPreview.tsx:16 | lower-case ASCII letters move to upper case, every other character is unchanged |
| `Text.LowerChar` | components/ReportPreview.tsx:16 | upper-case ASCII letters move to lower case, every other character is unchanged |
| `Text.LowerAll` | components/ReportPreview.tsx:16 | `toLowerCase` keeps the length and lower-cases each character in place |
| `Text.ReplaceAll` | components/ReportPreview.tsx:90 | a global single-character replace keeps the length, and changes exactly the matching positions |
| `Text.ReplaceAllRoundTrip` | components/ReportPreview.tsx:90 | after replacing every '-' by '/', no '-' is left, and replacing back restores a string that had no '/' |
| `Text.PadStart` | App.tsx:50-51 | `padStart(n, c)` yields length max(n, old length), keeps the original as suffix and fills the front with `c` |
| `Text.DigitChar` | App.tsx:50-51 | a digit value 0-9 becomes the decimal character with that value |
| `Text.Digits` | App.tsx:49-52 | `String(n)` for a natural number is a non-empty digit string with no leading zero unless n is 0 |
| `Text.DigitsRoundTrip` | App.tsx:49-52 | reading back the decimal digits of n gives n |
| `Text.DigitsLength` | App.tsx:49-52 | a number in the range 10^(k-1) <= n < 10^k prints with exactly k digits, for k from 1 to 4 (0 prints as one digit) |
| `Text.LeadingZero` | App.tsx:50-51 | a '0' put in front by padding does not change the decimal value |
| `Text.IntToString` | App.tsx:52 | `String(year)` is the canonical decimal form: it reads back as the year, has no leading zero (except for 0 itself), and has a leading '-' followed by a non-zero digit for a negative year |
| `Text.TrimStart` | components/ReportForm.tsx:86 | leading trim-space is dropped: the result is a suffix and everything dropped is space |
| `Text.TrimEnd` | components/ReportForm.tsx:86 | trailing trim-space is dropped: the result is a prefix and everything dropped is space |
| `Text.TrimmedIsFixed` | components/ReportForm.tsx:86 | a string that neither starts nor ends with space is its own trim |
| `Tags.Remove` | components/ReportForm.tsx:80 | `filter(t => t !== tag)` removes every occurrence of the tag and keeps every other entry with its multiplicity |
| `Tags.RemoveKeepsOrder` | components/ReportForm.tsx:80 | the filtered list is a subsequence of the original, so the order is kept |
| `Tags.RemoveAppend` | components/ReportForm.tsx:80 | filtering a concatenation filters each part separately |
| `Tags.RemoveAbsent` | components/ReportForm.tsx:79-80 | filtering out a value that does not occur changes nothing |
| `Tags.RemoveNoDup` | components/ReportForm.tsx:80 | filtering keeps a duplicate-free list duplicate-free |
| `Tags.Toggle` | components/ReportForm.tsx:78-83 | a present tag is removed everywhere and the rest keep their order; an absent tag is appended at the end; every other tag keeps its membership |
| `Tags.ToggleTwiceMembership` | components/ReportForm.tsx:79-81 | toggling the same tag twice restores whether it is in the list |
| `Tags.ToggleTwice` | components/ReportForm.tsx:79-81 | two toggles of an absent tag restore the list exactly; two toggles of a present tag move it to the end |
| `Tags.ToggleNoDup` | components/ReportForm.tsx:79-81 | toggling never creates a duplicate in a duplicate-free list |
| `Tags.AddCustomTag` | components/ReportForm.tsx:85-91 | an empty or already-present trimmed value leaves tags, buffer and mode untouched; otherwise the value is appended exactly once, the buffer cleared and the input closed |
| `Tags.AddCustomTagIdempotent` | components/ReportForm.tsx:85-91 | committing twice has the effect of committing once |
| `Tags.AddCustomTagNoDup` | components/ReportForm.tsx:86-87 | committing keeps the tag list duplicate-free |
| `Tags.AddCustomTagRejects` | components/ReportForm.tsx:86 | "", "   " and " Content " when "Content" is present all leave the tags unchanged |
| `Tags.PaddedContent` | components/ReportForm.tsx:86 | " Content " trims to "Content" |
| `Report.PresentIsTruthy` | components/ReportForm.tsx:49 | the screenshot/image test used by the form and the preview holds exactly for a value that is neither null nor the empty string |
| `Report.MobileIsPhones` | components/ReportPreview.tsx:10 | of the environment presets exactly iOS and Android get the mobile layout; an empty environment does not |
| `Drawing.Draft` | components/ReportForm.tsx:63-66 | the draft box's left/top edges are the smaller coordinates, its right/bottom edges the larger ones, and its sides are non-negative |
| `Drawing.DraftFarEdges` | components/ReportForm.tsx:63-66 | x + width and y + height are the larger coordinates of the two points |
| `Drawing.DraftSymmetric` | components/ReportForm.tsx:63-66 | the draft box does not depend on the drag direction |
| `Drawing.DraftIsBoundingBox` | components/ReportForm.tsx:63-66 | the draft box holds both points and lies inside every box that holds both |
| `Drawing.DraftExample` | components/ReportForm.tsx:63-66 | dragging from (10, 10) to (50, 40) draws the box at (10, 10) sized 40 by 30 |
| `Drawing.MouseDown` | components/ReportForm.tsx:48-55 | without a (truthy) screenshot nothing happens; otherwise the start point is recorded and drawing begins |
| `Drawing.MouseMove` | components/ReportForm.tsx:57-72 | while Idle the document is unchanged; while Drawing only the marker box changes, to the draft from the start point |
| `Drawing.MouseUp` | components/ReportForm.tsx:74-76 | release or leave always ends the drag, whatever the state |
| `Drawing.MouseMovePreservesMarker` | components/ReportForm.tsx:63-71 | a pointer move keeps the marker box well-formed: absent or with non-negative sides |
| `Form.InitialForm` | components/ReportForm.tsx:13-20 | the form mounts with no drag, the tag input closed and empty, and "other" mode on exactly when the environment is not the iOS, Android or Web name |
| `Form.Step` | components/ReportForm.tsx:110-365 | events on controls that are not rendered change nothing: the missing Tablet button, the environment text box outside "other" mode, a chip that is neither a preset nor a stored tag, the tag input while closed, its open button while open, the clear button without a truthy screenshot, the expected-image upload outside image mode, the expected-text box outside text mode; a blur with text typed keeps the input open; tag-input and pointer press/release events never change the document |
| `Form.InitialOtherEnv` | components/ReportForm.tsx:15-17 | "other" mode starts on exactly when the environment is not iOS, Android or Web |
| `Form.TabletCountsAsOther` | components/ReportForm.tsx:15-17 | a Tablet or empty environment opens in "other" mode; iOS, Android and Web do not |
| `Form.SelectEnvironment` | components/ReportForm.tsx:93-101 | Other empties the environment and turns other-mode on; a preset stores its name and turns it off; both drop the marker box and change nothing else |
| `Form.ToggleTag` | components/ReportForm.tsx:78-83 | a chip click flips the tag's membership, keeps every other tag's membership and changes no other field |
| `Form.Upload` | components/ReportForm.tsx:32-46 | no file means no change; a screenshot read sets the screenshot (null on a failed read) and drops the marker box; an expected-image read sets only that image |
| `Form.ClearMarker` | components/ReportForm.tsx:237 | the marker box is dropped and nothing else changes |
| `Form.StepFieldOwnership` | components/ReportForm.tsx:121-357 | each of the nine document fields changes only through the controls that own it: the marker box through environment buttons, pointer moves, uploads and the clear button; each image through its own upload; tags through chips and the custom tag commit; the environment through its buttons and text box; date, problem text, expected-result type and expected text each through their own control |
| `Form.CleanTagIsTrimmed` | components/ReportForm.tsx:86 | a stored tag that neither starts nor ends with space is its own trim |
| `Form.DefaultTagsClean` | components/ReportForm.tsx:30 | the three preset tags are non-empty and trimmed |
| `Form.ClickTagKeepsTags` | components/ReportForm.tsx:168-192 | clicking a chip (presets and stored tags only) keeps the tag list duplicate-free and clean |
| `Form.AddCustomTagClean` | components/ReportForm.tsx:86-87 | a custom tag is only ever stored trimmed and non-empty, so the tag list stays clean |
| `Form.CommitTagKeepsTags` | components/ReportForm.tsx:194-209 | committing the custom tag input keeps the tag list duplicate-free and clean |
| `Form.StepKeepsTags` | components/ReportForm.tsx:121-357 | no form event creates a duplicate, empty or untrimmed tag |
| `Form.OneButtonHighlighted` | components/ReportForm.tsx:118-123 | on a screen meeting the invariant exactly one of the iOS, Android, Web and Other buttons is highlighted |
| `Form.StepPreservesInv` | components/ReportForm.tsx:121-357 | every form event keeps the invariant: well-formed marker, duplicate-free clean tags, empty buffer while the tag input is closed, and outside "other" mode an environment that is one of the three button names |
| `Form.RunPreservesInv` | components/ReportForm.tsx:121-357 | every sequence of form events keeps the invariant |
| `Form.DragScenario` | components/ReportForm.tsx:48-76 | upload, press at (10, 10), move to (50, 40) and release leaves the marker (10, 10, 40, 30) and an idle drag |
| `Form.MarkerWithoutScreenshot` | components/ReportForm.tsx:32-72 | a failed screenshot read during a drag, then a move, leaves a marker box with a null screenshot |
| `Preview.FormatTag` | components/ReportPreview.tsx:14-17 | the chip text has the tag's length, an upper-cased first character and lower-cased rest; "" stays "" |
| `Preview.FormatTagIdempotent` | components/ReportPreview.tsx:14-17 | formatting a formatted tag changes nothing |
| `Preview.FormatTagKeepsLetters` | components/ReportPreview.tsx:14-17 | ignoring case, the chip reads the same as the stored tag |
| `Preview.FormatTagExample` | components/ReportPreview.tsx:14-17 | "wEB" shows as "Web" and "" as "" |
| `Preview.OrPlaceholder` | components/ReportPreview.tsx:86 | `value \|\| placeholder`: a non-empty value shows verbatim, an empty one shows the placeholder |
| `Preview.DisplayDate` | components/ReportPreview.tsx:90 | an empty date shows "未選擇"; otherwise every '-' becomes '/', the rest and the length stay |
| `Preview.DisplayDateRoundTrip` | components/ReportPreview.tsx:90 | turning the slashes back into dashes restores a stored date that had no '/' |
| `Preview.Render` | components/ReportPreview.tsx:10-106 | narrow columns exactly for iOS/Android; marker overlay exactly when screenshot and marker are both there; the expected column follows the type; placeholders for empty fields; chips in list order, omitted for no tags |
| `App.DragScenarioPreview` | components/ReportPreview.tsx:34-57 | after upload, press at (10, 10), move to (50, 40) and release, the preview shows the uploaded screenshot with the box (10, 10, 40, 30) over it |
| `App.OrphanMarkerHidden` | components/ReportPreview.tsx:34-57 | the marker left by a failed screenshot read mid-drag is never shown: the preview shows the missing-screenshot placeholder instead |
| `App.DatePart` | App.tsx:17 | `split('T')[0]` is the prefix before the first 'T', or the whole string |
| `App.DatePartOfTimestamp` | App.tsx:17 | the date part of date + "T" + time is the date |
| `App.InitialReport` | App.tsx:15-25 | the initial document is iOS, today's date, image expected result, no tags, no images, no marker and empty texts |
| `App.InitialScreen` | App.tsx:15-25 | the form opens on exactly `InitialReport`'s document, in a state that meets the invariant, with the iOS button selected and no drag |
| `App.ReachableOneButton` | components/ReportForm.tsx:118-123 | on every screen reachable from the initial one, exactly one environment button is highlighted |
| `App.ReachableScreensKeepInv` | App.tsx:141 | every screen the form reaches from the initial one meets the invariant |
| `App.Pad2` | App.tsx:50-51 | `String(n).padStart(2, '0')` is two digits reading back as n for n below 100, the plain digits above |
| `App.PaddedDigits` | App.tsx:50-51 | padding the decimal digits of n to two yields digits reading back as n |
| `App.OneDigitPadded` | App.tsx:50-51 | a single digit is padded with one '0' in front, keeping its value |
| `App.DateStamp` | App.tsx:48-52 | for a plausible clock day (four-digit year, month index 0-11, day 1-31) the stamp is 8 digits whose parts read back as year, month counted from 1, and day |
| `App.StampParts` | App.tsx:52 | concatenating a four-digit year and two two-digit fields gives 8 digits with each part in place |
| `App.ExportFileName` | App.tsx:55 | for a plausible clock day the name is the 8-digit stamp followed by "_test_report.png" (24 characters) |
| `App.BeginExport` | App.tsx:31-34 | a disabled button or an absent report node changes nothing; otherwise the busy flag goes up and the document is untouched |
| `App.FinishExport` | App.tsx:45-63 | success and failure both lower the busy flag and keep the document; success downloads under today's name, failure alerts |
| `App.ExportCycle` | App.tsx:31-87 | while an export runs the button is disabled and a second click does nothing; afterwards the shell is back as it was |

## Left out

- Layout, styling and markup are not modelled: the form-position toggle (App.tsx:27, 125-138), container sizing classes and button highlight classes.
- Rasterisation through `html2canvas`, `toDataURL`, the 500 ms delay and the anchor click are not modelled. They are foreign browser calls, so an export's result is a parameter (`App.RenderOutcome`) that may succeed or fail. The `console.error` logging is also left out.
- The clock is a parameter: `App.InitialReport` takes the ISO reading, and the export name takes the clock's calendar day.
- `FileReader` decoding is not modelled. An upload delivers its result, or null for a failed read, in one step. The handler's closure over the document from selection time, and the ordering of overlapping reads, are left out because they are asynchronous.
- Pixel-to-percent conversion through `getBoundingClientRect` is floating-point browser geometry. Pointer positions arrive as real percentages instead.
- Drawing.Draft: computes the box's corner, width and height over exact reals. The code rounds each subtraction, `Math.min` and `Math.abs` result to an IEEE-754 double. So `Draft`'s far-edge ensures hold in the code only up to one rounding, and so do `Drawing.DraftFarEdges` and `Drawing.DraftIsBoundingBox`. A drag from x = 83.8 to x = 18.591 gives x + width = 83.80000000000001 in doubles.
- Drawing.DraftFarEdges: exact over reals; in the code x + width equals the larger coordinate only up to one double rounding (see Drawing.Draft).
- Drawing.DraftIsBoundingBox: exact over reals; in the code the pointer can lie just outside its own box by one double rounding (see Drawing.Draft).
- The `containerRef` null guards are not modelled: the container exists whenever it receives pointer events.
- React state batching is not modelled. In particular, two clicks inside one render before the busy flag is re-rendered are left out. Every event sees the state the previous event produced.
- Preview.FormatTag: maps ASCII letters only. Other characters are kept as they are, whereas JavaScript's `toUpperCase`/`toLowerCase` also map non-ASCII letters and can change length. The model's characters are Unicode scalars, not UTF-16 code units.
- App.DateStamp: the digit-count property is stated for four-digit years only. The function itself covers every integer year, including negative years and years of other lengths.
- `src/utils/chrome.ts` is not part of this model. Its extension download API, `fetch`, Blob and object URLs are browser I/O. Nothing in the modelled files calls it.
- `vite.config.ts`, `tailwind.config.js` and `public/background.js` are not part of this model. They are build configuration and extension window glue.
- The per-image marker lists and file names of `types.ts`, the minimum box size, coordinate clamping, upload type and size limits, and image removal are not in the modelled code, so they are not in the model.
