# Time-zone converter overlays, modelled in Dafny

The extension puts a small converter on the current page in one of two ways.

- **The background script's overlay** (`background.js`) has a free-text time field, a "From" list and a "To" list of 14 zone ids, and a Convert button. The click handler:
  - trims the text;
  - refuses empty input;
  - short-circuits when both zones are the same;
  - finds the first match of `(\d{1,2}):(\d{2})\s*(AM|PM)?` (case-insensitive, not anchored);
  - moves the hour to the 24-hour clock;
  - range-checks hour and minute;
  - then formats "today at that time" for the target zone.

  When the overlay is built, the "From" list pre-selects the system zone. If that zone is not listed, it picks the first entry sharing a `/`-segment with it, and otherwise "UTC".
- **The content script's overlay** (`content_script.js`):
  - toggles its inline `display` when the script runs again;
  - fills two lists from 16 sorted zone ids, labelled with underscores removed ("From") or replaced by spaces ("To");
  - selects the user's zone (or America/New_York) and Etc/UTC;
  - starts its `datetime-local` field at the current local time, zero-padded;
  - converts on every `change`;
  - can be dragged: its right and bottom edges are kept inside the viewport, and its left and top edges too when it fits.

The Dafny modules follow that structure:

| module | file | models |
|---|---|---|
| `Wrappers` | wrappers.dfy | `Option` and `Result` |
| `Text` | text.dfy | the JavaScript string operations used: `parseInt` on digit runs, `toString`, `padStart`, `trim`, `includes`, `split`, one-character global `replace` |
| `StringOrder` | string_order.dfy | the order of `Array.prototype.sort()` without a comparator on strings of code points (it agrees with JavaScript's UTF-16 order below U+10000, which covers the zone ids), and a sort proved to give the unique sorted permutation |
| `TimeParser` | time_parser.dfy | the regular expression, the AM/PM rule, the range check and the order of the early returns |
| `ConvertButton` | convert_button.dfy | the source-zone pre-selection and what the results area shows after a click |
| `ZoneSelects` | zone_selects.dfy | `getTimeZones`, the option labels, the `<select>` value rules and `populateTimeZoneSelects` |
| `OverlayPanel` | overlay_panel.dfy | the show/hide toggle, `convertTime` and the default date-and-time value |
| `DragControl` | drag_control.dfy | the drag listeners and the viewport clamp |

The platform's clock, `setHours`, `new Date(string)`, `Intl.DateTimeFormat` and `toLocaleString` are not modelled. They enter as function parameters (`now`, `setHours`, `parseDate`, `format`), so every property proved holds whatever the platform does.

The handler's own comments say the typed time should be read in the source zone (background.js:318-319, 362). The code does not do that: `today.setHours(...)` builds the instant in the system's own zone (background.js:377-379). The source-zone formatting at background.js:393 is computed and never shown; only an exception thrown by it reaches the screen. The model follows the code. `ConvertButton.ResultIgnoresSourceZone` states the consequence: any two source zones the formatter accepts give the same result. `OverlayPanel.FromZoneIgnored` states the same for `convertTime`, which reads the "From" zone (content_script.js:145) but never uses it.

## Model

| member | source | states |
|---|---|---|
| Text.DigitsValue | background.js:343-344 | `parseInt` of a digit run of length k is below 10^k |
| Text.LeadingZero | background.js:343-344 | a leading zero does not change the value `parseInt` reads |
| Text.NatToString | content_script.js:189-192 | `toString` of a natural number is a digit run that reads back as the number, with no leading zero except for 0 itself; one digit below 10, two from 10 to 99 |
| Text.IntToString | content_script.js:188 | `toString` of any integer: digits without a leading zero reading back as the value, after a minus sign when it is negative |
| Text.PadStart | content_script.js:189-192 | `padStart` gives `max(width, |s|)` characters: the fill, then `s` unchanged at the right |
| Text.TwoDigits | content_script.js:189-192 | at least two characters, exactly two below 100; below 10 a '0' before the single digit, from 10 on the plain `toString` |
| Text.TwoDigitsRoundTrip | content_script.js:189-192 | a value below 100, padded to two places, is exactly two digits reading back as the value |
| Text.LeadingSpaces | background.js:299 | counts exactly the white space at the start of the text |
| Text.TrailingSpaces | background.js:299 | counts exactly the white space at the end of the text |
| Text.Trim | background.js:299 | `trim` is empty exactly for all-white-space input; otherwise it starts and ends with a non-space; it is a contiguous slice of the input with only white space before and after it |
| Text.ContainsIff | background.js:229 | `includes` holds exactly when the needle occurs at some position of the haystack |
| Text.IndexOf | background.js:229 | the position of the first occurrence of the character |
| Text.Split | background.js:229 | `split` on a character gives at least one part, and no part holds the separator |
| Text.JoinSplit | background.js:229 | splitting loses nothing: joining the parts with the separator gives the text back |
| Text.ReplaceChar | content_script.js:123 | `replace(/c/g, d)` keeps the length and changes exactly the positions holding `c` |
| Text.ReplaceCharUndo | content_script.js:123 | replacing by a character absent from the text is undone by the reverse replacement |
| Text.RemoveChar | content_script.js:118 | `replace(/c/g, '')` leaves no `c`, adds no character, and is the identity on text without `c` |
| Text.RemoveCharAppend | content_script.js:118 | removal distributes over concatenation |
| Text.RemoveAfterReplace | content_script.js:118-123 | removing `d` after turning `c` into `d` equals removing both |
| StringOrder.BelowReflexive | content_script.js:99 | the default sort order is reflexive |
| StringOrder.BelowTotal | content_script.js:99 | the default sort order is total |
| StringOrder.BelowAntisymmetric | content_script.js:99 | the default sort order is antisymmetric |
| StringOrder.BelowTransitive | content_script.js:99 | the default sort order is transitive |
| StringOrder.SortedFromNeighbours | content_script.js:99 | neighbours in order imply the whole sequence is sorted |
| StringOrder.Insert | content_script.js:99 | insertion into a sorted sequence adds exactly one element and stays sorted |
| StringOrder.Sort | content_script.js:99 | the result is a permutation of the input and sorted |
| StringOrder.SortedUnique | content_script.js:99 | two sorted permutations of the same strings are equal, so any sort algorithm gives the same list |
| TimeParser.UpperString | background.js:345 | `toUpperCase` keeps the length and upper-cases each ASCII letter |
| TimeParser.SkipSpaces | background.js:335 | the greedy `\s*` stops exactly at the first non-space |
| TimeParser.GroupsAt | background.js:335-336 | the groups of a match: the hour digits, exactly two minute digits, and the AM/PM group present exactly when `AM` or `PM` in either case follows the minutes and their white space, holding that text |
| TimeParser.MatchAt | background.js:335-336 | an attempt at a position succeeds exactly when `\d{1,2}:\d{2}` occurs there, with two hour digits preferred |
| TimeParser.FindFrom | background.js:335-338 | the leftmost match: none exactly when the pattern occurs nowhere; otherwise no occurrence before it |
| TimeParser.FindTime | background.js:335-336 | `match` finds nothing exactly when the pattern occurs nowhere; otherwise the match at the first position where it occurs |
| TimeParser.FirstMatch | background.js:335-336 | the match found is the one at the first position where the pattern occurs |
| TimeParser.MeridiemOf | background.js:345 | the marker is PM or AM exactly when the group is present and upper-cases to that text |
| TimeParser.Reading | background.js:343-351 | the minute is the minute digits' value; the hour is the typed hour unless it is 1-12 with a marker, which turns it into the 24-hour hour of that 12-hour reading, or 0 with PM, which gives 12 |
| TimeParser.To12Hour | background.js:347-351 | a 12-hour reading is an hour in 1..12 with a marker |
| TimeParser.To24Hour | background.js:347-351 | PM below 12 adds 12, 12 AM is 0, every other combination leaves the hour alone; inverse of `To12Hour` on proper readings |
| TimeParser.TwelveHourRoundTrip | background.js:347-351 | every hour of the day is recovered from its 12-hour reading |
| TimeParser.ParseTypedTime | background.js:299-356 | empty (all white space) first, then same zones, then no match anywhere, then out-of-range values; an `Ok` is always in range and is the reading of the first match |
| TimeParser.PatternAnywhereIsNotBadFormat | background.js:299-341 | with distinct zones, a `\d{1,2}:\d{2}` anywhere in the untrimmed input means the input is neither refused as empty nor as badly formed |
| TimeParser.TrimmedAlready | background.js:299 | a text that starts and ends with a non-space is its own trim |
| TimeParser.OutcomeOfMatch | background.js:336-356 | once the match is known, the outcome is its reading, range-checked |
| TimeParser.TwelveAmIsMidnight | background.js:349-350 | "12:00 AM" gives 0:00 |
| TimeParser.TwelvePmIsNoon | background.js:347-351 | "12:00 PM" gives 12:00 |
| TimeParser.OnePmIsThirteen | background.js:347-348 | "1:00 PM" gives 13:00 |
| TimeParser.AmIgnoredAfterTwelve | background.js:347-351 | "13:00 AM" gives 13:00 |
| TimeParser.ZeroPmIsNoon | background.js:347-348 | "0:00 PM" gives 12:00 |
| TimeParser.TimeInsideText | background.js:335-336 | the unanchored pattern finds "9:05pm" inside "at 9:05pm": 21:05 |
| TimeParser.ThreeDigitHour | background.js:335-336 | "123:45" is read as 23:45 |
| TimeParser.ThreeDigitMinute | background.js:335-336 | "1:234" is read as 1:23 |
| TimeParser.HourTooLarge | background.js:353-356 | "25:00" is refused as out of range |
| TimeParser.MinuteTooLarge | background.js:353-356 | "9:60" is refused as out of range |
| TimeParser.TwelveAmIsMidnightFound | background.js:335-345 | the match and reading of "12:00 AM" |
| TimeParser.TwelvePmIsNoonFound | background.js:335-345 | the match and reading of "12:00 PM" |
| TimeParser.OnePmIsThirteenFound | background.js:335-345 | the match and reading of "1:00 PM" |
| TimeParser.AmIgnoredAfterTwelveFound | background.js:335-345 | the match and reading of "13:00 AM" |
| TimeParser.ZeroPmIsNoonFound | background.js:335-345 | the match and reading of "0:00 PM" |
| TimeParser.TimeInsideTextFound | background.js:335-345 | the match at index 3 of "at 9:05pm" |
| TimeParser.ThreeDigitHourFound | background.js:335-345 | the match at index 1 of "123:45" |
| TimeParser.ThreeDigitMinuteFound | background.js:335-345 | the match of "1:234" stops after two minute digits |
| TimeParser.HourTooLargeFound | background.js:335-345 | the match and reading of "25:00" |
| TimeParser.MinuteTooLargeFound | background.js:335-345 | the match and reading of "9:60" |
| TimeParser.NoClockIsBadFormat | background.js:338-341 | "abc" is refused as badly formed |
| TimeParser.BlankIsEmpty | background.js:299-307 | white space only is refused as empty |
| TimeParser.SameZoneBeforeMatching | background.js:309-312 | equal zones short-circuit before the time is looked at |
| ConvertButton.SharesSegment | background.js:229 | without '/', the entry contains the whole system zone; otherwise it contains the text before the first '/' or the text between the first and second '/' |
| ConvertButton.FirstSharing | background.js:229 | `find`: none exactly when no entry shares a segment; otherwise the first entry that does |
| ConvertButton.PreselectSourceZone | background.js:224-235 | always one of the listed zones; the system zone when it is listed; otherwise the first entry sharing a segment, else "UTC"; "UTC" when detection fails |
| ConvertButton.SharesFirstSegment | background.js:229 | an entry containing the part before the first '/' of the system zone shares a segment with it |
| ConvertButton.DenverUnlisted | background.js:43-58 | "America/Denver" is not among the listed zones |
| ConvertButton.DenverSharesWithNewYork | background.js:229 | "America/New_York" shares the segment "America" with "America/Denver" |
| ConvertButton.UnlistedZoneSharesSegment | background.js:226-230 | a system zone of "America/Denver" pre-selects "America/New_York" |
| ConvertButton.ConversionError | background.js:404 | the fixed prefix, then the error's message, then ")"; the message is read back from the text |
| ConvertButton.OnConvertClick | background.js:298-406 | each early return shows its message; a conversion shows the target zone with the text the formatter gives for `setHours` of today at the typed hour and minute, seconds and milliseconds 0, in the system's zone; a failing source-zone call shows its error, and only after a source success a failing target-zone call shows its error; it succeeds exactly when both formatter calls succeed |
| ConvertButton.ResultIgnoresSourceZone | background.js:377-400 | the result is the same for any two accepted source zones that differ from the target |
| ConvertButton.SameZoneNeverFormats | background.js:309-312 | equal zones give the notice whatever the clock and the formatter do |
| ZoneSelects.TimeZones | content_script.js:88-100 | 16 ids, including the two defaults |
| ZoneSelects.TimeZonesSortedPermutation | content_script.js:91-99 | `getTimeZones()` is the listed ids, each once, in ascending order |
| ZoneSelects.AnySortGivesTimeZones | content_script.js:99 | any sorted permutation of the listed ids is `getTimeZones()` |
| ZoneSelects.FromLabel | content_script.js:118 | the "From" label has no underscore, and is the id itself when the id has none |
| ZoneSelects.ToLabel | content_script.js:123 | the "To" label has each underscore of the id replaced by a space, everything else in place |
| ZoneSelects.LabelsOfSpacelessZone | content_script.js:115-125 | the id is recovered from its "To" label; the "From" label is the "To" label without spaces |
| ZoneSelects.DefaultFromZone | content_script.js:127-131 | the user's zone when listed, else America/New_York; always a listed zone |
| ZoneSelects.Values | content_script.js:115-125 | the values of the options, in order |
| ZoneSelects.SelectBox.Clear | content_script.js:112-113 | no options and no value left |
| ZoneSelects.SelectBox.Append | content_script.js:119 | the option is added at the end; the first option of an empty list becomes the value |
| ZoneSelects.SelectBox.SetValue | content_script.js:128-132 | the value becomes `v` when an option has it, and "" otherwise; the options are unchanged |
| ZoneSelects.AddZoneOptions | content_script.js:115-125 | one "From" and one "To" option per zone, in order, each labelled from its value; the first zone becomes the selected value of both emptied lists |
| ZoneSelects.FillSelects | content_script.js:112-132 | both lists hold the zones in order; "From" selects the user's zone or the fallback; "To" selects Etc/UTC |
| ZoneSelects.PopulateTimeZoneSelects | content_script.js:103-133 | both lists hold `getTimeZones()` in order, labelled per list; the two defaults are selected |
| OverlayPanel.ToggledDisplay | content_script.js:16 | "none" becomes "block", anything else "none" |
| OverlayPanel.ToggleTwiceRestores | content_script.js:15-18 | two toggles from "none" or "block" restore it |
| OverlayPanel.ToggleReachesBoth | content_script.js:16 | from any value, two runs at most show the overlay and two at most hide it |
| OverlayPanel.Page.RunContentScript | content_script.js:11-22 | an existing overlay is only toggled; otherwise exactly one overlay is built, with no inline display |
| OverlayPanel.Page.Close | content_script.js:198-200 | the overlay leaves the page |
| OverlayPanel.Page.RunTwice | content_script.js:15-18 | scenario: two runs on a toggled overlay restore its display and build nothing |
| OverlayPanel.ErrorText | content_script.js:177 | "Error: " followed by exactly the message |
| OverlayPanel.ConvertedText | content_script.js:172 | "Converted Time: ", the formatted text unchanged, " (", the zone with each underscore turned into a space, ")" |
| OverlayPanel.ConvertTime | content_script.js:136-182 | empty field: the prompt; unparsable date: the invalid-input error; formatter failure: its message; otherwise the converted text; an error is shown exactly when one of those fails |
| OverlayPanel.EmptyFieldNeverConverts | content_script.js:148-153 | an empty field gives the prompt whatever the zones, parser and formatter |
| OverlayPanel.FromZoneIgnored | content_script.js:145-172 | the "From" zone never changes the result |
| OverlayPanel.ConvertedTextNamesZone | content_script.js:172 | the zone in parentheses, spaces turned back into underscores, is the target zone |
| OverlayPanel.DefaultDateTimeValue | content_script.js:187-193 | the value starts with the year's `toString` and a '-', and has at least twelve more characters |
| OverlayPanel.DefaultDateTimeShape | content_script.js:187-193 | the default value is the year, then `-MM-DDTHH:MM`, each field two digits reading back as month+1, day, hour, minute |
| OverlayPanel.TextLayout | content_script.js:193 | where the separators and two-digit fields of the template sit |
| DragControl.ClampAxis | content_script.js:240-243 | the far edge is always inside; the near edge is inside when the overlay fits; an oversized overlay sticks out at the start; an in-bounds position is kept |
| DragControl.ClampIsMinOfMax | content_script.js:240-243 | the clamp is `min(max(p, 0), extent - size)` |
| DragControl.ClampIdempotent | content_script.js:240-243 | clamping twice equals clamping once |
| DragControl.ClampMonotone | content_script.js:240-243 | the clamp keeps the order of positions |
| DragControl.Overlay.MouseDown | content_script.js:212-223 | a drag starts, recording pointer and offset, exactly when the target is not INPUT, SELECT or BUTTON; otherwise nothing changes |
| DragControl.Overlay.MouseMove | content_script.js:225-248 | nothing changes unless dragging; otherwise the position is the clamped start offset plus pointer travel, and the transform is dropped |
| DragControl.Overlay.MouseUp | content_script.js:250-253 | the drag always ends, with a "grab" cursor |
| DragControl.Overlay.DragOnce | content_script.js:212-253 | scenario: a press, move and release leaves the overlay at the clamped travel, not dragging, and later moves change nothing |

## Left out

- DOM construction, styles, fonts and the results-area markup. Only the text shown and whether it is styled as an error or a notice are modelled.
- The "Converting..." text shown while the handler runs (background.js:314). It is always overwritten before the handler returns.
- `chrome.action`, `chrome.scripting` and the popup and content messaging (popup.js, content.js). This is extension plumbing with no logic of the converter; popup.js and content.js are not part of this model.
- The background overlay's re-append when it already exists (background.js:408-412). It changes stacking only.
- The target list's default of America/New_York (background.js:261). It is a single assignment.
- The platform's clock, `setHours`, `new Date(string)`, `Intl.DateTimeFormat` and `toLocaleString`. These are parameters; no zone arithmetic is modelled.
- `Intl.DateTimeFormat().resolvedOptions().timeZone` is an input: `detected` for the background overlay, `userZone` for the content overlay.
- ConvertButton.SharesSegment: a system zone without '/' has no second segment in the model. The script instead searches for the text "undefined", which none of the 14 listed ids contains, so the outcome is the same.
- ConvertButton.OnConvertClick: a thrown error is shown through its message. The script falls back to the error object itself when the message is empty.
- DragControl.ClampAxis: pixel values are integers. `getBoundingClientRect` gives fractional values.
- DragControl.Overlay: `left`/`top` are the layout offsets that `offsetLeft`/`offsetTop` report. The jump caused by dropping the centring transform on the first move is not modelled.
- TimeParser.UpperString: upper-cases ASCII letters only. That is all the `AM`/`PM` comparison needs.
- Strings are sequences of Unicode code points. JavaScript strings are UTF-16 code units, so the default sort order (StringOrder) and match positions (`TimeMatch.index`) differ from the engine's for text with characters above U+FFFF. The zone ids and the typed times concerned are ASCII.
- ZoneSelects.SelectBox.Append: appending to a non-empty list whose value is "" keeps "", where the DOM would select the first option; the code never reaches that state.
- ZoneSelects.TimeZones: the sorted order of the 16 ids is characterised (sorted, a permutation, unique) rather than written out as a literal list.
