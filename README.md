# ModelTimetable core logic in Dafny

This project models four small pieces of the ModelTimetable firmware's tooling and web
interface, and proves properties of them:

- **`data/logic.js`**: the browser-side logic of the settings and status pages.
  - The per-field change coalescer, `serializedChange` and `endSerialized`. A hidden
    `<id>Serialized` cell holds `0` (idle), `1` (sent, not yet acknowledged) or `2`
    (a newer change is waiting).
  - `colorChanged`, which splits a `#rrggbb` picker value into three fields.
  - The event-stream reconnect controller: `startEvents` and its `onopen` and `onerror`
    handlers, with the globals `startEventsPending` and `startEventsDelay`.
  - The restart detector `checkTime`.
  - The change-URL builder `changed`.
  - The data dispatcher `setData` and its caller `loadData`.
  - `getKeysValues`.
- **`src/reformatCode.py`**: the per-line comment aligner. For each line it right-strips
  the line, expands tabs to 4-column stops, and pads the code in front of the first
  comment separator outside double quotes, so that the comment starts at column
  `commentCol`. It also sets the flag that decides whether the file is rewritten, and
  picks the separator for a file suffix.
- **`makeTable.py`**: `quote` and `insertInput`, which build the label and input
  snippets of the settings table.
- **`lib/getChipId/getChipId.cpp`**: the loop that builds the 24-bit chip identifier
  from bytes 3 to 5 of the factory MAC.

Layout, one module per file:

- `base.dfy` (`Base`): `Option` and the first-index search.
- `js_text.dfy` (`JsText`): the JavaScript string and number semantics the page relies
  on: `String(v)`, `toLowerCase`, `substring`, `substr`, `parseInt(s, 16)`, the
  conversion behind `==`, `<` on strings, and `replace` with a one-character pattern.
- `coalescer.dfy` (`Coalescer`): the flag machine as pure functions, with traces of
  edits and acknowledgements.
- `reconnect.dfy` (`Reconnect`): the reconnect controller as pure functions, with traces
  of stream events and timers.
- `logic.dfy` (`Logic`): the document as a sequence of element records, and the class
  `Page`. `Page` holds the page's globals, the document and an output log. Requests,
  messages, new streams, retry timers and reloads are appended to the log instead of
  being performed.
- `reformat.dfy` (`Reformat`): the line transform, as functions stating what each step computes and as
  the imperative loops of `reformatFile`.
- `make_table.dfy` (`MakeTable`): the HTML builders.
- `chip_id.dfy` (`ChipId`): the bit-vector loop.

`loadData` is modelled twice. `Logic.Page.LoadData` calls `setData` as written and never
shows a message. `Logic.Page.LoadDataReporting` calls the corrected `setData`
(`Logic.Page.SetDataReporting`). The stream trace is also modelled twice.
`Reconnect.RunAsWritten` fires the retry timer as written. `Reconnect.Run` fires the corrected
timer (`Reconnect.FireKeepingListeners`). The two traces agree on the globals, the timers and
the retries, and differ only in the listeners. See "## Findings" for both.

## Model

| member | source | states |
|---|---|---|
| Base.IndexOf | src/reformatCode.py:27 | `line.index('\t')`: None exactly when the character is absent; otherwise the index of its first occurrence |
| ChipId.GetChipId | lib/getChipId/getChipId.cpp:4-10 | the loop over i = 0, 8, 16 (with the 32-bit accumulator) returns exactly `ChipIdOf(mac)` |
| ChipId.ChipIdOf | lib/getChipId/getChipId.cpp:6-7 | the identifier is below 2^24 |
| ChipId.OrIsSum | lib/getChipId/getChipId.cpp:6-7 | the three bytes land in disjoint bit ranges, so the OR-accumulation equals their sum |
| ChipId.ChipIdBytes | lib/getChipId/getChipId.cpp:7 | bits 0-7 are MAC bits 40-47, bits 8-15 are MAC bits 32-39, bits 16-23 are MAC bits 24-31, bits 24-31 are zero |
| ChipId.DependsOnlyOnUpperBytes | lib/getChipId/getChipId.cpp:7 | two MACs that agree on bits 24-47 give the same identifier |
| Coalescer.OnEdit | data/logic.js:310-315 | an edit sends exactly when the flag is "0" and then sets "1"; "1" becomes "2"; any other flag is kept |
| Coalescer.OnAck | data/logic.js:324-329 | an acknowledgement sends exactly when the flag is "2" and then sets "1"; anything else becomes "0" |
| Coalescer.FlagStaysValid | data/logic.js:304-330 | from a flag in {"0","1","2"}, every interleaving of edits and acknowledgements keeps it there |
| Coalescer.SendsExactlyOnEnteringInFlight | data/logic.js:310-326 | a step sends exactly when the flag enters "1": from "0" on an edit, or from "2" on an acknowledgement |
| Coalescer.SendsBoundedByAcks | data/logic.js:304-330 | along any trace, sends plus one for a non-idle start are at most acknowledgements plus one for a non-idle end |
| Coalescer.AtMostOneUnacknowledged | data/logic.js:304-330 | from "0", total sends are at most acknowledgements + 1 |
| Coalescer.EditsWithoutAck | data/logic.js:310-315 | n edits without an acknowledgement send once (n > 0), leaving "1" after one edit and "2" after more |
| Coalescer.AckClearsSuperseded | data/logic.js:324-329 | after an acknowledgement the flag is never "2" |
| Reconnect.StartEvents | data/logic.js:179-181 | startEvents clears the pending flag and keeps the delay |
| Reconnect.OnOpen | data/logic.js:182-185 | onopen resets the delay to 0 and keeps the pending flag |
| Reconnect.OnError | data/logic.js:186-197 | logs exactly on CLOSED; schedules a retry exactly on CLOSED with nothing pending, after delay × 1000 ms, then sets pending and raises the delay by one up to 10; otherwise the state is unchanged |
| Reconnect.ValidPreserved | data/logic.js:184-194 | each handler keeps the delay in 0..10, and every retry is within 0..10000 ms |
| Reconnect.Connect | data/logic.js:179-181 | the first connection starts from the initial globals, with no timer and with the listeners asked for |
| Reconnect.FireAsWritten | data/logic.js:190 | the timer as written reopens the stream without the data listeners |
| Reconnect.ReconnectDropsDataListeners | data/logic.js:190 | a page connected with data listeners loses them after one closed error and its retry |
| Reconnect.FireKeepingListeners | data/logic.js:219-235 | the corrected timer reopens the stream with the listeners it had and clears the pending flag |
| Reconnect.ListenersKept | data/logic.js:219-235 | with the corrected timer, no trace changes whether the stream has data listeners |
| Reconnect.AtMostOneRetryPending | data/logic.js:187-191 | a timer is outstanding exactly while a retry is pending, so along any trace at most one is |
| Reconnect.DelayStaysBounded | data/logic.js:190-194 | along any trace the delay stays in 0..10, and every retry is within 0..10000 ms |
| Reconnect.OpenResetsDelay | data/logic.js:182-185 | whatever came before, an open leaves the delay at 0 |
| Reconnect.RetryDelaysGrow | data/logic.js:190-194 | n rounds of a closed error and its retry, from delay d, schedule retries of min(d + j, 10) seconds and end at delay min(d + n, 10) |
| Reconnect.RetryDelaysFromStart | data/logic.js:184-194 | from the page's first connection, consecutive closed errors retry after 0, 1, ..., 10, 10, ... seconds |
| Reconnect.AsWrittenAgrees | data/logic.js:184-194 | the trace with the timer as written has the same globals, outstanding timers and retries as the corrected trace |
| Reconnect.AsWrittenControllerBounds | data/logic.js:187-194 | with the timer as written, at most one timer is outstanding, the delay stays in 0..10 and every retry is within 0..10000 ms |
| Reconnect.AsWrittenRetryDelays | data/logic.js:184-194 | with the timer as written, consecutive closed errors from the first connection retry after 0, 1, ..., 10, 10, ... seconds, and after one round the stream has no data listeners |
| JsText.NatToStringValue | data/logic.js:289 | `String(n)` of a non-negative integer is a run of digits denoting n |
| JsText.IntToString | data/logic.js:289 | `String(n)` is non-empty and starts with `-` exactly for a negative n |
| JsText.IsTrueBool | data/logic.js:128 | `String(b).toLowerCase() == "true"` holds exactly for the boolean true |
| JsText.IsTrueInt | data/logic.js:128 | no number passes the "true" test |
| JsText.IsTrueText | data/logic.js:128-130 | a string passes exactly when it is "true" in any mix of cases |
| JsText.SubstringPrefix | data/logic.js:244 | `s.substring(0, n)` is the prefix of length n, or all of a shorter string |
| JsText.Substr | data/logic.js:297-299 | `substr(start, length)` is the `length` characters from `start`, cut at the end of the string; a negative start counts from the end and is clamped to 0; a non-positive length or a start past the end gives "" |
| JsText.ParseHexByte | data/logic.js:297-299 | `parseInt` of a byte's two lower-case hex digits gives the byte |
| JsText.ParseTwoHexDigits | data/logic.js:297-299 | `parseInt` of two hex digits in either case gives 16 × high + low |
| JsText.ToNumberOfIntToString | data/logic.js:150 | the number conversion of `String(n)` gives back n |
| JsText.LooseEqualsOwnDecimal | data/logic.js:150 | a value string equal to a number's decimal form `==` that number |
| JsText.OneEqualsTrue | data/logic.js:150 | the value "1" `==` the boolean true |
| JsText.TrueTextIsNotTrue | data/logic.js:150 | the value "true" does not `==` the boolean true |
| JsText.NothingBelowEmpty | data/logic.js:335 | no string is `<` the empty string |
| JsText.LexLessIrreflexive | data/logic.js:335 | no string is `<` itself |
| JsText.LexLessAsymmetric | data/logic.js:335 | `a < b` excludes `b < a` |
| JsText.LexLessTransitive | data/logic.js:335 | `<` on strings is transitive |
| JsText.LexLessTotal | data/logic.js:335 | of two different strings, one is `<` the other |
| JsText.RemoveFirstRemovesOne | data/logic.js:251 | `replace("#", "")` keeps a string without `#`, and otherwise removes exactly one `#` (length and multiset) |
| JsText.RemoveFirstKeepsPrefix | data/logic.js:251 | the `#` removed is the first one; what precedes it is kept, and a later `#` survives |
| Logic.FindByIdIsFirst | data/logic.js:124 | getElementById finds the first element with the id, and finds nothing exactly for an absent or empty id |
| Logic.ElementsByNameIsGroup | data/logic.js:147 | getElementsByName lists every element with the name, each once, in document order |
| Logic.LookupsByShape | data/logic.js:297-299 | lookups depend only on ids and names, so writing values does not change what a later lookup finds |
| Logic.ChangePrecedence | data/logic.js:242-250 | `changed` reports an explicit value first, then the checked state of a trace/enable id, then the name and value, then the id and value |
| Logic.ColourValueUrl | data/logic.js:251 | a colour picker's value reaches the URL without its leading `#`, and nothing else is removed |
| Logic.Page.Changed | data/logic.js:239-251 | exactly one request is logged, for the URL `ChangeUrl` gives |
| Logic.MissingCellOnlyMessage | data/logic.js:306-308 | without a `<id>Serialized` cell, an edit changes nothing and only shows the message |
| Logic.EditTouchesOnlyTheCell | data/logic.js:309-316 | an edit changes only the flag cell's value, moves it as the coalescer says, and sends one request exactly when the flag was "0" |
| Logic.AckSendsCurrentValue | data/logic.js:323-329 | only the flag cell changes; an acknowledgement of "2" sets "1" and sends the field's current contents, or sends nothing when the field is missing; any other flag becomes "0" with nothing sent |
| Logic.AckWithoutCellThrows | data/logic.js:322-323 | without a flag cell, endSerialized throws and changes and sends nothing |
| Logic.Page.SerializedChange | data/logic.js:304-317 | the document and log become what `EditEffect` describes |
| Logic.Page.EndSerialized | data/logic.js:320-330 | the document and log become what `AckEffect` describes; it throws exactly for a missing flag cell, or for a missing field when the flag is "2" |
| Logic.ColourRoundTrip | data/logic.js:295-299 | for `#rrggbb` built from three bytes, the three fields receive the bytes' decimal forms |
| Logic.ShortColourIsNaN | data/logic.js:297-299 | a picker value too short for a component gives "NaN" |
| Logic.SetValue | data/logic.js:297-299 | the element found by id gets the new value and every other element is unchanged; without one the document is unchanged; every id and name is kept |
| Logic.PaintedFields | data/logic.js:295-299 | with three distinct existing fields, each gets its own component and every other element is unchanged |
| Logic.Page.ColorChanged | data/logic.js:295-301 | the document and log become what `ColourEffect` describes; it throws exactly when a colour field is missing |
| Logic.MissingColourFieldStops | data/logic.js:296-299 | when a colour field is missing, nothing is sent, only fields before the first missing one are written, and a missing red field changes nothing |
| Logic.ColourEffectPaintsThenEdits | data/logic.js:295-300 | with the three fields present, the components are written and the picker's change goes through the coalescer |
| Logic.SetDataOutcome | data/logic.js:122-157 | a checkbox gets checked and a hiding DIV gets hidden by the "true" test; other elements are unchanged; in a name group exactly the members whose value `==` the data are checked |
| Logic.SetDataValueOrText | data/logic.js:138-143 | an element found by id that is neither a checkbox nor a hiding DIV gets the data's text as its value when its type is text, number, button or select-one, and as its inner text otherwise |
| Logic.HidePrefix | data/logic.js:129 | the key test holds exactly when the key starts with "hide" in any mix of cases |
| Logic.Page.ApplyData | data/logic.js:124-151 | the document becomes `DataApplied`; the result tells whether the key named an element or a non-empty group |
| Logic.Page.CheckGroup | data/logic.js:147-151 | the loop sets each group member's checked state to whether its value `==` the data, and touches no other element |
| Logic.Page.SetData | data/logic.js:122-157 | as written: the document becomes `DataApplied` and the result is always false |
| Logic.UnmatchedKeyExists | data/logic.js:147-154 | a key can match no id and no name |
| Logic.Page.SetDataReporting | data/logic.js:121-157 | corrected: the result is true exactly when the key matches no id and no name |
| Logic.LoadedKeepsShape | data/logic.js:105-110 | applying the data keeps every id and name |
| Logic.ReportsNameMissingKeys | data/logic.js:105-110 | every "Can't find" message names a key of the data that the document lacks |
| Logic.NoReportWhenAllPresent | data/logic.js:105-110 | no message is shown when the document has every key |
| Logic.Page.LoadData | data/logic.js:99-118 | as written: a parse failure changes nothing; otherwise the pairs are applied in order, and no message is ever logged |
| Logic.Page.LoadDataReporting | data/logic.js:99-118 | over the corrected setData: a parse failure changes nothing; otherwise the pairs are applied in order and each missing key is reported |
| Logic.GetKeysValues | data/logic.js:286-292 | one `key=String(value)` entry per key, in order |
| Logic.KeyValueSplits | data/logic.js:289 | for a key without `=`, the entry splits at its first `=` into the key and the value's text |
| Logic.Page.constructor | data/logic.js:4-9 | the globals start with nothing pending, delay 0 and last time "" |
| Logic.Page.StartEvents | data/logic.js:179-181 | a new stream is logged and the pending flag is cleared |
| Logic.Page.OnOpen | data/logic.js:182-185 | the delay becomes 0 |
| Logic.Page.OnError | data/logic.js:186-197 | the globals and the log change as `Reconnect.OnError` says |
| Logic.Page.CheckTime | data/logic.js:333-349 | reloads exactly when the new time is `<` the last one, logs the restart message and the reload, and always stores the new time |
| Logic.IncreasingTimesNeverReload | data/logic.js:335-348 | non-decreasing pushed times never reload |
| Logic.FirstAndRepeatedTimes | data/logic.js:333-348 | the first push after load never reloads, a repeated time never does, and of two times only one order reloads |
| Reformat.RStrip | src/reformatCode.py:22 | `rstrip()` returns a prefix not ending in white space, and only white space follows it |
| Reformat.ExpandTabs | src/reformatCode.py:26-28 | no tab is left after expansion |
| Reformat.TabReachesTabStop | src/reformatCode.py:27-28 | a tab becomes 4 − (i mod 4) spaces, so the next character lands on a multiple of 4 |
| Reformat.ExpandTabsKeepsText | src/reformatCode.py:26-28 | the expansion keeps every character other than blanks and tabs, in order |
| Reformat.FirstSep | src/reformatCode.py:33-37 | the first index where the separator starts with an even count of double quotes up to it; None exactly when there is none |
| Reformat.QuotedSeparatorIsSkipped | src/reformatCode.py:33-37 | in `"//" //` the separator inside quotes is skipped and the comment is found at index 5 |
| Reformat.QuotedSeparatorExample | src/reformatCode.py:31-44 | `"//" //` with column 8 becomes `"//"` followed by three blanks and `//` |
| Reformat.NoOccurrenceNoSeparator | src/reformatCode.py:31 | without any occurrence of the separator the scan finds nothing |
| Reformat.AlignedCommentPosition | src/reformatCode.py:39-43 | when alignment applies, the result is the stripped code, blanks, then `line[i:]` verbatim, with the separator at index commentCol − 1 |
| Reformat.UnalignedLineIsUnchanged | src/reformatCode.py:41 | the line is kept when there is no separator, the code is empty or reaches commentCol, or the comment starts with the doubled separator |
| Reformat.FormattedLineHasNoTab | src/reformatCode.py:26-43 | no formatted line contains a tab |
| Reformat.FormattedLineHasNoTrailingSpace | src/reformatCode.py:22-43 | no formatted line ends in white space |
| Reformat.RStripIgnoresTrailingSpace | src/reformatCode.py:22 | appended white space does not change what `rstrip()` returns |
| Reformat.TrailingSpaceIsIrrelevant | src/reformatCode.py:22-23 | lines that differ only in trailing white space format alike, so such differences never cause a rewrite |
| Reformat.SeparatorDispatch | src/reformatCode.py:118-124 | .c/.cpp/.h/.hpp/.ino get "//", .py gets "#", and every other suffix is refused |
| Reformat.ExpandTabsLoop | src/reformatCode.py:25-28 | the loop that replaces the first tab until none is left computes `ExpandTabs` |
| Reformat.AlignCommentLoop | src/reformatCode.py:29-44 | the quote-toggling scan with its break computes `AlignComment` |
| Reformat.ReformatLine | src/reformatCode.py:22-46 | one line becomes `FormattedLine`; the change flag is set exactly when it differs from the right-stripped line |
| Reformat.ReformatLines | src/reformatCode.py:16-47 | the new content holds one formatted line per input line; somethingChanged holds exactly when some line changed |
| Reformat.DefaultInputFiles | src/reformatCode.py:106-110 | the default patterns are `*.c`, `*.cpp`, `*.h`, `*.hpp`, `*.ino`, `*.py`, and every suffix among them is accepted by the dispatch |
| MakeTable.Quote | makeTable.py:3-4 | the row's cell wrapped in double quotes |
| MakeTable.InsertInput | makeTable.py:6-18 | the successive appends build exactly `InsertInputHtml` |
| MakeTable.AttributePresence | makeTable.py:11-16 | an optional attribute appears exactly for a non-empty value, as ` name="value"` |
| MakeTable.LabelShape | makeTable.py:7-8 | type "label" gives exactly `<label data-i18n-key="F">` + field + postfix + `</label>&nbsp;` |
| MakeTable.InputShape | makeTable.py:10-17 | any other type gives the input opening, then the minlen, maxlen and second minlen attributes in that order, then the change handler; the middle is empty exactly when all three sizes are |
| MakeTable.IgnoresTextsAndValueBounds | makeTable.py:6-18 | the French and English texts and the value bounds never reach the output |

## Left out

- Requests, the event stream and timers are not performed. `XMLHttpRequest`, `EventSource` and `setTimeout` become entries of the page's output log. The retry timer firing is an event of `Reconnect.Run`.
- `console.error` and `console.log` in loadData's catch branch (data/logic.js:113-116) are not logged. A parse failure is modelled as no change to the document or the log.
- A thrown TypeError is a `thrown` result of `Logic.Page.EndSerialized` and `Logic.Page.ColorChanged`, with the effects made before the throw kept. Its propagation to the browser's console is not modelled.
- The DOM is a sequence of element records. `showMessage` (data/logic.js:12-22) is a `Message` entry, not a DOM insertion.
- `showMessage` calls gated by `traceJava` print nothing when tracing is off, and are not logged.
- `loadSettings`, `loadSelect`, `trigger`, `initAll`, `initMessages` and the settings/info/error/execute listeners (data/logic.js:25-96, 160-176, 198-218, 262-273) are I/O plumbing. `initAll`'s `startEvents(!inSetup)` appears only as `Reconnect.Connect`.
- `roundOf` and the float branch of `setData` (data/logic.js:134-137, 276-283) are floating point. JSON values are strings, booleans and integers only.
- `JSON.parse` (data/logic.js:103) is a library call. Its result is a list of key/value pairs, or None when it throws. JSON null, arrays and nested objects are not modelled.
- The cache purge and `window.location.reload` (data/logic.js:338-346) are one `Reload` log entry.
- `MissingCell` stands for the message of data/logic.js:308. That text embeds `String(element)` of a DOM object, which has no counterpart here.
- Setting an input's `value` in a browser sanitises it by input type. The model stores the string as is.
- `ElementsByName` with the empty name matches every element whose name is empty. That includes elements without a name attribute, which a browser does not list.
- `Logic.Page.ColorChanged` takes the picker as an element value, not a position in the document. The case where the picker is itself one of its colour fields (aliasing) is not modelled.
- `JsText.AsciiLower`: `toLowerCase` is modelled on ASCII letters only. This is exact for the "true" and "hide" tests, which decide on ASCII text.
- `JsText.LexLess`: compares code points, while JavaScript compares UTF-16 code units. They differ only for characters above U+FFFF.
- `JsText.IntToString`: prints integers below 10^21 in JavaScript's way. Larger numbers use exponent notation, which is not modelled.
- `JsText.ToNumber`: handles only integer texts: decimal with a sign, `0x`/`0o`/`0b`, and the empty string. Fractions, exponents and `Infinity` give None here, although JavaScript converts them to numbers.
- `JsText.ParseInt16`: returns the exact integer. JavaScript rounds values beyond 2^53, which two hex digits never reach.
- data/dropFile.js (drag-and-drop upload) and lib/littleFsEditor/littleFsEditor.h (declarations only) are not part of this model.
- In src/reformatCode.py these are operating-system and library I/O: file reading and writing, backup renaming, `glob`, `chdir`, `getopt` option parsing and the trace print. `commentCol` is a parameter, and its default is 69.
- In makeTable.py, CSV reading and the writing of the table rows (makeTable.py:20-33) are file I/O.
- `ESP.getEfuseMac()` is a hardware call. The MAC is a `bv64` parameter of `ChipId.GetChipId`.

## Findings

| source | as written | input that shows it | evidently intended | confidence | as-written member | corrected member |
|---|---|---|---|---|---|---|
| data/logic.js:147-154 | `getElementsByName` returns a list, never null, so `return true` is unreachable. setData reports every key as found, and loadData never shows "Can't find" | one element with id "a" and name "b", and the key "c" | return true when the key matches no id and no name, as the comment at data/logic.js:121 says | high; not executed | Logic.Page.SetData, Logic.Page.LoadData, Logic.UnmatchedKeyExists | Logic.Page.SetDataReporting, Logic.Page.LoadDataReporting, Logic.ReportsNameMissingKeys |
| data/logic.js:190 | `setTimeout(startEvents, ...)` calls startEvents with no argument. `getDataEvents` is undefined, so the reconnected stream has no data, serialized or time listeners (data/logic.js:219-235) | connect with data listeners, an error with readyState 2, then the retry firing | reconnect with the listeners the page asked for at startup | medium; not executed | Reconnect.FireAsWritten, Reconnect.ReconnectDropsDataListeners, Reconnect.AsWrittenRetryDelays | Reconnect.FireKeepingListeners, Reconnect.ListenersKept |
