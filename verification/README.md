# relative-goto, modelled in Dafny

relative-goto is an editor extension. It moves the cursor, or extends the
selection, by a relative number of lines typed into a prompt. While the user
types, a preview highlights the destination line and scrolls to it. This
project models that pipeline and proves properties of it:

- input validation (`validateInput`);
- parsing of the line offset (`parseInput`);
- target resolution with the lower clamp at 0 (`createNewPosition`);
- the per-keystroke preview (`newPeekline` and its inner `peekline`, with
  `highlight`, `deleteHighlight` and `shiftVisibleRange`);
- the `goto` and `select` commands, which commit the jump.

`src/extension.ts` does not use the split-out files. It carries its own
copies of `parseInput`, `createNewPosition` and `peekline`, which behave
differently, and these are modelled separately in `Extension`. Its
`deleteHighlight` (src/extension.ts:105-107) and `shiftVisibleRange`
(src/extension.ts:72-85) match the split-out ones line for line. They are
modelled once, by `Decorations.DeleteHighlight` and `Viewport.ShiftVisibleRange`.
src/extension.ts:90 creates its own `lineHighlight` decoration type, distinct
from the one at src/lineHighlight.ts:6; the model merges the two under the
single key `"lineHighlight"`.

Layout, one module per file:

- `wrappers.dfy` (`Wrappers`): `Option`.
- `js_strings.dfy` (`JsStrings`): JavaScript `split` on one separator, with
  `Join` as its inverse.
- `js_numbers.dfy` (`JsNumbers`): JavaScript `Number(s)` and `parseInt(s)`
  over the integer grammar `[+-]?[0-9]+`, with the decimal rendering of an
  integer as their partner. A number that may be NaN is an `Option<int>`,
  with `None` for NaN. `Truthy` is JavaScript truthiness, where 0 and NaN
  are both falsy.
- `vscode.dfy` (`Vscode`): the host API that the code touches. Positions,
  ranges (`contains` is lexicographic and closed), selections and reveal
  types are values. `TextEditor` is a class with four fields: the selection,
  the visible ranges, the decorations per decoration type, and a log of
  `revealRange` requests.
- `input_validation.dfy`, `input_parsing.dfy`, `position_resolution.dfy`,
  `decorations.dfy`, `viewport.dfy` and `preview.dfy` model
  `src/validateInput.ts`, `src/parseInput.ts`, `src/createNewPosition.ts`,
  `src/highlight.ts` with `src/deleteHighlight.ts`,
  `src/shiftVisibleRange.ts` and `src/newPeekline.ts`.
- `extension.dfy` (`Extension`): the inline copies and the two commands of
  `src/extension.ts`.

Four facts about the code shape the model:

- The preview does not call `validateInput`; nothing in the code does. The
  preview rejects what `Number(input)` reads as NaN, so a two-field input
  such as `"3 2"` is rejected while typing.
- No `parseInput` reads a character offset. The second field never
  contributes, and every jump keeps the cursor's column.
- The split-out preview reveals with `InCenterIfOutsideViewport`. The
  commands reveal with `InCenter`. The inline preview in `src/extension.ts`
  never scrolls.
- Cancelling the prompt leaves the last preview highlight on screen: the
  commands return at src/extension.ts:178, before the `deleteHighlight` at
  src/extension.ts:183 (`Extension.CancelKeepsPreview`).

## Model

| member | source | states |
|---|---|---|
| `JsStrings.Split` | src/validateInput.ts:9-10 | `split(" ")` always yields at least one field, and no field contains the separator |
| `JsStrings.JoinSplit` | src/validateInput.ts:9-10 | joining the fields of `split` back with the separator gives the input (nothing is lost) |
| `JsStrings.SplitNoSeparator` | src/validateInput.ts:9-10 | a string without a space is exactly one field |
| `JsStrings.SplitField` | src/validateInput.ts:9-10 | a space-free prefix before a space is the first field, and the fields of the remainder follow it |
| `JsStrings.SplitJoin` | src/validateInput.ts:9-10 | splitting the join of space-free fields gives those fields back |
| `JsNumbers.Truthy` | src/highlight.ts:16 | definition: JavaScript truthiness of a number, where 0 and NaN are falsy (the same test at src/newPeekline.ts:36 and src/extension.ts:132) |
| `JsNumbers.Number` | src/newPeekline.ts:25 | over the integer grammar `[+-]?[0-9]+`: `Number` is not NaN iff the input is empty or an optional sign followed by digits only (also src/extension.ts:126) |
| `JsNumbers.ParseInt` | src/parseInput.ts:17 | over the integer grammar `[+-]?[0-9]+`: `parseInt` is not NaN iff a digit follows the optional sign (also src/extension.ts:42) |
| `JsNumbers.LeadingDigits` | src/parseInput.ts:17 | the digit run `parseInt` reads: every character in it is a digit, and the character after it is not |
| `JsNumbers.LeadingDigitsUnique` | src/parseInput.ts:17 | the digit run ends exactly where the first non-digit stands |
| `JsNumbers.LeadingDigitsAppend` | src/parseInput.ts:17 | text that starts with a non-digit, appended to a string, leaves the string's digit run unchanged |
| `JsNumbers.NumeralPrefix` | src/parseInput.ts:17 | a numeral followed by a non-digit is read up to its end and no further |
| `JsNumbers.NatToString` | src/parseInput.ts:17 | the decimal numeral of n is a non-empty string of digits whose value is n |
| `JsNumbers.IntToString` | src/parseInput.ts:17 | the rendering of an integer contains no space and is digits, with a leading `-` for negative values |
| `JsNumbers.ParseIntOfRendering` | src/parseInput.ts:17 | `parseInt` reads back the rendering of every integer, and ignores whatever follows it when that starts with a non-digit |
| `JsNumbers.ParseIntOfNumeral` | src/parseInput.ts:17 | `parseInt` of an unsigned numeral followed by a non-digit is the numeral's value |
| `JsNumbers.ParseIntNegated` | src/parseInput.ts:17 | a `-` in front of a string that starts with a digit negates what `parseInt` reads |
| `JsNumbers.NumberOfRendering` | src/newPeekline.ts:25 | `Number` reads back the rendering of every integer (it is never NaN) |
| `JsNumbers.NumberIsParseInt` | src/newPeekline.ts:25-30 | on every non-empty string `Number` accepts, `parseInt` gives the same value |
| `JsNumbers.NaNExamples` | src/parseInput.ts:17 | `"-"` and `"abc"` are NaN to both `Number` and `parseInt` |
| `Vscode.ContainsIsLexicographic` | src/shiftVisibleRange.ts:15 | `contains` is `start <= p <= end` in lexicographic (line, character) order |
| `Vscode.TextEditor.SetDecorations` | src/deleteHighlight.ts:10 | `setDecorations` replaces the ranges of the given decoration type and leaves the other types alone |
| `Vscode.TextEditor.RevealRange` | src/shiftVisibleRange.ts:19 | `revealRange` appends exactly one request (range and reveal type) |
| `InputValidation.ValidateInput` | src/validateInput.ts:6-22 | valid iff the first field, and the second field if there is one, is empty, a lone `-` or a numeral; later fields play no part |
| `InputValidation.ValidateOneField` | src/validateInput.ts:15 | input without a space is valid iff it is acceptable |
| `InputValidation.ValidateTwoFields` | src/validateInput.ts:15-18 | for two fields both are checked |
| `InputValidation.ValidateIgnoresLaterFields` | src/validateInput.ts:15-18 | fields after the second are never examined |
| `InputValidation.ValidateTrailingSpace` | src/validateInput.ts:18 | a trailing space (empty second field) never causes rejection |
| `InputValidation.ValidateLeadingSpace` | src/validateInput.ts:15-18 | after a leading space the empty first field is skipped and the second field decides |
| `InputValidation.ValidateRenderings` | src/validateInput.ts:12-18 | every rendered offset is valid: alone, half-typed as `"n -"`, or followed by a rendered second offset |
| `InputValidation.ValidateEmptyAndMinus` | src/validateInput.ts:9-21 | `""`, `"-"` and `"3 -"` are valid (a lone `-` becomes 0) |
| `InputValidation.ValidateRejectsFirstWord` | src/validateInput.ts:15 | `"abc"` is rejected |
| `InputValidation.ValidateRejectsSecondWord` | src/validateInput.ts:18 | `"3 x"` is rejected |
| `InputValidation.ValidateNegativeSecondField` | src/validateInput.ts:18 | `"3 -2"` is valid |
| `InputValidation.ValidateTrailingSpaceExample` | src/validateInput.ts:18 | `"7 "` is valid |
| `InputValidation.ValidateThirdFieldExample` | src/validateInput.ts:15-18 | `"3 4 x"` is valid |
| `InputValidation.ValidateLeadingSpaceExamples` | src/validateInput.ts:15-18 | `" 5"` is valid and `" x"` is rejected |
| `InputParsing.ParseInput` | src/parseInput.ts:5-21 | the empty input is 0; the result is NaN iff the input is non-empty and no digit follows its optional sign; on every input `Number` accepts the result equals `Number`'s value |
| `InputParsing.ParseInputOfRendering` | src/parseInput.ts:17 | round trip: the rendering of n, with anything after it that starts with a non-digit, parses to n |
| `InputParsing.ParseInputFirstFieldOnly` | src/parseInput.ts:17 | what follows the first space never contributes to a non-empty first field |
| `InputParsing.ParseInputNaN` | src/parseInput.ts:17 | `"-"` and `"abc"` give NaN |
| `InputParsing.ParseInputExamples` | src/parseInput.ts:13-19 | `""` is 0, `"5"` is 5, `"-3 2"` is -3, `"7 "` is 7 |
| `PositionResolution.CreateNewPosition` | src/createNewPosition.ts:6-34 | target line and character are the cursor's plus the offsets, clamped below at 0; never negative; no upper clamp |
| `PositionResolution.ZeroOffsetIsIdentity` | src/createNewPosition.ts:9-31 | zero offsets leave a valid cursor where it is |
| `PositionResolution.AnchorIsIgnored` | src/createNewPosition.ts:11-20 | only the active end is read; the anchor never influences the target |
| `PositionResolution.LineIsMonotone` | src/createNewPosition.ts:12-17 | a larger line offset never gives an earlier line |
| `Decorations.Highlight` | src/highlight.ts:9-22 | for a truthy line offset the line highlight becomes exactly one empty range at the target (replaced, not accumulated); for 0 or NaN nothing changes; the character offset plays no part; only the decorations can change |
| `Decorations.DeleteHighlight` | src/deleteHighlight.ts:9-11 | the line highlight becomes empty and other decoration types keep theirs (so a second call changes nothing); only the decorations can change |
| `Viewport.ShiftVisibleRange` | src/shiftVisibleRange.ts:9-21 | no request when the first visible range contains the target; otherwise exactly one `InCenter` request for the empty range at it; only the reveal log can change |
| `Preview.PreviewTarget` | src/newPeekline.ts:24-33 | the preview has a target iff `Number` accepts the input, and it is the cursor moved by `Number`'s value |
| `Preview.PreviewHighlight` | src/newPeekline.ts:22-41 | at most one highlight; present iff the input is accepted with a non-zero value; then at the target |
| `Preview.PreviewReveals` | src/newPeekline.ts:43-51 | one `InCenterIfOutsideViewport` request iff the input is accepted and the target lies outside the first visible range |
| `Preview.Peekline.constructor` | src/newPeekline.ts:13-57 | the closure captures the editor it was made for |
| `Preview.Peekline.Peek` | src/newPeekline.ts:18-55 | returns `"Invalid input"` iff `Number` rejects the input, else undefined; the highlight is always replaced (emptied on rejection), reveal requests are only appended, and the selection never changes; the new highlight depends only on the unchanged selection and the input, so repeating a call draws the same single highlight |
| `Preview.NewPeekline` | src/newPeekline.ts:13-58 | returns a fresh closure over the given editor |
| `Preview.PreviewTargetOfRendering` | src/newPeekline.ts:30-33 | a rendered offset n previews the cursor moved by n |
| `Preview.PreviewOfEmptyInput` | src/newPeekline.ts:30-51 | the cleared prompt targets the cursor itself, highlights nothing, and scrolls back to the cursor when it is off-screen |
| `Preview.PreviewScenarios` | src/newPeekline.ts:30-41 | cursor on line 10: `"5"` targets and highlights line 15, `"-20"` clamps to line 0, `"0"` targets line 10 without a highlight |
| `Extension.ParseInput` | src/extension.ts:35-45 | no empty-string branch: `""` is NaN; on non-empty input `Number` accepts, the result equals `Number`'s value |
| `Extension.CreateNewPosition` | src/extension.ts:50-64 | the line is the cursor's plus the offset, clamped below at 0; the character is copied from the cursor |
| `Extension.CreateNewPositionAgrees` | src/extension.ts:50-64 | on a valid cursor the inline copy equals the split-out one with no character offset |
| `Extension.PeekHighlight` | src/extension.ts:129-139 | at most one highlight; present iff the input is non-empty, accepted and non-zero; then at the target |
| `Extension.Peekline.constructor` | src/extension.ts:114-145 | the inline closure captures the editor it was made for |
| `Extension.Peekline.Peek` | src/extension.ts:119-143 | `"Invalid input"` iff `Number` rejects the input; the highlight is cleared first and then set from the input; only the decorations can change (no scrolling, no selection change) |
| `Extension.NewPeekline` | src/extension.ts:114-146 | returns a fresh inline closure over the given editor |
| `Extension.PreviewsAgree` | src/extension.ts:119-143 | on a valid cursor the inline preview and the split-out preview draw the same highlight for every input |
| `Extension.IsCommitted` | src/extension.ts:178 | definition: the negation of the early return for undefined or empty input in `goto` (src/extension.ts:178) and `select` (src/extension.ts:219) |
| `Extension.CommitTarget` | src/extension.ts:180-186 | a committed input targets the cursor moved by `Number`'s value of the input |
| `Extension.PreviewShowsCommitTarget` | src/extension.ts:129-186 | for a non-zero offset the preview highlight is exactly where the commit lands |
| `Extension.Goto` | src/extension.ts:161-200 | without an editor, or for undefined or empty input, nothing changes; otherwise the selection collapses to the target (anchor = active = target), the highlight is emptied, and one `InCenter` request is appended iff the target is off-screen |
| `Extension.Select` | src/extension.ts:202-241 | same as `goto`, except that the anchor stays and only the active end moves to the target computed from the old cursor |
| `Extension.CancelKeepsPreview` | src/extension.ts:178-183 | an inline preview followed by a cancelled `goto` keeps the selection and the preview's highlight; for a non-empty, accepted, non-zero offset that highlight is not empty |
| `Extension.CommitTargetOfRendering` | src/extension.ts:180-186 | a rendered offset n commits to the cursor moved by n |
| `Extension.SelectScenario` | src/extension.ts:221-233 | anchor on line 2, cursor on line 10, `"3"`: the target is line 13 in the cursor's column |

## Left out

- `setup` (src/setup.ts and src/extension.ts:7-29) reads and writes the host's configuration store and shows a status message. It is host I/O only.
- The decoration style in src/lineHighlight.ts and src/extension.ts:90-98 is made of colours and borders. It has no behaviour; the model keys the decoration by a name.
- `activate`/`deactivate` are plumbing: command registration, the information message, the options of `showInputBox`, `context.subscriptions` and `async`/`await`. Each command takes the editor (`null` when none is active) and the string the prompt resolved with (`None` for undefined) as parameters.
- `Number` and `parseInt` are modelled on the integer grammar only. Whitespace trimming, fractions, exponents, hexadecimal, `Infinity`, the sign of `-0`, and the precision limit of 64-bit floating point are left out. Outside the grammar the model's `Number` gives NaN, so inputs with a leading or trailing space, such as `"5 "`, are rejected by the modelled preview, while the host would accept them. The model's `parseInt` does not skip leading whitespace either.
- A NaN line reaching a `Position` is not modelled. In the host, `" "` is 0 to `Number` but NaN to `parseInt`. Inside the integer grammar, every non-empty input that `Number` accepts is also read by `parseInt` (`JsNumbers.NumberIsParseInt`).
- `Viewport.ShiftVisibleRange`: requires at least one visible range. With none, `editor.visibleRanges[0].contains` (src/shiftVisibleRange.ts:15) throws a TypeError; that exception is not modelled.
- `Preview.Peekline.Peek`: requires at least one visible range when `Number` accepts the input, because `editor.visibleRanges[0].contains` (src/newPeekline.ts:45) throws a TypeError without one; that exception is not modelled. `Preview.PreviewReveals` carries the same precondition.
- `Extension.Goto`: requires at least one visible range for committed input, because `editor.visibleRanges[0].contains` (src/extension.ts:78) throws a TypeError without one; that exception is not modelled.
- `Extension.Select`: requires at least one visible range for committed input, for the same reason as `Extension.Goto`; the TypeError is not modelled.
- `Extension.Goto`: requires committed input to be accepted by `Number`, because the prompt only resolves with input that its validation callback accepted. What the command would do with NaN is not modelled.
- `Extension.Select`: the same precondition as `Extension.Goto`, for the same reason.
- The host's behaviour is not modelled. That covers saturating lines and characters past the end of the document, the scrolling geometry of `revealRange` (reveals are logged requests and the visible ranges never change), and restoring the viewport after a cancelled prompt.
- The module-level decoration type is shared across editors, but the model has one editor and a sequential interaction. Multi-editor and concurrent use are left out.
