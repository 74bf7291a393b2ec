/**
 * `shiftVisibleRange` (src/shiftVisibleRange.ts): scroll to a target only
 * when it lies outside the first visible range.
 */
module Viewport {
  import opened Vscode

  /** The reveal requests issued for `target`: none when the visible range
      contains it, otherwise one for the empty range at the target. */
  function ScrollRequests(visibleRange: Range, target: Position, revealType: RevealType): seq<Reveal> {
    if visibleRange.Contains(target) then [] else [Reveal(Range.Point(target), revealType)]
  }

  /** Centres the editor on `newPosition` when the first visible range does
      not contain it. Only the first visible range is consulted, so there
      must be one. */
  method ShiftVisibleRange(editor: TextEditor, newPosition: Position)
    requires |editor.visibleRanges| > 0
    modifies editor`revealRequests
    ensures editor.visibleRanges[0].Contains(newPosition) ==>
      editor.revealRequests == old(editor.revealRequests)
    ensures !editor.visibleRanges[0].Contains(newPosition) ==>
      editor.revealRequests == old(editor.revealRequests) + [Reveal(Range.Point(newPosition), InCenter)]
  {
    if !editor.visibleRanges[0].Contains(newPosition) {
      var newRange := Range.Point(newPosition);
      editor.RevealRange(newRange, InCenter);
    }
  }
}
