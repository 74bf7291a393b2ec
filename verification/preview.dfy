/**
 * `newPeekline` and its inner `peekline` (src/newPeekline.ts): the preview
 * run on every keystroke in the prompt. It clears the line highlight,
 * rejects what `Number` cannot read, highlights the target of a non-zero
 * line offset, and scrolls when the target is off-screen.
 */
module Preview {
  import opened Wrappers
  import opened JsNumbers
  import opened Vscode
  import opened InputParsing
  import opened PositionResolution
  import opened Viewport
  import opened Decorations

  /** The message the prompt shows for rejected input. */
  const InvalidInput: string := "Invalid input"

  /** The target the preview resolves: none when `Number` rejects the input,
      otherwise the cursor moved by the typed line offset. */
  function PreviewTarget(selection: Selection, inputValue: string): (target: Option<Position>)
    ensures target.Some? <==> Number(inputValue).Some?
    ensures target.Some? ==> target.value == CreateNewPosition(selection, Number(inputValue).value)
  {
    if Number(inputValue).None? then None
    else Some(CreateNewPosition(selection, ParseInput(inputValue).value))
  }

  /** The line highlight after a preview: at most one range, present exactly
      for accepted input with a non-zero line offset, and then at the target. */
  function PreviewHighlight(selection: Selection, inputValue: string): (ranges: seq<Range>)
    ensures |ranges| <= 1
    ensures |ranges| == 1 <==> Number(inputValue).Some? && Number(inputValue).value != 0
    ensures |ranges| == 1 ==> ranges[0] == Range.Point(PreviewTarget(selection, inputValue).value)
  {
    match PreviewTarget(selection, inputValue)
    case None => []
    case Some(target) => if Truthy(ParseInput(inputValue)) then [Range.Point(target)] else []
  }

  /** The reveal requests of a preview: one exactly when the input is accepted
      and its target lies outside the first visible range. */
  function PreviewReveals(selection: Selection, visibleRanges: seq<Range>, inputValue: string): (requests: seq<Reveal>)
    requires Number(inputValue).Some? ==> |visibleRanges| > 0
    ensures |requests| <= 1
    ensures |requests| == 1 <==>
      Number(inputValue).Some? && !visibleRanges[0].Contains(PreviewTarget(selection, inputValue).value)
    ensures |requests| == 1 ==>
      requests[0] == Reveal(Range.Point(PreviewTarget(selection, inputValue).value), InCenterIfOutsideViewport)
  {
    match PreviewTarget(selection, inputValue)
    case None => []
    case Some(target) => ScrollRequests(visibleRanges[0], target, InCenterIfOutsideViewport)
  }

  /** The closure `newPeekline(editor)` returns: `peekline` with `editor` captured. */
  class Peekline {
    const editor: TextEditor

    constructor (editor: TextEditor)
      ensures this.editor == editor
    {
      this.editor := editor;
    }

    /** One preview step. Returns `Some(InvalidInput)` to reject the input and
        `None` (undefined) to accept it. The highlight is always replaced
        (cleared first, even on rejection), reveal requests are only ever
        added, and the selection never changes. */
    method Peek(inputValue: string) returns (message: Option<string>)
      requires Number(inputValue).Some? ==> |editor.visibleRanges| > 0
      modifies editor`decorations, editor`revealRequests
      ensures message == if Number(inputValue).None? then Some(InvalidInput) else None
      ensures editor.decorations == old(editor.decorations)[LineHighlight := PreviewHighlight(editor.selection, inputValue)]
      ensures editor.revealRequests ==
        old(editor.revealRequests) + PreviewReveals(editor.selection, editor.visibleRanges, inputValue)
    {
      DeleteHighlight(editor);
      if Number(inputValue).None? {
        return Some(InvalidInput);
      }
      var linesToJump := ParseInput(inputValue);
      var newPosition := CreateNewPosition(editor.selection, linesToJump.value);
      if Truthy(linesToJump) {
        editor.SetDecorations(LineHighlight, [Range.Point(newPosition)]);
      }
      if !editor.visibleRanges[0].Contains(newPosition) {
        editor.RevealRange(Range.Point(newPosition), InCenterIfOutsideViewport);
      }
      return None;
    }
  }

  /** `newPeekline(editor)`. */
  method NewPeekline(editor: TextEditor) returns (peekline: Peekline)
    ensures fresh(peekline) && peekline.editor == editor
  {
    peekline := new Peekline(editor);
  }

  /** A rendered line offset previews the cursor moved by that offset. */
  lemma PreviewTargetOfRendering(selection: Selection, n: int)
    ensures PreviewTarget(selection, IntToString(n)) == Some(CreateNewPosition(selection, n))
  {
    NumberOfRendering(n);
  }

  /** The cleared prompt previews the cursor itself: nothing is highlighted and
      the viewport returns to the cursor when it has scrolled away. */
  lemma PreviewOfEmptyInput(selection: Selection, visibleRanges: seq<Range>)
    requires selection.active.IsValid() && |visibleRanges| > 0
    ensures PreviewTarget(selection, "") == Some(selection.active)
    ensures PreviewHighlight(selection, "") == []
    ensures PreviewReveals(selection, visibleRanges, "") ==
      if visibleRanges[0].Contains(selection.active) then []
      else [Reveal(Range.Point(selection.active), InCenterIfOutsideViewport)]
  {
    ZeroOffsetIsIdentity(selection);
  }

  /** Cursor on line 10: "5" targets line 15 and highlights it, "-20" clamps
      to line 0, and "0" targets line 10 without highlighting it. */
  lemma PreviewScenarios(anchor: Position, character: nat)
    ensures var selection := Selection(anchor, Position(10, character));
      && PreviewTarget(selection, "5") == Some(Position(15, character))
      && PreviewHighlight(selection, "5") == [Range.Point(Position(15, character))]
      && PreviewTarget(selection, "-20") == Some(Position(0, character))
      && PreviewTarget(selection, "0") == Some(Position(10, character))
      && PreviewHighlight(selection, "0") == []
  {
    var selection := Selection(anchor, Position(10, character));
    assert PreviewTarget(selection, "5") == Some(Position(15, character)) by {
      PreviewTargetOfRendering(selection, 5);
    }
    assert PreviewTarget(selection, "-20") == Some(Position(0, character)) by {
      PreviewTargetOfRendering(selection, -20);
      assert IntToString(-20) == "-20";
    }
    assert PreviewTarget(selection, "0") == Some(Position(10, character)) by {
      PreviewTargetOfRendering(selection, 0);
    }
    NumberOfRendering(5);
    NumberOfRendering(0);
  }
}
