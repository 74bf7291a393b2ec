/**
 * src/extension.ts: the commands `goto` and `select` and the inline helpers
 * they use. This file does not import the split-out modules; its own copies
 * of `parseInput`, `createNewPosition` and `peekline` behave differently:
 * `parseInput` has no branch for the empty string, `createNewPosition` has no
 * character offset, and `peekline` never scrolls. Its `deleteHighlight` and
 * `shiftVisibleRange` are the same as the split-out ones and are modelled by
 * `Decorations.DeleteHighlight` and `Viewport.ShiftVisibleRange`.
 */
module Extension {
  import opened Wrappers
  import opened JsNumbers
  import opened Vscode
  import opened Viewport
  import opened Decorations
  import PositionResolution
  import Preview

  /** `parseInput`: plain `parseInt`, so the empty string is NaN here. */
  function ParseInput(input: string): (linesToJump: JsInt)
    ensures input == "" ==> linesToJump.None?
    ensures input != "" && Number(input).Some? ==> linesToJump == Number(input)
  {
    NumberIsParseInt(input);
    ParseInt(input)
  }

  /** `createNewPosition`: the line moves and is clamped below at 0; the
      character is copied from the cursor. */
  function CreateNewPosition(selection: Selection, linesToJump: int): (newPosition: Position)
    ensures newPosition.line >= 0
    ensures var line := selection.active.line + linesToJump;
      newPosition.line == if line < 0 then 0 else line
    ensures newPosition.character == selection.active.character
  {
    var newLine := selection.active.line + linesToJump;
    var newLine := if newLine < 0 then 0 else newLine;
    Position(newLine, selection.active.character)
  }

  /** On a valid cursor the inline copy agrees with the split-out
      `createNewPosition` with no character offset. */
  lemma CreateNewPositionAgrees(selection: Selection, linesToJump: int)
    requires selection.active.character >= 0
    ensures CreateNewPosition(selection, linesToJump) == PositionResolution.CreateNewPosition(selection, linesToJump)
  {
  }

  /** The line highlight after the inline preview: one range exactly for a
      non-empty numeral with a non-zero value, at the target. */
  function PeekHighlight(selection: Selection, inputValue: string): (ranges: seq<Range>)
    ensures |ranges| <= 1
    ensures |ranges| == 1 <==> inputValue != "" && Number(inputValue).Some? && Number(inputValue).value != 0
    ensures |ranges| == 1 ==>
      ranges[0] == Range.Point(CreateNewPosition(selection, Number(inputValue).value))
  {
    if Number(inputValue).None? then []
    else
      var linesToJump := ParseInput(inputValue);
      if Truthy(linesToJump) then [Range.Point(CreateNewPosition(selection, linesToJump.value))] else []
  }

  /** The closure the inline `newPeekline(editor)` returns. */
  class Peekline {
    const editor: TextEditor

    constructor (editor: TextEditor)
      ensures this.editor == editor
    {
      this.editor := editor;
    }

    /** One inline preview step: clear the highlight, reject what `Number`
        cannot read, highlight the target of a truthy line offset. The
        selection and the viewport are never touched. */
    method Peek(inputValue: string) returns (message: Option<string>)
      modifies editor`decorations
      ensures message == if Number(inputValue).None? then Some(Preview.InvalidInput) else None
      ensures editor.decorations == old(editor.decorations)[LineHighlight := PeekHighlight(editor.selection, inputValue)]
    {
      DeleteHighlight(editor);
      if Number(inputValue).None? {
        return Some(Preview.InvalidInput);
      }
      var linesToJump := ParseInput(inputValue);
      if Truthy(linesToJump) {
        var newPosition := CreateNewPosition(editor.selection, linesToJump.value);
        editor.SetDecorations(LineHighlight, [Range.Point(newPosition)]);
      }
      return None;
    }
  }

  /** The inline `newPeekline(editor)`. */
  method NewPeekline(editor: TextEditor) returns (peekline: Peekline)
    ensures fresh(peekline) && peekline.editor == editor
  {
    peekline := new Peekline(editor);
  }

  /** On a valid cursor both previews draw the same highlight; they differ
      only in that the inline one never scrolls. */
  lemma PreviewsAgree(selection: Selection, inputValue: string)
    requires selection.active.character >= 0
    ensures PeekHighlight(selection, inputValue) == Preview.PreviewHighlight(selection, inputValue)
  {
  }

  /** Input a command commits: a string that is not empty (undefined and the
      empty string end the command without a change). */
  predicate IsCommitted(input: Option<string>) {
    input.Some? && input.value != ""
  }

  /** The target of a committed input: the cursor moved by its line offset. */
  function CommitTarget(selection: Selection, input: string): (target: Position)
    requires input != "" && Number(input).Some?
    ensures target == CreateNewPosition(selection, Number(input).value)
  {
    CreateNewPosition(selection, ParseInput(input).value)
  }

  /** The preview shows where the commit lands: for a non-zero offset the
      highlight is at the committed target. */
  lemma PreviewShowsCommitTarget(selection: Selection, input: string)
    requires input != "" && Number(input).Some? && Number(input).value != 0
    ensures PeekHighlight(selection, input) == [Range.Point(CommitTarget(selection, input))]
  {
  }

  /** The `goto` command: the selection collapses to the target, the
      highlight is removed, and the editor scrolls (centred) when the target
      is off-screen. Without an editor, or for undefined or empty input,
      nothing changes. */
  method Goto(editor: TextEditor?, input: Option<string>)
    requires editor != null && IsCommitted(input) ==> Number(input.value).Some? && |editor.visibleRanges| > 0
    modifies editor
    ensures editor != null && !IsCommitted(input) ==> unchanged(editor)
    ensures editor != null && IsCommitted(input) ==>
      var target := CommitTarget(old(editor.selection), input.value);
      && editor.selection == Selection(target, target)
      && editor.decorations == old(editor.decorations)[LineHighlight := []]
      && editor.visibleRanges == old(editor.visibleRanges)
      && editor.revealRequests == old(editor.revealRequests) + ScrollRequests(editor.visibleRanges[0], target, InCenter)
  {
    if editor == null {
      return;
    }
    if input.None? || input.value == "" {
      return;
    }
    var linesToJump := ParseInput(input.value);
    DeleteHighlight(editor);
    var newPosition := CreateNewPosition(editor.selection, linesToJump.value);
    var newSelection := Selection(newPosition, newPosition);
    editor.selection := newSelection;
    ShiftVisibleRange(editor, newPosition);
  }

  /** Cancelling the prompt after a preview: the command returns before it
      removes the highlight, so the last preview stays on screen. */
  method CancelKeepsPreview(editor: TextEditor, inputValue: string)
    modifies editor
    ensures editor.selection == old(editor.selection)
    ensures editor.Highlights() == PeekHighlight(old(editor.selection), inputValue)
    ensures inputValue != "" && Number(inputValue).Some? && Number(inputValue).value != 0 ==>
      editor.Highlights() != []
  {
    var peekline := new Peekline(editor);
    var _ := peekline.Peek(inputValue);
    Goto(editor, None);
  }

  /** The `select` command: the anchor stays, the active end moves to the
      target (computed from the cursor before the selection is replaced), the
      highlight is removed, and the editor scrolls (centred) when the target
      is off-screen. Without an editor, or for undefined or empty input,
      nothing changes. */
  method Select(editor: TextEditor?, input: Option<string>)
    requires editor != null && IsCommitted(input) ==> Number(input.value).Some? && |editor.visibleRanges| > 0
    modifies editor
    ensures editor != null && !IsCommitted(input) ==> unchanged(editor)
    ensures editor != null && IsCommitted(input) ==>
      var target := CommitTarget(old(editor.selection), input.value);
      && editor.selection == Selection(old(editor.selection).anchor, target)
      && editor.decorations == old(editor.decorations)[LineHighlight := []]
      && editor.visibleRanges == old(editor.visibleRanges)
      && editor.revealRequests == old(editor.revealRequests) + ScrollRequests(editor.visibleRanges[0], target, InCenter)
  {
    if editor == null {
      return;
    }
    if input.None? || input.value == "" {
      return;
    }
    var linesToJump := ParseInput(input.value);
    DeleteHighlight(editor);
    var newPosition := CreateNewPosition(editor.selection, linesToJump.value);
    var newSelection := Selection(editor.selection.anchor, newPosition);
    editor.selection := newSelection;
    ShiftVisibleRange(editor, newPosition);
  }

  /** A rendered line offset commits to the cursor moved by that offset, with
      the line clamped at 0 and the character kept. */
  lemma CommitTargetOfRendering(selection: Selection, n: int)
    ensures CommitTarget(selection, IntToString(n)) == CreateNewPosition(selection, n)
  {
    NumberOfRendering(n);
  }

  /** Anchor on line 2, cursor on line 10: selecting with "3" spans from the
      anchor to line 13 in the cursor's column. */
  lemma SelectScenario(anchorCharacter: nat, character: nat)
    ensures CommitTarget(Selection(Position(2, anchorCharacter), Position(10, character)), "3")
         == Position(13, character)
  {
    NumberOfRendering(3);
  }
}
