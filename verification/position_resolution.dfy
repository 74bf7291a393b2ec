/**
 * `createNewPosition` (src/createNewPosition.ts): the jump target, found by
 * adding the offsets to the cursor (the active end of the selection) and
 * clamping each coordinate below at 0. There is no upper clamp: the host
 * saturates a position past the end of the document.
 */
module PositionResolution {
  import opened Vscode

  function CreateNewPosition(selection: Selection, linesToJump: int, charactersToJump: int := 0): (newPosition: Position)
    ensures newPosition.IsValid()
    ensures var line := selection.active.line + linesToJump;
      newPosition.line == if line < 0 then 0 else line
    ensures var character := selection.active.character + charactersToJump;
      newPosition.character == if character < 0 then 0 else character
  {
    var newLine := selection.active.line + linesToJump;
    var newLine := if newLine < 0 then 0 else newLine;
    var newCharacter := selection.active.character + charactersToJump;
    var newCharacter := if newCharacter < 0 then 0 else newCharacter;
    Position(newLine, newCharacter)
  }

  /** Zero offsets leave a valid cursor where it is. */
  lemma ZeroOffsetIsIdentity(selection: Selection)
    requires selection.active.IsValid()
    ensures CreateNewPosition(selection, 0, 0) == selection.active
  {
  }

  /** Only the active end is read: the anchor never influences the target. */
  lemma AnchorIsIgnored(anchor1: Position, anchor2: Position, active: Position, linesToJump: int, charactersToJump: int)
    ensures CreateNewPosition(Selection(anchor1, active), linesToJump, charactersToJump)
         == CreateNewPosition(Selection(anchor2, active), linesToJump, charactersToJump)
  {
  }

  /** A larger line offset never gives an earlier line. */
  lemma LineIsMonotone(selection: Selection, lines1: int, lines2: int, charactersToJump: int)
    requires lines1 <= lines2
    ensures CreateNewPosition(selection, lines1, charactersToJump).line
         <= CreateNewPosition(selection, lines2, charactersToJump).line
  {
  }
}
