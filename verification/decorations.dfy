/**
 * `highlight` (src/highlight.ts) and `deleteHighlight` (src/deleteHighlight.ts):
 * the two writes to the line-highlight decoration of the editor. Both replace
 * the ranges of that one decoration type; nothing else in the editor changes
 * (their frames name only the decorations).
 */
module Decorations {
  import opened JsNumbers
  import opened Vscode

  /** Draws the single preview highlight at `newPosition`, but only for a
      truthy line offset: for 0 (or NaN) the decorations stay as they were,
      and a previous highlight is not removed. The character offset plays no
      part. */
  method Highlight(editor: TextEditor, linesToJump: JsInt, charactersToJump: JsInt, newPosition: Position)
    modifies editor`decorations
    ensures Truthy(linesToJump) ==>
      editor.decorations == old(editor.decorations)[LineHighlight := [Range.Point(newPosition)]]
    ensures !Truthy(linesToJump) ==> editor.decorations == old(editor.decorations)
  {
    if Truthy(linesToJump) {
      editor.SetDecorations(LineHighlight, [Range.Point(newPosition)]);
    }
  }

  /** Removes every line highlight; other decoration types are untouched. */
  method DeleteHighlight(editor: TextEditor)
    modifies editor`decorations
    ensures editor.decorations == old(editor.decorations)[LineHighlight := []]
    ensures editor.Highlights() == []
  {
    editor.SetDecorations(LineHighlight, []);
  }
}
