/**
 * The part of the host editor API that the extension reads and writes.
 * Positions, ranges and selections are values; the text editor is an object
 * whose selection, decorations and reveal requests change in place. Reveal
 * requests are recorded in order. What the host then does with them (the
 * scrolling itself) is not modelled, so the visible ranges never change here.
 */
module Vscode {

  /** A zero-based line and character; the host refuses negative values. */
  datatype Position = Position(line: int, character: int) {
    predicate IsValid() {
      line >= 0 && character >= 0
    }

    /** Strictly earlier: an earlier line, or the same line and an earlier character. */
    predicate IsBefore(other: Position) {
      line < other.line || (line == other.line && character < other.character)
    }
  }

  /** `start` and `end` of a range; `Range.Point(p)` is `new Range(p, p)`. */
  datatype Range = Range(start: Position, end: Position) {
    static function Point(p: Position): Range {
      Range(p, p)
    }

    /** `range.contains(p)`: `p` is neither before `start` nor after `end`. */
    predicate Contains(p: Position) {
      !p.IsBefore(start) && !end.IsBefore(p)
    }
  }

  /** A selection: the fixed `anchor` and the moving `active` end (the cursor). */
  datatype Selection = Selection(anchor: Position, active: Position)

  /** `TextEditorRevealType`. */
  datatype RevealType = Default | InCenter | InCenterIfOutsideViewport | AtTop

  /** One `revealRange(range, revealType)` request. */
  datatype Reveal = Reveal(range: Range, revealType: RevealType)

  /** The key of the line-highlight decoration type in an editor's decorations. */
  const LineHighlight: string := "lineHighlight"

  /** `range.contains` is the lexicographic order on (line, character), closed at both ends. */
  lemma ContainsIsLexicographic(r: Range, p: Position)
    ensures r.Contains(p) <==>
      (r.start.line < p.line || (r.start.line == p.line && r.start.character <= p.character)) &&
      (p.line < r.end.line || (p.line == r.end.line && p.character <= r.end.character))
  {
  }

  class TextEditor {
    var selection: Selection
    var visibleRanges: seq<Range>
    /** The ranges currently drawn for each decoration type. */
    var decorations: map<string, seq<Range>>
    /** Every `revealRange` request so far, oldest first. */
    var revealRequests: seq<Reveal>

    constructor (selection: Selection, visibleRanges: seq<Range>)
      ensures this.selection == selection && this.visibleRanges == visibleRanges
      ensures decorations == map[] && revealRequests == []
    {
      this.selection := selection;
      this.visibleRanges := visibleRanges;
      decorations := map[];
      revealRequests := [];
    }

    /** The ranges drawn with the line-highlight decoration. */
    function Highlights(): seq<Range>
      reads this
    {
      if LineHighlight in decorations then decorations[LineHighlight] else []
    }

    /** `setDecorations(decorationType, ranges)`: replaces the ranges of that type only. */
    method SetDecorations(decorationType: string, ranges: seq<Range>)
      modifies this`decorations
      ensures decorations == old(decorations)[decorationType := ranges]
    {
      decorations := decorations[decorationType := ranges];
    }

    /** `revealRange(range, revealType)`: records the request. */
    method RevealRange(range: Range, revealType: RevealType)
      modifies this`revealRequests
      ensures revealRequests == old(revealRequests) + [Reveal(range, revealType)]
    {
      revealRequests := revealRequests + [Reveal(range, revealType)];
    }
  }
}
