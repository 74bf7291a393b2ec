/**
 * `parseInput` (src/parseInput.ts): the line offset typed into the prompt.
 * The cleared prompt means 0 (so the preview can return to the cursor);
 * anything else is read by `parseInt`.
 */
module InputParsing {
  import opened Wrappers
  import opened JsNumbers

  /** `linesToJump` for the prompt text `input`; `None` is NaN. */
  function ParseInput(input: string): (linesToJump: JsInt)
    ensures input == "" ==> linesToJump == Some(0)
    ensures Number(input).Some? ==> linesToJump == Number(input)
    ensures linesToJump.None? <==>
      input != "" && (SignLength(input) == |input| || !IsDigit(input[SignLength(input)]))
  {
    if input == "" then Some(0)
    else
      NumberIsParseInt(input);
      ParseInt(input)
  }

  /** Rendering any line offset, with anything after it that does not start
      with a digit, and parsing it back gives the offset: "-3 2" is -3 and
      "7 " is 7. */
  lemma ParseInputOfRendering(n: int, rest: string)
    requires rest == [] || !IsDigit(rest[0])
    ensures ParseInput(IntToString(n) + rest) == Some(n)
  {
    ParseIntOfRendering(n, rest);
  }

  /** Only the first field counts: what follows the first space never
      changes the result of a non-empty first field. */
  lemma ParseInputFirstFieldOnly(a: string, b: string)
    requires a != "" && ' ' !in a
    ensures ParseInput(a + " " + b) == ParseInt(a)
  {
    var k := SignLength(a);
    assert (a + " " + b)[k..] == a[k..] + (" " + b);
    LeadingDigitsAppend(a[k..], " " + b);
    var d := LeadingDigits(a[k..]);
    assert (a[k..] + (" " + b))[..d] == a[k..][..d];
  }

  /** Input with no numeral at its start is NaN. */
  lemma ParseInputNaN()
    ensures ParseInput("-") == None && ParseInput("abc") == None
  {
    NaNExamples();
  }

  /** The typical inputs. */
  lemma ParseInputExamples()
    ensures ParseInput("") == Some(0) && ParseInput("5") == Some(5)
    ensures ParseInput("-3 2") == Some(-3) && ParseInput("7 ") == Some(7)
  {
    ParseInputOfRendering(5, "");
    assert IntToString(5) + "" == "5";
    ParseInputOfRendering(-3, " 2");
    assert IntToString(-3) + " 2" == "-3 2";
    ParseInputOfRendering(7, " ");
    assert IntToString(7) + " " == "7 ";
  }
}
