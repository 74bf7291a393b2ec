/**
 * `validateInput` (src/validateInput.ts): split the input on single spaces,
 * turn a lone "-" into the number 0, and reject the input when the first or
 * the second field is a non-empty string that `Number` cannot read.
 */
module InputValidation {
  import opened Wrappers
  import opened JsNumbers
  import opened JsStrings

  /** An element of the mapped field array: a string, or the number 0 that
      replaces a lone "-". */
  datatype Field = Text(text: string) | Zero

  function ToField(token: string): Field {
    if token == "-" then Zero else Text(token)
  }

  /** JavaScript truthiness of a field: a non-empty string; the number 0 is falsy. */
  predicate IsTruthy(f: Field) {
    f.Text? && f.text != ""
  }

  /** `isNaN(Number(f))`; `Number(0)` is 0. */
  predicate IsNaN(f: Field) {
    f.Text? && Number(f.text).None?
  }

  /** A field that validation lets through: empty, a lone minus sign, or a numeral. */
  predicate Acceptable(token: string) {
    token == "" || token == "-" || Number(token).Some?
  }

  /** The input is valid exactly when its first field and, if there is one,
      its second field are acceptable; later fields play no part. */
  function ValidateInput(inputValue: string): (valid: bool)
    ensures var parts := Split(inputValue, ' ');
      valid <==> Acceptable(parts[0]) && (|parts| < 2 || Acceptable(parts[1]))
  {
    var parts := Split(inputValue, ' ');
    var inputArray := seq(|parts|, i requires 0 <= i < |parts| => ToField(parts[i]));
    if IsTruthy(inputArray[0]) && IsNaN(inputArray[0]) then false
    else if |inputArray| > 1 && IsTruthy(inputArray[1]) && IsNaN(inputArray[1]) then false
    else true
  }

  /** Input without a space is one field and is valid exactly when that field is acceptable. */
  lemma ValidateOneField(a: string)
    requires ' ' !in a
    ensures ValidateInput(a) == Acceptable(a)
  {
    SplitNoSeparator(a, ' ');
  }

  /** Two fields are both checked. */
  lemma ValidateTwoFields(a: string, b: string)
    requires ' ' !in a && ' ' !in b
    ensures ValidateInput(a + " " + b) == (Acceptable(a) && Acceptable(b))
  {
    SplitField(a, ' ', b);
    SplitNoSeparator(b, ' ');
  }

  /** Fields after the second are never examined. */
  lemma ValidateIgnoresLaterFields(a: string, b: string, rest: string)
    requires ' ' !in a && ' ' !in b
    ensures ValidateInput(a + " " + b + " " + rest) == ValidateInput(a + " " + b)
  {
    SplitField(a, ' ', b + " " + rest);
    assert a + " " + b + " " + rest == a + [' '] + (b + " " + rest);
    SplitField(b, ' ', rest);
    assert b + " " + rest == b + [' '] + rest;
    ValidateTwoFields(a, b);
  }

  /** A trailing space leaves an empty second field, which never causes rejection. */
  lemma ValidateTrailingSpace(a: string)
    requires ' ' !in a
    ensures ValidateInput(a + " ") == ValidateInput(a)
  {
    ValidateOneField(a);
    ValidateTwoFields(a, "");
    assert a + " " + "" == a + " ";
  }

  /** A leading space leaves an empty first field, which is skipped; the
      second field decides. */
  lemma ValidateLeadingSpace(b: string)
    requires ' ' !in b
    ensures ValidateInput(" " + b) == Acceptable(b)
  {
    ValidateTwoFields("", b);
    assert "" + " " + b == " " + b;
  }

  /** Every rendered line offset, alone, half-typed as "n -", or followed by a
      rendered character offset, is valid. */
  lemma ValidateRenderings(m: int, n: int)
    ensures ValidateInput(IntToString(m))
    ensures ValidateInput(IntToString(m) + " -")
    ensures ValidateInput(IntToString(m) + " " + IntToString(n))
  {
    NumberOfRendering(m);
    NumberOfRendering(n);
    ValidateOneField(IntToString(m));
    ValidateTwoFields(IntToString(m), "-");
    assert IntToString(m) + " " + "-" == IntToString(m) + " -";
    ValidateTwoFields(IntToString(m), IntToString(n));
  }

  /** An empty input and a half-typed minus sign are valid. */
  lemma ValidateEmptyAndMinus()
    ensures ValidateInput("") && ValidateInput("-") && ValidateInput("3 -")
  {
    ValidateOneField("");
    ValidateOneField("-");
    ValidateTwoFields("3", "-");
    assert "3" + " " + "-" == "3 -";
  }

  /** A word in the first field is rejected. */
  lemma ValidateRejectsFirstWord()
    ensures !ValidateInput("abc")
  {
    assert !IsDigit("abc"[0]);
    ValidateOneField("abc");
  }

  /** A word in the second field is rejected. */
  lemma ValidateRejectsSecondWord()
    ensures !ValidateInput("3 x")
  {
    assert !IsDigit("x"[0]);
    ValidateTwoFields("3", "x");
    assert "3" + " " + "x" == "3 x";
  }

  /** A negative numeral in the second field is accepted. */
  lemma ValidateNegativeSecondField()
    ensures ValidateInput("3 -2")
  {
    assert "-2"[1..] == "2";
    ValidateTwoFields("3", "-2");
    assert "3" + " " + "-2" == "3 -2";
  }

  /** A trailing space does not cause rejection. */
  lemma ValidateTrailingSpaceExample()
    ensures ValidateInput("7 ")
  {
    ValidateTrailingSpace("7");
    ValidateOneField("7");
    assert "7" + " " == "7 ";
  }

  /** A third field is not examined. */
  lemma ValidateThirdFieldExample()
    ensures ValidateInput("3 4 x")
  {
    ValidateIgnoresLaterFields("3", "4", "x");
    ValidateTwoFields("3", "4");
    assert "3" + " " + "4" + " " + "x" == "3 4 x";
  }

  /** After a leading space the second field decides. */
  lemma ValidateLeadingSpaceExamples()
    ensures ValidateInput(" 5") && !ValidateInput(" x")
  {
    assert ValidateInput(" 5") by {
      ValidateLeadingSpace("5");
      assert " " + "5" == " 5";
    }
    assert !ValidateInput(" x") by {
      ValidateLeadingSpace("x");
      assert " " + "x" == " x";
      assert !IsDigit("x"[0]);
    }
  }
}
