/** The `stringer` command line tool: reversing a string rune by rune, and
    counting either its bytes or its decimal digit runes. */
module Stringer {
  import opened Text

  /** The runes of `s` in reverse order. */
  function Reversed(s: string): (r: string)
    ensures |r| == |s|
    ensures forall i :: 0 <= i < |s| ==> r[i] == s[|s| - 1 - i]
  {
    if s == [] then [] else [s[|s| - 1]] + Reversed(s[..|s| - 1])
  }

  /** Reverse: each rune met in the range loop is put in front of what has
      been collected so far. */
  method Reverse(input: string) returns (result: string)
    ensures result == Reversed(input)
  {
    result := "";
    for i := 0 to |input|
      invariant result == Reversed(input[..i])
    {
      assert input[..i + 1][..i] == input[..i];
      result := [input[i]] + result;
    }
    assert input[..|input|] == input;
  }

  /** Reversing twice gives back the original runes. */
  lemma {:induction false} ReversedTwice(s: string)
    ensures Reversed(Reversed(s)) == s
  {
    var r := Reversed(Reversed(s));
    forall i | 0 <= i < |s|
      ensures r[i] == s[i]
    {
      assert Reversed(s)[|s| - 1 - i] == s[|s| - 1 - (|s| - 1 - i)];
    }
  }

  /** Reversal turns a concatenation around. */
  lemma {:induction false} ReversedConcat(a: string, b: string)
    ensures Reversed(a + b) == Reversed(b) + Reversed(a)
  {
    var l, r := Reversed(a + b), Reversed(b) + Reversed(a);
    forall i | 0 <= i < |a + b|
      ensures l[i] == r[i]
    {
      if i < |b| {
        assert r[i] == Reversed(b)[i];
      } else {
        assert r[i] == Reversed(a)[i - |b|];
      }
    }
  }

  /** A reversed string is as long in UTF-8 as the original. */
  lemma {:induction false} ReversedKeepsBytes(s: string)
    ensures Utf8Length(Reversed(s)) == Utf8Length(s)
  {
    if s != [] {
      var last, init := s[|s| - 1], s[..|s| - 1];
      assert s == init + [last];
      ReversedKeepsBytes(init);
      Utf8LengthConcat([last], Reversed(init));
      Utf8LengthConcat(init, [last]);
    }
  }

  /** The example pairs that come with the outlook cleaner's tests. */
  lemma ReverseExamples()
    ensures Reversed("") == ""
    ensures Reversed("Hello, world") == "dlrow ,olleH"
    ensures Reversed("Hello, 世界") == "界世 ,olleH"
  {
    assert Reversed("Hello, world") == "dlrow ,olleH";
    assert Reversed("Hello, 世界") == "界世 ,olleH";
  }

  /** `strconv.Atoi(string(c))` succeeds for a one-rune string exactly when
      the rune is an ASCII decimal digit: a lone sign is rejected, and no other
      rune is a digit to Atoi. */
  predicate AtoiAccepts(c: char)
  {
    '0' <= c <= '9'
  }

  /** The number of runes of `s` that Atoi accepts. */
  function DigitCount(s: string): (n: nat)
    ensures n <= |s|
  {
    if s == [] then 0 else DigitCount(s[..|s| - 1]) + (if AtoiAccepts(s[|s| - 1]) then 1 else 0)
  }

  /** inspectNumbers: count the runes that parse as a number. */
  method InspectNumbers(input: string) returns (count: int)
    ensures count == DigitCount(input)
  {
    count := 0;
    for i := 0 to |input|
      invariant count == DigitCount(input[..i])
    {
      assert input[..i + 1][..i] == input[..i];
      if AtoiAccepts(input[i]) {
        count := count + 1;
      }
    }
    assert input[..|input|] == input;
  }

  /** Inspect: the byte length and "char", or the digit count and "digit". */
  method Inspect(input: string, digits: bool) returns (count: int, kind: string)
    ensures !digits ==> count == Utf8Length(input) && kind == "char"
    ensures digits ==> count == DigitCount(input) && kind == "digit"
  {
    if !digits {
      return Utf8Length(input), "char";
    }
    count := InspectNumbers(input);
    kind := "digit";
  }

  /** The digits are some of the runes, and there are at least as many bytes
      as runes: a digit count never exceeds the character count. */
  lemma DigitsWithinChars(s: string)
    ensures DigitCount(s) <= |s| <= Utf8Length(s)
  {
  }

  /** Every rune is counted exactly when every rune is a digit. */
  lemma {:induction false} AllDigitsIff(s: string)
    ensures DigitCount(s) == |s| <==> forall i :: 0 <= i < |s| ==> AtoiAccepts(s[i])
  {
    if s != [] {
      var init := s[..|s| - 1];
      AllDigitsIff(init);
      assert forall i :: 0 <= i < |init| ==> init[i] == s[i];
    }
  }

  /** Digits are single bytes, so for an all-digit input the two counts of
      Inspect agree. */
  lemma AllDigitsCountsAgree(s: string)
    requires forall i :: 0 <= i < |s| ==> AtoiAccepts(s[i])
    ensures DigitCount(s) == Utf8Length(s)
  {
    AllDigitsIff(s);
    Utf8LengthAscii(s);
  }

  /** The digit count distributes over concatenation. */
  lemma {:induction false} DigitCountConcat(a: string, b: string)
    ensures DigitCount(a + b) == DigitCount(a) + DigitCount(b)
    decreases |b|
  {
    if b == [] {
      assert a + b == a;
    } else {
      var init := b[..|b| - 1];
      assert (a + b)[..|a + b| - 1] == a + init;
      DigitCountConcat(a, init);
    }
  }

  /** The usage example of the inspect command: three digits among six runes. */
  lemma InspectExample()
    ensures DigitCount("A1B2C3") == 3 && Utf8Length("A1B2C3") == 6
  {
    assert "A1B2C3"[..5] == "A1B2C";
    assert "A1B2C"[..4] == "A1B2";
    assert "A1B2"[..3] == "A1B";
    assert "A1B"[..2] == "A1";
    assert "A1"[..1] == "A";
    assert "A"[..0] == "";
  }

  /** The plural suffix of the inspect report. */
  function PluralSuffix(count: int): (s: string)
    ensures s == "" <==> count == 1
    ensures s != "" ==> s == "s"
  {
    if count == 1 then "" else "s"
  }
}
