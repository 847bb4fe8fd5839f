/** Strings as the Go programs see them: a Go string ranged over is a sequence of
    runes, modelled as `seq<char>` (Unicode scalar values).  The library string
    helpers whose definitions are not part of this model are passed around as
    function values of a `Library`, so that every property below holds whatever
    they compute. */
module Text {

  /** The library helpers the classification code calls, left uninterpreted. */
  datatype Library = Library(
    isPrint: char -> bool,          // unicode.IsPrint
    toLower: string -> string,      // strings.ToLower
    words: string -> seq<string>    // strutil.Words
  )

  /** Number of bytes the UTF-8 encoding of one rune takes. */
  function Utf8Width(c: char): (n: nat)
    ensures 1 <= n <= 4
    ensures n == 1 <==> c as int < 0x80
  {
    if c as int < 0x80 then 1
    else if c as int < 0x800 then 2
    else if c as int < 0x10000 then 3
    else 4
  }

  /** `len(s)` of a Go string: its length in UTF-8 bytes, not in runes. */
  function Utf8Length(s: string): (n: nat)
    ensures |s| <= n <= 4 * |s|
    ensures n == 0 <==> s == []
  {
    if s == [] then 0 else Utf8Width(s[0]) + Utf8Length(s[1..])
  }

  lemma {:induction false} Utf8LengthConcat(a: string, b: string)
    ensures Utf8Length(a + b) == Utf8Length(a) + Utf8Length(b)
  {
    if a == [] {
      assert a + b == b;
    } else {
      assert (a + b)[1..] == a[1..] + b;
      Utf8LengthConcat(a[1..], b);
    }
  }

  /** For text made only of ASCII runes, bytes and runes coincide. */
  lemma {:induction false} Utf8LengthAscii(s: string)
    requires forall i :: 0 <= i < |s| ==> s[i] as int < 0x80
    ensures Utf8Length(s) == |s|
  {
    if s != [] {
      Utf8LengthAscii(s[1..]);
    }
  }

  /** `strings.Map` with a mapping that drops (returns -1 for) every rune that
      fails `keep`: the runes of `s` that pass, in their original order. */
  function KeepIf(keep: char -> bool, s: string): (r: string)
    ensures |r| <= |s|
    ensures forall i :: 0 <= i < |r| ==> keep(r[i])
    ensures forall c :: c in r <==> c in s && keep(c)
  {
    if s == [] then []
    else (if keep(s[0]) then [s[0]] else []) + KeepIf(keep, s[1..])
  }

  /** Filtering distributes over concatenation; with the single-rune case
      this pins `KeepIf` down uniquely. */
  lemma {:induction false} KeepIfConcat(keep: char -> bool, a: string, b: string)
    ensures KeepIf(keep, a + b) == KeepIf(keep, a) + KeepIf(keep, b)
  {
    if a == [] {
      assert a + b == b;
    } else {
      assert (a + b)[1..] == a[1..] + b;
      KeepIfConcat(keep, a[1..], b);
    }
  }

  /** Text whose runes all pass is returned unchanged. */
  lemma {:induction false} KeepIfAllKept(keep: char -> bool, s: string)
    requires forall i :: 0 <= i < |s| ==> keep(s[i])
    ensures KeepIf(keep, s) == s
  {
    if s != [] {
      KeepIfAllKept(keep, s[1..]);
    }
  }

  /** Filtering twice is filtering once. */
  lemma KeepIfIdempotent(keep: char -> bool, s: string)
    ensures KeepIf(keep, KeepIf(keep, s)) == KeepIf(keep, s)
  {
    KeepIfAllKept(keep, KeepIf(keep, s));
  }

  /** `strings.Join`: the parts with `sep` between neighbours. */
  function Join(parts: seq<string>, sep: string): (r: string)
  {
    if |parts| == 0 then ""
    else if |parts| == 1 then parts[0]
    else parts[0] + sep + Join(parts[1..], sep)
  }

  /** Number of occurrences of a rune. */
  function Occurrences(c: char, s: string): (n: nat)
    ensures n <= |s|
    ensures n == 0 <==> c !in s
  {
    if s == [] then 0 else (if s[0] == c then 1 else 0) + Occurrences(c, s[1..])
  }

  lemma {:induction false} OccurrencesConcat(c: char, a: string, b: string)
    ensures Occurrences(c, a + b) == Occurrences(c, a) + Occurrences(c, b)
  {
    if a == [] {
      assert a + b == b;
    } else {
      assert (a + b)[1..] == a[1..] + b;
      OccurrencesConcat(c, a[1..], b);
    }
  }

  /** Total number of occurrences of `c` over a list of strings. */
  function OccurrencesAll(c: char, parts: seq<string>): nat
  {
    if parts == [] then 0 else Occurrences(c, parts[0]) + OccurrencesAll(c, parts[1..])
  }

  lemma {:induction false} OccurrencesAllConcat(c: char, a: seq<string>, b: seq<string>)
    ensures OccurrencesAll(c, a + b) == OccurrencesAll(c, a) + OccurrencesAll(c, b)
  {
    if a == [] {
      assert a + b == b;
    } else {
      assert (a + b)[1..] == a[1..] + b;
      OccurrencesAllConcat(c, a[1..], b);
    }
  }

  /** Joining with a separator free of `c` neither adds nor loses a `c`. */
  lemma {:induction false} OccurrencesJoin(c: char, parts: seq<string>, sep: string)
    requires c !in sep
    ensures Occurrences(c, Join(parts, sep)) == OccurrencesAll(c, parts)
  {
    if |parts| == 1 {
      assert parts[1..] == [];
    } else if |parts| > 1 {
      OccurrencesJoin(c, parts[1..], sep);
      OccurrencesConcat(c, parts[0] + sep, Join(parts[1..], sep));
      OccurrencesConcat(c, parts[0], sep);
    }
  }
}
