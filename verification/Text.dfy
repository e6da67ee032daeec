/** Go's optional values and the largest of its integers. */
module Common {
  datatype Option<+T> = None | Some(value: T)

  const MAX_INT64: int := 0x7FFF_FFFF_FFFF_FFFF
  const MAX_INT32: int := 0x7FFF_FFFF
}

/**
  `strings.Split`, `strings.TrimSpace`, `strings.Fields`, `strconv.Atoi` and decimal formatting,
  on strings as sequences of code points.
 */
module Text {
  import opened Common

  /** No occurrence of `sep` in `s`. */
  predicate Free(s: string, sep: char) {
    forall i :: 0 <= i < |s| ==> s[i] != sep
  }

  // ---------------------------------------------------------------- Split and Join

  /** `strings.Split(s, sep)` for a one-character separator: never empty. */
  function Split(s: string, sep: char): (parts: seq<string>)
    ensures |parts| >= 1
  {
    if s == [] then [[]]
    else
      var rest := Split(s[1..], sep);
      if s[0] == sep then [[]] + rest else [[s[0]] + rest[0]] + rest[1..]
  }

  function Join(parts: seq<string>, sep: char): string
    requires |parts| >= 1
  {
    if |parts| == 1 then parts[0] else parts[0] + [sep] + Join(parts[1..], sep)
  }

  /** Splitting yields separator-free parts that join back to the string. */
  lemma {:induction false} SplitThenJoin(s: string, sep: char)
    ensures Join(Split(s, sep), sep) == s
    ensures forall i :: 0 <= i < |Split(s, sep)| ==> Free(Split(s, sep)[i], sep)
  {
    if s != [] {
      SplitThenJoin(s[1..], sep);
      var rest := Split(s[1..], sep);
      if s[0] == sep {
        assert ([[]] + rest)[1..] == rest;
      } else {
        var parts := [[s[0]] + rest[0]] + rest[1..];
        assert parts[1..] == rest[1..];
        assert Split(s, sep) == parts;
        if |rest| > 1 {
          assert Join(parts, sep) == ([s[0]] + rest[0]) + [sep] + Join(rest[1..], sep);
          assert Join(parts, sep) == [s[0]] + Join(rest, sep);
        }
      }
    }
  }

  lemma {:induction false} SplitOfFree(s: string, sep: char)
    requires Free(s, sep)
    ensures Split(s, sep) == [s]
  {
    if s != [] {
      assert Free(s[1..], sep);
      SplitOfFree(s[1..], sep);
      assert s[0] != sep;
      assert [s[0]] + s[1..] == s;
    }
  }

  lemma {:induction false} SplitOfPrefix(a: string, b: string, sep: char)
    requires Free(a, sep)
    ensures Split(a + [sep] + b, sep) == [a] + Split(b, sep)
  {
    var s := a + [sep] + b;
    if a == [] {
      assert s[1..] == b;
    } else {
      assert Free(a[1..], sep);
      SplitOfPrefix(a[1..], b, sep);
      assert s[1..] == a[1..] + [sep] + b;
      assert s[0] != sep;
      assert [s[0]] + a[1..] == a;
    }
  }

  /** Joining separator-free parts and splitting gives the parts back. */
  lemma {:induction false} JoinThenSplit(parts: seq<string>, sep: char)
    requires |parts| >= 1
    requires forall i :: 0 <= i < |parts| ==> Free(parts[i], sep)
    ensures Split(Join(parts, sep), sep) == parts
  {
    if |parts| == 1 {
      SplitOfFree(parts[0], sep);
    } else {
      JoinThenSplit(parts[1..], sep);
      SplitOfPrefix(parts[0], Join(parts[1..], sep), sep);
    }
  }

  /** How often a character occurs. */
  function Occurrences(s: string, c: char): nat {
    multiset(s)[c]
  }

  lemma OccurrencesTail(s: string, c: char)
    requires s != []
    ensures Occurrences(s, c) == Occurrences(s[1..], c) + if s[0] == c then 1 else 0
  {
    assert s == [s[0]] + s[1..];
  }

  lemma OccurrencesFront(s: string, c: char)
    requires s != []
    ensures Occurrences(s, c) == Occurrences(s[..|s| - 1], c) + if s[|s| - 1] == c then 1 else 0
  {
    assert s == s[..|s| - 1] + [s[|s| - 1]];
  }

  /** Splitting cuts at every separator. */
  lemma {:induction false} SplitCounts(s: string, sep: char)
    ensures |Split(s, sep)| == Occurrences(s, sep) + 1
  {
    if s != [] {
      SplitCounts(s[1..], sep);
      OccurrencesTail(s, sep);
    }
  }

  // ---------------------------------------------------------------- White space

  /** `unicode.IsSpace`. */
  predicate IsSpace(c: char) {
    c in {'\t', '\n', '\U{0b}', '\U{0c}', '\r', ' ', '\U{85}', '\U{a0}', '\U{1680}',
          '\U{2028}', '\U{2029}', '\U{202f}', '\U{205f}', '\U{3000}'}
    || '\U{2000}' <= c <= '\U{200a}'
  }

  predicate NoSpace(s: string) {
    forall i :: 0 <= i < |s| ==> !IsSpace(s[i])
  }

  function TrimLeft(s: string): (r: string)
    ensures |r| <= |s|
    ensures r == [] || !IsSpace(r[0])
    ensures s == [] || !IsSpace(s[0]) ==> r == s
  {
    if s == [] || !IsSpace(s[0]) then s else TrimLeft(s[1..])
  }

  function TrimRight(s: string): (r: string)
    ensures |r| <= |s|
    ensures r == [] || !IsSpace(r[|r| - 1])
    ensures s == [] || !IsSpace(s[|s| - 1]) ==> r == s
    ensures r == s[..|r|]
  {
    if s == [] || !IsSpace(s[|s| - 1]) then s else TrimRight(s[..|s| - 1])
  }

  /** `strings.TrimSpace`. */
  function TrimSpace(s: string): (r: string)
    ensures r == [] || (!IsSpace(r[0]) && !IsSpace(r[|r| - 1]))
    ensures NoSpace(s) ==> r == s
  {
    TrimRight(TrimLeft(s))
  }

  /** A string that trimming leaves alone. */
  predicate Trimmed(s: string) {
    TrimSpace(s) == s
  }

  lemma TrimIsTrimmed(s: string)
    ensures Trimmed(TrimSpace(s))
  {
  }

  lemma {:induction false} TrimLeftCounts(s: string, c: char)
    requires !IsSpace(c)
    ensures Occurrences(TrimLeft(s), c) == Occurrences(s, c)
  {
    if s != [] && IsSpace(s[0]) {
      OccurrencesTail(s, c);
      TrimLeftCounts(s[1..], c);
    }
  }

  lemma {:induction false} TrimRightCounts(s: string, c: char)
    requires !IsSpace(c)
    ensures Occurrences(TrimRight(s), c) == Occurrences(s, c)
  {
    if s != [] && IsSpace(s[|s| - 1]) {
      OccurrencesFront(s, c);
      TrimRightCounts(s[..|s| - 1], c);
    }
  }

  /** Trimming drops nothing but white space. */
  lemma TrimCounts(s: string, c: char)
    requires !IsSpace(c)
    ensures Occurrences(TrimSpace(s), c) == Occurrences(s, c)
  {
    TrimLeftCounts(s, c);
    TrimRightCounts(TrimLeft(s), c);
  }

  /** Trimming only drops characters. */
  lemma {:induction false} TrimKeepsFree(s: string, sep: char)
    requires Free(s, sep)
    ensures Free(TrimSpace(s), sep)
  {
    TrimLeftKeepsFree(s, sep);
  }

  lemma {:induction false} TrimLeftKeepsFree(s: string, sep: char)
    requires Free(s, sep)
    ensures Free(TrimLeft(s), sep)
  {
    if s != [] && IsSpace(s[0]) {
      assert Free(s[1..], sep);
      TrimLeftKeepsFree(s[1..], sep);
    }
  }

  /** The length of the space-free prefix of `s`. */
  function WordLength(s: string): (n: nat)
    ensures n <= |s|
    ensures NoSpace(s[..n])
    ensures n < |s| ==> IsSpace(s[n])
  {
    if s == [] || IsSpace(s[0]) then 0
    else
      var n := 1 + WordLength(s[1..]);
      assert s[..n] == [s[0]] + s[1..][..n - 1];
      n
  }

  /** `strings.Fields`. */
  function Fields(s: string): (words: seq<string>)
    ensures forall i :: 0 <= i < |words| ==> NoSpace(words[i]) && words[i] != []
    decreases |s|
  {
    var t := TrimLeft(s);
    if t == [] then []
    else
      var n := WordLength(t);
      [t[..n]] + Fields(t[n..])
  }

  /** `Fields` takes one word off the front. */
  lemma FieldsStep(w: string, rest: string)
    requires NoSpace(w) && w != []
    requires rest == [] || IsSpace(rest[0])
    ensures Fields(w + rest) == [w] + Fields(rest)
  {
    var s := w + rest;
    assert s[0] == w[0] && !IsSpace(s[0]);
    WordLengthOfPrefix(w, rest);
    assert s[..|w|] == w && s[|w|..] == rest;
  }

  lemma FieldsSkipSpace(s: string)
    ensures Fields([' '] + s) == Fields(s)
  {
    assert ([' '] + s)[1..] == s;
  }

  /** Words joined by single spaces come back from `Fields`. */
  lemma {:induction false} FieldsOfJoin(words: seq<string>)
    requires |words| >= 1
    requires forall i :: 0 <= i < |words| ==> NoSpace(words[i]) && words[i] != []
    ensures Fields(Join(words, ' ')) == words
  {
    var w := words[0];
    assert NoSpace(w) && w != [];
    if |words| == 1 {
      FieldsStep(w, []);
      assert w + [] == w;
      assert Fields([]) == [];
    } else {
      var tail := Join(words[1..], ' ');
      FieldsOfJoin(words[1..]);
      FieldsSkipSpace(tail);
      FieldsStep(w, [' '] + tail);
      assert w + ([' '] + tail) == Join(words, ' ');
    }
  }

  lemma {:induction false} WordLengthOfPrefix(w: string, rest: string)
    requires NoSpace(w)
    requires rest == [] || IsSpace(rest[0])
    ensures WordLength(w + rest) == |w|
  {
    if w == [] {
      assert w + rest == rest;
    } else {
      assert !IsSpace((w + rest)[0]);
      assert NoSpace(w[1..]);
      WordLengthOfPrefix(w[1..], rest);
      assert (w + rest)[1..] == w[1..] + rest;
    }
  }

  // ---------------------------------------------------------------- Decimal numbers

  predicate IsDigit(c: char) {
    '0' <= c <= '9'
  }

  predicate AllDigits(s: string) {
    forall i :: 0 <= i < |s| ==> IsDigit(s[i])
  }

  /** The number written by a string of digits. */
  function DigitsValue(s: string): nat
    requires AllDigits(s)
  {
    if s == [] then 0 else DigitsValue(s[..|s| - 1]) * 10 + (s[|s| - 1] as int - '0' as int)
  }

  /** `strconv.Atoi` on a 64-bit platform: an optional sign, at least one digit, and no overflow. */
  function Atoi(s: string): Option<int> {
    var negative := s != [] && s[0] == '-';
    var digits := if s != [] && (s[0] == '-' || s[0] == '+') then s[1..] else s;
    if digits == [] || !AllDigits(digits) then None
    else
      var n: int := if negative then 0 - DigitsValue(digits) else DigitsValue(digits);
      if -MAX_INT64 - 1 <= n <= MAX_INT64 then Some(n) else None
  }

  function Digit(d: nat): (c: char)
    requires d < 10
    ensures IsDigit(c)
    ensures c as int - '0' as int == d
  {
    ('0' as int + d) as char
  }

  /** `fmt.Sprintf("%d", n)`. */
  function Decimal(n: nat): (s: string)
    ensures s != [] && AllDigits(s)
  {
    if n < 10 then [Digit(n)] else Decimal(n / 10) + [Digit(n % 10)]
  }

  lemma {:induction false} DecimalValue(n: nat)
    ensures DigitsValue(Decimal(n)) == n
  {
    if n < 10 {
      assert Decimal(n)[..0] == [];
    } else {
      DecimalValue(n / 10);
      var s := Decimal(n);
      assert s[..|s| - 1] == Decimal(n / 10);
    }
  }

  /** Decimal formatting and `Atoi` are inverse up to the largest int, and `Atoi` rejects the rest. */
  lemma AtoiOfDecimal(n: nat)
    ensures Atoi(Decimal(n)) == if n <= MAX_INT64 then Some(n) else None
  {
    DecimalValue(n);
    var s := Decimal(n);
    assert IsDigit(s[0]);
  }

  lemma DecimalInjective(m: nat, n: nat)
    requires Decimal(m) == Decimal(n)
    ensures m == n
  {
    DecimalValue(m);
    DecimalValue(n);
  }

  /** Digits are none of the separators used in the small languages. */
  lemma DecimalFree(n: nat, sep: char)
    requires !IsDigit(sep)
    ensures Free(Decimal(n), sep)
  {
  }

  lemma DecimalNoSpace(n: nat)
    ensures NoSpace(Decimal(n))
  {
    var s := Decimal(n);
    forall i | 0 <= i < |s| ensures !IsSpace(s[i]) {
      assert IsDigit(s[i]);
    }
  }
}
