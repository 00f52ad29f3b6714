/** The few Python built-in behaviours the rest of the model relies on:
    dynamically typed values with their truthiness and `str()` rendering,
    `rstrip` with a character set, ASCII `lower`, and a result type for
    operations that raise. */
module Builtins {

  /** A byte, as found in a Python `bytes` object. */
  type Byte = b: int | 0 <= b < 256

  /** The outcome of an operation that may raise. */
  datatype Result<+T, +E> = Ok(value: T) | Err(error: E)

  datatype Option<+T> = None | Some(value: T)

  /** The Python values the core passes around untyped: configuration values
      and the optional arguments of the exception constructors. */
  datatype PyValue = NoneValue | Bool(b: bool) | Int(i: int) | Str(s: string)

  /** Python truthiness: `None`, `False`, `0` and `""` are false. */
  predicate Truthy(v: PyValue)
  {
    match v
    case NoneValue => false
    case Bool(b) => b
    case Int(i) => i != 0
    case Str(s) => s != ""
  }

  function DigitChar(d: nat): (c: char)
    requires d < 10
    ensures '0' <= c <= '9' && DigitValue(c) == d
  {
    "0123456789"[d]
  }

  function DigitValue(c: char): nat
    requires '0' <= c <= '9'
  {
    c as int - '0' as int
  }

  /** A decimal numeral as `str` writes one: digits only, and no leading
      zero unless the numeral is `0` itself. */
  predicate IsNumeral(s: string)
  {
    s != [] && (forall i :: 0 <= i < |s| ==> '0' <= s[i] <= '9') && (|s| > 1 ==> s[0] != '0')
  }

  /** The number a string of decimal digits denotes. */
  function DigitsValue(s: string): nat
    requires forall i :: 0 <= i < |s| ==> '0' <= s[i] <= '9'
  {
    if s == [] then 0 else 10 * DigitsValue(s[..|s| - 1]) + DigitValue(s[|s| - 1])
  }

  /** Decimal rendering of a natural number, as `str(n)`. */
  function NatToString(n: nat): (s: string)
    ensures IsNumeral(s) && DigitsValue(s) == n
    decreases n
  {
    if n < 10 then [DigitChar(n)]
    else
      var s := NatToString(n / 10) + [DigitChar(n % 10)];
      assert s[..|s| - 1] == NatToString(n / 10);
      s
  }

  /** A numeral with a non-zero first digit denotes a positive number. */
  lemma {:induction false} LeadingDigitPositive(s: string)
    requires s != [] && (forall i :: 0 <= i < |s| ==> '0' <= s[i] <= '9') && s[0] != '0'
    ensures DigitsValue(s) >= 1
    decreases |s|
  {
    if |s| > 1 {
      var p := s[..|s| - 1];
      assert p[0] == s[0];
      LeadingDigitPositive(p);
    }
  }

  lemma DivMod10(q: nat, d: nat)
    requires d < 10
    ensures (10 * q + d) / 10 == q && (10 * q + d) % 10 == d
  {
  }

  /** `str(n)` is the only numeral that denotes `n`: rendering and reading
      a numeral are inverse. */
  lemma {:induction false} NatToStringInverse(s: string)
    requires IsNumeral(s)
    ensures NatToString(DigitsValue(s)) == s
    decreases |s|
  {
    if |s| > 1 {
      var p := s[..|s| - 1];
      assert p[0] == s[0];
      var c := s[|s| - 1];
      assert s == p + [c];
      LeadingDigitPositive(p);
      NatToStringInverse(p);
      DivMod10(DigitsValue(p), DigitValue(c));
      assert DigitChar(DigitValue(c)) == c;
    }
  }

  /** `str(v)`, which is also what an f-string placeholder renders. */
  function Format(v: PyValue): (s: string)
    ensures v.Str? ==> s == v.s
    ensures v.Int? && v.i >= 0 ==> IsNumeral(s) && DigitsValue(s) == v.i
    ensures v.Int? && v.i < 0 ==> s != [] && s[0] == '-' && IsNumeral(s[1..]) && DigitsValue(s[1..]) == -v.i
    ensures v.Bool? ==> s == (if v.b then "True" else "False")
    ensures v.NoneValue? ==> s == "None"
  {
    match v
    case NoneValue => "None"
    case Bool(b) => if b then "True" else "False"
    case Int(i) => if i < 0 then "-" + NatToString(-i) else NatToString(i)
    case Str(s) => s
  }

  /** `s.rstrip(cs)`: drop every trailing element that belongs to `cs`. */
  function RStrip<T(==)>(s: seq<T>, cs: set<T>): (r: seq<T>)
    ensures |r| <= |s| && r == s[..|r|]
    ensures r == [] || r[|r| - 1] !in cs
    ensures forall j :: |r| <= j < |s| ==> s[j] in cs
    decreases |s|
  {
    if s != [] && s[|s| - 1] in cs then RStrip(s[..|s| - 1], cs) else s
  }

  /** The three properties above pin `rstrip` down completely. */
  lemma RStripUnique<T>(s: seq<T>, cs: set<T>, r: seq<T>)
    requires |r| <= |s| && r == s[..|r|]
    requires r == [] || r[|r| - 1] !in cs
    requires forall j :: |r| <= j < |s| ==> s[j] in cs
    ensures r == RStrip(s, cs)
  {
  }

  /** Appending elements of `cs` does not change what `rstrip(cs)` keeps. */
  lemma {:induction false} RStripAppend<T>(s: seq<T>, tail: seq<T>, cs: set<T>)
    requires forall j :: 0 <= j < |tail| ==> tail[j] in cs
    ensures RStrip(s + tail, cs) == RStrip(s, cs)
  {
    var r := RStrip(s, cs);
    RStripUnique(s + tail, cs, r);
  }

  /** A sequence whose last element is outside `cs` is left untouched. */
  lemma RStripKeeps<T>(s: seq<T>, cs: set<T>)
    requires s == [] || s[|s| - 1] !in cs
    ensures RStrip(s, cs) == s
  {
  }

  /** ASCII case folding, as `str.lower` does it on ASCII letters. */
  function LowerChar(c: char): (d: char)
    ensures 'A' <= c <= 'Z' ==> d as int == c as int + 32
    ensures !('A' <= c <= 'Z') ==> d == c
  {
    if 'A' <= c <= 'Z' then (c as int + 32) as char else c
  }

  function Lower(s: string): (r: string)
    ensures |r| == |s|
    ensures forall i :: 0 <= i < |s| ==> r[i] == LowerChar(s[i])
  {
    seq(|s|, i requires 0 <= i < |s| => LowerChar(s[i]))
  }

  /** Number of occurrences of `x` in `s`. */
  function Count<T(==)>(x: T, s: seq<T>): nat
  {
    if s == [] then 0 else (if s[0] == x then 1 else 0) + Count(x, s[1..])
  }

  lemma {:induction false} CountAppend<T>(x: T, a: seq<T>, b: seq<T>)
    ensures Count(x, a + b) == Count(x, a) + Count(x, b)
  {
    if a == [] {
      assert a + b == b;
    } else {
      assert (a + b)[1..] == a[1..] + b;
      CountAppend(x, a[1..], b);
    }
  }

  lemma {:induction false} CountAbsent<T>(x: T, s: seq<T>)
    requires x !in s
    ensures Count(x, s) == 0
  {
    if s != [] {
      CountAbsent(x, s[1..]);
    }
  }

  lemma CountSingleton<T>(x: T, y: T)
    ensures Count(x, [y]) == if x == y then 1 else 0
  {
    assert [y][1..] == [];
  }
}
