/**
 * The string primitives the bot relies on: ASCII digits, `str(int)`,
 * `int(str)`, `str.strip()`, `str.split(sep)` and `str.split(sep, 1)`.
 */
module Text {
  import opened Common

  predicate IsDigit(c: char) { '0' <= c <= '9' }

  predicate AllDigits(s: string) { forall i | 0 <= i < |s| :: IsDigit(s[i]) }

  function DigitValue(c: char): (d: nat)
    requires IsDigit(c)
    ensures d < 10
  {
    c as int - '0' as int
  }

  function DigitChar(d: nat): (c: char)
    requires d < 10
    ensures IsDigit(c) && DigitValue(c) == d
  {
    ('0' as int + d) as char
  }

  /** The value of a string of decimal digits, most significant first. */
  function DigitsValue(s: string): nat
    requires AllDigits(s)
    decreases |s|
  {
    if s == [] then 0 else 10 * DigitsValue(s[..|s| - 1]) + DigitValue(s[|s| - 1])
  }

  /** `str(n)` for a non-negative integer. */
  function NatToString(n: nat): (s: string)
    ensures 1 <= |s| && AllDigits(s)
    ensures n < 10 <==> |s| == 1
  {
    if n < 10 then [DigitChar(n)] else NatToString(n / 10) + [DigitChar(n % 10)]
  }

  lemma {:induction false} NatToStringValue(n: nat)
    ensures DigitsValue(NatToString(n)) == n
  {
    if n >= 10 {
      var s := NatToString(n);
      assert s[..|s| - 1] == NatToString(n / 10);
      NatToStringValue(n / 10);
    }
  }

  /** `str(i)` for any integer. */
  function IntToString(i: int): (s: string)
    ensures 1 <= |s| && ':' !in s
  {
    if i < 0 then "-" + NatToString(-i) else NatToString(i)
  }

  /**
   * Python's `int(s)` on an optional sign followed by ASCII digits;
   * `None` stands for the `ValueError` it raises on anything else.
   */
  function ParseInt(s: string): (r: Option<int>)
    ensures r.Some? ==> 1 <= |s| && AllDigits(s[1..])
    ensures r.Some? && r.value < 0 ==> s[0] == '-'
    ensures r.Some? && s[0] == '-' ==> r.value <= 0
    ensures AllDigits(s) && s != [] ==> r == Some(DigitsValue(s) as int)
  {
    if 2 <= |s| && (s[0] == '-' || s[0] == '+') && AllDigits(s[1..]) then
      Some(if s[0] == '-' then -(DigitsValue(s[1..]) as int) else DigitsValue(s[1..]) as int)
    else if 1 <= |s| && AllDigits(s) then
      Some(DigitsValue(s))
    else
      None
  }

  /** `int(str(i)) == i`: printed integers read back unchanged. */
  lemma ParseIntToString(i: int)
    ensures ParseInt(IntToString(i)) == Some(i)
  {
    if i < 0 {
      ParseIntNegative(-i);
    } else {
      ParseIntNatural(i);
    }
  }

  lemma ParseIntNatural(n: nat)
    ensures ParseInt(NatToString(n)) == Some(n)
  {
    var s := NatToString(n);
    NatToStringValue(n);
    assert s[0] != '-' && s[0] != '+' by { assert IsDigit(s[0]); }
  }

  lemma ParseIntNegative(n: nat)
    requires n > 0
    ensures ParseInt("-" + NatToString(n)) == Some(-(n as int))
  {
    var s := "-" + NatToString(n);
    assert s[1..] == NatToString(n);
    NatToStringValue(n);
  }

  /** Distinct integers print as distinct strings. */
  lemma IntToStringInjective(i: int, j: int)
    requires IntToString(i) == IntToString(j)
    ensures i == j
  {
    ParseIntToString(i);
    ParseIntToString(j);
  }

  /** `f"{n:02d}"` for `n < 100`. */
  function Pad2(n: nat): (s: string)
    requires n < 100
    ensures |s| == 2 && AllDigits(s) && DigitsValue(s) == n
  {
    var s := [DigitChar(n / 10), DigitChar(n % 10)];
    assert s[..1] == [s[0]] && [s[0]][..0] == [];
    assert DigitsValue([s[0]]) == n / 10;
    assert s[..|s| - 1] == [s[0]];
    assert DigitsValue(s) == 10 * (n / 10) + n % 10;
    s
  }

  /** One or two digits are worth less than 100. */
  lemma TwoDigitsBound(d: string)
    requires AllDigits(d) && |d| <= 2
    ensures DigitsValue(d) < 100
  {
    if |d| == 2 {
      assert d[..1][..0] == [] && d[..|d| - 1] == d[..1];
      assert DigitsValue(d[..1]) == DigitValue(d[0]);
    } else if |d| == 1 {
      assert d[..0] == [];
    }
  }

  /** `f"{int(d):02d}" == d` for two digits `d`. */
  lemma Pad2OfDigits(d: string)
    requires AllDigits(d) && |d| == 2
    ensures DigitsValue(d) < 100 && Pad2(DigitsValue(d)) == d
  {
    TwoDigitsBound(d);
    assert d[..1][..0] == [];
    assert d[..|d| - 1] == d[..1];
    assert DigitsValue(d[..1]) == DigitValue(d[0]);
    assert DigitsValue(d) == 10 * DigitValue(d[0]) + DigitValue(d[1]);
    var p := Pad2(DigitsValue(d));
    assert p[0] == d[0] && p[1] == d[1];
  }

  /** `f"{n:04d}"` for `n < 10000`. */
  function Pad4(n: nat): (s: string)
    requires n < 10000
    ensures |s| == 4 && AllDigits(s) && DigitsValue(s) == n
  {
    var s := [DigitChar(n / 1000), DigitChar(n / 100 % 10), DigitChar(n / 10 % 10), DigitChar(n % 10)];
    assert s[..3][..2][..1] == [s[0]] && [s[0]][..0] == [];
    assert s[..3][..2] == [s[0], s[1]];
    assert s[..3] == [s[0], s[1], s[2]];
    assert DigitsValue([s[0]]) == n / 1000;
    assert DigitsValue([s[0], s[1]]) == n / 100;
    assert DigitsValue([s[0], s[1], s[2]]) == n / 10;
    s
  }

  /** The characters Python's `str.isspace()` accepts. */
  predicate IsSpace(c: char)
  {
    c == ' ' || '\t' <= c <= '\r' || '\U{1C}' <= c <= '\U{1F}' || c == '\U{85}' || c == '\U{A0}'
    || c == '\U{1680}' || '\U{2000}' <= c <= '\U{200A}' || c == '\U{2028}' || c == '\U{2029}'
    || c == '\U{202F}' || c == '\U{205F}' || c == '\U{3000}'
  }

  /** Every character of `s` is whitespace. */
  predicate AllSpace(s: string)
  {
    s == [] || (IsSpace(s[0]) && AllSpace(s[1..]))
  }

  /** Whitespace followed by one more whitespace character is whitespace. */
  lemma {:induction false} AllSpaceSnoc(s: string, c: char)
    requires AllSpace(s) && IsSpace(c)
    ensures AllSpace(s + [c])
  {
    if s != [] {
      AllSpaceSnoc(s[1..], c);
      assert (s + [c])[1..] == s[1..] + [c];
    }
  }

  /** Neither end of `t` is whitespace. */
  predicate Unpadded(t: string)
  {
    t == [] || (!IsSpace(t[0]) && !IsSpace(t[|t| - 1]))
  }

  /** `s.lstrip()`: a suffix of `s` that does not start with whitespace. */
  function TrimLeft(s: string): (r: string)
    ensures |r| <= |s| && r == s[|s| - |r|..]
    ensures r == [] || !IsSpace(r[0])
  {
    if s != [] && IsSpace(s[0]) then TrimLeft(s[1..]) else s
  }

  /** `s.rstrip()`: a prefix of `s` that does not end with whitespace. */
  function TrimRight(s: string): (r: string)
    ensures |r| <= |s| && r == s[..|r|]
    ensures r == [] || !IsSpace(r[|r| - 1])
  {
    if s != [] && IsSpace(s[|s| - 1]) then TrimRight(s[..|s| - 1]) else s
  }

  /** What `lstrip` removes is whitespace. */
  lemma {:induction false} TrimLeftRemovesSpace(s: string)
    ensures AllSpace(s[..|s| - |TrimLeft(s)|])
  {
    if s != [] && IsSpace(s[0]) {
      TrimLeftRemovesSpace(s[1..]);
      var n := |s| - |TrimLeft(s)|;
      assert s[..n][1..] == s[1..][..n - 1];
    }
  }

  /** What `rstrip` removes is whitespace. */
  lemma {:induction false} TrimRightRemovesSpace(s: string)
    ensures AllSpace(s[|TrimRight(s)|..])
  {
    if s != [] && IsSpace(s[|s| - 1]) {
      var p := s[..|s| - 1];
      TrimRightRemovesSpace(p);
      AllSpaceSnoc(p[|TrimRight(p)|..], s[|s| - 1]);
      assert s[|TrimRight(s)|..] == p[|TrimRight(p)|..] + [s[|s| - 1]];
    }
  }

  /** `s.strip()`: the longest infix of `s` with no whitespace at either end. */
  function Strip(s: string): (t: string)
    ensures |t| <= |s| && Unpadded(t)
    ensures Unpadded(s) ==> t == s
  {
    var l := TrimLeft(s);
    var t := TrimRight(l);
    assert t != [] ==> t[0] == l[..|t|][0] == l[0];
    assert Unpadded(s) ==> l == s && t == s;
    t
  }

  /**
   * What `Strip` removes is whitespace: for `l`, `s` without its leading
   * whitespace, and `t`, `l` without its trailing whitespace (that is,
   * `Strip(s)`), `t` is the slice of `s` that starts where `l` does, and only
   * whitespace lies before and after it.
   */
  lemma StripRemovesOnlySpace(s: string, l: string, t: string)
    requires l == TrimLeft(s) && t == TrimRight(l)
    ensures var i := |s| - |l|;
      i + |t| <= |s| && t == s[i..i + |t|] && AllSpace(s[..i]) && AllSpace(s[i + |t|..])
  {
    TrimBothFacts(s, l, t);
    PrefixOfSuffix(s, l, t);
  }

  /**
   * `StripRemovesOnlySpace` stated of `Strip(s)` itself: `t` is `Strip(s)`,
   * and `i` is where it starts in `s`.
   */
  lemma StripIsSpaceTrimmedSlice(s: string) returns (i: nat, t: string)
    ensures t == Strip(s)
    ensures i + |t| <= |s| && t == s[i..i + |t|] && AllSpace(s[..i]) && AllSpace(s[i + |t|..])
  {
    var l := TrimLeft(s);
    t := TrimRight(l);
    StripRemovesOnlySpace(s, l, t);
    i := |s| - |l|;
  }

  /** The facts about `lstrip` and `rstrip` that `PrefixOfSuffix` needs. */
  lemma TrimBothFacts(s: string, l: string, t: string)
    requires l == TrimLeft(s) && t == TrimRight(l)
    ensures |l| <= |s| && l == s[|s| - |l|..] && |t| <= |l| && t == l[..|t|]
    ensures AllSpace(s[..|s| - |l|]) && AllSpace(l[|t|..])
  {
    TrimLeftRemovesSpace(s);
    TrimRightRemovesSpace(l);
  }

  /** A prefix `t` of a suffix `l` of `s` is a slice of `s`, followed by the rest of `l`. */
  lemma PrefixOfSuffix(s: string, l: string, t: string)
    requires |l| <= |s| && l == s[|s| - |l|..] && |t| <= |l| && t == l[..|t|]
    requires AllSpace(s[..|s| - |l|]) && AllSpace(l[|t|..])
    ensures var i := |s| - |l|;
      i + |t| <= |s| && t == s[i..i + |t|] && AllSpace(s[..i]) && AllSpace(s[i + |t|..])
  {
    var i := |s| - |l|;
    assert s[i..][..|t|] == s[i..i + |t|];
    assert s[i..][|t|..] == s[i + |t|..];
  }

  predicate StartsWith(s: string, prefix: string)
  {
    |prefix| <= |s| && s[..|prefix|] == prefix
  }

  /** The index of the leftmost occurrence of `sep` in `s`, as `str.find` gives it. */
  function Find(s: string, sep: string): (r: Option<nat>)
    requires sep != []
    ensures r.Some? ==> r.value + |sep| <= |s| && s[r.value..r.value + |sep|] == sep
    decreases |s|
  {
    if |s| < |sep| then None
    else if s[..|sep|] == sep then Some(0)
    else match Find(s[1..], sep)
      case None => None
      case Some(k) => assert s[1..][k..k + |sep|] == s[k + 1..k + 1 + |sep|]; Some(k + 1)
  }

  /** `sep` occurs in `s` starting at index `k`. */
  predicate OccursAt(s: string, sep: string, k: nat)
  {
    k + |sep| <= |s| && s[k..k + |sep|] == sep
  }

  /** `Find` gives the leftmost occurrence, and `None` only when there is none. */
  lemma {:induction false} FindLeftmost(s: string, sep: string)
    requires sep != []
    ensures Find(s, sep).Some? ==> OccursAt(s, sep, Find(s, sep).value)
    ensures Find(s, sep).Some? ==> forall k: nat | k < Find(s, sep).value :: !OccursAt(s, sep, k)
    ensures Find(s, sep).None? ==> forall k: nat :: !OccursAt(s, sep, k)
    decreases |s|
  {
    if |s| < |sep| {
      forall k: nat ensures !OccursAt(s, sep, k) { }
    } else if s[..|sep|] != sep {
      var t := s[1..];
      FindLeftmost(t, sep);
      forall k: nat | 1 <= k
        ensures OccursAt(s, sep, k) <==> OccursAt(t, sep, k - 1)
      {
        if k + |sep| <= |s| {
          var a, b := s[k..k + |sep|], t[k - 1..k - 1 + |sep|];
          assert |a| == |b| && forall i | 0 <= i < |a| :: a[i] == b[i];
          assert a == b;
        }
      }
      assert !OccursAt(s, sep, 0) by {
        assert s[0..|sep|] == s[..|sep|];
      }
    }
  }

  predicate Occurs(s: string, sep: string)
    requires sep != []
  {
    Find(s, sep).Some?
  }

  /** `s.split(sep)`: the pieces between non-overlapping occurrences, left to right. */
  function Split(s: string, sep: string): (parts: seq<string>)
    requires sep != []
    ensures 1 <= |parts|
    ensures |parts| == 1 <==> !Occurs(s, sep)
    decreases |s|
  {
    match Find(s, sep)
    case None => [s]
    case Some(i) => [s[..i]] + Split(s[i + |sep|..], sep)
  }

  /** `s.split(sep, 1)`: at most one cut, at the leftmost occurrence. */
  function SplitOnce(s: string, sep: string): (parts: seq<string>)
    requires sep != []
    ensures |parts| == if Occurs(s, sep) then 2 else 1
  {
    match Find(s, sep)
    case None => [s]
    case Some(i) => [s[..i], s[i + |sep|..]]
  }

  /** A string that starts with `sep` is cut first at index 0. */
  lemma FindAtStart(s: string, sep: string)
    requires sep != [] && StartsWith(s, sep)
    ensures Find(s, sep) == Some(0)
  {
  }

  /** A single-character separator is found right after a prefix free of it. */
  lemma {:induction false} FindAfter(a: string, c: char, b: string)
    requires c !in a
    ensures Find(a + [c] + b, [c]) == Some(|a|)
    decreases |a|
  {
    var s := a + [c] + b;
    if a != [] {
      assert s[..1] == [a[0]];
      assert s[1..] == a[1..] + [c] + b;
      FindAfter(a[1..], c, b);
    } else {
      assert s[..1] == [c];
    }
  }

  /** A string free of the single-character separator is not cut. */
  lemma {:induction false} FindAbsent(a: string, c: char)
    requires c !in a
    ensures Find(a, [c]) == None
    decreases |a|
  {
    if a != [] {
      assert a[..1] == [a[0]];
      FindAbsent(a[1..], c);
    }
  }

  /** `(a + c + b).split(c) == [a] + b.split(c)` when `a` holds no `c`. */
  lemma SplitAfter(a: string, c: char, b: string)
    requires c !in a
    ensures Split(a + [c] + b, [c]) == [a] + Split(b, [c])
  {
    var s := a + [c] + b;
    FindAfter(a, c, b);
    assert s[..|a|] == a;
    assert s[|a| + 1..] == b;
  }

  /** A string free of the separator splits into itself. */
  lemma SplitAbsent(a: string, c: char)
    requires c !in a
    ensures Split(a, [c]) == [a]
  {
    FindAbsent(a, c);
  }

  /** Python's `s.lower()` restricted to the ASCII letters. */
  function LowerAscii(s: string): (r: string)
    ensures |r| == |s|
  {
    if s == [] then []
    else [if 'A' <= s[0] <= 'Z' then (s[0] as int + 32) as char else s[0]] + LowerAscii(s[1..])
  }
}
