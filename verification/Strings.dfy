/** The string operations the repository takes from its standard libraries: separator scanning,
    white-space trimming and decimal printing, each with the laws that pin it down. */
module Strings {

  /** `sep` stands in `s` at position `i`. */
  predicate OccursAt(s: string, sep: string, i: int) {
    0 <= i && i + |sep| <= |s| && s[i..i + |sep|] == sep
  }

  ghost predicate Contains(s: string, sep: string) {
    exists i :: OccursAt(s, sep, i)
  }

  /** The leftmost position at or after `from` where `sep` stands, or -1. */
  function IndexFrom(s: string, sep: string, from: nat): (r: int)
    ensures r == -1 || (from <= r && OccursAt(s, sep, r))
    ensures forall j :: from <= j && OccursAt(s, sep, j) ==> 0 <= r <= j
    decreases |s| - from
  {
    if from + |sep| > |s| then -1
    else if OccursAt(s, sep, from) then from
    else IndexFrom(s, sep, from + 1)
  }

  /** Go's `strings.Split` for a non-empty separator: leftmost, non-overlapping. */
  function Split(s: string, sep: string): (pieces: seq<string>)
    requires sep != []
    ensures pieces != []
    decreases |s|
  {
    var i := IndexFrom(s, sep, 0);
    if i < 0 then [s] else [s[..i]] + Split(s[i + |sep|..], sep)
  }

  function Join(pieces: seq<string>, sep: string): string {
    if pieces == [] then ""
    else if |pieces| == 1 then pieces[0]
    else pieces[0] + sep + Join(pieces[1..], sep)
  }

  /** No proper suffix of `sep` is also a prefix of it, so two occurrences never overlap. */
  ghost predicate Borderless(sep: string) {
    sep != [] && forall k :: 0 < k < |sep| ==> sep[k..] != sep[..|sep| - k]
  }

  lemma {:induction false} JoinSplit(s: string, sep: string)
    requires sep != []
    ensures Join(Split(s, sep), sep) == s
    decreases |s|
  {
    var i := IndexFrom(s, sep, 0);
    if i >= 0 {
      JoinSplit(s[i + |sep|..], sep);
      assert s == s[..i] + sep + s[i + |sep|..];
    }
  }

  lemma OccursInside(left: string, middle: string, right: string, sep: string, j: int)
    requires OccursAt(middle, sep, j)
    ensures OccursAt(left + middle + right, sep, |left| + j)
  {
    assert (left + middle + right)[|left| + j..|left| + j + |sep|] == middle[j..j + |sep|];
  }

  /** A stretch of a text free of `sep` is free of it too. */
  lemma CleanInside(left: string, middle: string, right: string, sep: string)
    requires !Contains(left + middle + right, sep)
    ensures !Contains(middle, sep)
  {
    forall j | OccursAt(middle, sep, j) ensures false {
      OccursInside(left, middle, right, sep, j);
    }
  }

  lemma {:induction false} CleanBeforeFirst(s: string, sep: string, i: nat)
    requires sep != [] && IndexFrom(s, sep, 0) == i
    ensures !Contains(s[..i], sep)
  {
    forall j | OccursAt(s[..i], sep, j) ensures false {
      assert s == "" + s[..i] + s[i..];
      OccursInside("", s[..i], s[i..], sep, j);
    }
  }

  lemma {:induction false} SplitPiecesAreClean(s: string, sep: string, k: nat)
    requires sep != [] && k < |Split(s, sep)|
    ensures !Contains(Split(s, sep)[k], sep)
    decreases |s|
  {
    var i := IndexFrom(s, sep, 0);
    if i < 0 {
      assert Split(s, sep) == [s];
    } else if k == 0 {
      CleanBeforeFirst(s, sep, i);
    } else {
      SplitPiecesAreClean(s[i + |sep|..], sep, k - 1);
    }
  }

  lemma {:induction false} SplitClean(s: string, sep: string)
    requires sep != []
    ensures Split(s, sep) == [s] <==> !Contains(s, sep)
  {
    if Split(s, sep) == [s] {
      SplitPiecesAreClean(s, sep, 0);
    }
  }

  /** Two overlapping occurrences give the separator a border. */
  lemma OverlapIsBorder(s: string, sep: string, j: int, m: int)
    requires OccursAt(s, sep, j) && OccursAt(s, sep, m) && j < m < j + |sep|
    ensures sep[m - j..] == sep[..|sep| - (m - j)]
  {
    var k := m - j;
    assert sep[k..] == s[j..j + |sep|][k..] == s[m..j + |sep|];
    assert sep[..|sep| - k] == s[m..m + |sep|][..|sep| - k] == s[m..j + |sep|];
  }

  /** A borderless separator cannot straddle the border of a separator already in place. */
  lemma NoStraddle(a: string, sep: string, b: string, j: int)
    requires Borderless(sep)
    requires OccursAt(a + sep + b, sep, j)
    ensures j + |sep| <= |a| || |a| <= j
  {
    var s := a + sep + b;
    assert OccursAt(s, sep, |a|) by { assert s[|a|..|a| + |sep|] == sep; }
    if |a| - |sep| < j < |a| {
      OverlapIsBorder(s, sep, j, |a|);
    }
  }

  lemma OccursInPrefix(a: string, rest: string, sep: string, j: int)
    requires j + |sep| <= |a|
    ensures OccursAt(a + rest, sep, j) <==> OccursAt(a, sep, j)
  {
    if 0 <= j {
      assert (a + rest)[j..j + |sep|] == a[j..j + |sep|];
    }
  }

  lemma {:induction false} IndexAcrossSeparator(a: string, sep: string, b: string)
    requires Borderless(sep)
    ensures IndexFrom(a + sep + b, sep, 0) == (if IndexFrom(a, sep, 0) >= 0 then IndexFrom(a, sep, 0) else |a|)
  {
    var s := a + sep + b;
    assert s == a + (sep + b);
    assert OccursAt(s, sep, |a|) by { assert s[|a|..|a| + |sep|] == sep; }
    var r, i := IndexFrom(s, sep, 0), IndexFrom(a, sep, 0);
    NoStraddle(a, sep, b, r);
    if r < |a| {
      OccursInPrefix(a, sep + b, sep, r);
    }
    if i >= 0 {
      OccursInPrefix(a, sep + b, sep, i);
    }
  }

  lemma {:induction false} SplitAtFirst(s: string, sep: string, i: nat)
    requires sep != [] && IndexFrom(s, sep, 0) == i
    ensures Split(s, sep) == [s[..i]] + Split(s[i + |sep|..], sep)
  {
  }

  /** Splitting is a homomorphism: text on either side of a separator splits on its own. */
  lemma {:induction false} SplitConcat(a: string, sep: string, b: string)
    requires Borderless(sep)
    ensures Split(a + sep + b, sep) == Split(a, sep) + Split(b, sep)
    decreases |a|
  {
    var s := a + sep + b;
    IndexAcrossSeparator(a, sep, b);
    var i := IndexFrom(a, sep, 0);
    if i < 0 {
      SplitAtFirst(s, sep, |a|);
      assert s[..|a|] == a && s[|a| + |sep|..] == b;
    } else {
      var rest := a[i + |sep|..];
      calc {
        Split(s, sep);
        { SplitAtFirst(s, sep, i); }
        [s[..i]] + Split(s[i + |sep|..], sep);
        { assert s[..i] == a[..i] && s[i + |sep|..] == rest + sep + b; }
        [a[..i]] + Split(rest + sep + b, sep);
        { SplitConcat(rest, sep, b); }
        [a[..i]] + (Split(rest, sep) + Split(b, sep));
        ([a[..i]] + Split(rest, sep)) + Split(b, sep);
        { SplitAtFirst(a, sep, i); }
        Split(a, sep) + Split(b, sep);
      }
    }
  }

  // ---------------------------------------------------------------- white space

  /** The code points Go's `unicode.IsSpace` accepts. */
  predicate IsSpace(c: char) {
    '\t' <= c <= '\r' || c == ' ' || c == '\U{0085}' || c == '\U{00A0}' || c == '\U{1680}'
    || '\U{2000}' <= c <= '\U{200A}' || c == '\U{2028}' || c == '\U{2029}' || c == '\U{202F}'
    || c == '\U{205F}' || c == '\U{3000}'
  }

  lemma AsciiSpaces(c: char)
    ensures c as int < 128 ==> (IsSpace(c) <==> c as int in {9, 10, 11, 12, 13, 32})
  {
  }

  predicate AllSpace(s: string) {
    forall i :: 0 <= i < |s| ==> IsSpace(s[i])
  }

  predicate Trimmed(s: string) {
    s != [] ==> !IsSpace(s[0]) && !IsSpace(s[|s| - 1])
  }

  function TrimLeft(s: string): (t: string)
    ensures |t| <= |s|
  {
    if s != [] && IsSpace(s[0]) then TrimLeft(s[1..]) else s
  }

  function TrimRight(s: string): (t: string)
    ensures |t| <= |s|
  {
    if s != [] && IsSpace(s[|s| - 1]) then TrimRight(s[..|s| - 1]) else s
  }

  /** Go's `strings.TrimSpace`. */
  function TrimSpace(s: string): (t: string)
    ensures |t| <= |s|
  {
    TrimRight(TrimLeft(s))
  }

  lemma {:induction false} TrimLeftDropsSpace(left: string, rest: string)
    requires AllSpace(left) && (rest != [] ==> !IsSpace(rest[0]))
    ensures TrimLeft(left + rest) == rest
  {
    if left == [] {
      assert left + rest == rest;
    } else {
      assert (left + rest)[1..] == left[1..] + rest;
      TrimLeftDropsSpace(left[1..], rest);
    }
  }

  lemma {:induction false} TrimRightDropsSpace(rest: string, right: string)
    requires AllSpace(right) && (rest != [] ==> !IsSpace(rest[|rest| - 1]))
    ensures TrimRight(rest + right) == rest
  {
    if right == [] {
      assert rest + right == rest;
    } else {
      var s := rest + right;
      assert s[..|s| - 1] == rest + right[..|right| - 1];
      assert IsSpace(right[|right| - 1]);
      TrimRightDropsSpace(rest, right[..|right| - 1]);
    }
  }

  /** White space around a trimmed text is all that trimming takes off. */
  lemma TrimUnique(left: string, t: string, right: string)
    requires AllSpace(left) && AllSpace(right) && Trimmed(t)
    ensures TrimSpace(left + t + right) == t
  {
    assert left + t + right == left + (t + right);
    if t == [] {
      var s := left + right;
      assert left + (t + right) == s + [];
      assert AllSpace(s);
      TrimLeftDropsSpace(s, []);
    } else {
      TrimLeftDropsSpace(left, t + right);
      TrimRightDropsSpace(t, right);
    }
  }

  lemma {:induction false} TrimLeftParts(s: string) returns (left: string)
    ensures s == left + TrimLeft(s) && AllSpace(left)
    ensures TrimLeft(s) != [] ==> !IsSpace(TrimLeft(s)[0])
  {
    left := [];
    if s != [] && IsSpace(s[0]) {
      left := TrimLeftParts(s[1..]);
      left := [s[0]] + left;
    }
  }

  lemma {:induction false} TrimRightParts(s: string) returns (right: string)
    ensures s == TrimRight(s) + right && AllSpace(right)
    ensures TrimRight(s) != [] ==> !IsSpace(TrimRight(s)[|TrimRight(s)| - 1])
  {
    right := [];
    if s != [] && IsSpace(s[|s| - 1]) {
      right := TrimRightParts(s[..|s| - 1]);
      right := right + [s[|s| - 1]];
    }
  }

  /** Trimming takes off nothing but white space, and all of it. */
  lemma TrimParts(s: string) returns (left: string, right: string)
    ensures s == left + TrimSpace(s) + right && AllSpace(left) && AllSpace(right)
    ensures Trimmed(TrimSpace(s))
  {
    hide AllSpace, TrimLeft, TrimRight, IsSpace;
    var l, t := TrimLeft(s), TrimSpace(s);
    left := TrimLeftParts(s);
    right := TrimRightParts(l);
    assert left + (t + right) == left + t + right;
    if t != [] {
      assert l[0] == t[0];
    }
  }

  lemma TrimIdempotent(s: string)
    requires Trimmed(s)
    ensures TrimSpace(s) == s
  {
    assert [] + s + [] == s;
    TrimUnique([], s, []);
  }

  // ---------------------------------------------------------------- decimal numerals

  const DIGITS := "0123456789"

  /** The decimal numeral of `n`, as a template string prints it. */
  function Decimal(n: nat): (s: string)
    ensures s != []
  {
    if n < 10 then [DIGITS[n]] else Decimal(n / 10) + [DIGITS[n % 10]]
  }

  function DigitValue(c: char): int {
    c as int - '0' as int
  }

  function NumeralValue(s: string): int {
    if s == [] then 0 else 10 * NumeralValue(s[..|s| - 1]) + DigitValue(s[|s| - 1])
  }

  lemma {:induction false} DecimalRoundTrip(n: nat)
    ensures NumeralValue(Decimal(n)) == n
  {
    assert DigitValue(DIGITS[n % 10]) == n % 10;
    if n < 10 {
      assert Decimal(n)[..0] == [];
    } else {
      DecimalRoundTrip(n / 10);
      assert Decimal(n)[..|Decimal(n)| - 1] == Decimal(n / 10);
    }
  }

  /** A numeral is made of digits and does not begin with a zero unless it is one. */
  lemma {:induction false} DecimalCanonical(n: nat)
    ensures forall i :: 0 <= i < |Decimal(n)| ==> '0' <= Decimal(n)[i] <= '9'
    ensures n > 0 ==> Decimal(n)[0] != '0'
    ensures n == 0 ==> Decimal(n) == "0"
  {
    if n >= 10 {
      DecimalCanonical(n / 10);
    }
  }

  lemma {:induction false} DecimalInjective(m: nat, n: nat)
    requires Decimal(m) == Decimal(n)
    ensures m == n
  {
    DecimalRoundTrip(m);
    DecimalRoundTrip(n);
  }
}
