/**
 * The string operations the scanners rely on (Python `str` and Rust `&str`
 * methods), written out over `seq<char>`.
 */
module Strings {
  import opened Outcomes

  /** The whitespace `bytes.strip()` removes: the six ASCII whitespace characters. */
  predicate IsAsciiSpace(c: char) {
    c == ' ' || c == '\t' || c == '\n' || c == '\r' || c == '\U{000B}' || c == '\U{000C}'
  }

  /**
   * `c.isspace()` for one character, the whitespace `str.strip()` removes: the
   * ASCII whitespace, the separators U+001C to U+001F, U+0085, and the Unicode
   * space and line separators.
   */
  predicate IsSpace(c: char) {
    IsAsciiSpace(c) || ('\U{001C}' <= c <= '\U{001F}') || c == '\U{0085}' || c == '\U{00A0}'
    || c == '\U{1680}' || ('\U{2000}' <= c <= '\U{200A}') || c == '\U{2028}' || c == '\U{2029}'
    || c == '\U{202F}' || c == '\U{205F}' || c == '\U{3000}'
  }

  /** Whether a strip works on a `str` or on a `bytes` object. */
  datatype StripKind = OfStr | OfBytes

  predicate IsSpaceOf(k: StripKind, c: char) {
    if k == OfBytes then IsAsciiSpace(c) else IsSpace(c)
  }

  /** `s.lstrip()`: drops the leading whitespace. */
  function TrimStart(s: string, k: StripKind): (r: string)
    ensures |r| <= |s| && r == s[|s| - |r|..]
    ensures r == [] || !IsSpaceOf(k, r[0])
    ensures forall i :: 0 <= i < |s| - |r| ==> IsSpaceOf(k, s[i])
  {
    if |s| > 0 && IsSpaceOf(k, s[0]) then TrimStart(s[1..], k) else s
  }

  /** `s.rstrip()`: drops the trailing whitespace. */
  function TrimEnd(s: string, k: StripKind): (r: string)
    ensures |r| <= |s| && r == s[..|r|]
    ensures r == [] || !IsSpaceOf(k, r[|r| - 1])
    ensures forall i :: |r| <= i < |s| ==> IsSpaceOf(k, s[i])
  {
    if |s| > 0 && IsSpaceOf(k, s[|s| - 1]) then TrimEnd(s[..|s| - 1], k) else s
  }

  /** `s.strip()` for a `str`. */
  function Strip(s: string): string {
    TrimEnd(TrimStart(s, OfStr), OfStr)
  }

  /** `s.strip()` for a `bytes` object, on its characters. */
  function StripBytes(s: string): string {
    TrimEnd(TrimStart(s, OfBytes), OfBytes)
  }

  /** Appending the strip of empty text changes nothing. */
  lemma AppendStripEmpty(s: string)
    ensures s + Strip([]) == s
  {
    var e: string := [];
    assert |TrimStart(e, OfStr)| == 0;
    assert |Strip(e)| == 0;
    assert s + Strip(e) == s + [];
  }

  /** Strip leaves a string with no surrounding whitespace unchanged. */
  lemma StripNoSurroundingSpace(s: string)
    requires s == [] || (!IsSpace(s[0]) && !IsSpace(s[|s| - 1]))
    ensures Strip(s) == s
  {
  }

  /** `p in s` for strings: `p` occurs somewhere in `s`. */
  predicate Contains(s: string, p: string) {
    p <= s || (s != [] && Contains(s[1..], p))
  }

  /** `p` occurs in `s` starting at index `i`. */
  predicate OccursAt(s: string, p: string, i: int) {
    0 <= i && i + |p| <= |s| && s[i..i + |p|] == p
  }

  /** Contains is substring occurrence at some index. */
  lemma {:induction false} ContainsIff(s: string, p: string)
    ensures Contains(s, p) <==> exists i :: OccursAt(s, p, i)
  {
    if s == [] {
      if p == [] {
        assert OccursAt(s, p, 0);
      }
    } else if p <= s {
      assert OccursAt(s, p, 0);
    } else {
      ContainsIff(s[1..], p);
      if Contains(s[1..], p) {
        var i :| OccursAt(s[1..], p, i);
        assert s[1..][i..i + |p|] == s[i + 1..i + 1 + |p|];
        assert OccursAt(s, p, i + 1);
      }
      if exists i :: OccursAt(s, p, i) {
        var i :| OccursAt(s, p, i);
        if i != 0 {
          assert s[1..][i - 1..i - 1 + |p|] == s[i..i + |p|];
          assert OccursAt(s[1..], p, i - 1);
        }
      }
    }
  }

  /** A pattern longer than the text does not occur in it. */
  lemma {:induction false} ContainsLonger(s: string, p: string)
    requires |p| > |s|
    ensures !Contains(s, p)
  {
    if s != [] {
      ContainsLonger(s[1..], p);
    }
  }

  /** A pattern as long as the text occurs in it only if it is the text. */
  lemma ContainsSameLength(s: string, p: string)
    requires |p| == |s|
    ensures Contains(s, p) <==> p == s
  {
    if s != [] {
      ContainsLonger(s[1..], p);
    }
  }

  /** Number of occurrences of the character `c` in `s`. */
  function CountChar(s: string, c: char): nat {
    if s == [] then 0 else (if s[0] == c then 1 else 0) + CountChar(s[1..], c)
  }

  lemma {:induction false} CountCharConcat(a: string, b: string, c: char)
    ensures CountChar(a + b, c) == CountChar(a, c) + CountChar(b, c)
  {
    if a == [] {
      assert a + b == b;
    } else {
      assert (a + b)[1..] == a[1..] + b;
      CountCharConcat(a[1..], b, c);
    }
  }

  lemma {:induction false} CountCharAbsent(s: string, c: char)
    ensures CountChar(s, c) == 0 <==> c !in s
  {
    if s != [] {
      CountCharAbsent(s[1..], c);
      assert s == [s[0]] + s[1..];
    }
  }

  /** `s.replace(c, "")` for a single character `c`. */
  function RemoveChar(s: string, c: char): (r: string)
    ensures c !in r
    ensures |r| + CountChar(s, c) == |s|
    ensures forall x :: x in r ==> x in s
    ensures forall x :: x in s && x != c ==> x in r
  {
    if s == [] then [] else (if s[0] == c then [] else [s[0]]) + RemoveChar(s[1..], c)
  }

  lemma RemoveCharSnoc(s: string, c: char)
    ensures RemoveChar(s + [c], c) == RemoveChar(s, c)
  {
    if s == [] {
      assert [] + [c] == [c];
      assert [c][1..] == [];
    } else {
      assert (s + [c])[1..] == s[1..] + [c];
      RemoveCharSnoc(s[1..], c);
    }
  }

  /**
   * Removing a character works piece by piece: on a concatenation it is the
   * concatenation of the removals, and a single character is dropped exactly
   * when it is `c`. Together these fix the result: the other characters are
   * kept, in order and with their multiplicities.
   */
  lemma {:induction false} RemoveCharConcat(a: string, b: string, c: char)
    ensures RemoveChar(a + b, c) == RemoveChar(a, c) + RemoveChar(b, c)
  {
    if a == [] {
      assert a + b == b;
    } else {
      assert (a + b)[1..] == a[1..] + b;
      RemoveCharConcat(a[1..], b, c);
    }
  }

  lemma RemoveCharSingle(x: char, c: char)
    ensures RemoveChar([x], c) == if x == c then [] else [x]
  {
    assert [x][1..] == [];
  }

  /** A string without the character is left unchanged. */
  lemma {:induction false} RemoveCharIdentity(s: string, c: char)
    requires c !in s
    ensures RemoveChar(s, c) == s
  {
    if s != [] {
      RemoveCharIdentity(s[1..], c);
    }
  }

  /** `s.replace(pat, rep)`: every non-overlapping occurrence, scanning left to right. */
  function Replace(s: string, pat: string, rep: string): string
    requires |pat| > 0
    decreases |s|
  {
    if s == [] then []
    else if pat <= s then rep + Replace(s[|pat|..], pat, rep)
    else [s[0]] + Replace(s[1..], pat, rep)
  }

  /** Replace with a pattern that does not occur returns the input. */
  lemma {:induction false} ReplaceAbsent(s: string, pat: string, rep: string)
    requires |pat| > 0 && !Contains(s, pat)
    ensures Replace(s, pat, rep) == s
    decreases |s|
  {
    if s != [] {
      ReplaceAbsent(s[1..], pat, rep);
    }
  }

  /** `sep.join(parts)`. */
  function Join(sep: string, parts: seq<string>): string {
    if parts == [] then []
    else if |parts| == 1 then parts[0]
    else parts[0] + sep + Join(sep, parts[1..])
  }

  /** Adds `c` in front of the first piece of a split. */
  function PrependFirst(c: char, parts: seq<string>): (r: seq<string>)
    requires |parts| > 0
    ensures |r| == |parts| && r[0] == [c] + parts[0] && r[1..] == parts[1..]
  {
    [[c] + parts[0]] + parts[1..]
  }

  /** `s.split(sep)` for a non-empty separator: always at least one piece. */
  function SplitOn(s: string, sep: string): (r: seq<string>)
    requires |sep| > 0
    ensures |r| >= 1
    decreases |s|
  {
    if s == [] then [[]]
    else if sep <= s then [[]] + SplitOn(s[|sep|..], sep)
    else PrependFirst(s[0], SplitOn(s[1..], sep))
  }

  /** Joining the pieces of a split with the same separator gives the input back. */
  lemma {:induction false} JoinSplitOn(s: string, sep: string)
    requires |sep| > 0
    ensures Join(sep, SplitOn(s, sep)) == s
    decreases |s|
  {
    if s == [] {
    } else if sep <= s {
      JoinSplitOn(s[|sep|..], sep);
      JoinSplitOnSep(s, sep);
    } else {
      JoinSplitOn(s[1..], sep);
      JoinSplitOnChar(s, sep);
    }
  }

  /** The inductive step of JoinSplitOn when `s` starts with the separator. */
  lemma JoinSplitOnSep(s: string, sep: string)
    requires |sep| > 0 && s != [] && sep <= s
    requires Join(sep, SplitOn(s[|sep|..], sep)) == s[|sep|..]
    ensures Join(sep, SplitOn(s, sep)) == s
  {
    var rest := SplitOn(s[|sep|..], sep);
    SplitOnAtSep(s, sep);
    JoinCons([], rest, sep);
    SepThenRest(s, sep);
  }

  lemma SplitOnAtSep(s: string, sep: string)
    requires |sep| > 0 && s != [] && sep <= s
    ensures SplitOn(s, sep) == [[]] + SplitOn(s[|sep|..], sep)
  {
  }

  lemma SepThenRest(s: string, sep: string)
    requires sep <= s
    ensures [] + sep + s[|sep|..] == s
  {
    assert sep == s[..|sep|];
  }

  /** The inductive step of JoinSplitOn when `s` does not start with the separator. */
  lemma JoinSplitOnChar(s: string, sep: string)
    requires |sep| > 0 && s != [] && !(sep <= s)
    requires Join(sep, SplitOn(s[1..], sep)) == s[1..]
    ensures Join(sep, SplitOn(s, sep)) == s
  {
    var rest := SplitOn(s[1..], sep);
    SplitOnAtChar(s, sep);
    JoinPrependFirst(s[0], rest, sep);
    HeadThenTail(s);
  }

  lemma SplitOnAtChar(s: string, sep: string)
    requires |sep| > 0 && s != [] && !(sep <= s)
    ensures SplitOn(s, sep) == PrependFirst(s[0], SplitOn(s[1..], sep))
  {
  }

  lemma InitThenLast<T>(s: seq<T>)
    requires s != []
    ensures s[..|s| - 1] + [s[|s| - 1]] == s
  {
  }

  lemma HeadThenTail<T>(s: seq<T>)
    requires s != []
    ensures [s[0]] + s[1..] == s
  {
  }

  /** Join of a piece in front of a non-empty list. */
  lemma JoinCons(p: string, rest: seq<string>, sep: string)
    requires |rest| > 0
    ensures Join(sep, [p] + rest) == p + sep + Join(sep, rest)
  {
    assert ([p] + rest)[1..] == rest;
  }

  lemma JoinPrependFirst(c: char, parts: seq<string>, sep: string)
    requires |parts| > 0
    ensures Join(sep, PrependFirst(c, parts)) == [c] + Join(sep, parts)
  {
    var r := PrependFirst(c, parts);
    if |parts| > 1 {
      assert r[1..] == parts[1..];
    }
  }

  /** Splitting a piece followed by the separator peels that piece off. */
  lemma {:induction false} SplitOnPeel(p: string, sep: string, rest: string)
    requires |sep| > 0 && sep[0] !in p
    ensures SplitOn(p + sep + rest, sep) == [p] + SplitOn(rest, sep)
    decreases |p|
  {
    if p == [] {
      assert p + sep + rest == sep + rest;
      assert (sep + rest)[|sep|..] == rest;
    } else {
      var s := p + sep + rest;
      assert !(sep <= s) by { assert s[0] == p[0] != sep[0]; }
      assert s[1..] == p[1..] + sep + rest;
      SplitOnPeel(p[1..], sep, rest);
      assert [p[0]] + p[1..] == p;
    }
  }

  /** A piece without the separator's first character splits into itself. */
  lemma {:induction false} SplitOnSingle(p: string, sep: string)
    requires |sep| > 0 && sep[0] !in p
    ensures SplitOn(p, sep) == [p]
    decreases |p|
  {
    if p != [] {
      assert !(sep <= p);
      SplitOnSingle(p[1..], sep);
      assert [p[0]] + p[1..] == p;
    }
  }

  /** Splitting a join recovers the pieces when no piece holds the separator's first character. */
  lemma {:induction false} SplitOnJoin(parts: seq<string>, sep: string)
    requires |sep| > 0 && |parts| > 0
    requires forall i :: 0 <= i < |parts| ==> sep[0] !in parts[i]
    ensures SplitOn(Join(sep, parts), sep) == parts
  {
    if |parts| == 1 {
      SplitOnSingle(parts[0], sep);
    } else {
      SplitOnJoin(parts[1..], sep);
      SplitOnPeel(parts[0], sep, Join(sep, parts[1..]));
      assert [parts[0]] + parts[1..] == parts;
    }
  }

  /** Joining a prefix and the remaining suffix of a list around one separator. */
  lemma {:induction false} JoinSplitAt(sep: string, xs: seq<string>, i: nat)
    requires 1 <= i < |xs|
    ensures Join(sep, xs[..i]) + sep + Join(sep, xs[i..]) == Join(sep, xs)
  {
    if i == 1 {
      assert xs[..1] == [xs[0]];
      assert xs[1..] == xs[1..];
    } else {
      JoinSplitAt(sep, xs[1..], i - 1);
      assert xs[1..][..i - 1] == xs[..i][1..];
      assert xs[1..][i - 1..] == xs[i..];
    }
  }

  /** Number of characters `c` in a join of pieces, counting the separators. */
  lemma {:induction false} CountCharJoin(sep: string, parts: seq<string>, c: char)
    requires |parts| > 0
    ensures CountChar(Join(sep, parts), c)
         == CountCharAll(parts, c) + (|parts| - 1) * CountChar(sep, c)
  {
    if |parts| > 1 {
      CountCharJoin(sep, parts[1..], c);
      CountCharJoinStep(sep, parts, c);
    }
  }

  lemma CountCharJoinStep(sep: string, parts: seq<string>, c: char)
    requires |parts| > 1
    requires CountChar(Join(sep, parts[1..]), c)
          == CountCharAll(parts[1..], c) + (|parts| - 2) * CountChar(sep, c)
    ensures CountChar(Join(sep, parts), c)
         == CountCharAll(parts, c) + (|parts| - 1) * CountChar(sep, c)
  {
    var k, n := CountChar(sep, c), |parts|;
    CountCharConcat(parts[0] + sep, Join(sep, parts[1..]), c);
    CountCharConcat(parts[0], sep, c);
    assert (n - 1) * k == (n - 2) * k + k;
  }

  function CountCharAll(parts: seq<string>, c: char): nat {
    if parts == [] then 0 else CountChar(parts[0], c) + CountCharAll(parts[1..], c)
  }

  /**
   * Start index of the last occurrence of `pat` in `s` (what `s.rsplit(pat, 1)`
   * cuts at), or None when it does not occur.
   */
  function LastIndexOf(s: string, pat: string): (r: Option<nat>)
    requires |pat| > 0
    ensures r.Some? ==> OccursAt(s, pat, r.value)
    ensures r.Some? ==> forall j :: r.value < j ==> !OccursAt(s, pat, j)
    ensures r.None? ==> forall j :: !OccursAt(s, pat, j)
  {
    if |s| < |pat| then None
    else if s[|s| - |pat|..] == pat then Some(|s| - |pat|)
    else
      var r := LastIndexOf(s[..|s| - 1], pat);
      assert forall j :: j != |s| - |pat| && OccursAt(s, pat, j) ==> OccursAt(s[..|s| - 1], pat, j) by {
        forall j | j != |s| - |pat| && OccursAt(s, pat, j) ensures OccursAt(s[..|s| - 1], pat, j) {
          assert s[..|s| - 1][j..j + |pat|] == s[j..j + |pat|];
        }
      }
      r
  }

  /** `s.rsplit(pat, 1)[0]`: everything before the last `pat`, or all of `s`. */
  function BeforeLast(s: string, pat: string): (r: string)
    requires |pat| > 0
    ensures |r| <= |s| && r == s[..|r|]
  {
    match LastIndexOf(s, pat)
    case None => s
    case Some(i) => s[..i]
  }

  /** `s[0:n] == p` in Python: slicing clamps, so a short `s` never matches a longer `p`. */
  predicate StartsWith(s: string, p: string) {
    p <= s
  }

  // ----- Decimal numerals (Python's f"{n}" for a non-negative int) -----

  predicate IsDigit(c: char) {
    '0' <= c <= '9'
  }

  function DigitChar(d: nat): (c: char)
    requires d < 10
    ensures IsDigit(c)
  {
    ['0', '1', '2', '3', '4', '5', '6', '7', '8', '9'][d]
  }

  /** The value of a digit character. */
  function DigitValue(c: char): nat
    requires IsDigit(c)
  {
    (c as int - '0' as int) as nat
  }

  /** `str(n)`: the decimal digits of `n`, without leading zeros. */
  function NatToString(n: nat): (r: string)
    ensures |r| > 0 && forall i :: 0 <= i < |r| ==> IsDigit(r[i])
    ensures r[0] == '0' ==> n == 0
  {
    if n < 10 then [DigitChar(n)] else NatToString(n / 10) + [DigitChar(n % 10)]
  }

  /** The number a string of digits denotes. */
  function DigitsValue(s: string): nat
    requires forall i :: 0 <= i < |s| ==> IsDigit(s[i])
  {
    if s == [] then 0 else DigitsValue(s[..|s| - 1]) * 10 + DigitValue(s[|s| - 1])
  }

  lemma DigitRoundTrip(d: nat)
    requires d < 10
    ensures DigitValue(DigitChar(d)) == d
  {
  }

  /** Reading the numeral back gives the number: `int(str(n)) == n`. */
  lemma {:induction false} NatToStringRoundTrip(n: nat)
    ensures DigitsValue(NatToString(n)) == n
  {
    DigitRoundTrip(n % 10);
    if n >= 10 {
      NatToStringRoundTrip(n / 10);
      var r := NatToString(n);
      assert r[..|r| - 1] == NatToString(n / 10);
    } else {
      assert NatToString(n)[..0] == [];
    }
  }

  /** Different numbers have different numerals. */
  lemma NatToStringInjective(m: nat, n: nat)
    requires NatToString(m) == NatToString(n)
    ensures m == n
  {
    NatToStringRoundTrip(m);
    NatToStringRoundTrip(n);
  }

  // ----- Sequences of sequences -----

  /** Concatenation of a list of lists, in order (`"".join(xs)` for strings). */
  function Flatten<T>(xss: seq<seq<T>>): seq<T> {
    if xss == [] then [] else Flatten(xss[..|xss| - 1]) + xss[|xss| - 1]
  }

  lemma FlattenUnfold<T>(xss: seq<seq<T>>)
    requires xss != []
    ensures Flatten(xss) == Flatten(xss[..|xss| - 1]) + xss[|xss| - 1]
  {
  }

  lemma FlattenSnoc<T>(xss: seq<seq<T>>, xs: seq<T>)
    ensures Flatten(xss + [xs]) == Flatten(xss) + xs
  {
    assert (xss + [xs])[..|xss|] == xss;
  }

  lemma FlattenPrefix<T>(xss: seq<seq<T>>, i: nat)
    requires i < |xss|
    ensures Flatten(xss[..i + 1]) == Flatten(xss[..i]) + xss[i]
  {
    assert xss[..i + 1][..i] == xss[..i];
  }

  /** A left fold: `s` updated by `f` with each item of `xs` in turn. */
  function FoldLeft<S, T>(f: (S, T) -> S, s: S, xs: seq<T>): S {
    if xs == [] then s else f(FoldLeft(f, s, xs[..|xs| - 1]), xs[|xs| - 1])
  }

  lemma FoldLeftSnoc<S, T>(f: (S, T) -> S, s: S, xs: seq<T>, x: T)
    ensures FoldLeft(f, s, xs + [x]) == f(FoldLeft(f, s, xs), x)
  {
    assert (xs + [x])[..|xs|] == xs;
  }

  /** Folding two lists one after the other is folding their concatenation. */
  lemma {:induction false} FoldLeftConcat<S, T>(f: (S, T) -> S, s: S, a: seq<T>, b: seq<T>)
    ensures FoldLeft(f, FoldLeft(f, s, a), b) == FoldLeft(f, s, a + b)
  {
    if b == [] {
      assert a + b == a;
    } else {
      var init := b[..|b| - 1];
      var x := b[|b| - 1];
      FoldLeftConcat(f, s, a, init);
      assert init + [x] == b;
      FoldLeftSnoc(f, FoldLeft(f, s, a), init, x);
      assert (a + init) + [x] == a + b;
      FoldLeftSnoc(f, s, a + init, x);
    }
  }

  // ----- Searching for a character -----

  /** Index of the first `c` in `s` (where `s.split(c, 1)` cuts), or None. */
  function IndexOfChar(s: string, c: char): (r: Option<nat>)
    ensures r.Some? ==> r.value < |s| && s[r.value] == c && c !in s[..r.value]
    ensures r.None? <==> c !in s
  {
    if s == [] then None
    else if s[0] == c then Some(0)
    else
      match IndexOfChar(s[1..], c)
      case None => None
      case Some(i) =>
        assert s[..i + 1] == [s[0]] + s[1..][..i];
        Some(i + 1)
  }
}
