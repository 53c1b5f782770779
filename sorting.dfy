/**
 * The two sorts the Python scanner relies on: `sorted(list_of_str)` (code-point
 * lexicographic order) and `sorted(d.items(), key=count, reverse=True)`, which
 * is stable, so entries with equal counts keep their insertion order.
 */
module Sorting {
  import opened Strings

  /** Python's `a <= b` on `str`: compare code points, a proper prefix comes first. */
  predicate LexLe(a: string, b: string) {
    a == [] || (b != [] && (a[0] < b[0] || (a[0] == b[0] && LexLe(a[1..], b[1..]))))
  }

  lemma {:induction false} LexLeTotal(a: string, b: string)
    ensures LexLe(a, b) || LexLe(b, a)
  {
    if a != [] && b != [] && a[0] == b[0] {
      LexLeTotal(a[1..], b[1..]);
    }
  }

  lemma {:induction false} LexLeReflexive(a: string)
    ensures LexLe(a, a)
  {
    if a != [] {
      LexLeReflexive(a[1..]);
    }
  }

  lemma {:induction false} LexLeTrans(a: string, b: string, c: string)
    requires LexLe(a, b) && LexLe(b, c)
    ensures LexLe(a, c)
  {
    if a != [] && a[0] == b[0] && b[0] == c[0] {
      LexLeTrans(a[1..], b[1..], c[1..]);
    }
  }

  lemma {:induction false} LexLeAntisymmetric(a: string, b: string)
    requires LexLe(a, b) && LexLe(b, a)
    ensures a == b
  {
    if a != [] {
      LexLeAntisymmetric(a[1..], b[1..]);
      assert a == [a[0]] + a[1..] && b == [b[0]] + b[1..];
    }
  }

  predicate LexSorted(xs: seq<string>) {
    forall i, j :: 0 <= i < j < |xs| ==> LexLe(xs[i], xs[j])
  }

  function InsertLex(x: string, xs: seq<string>): (r: seq<string>)
    ensures |r| == |xs| + 1
  {
    if xs == [] || LexLe(x, xs[0]) then [x] + xs else [xs[0]] + InsertLex(x, xs[1..])
  }

  /** Python's `sorted` on a list of strings (insertion sort). */
  function SortStrings(xs: seq<string>): (r: seq<string>)
    ensures |r| == |xs|
  {
    if xs == [] then [] else InsertLex(xs[0], SortStrings(xs[1..]))
  }

  /** Inserting an element no smaller than `b` into a list no smaller than `b`. */
  lemma {:induction false} InsertLexLowerBound(b: string, x: string, xs: seq<string>)
    requires LexLe(b, x) && forall k :: 0 <= k < |xs| ==> LexLe(b, xs[k])
    ensures forall k :: 0 <= k < |InsertLex(x, xs)| ==> LexLe(b, InsertLex(x, xs)[k])
  {
    if xs != [] && !LexLe(x, xs[0]) {
      InsertLexLowerBound(b, x, xs[1..]);
    }
  }

  lemma InsertLexFront(x: string, xs: seq<string>)
    requires xs == [] || LexLe(x, xs[0])
    ensures InsertLex(x, xs) == [x] + xs
  {
  }

  lemma InsertLexPast(x: string, xs: seq<string>)
    requires xs != [] && !LexLe(x, xs[0])
    ensures InsertLex(x, xs) == [xs[0]] + InsertLex(x, xs[1..])
  {
  }

  lemma LexSortedTail(xs: seq<string>)
    requires LexSorted(xs) && xs != []
    ensures LexSorted(xs[1..])
  {
    forall i, j | 0 <= i < j < |xs| - 1 ensures LexLe(xs[1..][i], xs[1..][j]) {
      assert xs[1..][i] == xs[i + 1] && xs[1..][j] == xs[j + 1];
    }
  }

  /** A head below every element of a sorted tail gives a sorted list. */
  lemma LexSortedCons(y: string, ys: seq<string>)
    requires LexSorted(ys) && forall k :: 0 <= k < |ys| ==> LexLe(y, ys[k])
    ensures LexSorted([y] + ys)
  {
    var r := [y] + ys;
    forall i, j | 0 <= i < j < |r| ensures LexLe(r[i], r[j]) {
      assert r[j] == ys[j - 1];
      if i > 0 {
        assert r[i] == ys[i - 1];
      }
    }
  }

  lemma {:induction false} InsertLexSorted(x: string, xs: seq<string>)
    requires LexSorted(xs)
    ensures LexSorted(InsertLex(x, xs))
  {
    if xs == [] || LexLe(x, xs[0]) {
      InsertLexFront(x, xs);
      forall j | 0 <= j < |xs| ensures LexLe(x, xs[j]) {
        if j > 0 {
          LexLeTrans(x, xs[0], xs[j]);
        }
      }
      LexSortedCons(x, xs);
    } else {
      InsertLexPast(x, xs);
      LexLeTotal(x, xs[0]);
      LexSortedTail(xs);
      InsertLexSorted(x, xs[1..]);
      forall k | 0 <= k < |xs| - 1 ensures LexLe(xs[0], xs[1..][k]) {
        assert xs[1..][k] == xs[k + 1];
      }
      InsertLexLowerBound(xs[0], x, xs[1..]);
      LexSortedCons(xs[0], InsertLex(x, xs[1..]));
    }
  }

  lemma {:induction false} InsertLexPermutation(x: string, xs: seq<string>)
    ensures multiset(InsertLex(x, xs)) == multiset(xs) + multiset{x}
  {
    if xs != [] && !LexLe(x, xs[0]) {
      InsertLexPast(x, xs);
      InsertLexPermutation(x, xs[1..]);
      HeadThenTail(xs);
      assert multiset(xs) == multiset{xs[0]} + multiset(xs[1..]) by {
        assert xs == [xs[0]] + xs[1..];
      }
    } else {
      InsertLexFront(x, xs);
    }
  }

  lemma SortStringsCons(xs: seq<string>)
    requires xs != []
    ensures SortStrings(xs) == InsertLex(xs[0], SortStrings(xs[1..]))
  {
  }

  /** The result of SortStrings is sorted. */
  lemma {:induction false} SortStringsSorted(xs: seq<string>)
    ensures LexSorted(SortStrings(xs))
  {
    if xs != [] {
      SortStringsCons(xs);
      SortStringsSorted(xs[1..]);
      InsertLexSorted(xs[0], SortStrings(xs[1..]));
    }
  }

  /** The result of SortStrings is a permutation of the input. */
  lemma {:induction false} SortStringsPermutation(xs: seq<string>)
    ensures multiset(SortStrings(xs)) == multiset(xs)
  {
    if xs != [] {
      SortStringsCons(xs);
      SortStringsPermutation(xs[1..]);
      InsertLexPermutation(xs[0], SortStrings(xs[1..]));
      assert multiset(xs) == multiset(xs[1..]) + multiset{xs[0]} by {
        assert xs == [xs[0]] + xs[1..];
      }
    }
  }

  /** The result of SortStrings is sorted and a permutation of the input. */
  lemma SortStringsCorrect(xs: seq<string>)
    ensures LexSorted(SortStrings(xs))
    ensures multiset(SortStrings(xs)) == multiset(xs)
  {
    SortStringsSorted(xs);
    SortStringsPermutation(xs);
  }

  lemma MultisetTail<T>(a: seq<T>)
    requires a != []
    ensures multiset(a[1..]) == multiset(a) - multiset{a[0]}
  {
    assert a == [a[0]] + a[1..];
  }

  lemma SortedHeadLeast(a: seq<string>, x: string)
    requires LexSorted(a) && x in multiset(a)
    ensures LexLe(a[0], x)
  {
    var i :| 0 <= i < |a| && a[i] == x;
    if i == 0 { LexLeReflexive(x); }
  }

  /** Two sorted permutations of the same list are equal: the sorted order is unique. */
  lemma {:induction false} LexSortedUnique(a: seq<string>, b: seq<string>)
    requires LexSorted(a) && LexSorted(b) && multiset(a) == multiset(b)
    ensures a == b
  {
    if a != [] {
      assert |b| == |a| by { assert |multiset(a)| == |multiset(b)|; }
      SortedHeadLeast(b, a[0]);
      SortedHeadLeast(a, b[0]);
      LexLeAntisymmetric(a[0], b[0]);
      MultisetTail(a);
      MultisetTail(b);
      LexSortedTail(a);
      LexSortedTail(b);
      LexSortedUnique(a[1..], b[1..]);
      HeadThenTail(a);
      HeadThenTail(b);
    }
  }

  // ----- Stable descending sort of (key, count) entries -----

  type Entry = (string, nat)

  predicate Descending(xs: seq<Entry>) {
    forall i, j :: 0 <= i < j < |xs| ==> xs[i].1 >= xs[j].1
  }

  /** The entries of `xs` whose count is `c`, in their order in `xs`. */
  function WithCount(xs: seq<Entry>, c: nat): seq<Entry> {
    if xs == [] then [] else (if xs[0].1 == c then [xs[0]] else []) + WithCount(xs[1..], c)
  }

  /** Places `x` before every entry whose count is not larger. */
  function InsertDesc(x: Entry, xs: seq<Entry>): (r: seq<Entry>)
    ensures |r| == |xs| + 1
  {
    if xs == [] || xs[0].1 <= x.1 then [x] + xs else [xs[0]] + InsertDesc(x, xs[1..])
  }

  /** `sorted(items, key=lambda x: x[1], reverse=True)`. */
  function SortByCount(xs: seq<Entry>): (r: seq<Entry>)
    ensures |r| == |xs|
  {
    if xs == [] then [] else InsertDesc(xs[0], SortByCount(xs[1..]))
  }

  lemma InsertDescFront(x: Entry, xs: seq<Entry>)
    requires xs == [] || xs[0].1 <= x.1
    ensures InsertDesc(x, xs) == [x] + xs
  {
  }

  lemma InsertDescPast(x: Entry, xs: seq<Entry>)
    requires xs != [] && xs[0].1 > x.1
    ensures InsertDesc(x, xs) == [xs[0]] + InsertDesc(x, xs[1..])
  {
  }

  lemma WithCountCons(y: Entry, ys: seq<Entry>, c: nat)
    ensures WithCount([y] + ys, c) == (if y.1 == c then [y] else []) + WithCount(ys, c)
  {
    assert ([y] + ys)[1..] == ys;
  }

  lemma DescendingTail(xs: seq<Entry>)
    requires Descending(xs) && xs != []
    ensures Descending(xs[1..])
  {
    forall i, j | 0 <= i < j < |xs| - 1 ensures xs[1..][i].1 >= xs[1..][j].1 {
      assert xs[1..][i] == xs[i + 1] && xs[1..][j] == xs[j + 1];
    }
  }

  lemma {:induction false} InsertDescUpperBound(b: nat, x: Entry, xs: seq<Entry>)
    requires x.1 <= b && forall k :: 0 <= k < |xs| ==> xs[k].1 <= b
    ensures forall k :: 0 <= k < |InsertDesc(x, xs)| ==> InsertDesc(x, xs)[k].1 <= b
  {
    if xs != [] && xs[0].1 > x.1 {
      InsertDescPast(x, xs);
      forall k | 0 <= k < |xs| - 1 ensures xs[1..][k].1 <= b {
        assert xs[1..][k] == xs[k + 1];
      }
      InsertDescUpperBound(b, x, xs[1..]);
    } else {
      InsertDescFront(x, xs);
    }
  }

  lemma {:induction false} InsertDescDescending(x: Entry, xs: seq<Entry>)
    requires Descending(xs)
    ensures Descending(InsertDesc(x, xs))
  {
    var r := InsertDesc(x, xs);
    if xs != [] && xs[0].1 > x.1 {
      InsertDescPast(x, xs);
      DescendingTail(xs);
      InsertDescDescending(x, xs[1..]);
      var t := InsertDesc(x, xs[1..]);
      forall k | 0 <= k < |xs| - 1 ensures xs[1..][k].1 <= xs[0].1 {
        assert xs[1..][k] == xs[k + 1];
      }
      InsertDescUpperBound(xs[0].1, x, xs[1..]);
      forall i, j | 0 <= i < j < |r| ensures r[i].1 >= r[j].1 {
        assert r[j] == t[j - 1];
        if i > 0 {
          assert r[i] == t[i - 1];
        }
      }
    } else {
      InsertDescFront(x, xs);
      forall i, j | 0 <= i < j < |r| ensures r[i].1 >= r[j].1 {
        assert r[j] == xs[j - 1];
        if i > 0 {
          assert r[i] == xs[i - 1];
        } else if j > 1 {
          assert xs[0].1 >= xs[j - 1].1;
        }
      }
    }
  }

  lemma {:induction false} InsertDescPermutation(x: Entry, xs: seq<Entry>)
    ensures multiset(InsertDesc(x, xs)) == multiset(xs) + multiset{x}
  {
    if xs != [] && xs[0].1 > x.1 {
      InsertDescPast(x, xs);
      InsertDescPermutation(x, xs[1..]);
      assert multiset(xs) == multiset{xs[0]} + multiset(xs[1..]) by {
        assert xs == [xs[0]] + xs[1..];
      }
    } else {
      InsertDescFront(x, xs);
    }
  }

  /** Inserting into a descending list puts `x` before every entry of its own count. */
  lemma {:induction false} InsertDescWithCount(x: Entry, xs: seq<Entry>, c: nat)
    requires Descending(xs)
    ensures WithCount(InsertDesc(x, xs), c) == (if x.1 == c then [x] else []) + WithCount(xs, c)
  {
    if xs == [] || xs[0].1 <= x.1 {
      InsertDescFront(x, xs);
      WithCountCons(x, xs, c);
    } else {
      var t := InsertDesc(x, xs[1..]);
      InsertDescPast(x, xs);
      DescendingTail(xs);
      InsertDescWithCount(x, xs[1..], c);
      WithCountCons(xs[0], t, c);
      WithCountCons(xs[0], xs[1..], c);
      HeadThenTail(xs);
      var hx: seq<Entry> := if x.1 == c then [x] else [];
      var h0: seq<Entry> := if xs[0].1 == c then [xs[0]] else [];
      assert hx == [] || h0 == [];
      assert h0 + (hx + WithCount(xs[1..], c)) == hx + (h0 + WithCount(xs[1..], c));
    }
  }

  lemma SortByCountCons(xs: seq<Entry>)
    requires xs != []
    ensures SortByCount(xs) == InsertDesc(xs[0], SortByCount(xs[1..]))
  {
  }

  lemma {:induction false} SortByCountDescending(xs: seq<Entry>)
    ensures Descending(SortByCount(xs))
  {
    if xs != [] {
      SortByCountCons(xs);
      SortByCountDescending(xs[1..]);
      InsertDescDescending(xs[0], SortByCount(xs[1..]));
    }
  }

  lemma {:induction false} SortByCountPermutation(xs: seq<Entry>)
    ensures multiset(SortByCount(xs)) == multiset(xs)
  {
    if xs != [] {
      SortByCountCons(xs);
      SortByCountPermutation(xs[1..]);
      InsertDescPermutation(xs[0], SortByCount(xs[1..]));
      assert multiset(xs) == multiset(xs[1..]) + multiset{xs[0]} by {
        assert xs == [xs[0]] + xs[1..];
      }
    }
  }

  /** Stability: the entries of any one count keep their input order. */
  lemma {:induction false} SortByCountStable(xs: seq<Entry>, c: nat)
    ensures WithCount(SortByCount(xs), c) == WithCount(xs, c)
  {
    if xs != [] {
      var rest := SortByCount(xs[1..]);
      SortByCountCons(xs);
      SortByCountStable(xs[1..], c);
      SortByCountDescending(xs[1..]);
      InsertDescWithCount(xs[0], rest, c);
      WithCountCons(xs[0], xs[1..], c);
      HeadThenTail(xs);
    }
  }

  /**
   * SortByCount orders by non-increasing count, is a permutation of its input,
   * and is stable.
   */
  lemma SortByCountCorrect(xs: seq<Entry>, c: nat)
    ensures Descending(SortByCount(xs))
    ensures multiset(SortByCount(xs)) == multiset(xs)
    ensures WithCount(SortByCount(xs), c) == WithCount(xs, c)
  {
    SortByCountDescending(xs);
    SortByCountPermutation(xs);
    SortByCountStable(xs, c);
  }
}
