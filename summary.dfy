/**
 * The summary bookkeeping of scan.py's `main` and `make_summary`: two count
 * dictionaries (effects per crate, effects per watchlist pattern), the loop
 * that fills them while collecting effects, and the text report that ranks them.
 *
 * A Python dict is insertion-ordered; it is modelled as a list of
 * (key, count) entries without repeated keys, in insertion order.
 */
module Summary {
  import opened Strings
  import opened Sorting
  import opened Csv

  type Counts = seq<Entry>

  function Keys(d: Counts): seq<string> {
    if d == [] then [] else [d[0].0] + Keys(d[1..])
  }

  predicate HasKey(d: Counts, k: string) {
    k in Keys(d)
  }

  predicate UniqueKeys(d: Counts) {
    forall i, j :: 0 <= i < j < |d| ==> d[i].0 != d[j].0
  }

  /** `d[k]`, for a key that is present; 0 stands for an absent key. */
  function Get(d: Counts, k: string): nat {
    if d == [] then 0 else if d[0].0 == k then d[0].1 else Get(d[1..], k)
  }

  /** `sum(d.values())`. */
  function Total(d: Counts): nat {
    if d == [] then 0 else d[0].1 + Total(d[1..])
  }

  /** `d[k] += 1` for a key that is present. */
  function Increment(d: Counts, k: string): Counts
    requires HasKey(d, k)
  {
    if d[0].0 == k then [(k, d[0].1 + 1)] + d[1..] else [d[0]] + Increment(d[1..], k)
  }

  /** `d.setdefault(k, 0)`: a missing key is added at the end with count 0. */
  function SetDefault(d: Counts, k: string): (r: Counts)
    ensures HasKey(r, k)
  {
    if HasKey(d, k) then d else KeysAppend(d, (k, 0)); d + [(k, 0)]
  }

  /** `{k: 0 for k in ks}`: a repeated key keeps its first position. */
  function FromKeys(ks: seq<string>): Counts {
    if ks == [] then [] else SetDefault(FromKeys(ks[..|ks| - 1]), ks[|ks| - 1])
  }

  // ----- Properties of the dictionary operations -----

  lemma {:induction false} KeysLength(d: Counts)
    ensures |Keys(d)| == |d|
    ensures forall i :: 0 <= i < |d| ==> Keys(d)[i] == d[i].0
  {
    if d != [] {
      KeysLength(d[1..]);
    }
  }

  lemma {:induction false} KeysAppend(d: Counts, e: Entry)
    ensures Keys(d + [e]) == Keys(d) + [e.0]
  {
    if d != [] {
      assert (d + [e])[1..] == d[1..] + [e];
      KeysAppend(d[1..], e);
    } else {
      assert Keys([e]) == [e.0] + Keys([]);
    }
  }

  lemma {:induction false} TotalAppend(d: Counts, e: Entry)
    ensures Total(d + [e]) == Total(d) + e.1
  {
    if d != [] {
      assert (d + [e])[1..] == d[1..] + [e];
      TotalAppend(d[1..], e);
    } else {
      assert [e][1..] == [];
    }
  }

  lemma UniqueKeysTail(d: Counts)
    requires UniqueKeys(d) && d != []
    ensures UniqueKeys(d[1..]) && !HasKey(d[1..], d[0].0)
  {
    KeysLength(d[1..]);
    forall i | 0 <= i < |d| - 1 ensures d[1..][i].0 != d[0].0 {
      assert d[1..][i] == d[i + 1];
    }
    forall i, j | 0 <= i < j < |d| - 1 ensures d[1..][i].0 != d[1..][j].0 {
      assert d[1..][i] == d[i + 1] && d[1..][j] == d[j + 1];
    }
  }

  lemma {:induction false} GetAbsent(d: Counts, k: string)
    requires !HasKey(d, k)
    ensures Get(d, k) == 0
  {
    if d != [] {
      GetAbsent(d[1..], k);
    }
  }

  /**
   * Incrementing a present key keeps the keys and their order, adds one to
   * that key's count and to the total, and leaves every other count alone.
   */
  lemma {:induction false} IncrementSpec(d: Counts, k: string)
    requires HasKey(d, k) && UniqueKeys(d)
    ensures Keys(Increment(d, k)) == Keys(d)
    ensures UniqueKeys(Increment(d, k))
    ensures Total(Increment(d, k)) == Total(d) + 1
    ensures Get(Increment(d, k), k) == Get(d, k) + 1
    ensures forall k' :: k' != k ==> Get(Increment(d, k), k') == Get(d, k')
  {
    var r := Increment(d, k);
    if d[0].0 == k {
      assert r[1..] == d[1..];
      UniqueKeysTail(d);
      forall i, j | 0 <= i < j < |r| ensures r[i].0 != r[j].0 {
        assert r[j] == d[j];
        if i > 0 {
          assert r[i] == d[i];
        }
      }
    } else {
      UniqueKeysTail(d);
      IncrementSpec(d[1..], k);
      var t := Increment(d[1..], k);
      assert r[1..] == t;
      KeysLength(t);
      KeysLength(d[1..]);
      forall i, j | 0 <= i < j < |r| ensures r[i].0 != r[j].0 {
        if i == 0 {
          assert r[j].0 == Keys(t)[j - 1] == Keys(d[1..])[j - 1];
          assert Keys(d[1..])[j - 1] in Keys(d[1..]);
        } else {
          assert r[i] == t[i - 1] && r[j] == t[j - 1];
        }
      }
    }
  }

  /**
   * `setdefault` adds the key at the end exactly when it was missing, and
   * changes no count (so no total).
   */
  lemma SetDefaultSpec(d: Counts, k: string)
    requires UniqueKeys(d)
    ensures Keys(SetDefault(d, k)) == Keys(d) + (if HasKey(d, k) then [] else [k])
    ensures UniqueKeys(SetDefault(d, k)) && HasKey(SetDefault(d, k), k)
    ensures Total(SetDefault(d, k)) == Total(d)
    ensures forall k' :: Get(SetDefault(d, k), k') == Get(d, k')
  {
    if !HasKey(d, k) {
      var r := d + [(k, 0)];
      KeysAppend(d, (k, 0));
      TotalAppend(d, (k, 0));
      KeysLength(d);
      forall i, j | 0 <= i < j < |r| ensures r[i].0 != r[j].0 {
        if j == |d| {
          assert Keys(d)[i] in Keys(d);
        }
      }
      forall k' ensures Get(r, k') == Get(d, k') {
        GetAppend(d, (k, 0), k');
        if k' == k {
          GetAbsent(d, k);
        }
      }
    }
  }

  lemma {:induction false} GetAppend(d: Counts, e: Entry, k: string)
    requires !HasKey(d, e.0)
    ensures Get(d + [e], k) == if k == e.0 then e.1 else Get(d, k)
  {
    if d != [] {
      assert (d + [e])[1..] == d[1..] + [e];
      assert Keys(d) == [d[0].0] + Keys(d[1..]);
      GetAppend(d[1..], e, k);
    } else {
      assert [e][1..] == [];
    }
  }

  /**
   * `{k: 0 for k in ks}` has exactly the keys of `ks`, each once, every count 0.
   */
  lemma {:induction false} FromKeysSpec(ks: seq<string>)
    ensures UniqueKeys(FromKeys(ks)) && Total(FromKeys(ks)) == 0
    ensures forall k :: HasKey(FromKeys(ks), k) <==> k in ks
    ensures forall k :: Get(FromKeys(ks), k) == 0
  {
    if ks != [] {
      var init := ks[..|ks| - 1];
      var last := ks[|ks| - 1];
      FromKeysSpec(init);
      SetDefaultSpec(FromKeys(init), last);
      assert ks == init + [last];
      forall k ensures HasKey(FromKeys(ks), k) <==> k in ks {
        assert HasKey(FromKeys(ks), k) <==> k in Keys(FromKeys(init)) + (if HasKey(FromKeys(init), last) then [] else [last]);
      }
    }
  }

  // ----- The effect-counting loop of main -----

  /** The number of effects whose pattern is `p`. */
  function PatternCount(effects: seq<Effect>, p: string): nat {
    if effects == [] then 0
    else PatternCount(effects[..|effects| - 1], p) + (if effects[|effects| - 1].pattern == p then 1 else 0)
  }

  /** The number of effects found while scanning `crate`, over all rounds with that crate name. */
  function CrateCount(crates: seq<string>, found: seq<seq<Effect>>, c: string): nat
    requires |found| == |crates|
  {
    if crates == [] then 0
    else
      var before := CrateCount(crates[..|crates| - 1], found[..|found| - 1], c);
      before + (if crates[|crates| - 1] == c then |found[|found| - 1]| else 0)
  }

  /** The loop body's update of `pattern_summary` for an effect with pattern `p`. */
  function Bump(d: Counts, p: string): Counts {
    Increment(SetDefault(d, p), p)
  }

  function BumpPattern(d: Counts, e: Effect): Counts {
    Bump(d, e.pattern)
  }

  /** `pattern_summary` after the loop body has seen `effects`, starting from `d`. */
  function RecordPatterns(d: Counts, effects: seq<Effect>): Counts {
    FoldLeft(BumpPattern, d, effects)
  }

  lemma RecordPatternsSnoc(d: Counts, effects: seq<Effect>, e: Effect)
    ensures RecordPatterns(d, effects + [e]) == Bump(RecordPatterns(d, effects), e.pattern)
  {
    FoldLeftSnoc(BumpPattern, d, effects, e);
  }

  /** Seeing two lists of effects one after the other is seeing their concatenation. */
  lemma RecordPatternsConcat(d: Counts, a: seq<Effect>, b: seq<Effect>)
    ensures RecordPatterns(RecordPatterns(d, a), b) == RecordPatterns(d, a + b)
  {
    FoldLeftConcat(BumpPattern, d, a, b);
  }

  lemma PatternCountSnoc(effects: seq<Effect>, e: Effect, p: string)
    ensures PatternCount(effects + [e], p) == PatternCount(effects, p) + (if e.pattern == p then 1 else 0)
  {
    assert (effects + [e])[..|effects|] == effects;
  }

  /**
   * What the pattern dictionary holds after the effects: its earlier keys
   * stay first and in order (so every watchlist pattern is listed, even with
   * count 0), a key is added exactly for a pattern some effect has, and each
   * count grows by the number of effects with that pattern.
   */
  lemma {:induction false} RecordPatternsSpec(d: Counts, effects: seq<Effect>)
    requires UniqueKeys(d)
    ensures var r := RecordPatterns(d, effects);
      && UniqueKeys(r)
      && Keys(d) <= Keys(r)
      && (forall k :: HasKey(r, k) <==> HasKey(d, k) || PatternCount(effects, k) > 0)
      && (forall k :: Get(r, k) == Get(d, k) + PatternCount(effects, k))
      && Total(r) == Total(d) + |effects|
  {
    if effects != [] {
      var init := effects[..|effects| - 1];
      var e := effects[|effects| - 1];
      assert effects == init + [e];
      RecordPatternsSpec(d, init);
      var r0 := RecordPatterns(d, init);
      RecordPatternsSnoc(d, init, e);
      SetDefaultSpec(r0, e.pattern);
      IncrementSpec(SetDefault(r0, e.pattern), e.pattern);
      PrefixOfAppend(Keys(d), Keys(r0), if HasKey(r0, e.pattern) then [] else [e.pattern]);
      forall k ensures PatternCount(effects, k) == PatternCount(init, k) + (if e.pattern == k then 1 else 0) {
        PatternCountSnoc(init, e, k);
      }
    }
  }

  lemma PrefixOfAppend(a: seq<string>, b: seq<string>, c: seq<string>)
    requires a <= b
    ensures a <= b + c
  {
    assert (b + c)[..|a|] == b[..|a|];
  }

  /**
   * The state `main` keeps while scanning: every effect found, and the two
   * count dictionaries.
   */
  class Aggregator {
    var results: seq<Effect>
    var crateSummary: Counts
    var patternSummary: Counts

    /**
     * Each recorded effect bumped exactly one crate and one pattern, so both
     * totals equal the number of results, and each pattern's count is the
     * number of effects with that pattern.
     */
    ghost predicate Valid()
      reads this
    {
      UniqueKeys(crateSummary) && UniqueKeys(patternSummary)
      && Total(crateSummary) == |results| && Total(patternSummary) == |results|
      && forall p :: Get(patternSummary, p) == PatternCount(results, p)
    }

    /** `results = []`, `crate_summary = {c: 0 for c in crates}`, `pattern_summary = {p: 0 for p in of_interest}`. */
    constructor (crates: seq<string>, ofInterest: seq<string>)
      ensures Valid()
      ensures results == [] && crateSummary == FromKeys(crates) && patternSummary == FromKeys(ofInterest)
    {
      results := [];
      crateSummary := FromKeys(crates);
      patternSummary := FromKeys(ofInterest);
      FromKeysSpec(crates);
      FromKeysSpec(ofInterest);
    }

    /** One iteration of the effect loop for an effect found in `crate`. */
    method Record(crate: string, effect: Effect)
      requires Valid() && HasKey(crateSummary, crate)
      modifies this
      ensures Valid()
      ensures results == old(results) + [effect]
      ensures crateSummary == Increment(old(crateSummary), crate)
      ensures patternSummary == Bump(old(patternSummary), effect.pattern)
      ensures Keys(crateSummary) == Keys(old(crateSummary))
      ensures Get(crateSummary, crate) == old(Get(crateSummary, crate)) + 1
      ensures forall c :: c != crate ==> Get(crateSummary, c) == old(Get(crateSummary, c))
    {
      IncrementSpec(crateSummary, crate);
      SetDefaultSpec(patternSummary, effect.pattern);
      IncrementSpec(SetDefault(patternSummary, effect.pattern), effect.pattern);
      var oldResults := results;
      results := results + [effect];
      crateSummary := Increment(crateSummary, crate);
      patternSummary := Increment(SetDefault(patternSummary, effect.pattern), effect.pattern);
      assert results[..|results| - 1] == oldResults;
    }

    /** The inner loop of `main`: every effect the scan of `crate` yields, in order. */
    method RecordAll(crate: string, effects: seq<Effect>)
      requires Valid() && HasKey(crateSummary, crate)
      modifies this
      ensures Valid()
      ensures results == old(results) + effects
      ensures patternSummary == RecordPatterns(old(patternSummary), effects)
      ensures Keys(crateSummary) == Keys(old(crateSummary))
      ensures Get(crateSummary, crate) == old(Get(crateSummary, crate)) + |effects|
      ensures forall c :: c != crate ==> Get(crateSummary, c) == old(Get(crateSummary, c))
    {
      ghost var results0, crates0, patterns0 := results, crateSummary, patternSummary;
      for i := 0 to |effects|
        invariant Valid()
        invariant results == results0 + effects[..i]
        invariant patternSummary == RecordPatterns(patterns0, effects[..i])
        invariant Keys(crateSummary) == Keys(crates0)
        invariant Get(crateSummary, crate) == Get(crates0, crate) + i
        invariant forall c :: c != crate ==> Get(crateSummary, c) == Get(crates0, c)
      {
        Record(crate, effects[i]);
        assert effects[..i + 1] == effects[..i] + [effects[i]];
        RecordPatternsSnoc(patterns0, effects[..i], effects[i]);
      }
      assert effects[..|effects|] == effects;
    }
  }

  /**
   * The loop of `main` over the crates; `found[i]` stands for what scanning
   * `crates[i]` yields. Afterwards every effect is in `results` in order,
   * each crate's count is the number of effects its scans yielded, and each
   * pattern's count the number of effects with that pattern.
   */
  method Aggregate(crates: seq<string>, ofInterest: seq<string>, found: seq<seq<Effect>>) returns (agg: Aggregator)
    requires |found| == |crates|
    ensures fresh(agg) && agg.Valid()
    ensures agg.results == Flatten(found)
    ensures Keys(agg.crateSummary) == Keys(FromKeys(crates))
    ensures forall c :: HasKey(agg.crateSummary, c) <==> c in crates
    ensures forall c :: Get(agg.crateSummary, c) == CrateCount(crates, found, c)
    ensures agg.patternSummary == RecordPatterns(FromKeys(ofInterest), Flatten(found))
  {
    agg := new Aggregator(crates, ofInterest);
    FromKeysSpec(crates);
    for i := 0 to |crates|
      invariant agg.Valid()
      invariant agg.results == Flatten(found[..i])
      invariant agg.patternSummary == RecordPatterns(FromKeys(ofInterest), Flatten(found[..i]))
      invariant Keys(agg.crateSummary) == Keys(FromKeys(crates))
      invariant forall c :: Get(agg.crateSummary, c) == CrateCount(crates[..i], found[..i], c)
    {
      assert HasKey(FromKeys(crates), crates[i]);
      agg.RecordAll(crates[i], found[i]);
      FlattenPrefix(found, i);
      RecordPatternsConcat(FromKeys(ofInterest), Flatten(found[..i]), found[i]);
      forall c ensures Get(agg.crateSummary, c) == CrateCount(crates[..i + 1], found[..i + 1], c) {
        CrateCountSnoc(crates, found, i, c);
      }
    }
    assert crates[..|crates|] == crates && found[..|found|] == found;
  }

  lemma CrateCountSnoc(crates: seq<string>, found: seq<seq<Effect>>, i: nat, c: string)
    requires |found| == |crates| && i < |crates|
    ensures CrateCount(crates[..i + 1], found[..i + 1], c)
      == CrateCount(crates[..i], found[..i], c) + (if crates[i] == c then |found[i]| else 0)
  {
    assert crates[..i + 1][..i] == crates[..i];
    assert found[..i + 1][..i] == found[..i];
  }

  /** One line of the report: `f"{key}: {count}\n"`. */
  function EntryLine(e: Entry): string {
    e.0 + ": " + NatToString(e.1) + "\n"
  }

  /** The lines of the pattern section, for the entries in the order given. */
  function PatternLines(es: seq<Entry>): string {
    if es == [] then "" else PatternLines(es[..|es| - 1]) + EntryLine(es[|es| - 1])
  }

  /** The lines of the crate section: crates with count 0 get no line. */
  function CrateLines(es: seq<Entry>): string {
    if es == [] then ""
    else CrateLines(es[..|es| - 1]) + (if es[|es| - 1].1 > 0 then EntryLine(es[|es| - 1]) else "")
  }

  function NonzeroCount(es: seq<Entry>): nat {
    if es == [] then 0 else NonzeroCount(es[..|es| - 1]) + (if es[|es| - 1].1 > 0 then 1 else 0)
  }

  function ZeroCount(es: seq<Entry>): nat {
    if es == [] then 0 else ZeroCount(es[..|es| - 1]) + (if es[|es| - 1].1 > 0 then 0 else 1)
  }

  /** The entries with a nonzero count, in order. */
  function Nonzero(es: seq<Entry>): seq<Entry> {
    if es == [] then [] else Nonzero(es[..|es| - 1]) + (if es[|es| - 1].1 > 0 then [es[|es| - 1]] else [])
  }

  /** The report `make_summary` builds. */
  function SummaryText(crateSummary: Counts, patternSummary: Counts): string {
    var crateSorted := SortByCount(crateSummary);
    "===== Patterns =====\n" + "Total instances of each import pattern:\n"
    + PatternLines(SortByCount(patternSummary))
    + "===== Crate Summary =====\n" + "Number of dangerous imports by crate:\n"
    + CrateLines(crateSorted)
    + "===== Crate Totals =====\n"
    + NatToString(NonzeroCount(crateSorted)) + " crates with 1 or more dangerous imports\n"
    + NatToString(ZeroCount(crateSorted)) + " crates with 0 dangerous imports\n"
  }

  /** The first loop of `make_summary`: one line per pattern, in the order given. */
  method PatternSection(es: seq<Entry>) returns (lines: string)
    ensures lines == PatternLines(es)
  {
    lines := "";
    for i := 0 to |es|
      invariant lines == PatternLines(es[..i])
    {
      assert es[..i + 1][..i] == es[..i];
      lines := lines + EntryLine(es[i]);
    }
    assert es[..|es|] == es;
  }

  /** The second loop of `make_summary`: lines for the nonzero crates, and the two tallies. */
  method CrateSection(es: seq<Entry>) returns (lines: string, numNonzero: nat, numZero: nat)
    ensures lines == CrateLines(es)
    ensures numNonzero == NonzeroCount(es) && numZero == ZeroCount(es)
  {
    lines := "";
    numNonzero := 0;
    numZero := 0;
    for i := 0 to |es|
      invariant lines == CrateLines(es[..i])
      invariant numNonzero == NonzeroCount(es[..i]) && numZero == ZeroCount(es[..i])
    {
      assert es[..i + 1][..i] == es[..i];
      if es[i].1 > 0 {
        numNonzero := numNonzero + 1;
        lines := lines + EntryLine(es[i]);
      } else {
        numZero := numZero + 1;
      }
    }
    assert es[..|es|] == es;
  }

  /**
   * `make_summary`. The sanity check at its start is a precondition: an
   * `assert` that fails stops the program.
   */
  method MakeSummary(crateSummary: Counts, patternSummary: Counts) returns (result: string)
    requires Total(crateSummary) == Total(patternSummary)
    ensures result == SummaryText(crateSummary, patternSummary)
  {
    var patternLines := PatternSection(SortByCount(patternSummary));
    var crateLines, numNonzero, numZero := CrateSection(SortByCount(crateSummary));
    result := "===== Patterns =====\n" + "Total instances of each import pattern:\n"
      + patternLines
      + "===== Crate Summary =====\n" + "Number of dangerous imports by crate:\n"
      + crateLines
      + "===== Crate Totals =====\n"
      + NatToString(numNonzero) + " crates with 1 or more dangerous imports\n"
      + NatToString(numZero) + " crates with 0 dangerous imports\n";
  }

  // ----- Properties of the report -----

  /** The crate section lists exactly the nonzero entries, in the order given. */
  lemma {:induction false} CrateLinesNonzero(es: seq<Entry>)
    ensures CrateLines(es) == PatternLines(Nonzero(es))
    ensures NonzeroCount(es) == |Nonzero(es)|
    ensures NonzeroCount(es) + ZeroCount(es) == |es|
  {
    if es != [] {
      var init := es[..|es| - 1];
      CrateLinesNonzero(init);
      if es[|es| - 1].1 > 0 {
        var n := Nonzero(init) + [es[|es| - 1]];
        assert n[..|n| - 1] == Nonzero(init);
      } else {
        assert Nonzero(init) + [] == Nonzero(init);
      }
    }
  }

  /** An entry is listed exactly when it is an entry with a nonzero count. */
  lemma {:induction false} NonzeroMembers(es: seq<Entry>)
    ensures forall e :: e in Nonzero(es) <==> e in es && e.1 > 0
  {
    if es != [] {
      var init := es[..|es| - 1];
      NonzeroMembers(init);
      assert es == init + [es[|es| - 1]];
    }
  }

  lemma {:induction false} NonzeroDescending(es: seq<Entry>)
    requires Descending(es)
    ensures Descending(Nonzero(es))
  {
    if es != [] {
      var init := es[..|es| - 1];
      var last := es[|es| - 1];
      assert Descending(init);
      NonzeroDescending(init);
      NonzeroMembers(init);
      if last.1 > 0 {
        var n := Nonzero(init) + [last];
        forall i, j | 0 <= i < j < |n| ensures n[i].1 >= n[j].1 {
          if j == |n| - 1 {
            assert n[i] in Nonzero(init);
            var k :| 0 <= k < |init| && init[k] == n[i];
            assert es[k] == n[i];
          }
        }
      } else {
        assert Nonzero(init) + [] == Nonzero(init);
      }
    }
  }

  /**
   * What the report promises: the pattern lines in non-increasing count
   * order, crate lines only for the crates with a nonzero count (each such
   * crate listed, in non-increasing order), and the two totals at the end
   * adding up to the number of crate keys.
   */
  lemma SummaryProperties(crateSummary: Counts, patternSummary: Counts)
    ensures Descending(SortByCount(patternSummary))
    ensures CrateLines(SortByCount(crateSummary)) == PatternLines(Nonzero(SortByCount(crateSummary)))
    ensures Descending(Nonzero(SortByCount(crateSummary)))
    ensures forall e :: e in Nonzero(SortByCount(crateSummary)) <==> e in crateSummary && e.1 > 0
    ensures NonzeroCount(SortByCount(crateSummary)) + ZeroCount(SortByCount(crateSummary)) == |crateSummary|
  {
    var cs := SortByCount(crateSummary);
    SortByCountDescending(patternSummary);
    SortByCountDescending(crateSummary);
    SortByCountPermutation(crateSummary);
    CrateLinesNonzero(cs);
    NonzeroMembers(cs);
    NonzeroDescending(cs);
    assert |cs| == |crateSummary| by {
      assert |multiset(cs)| == |multiset(crateSummary)|;
    }
    forall e ensures e in cs <==> e in crateSummary {
      assert e in cs <==> e in multiset(cs);
      assert e in crateSummary <==> e in multiset(crateSummary);
    }
  }

  /** The dictionaries `main` fills always pass the sanity check of `make_summary`. */
  lemma AggregatedTotalsAgree(agg: Aggregator)
    requires agg.Valid()
    ensures Total(agg.crateSummary) == Total(agg.patternSummary) == |agg.results|
  {
  }
}
