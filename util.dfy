/**
 * The string and iterator helpers of util.rs: comma sanitising, dropping
 * errors from a stream of results, collecting an iterator, and splitting a
 * stringified package ("libc-0.4.8-pre18") into its name and version.
 *
 * Version and name validation belong to another crate; they are the
 * parameters `isVersion` and `isName`, and a version is kept as its text.
 */
module Util {
  import opened Outcomes
  import opened Strings
  import Csv

  /** `csv::sanitize_comma` removes commas once and for all: a second pass changes nothing. */
  lemma SanitizeCommaIdempotent(s: string)
    ensures ',' !in Csv.SanitizeComma(s)
    ensures Csv.SanitizeComma(Csv.SanitizeComma(s)) == Csv.SanitizeComma(s)
  {
  }

  /** `iter::warn_ok`: an `Ok` becomes its value, an error is dropped (after a warning). */
  function WarnOk<T, E>(x: Result<T, E>): (r: Option<T>)
    ensures r.Some? <==> x.Ok?
    ensures x.Ok? ==> r.value == x.value
  {
    match x
    case Ok(v) => Some(v)
    case Err(_) => None
  }

  /** `filter_map(warn_ok)`: the values of the `Ok` items, in order. */
  function OkValues<T, E>(xs: seq<Result<T, E>>): (r: seq<T>)
    ensures |r| <= |xs|
  {
    if xs == [] then []
    else
      var init := OkValues(xs[..|xs| - 1]);
      match WarnOk(xs[|xs| - 1])
      case Some(v) => init + [v]
      case None => init
  }

  function ErrCount<T, E>(xs: seq<Result<T, E>>): nat {
    if xs == [] then 0 else ErrCount(xs[..|xs| - 1]) + (if xs[|xs| - 1].Err? then 1 else 0)
  }

  /** Dropping errors keeps one value per `Ok` item, and each value comes from an `Ok` item. */
  lemma {:induction false} OkValuesSpec<T, E>(xs: seq<Result<T, E>>)
    ensures |OkValues(xs)| + ErrCount(xs) == |xs|
    ensures forall v :: v in OkValues(xs) ==> Ok(v) in xs
    ensures forall i :: 0 <= i < |xs| && xs[i].Ok? ==> xs[i].value in OkValues(xs)
  {
    if xs != [] {
      var init := xs[..|xs| - 1];
      OkValuesSpec(init);
      forall v | v in OkValues(init) ensures Ok(v) in xs {
        var j :| 0 <= j < |init| && init[j] == Ok(v);
        assert xs[j] == Ok(v);
      }
      forall i | 0 <= i < |xs| && xs[i].Ok? ensures xs[i].value in OkValues(xs) {
        if i < |xs| - 1 {
          assert init[i] == xs[i];
        }
      }
      if xs[|xs| - 1].Ok? {
        assert xs[|xs| - 1] == Ok(xs[|xs| - 1].value);
      }
    }
  }

  /**
   * The values are kept piece by piece: on a concatenation of streams they
   * are the concatenation of each stream's values, and a single item gives
   * its value exactly when it is `Ok`. So the `Ok` values survive in order.
   */
  lemma {:induction false} OkValuesConcat<T, E>(xs: seq<Result<T, E>>, ys: seq<Result<T, E>>)
    ensures OkValues(xs + ys) == OkValues(xs) + OkValues(ys)
  {
    if ys == [] {
      assert xs + ys == xs;
    } else {
      var init := ys[..|ys| - 1];
      assert (xs + ys)[..|xs + ys| - 1] == xs + init;
      assert (xs + ys)[|xs + ys| - 1] == ys[|ys| - 1];
      OkValuesConcat(xs, init);
    }
  }

  lemma OkValuesSingle<T, E>(x: Result<T, E>)
    ensures OkValues([x]) == if x.Ok? then [x.value] else []
  {
    assert [x][..0] == [];
  }

  /** A stream without errors loses nothing. */
  lemma {:induction false} OkValuesAllOk<T, E>(xs: seq<Result<T, E>>)
    requires forall i :: 0 <= i < |xs| ==> xs[i].Ok?
    ensures |OkValues(xs)| == |xs|
    ensures forall i :: 0 <= i < |xs| ==> OkValues(xs)[i] == xs[i].value
  {
    if xs != [] {
      OkValuesAllOk(xs[..|xs| - 1]);
    }
  }

  /** `iter::FreshIter::fresh_iter`: the items collected into a vector, then handed out again. */
  method FreshIter<T>(items: seq<T>) returns (owned: seq<T>)
    ensures owned == items
  {
    var collected: seq<T> := [];
    for i := 0 to |items|
      invariant collected == items[..i]
    {
      collected := collected + [items[i]];
    }
    owned := collected;
  }

  // ----- package_info_from_string -----

  datatype PackageError =
    | InvalidName(name: string)   // the text before the version is not a crate name
    | NotAPackage                 // "Couldn't parse string as package"

  /** The `-`-joined segments from index `i` on: the version candidate the loop tests. */
  function Suffix(split: seq<string>, i: nat): string
    requires i <= |split|
  {
    Join("-", split[i..])
  }

  /** None of the first `n` suffixes parses as a version. */
  predicate NoVersionSuffix(split: seq<string>, n: nat, isVersion: string -> bool)
    requires n <= |split|
  {
    forall j :: 0 <= j < n ==> !isVersion(Suffix(split, j))
  }

  /**
   * The index at which the loop stops: the largest `i < n` whose suffix is a
   * version, so the shortest suffix that parses; `None` when none does.
   */
  function VersionStart(split: seq<string>, n: nat, isVersion: string -> bool): (r: Option<nat>)
    requires n <= |split|
    ensures r.Some? ==> r.value < n && isVersion(Suffix(split, r.value))
    ensures r.Some? ==> forall j :: r.value < j < n ==> !isVersion(Suffix(split, j))
    ensures r.None? <==> NoVersionSuffix(split, n, isVersion)
    decreases n
  {
    if n == 0 then None
    else if isVersion(Suffix(split, n - 1)) then Some(n - 1)
    else VersionStart(split, n - 1, isVersion)
  }

  /** What `package_info_from_string` returns. */
  function PackageInfo(package: string, isVersion: string -> bool, isName: string -> bool): Result<(string, string), PackageError> {
    var split := SplitOn(package, "-");
    match VersionStart(split, |split|, isVersion)
    case None => Err(NotAPackage)
    case Some(i) =>
      var name := Join("-", split[..i]);
      if isName(name) then Ok((name, Suffix(split, i))) else Err(InvalidName(name))
  }

  /**
   * `package_info_from_string`: try the suffixes of the `-`-split segments,
   * shortest first, and return at the first that parses as a version.
   */
  method PackageInfoFromString(package: string, isVersion: string -> bool, isName: string -> bool)
    returns (result: Result<(string, string), PackageError>)
    ensures result == PackageInfo(package, isVersion, isName)
  {
    var split := SplitOn(package, "-");
    var i := |split|;
    while i > 0
      invariant 0 <= i <= |split|
      invariant VersionStart(split, |split|, isVersion) == VersionStart(split, i, isVersion)
      decreases i
    {
      i := i - 1;
      var testStr := Join("-", split[i..]);
      assert testStr == Suffix(split, i);
      if isVersion(testStr) {
        assert VersionStart(split, |split|, isVersion) == Some(i);
        var name := Join("-", split[..i]);
        if isName(name) {
          return Ok((name, testStr));
        }
        return Err(InvalidName(name));
      }
      assert VersionStart(split, i + 1, isVersion) == VersionStart(split, i, isVersion);
    }
    assert VersionStart(split, |split|, isVersion) == None;
    return Err(NotAPackage);
  }

  /**
   * On success the name is the text before the version, so name, `-` and
   * version give the package string back; a version-only string has an
   * empty name.
   */
  lemma PackageInfoRoundTrip(package: string, isVersion: string -> bool, isName: string -> bool)
    requires PackageInfo(package, isVersion, isName).Ok?
    ensures var (name, version) := PackageInfo(package, isVersion, isName).value;
      isName(name) && isVersion(version)
      && (name + "-" + version == package || (name == "" && version == package))
  {
    var split := SplitOn(package, "-");
    var i := VersionStart(split, |split|, isVersion).value;
    JoinSplitOn(package, "-");
    if i == 0 {
      assert split[i..] == split;
    } else {
      JoinSplitAt("-", split, i);
    }
  }

  /** `Err(NotAPackage)` exactly when no suffix parses as a version. */
  lemma PackageInfoErr(package: string, isVersion: string -> bool, isName: string -> bool)
    ensures var split := SplitOn(package, "-");
      (PackageInfo(package, isVersion, isName) == Err(NotAPackage) <==> NoVersionSuffix(split, |split|, isVersion))
  {
    var split := SplitOn(package, "-");
    var r := VersionStart(split, |split|, isVersion);
    if r.Some? {
      var name := Join("-", split[..r.value]);
      assert PackageInfo(package, isVersion, isName) == (if isName(name) then Ok((name, Suffix(split, r.value))) else Err(InvalidName(name)));
    }
  }

  /** The documented example: "libc-0.4.8-pre18" is crate "libc", version "0.4.8-pre18". */
  lemma LibcExample(isVersion: string -> bool, isName: string -> bool)
    requires !isVersion("pre18") && isVersion("0.4.8-pre18") && isName("libc")
    ensures PackageInfo("libc-0.4.8-pre18", isVersion, isName) == Ok(("libc", "0.4.8-pre18"))
  {
    LibcSplit();
    LibcPieces();
    var split := LibcSegments();
    assert VersionStart(split, 3, isVersion) == Some(1);
  }

  function LibcSegments(): seq<string> {
    ["libc", "0.4.8", "pre18"]
  }

  lemma LibcPieces()
    ensures Suffix(LibcSegments(), 2) == "pre18"
    ensures Suffix(LibcSegments(), 1) == "0.4.8-pre18"
    ensures Join("-", LibcSegments()[..1]) == "libc"
  {
    var split := LibcSegments();
    assert split[2..] == ["pre18"];
    assert split[1..] == ["0.4.8", "pre18"];
    JoinCons("0.4.8", ["pre18"], "-");
    assert split[..1] == ["libc"];
  }

  lemma LibcSplit()
    ensures SplitOn("libc-0.4.8-pre18", "-") == LibcSegments()
  {
    var parts := LibcSegments();
    SplitOnJoin(parts, "-");
    JoinCons("libc", ["0.4.8", "pre18"], "-");
    JoinCons("0.4.8", ["pre18"], "-");
    assert Join("-", parts) == "libc-0.4.8-pre18";
  }
}
