/**
 * The watchlist of import paths that scan.py flags, and `is_of_interest`,
 * which finds the entry an import path matches.
 */
module Watchlist {
  import opened Outcomes
  import opened Strings

  /** Potentially dangerous standard-library modules. */
  const OfInterestStd: seq<string> :=
    ["std::env", "std::fs", "std::net", "std::os", "std::path", "std::process"]

  /** Crates that are a transitive risk. */
  const OfInterestOther: seq<string> :=
    ["libc", "winapi", "mio::net", "mio::unix", "tokio::fs", "tokio::io", "tokio::net",
     "tokio::process", "hyper::client", "hyper::server", "tokio_util::udp",
     "tokio_util::net", "socket2"]

  /** The watchlist of one run: only the standard-library part under `--std`. */
  function OfInterest(stdOnly: bool): seq<string> {
    OfInterestStd + (if stdOnly then [] else OfInterestOther)
  }

  /** A character with a special meaning in a Python regular expression. */
  predicate IsRegexMeta(c: char) {
    c == '.' || c == '^' || c == '$' || c == '*' || c == '+' || c == '?' || c == '{' || c == '}'
    || c == '[' || c == ']' || c == '\\' || c == '|' || c == '(' || c == ')'
  }

  /** Lower-case letters, digits, `:` and `_`: the characters of a module path. */
  predicate IsPathChar(c: char) {
    ('a' <= c <= 'z') || ('0' <= c <= '9') || c == ':' || c == '_'
  }

  /** A pattern made only of path characters. */
  predicate IsLiteralPattern(p: string) {
    forall i :: 0 <= i < |p| ==> IsPathChar(p[i])
  }

  /** Path characters are ordinary characters of a regular expression: each matches itself. */
  lemma LiteralPatternHasNoMeta(p: string)
    requires IsLiteralPattern(p)
    ensures forall i :: 0 <= i < |p| ==> !IsRegexMeta(p[i])
  {
  }

  /**
   * No watchlist entry holds a regex metacharacter, so `re.search(p, line)`
   * is substring containment.
   */
  lemma WatchlistIsLiteral()
    ensures forall i :: 0 <= i < |OfInterest(false)| ==> IsLiteralPattern(OfInterest(false)[i])
  {
    StdIsLiteral();
    OtherIsLiteral();
    var all := OfInterest(false);
    forall i | 0 <= i < |all| ensures IsLiteralPattern(all[i]) {
      if i < |OfInterestStd| {
        assert all[i] == OfInterestStd[i];
      } else {
        assert all[i] == OfInterestOther[i - |OfInterestStd|];
      }
    }
  }

  lemma StdIsLiteral()
    ensures forall i :: 0 <= i < |OfInterestStd| ==> IsLiteralPattern(OfInterestStd[i])
  {
    assert IsLiteralPattern("std::env");
    assert IsLiteralPattern("std::fs");
    assert IsLiteralPattern("std::net");
    assert IsLiteralPattern("std::os");
    assert IsLiteralPattern("std::path");
    assert IsLiteralPattern("std::process");
  }

  lemma OtherIsLiteral()
    ensures forall i :: 0 <= i < |OfInterestOther| ==> IsLiteralPattern(OfInterestOther[i])
  {
    OtherIsLiteralHead();
    OtherIsLiteralTail();
  }

  lemma OtherIsLiteralHead()
    ensures forall i :: 0 <= i < 7 ==> IsLiteralPattern(OfInterestOther[i])
  {
    assert IsLiteralPattern("libc");
    assert IsLiteralPattern("winapi");
    assert IsLiteralPattern("mio::net");
    assert IsLiteralPattern("mio::unix");
    assert IsLiteralPattern("tokio::fs");
    assert IsLiteralPattern("tokio::io");
  }

  lemma OtherIsLiteralTail()
    ensures forall i :: 7 <= i < |OfInterestOther| ==> IsLiteralPattern(OfInterestOther[i])
  {
    assert IsLiteralPattern("tokio::net");
    assert IsLiteralPattern("tokio::process");
    assert IsLiteralPattern("hyper::client");
    assert IsLiteralPattern("hyper::server");
    assert IsLiteralPattern("tokio_util::udp");
    assert IsLiteralPattern("tokio_util::net");
    assert IsLiteralPattern("socket2");
  }

  /** `re.search(p, line)` for a literal pattern. */
  predicate Matches(line: string, p: string) {
    Contains(line, p)
  }

  /** The last entry of the watchlist that matches, or None. */
  function LastMatch(line: string, pats: seq<string>): (r: Option<string>)
    ensures r.Some? ==> r.value in pats && Matches(line, r.value)
  {
    if pats == [] then None
    else if Matches(line, pats[|pats| - 1]) then Some(pats[|pats| - 1])
    else LastMatch(line, pats[..|pats| - 1])
  }

  /** Number of entries that match. */
  function MatchCount(line: string, pats: seq<string>): nat {
    if pats == [] then 0
    else MatchCount(line, pats[..|pats| - 1]) + (if Matches(line, pats[|pats| - 1]) then 1 else 0)
  }

  /**
   * `is_of_interest`: scans the whole list, keeping the latest match; every
   * match after the first logs a "multiple patterns" warning, counted in `warnings`.
   */
  method IsOfInterest(line: string, ofInterest: seq<string>) returns (found: Option<string>, warnings: nat)
    ensures found == LastMatch(line, ofInterest)
    ensures warnings == if MatchCount(line, ofInterest) == 0 then 0 else MatchCount(line, ofInterest) - 1
  {
    found := None;
    warnings := 0;
    for i := 0 to |ofInterest|
      invariant found == LastMatch(line, ofInterest[..i])
      invariant warnings == if MatchCount(line, ofInterest[..i]) == 0 then 0 else MatchCount(line, ofInterest[..i]) - 1
    {
      assert ofInterest[..i + 1][..i] == ofInterest[..i];
      if Matches(line, ofInterest[i]) {
        if found != None {
          warnings := warnings + 1;
        }
        LastMatchCount(line, ofInterest[..i]);
        found := Some(ofInterest[i]);
      }
    }
    assert ofInterest[..|ofInterest|] == ofInterest;
  }

  /** LastMatch finds something exactly when some entry matches. */
  lemma {:induction false} LastMatchCount(line: string, pats: seq<string>)
    ensures LastMatch(line, pats).None? <==> MatchCount(line, pats) == 0
  {
    if pats != [] {
      LastMatchCount(line, pats[..|pats| - 1]);
    }
  }

  /**
   * `is_of_interest` returns None exactly when no entry occurs in the line;
   * otherwise it returns an entry that occurs, and no entry after it occurs.
   */
  lemma {:induction false} LastMatchSpec(line: string, pats: seq<string>)
    ensures LastMatch(line, pats).None? <==> forall i :: 0 <= i < |pats| ==> !Contains(line, pats[i])
    ensures LastMatch(line, pats).Some? ==>
      exists i :: 0 <= i < |pats| && pats[i] == LastMatch(line, pats).value && Contains(line, pats[i])
        && forall j :: i < j < |pats| ==> !Contains(line, pats[j])
  {
    if pats != [] {
      var init := pats[..|pats| - 1];
      LastMatchSpec(line, init);
      assert forall i :: 0 <= i < |init| ==> init[i] == pats[i];
      if !Matches(line, pats[|pats| - 1]) && LastMatch(line, init).Some? {
        var i :| 0 <= i < |init| && init[i] == LastMatch(line, init).value && Contains(line, init[i])
          && forall j :: i < j < |init| ==> !Contains(line, init[j]);
        assert pats[i] == init[i];
      }
    }
  }

  /** Under `--std`, the import path `std::fs` is flagged with the `std::fs` entry. */
  lemma StdFsExample()
    ensures LastMatch("std::fs", OfInterest(true)) == Some("std::fs")
  {
    var line := "std::fs";
    assert OccursAt(line, "std::fs", 0);
    ContainsIff(line, "std::fs");
    ContainsLonger(line, "std::net");
    ContainsLonger(line, "std::path");
    ContainsLonger(line, "std::process");
    ContainsSameLength(line, "std::os");
    assert line[5] != "std::os"[5];
    var pats := OfInterest(true);
    assert pats == OfInterestStd;
    assert pats[..2] == ["std::env", "std::fs"];
    assert LastMatch(line, pats[..2]) == Some("std::fs");
    assert pats[..3][..2] == pats[..2];
    assert LastMatch(line, pats[..3]) == Some("std::fs");
    assert pats[..4][..3] == pats[..3];
    assert LastMatch(line, pats[..4]) == Some("std::fs");
    assert pats[..5][..4] == pats[..4];
    assert LastMatch(line, pats[..5]) == Some("std::fs");
    assert pats[..5] == pats[..|pats| - 1];
  }
}
