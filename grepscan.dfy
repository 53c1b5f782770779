/**
 * The grep-like back end of scan.py: a `use` statement becomes one effect
 * per imported path that matches the watchlist (`scan_use`), and a Rust
 * file is cut into statement chunks that each end once a ';' has been seen
 * (`scan_rs`, `scan_file`).
 *
 * The regular expressions that strip comments from a chunk and select the
 * `use` statement in it are parameters of the model (`clean` and `select`).
 */
module GrepScan {
  import opened Outcomes
  import opened Strings
  import opened Sorting
  import opened Csv
  import opened Watchlist
  import opened UseParser

  /** The effect `scan_use` yields for an import path that matched pattern `pat`. */
  function UseEffect(crate: string, root: string, file: string, pat: string): Effect {
    Effect(crate, "Unknown", "Unknown", "Unknown", pat, root, file, "Unknown")
  }

  /** The effects for a list of parsed import paths: one per path with a watchlist match, in order. */
  function PathEffects(crate: string, root: string, file: string, paths: seq<string>, ofInterest: seq<string>): (r: seq<Effect>)
    ensures |r| <= |paths|
    ensures forall i :: 0 <= i < |r| ==> r[i].crate == crate && r[i].dir == root && r[i].file == file && r[i].pattern in ofInterest
  {
    if paths == [] then []
    else
      var rest := PathEffects(crate, root, file, paths[1..], ofInterest);
      match LastMatch(paths[0], ofInterest)
      case None => rest
      case Some(pat) => [UseEffect(crate, root, file, pat)] + rest
  }

  /** The number of paths with at least one watchlist match. */
  function MatchedPaths(paths: seq<string>, ofInterest: seq<string>): nat {
    if paths == [] then 0
    else (if LastMatch(paths[0], ofInterest).Some? then 1 else 0) + MatchedPaths(paths[1..], ofInterest)
  }

  /** `scan_use`: parse the statement, then keep the paths that match the watchlist. */
  function ScanUse(crate: string, root: string, file: string, useExpr: string, ofInterest: seq<string>): (r: seq<Effect>)
    requires |useExpr| > 0
    ensures |r| <= |ParseUse(useExpr).0|
    ensures forall i :: 0 <= i < |r| ==> r[i].crate == crate && r[i].dir == root && r[i].file == file && r[i].pattern in ofInterest
  {
    PathEffects(crate, root, file, ParseUse(useExpr).0, ofInterest)
  }

  /**
   * One effect per matching path; each names the scanned crate, directory
   * and file, has "Unknown" for the fields the grep back end cannot know,
   * and carries a watchlist entry that occurs in one of the paths.
   */
  lemma {:induction false} PathEffectsSpec(crate: string, root: string, file: string, paths: seq<string>, ofInterest: seq<string>)
    ensures |PathEffects(crate, root, file, paths, ofInterest)| == MatchedPaths(paths, ofInterest) <= |paths|
    ensures forall e :: e in PathEffects(crate, root, file, paths, ofInterest) ==>
      e.crate == crate && e.dir == root && e.file == file
      && e.modulePath == "Unknown" && e.caller == "Unknown" && e.callee == "Unknown" && e.loc == "Unknown"
      && e.pattern in ofInterest
      && exists i :: 0 <= i < |paths| && Contains(paths[i], e.pattern)
  {
    if paths != [] {
      var rest := PathEffects(crate, root, file, paths[1..], ofInterest);
      PathEffectsSpec(crate, root, file, paths[1..], ofInterest);
      LastMatchSpec(paths[0], ofInterest);
      forall e | e in PathEffects(crate, root, file, paths, ofInterest)
        ensures e.pattern in ofInterest && exists i :: 0 <= i < |paths| && Contains(paths[i], e.pattern)
      {
        if e in rest {
          var i :| 0 <= i < |paths[1..]| && Contains(paths[1..][i], e.pattern);
          assert paths[1..][i] == paths[i + 1];
        } else {
          var pat := LastMatch(paths[0], ofInterest).value;
          var k :| 0 <= k < |ofInterest| && ofInterest[k] == pat && Contains(paths[0], ofInterest[k])
            && forall j :: k < j < |ofInterest| ==> !Contains(paths[0], ofInterest[j]);
          assert Contains(paths[0], e.pattern);
        }
      }
    }
  }

  /**
   * Effects follow the paths in order: on a concatenation of path lists the
   * effects are concatenated, so with `PathEffectsSingle` effect k is the one
   * for the last watchlist match of the k-th matching path.
   */
  lemma {:induction false} PathEffectsConcat(crate: string, root: string, file: string, a: seq<string>, b: seq<string>, ofInterest: seq<string>)
    ensures PathEffects(crate, root, file, a + b, ofInterest)
         == PathEffects(crate, root, file, a, ofInterest) + PathEffects(crate, root, file, b, ofInterest)
  {
    if a == [] {
      assert a + b == b;
    } else {
      assert (a + b)[0] == a[0] && (a + b)[1..] == a[1..] + b;
      PathEffectsConcat(crate, root, file, a[1..], b, ofInterest);
    }
  }

  /** A path that matches no watchlist entry yields nothing. */
  lemma {:induction false} PathEffectsNone(crate: string, root: string, file: string, paths: seq<string>, ofInterest: seq<string>)
    requires forall i, j :: 0 <= i < |paths| && 0 <= j < |ofInterest| ==> !Contains(paths[i], ofInterest[j])
    ensures PathEffects(crate, root, file, paths, ofInterest) == []
  {
    if paths != [] {
      LastMatchSpec(paths[0], ofInterest);
      assert forall j :: 0 <= j < |ofInterest| ==> !Contains(paths[0], ofInterest[j]);
      PathEffectsNone(crate, root, file, paths[1..], ofInterest);
    }
  }

  /** A malformed statement yields no effect. */
  lemma ScanUseRejects(crate: string, root: string, file: string, useExpr: string, ofInterest: seq<string>)
    requires |useExpr| > 0 && !WellFormedUse(useExpr)
    ensures ScanUse(crate, root, file, useExpr, ofInterest) == []
  {
    ParseUseRejects(useExpr);
  }

  /**
   * `use x;` for a path without braces or commas yields exactly one effect
   * when the stripped path matches the watchlist, and none otherwise.
   */
  lemma ScanUseSinglePath(crate: string, root: string, file: string, x: string, ofInterest: seq<string>)
    requires ';' !in x && '/' !in x && '\n' !in x && NoGroupChars(x)
    ensures ScanUse(crate, root, file, "use " + x + ";\n", ofInterest)
      == match LastMatch(Strip(x), ofInterest)
         case None => []
         case Some(pat) => [UseEffect(crate, root, file, pat)]
  {
    var y := Strip(x);
    ParseUseOfBody(x);
    ExpandUsePlain(x);
    SortSingle(y);
    PathEffectsSingle(crate, root, file, y, ofInterest);
  }

  lemma SortSingle(y: string)
    ensures SortStrings([y]) == [y]
  {
    assert [y][1..] == [];
  }

  /** A single path gives the effect of its last watchlist match, or none. */
  lemma PathEffectsSingle(crate: string, root: string, file: string, y: string, ofInterest: seq<string>)
    ensures PathEffects(crate, root, file, [y], ofInterest)
      == match LastMatch(y, ofInterest)
         case None => []
         case Some(pat) => [UseEffect(crate, root, file, pat)]
  {
    assert [y][1..] == [];
    assert PathEffects(crate, root, file, [], ofInterest) == [];
  }

  // ----- scan_rs: cutting a file into statement chunks -----

  /**
   * The chunking of `scan_rs` over the lines read so far: the chunks handed
   * on (before cleaning) and the text still buffered.
   */
  function ChunkRun(lines: seq<string>): (seq<string>, string) {
    if lines == [] then ([], "")
    else
      var (chunks, curr) := ChunkRun(lines[..|lines| - 1]);
      var next := curr + lines[|lines| - 1];
      if ';' in next then (chunks + [next], "") else (chunks, next)
  }

  /** Apply the comment-stripping step to every chunk. */
  function MapClean(clean: string -> string, chunks: seq<string>): seq<string> {
    if chunks == [] then [] else MapClean(clean, chunks[..|chunks| - 1]) + [clean(chunks[|chunks| - 1])]
  }

  /**
   * Chunking loses nothing and reorders nothing: the chunks followed by the
   * buffer spell out the input; every chunk holds a ';' and the buffer
   * holds none, so text after the last ';' is never handed on.
   */
  lemma {:induction false} ChunkRunSpec(lines: seq<string>)
    ensures Flatten(ChunkRun(lines).0) + ChunkRun(lines).1 == Flatten(lines)
    ensures forall i :: 0 <= i < |ChunkRun(lines).0| ==> ';' in ChunkRun(lines).0[i]
    ensures ';' !in ChunkRun(lines).1
  {
    if lines != [] {
      var init := lines[..|lines| - 1];
      var line := lines[|lines| - 1];
      ChunkRunSpec(init);
      ChunkRunUnfold(lines);
      FlattenUnfold(lines);
      var (chunks, curr) := ChunkRun(init);
      if ';' in curr + line {
        FlattenSnoc(chunks, curr + line);
        AppendEmpty(Flatten(chunks + [curr + line]));
        Associate(Flatten(chunks), curr, line);
        ChunksSnoc(chunks, curr + line);
      } else {
        Associate(Flatten(chunks), curr, line);
      }
    }
  }

  lemma ChunkRunUnfold(lines: seq<string>)
    requires lines != []
    ensures ChunkRun(lines) ==
      var (chunks, curr) := ChunkRun(lines[..|lines| - 1]);
      var next := curr + lines[|lines| - 1];
      if ';' in next then (chunks + [next], "") else (chunks, next)
  {
  }

  lemma AppendEmpty(s: string)
    ensures s + "" == s
  {
  }

  lemma Associate(a: string, b: string, c: string)
    ensures a + (b + c) == a + b + c
  {
  }

  lemma ChunksSnoc(chunks: seq<string>, next: string)
    requires forall i :: 0 <= i < |chunks| ==> ';' in chunks[i]
    requires ';' in next
    ensures forall i :: 0 <= i < |chunks + [next]| ==> ';' in (chunks + [next])[i]
  {
  }

  lemma ChunkRunSnoc(lines: seq<string>, i: nat)
    requires i < |lines|
    ensures ChunkRun(lines[..i + 1]) ==
      var (chunks, curr) := ChunkRun(lines[..i]);
      if ';' in curr + lines[i] then (chunks + [curr + lines[i]], "") else (chunks, curr + lines[i])
  {
    assert lines[..i + 1][..i] == lines[..i];
  }

  lemma MapCleanSnoc(clean: string -> string, chunks: seq<string>, c: string)
    ensures MapClean(clean, chunks + [c]) == MapClean(clean, chunks) + [clean(c)]
  {
    assert (chunks + [c])[..|chunks|] == chunks;
  }

  /** `scan_rs` over the lines of a file: the cleaned chunks, in order. */
  method ScanRs(lines: seq<string>, clean: string -> string) returns (exprs: seq<string>)
    ensures exprs == MapClean(clean, ChunkRun(lines).0)
  {
    exprs := [];
    var curr := "";
    for i := 0 to |lines|
      invariant (MapClean(clean, ChunkRun(lines[..i]).0), ChunkRun(lines[..i]).1) == (exprs, curr)
    {
      ChunkRunSnoc(lines, i);
      MapCleanSnoc(clean, ChunkRun(lines[..i]).0, curr + lines[i]);
      curr := curr + lines[i];
      if ';' in curr {
        exprs := exprs + [clean(curr)];
        curr := "";
      }
    }
    assert lines[..|lines|] == lines;
  }

  /**
   * `scan_file` over the cleaned chunks: `select` stands for the
   * `re.fullmatch` that picks the `use` statement out of a chunk (the
   * pattern always captures a non-empty text; an empty one is skipped).
   */
  function ScanChunks(crate: string, root: string, file: string, exprs: seq<string>,
                      select: string -> Option<string>, ofInterest: seq<string>): (r: seq<Effect>)
    ensures forall i :: 0 <= i < |r| ==> r[i].crate == crate && r[i].dir == root && r[i].file == file && r[i].pattern in ofInterest
  {
    if exprs == [] then []
    else
      var rest := ScanChunks(crate, root, file, exprs[1..], select, ofInterest);
      match select(exprs[0])
      case Some(u) => (if |u| > 0 then ScanUse(crate, root, file, u, ofInterest) else []) + rest
      case None => rest
  }

  /** Every effect of a file names the crate, directory and file scanned, and a watchlist entry. */
  lemma {:induction false} ScanChunksSpec(crate: string, root: string, file: string, exprs: seq<string>,
                                          select: string -> Option<string>, ofInterest: seq<string>)
    ensures forall e :: e in ScanChunks(crate, root, file, exprs, select, ofInterest) ==>
      e.crate == crate && e.dir == root && e.file == file && e.pattern in ofInterest
  {
    if exprs != [] {
      ScanChunksSpec(crate, root, file, exprs[1..], select, ofInterest);
      match select(exprs[0])
      case Some(u) =>
        if |u| > 0 {
          PathEffectsSpec(crate, root, file, ParseUse(u).0, ofInterest);
        }
      case None =>
    }
  }

  /** Chunks the selector rejects contribute nothing. */
  lemma {:induction false} ScanChunksNone(crate: string, root: string, file: string, exprs: seq<string>,
                                          select: string -> Option<string>, ofInterest: seq<string>)
    requires forall i :: 0 <= i < |exprs| ==> select(exprs[i]).None?
    ensures ScanChunks(crate, root, file, exprs, select, ofInterest) == []
  {
    if exprs != [] {
      assert select(exprs[0]).None?;
      ScanChunksNone(crate, root, file, exprs[1..], select, ofInterest);
    }
  }
}
