/**
 * The MIRAI back end of scan.py: each `Call: ...` line of a call-graph
 * trace is parsed into a frame; the frames between two `Call Path:`
 * markers form a call chain (callee first); each chain becomes one effect.
 *
 * Running MIRAI itself is outside the model: the trace is an input, a
 * sequence of lines.
 */
module Mirai {
  import opened Outcomes
  import opened Strings
  import opened Csv

  /** What `parse_mirai_call_line` returns: `(module, fun, src_dir, file, loc)`. */
  datatype Frame = Frame(modName: string, fun: string, srcDir: string, file: string, loc: string)

  // ----- Normalising and splitting a call line -----

  /** The `replace` chain, `strip` and `split(" ")` at the start of `parse_mirai_call_line`. */
  function CallLineParts(line: string): (r: seq<string>)
    ensures |r| >= 1
  {
    var a := Replace(line, " (", " ");
    var b := Replace(a, "(", " ");
    var c := Replace(b, " ~ ", " ");
    var d := Replace(c, "), ", " ");
    var e := Replace(d, ")", " ");
    var f := Replace(e, ": ", " ");
    SplitOn(Strip(f), " ")
  }

  predicate IsHexDigit(c: char) {
    '0' <= c <= '9' || 'a' <= c <= 'f'
  }

  /** Length of the run of lower-case hex digits at the start of `s`. */
  function HexRun(s: string): (n: nat)
    ensures n <= |s|
    ensures forall i :: 0 <= i < n ==> IsHexDigit(s[i])
    ensures n < |s| ==> !IsHexDigit(s[n])
  {
    if s != [] && IsHexDigit(s[0]) then 1 + HexRun(s[1..]) else 0
  }

  /**
   * `re.sub(r"\[[0-9a-f]*\]", "", s)`: one left-to-right pass; at a '[' the
   * pattern matches exactly when the hex run after it is closed by ']'.
   */
  function StripHexTags(s: string): (r: string)
    ensures |r| <= |s|
    decreases |s|
  {
    if s == [] then []
    else if s[0] == '[' && 1 + HexRun(s[1..]) < |s| && s[1 + HexRun(s[1..])] == ']' then
      StripHexTags(s[2 + HexRun(s[1..])..])
    else [s[0]] + StripHexTags(s[1..])
  }

  /** Text without '[' has no tags to remove. */
  lemma {:induction false} StripHexTagsPlain(s: string)
    requires '[' !in s
    ensures StripHexTags(s) == s
    decreases |s|
  {
    if s != [] {
      StripHexTagsPlain(s[1..]);
    }
  }

  /** Text before the first '[' is kept as it is. */
  lemma {:induction false} StripHexTagsAppend(a: string, b: string)
    requires '[' !in a
    ensures StripHexTags(a + b) == a + StripHexTags(b)
    decreases |a|
  {
    if a != [] {
      var ab := a + b;
      assert ab[0] == a[0];
      StripHexTagsKeep(ab);
      assert ab[1..] == a[1..] + b;
      StripHexTagsAppend(a[1..], b);
      assert StripHexTags(ab) == [a[0]] + (a[1..] + StripHexTags(b));
      HeadThenTail(a);
      assert [a[0]] + (a[1..] + StripHexTags(b)) == ([a[0]] + a[1..]) + StripHexTags(b);
    } else {
      assert a + b == b;
    }
  }

  /** A character other than '[' is kept. */
  lemma StripHexTagsKeep(s: string)
    requires s != [] && s[0] != '['
    ensures StripHexTags(s) == [s[0]] + StripHexTags(s[1..])
  {
  }

  /** A tag `[h]` of hex digits is removed. */
  lemma StripHexTagsTag(h: string, b: string)
    requires forall i :: 0 <= i < |h| ==> IsHexDigit(h[i])
    ensures StripHexTags("[" + h + "]" + b) == StripHexTags(b)
  {
    var s := "[" + h + "]" + b;
    assert s[1..] == h + "]" + b;
    HexRunStops(h, "]" + b);
    assert s[1 + |h|] == ']';
    assert s[2 + |h|..] == b;
  }

  lemma {:induction false} HexRunStops(h: string, rest: string)
    requires forall i :: 0 <= i < |h| ==> IsHexDigit(h[i])
    requires rest != [] && !IsHexDigit(rest[0])
    ensures HexRun(h + rest) == |h|
  {
    if h != [] {
      assert (h + rest)[1..] == h[1..] + rest;
      HexRunStops(h[1..], rest);
    }
  }

  /** `fun.rsplit("::", 1)[0]`. */
  function ModuleOf(fun: string): (r: string)
    ensures |r| <= |fun| && r == fun[..|r|]
  {
    BeforeLast(fun, "::")
  }

  /**
   * The module is the function path without its last `::segment`: the
   * function itself when it holds no `::`, otherwise what precedes the last
   * `::`, after which no further `::` starts.
   */
  lemma ModuleOfSpec(fun: string)
    ensures LastIndexOf(fun, "::").None? ==> ModuleOf(fun) == fun
    ensures LastIndexOf(fun, "::").Some? ==>
      var m := ModuleOf(fun);
      |m| + 2 <= |fun| && fun == m + "::" + fun[|m| + 2..]
      && forall j :: |m| < j ==> !OccursAt(fun, "::", j)
  {
    match LastIndexOf(fun, "::")
    case None =>
    case Some(k) =>
      assert fun[k..k + 2] == "::";
      assert fun == fun[..k] + fun[k..k + 2] + fun[k + 2..];
  }

  /** The location `src/lib.rs:324:20` must split at exactly one '/', and the part after it hold a ':'. */
  predicate LocationOk(location: string) {
    var pieces := SplitOn(location, "/");
    |pieces| == 2 && ':' in pieces[1]
  }

  /** What keeps `parse_mirai_call_line` from raising: a 6-part line has a well-formed location. */
  predicate ParseOk(line: string) {
    var parts := CallLineParts(line);
    |parts| == 6 ==> LocationOk(parts[3])
  }

  /**
   * `src_dir, path = parts[3].split("/")` and `file, loc = path.split(':', 1)`:
   * the directory, the file and the rest of the location. Putting them back
   * together with '/' and ':' gives the location; the file holds no ':'.
   */
  function SplitLocation(location: string): (r: (string, string, string))
    requires LocationOk(location)
    ensures r.0 + "/" + r.1 + ":" + r.2 == location
    ensures ':' !in r.1
  {
    var pieces := SplitOn(location, "/");
    JoinSplitOn(location, "/");
    JoinTwo("/", pieces);
    var path := pieces[1];
    var k := IndexOfChar(path, ':').value;
    CutAt(path, k);
    (pieces[0], path[..k], path[k + 1..])
  }

  lemma JoinTwo(sep: string, parts: seq<string>)
    requires |parts| == 2
    ensures Join(sep, parts) == parts[0] + sep + parts[1]
  {
    assert parts[1..][1..] == [];
  }

  lemma CutAt(s: string, k: nat)
    requires k < |s|
    ensures s == s[..k] + [s[k]] + s[k + 1..]
  {
  }

  /**
   * The part of `parse_mirai_call_line` after the split: the function path
   * without hex tags, its module, and the location cut at the '/' and the
   * first ':'.
   */
  function FrameOfParts(parts: seq<string>): (r: Option<Frame>)
    requires |parts| == 6 ==> LocationOk(parts[3])
    ensures r.None? <==> |parts| != 6
    ensures r.Some? ==> r.value.fun == StripHexTags(parts[2]) && r.value.modName == ModuleOf(r.value.fun)
    ensures r.Some? ==> r.value.srcDir + "/" + r.value.file + ":" + r.value.loc == parts[3] && ':' !in r.value.file
  {
    if |parts| != 6 then None
    else
      var fun := StripHexTags(parts[2]);
      var (dir, file, loc) := SplitLocation(parts[3]);
      Some(Frame(ModuleOf(fun), fun, dir, file, loc))
  }

  /** `parse_mirai_call_line`: None exactly when the normalised line does not have 6 parts. */
  function ParseMiraiCallLine(line: string): (r: Option<Frame>)
    requires ParseOk(line)
    ensures r.None? <==> |CallLineParts(line)| != 6
  {
    FrameOfParts(CallLineParts(line))
  }

  /**
   * A frame `crate[hash]::fun` at `dir/file:line:col` parses to module
   * `crate`, function `crate::fun`, directory `dir`, file `file` and
   * location `line:col`.
   */
  lemma FrameOfPartsShape(p0: string, p1: string, c: string, h: string, fn: string,
                          dir: string, file: string, pos: string, p4: string, p5: string)
    requires forall i :: 0 <= i < |h| ==> IsHexDigit(h[i])
    requires '[' !in c && ':' !in c && '[' !in fn && ':' !in fn && fn != []
    requires '/' !in dir && '/' !in file && ':' !in file && '/' !in pos
    ensures LocationOk(dir + "/" + file + ":" + pos)
    ensures FrameOfParts([p0, p1, c + "[" + h + "]" + "::" + fn, dir + "/" + file + ":" + pos, p4, p5])
      == Some(Frame(c, c + "::" + fn, dir, file, pos))
  {
    LocationShape(dir, file, pos);
    FunShape(c, h, fn);
    LastSeparator(c, fn);
  }

  lemma LocationShape(dir: string, file: string, pos: string)
    requires '/' !in dir && '/' !in file && ':' !in file && '/' !in pos
    ensures LocationOk(dir + "/" + file + ":" + pos)
    ensures SplitLocation(dir + "/" + file + ":" + pos) == (dir, file, pos)
  {
    var path := file + ":" + pos;
    assert '/' !in path;
    SplitOnPeel(dir, "/", path);
    SplitOnSingle(path, "/");
    assert dir + "/" + path == dir + "/" + file + ":" + pos;
    assert path[|file|] == ':';
    assert path[..|file|] == file;
    assert IndexOfChar(path, ':') == Some(|file|);
    assert path[|file| + 1..] == pos;
  }

  lemma FunShape(c: string, h: string, fn: string)
    requires forall i :: 0 <= i < |h| ==> IsHexDigit(h[i])
    requires '[' !in c && '[' !in fn
    ensures StripHexTags(c + "[" + h + "]" + "::" + fn) == c + "::" + fn
  {
    var rest := "::" + fn;
    NoBracketAfterSeparator(fn);
    StripHexTagsPlain(rest);
    StripHexTagsTag(h, rest);
    StripHexTagsAppend(c, "[" + h + "]" + rest);
    Regroup(c, "[", h, "]", "::", fn);
  }

  lemma NoBracketAfterSeparator(fn: string)
    requires '[' !in fn
    ensures '[' !in "::" + fn
  {
  }

  lemma Regroup<T>(a: seq<T>, b: seq<T>, c: seq<T>, d: seq<T>, e: seq<T>, f: seq<T>)
    ensures a + b + c + d + e + f == a + (b + c + d + (e + f))
    ensures a + e + f == a + (e + f)
  {
  }

  /** The last `::` of `c::fn`, when neither piece holds ':', is the one between them. */
  lemma LastSeparator(c: string, fn: string)
    requires ':' !in c && ':' !in fn && fn != []
    ensures ModuleOf(c + "::" + fn) == c
  {
    var s := c + "::" + fn;
    assert OccursAt(s, "::", |c|) by {
      assert s[|c|..|c| + 2] == "::";
    }
    NoLaterSeparator(c, fn);
    var k := LastIndexOf(s, "::").value;
    assert k == |c|;
    assert s[..|c|] == c;
  }

  lemma NoLaterSeparator(c: string, fn: string)
    requires ':' !in fn && fn != []
    ensures forall j :: |c| < j ==> !OccursAt(c + "::" + fn, "::", j)
  {
    var s := c + "::" + fn;
    forall j | |c| < j ensures !OccursAt(s, "::", j) {
      if j + 2 <= |s| {
        assert s[j..j + 2][0] == s[j] && s[j..j + 2][1] == s[j + 1];
        if j == |c| + 1 {
          assert s[j + 1] == fn[0];
        } else {
          assert s[j] == fn[j - |c| - 2];
        }
      }
    }
  }

  /** The first frame of the comments: `num_cpus[1818]::get_num_physical_cpus` at `src/lib.rs:324:20`. */
  lemma NumCpusExample()
    ensures LocationOk("src/lib.rs:324:20")
    ensures FrameOfParts(["DefId", "0:6", "num_cpus[1818]::get_num_physical_cpus", "src/lib.rs:324:20", "324:34", "#0"])
      == Some(Frame("num_cpus", "num_cpus::get_num_physical_cpus", "src", "lib.rs", "324:20"))
  {
    NumCpusFun();
    NumCpusLocation();
    NumCpusModule();
    FrameOfPartsShape("DefId", "0:6", "num_cpus", "1818", "get_num_physical_cpus", "src", "lib.rs", "324:20", "324:34", "#0");
  }

  lemma NumCpusFun()
    ensures "num_cpus" + "[" + "1818" + "]" + "::" + "get_num_physical_cpus" == "num_cpus[1818]::get_num_physical_cpus"
  {
  }

  lemma NumCpusLocation()
    ensures "src" + "/" + "lib.rs" + ":" + "324:20" == "src/lib.rs:324:20"
  {
  }

  lemma NumCpusModule()
    ensures "num_cpus" + "::" + "get_num_physical_cpus" == "num_cpus::get_num_physical_cpus"
  {
  }

  // ----- From a call chain to an effect -----

  /** `pattern`: the first `::`-segment of the module, and `::` plus the second when there is one. */
  function PatternOf(calleeMod: string): string {
    var segs := SplitOn(calleeMod, "::");
    if |segs| >= 2 then segs[0] + "::" + segs[1] else segs[0]
  }

  /** The pattern is a prefix of the module; a module of one segment is its own pattern. */
  lemma PatternOfSpec(calleeMod: string)
    ensures PatternOf(calleeMod) <= calleeMod
    ensures |SplitOn(calleeMod, "::")| == 1 ==> PatternOf(calleeMod) == calleeMod
  {
    var segs := SplitOn(calleeMod, "::");
    JoinSplitOn(calleeMod, "::");
    if |segs| == 1 {
      assert Join("::", segs) == segs[0];
    } else if |segs| == 2 {
      JoinCons(segs[0], segs[1..], "::");
      assert Join("::", segs[1..]) == segs[1];
    } else {
      JoinSplitAt("::", segs, 2);
      JoinCons(segs[0], segs[..2][1..], "::");
      assert Join("::", segs[..2][1..]) == segs[1];
    }
  }

  /** `a::b::rest` has pattern `a::b`; `a::b` has pattern `a::b`; `a` has pattern `a`. */
  lemma PatternOfShapes(a: string, b: string, rest: string)
    requires ':' !in a && ':' !in b
    ensures PatternOf(a + "::" + b + "::" + rest) == a + "::" + b
    ensures PatternOf(a + "::" + b) == a + "::" + b
    ensures PatternOf(a) == a
  {
    SplitOnPeel(a, "::", b + "::" + rest);
    SplitOnPeel(b, "::", rest);
    assert a + "::" + b + "::" + rest == a + "::" + (b + "::" + rest);
    SplitOnPeel(a, "::", b);
    SplitOnSingle(b, "::");
    SplitOnSingle(a, "::");
  }

  /**
   * `mirai_call_path_as_effect` as evidently intended: the callee is frame 0
   * and the caller frame 1; a chain of one frame has an unknown caller.
   */
  function CallPathAsEffect(crate: string, crateDir: string, chain: seq<Frame>): (r: Effect)
    requires |chain| >= 1
    ensures r.crate == crate && r.callee == chain[0].fun && r.file == chain[0].file && r.loc == chain[0].loc
    ensures r.pattern <= chain[0].modName
    ensures r.dir == crateDir + "/" + chain[0].srcDir
    ensures |chain| >= 2 ==> r.modulePath == chain[1].modName && r.caller == chain[1].fun
    ensures |chain| == 1 ==> r.modulePath == "Unknown" && r.caller == "Unknown"
  {
    var callee := chain[0];
    var callerMod := if |chain| > 1 then chain[1].modName else "Unknown";
    var callerFun := if |chain| > 1 then chain[1].fun else "Unknown";
    PatternOfSpec(callee.modName);
    Effect(crate, callerMod, callerFun, callee.fun, PatternOf(callee.modName),
           crateDir + "/" + callee.srcDir, callee.file, callee.loc)
  }

  /** The exceptions the function raises as written. */
  datatype PyError =
    | UnboundCallerModule   // `caller_mod` is read but was never assigned
    | UndefinedSrcDir1      // the warning names `src_dir1`, which does not exist

  /** `mirai_call_path_as_effect` exactly as written, raising where Python would. */
  function CallPathAsEffectAsWritten(crate: string, crateDir: string, chain: seq<Frame>): Result<Effect, PyError>
    requires |chain| >= 1
  {
    if |chain| > 1 then
      if chain[0].srcDir != chain[1].srcDir then Err(UndefinedSrcDir1)
      else
        var callee, caller := chain[0], chain[1];
        Ok(Effect(crate, caller.modName, caller.fun, callee.fun, PatternOf(callee.modName),
                  crateDir + "/" + callee.srcDir, callee.file, callee.loc))
    else Err(UnboundCallerModule)
  }

  /**
   * The function as written returns a value exactly for chains of two or
   * more frames whose first two frames share a source directory, and then
   * agrees with the intended one; it raises on every other chain.
   */
  lemma AsWrittenAgrees(crate: string, crateDir: string, chain: seq<Frame>)
    requires |chain| >= 1
    ensures CallPathAsEffectAsWritten(crate, crateDir, chain).Ok?
      <==> |chain| >= 2 && chain[0].srcDir == chain[1].srcDir
    ensures CallPathAsEffectAsWritten(crate, crateDir, chain).Ok? ==>
      CallPathAsEffectAsWritten(crate, crateDir, chain).value == CallPathAsEffect(crate, crateDir, chain)
  {
  }

  /** A chain of one frame, as the trace yields for a call seen at the top of a path, raises. */
  lemma AsWrittenSingleFrameRaises(crate: string, crateDir: string, f: Frame)
    ensures CallPathAsEffectAsWritten(crate, crateDir, [f]) == Err(UnboundCallerModule)
    ensures CallPathAsEffect(crate, crateDir, [f]).caller == "Unknown"
  {
  }

  /** Callee and caller in different directories: the warning itself raises. */
  lemma AsWrittenDirsDifferRaises(crate: string, crateDir: string, f: Frame, g: Frame)
    requires f.srcDir != g.srcDir
    ensures CallPathAsEffectAsWritten(crate, crateDir, [f, g]) == Err(UndefinedSrcDir1)
    ensures CallPathAsEffect(crate, crateDir, [f, g]).caller == g.fun
  {
  }

  // ----- The line loop of scan_crate_mirai -----

  /** How the loop reads a line, after stripping it. */
  datatype LineKind =
    | NewFn                  // "~~~New Fn~~~~~": ignored
    | CallPathMarker         // "Call Path:": closes the current chain
    | CallLine(rest: string) // "Call: " followed by a frame
    | Unrecognised           // anything else: a warning

  /**
   * A line is read as bytes, stripped of ASCII whitespace, then decoded; no
   * byte of a multi-byte UTF-8 sequence is ASCII, so stripping the decoded
   * characters of ASCII whitespace removes the same text.
   */
  function Classify(raw: string): LineKind {
    var l := StripBytes(raw);
    if l == "~~~New Fn~~~~~" then NewFn
    else if l == "Call Path:" then CallPathMarker
    else if StartsWith(l, "Call: ") then CallLine(l[6..])
    else Unrecognised
  }

  /** A `Call: ` line must not make the parser raise. */
  predicate CallLineOk(raw: string) {
    Classify(raw).CallLine? ==> ParseOk(Classify(raw).rest)
  }

  predicate TraceOk(lines: seq<string>) {
    forall i :: 0 <= i < |lines| ==> CallLineOk(lines[i])
  }

  /** The chains closed so far, and the frames of the chain still open. */
  datatype TraceState = TraceState(chains: seq<seq<Frame>>, pending: seq<Frame>)

  /** The frame a line contributes, if any. */
  function LineFrame(raw: string): Option<Frame>
    requires CallLineOk(raw)
  {
    match Classify(raw)
    case CallLine(rest) => ParseMiraiCallLine(rest)
    case _ => None
  }

  /** One iteration of the line loop. */
  function TraceStep(st: TraceState, raw: string): TraceState
    requires CallLineOk(raw)
  {
    match Classify(raw)
    case CallPathMarker =>
      TraceState(if st.pending != [] then st.chains + [st.pending] else st.chains, [])
    case CallLine(rest) =>
      (match ParseMiraiCallLine(rest)
       case Some(f) => st.(pending := st.pending + [f])
       case None => st)
    case _ => st
  }

  function TraceRun(lines: seq<string>): TraceState
    requires TraceOk(lines)
  {
    if lines == [] then TraceState([], [])
    else TraceStep(TraceRun(lines[..|lines| - 1]), lines[|lines| - 1])
  }

  /** The chains the loop turns into effects: the closed ones, then the open one if it is non-empty. */
  function AllChains(st: TraceState): seq<seq<Frame>> {
    st.chains + if st.pending != [] then [st.pending] else []
  }

  /** Every frame parsed from the trace, in order. */
  function ParsedFrames(lines: seq<string>): seq<Frame>
    requires TraceOk(lines)
  {
    if lines == [] then []
    else
      var last := lines[|lines| - 1];
      ParsedFrames(lines[..|lines| - 1]) + FrameList(LineFrame(last))
  }

  predicate NonEmptyChains(chains: seq<seq<Frame>>) {
    forall i :: 0 <= i < |chains| ==> |chains[i]| > 0
  }

  /** One effect per chain, in order. */
  function EffectsOf(crate: string, crateDir: string, chains: seq<seq<Frame>>): seq<Effect>
    requires NonEmptyChains(chains)
  {
    if chains == [] then []
    else EffectsOf(crate, crateDir, chains[..|chains| - 1]) + [CallPathAsEffect(crate, crateDir, chains[|chains| - 1])]
  }

  lemma TraceRunUnfold(lines: seq<string>, i: nat)
    requires TraceOk(lines) && i < |lines|
    ensures TraceOk(lines[..i]) && TraceOk(lines[..i + 1])
    ensures TraceRun(lines[..i + 1]) == TraceStep(TraceRun(lines[..i]), lines[i])
    ensures ParsedFrames(lines[..i + 1]) == ParsedFrames(lines[..i]) + FrameList(LineFrame(lines[i]))
  {
    assert lines[..i + 1][..i] == lines[..i];
  }

  function FrameList(f: Option<Frame>): seq<Frame> {
    match f
    case Some(x) => [x]
    case None => []
  }

  /** One iteration keeps chains non-empty and appends the line's frame, if any, to the frames seen. */
  lemma TraceStepSpec(st: TraceState, raw: string)
    requires CallLineOk(raw) && NonEmptyChains(st.chains)
    ensures NonEmptyChains(TraceStep(st, raw).chains)
    ensures Flatten(TraceStep(st, raw).chains) + TraceStep(st, raw).pending
      == Flatten(st.chains) + st.pending + FrameList(LineFrame(raw))
  {
    var k := Classify(raw);
    if k.CallPathMarker? {
      assert LineFrame(raw) == None;
      if st.pending != [] {
        FlattenSnoc(st.chains, st.pending);
      }
    } else {
      NoMarkerKeepsChains(st, raw);
      assert Flatten(st.chains) + (st.pending + FrameList(LineFrame(raw)))
          == Flatten(st.chains) + st.pending + FrameList(LineFrame(raw));
    }
  }

  lemma NoMarkerKeepsChains(st: TraceState, raw: string)
    requires CallLineOk(raw) && !Classify(raw).CallPathMarker?
    ensures TraceStep(st, raw) == TraceState(st.chains, st.pending + FrameList(LineFrame(raw)))
  {
    var k := Classify(raw);
    if k.CallLine? {
      var f := ParseMiraiCallLine(k.rest);
      assert LineFrame(raw) == f;
      if f.Some? {
        assert TraceStep(st, raw) == st.(pending := st.pending + [f.value]);
      } else {
        assert TraceStep(st, raw) == st;
        assert st.pending + [] == st.pending;
      }
    } else {
      assert LineFrame(raw) == None;
      assert TraceStep(st, raw) == st;
      assert st.pending + [] == st.pending;
    }
  }

  /**
   * The loop loses and reorders no parsed frame: the closed chains followed
   * by the open one are exactly the parsed frames, and no closed chain is
   * empty.
   */
  lemma {:induction false} TraceRunSpec(lines: seq<string>)
    requires TraceOk(lines)
    ensures NonEmptyChains(TraceRun(lines).chains)
    ensures Flatten(TraceRun(lines).chains) + TraceRun(lines).pending == ParsedFrames(lines)
  {
    if lines != [] {
      var n := |lines| - 1;
      assert lines[..n + 1] == lines;
      TraceRunUnfold(lines, n);
      TraceRunSpec(lines[..n]);
      TraceStepSpec(TraceRun(lines[..n]), lines[n]);
    }
  }

  /** Every chain handed on is non-empty, and together they hold every parsed frame, in order. */
  lemma AllChainsSpec(lines: seq<string>)
    requires TraceOk(lines)
    ensures NonEmptyChains(AllChains(TraceRun(lines)))
    ensures Flatten(AllChains(TraceRun(lines))) == ParsedFrames(lines)
  {
    TraceRunSpec(lines);
    AllChainsOf(TraceRun(lines));
  }

  lemma AllChainsOf(st: TraceState)
    requires NonEmptyChains(st.chains)
    ensures NonEmptyChains(AllChains(st))
    ensures Flatten(AllChains(st)) == Flatten(st.chains) + st.pending
  {
    if st.pending != [] {
      FlattenSnoc(st.chains, st.pending);
    } else {
      assert AllChains(st) == st.chains;
    }
  }

  /** The parts of a checked trace are checked. */
  lemma TraceOkParts(a: seq<string>, m: string, b: seq<string>)
    requires TraceOk(a + [m] + b)
    ensures TraceOk(a) && CallLineOk(m) && TraceOk(b) && TraceOk(a + [m])
  {
    var all := a + [m] + b;
    forall i | 0 <= i < |a| ensures CallLineOk(a[i]) {
      assert all[i] == a[i];
    }
    assert all[|a|] == m;
    forall i | 0 <= i < |b| ensures CallLineOk(b[i]) {
      assert all[|a| + 1 + i] == b[i];
    }
    forall i | 0 <= i < |a| + 1 ensures CallLineOk((a + [m])[i]) {
      assert (a + [m])[i] == all[i];
    }
  }

  lemma TraceOkPrefix(lines: seq<string>, k: nat)
    requires TraceOk(lines) && k <= |lines|
    ensures TraceOk(lines[..k])
  {
    forall i | 0 <= i < k ensures CallLineOk(lines[..k][i]) {
      assert lines[..k][i] == lines[i];
    }
  }

  /** A step does not look at the chains already closed. */
  lemma TraceStepShift(closed: seq<seq<Frame>>, st: TraceState, raw: string)
    requires CallLineOk(raw)
    ensures TraceStep(TraceState(closed + st.chains, st.pending), raw)
         == TraceState(closed + TraceStep(st, raw).chains, TraceStep(st, raw).pending)
  {
    match Classify(raw)
    case CallPathMarker =>
      assert closed + st.chains + [st.pending] == closed + (st.chains + [st.pending]);
    case _ =>
  }

  /** After a state with no open chain, the loop goes on as if from the start, behind the closed chains. */
  lemma {:induction false} TraceRunShift(p: seq<string>, b: seq<string>, closed: seq<seq<Frame>>)
    requires TraceOk(p) && TraceOk(b) && TraceOk(p + b)
    requires TraceRun(p) == TraceState(closed, [])
    ensures TraceRun(p + b) == TraceState(closed + TraceRun(b).chains, TraceRun(b).pending)
    decreases |b|
  {
    if b == [] {
      assert p + b == p;
    } else {
      var n := |b| - 1;
      var b0 := b[..n];
      TraceOkPrefix(b, n);
      TraceOkPrefix(p + b, |p| + n);
      assert (p + b)[..|p| + n] == p + b0;
      TraceRunShift(p, b0, closed);
      TraceStepShift(closed, TraceRun(b0), b[n]);
      assert (p + b)[..|p + b| - 1] == p + b0 && (p + b)[|p + b| - 1] == b[n];
    }
  }

  /**
   * Without a `Call Path:` line the trace is one chain: the loop hands on
   * all its parsed frames together, or nothing when there are none.
   */
  lemma {:induction false} NoMarkerOneChain(lines: seq<string>)
    requires TraceOk(lines)
    requires forall i :: 0 <= i < |lines| ==> !Classify(lines[i]).CallPathMarker?
    ensures AllChains(TraceRun(lines)) == (if ParsedFrames(lines) == [] then [] else [ParsedFrames(lines)])
  {
    NoMarkerRun(lines);
  }

  lemma {:induction false} NoMarkerRun(lines: seq<string>)
    requires TraceOk(lines)
    requires forall i :: 0 <= i < |lines| ==> !Classify(lines[i]).CallPathMarker?
    ensures TraceRun(lines) == TraceState([], ParsedFrames(lines))
  {
    if lines != [] {
      var n := |lines| - 1;
      assert lines[..n + 1] == lines;
      TraceRunUnfold(lines, n);
      forall i | 0 <= i < n ensures !Classify(lines[..n][i]).CallPathMarker? {
        assert lines[..n][i] == lines[i];
      }
      NoMarkerRun(lines[..n]);
      NoMarkerKeepsChains(TraceRun(lines[..n]), lines[n]);
    }
  }

  lemma MarkerCloses(st: TraceState, m: string)
    requires Classify(m).CallPathMarker?
    ensures CallLineOk(m) && TraceStep(st, m) == TraceState(AllChains(st), [])
  {
    if st.pending == [] {
      assert st.chains + [] == st.chains;
    }
  }

  /**
   * A `Call Path:` line closes the chain open before it: the chains of the
   * whole trace are those of the text before the marker followed by those
   * of the text after it.
   */
  lemma MarkerSplits(a: seq<string>, m: string, b: seq<string>)
    requires Classify(m).CallPathMarker?
    requires TraceOk(a + [m] + b)
    ensures TraceOk(a) && TraceOk(b)
    ensures AllChains(TraceRun(a + [m] + b)) == AllChains(TraceRun(a)) + AllChains(TraceRun(b))
  {
    TraceOkParts(a, m, b);
    var p := a + [m];
    assert p[..|p| - 1] == a && p[|p| - 1] == m;
    var closed := AllChains(TraceRun(a));
    MarkerCloses(TraceRun(a), m);
    assert a + [m] + b == p + b;
    TraceRunShift(p, b, closed);
    var rb := TraceRun(b);
    var tail: seq<seq<Frame>> := if rb.pending != [] then [rb.pending] else [];
    assert closed + rb.chains + tail == closed + (rb.chains + tail);
  }

  lemma EffectsOfSnoc(crate: string, crateDir: string, chains: seq<seq<Frame>>, chain: seq<Frame>)
    requires NonEmptyChains(chains) && |chain| > 0
    ensures NonEmptyChains(chains + [chain])
    ensures EffectsOf(crate, crateDir, chains + [chain]) == EffectsOf(crate, crateDir, chains) + [CallPathAsEffect(crate, crateDir, chain)]
  {
    assert (chains + [chain])[..|chains|] == chains;
  }

  /** As many effects as chains, effect `i` built from chain `i`. */
  lemma {:induction false} EffectsOfSpec(crate: string, crateDir: string, chains: seq<seq<Frame>>)
    requires NonEmptyChains(chains)
    ensures |EffectsOf(crate, crateDir, chains)| == |chains|
    ensures forall i :: 0 <= i < |chains| ==> EffectsOf(crate, crateDir, chains)[i] == CallPathAsEffect(crate, crateDir, chains[i])
  {
    if chains != [] {
      var init := chains[..|chains| - 1];
      var last := chains[|chains| - 1];
      EffectsOfSpec(crate, crateDir, init);
      assert chains == init + [last];
      EffectsOfSnoc(crate, crateDir, init, last);
      var r := EffectsOf(crate, crateDir, chains);
      forall i | 0 <= i < |chains| ensures r[i] == CallPathAsEffect(crate, crateDir, chains[i]) {
        if i < |init| {
          assert init[i] == chains[i];
        }
      }
    }
  }

  /**
   * The line loop of `scan_crate_mirai` over a trace: one effect per
   * non-empty chain, closed by a `Call Path:` line or by the end of the trace
   * (`NoMarkerOneChain`, `MarkerSplits`). Each chain goes through the
   * corrected `CallPathAsEffect`, not the conversion as written.
   */
  method ScanTrace(crate: string, crateDir: string, lines: seq<string>) returns (effects: seq<Effect>)
    requires TraceOk(lines)
    ensures NonEmptyChains(AllChains(TraceRun(lines)))
    ensures effects == EffectsOf(crate, crateDir, AllChains(TraceRun(lines)))
  {
    effects := [];
    var callPath: seq<Frame> := [];
    ghost var chains: seq<seq<Frame>> := [];
    for i := 0 to |lines|
      invariant TraceOk(lines[..i])
      invariant TraceRun(lines[..i]) == TraceState(chains, callPath)
      invariant NonEmptyChains(chains)
      invariant effects == EffectsOf(crate, crateDir, chains)
    {
      TraceRunUnfold(lines, i);
      var line := StripBytes(lines[i]);
      if line == "~~~New Fn~~~~~" {
      } else if line == "Call Path:" {
        if callPath != [] {
          EffectsOfSnoc(crate, crateDir, chains, callPath);
          effects := effects + [CallPathAsEffect(crate, crateDir, callPath)];
          chains := chains + [callPath];
        }
        callPath := [];
      } else if StartsWith(line, "Call: ") {
        var result := ParseMiraiCallLine(line[6..]);
        if result.Some? {
          callPath := callPath + [result.value];
        }
      }
    }
    assert lines[..|lines|] == lines;
    if callPath != [] {
      EffectsOfSnoc(crate, crateDir, chains, callPath);
      effects := effects + [CallPathAsEffect(crate, crateDir, callPath)];
    } else {
      assert AllChains(TraceRun(lines)) == chains;
    }
  }
}
