/**
 * The bookkeeping of scanner.rs: the lines-of-code counters, the scan
 * results (effects, effect blocks, function declarations and the call
 * graph), the attribute filter, and the scope discipline the scanner keeps
 * while it walks functions, unsafe blocks and calls.
 *
 * The syntax walk itself is reduced to a nesting tree (`Item`, `Stmt`)
 * whose call and effect leaves carry what name resolution answered for
 * them. `ScanItemOn` and friends are the walk as a function of the scanner
 * state; the `Scanner` class performs the same walk in place and is proved
 * to agree with them.
 */
module Scanner {
  import opened Outcomes
  import opened Strings

  // ----- Lines of code -----

  /** `LoCTracker`: how many spans were added and how many lines they cover. */
  class LoCTracker {
    var instances: nat
    var lines: nat
    var zeroSizeLines: nat

    /** Every span that is not on one line covers at least one line, and only those add lines. */
    ghost predicate Valid()
      reads this
    {
      zeroSizeLines <= instances && instances - zeroSizeLines <= lines
      && (lines == 0 <==> instances == zeroSizeLines)
    }

    constructor ()
      ensures Valid() && instances == 0 && lines == 0 && zeroSizeLines == 0
    {
      instances, lines, zeroSizeLines := 0, 0, 0;
    }

    /** `add`: one more span, from line `start` to line `end`. */
    method Add(start: nat, end: nat)
      requires Valid() && start <= end
      modifies this
      ensures Valid()
      ensures instances == old(instances) + 1
      ensures start == end ==> zeroSizeLines == old(zeroSizeLines) + 1 && lines == old(lines)
      ensures start != end ==> lines == old(lines) + (end - start) && zeroSizeLines == old(zeroSizeLines)
    {
      instances := instances + 1;
      if start == end {
        zeroSizeLines := zeroSizeLines + 1;
      } else {
        lines := lines + (end - start);
      }
    }

    /** `is_empty`: no span was added, and then the line count is zero too. */
    function IsEmpty(): (r: bool)
      requires Valid()
      reads this
      ensures r <==> instances == 0
      ensures r ==> AsLoc() == 0
    {
      instances == 0
    }

    /** `as_loc`: an over-approximation that counts every span at least once. */
    function AsLoc(): (r: nat)
      requires Valid()
      reads this
      ensures r >= instances
      ensures r == 0 <==> instances == 0
    {
      lines + zeroSizeLines
    }
  }

  // ----- Paths, locations and effects -----

  /** A canonical path, as its `::`-separated segments. */
  type CanonicalPath = seq<string>

  /** `pop_ident`: the path of the enclosing module or type. */
  function PopIdent(p: CanonicalPath): CanonicalPath {
    if p == [] then [] else p[..|p| - 1]
  }

  datatype SrcLoc = SrcLoc(file: string, line: nat, col: nat)

  datatype Visibility = Public | Private

  datatype FnDec = FnDec(fnName: CanonicalPath, vis: Visibility, srcLoc: SrcLoc)

  /** What an effect instance records: a call (with what resolution said about it) or another effect. */
  datatype EffectType =
    | Call(isUnsafe: bool, ffi: Option<CanonicalPath>)
    | FnPtrCreation
    | ClosureCreation
    | StaticMut(path: CanonicalPath)
    | StaticExt(path: CanonicalPath)
    | RawPointer(path: CanonicalPath)
    | UnionField(path: CanonicalPath)

  datatype EffectInstance = EffectInstance(caller: CanonicalPath, callee: CanonicalPath, loc: SrcLoc, eff: EffectType)

  datatype BlockType = UnsafeExpr | UnsafeFn | NormalFn

  /** The effects found directly in a function body or an unsafe block. */
  datatype EffectBlock = EffectBlock(blockType: BlockType, containingFn: CanonicalPath, loc: SrcLoc, effects: seq<EffectInstance>)

  datatype Edge = Edge(from: nat, to: nat, loc: SrcLoc)

  /** The state of `ScanResults` this model keeps; the call graph is its node list, index map and edge list. */
  datatype Results = Results(
    effects: seq<EffectInstance>,
    effectBlocks: seq<EffectBlock>,
    pubFns: set<CanonicalPath>,
    fnLocs: map<CanonicalPath, SrcLoc>,
    nodes: seq<CanonicalPath>,
    nodeIdxs: map<CanonicalPath, nat>,
    edges: seq<Edge>)

  /** Every index in the map names a node carrying that path, and every edge joins two nodes. */
  predicate GraphValid(r: Results) {
    (forall k :: k in r.nodeIdxs ==> r.nodeIdxs[k] < |r.nodes| && r.nodes[r.nodeIdxs[k]] == k)
    && (forall i :: 0 <= i < |r.edges| ==> r.edges[i].from < |r.nodes| && r.edges[i].to < |r.nodes|)
  }

  const EmptyResults := Results([], [], {}, map[], [], map[], [])

  /**
   * `add_fn_dec`: a new graph node for the function, which its name now
   * indexes; a public function joins `pub_fns`; its location is recorded.
   */
  function AddFnDecTo(r: Results, f: FnDec): (r': Results)
    ensures GraphValid(r) ==> GraphValid(r')
    ensures r'.nodes == r.nodes + [f.fnName] && f.fnName in r'.nodeIdxs && r'.nodeIdxs[f.fnName] == |r.nodes|
    ensures forall k :: k != f.fnName ==> (k in r'.nodeIdxs <==> k in r.nodeIdxs) && (k in r.nodeIdxs ==> r'.nodeIdxs[k] == r.nodeIdxs[k])
    ensures r'.pubFns == (if f.vis.Public? then r.pubFns + {f.fnName} else r.pubFns)
    ensures f.fnName in r'.fnLocs && r'.fnLocs[f.fnName] == f.srcLoc
    ensures r'.effects == r.effects && r'.effectBlocks == r.effectBlocks && r'.edges == r.edges
  {
    r.(nodes := r.nodes + [f.fnName],
       nodeIdxs := r.nodeIdxs[f.fnName := |r.nodes|],
       pubFns := if f.vis.Public? then r.pubFns + {f.fnName} else r.pubFns,
       fnLocs := r.fnLocs[f.fnName := f.srcLoc])
  }

  /** The call-graph part of `push_callsite`: an edge only when both ends are declared functions. */
  function AddEdgeTo(r: Results, caller: CanonicalPath, callee: CanonicalPath, loc: SrcLoc): (r': Results)
    ensures GraphValid(r) ==> GraphValid(r')
    ensures caller in r.nodeIdxs && callee in r.nodeIdxs ==> r'.edges == r.edges + [Edge(r.nodeIdxs[caller], r.nodeIdxs[callee], loc)]
    ensures !(caller in r.nodeIdxs && callee in r.nodeIdxs) ==> r' == r
    ensures r'.(edges := r.edges) == r
  {
    if caller in r.nodeIdxs && callee in r.nodeIdxs then
      r.(edges := r.edges + [Edge(r.nodeIdxs[caller], r.nodeIdxs[callee], loc)])
    else r
  }

  /** `get_callers`: the recorded effects whose callee is the given path. */
  function Callers(r: Results, callee: CanonicalPath): set<EffectInstance> {
    set e | e in r.effects && e.callee == callee
  }

  /** `unsafe_effect_blocks_set`: the saved blocks of an unsafe expression or an unsafe function. */
  function UnsafeBlocks(r: Results): (s: set<EffectBlock>)
    ensures forall b :: b in s <==> b in r.effectBlocks && (b.blockType.UnsafeExpr? || b.blockType.UnsafeFn?)
  {
    set b | b in r.effectBlocks && !b.blockType.NormalFn?
  }

  // ----- Attributes -----

  datatype Meta = MetaList(tokens: string) | MetaPath | MetaNameValue

  datatype Attr = Attr(path: string, meta: Meta)

  /** `skip_cfg`: the configurations this scanner does not look into. */
  function SkipCfg(args: string): bool {
    StartsWith(args, "target_os = \"linux\"") || StartsWith(args, "not (feature =")
  }

  /** `skip_attr`: only a `cfg` attribute with a skipped argument list skips. */
  function SkipAttr(a: Attr): (r: bool)
    ensures r <==> a.path == "cfg" && a.meta.MetaList? && SkipCfg(a.meta.tokens)
  {
    if a.path == "cfg" then
      match a.meta
      case MetaList(tokens) => SkipCfg(tokens)
      case _ => false
    else false
  }

  /** `skip_attrs`: any of the attributes skips, tried from the left. */
  function SkipAttrs(attrs: seq<Attr>): bool {
    if attrs == [] then false else SkipAttr(attrs[0]) || SkipAttrs(attrs[1..])
  }

  lemma {:induction false} SkipAttrsSpec(attrs: seq<Attr>)
    ensures SkipAttrs(attrs) <==> exists i :: 0 <= i < |attrs| && SkipAttr(attrs[i])
  {
    if attrs != [] {
      SkipAttrsSpec(attrs[1..]);
      if SkipAttrs(attrs[1..]) {
        var i :| 0 <= i < |attrs[1..]| && SkipAttr(attrs[1..][i]);
        assert SkipAttr(attrs[i + 1]);
      }
      if exists i :: 0 <= i < |attrs| && SkipAttr(attrs[i]) {
        var i :| 0 <= i < |attrs| && SkipAttr(attrs[i]);
        if i > 0 {
          assert attrs[1..][i - 1] == attrs[i];
        }
      }
    }
  }

  /** A list without a `cfg` attribute never skips. */
  lemma NoCfgNoSkip(attrs: seq<Attr>)
    requires forall i :: 0 <= i < |attrs| ==> attrs[i].path != "cfg"
    ensures !SkipAttrs(attrs)
  {
    SkipAttrsSpec(attrs);
  }

  /** The two skipped configurations, and one that is scanned. */
  lemma SkipCfgExamples()
    ensures SkipCfg("target_os = \"linux\"")
    ensures SkipCfg("not (feature = \"std\")")
    ensures !SkipCfg("feature = \"std\"")
  {
    assert "target_os = \"linux\"" <= "target_os = \"linux\"";
    assert "not (feature =" <= "not (feature = \"std\")";
    assert "feature = \"std\""[0] == 'f';
  }

  // ----- The walk, as a function of the scanner state -----

  /**
   * A declaration: only functions, modules, impl blocks and extern blocks
   * matter to the scope. An impl block's members are its methods (`FnItem`)
   * and `OtherItem` for the rest; a module without inline content has no items.
   */
  datatype Item =
    | FnItem(attrs: seq<Attr>, dec: FnDec, isUnsafe: bool, bodyLoc: SrcLoc, body: seq<Stmt>)
    | ModItem(attrs: seq<Attr>, items: seq<Item>)
    | ImplItem(attrs: seq<Attr>, members: seq<Item>)
    | ForeignModItem(attrs: seq<Attr>)
    | OtherItem

  /**
   * How the callee of a call expression is written, with what resolution
   * answered for it: a path (its FFI target, and whether it names an unsafe
   * function), a named field, a tuple-index field, a method, or a callee
   * that cannot be resolved (a macro or any other expression).
   */
  datatype CallForm =
    | PathCall(ffi: Option<CanonicalPath>, resolvesUnsafe: bool)
    | NamedFieldCall(resolvesUnsafe: bool)
    | IndexFieldCall
    | MethodCall(resolvesUnsafe: bool)
    | UnresolvedCall

  /**
   * A statement of a function body, reduced to what the scope sees: a call
   * (with its resolved callee), another effect the walk found, an unsafe
   * block, or a nested declaration.
   */
  datatype Stmt =
    | CallStmt(callee: CanonicalPath, form: CallForm, loc: SrcLoc)
    | EffectStmt(target: CanonicalPath, eff: EffectType, loc: SrcLoc)
    | UnsafeStmt(loc: SrcLoc, body: seq<Stmt>)
    | ItemStmt(item: Item)

  /** The scope stacks of `Scanner` and the results it writes into. */
  datatype ScanState = ScanState(scopeBlocks: seq<EffectBlock>, scopeUnsafe: nat, scopeFns: seq<FnDec>, data: Results)

  function Last<T>(s: seq<T>): T
    requires s != []
  {
    s[|s| - 1]
  }

  function Init<T>(s: seq<T>): seq<T>
    requires s != []
  {
    s[..|s| - 1]
  }

  /** `last_mut().push_effect(e)`: the innermost open block gets the effect. */
  function AppendToTop(blocks: seq<EffectBlock>, e: EffectInstance): (r: seq<EffectBlock>)
    requires blocks != []
    ensures r != [] && Init(r) == Init(blocks)
    ensures Last(r) == Last(blocks).(effects := Last(blocks).effects + [e])
  {
    var top := Last(blocks);
    var r := Init(blocks) + [top.(effects := top.effects + [e])];
    assert Init(r) == Init(blocks);
    r
  }

  /** A block that may only have gained effects. */
  predicate SameBlock(a: EffectBlock, b: EffectBlock) {
    a.blockType == b.blockType && a.containingFn == b.containingFn && a.loc == b.loc && a.effects <= b.effects
  }

  /** The scope after a statement: the same stacks, except that the innermost block may have gained effects. */
  predicate SameScope(a: ScanState, b: ScanState) {
    a.scopeFns == b.scopeFns && a.scopeUnsafe == b.scopeUnsafe && |a.scopeBlocks| == |b.scopeBlocks|
    && (a.scopeBlocks != [] ==> Init(a.scopeBlocks) == Init(b.scopeBlocks) && SameBlock(Last(a.scopeBlocks), Last(b.scopeBlocks)))
  }

  /** The scope after a declaration: exactly the same stacks. */
  predicate Restored(a: ScanState, b: ScanState) {
    a.scopeFns == b.scopeFns && a.scopeUnsafe == b.scopeUnsafe && a.scopeBlocks == b.scopeBlocks
  }

  /** The results only grow: effects and saved blocks are appended, never changed. */
  predicate Grows(a: ScanState, b: ScanState) {
    a.data.effects <= b.data.effects && a.data.effectBlocks <= b.data.effectBlocks
    && (GraphValid(a.data) ==> GraphValid(b.data))
  }

  lemma SameScopeTrans(a: ScanState, b: ScanState, c: ScanState)
    requires SameScope(a, b) && SameScope(b, c)
    ensures SameScope(a, c)
  {
  }

  lemma GrowsTrans(a: ScanState, b: ScanState, c: ScanState)
    requires Grows(a, b) && Grows(b, c)
    ensures Grows(a, c)
  {
  }

  /**
   * The common tail of `push_effect` and `push_callsite`: the effect is
   * appended to the results and, when a block is open, to the innermost
   * block, and nothing else changes.
   */
  function RecordEffect(st: ScanState, e: EffectInstance): (r: ScanState)
    ensures r.data == st.data.(effects := st.data.effects + [e])
    ensures r.scopeFns == st.scopeFns && r.scopeUnsafe == st.scopeUnsafe && |r.scopeBlocks| == |st.scopeBlocks|
    ensures st.scopeBlocks != [] ==>
      (Init(r.scopeBlocks) == Init(st.scopeBlocks)
       && Last(r.scopeBlocks) == Last(st.scopeBlocks).(effects := Last(st.scopeBlocks).effects + [e]))
    ensures st.scopeBlocks == [] ==> r.scopeBlocks == []
    ensures SameScope(st, r) && Grows(st, r)
  {
    st.(scopeBlocks := if st.scopeBlocks != [] then AppendToTop(st.scopeBlocks, e) else st.scopeBlocks,
        data := st.data.(effects := st.data.effects + [e]))
  }

  /** The caller `push_effect` records: the innermost function, or else the callee's enclosing path. */
  function EffectCaller(st: ScanState, callee: CanonicalPath): CanonicalPath {
    if st.scopeFns != [] then Last(st.scopeFns).fnName else PopIdent(callee)
  }

  /** `push_effect`. */
  function PushEffectOn(st: ScanState, callee: CanonicalPath, eff: EffectType, loc: SrcLoc): ScanState {
    RecordEffect(st, EffectInstance(EffectCaller(st, callee), callee, loc, eff))
  }

  /** `push_callsite`: a call edge if both ends are known, then the call effect, as in `push_effect`. */
  function PushCallsiteOn(st: ScanState, callee: CanonicalPath, ffi: Option<CanonicalPath>, isUnsafe: bool, loc: SrcLoc): ScanState
    requires st.scopeFns != []
  {
    var caller := Last(st.scopeFns).fnName;
    RecordEffect(st.(data := AddEdgeTo(st.data, caller, callee, loc)), EffectInstance(caller, callee, loc, Call(isUnsafe, ffi)))
  }

  /** Whether a resolved call is flagged unsafe: only inside an unsafe scope, and a tuple-index callee always is there. */
  function CallIsUnsafe(form: CallForm, scopeUnsafe: nat): bool
    requires !form.UnresolvedCall?
  {
    match form
    case PathCall(_, resolvesUnsafe) => resolvesUnsafe && scopeUnsafe > 0
    case NamedFieldCall(resolvesUnsafe) => resolvesUnsafe && scopeUnsafe > 0
    case IndexFieldCall => scopeUnsafe > 0
    case MethodCall(resolvesUnsafe) => resolvesUnsafe && scopeUnsafe > 0
  }

  /** `scan_expr_call` and `scan_expr_call_method`: only a path callee has an FFI target. */
  function ScanExprCallOn(st: ScanState, callee: CanonicalPath, form: CallForm, loc: SrcLoc): ScanState
    requires st.scopeFns != []
  {
    if form.UnresolvedCall? then st
    else
      var ffi := if form.PathCall? then form.ffi else None;
      PushCallsiteOn(st, callee, ffi, CallIsUnsafe(form, st.scopeUnsafe), loc)
  }

  /** The effects a list of statements records, counting nested blocks and declarations. */
  function EffectCountStmts(ss: seq<Stmt>): nat
    decreases ss
  {
    if ss == [] then 0 else EffectCountStmts(Init(ss)) + EffectCountStmt(Last(ss))
  }

  function EffectCountStmt(s: Stmt): nat
    decreases s
  {
    match s
    case CallStmt(_, form, _) => if form.UnresolvedCall? then 0 else 1
    case EffectStmt(_, _, _) => 1
    case UnsafeStmt(_, body) => EffectCountStmts(body)
    case ItemStmt(item) => EffectCountItem(item)
  }

  function EffectCountItem(item: Item): nat
    decreases item
  {
    match item
    case FnItem(attrs, _, _, _, body) => if SkipAttrs(attrs) then 0 else EffectCountStmts(body)
    case ModItem(attrs, items) => if SkipAttrs(attrs) then 0 else EffectCountItems(items)
    case ImplItem(attrs, members) => if SkipAttrs(attrs) then 0 else EffectCountItems(members)
    case ForeignModItem(_) => 0
    case OtherItem => 0
  }

  function EffectCountItems(items: seq<Item>): nat
    decreases items
  {
    if items == [] then 0 else EffectCountItems(Init(items)) + EffectCountItem(Last(items))
  }

  /** The effect blocks a list of statements saves: one per scanned function and per unsafe block. */
  function BlockCountStmts(ss: seq<Stmt>): nat
    decreases ss
  {
    if ss == [] then 0 else BlockCountStmts(Init(ss)) + BlockCountStmt(Last(ss))
  }

  function BlockCountStmt(s: Stmt): nat
    decreases s
  {
    match s
    case CallStmt(_, _, _) => 0
    case EffectStmt(_, _, _) => 0
    case UnsafeStmt(_, body) => 1 + BlockCountStmts(body)
    case ItemStmt(item) => BlockCountItem(item)
  }

  function BlockCountItem(item: Item): nat
    decreases item
  {
    match item
    case FnItem(attrs, _, _, _, body) => if SkipAttrs(attrs) then 0 else 1 + BlockCountStmts(body)
    case ModItem(attrs, items) => if SkipAttrs(attrs) then 0 else BlockCountItems(items)
    case ImplItem(attrs, members) => if SkipAttrs(attrs) then 0 else BlockCountItems(members)
    case ForeignModItem(_) => 0
    case OtherItem => 0
  }

  function BlockCountItems(items: seq<Item>): nat
    decreases items
  {
    if items == [] then 0 else BlockCountItems(Init(items)) + BlockCountItem(Last(items))
  }

  /**
   * `scan_fn_statement`, inside a function. Each call or effect appends
   * exactly one effect; the scope is as before except for the innermost
   * block's new effects.
   */
  function ScanStmtOn(st: ScanState, s: Stmt): (r: ScanState)
    requires st.scopeFns != [] && st.scopeBlocks != []
    ensures SameScope(st, r) && Grows(st, r)
    ensures |r.data.effects| == |st.data.effects| + EffectCountStmt(s)
    ensures |r.data.effectBlocks| == |st.data.effectBlocks| + BlockCountStmt(s)
    decreases s, 1
  {
    match s
    case CallStmt(callee, form, loc) => ScanExprCallOn(st, callee, form, loc)
    case EffectStmt(target, eff, loc) => PushEffectOn(st, target, eff, loc)
    case UnsafeStmt(loc, body) => ScanUnsafeOn(st, loc, body)
    case ItemStmt(item) => ScanItemOn(st, item)
  }

  /** The statements of a body, scanned in order. */
  function ScanStmtsOn(st: ScanState, ss: seq<Stmt>): (r: ScanState)
    requires st.scopeFns != [] && st.scopeBlocks != []
    ensures SameScope(st, r) && Grows(st, r)
    ensures |r.data.effects| == |st.data.effects| + EffectCountStmts(ss)
    ensures |r.data.effectBlocks| == |st.data.effectBlocks| + BlockCountStmts(ss)
    decreases ss, 0
  {
    if ss == [] then st
    else
      var mid := ScanStmtsOn(st, Init(ss));
      var r := ScanStmtOn(mid, Last(ss));
      SameScopeTrans(st, mid, r);
      GrowsTrans(st, mid, r);
      r
  }

  /** Entering `scan_unsafe_block`: one more unsafe level and a new unsafe block for the innermost function. */
  function EnterUnsafe(st: ScanState, loc: SrcLoc): (r: ScanState)
    requires st.scopeFns != []
    ensures r.scopeFns == st.scopeFns && r.data == st.data && r.scopeUnsafe == st.scopeUnsafe + 1
    ensures r.scopeBlocks != [] && Init(r.scopeBlocks) == st.scopeBlocks
    ensures Last(r.scopeBlocks) == EffectBlock(UnsafeExpr, Last(st.scopeFns).fnName, loc, [])
  {
    var r := st.(scopeUnsafe := st.scopeUnsafe + 1,
                 scopeBlocks := st.scopeBlocks + [EffectBlock(UnsafeExpr, Last(st.scopeFns).fnName, loc, [])]);
    assert Init(r.scopeBlocks) == st.scopeBlocks;
    r
  }

  /** Entering `scan_fn`: the declaration is recorded and pushed, with its block, and an unsafe level for an `unsafe fn`. */
  function EnterFn(st: ScanState, dec: FnDec, isUnsafe: bool, loc: SrcLoc): (r: ScanState)
    ensures r.scopeFns != [] && Init(r.scopeFns) == st.scopeFns && Last(r.scopeFns) == dec
    ensures r.scopeBlocks != [] && Init(r.scopeBlocks) == st.scopeBlocks
    ensures Last(r.scopeBlocks) == EffectBlock(if isUnsafe then UnsafeFn else NormalFn, dec.fnName, loc, [])
    ensures r.scopeUnsafe == st.scopeUnsafe + (if isUnsafe then 1 else 0)
    ensures r.data == AddFnDecTo(st.data, dec)
  {
    var block := EffectBlock(if isUnsafe then UnsafeFn else NormalFn, dec.fnName, loc, []);
    var r := ScanState(st.scopeBlocks + [block], st.scopeUnsafe + (if isUnsafe then 1 else 0),
                       st.scopeFns + [dec], AddFnDecTo(st.data, dec));
    assert Init(r.scopeBlocks) == st.scopeBlocks && Init(r.scopeFns) == st.scopeFns;
    r
  }

  /** Leaving a block: the innermost block is popped and saved in the results. */
  function SaveTop(st: ScanState): (r: ScanState)
    requires st.scopeBlocks != []
    ensures r.scopeBlocks == Init(st.scopeBlocks) && r.scopeFns == st.scopeFns && r.scopeUnsafe == st.scopeUnsafe
    ensures r.data == st.data.(effectBlocks := st.data.effectBlocks + [Last(st.scopeBlocks)])
  {
    st.(scopeBlocks := Init(st.scopeBlocks), data := st.data.(effectBlocks := st.data.effectBlocks + [Last(st.scopeBlocks)]))
  }

  /** `scan_unsafe_block`: the body is scanned in a new unsafe block, which is then saved. */
  function ScanUnsafeOn(st: ScanState, loc: SrcLoc, body: seq<Stmt>): (r: ScanState)
    requires st.scopeFns != []
    ensures Restored(st, r) && Grows(st, r)
    ensures |r.data.effects| == |st.data.effects| + EffectCountStmts(body)
    ensures |r.data.effectBlocks| == |st.data.effectBlocks| + 1 + BlockCountStmts(body)
    ensures Last(r.data.effectBlocks).blockType == UnsafeExpr
    ensures Last(r.data.effectBlocks).containingFn == Last(st.scopeFns).fnName
    decreases body, 2
  {
    LeaveUnsafe(ScanStmtsOn(EnterUnsafe(st, loc), body))
  }

  /** Leaving `scan_unsafe_block`: the block is saved and the unsafe level dropped. */
  function LeaveUnsafe(st: ScanState): (r: ScanState)
    requires st.scopeBlocks != [] && st.scopeUnsafe >= 1
    ensures r.scopeBlocks == Init(st.scopeBlocks) && r.scopeFns == st.scopeFns && r.scopeUnsafe == st.scopeUnsafe - 1
    ensures r.data == SaveTop(st).data
  {
    var st2 := SaveTop(st);
    st2.(scopeUnsafe := st2.scopeUnsafe - 1)
  }

  /** Leaving `scan_fn`: the function is popped, its block saved, and the unsafe level of an `unsafe fn` dropped. */
  function LeaveFn(st: ScanState, isUnsafe: bool): (r: ScanState)
    requires st.scopeBlocks != [] && st.scopeFns != [] && (isUnsafe ==> st.scopeUnsafe >= 1)
    ensures r.scopeBlocks == Init(st.scopeBlocks) && r.scopeFns == Init(st.scopeFns)
    ensures r.scopeUnsafe == st.scopeUnsafe - (if isUnsafe then 1 else 0)
    ensures r.data == SaveTop(st).data
  {
    var st3 := SaveTop(st.(scopeFns := Init(st.scopeFns)));
    st3.(scopeUnsafe := st3.scopeUnsafe - (if isUnsafe then 1 else 0))
  }

  /** `scan_fn`: the body is scanned inside the function's scope, which is then popped and its block saved. */
  function ScanFnOn(st: ScanState, dec: FnDec, isUnsafe: bool, loc: SrcLoc, body: seq<Stmt>): (r: ScanState)
    ensures Restored(st, r) && Grows(st, r)
    ensures |r.data.effects| == |st.data.effects| + EffectCountStmts(body)
    ensures |r.data.effectBlocks| == |st.data.effectBlocks| + 1 + BlockCountStmts(body)
    ensures Last(r.data.effectBlocks).blockType == (if isUnsafe then UnsafeFn else NormalFn)
    ensures Last(r.data.effectBlocks).containingFn == dec.fnName
    decreases body, 2
  {
    LeaveFn(ScanStmtsOn(EnterFn(st, dec, isUnsafe, loc), body), isUnsafe)
  }

  /** `scan_item`: a skipped declaration (by its `cfg` attributes) changes nothing here. */
  function ScanItemOn(st: ScanState, item: Item): (r: ScanState)
    ensures Restored(st, r) && Grows(st, r)
    ensures |r.data.effects| == |st.data.effects| + EffectCountItem(item)
    ensures |r.data.effectBlocks| == |st.data.effectBlocks| + BlockCountItem(item)
    decreases item, 3
  {
    match item
    case FnItem(attrs, dec, isUnsafe, loc, body) =>
      if SkipAttrs(attrs) then st else ScanFnOn(st, dec, isUnsafe, loc, body)
    case ModItem(attrs, items) =>
      if SkipAttrs(attrs) then st else ScanItemsOn(st, items)
    case ImplItem(attrs, members) =>
      if SkipAttrs(attrs) then st else ScanItemsOn(st, members)
    case ForeignModItem(_) => st
    case OtherItem => st
  }

  /** Declarations scanned in order, as `scan_file` and `scan_mod` do. */
  function ScanItemsOn(st: ScanState, items: seq<Item>): (r: ScanState)
    ensures Restored(st, r) && Grows(st, r)
    ensures |r.data.effects| == |st.data.effects| + EffectCountItems(items)
    ensures |r.data.effectBlocks| == |st.data.effectBlocks| + BlockCountItems(items)
    decreases items, 0
  {
    if items == [] then st
    else
      var mid := ScanItemsOn(st, Init(items));
      var r := ScanItemOn(mid, Last(items));
      GrowsTrans(st, mid, r);
      r
  }

  // ----- What the walk keeps -----

  /** How many of the open blocks are unsafe (an unsafe expression or an unsafe function). */
  function UnsafeDepth(blocks: seq<EffectBlock>): nat
    decreases blocks
  {
    if blocks == [] then 0 else UnsafeDepth(Init(blocks)) + (if Last(blocks).blockType.NormalFn? then 0 else 1)
  }

  /** `scope_unsafe` counts exactly the unsafe blocks that are open. */
  predicate ScopeValid(st: ScanState) {
    st.scopeUnsafe == UnsafeDepth(st.scopeBlocks)
  }

  /** The unsafe depth is positive exactly when some open block is unsafe. */
  lemma {:induction false} UnsafeDepthPositive(blocks: seq<EffectBlock>)
    ensures UnsafeDepth(blocks) > 0 <==> exists i :: 0 <= i < |blocks| && !blocks[i].blockType.NormalFn?
  {
    if blocks != [] {
      var init := Init(blocks);
      UnsafeDepthPositive(init);
      if UnsafeDepth(init) > 0 {
        var i :| 0 <= i < |init| && !init[i].blockType.NormalFn?;
        assert blocks[i] == init[i];
      }
      if exists i :: 0 <= i < |blocks| && !blocks[i].blockType.NormalFn? {
        var i :| 0 <= i < |blocks| && !blocks[i].blockType.NormalFn?;
        if i < |init| {
          assert init[i] == blocks[i];
        }
      }
    }
  }

  /** Entering a function or an unsafe block keeps the counter in step with the open blocks. */
  lemma EnterKeepsScopeValid(st: ScanState, dec: FnDec, isUnsafe: bool, loc: SrcLoc)
    requires ScopeValid(st)
    ensures ScopeValid(EnterFn(st, dec, isUnsafe, loc))
    ensures st.scopeFns != [] ==> ScopeValid(EnterUnsafe(st, loc))
  {
    var r := EnterFn(st, dec, isUnsafe, loc);
    assert UnsafeDepth(r.scopeBlocks) == UnsafeDepth(st.scopeBlocks) + (if isUnsafe then 1 else 0);
    if st.scopeFns != [] {
      var u := EnterUnsafe(st, loc);
      assert UnsafeDepth(u.scopeBlocks) == UnsafeDepth(st.scopeBlocks) + 1;
    }
  }

  /** A statement leaves the counter in step, since it keeps the kinds of the open blocks. */
  lemma SameScopeKeepsScopeValid(a: ScanState, b: ScanState)
    requires ScopeValid(a) && SameScope(a, b)
    ensures ScopeValid(b)
  {
    if a.scopeBlocks != [] {
      assert UnsafeDepth(b.scopeBlocks) == UnsafeDepth(Init(b.scopeBlocks)) + (if Last(b.scopeBlocks).blockType.NormalFn? then 0 else 1);
    }
  }

  /**
   * A call is flagged unsafe only inside an open unsafe block or unsafe
   * function; a call through a tuple-index field is flagged exactly there.
   */
  lemma UnsafeCallNeedsUnsafeScope(st: ScanState, callee: CanonicalPath, form: CallForm, loc: SrcLoc)
    requires ScopeValid(st) && st.scopeFns != [] && !form.UnresolvedCall?
    ensures var e := Last(ScanExprCallOn(st, callee, form, loc).data.effects);
      e.eff.Call? && e.caller == Last(st.scopeFns).fnName && e.callee == callee
      && (e.eff.isUnsafe ==> exists i :: 0 <= i < |st.scopeBlocks| && !st.scopeBlocks[i].blockType.NormalFn?)
      && (form.IndexFieldCall? ==> (e.eff.isUnsafe <==> exists i :: 0 <= i < |st.scopeBlocks| && !st.scopeBlocks[i].blockType.NormalFn?))
  {
    UnsafeDepthPositive(st.scopeBlocks);
  }

  /** `push_effect` outside any function attributes the effect to the callee's enclosing path. */
  lemma PushEffectCaller(st: ScanState, callee: CanonicalPath, eff: EffectType, loc: SrcLoc)
    ensures var r := PushEffectOn(st, callee, eff, loc);
      r.data.effects == st.data.effects + [EffectInstance(EffectCaller(st, callee), callee, loc, eff)]
      && r.data.effectBlocks == st.data.effectBlocks && r.data.edges == st.data.edges
      && (st.scopeFns == [] && |callee| > 0 ==> Last(r.data.effects).caller == callee[..|callee| - 1])
      && (st.scopeFns != [] ==> Last(r.data.effects).caller == Last(st.scopeFns).fnName)
  {
  }

  /** Every effect of a block, open or saved, is also in the results' effect list. */
  predicate BlockRecorded(b: EffectBlock, effects: seq<EffectInstance>) {
    forall e :: e in b.effects ==> e in effects
  }

  predicate Recorded(st: ScanState) {
    (forall b :: b in st.scopeBlocks ==> BlockRecorded(b, st.data.effects))
    && (forall b :: b in st.data.effectBlocks ==> BlockRecorded(b, st.data.effects))
  }

  lemma BlockRecordedMono(b: EffectBlock, xs: seq<EffectInstance>, ys: seq<EffectInstance>)
    requires BlockRecorded(b, xs) && xs <= ys
    ensures BlockRecorded(b, ys)
  {
    forall e | e in b.effects ensures e in ys {
      var i :| 0 <= i < |xs| && xs[i] == e;
      assert ys[i] == e;
    }
  }

  lemma RecordEffectKeepsRecorded(st: ScanState, e: EffectInstance)
    requires Recorded(st)
    ensures Recorded(RecordEffect(st, e))
  {
    var r := RecordEffect(st, e);
    forall b | b in r.scopeBlocks ensures BlockRecorded(b, r.data.effects) {
      var i :| 0 <= i < |r.scopeBlocks| && r.scopeBlocks[i] == b;
      if i < |r.scopeBlocks| - 1 {
        assert b == Init(st.scopeBlocks)[i] == st.scopeBlocks[i];
        BlockRecordedMono(b, st.data.effects, r.data.effects);
      } else {
        var top := Last(st.scopeBlocks);
        assert b == top.(effects := top.effects + [e]);
        BlockRecordedMono(top, st.data.effects, r.data.effects);
      }
    }
    forall b | b in r.data.effectBlocks ensures BlockRecorded(b, r.data.effects) {
      BlockRecordedMono(b, st.data.effects, r.data.effects);
    }
  }

  lemma EnterKeepsRecorded(st: ScanState, dec: FnDec, isUnsafe: bool, loc: SrcLoc)
    requires Recorded(st)
    ensures Recorded(EnterFn(st, dec, isUnsafe, loc))
    ensures st.scopeFns != [] ==> Recorded(EnterUnsafe(st, loc))
  {
    var r := EnterFn(st, dec, isUnsafe, loc);
    assert r.scopeBlocks == st.scopeBlocks + [Last(r.scopeBlocks)];
    if st.scopeFns != [] {
      var u := EnterUnsafe(st, loc);
      assert u.scopeBlocks == st.scopeBlocks + [Last(u.scopeBlocks)];
    }
  }

  lemma SaveTopKeepsRecorded(st: ScanState)
    requires Recorded(st) && st.scopeBlocks != []
    ensures Recorded(SaveTop(st))
  {
    assert Last(st.scopeBlocks) in st.scopeBlocks;
    forall b | b in Init(st.scopeBlocks) ensures b in st.scopeBlocks {
    }
  }

  /** Scanning a statement keeps every block's effects in the results. */
  lemma {:induction false} StmtKeepsRecorded(st: ScanState, s: Stmt)
    requires st.scopeFns != [] && st.scopeBlocks != [] && Recorded(st)
    ensures Recorded(ScanStmtOn(st, s))
    decreases s, 1
  {
    match s
    case CallStmt(callee, form, loc) =>
      if !form.UnresolvedCall? {
        var caller := Last(st.scopeFns).fnName;
        var ffi := if form.PathCall? then form.ffi else None;
        RecordEffectKeepsRecorded(st.(data := AddEdgeTo(st.data, caller, callee, loc)),
                                  EffectInstance(caller, callee, loc, Call(CallIsUnsafe(form, st.scopeUnsafe), ffi)));
      }
    case EffectStmt(target, eff, loc) =>
      RecordEffectKeepsRecorded(st, EffectInstance(EffectCaller(st, target), target, loc, eff));
    case UnsafeStmt(loc, body) =>
      EnterKeepsRecorded(st, Last(st.scopeFns), false, loc);
      StmtsKeepRecorded(EnterUnsafe(st, loc), body);
      SaveTopKeepsRecorded(ScanStmtsOn(EnterUnsafe(st, loc), body));
    case ItemStmt(item) => ItemKeepsRecorded(st, item);
  }

  lemma {:induction false} StmtsKeepRecorded(st: ScanState, ss: seq<Stmt>)
    requires st.scopeFns != [] && st.scopeBlocks != [] && Recorded(st)
    ensures Recorded(ScanStmtsOn(st, ss))
    decreases ss, 0
  {
    if ss != [] {
      StmtsKeepRecorded(st, Init(ss));
      StmtKeepsRecorded(ScanStmtsOn(st, Init(ss)), Last(ss));
    }
  }

  lemma {:induction false} ItemKeepsRecorded(st: ScanState, item: Item)
    requires Recorded(st)
    ensures Recorded(ScanItemOn(st, item))
    decreases item, 3
  {
    match item
    case FnItem(attrs, dec, isUnsafe, loc, body) =>
      if !SkipAttrs(attrs) {
        EnterKeepsRecorded(st, dec, isUnsafe, loc);
        StmtsKeepRecorded(EnterFn(st, dec, isUnsafe, loc), body);
        SaveTopKeepsRecorded(ScanStmtsOn(EnterFn(st, dec, isUnsafe, loc), body));
      }
    case ModItem(attrs, items) =>
      if !SkipAttrs(attrs) {
        ItemsKeepRecorded(st, items);
      }
    case ImplItem(attrs, members) =>
      if !SkipAttrs(attrs) {
        ItemsKeepRecorded(st, members);
      }
    case ForeignModItem(_) =>
    case OtherItem =>
  }

  lemma {:induction false} ItemsKeepRecorded(st: ScanState, items: seq<Item>)
    requires Recorded(st)
    ensures Recorded(ScanItemsOn(st, items))
    decreases items, 0
  {
    if items != [] {
      ItemsKeepRecorded(st, Init(items));
      ItemKeepsRecorded(ScanItemsOn(st, Init(items)), Last(items));
    }
  }

  /** At top level both scopes are empty and the counter is zero, before and after any declarations. */
  lemma TopLevelInvariant(st: ScanState, items: seq<Item>)
    requires st.scopeBlocks == [] && st.scopeUnsafe == 0 && st.scopeFns == []
    ensures var r := ScanItemsOn(st, items);
      r.scopeBlocks == [] && r.scopeUnsafe == 0 && r.scopeFns == [] && ScopeValid(r)
      && |r.data.effectBlocks| == |st.data.effectBlocks| + BlockCountItems(items)
  {
  }

  /** Recording one effect adds it to the callers of its callee and changes no other callee's set. */
  lemma {:induction false} CallersSnoc(r: Results, e: EffectInstance, callee: CanonicalPath)
    ensures Callers(r.(effects := r.effects + [e]), callee) == Callers(r, callee) + (if e.callee == callee then {e} else {})
  {
    var r' := r.(effects := r.effects + [e]);
    forall x | x in Callers(r', callee) ensures x in Callers(r, callee) + (if e.callee == callee then {e} else {}) {
      assert x in r.effects || x == e;
    }
  }

  /** Saving a block adds it to the unsafe set exactly when it is not a plain function's block. */
  lemma UnsafeBlocksSnoc(r: Results, b: EffectBlock)
    ensures UnsafeBlocks(r.(effectBlocks := r.effectBlocks + [b])) == UnsafeBlocks(r) + (if b.blockType.NormalFn? then {} else {b})
  {
    var r' := r.(effectBlocks := r.effectBlocks + [b]);
    forall x | x in UnsafeBlocks(r') ensures x in UnsafeBlocks(r) + (if b.blockType.NormalFn? then {} else {b}) {
      assert x in r.effectBlocks || x == b;
    }
  }

  /** An unsafe block and an `unsafe fn` each add their block to the unsafe set; a plain function does not. */
  lemma SavedBlockKind(st: ScanState, dec: FnDec, isUnsafe: bool, loc: SrcLoc, body: seq<Stmt>)
    ensures var r := ScanFnOn(st, dec, isUnsafe, loc, body);
      (Last(r.data.effectBlocks) in UnsafeBlocks(r.data) <==> isUnsafe)
    ensures st.scopeFns != [] ==>
      Last(ScanUnsafeOn(st, loc, body).data.effectBlocks) in UnsafeBlocks(ScanUnsafeOn(st, loc, body).data)
  {
  }

  /** `add_fn_dec` makes a later call between two declared functions an edge of the graph. */
  lemma DeclaredCallAddsEdge(st: ScanState, callee: CanonicalPath, ffi: Option<CanonicalPath>, isUnsafe: bool, loc: SrcLoc)
    requires GraphValid(st.data)
    requires st.scopeFns != [] && Last(st.scopeFns).fnName in st.data.nodeIdxs && callee in st.data.nodeIdxs
    ensures var r := PushCallsiteOn(st, callee, ffi, isUnsafe, loc);
      r.data.edges == st.data.edges + [Edge(st.data.nodeIdxs[Last(st.scopeFns).fnName], st.data.nodeIdxs[callee], loc)]
      && GraphValid(r.data)
      && r.data.nodes[Last(r.data.edges).from] == Last(st.scopeFns).fnName
      && r.data.nodes[Last(r.data.edges).to] == callee
  {
  }

  /** A call whose caller or callee was never declared records its effect but no edge. */
  lemma UndeclaredCallNoEdge(st: ScanState, callee: CanonicalPath, ffi: Option<CanonicalPath>, isUnsafe: bool, loc: SrcLoc)
    requires st.scopeFns != [] && !(Last(st.scopeFns).fnName in st.data.nodeIdxs && callee in st.data.nodeIdxs)
    ensures var r := PushCallsiteOn(st, callee, ffi, isUnsafe, loc);
      r.data.edges == st.data.edges
      && r.data.effects == st.data.effects + [EffectInstance(Last(st.scopeFns).fnName, callee, loc, Call(isUnsafe, ffi))]
  {
  }

  // ----- The results and the scanner, in place -----

  /** `ScanResults`: what scanning accumulates across files. */
  class ScanResults {
    var effects: seq<EffectInstance>
    var effectBlocks: seq<EffectBlock>
    var pubFns: set<CanonicalPath>
    var fnLocs: map<CanonicalPath, SrcLoc>
    var nodes: seq<CanonicalPath>
    var nodeIdxs: map<CanonicalPath, nat>
    var edges: seq<Edge>

    function Abs(): Results
      reads this
    {
      Results(effects, effectBlocks, pubFns, fnLocs, nodes, nodeIdxs, edges)
    }

    /** `new`: nothing recorded, and an empty graph. */
    constructor ()
      ensures Abs() == EmptyResults && GraphValid(Abs())
    {
      effects, effectBlocks, pubFns, fnLocs := [], [], {}, map[];
      nodes, nodeIdxs, edges := [], map[], [];
    }

    /** `add_fn_dec`. */
    method AddFnDec(f: FnDec)
      modifies this
      ensures Abs() == AddFnDecTo(old(Abs()), f)
    {
      var nodeIdx := |nodes|;
      nodes := nodes + [f.fnName];
      nodeIdxs := nodeIdxs[f.fnName := nodeIdx];
      if f.vis.Public? {
        pubFns := pubFns + {f.fnName};
      }
      fnLocs := fnLocs[f.fnName := f.srcLoc];
    }

    /** `get_callers`: one pass over the effects, keeping those with the given callee. */
    method GetCallers(callee: CanonicalPath) returns (callers: set<EffectInstance>)
      ensures callers == Callers(Abs(), callee)
      ensures forall e :: e in callers <==> e in effects && e.callee == callee
    {
      callers := {};
      for i := 0 to |effects|
        invariant forall e :: e in callers <==> e in effects[..i] && e.callee == callee
      {
        assert effects[..i + 1] == effects[..i] + [effects[i]];
        if effects[i].callee == callee {
          callers := callers + {effects[i]};
        }
      }
      assert effects[..|effects|] == effects;
    }
  }

  /**
   * `Scanner`: the scope stacks and counter, the results it writes into,
   * and the sinks it classifies calls with. Name resolution is not part of
   * this model; its answers come with the tree.
   */
  class Scanner {
    var scopeEffectBlocks: seq<EffectBlock>
    var scopeUnsafe: nat
    var scopeFns: seq<FnDec>
    const data: ScanResults
    var sinks: set<string>

    function Abs(): ScanState
      reads this, data
    {
      ScanState(scopeEffectBlocks, scopeUnsafe, scopeFns, data.Abs())
    }

    /** `assert_top_level_invariant`, the scanner's part of it. */
    predicate TopLevel()
      reads this
    {
      scopeEffectBlocks == [] && scopeUnsafe == 0
    }

    /** `new`: empty scopes over the given results, with the default sinks. */
    constructor (data: ScanResults, defaultSinks: set<string>)
      ensures this.data == data && TopLevel() && scopeFns == [] && sinks == defaultSinks
      ensures Abs() == ScanState([], 0, [], data.Abs())
    {
      this.data := data;
      scopeEffectBlocks, scopeUnsafe, scopeFns := [], 0, [];
      sinks := defaultSinks;
    }

    /** `add_sinks`. */
    method AddSinks(newSinks: set<string>)
      modifies this
      ensures sinks == old(sinks) + newSinks && Abs() == old(Abs())
    {
      sinks := sinks + newSinks;
    }

    /** `scan_file`: the declarations of one file, in order; the top-level invariant holds again afterwards. */
    method ScanFile(items: seq<Item>)
      modifies this, data
      ensures Abs() == ScanItemsOn(old(Abs()), items)
      ensures old(TopLevel()) ==> TopLevel()
      ensures old(Walkable()) ==> Walkable()
    {
      ghost var st0 := Abs();
      ScanItems(items);
      if ScopeValid(st0) && Recorded(st0) && GraphValid(st0.data) {
        ItemsKeepRecorded(st0, items);
      }
    }

    /** What every step of the walk keeps: the counter matches the open blocks, blocks are recorded, the graph is well formed. */
    ghost predicate Walkable()
      reads this, data
    {
      ScopeValid(Abs()) && Recorded(Abs()) && GraphValid(data.Abs())
    }

    method ScanItems(items: seq<Item>)
      modifies this, data
      ensures Abs() == ScanItemsOn(old(Abs()), items)
      decreases items, 0
    {
      ghost var st0 := Abs();
      for i := 0 to |items|
        invariant Abs() == ScanItemsOn(st0, items[..i])
      {
        assert Init(items[..i + 1]) == items[..i] && Last(items[..i + 1]) == items[i];
        ScanItem(items[i]);
      }
      assert items[..|items|] == items;
    }

    /** `scan_item`, with `scan_fn_decl`, `scan_mod`, `scan_impl` and `scan_foreign_mod`. */
    method ScanItem(item: Item)
      modifies this, data
      ensures Abs() == ScanItemOn(old(Abs()), item)
      decreases item, 3
    {
      match item
      case FnItem(attrs, dec, isUnsafe, loc, body) =>
        if !SkipAttrs(attrs) {
          ScanFn(dec, isUnsafe, loc, body);
        }
      case ModItem(attrs, items) =>
        if !SkipAttrs(attrs) {
          ScanItems(items);
        }
      case ImplItem(attrs, members) =>
        if !SkipAttrs(attrs) {
          ScanItems(members);
        }
      case ForeignModItem(attrs) =>
        // foreign items only inform name resolution; the unsafe level scan_foreign_mod
        // raises around them is back where it was when it returns
      case OtherItem =>
    }

    /** `scan_fn`. */
    method ScanFn(dec: FnDec, isUnsafe: bool, loc: SrcLoc, body: seq<Stmt>)
      modifies this, data
      ensures Abs() == ScanFnOn(old(Abs()), dec, isUnsafe, loc, body)
      decreases body, 2
    {
      EnterFnScope(dec, isUnsafe, loc);
      ScanStatements(body);
      LeaveFnScope(isUnsafe);
    }

    /** The start of `scan_fn`: push the declaration, record it, open its block. */
    method EnterFnScope(dec: FnDec, isUnsafe: bool, loc: SrcLoc)
      modifies this, data
      ensures Abs() == EnterFn(old(Abs()), dec, isUnsafe, loc)
    {
      scopeFns := scopeFns + [dec];
      data.AddFnDec(dec);
      var blockType := NormalFn;
      if isUnsafe {
        scopeUnsafe := scopeUnsafe + 1;
        blockType := UnsafeFn;
      }
      scopeEffectBlocks := scopeEffectBlocks + [EffectBlock(blockType, dec.fnName, loc, [])];
    }

    /** The end of `scan_fn`: pop the declaration, save its block, leave the `unsafe fn` level. */
    method LeaveFnScope(isUnsafe: bool)
      requires scopeFns != [] && scopeEffectBlocks != [] && (isUnsafe ==> scopeUnsafe >= 1)
      modifies this, data
      ensures Abs() == LeaveFn(old(Abs()), isUnsafe)
    {
      scopeFns := scopeFns[..|scopeFns| - 1];
      var top := scopeEffectBlocks[|scopeEffectBlocks| - 1];
      scopeEffectBlocks := scopeEffectBlocks[..|scopeEffectBlocks| - 1];
      data.effectBlocks := data.effectBlocks + [top];
      if isUnsafe {
        scopeUnsafe := scopeUnsafe - 1;
      }
    }

    /** The statement loop of `scan_fn` and `scan_unsafe_block`. */
    method ScanStatements(ss: seq<Stmt>)
      requires scopeFns != [] && scopeEffectBlocks != []
      modifies this, data
      ensures Abs() == ScanStmtsOn(old(Abs()), ss)
      decreases ss, 0
    {
      ghost var st0 := Abs();
      for i := 0 to |ss|
        invariant Abs() == ScanStmtsOn(st0, ss[..i])
      {
        assert Init(ss[..i + 1]) == ss[..i] && Last(ss[..i + 1]) == ss[i];
        ScanFnStatement(ss[i]);
      }
      assert ss[..|ss|] == ss;
    }

    /** `scan_fn_statement`, reduced to the statements the scope sees. */
    method ScanFnStatement(s: Stmt)
      requires scopeFns != [] && scopeEffectBlocks != []
      modifies this, data
      ensures Abs() == ScanStmtOn(old(Abs()), s)
      decreases s, 1
    {
      match s
      case CallStmt(callee, form, loc) => ScanExprCall(callee, form, loc);
      case EffectStmt(target, eff, loc) => PushEffect(target, eff, loc);
      case UnsafeStmt(loc, body) => ScanUnsafeBlock(loc, body);
      case ItemStmt(item) => ScanItem(item);
    }

    /** `scan_unsafe_block`. */
    method ScanUnsafeBlock(loc: SrcLoc, body: seq<Stmt>)
      requires scopeFns != []
      modifies this, data
      ensures Abs() == ScanUnsafeOn(old(Abs()), loc, body)
      decreases body, 2
    {
      EnterUnsafeScope(loc);
      ScanStatements(body);
      LeaveUnsafeScope();
    }

    /** The start of `scan_unsafe_block`: one more unsafe level, and a block for the innermost function. */
    method EnterUnsafeScope(loc: SrcLoc)
      requires scopeFns != []
      modifies this
      ensures Abs() == EnterUnsafe(old(Abs()), loc)
    {
      scopeUnsafe := scopeUnsafe + 1;
      scopeEffectBlocks := scopeEffectBlocks + [EffectBlock(UnsafeExpr, scopeFns[|scopeFns| - 1].fnName, loc, [])];
    }

    /** The end of `scan_unsafe_block`: save the block, leave the unsafe level. */
    method LeaveUnsafeScope()
      requires scopeEffectBlocks != [] && scopeUnsafe >= 1
      modifies this, data
      ensures Abs() == LeaveUnsafe(old(Abs()))
    {
      var top := scopeEffectBlocks[|scopeEffectBlocks| - 1];
      scopeEffectBlocks := scopeEffectBlocks[..|scopeEffectBlocks| - 1];
      data.effectBlocks := data.effectBlocks + [top];
      scopeUnsafe := scopeUnsafe - 1;
    }

    /** `scan_expr_call`, `scan_expr_call_field` and `scan_expr_call_method`. */
    method ScanExprCall(callee: CanonicalPath, form: CallForm, loc: SrcLoc)
      requires scopeFns != []
      modifies this, data
      ensures Abs() == ScanExprCallOn(old(Abs()), callee, form, loc)
    {
      match form
      case PathCall(ffi, resolvesUnsafe) => PushCallsite(callee, ffi, resolvesUnsafe && scopeUnsafe > 0, loc);
      case NamedFieldCall(resolvesUnsafe) => PushCallsite(callee, None, resolvesUnsafe && scopeUnsafe > 0, loc);
      case IndexFieldCall => PushCallsite(callee, None, scopeUnsafe > 0, loc);
      case MethodCall(resolvesUnsafe) => PushCallsite(callee, None, resolvesUnsafe && scopeUnsafe > 0, loc);
      case UnresolvedCall =>
    }

    /** `push_effect`. */
    method PushEffect(callee: CanonicalPath, eff: EffectType, loc: SrcLoc)
      modifies this, data
      ensures Abs() == PushEffectOn(old(Abs()), callee, eff, loc)
    {
      var caller := if scopeFns != [] then scopeFns[|scopeFns| - 1].fnName else PopIdent(callee);
      var e := EffectInstance(caller, callee, loc, eff);
      if scopeEffectBlocks != [] {
        var top := scopeEffectBlocks[|scopeEffectBlocks| - 1];
        scopeEffectBlocks := scopeEffectBlocks[..|scopeEffectBlocks| - 1] + [top.(effects := top.effects + [e])];
      }
      data.effects := data.effects + [e];
    }

    /** `push_callsite`. */
    method PushCallsite(callee: CanonicalPath, ffi: Option<CanonicalPath>, isUnsafe: bool, loc: SrcLoc)
      requires scopeFns != []
      modifies this, data
      ensures Abs() == PushCallsiteOn(old(Abs()), callee, ffi, isUnsafe, loc)
    {
      var caller := scopeFns[|scopeFns| - 1].fnName;
      if caller in data.nodeIdxs && callee in data.nodeIdxs {
        data.edges := data.edges + [Edge(data.nodeIdxs[caller], data.nodeIdxs[callee], loc)];
      }
      var e := EffectInstance(caller, callee, loc, Call(isUnsafe, ffi));
      if scopeEffectBlocks != [] {
        var top := scopeEffectBlocks[|scopeEffectBlocks| - 1];
        scopeEffectBlocks := scopeEffectBlocks[..|scopeEffectBlocks| - 1] + [top.(effects := top.effects + [e])];
      }
      data.effects := data.effects + [e];
    }
  }
}
