/**
 * The audit policy language of policy.rs: statements that allow an effect
 * in a region (a function), require callers of a region to be allowed an
 * effect, or trust a region; a policy is a list of statements; a lookup
 * summarises a policy as two maps from function paths to sets of effect
 * paths and checks call-graph edges against them.
 *
 * Function paths (`IdentPath`) are modelled by their text; a function call
 * pattern (`FnCall`) by its path and its argument pattern.
 */
module Policy {
  import opened Outcomes
  import opened Strings

  type IdentPath = string

  /** The argument pattern of a call: every argument list, or a given one. */
  datatype Args = AllArgs | ArgsText(text: string)

  datatype FnCall = FnCall(fnPath: IdentPath, args: Args)

  datatype Statement =
    | Allow(region: FnCall, effect: FnCall)
    | Require(region: FnCall, effect: FnCall)
    | Trust(region: FnCall)
  {
    static function AllowSimple(path: string, effect: string): (s: Statement)
      ensures s.Allow? && s.region.fnPath == path && s.effect.fnPath == effect
      ensures s.region.args == AllArgs && s.effect.args == AllArgs
    {
      Allow(FnCall(path, AllArgs), FnCall(effect, AllArgs))
    }

    static function RequireSimple(path: string, effect: string): (s: Statement)
      ensures s.Require? && s.region.fnPath == path && s.effect.fnPath == effect
      ensures s.region.args == AllArgs && s.effect.args == AllArgs
    {
      Require(FnCall(path, AllArgs), FnCall(effect, AllArgs))
    }

    static function AllowWith(path: string, args: string, effect: FnCall): (s: Statement)
      ensures s.Allow? && s.region == FnCall(path, ArgsText(args)) && s.effect == effect
    {
      Allow(FnCall(path, ArgsText(args)), effect)
    }

    static function RequireWith(path: string, args: string, effect: FnCall): (s: Statement)
      ensures s.Require? && s.region == FnCall(path, ArgsText(args)) && s.effect == effect
    {
      Require(FnCall(path, ArgsText(args)), effect)
    }

    static function TrustSimple(path: string): (s: Statement)
      ensures s.Trust? && s.region == FnCall(path, AllArgs)
    {
      Trust(FnCall(path, AllArgs))
    }

    /** The text form; `show` stands for the display of a `FnCall`, defined outside this model. */
    function Display(show: FnCall -> string): string {
      match this
      case Allow(r, e) => "allow " + show(r) + " " + show(e)
      case Require(r, e) => "require " + show(r) + " " + show(e)
      case Trust(r) => "trust " + show(r)
    }
  }

  /** The displayed statement starts with its keyword, so different kinds never display alike. */
  lemma DisplayKeyword(s: Statement, show: FnCall -> string)
    ensures s.Allow? <==> StartsWith(s.Display(show), "allow ")
    ensures s.Require? <==> StartsWith(s.Display(show), "require ")
    ensures s.Trust? <==> StartsWith(s.Display(show), "trust ")
  {
    var d := s.Display(show);
    match s
    case Allow(r, e) =>
      assert d[0] == 'a';
    case Require(r, e) =>
      assert d[0] == 'r';
    case Trust(r) =>
      assert d[0] == 't';
  }

  /** A policy for one version of one crate: a list of statements. */
  class Policy {
    var crateName: string
    var crateVersion: string
    var policyVersion: string
    var statements: seq<Statement>

    constructor (crateName: string, crateVersion: string, policyVersion: string)
      ensures this.crateName == crateName && this.crateVersion == crateVersion
      ensures this.policyVersion == policyVersion && statements == []
    {
      this.crateName := crateName;
      this.crateVersion := crateVersion;
      this.policyVersion := policyVersion;
      statements := [];
    }

    method AddStatement(s: Statement)
      modifies this
      ensures statements == old(statements) + [s]
      ensures crateName == old(crateName) && crateVersion == old(crateVersion) && policyVersion == old(policyVersion)
    {
      statements := statements + [s];
    }

    method AllowSimple(path: string, effect: string)
      modifies this
      ensures statements == old(statements) + [Statement.AllowSimple(path, effect)]
      ensures crateName == old(crateName) && crateVersion == old(crateVersion) && policyVersion == old(policyVersion)
    {
      AddStatement(Statement.AllowSimple(path, effect));
    }

    method RequireSimple(path: string, effect: string)
      modifies this
      ensures statements == old(statements) + [Statement.RequireSimple(path, effect)]
      ensures crateName == old(crateName) && crateVersion == old(crateVersion) && policyVersion == old(policyVersion)
    {
      AddStatement(Statement.RequireSimple(path, effect));
    }

    method AllowWith(path: string, args: string, eff: FnCall)
      modifies this
      ensures statements == old(statements) + [Statement.AllowWith(path, args, eff)]
      ensures crateName == old(crateName) && crateVersion == old(crateVersion) && policyVersion == old(policyVersion)
    {
      AddStatement(Statement.AllowWith(path, args, eff));
    }

    method RequireWith(path: string, args: string, eff: FnCall)
      modifies this
      ensures statements == old(statements) + [Statement.RequireWith(path, args, eff)]
      ensures crateName == old(crateName) && crateVersion == old(crateVersion) && policyVersion == old(policyVersion)
    {
      AddStatement(Statement.RequireWith(path, args, eff));
    }

    method TrustSimple(path: string)
      modifies this
      ensures statements == old(statements) + [Statement.TrustSimple(path)]
      ensures crateName == old(crateName) && crateVersion == old(crateVersion) && policyVersion == old(policyVersion)
    {
      AddStatement(Statement.TrustSimple(path));
    }
  }

  // ----- The lookup, as a value -----

  /** `allow_sets` and `require_sets`: a function path's allowed effects, and what its callers must be allowed. */
  datatype Lookup = Lookup(allow: map<IdentPath, set<IdentPath>>, require: map<IdentPath, set<IdentPath>>)

  /** `entry(k).or_default().insert(v)`. */
  function Insert(m: map<IdentPath, set<IdentPath>>, k: IdentPath, v: IdentPath): (r: map<IdentPath, set<IdentPath>>)
    ensures k in r && r[k] == (if k in m then m[k] else {}) + {v}
    ensures forall k' :: k' != k ==> (k' in r <==> k' in m) && (k' in m ==> r[k'] == m[k'])
  {
    m[k := (if k in m then m[k] else {}) + {v}]
  }

  /** `add_statement`; a `Trust` statement is not implemented (the program panics). */
  function AddStatementTo(l: Lookup, stmt: Statement): Lookup
    requires !stmt.Trust?
  {
    match stmt
    case Allow(r, e) => l.(allow := Insert(l.allow, r.fnPath, e.fnPath))
    case Require(r, e) =>
      Lookup(Insert(l.allow, r.fnPath, e.fnPath), Insert(l.require, r.fnPath, e.fnPath))
  }

  /** `mark_of_interest`: the callee requires itself of every caller. */
  function MarkOfInterestIn(l: Lookup, callee: IdentPath): Lookup {
    l.(require := Insert(l.require, callee, callee))
  }

  predicate NoTrust(stmts: seq<Statement>) {
    forall i :: 0 <= i < |stmts| ==> !stmts[i].Trust?
  }

  /** `from_policy`: the statements folded into an empty lookup, in order. */
  function FromStatements(stmts: seq<Statement>): Lookup
    requires NoTrust(stmts)
  {
    if stmts == [] then Lookup(map[], map[])
    else AddStatementTo(FromStatements(stmts[..|stmts| - 1]), stmts[|stmts| - 1])
  }

  function MissingEffectMessage(caller: IdentPath, effect: IdentPath): string {
    "Allow list for function " + caller + " missing effect " + effect
  }

  function NoAllowListMessage(caller: IdentPath, effect: IdentPath): string {
    "No allow list for function " + caller + " with effect " + effect
  }

  /**
   * `allow_list_contains`: Ok exactly when the caller has an allow set
   * holding the effect; otherwise the error says which of the two is missing.
   */
  function AllowListContains(l: Lookup, caller: IdentPath, effect: IdentPath): (r: Result<(), string>)
    ensures r.Ok? <==> caller in l.allow && effect in l.allow[caller]
    ensures caller in l.allow && effect !in l.allow[caller] ==> r == Err(MissingEffectMessage(caller, effect))
    ensures caller !in l.allow ==> r == Err(NoAllowListMessage(caller, effect))
    ensures r.Err? ==> r.error == Denial(l, caller, effect)
  {
    if caller in l.allow then
      if effect in l.allow[caller] then Ok(()) else Err(MissingEffectMessage(caller, effect))
    else Err(NoAllowListMessage(caller, effect))
  }

  /** The two kinds of error can be told apart by their first word. */
  lemma MessagesDistinct(caller: IdentPath, effect: IdentPath, caller': IdentPath, effect': IdentPath)
    ensures MissingEffectMessage(caller, effect) != NoAllowListMessage(caller', effect')
  {
    assert MissingEffectMessage(caller, effect)[0] == 'A';
    assert NoAllowListMessage(caller', effect')[0] == 'N';
  }

  /** The error `allow_list_contains` reports when the caller is not allowed the effect. */
  function Denial(l: Lookup, caller: IdentPath, effect: IdentPath): string {
    if caller in l.allow then MissingEffectMessage(caller, effect) else NoAllowListMessage(caller, effect)
  }

  /** `iter_requirements`: nothing when the callee has no require set. */
  function Requirements(l: Lookup, callee: IdentPath): set<IdentPath> {
    if callee in l.require then l.require[callee] else {}
  }

  /** The requirements of the callee that the caller is not allowed. */
  function Unmet(l: Lookup, caller: IdentPath, callee: IdentPath): set<IdentPath> {
    set req | req in Requirements(l, callee) && !(caller in l.allow && req in l.allow[caller])
  }

  /** `check_edge_bool`: every requirement of the callee passes the caller's allow list. */
  function CheckEdgeBool(l: Lookup, caller: IdentPath, callee: IdentPath): bool {
    forall req :: req in Requirements(l, callee) ==> AllowListContains(l, caller, req).Ok?
  }

  /**
   * An edge passes exactly when the callee has no (or an empty) require
   * set, or the caller has an allow set that includes it; and exactly when
   * no requirement is unmet.
   */
  lemma CheckEdgeBoolSpec(l: Lookup, caller: IdentPath, callee: IdentPath)
    ensures CheckEdgeBool(l, caller, callee) <==> (callee !in l.require || l.require[callee] == {}
                    || (caller in l.allow && l.require[callee] <= l.allow[caller]))
    ensures CheckEdgeBool(l, caller, callee) <==> Unmet(l, caller, callee) == {}
  {
    if !CheckEdgeBool(l, caller, callee) {
      var req :| req in Requirements(l, callee) && AllowListContains(l, caller, req).Err?;
      assert req in Unmet(l, caller, callee);
    } else if callee in l.require && l.require[callee] != {} {
      var req :| req in l.require[callee];
      assert AllowListContains(l, caller, req).Ok?;
      forall x | x in l.require[callee] ensures x in l.allow[caller] {
        assert AllowListContains(l, caller, x).Ok?;
      }
    }
  }

  // ----- The lookup as the program keeps it -----

  class PolicyLookup {
    var allowSets: map<IdentPath, set<IdentPath>>
    var requireSets: map<IdentPath, set<IdentPath>>

    function Abs(): Lookup
      reads this
    {
      Lookup(allowSets, requireSets)
    }

    /** `PolicyLookup::empty`. */
    constructor Empty()
      ensures Abs() == Lookup(map[], map[])
    {
      allowSets := map[];
      requireSets := map[];
    }

    method AddStatement(stmt: Statement)
      requires !stmt.Trust?
      modifies this
      ensures Abs() == AddStatementTo(old(Abs()), stmt)
    {
      match stmt
      case Allow(r, e) =>
        allowSets := Insert(allowSets, r.fnPath, e.fnPath);
      case Require(r, e) =>
        requireSets := Insert(requireSets, r.fnPath, e.fnPath);
        allowSets := Insert(allowSets, r.fnPath, e.fnPath);
    }

    method MarkOfInterest(callee: IdentPath)
      modifies this
      ensures Abs() == MarkOfInterestIn(old(Abs()), callee)
    {
      requireSets := Insert(requireSets, callee, callee);
    }

    /** `from_policy`: a fresh lookup with every statement of the policy added in order. */
    static method FromPolicy(p: Policy) returns (result: PolicyLookup)
      requires NoTrust(p.statements)
      ensures fresh(result) && result.Abs() == FromStatements(p.statements)
    {
      result := new PolicyLookup.Empty();
      for i := 0 to |p.statements|
        invariant NoTrust(p.statements[..i])
        invariant result.Abs() == FromStatements(p.statements[..i])
      {
        assert p.statements[..i + 1][..i] == p.statements[..i];
        result.AddStatement(p.statements[i]);
      }
      assert p.statements[..|p.statements|] == p.statements;
    }

    /**
     * `check_edge`: one error per unmet requirement of the callee, appended
     * after the errors already in the list. `order` is the order in which
     * the require set happens to be visited: it lists every unmet
     * requirement once. The lookup is only read.
     */
    method CheckEdge(caller: IdentPath, callee: IdentPath, errorList: seq<string>)
      returns (errors: seq<string>, ghost order: seq<IdentPath>)
      ensures Distinct(order) && forall x :: x in order <==> x in Unmet(Abs(), caller, callee)
      ensures errors == errorList + Denials(Abs(), caller, order)
      ensures errors == errorList <==> CheckEdgeBool(Abs(), caller, callee)
    {
      var l := Abs();
      var remaining := Requirements(l, callee);
      order := [];
      errors := errorList;
      while remaining != {}
        invariant remaining <= Requirements(l, callee)
        invariant forall x :: x in order <==> x in Unmet(l, caller, callee) && x !in remaining
        invariant Distinct(order)
        invariant errors == errorList + Denials(l, caller, order)
        decreases |remaining|
      {
        var req :| req in remaining;
        var r := AllowListContains(l, caller, req);
        if r.Err? {
          DenialsSnoc(l, caller, order, req);
          errors := errors + [r.error];
          order := order + [req];
        }
        remaining := remaining - {req};
      }
      CheckEdgeBoolSpec(l, caller, callee);
      if order != [] {
        assert order[0] in Unmet(l, caller, callee);
      }
    }
  }

  /** `check_edge` reports exactly as many errors as there are unmet requirements, each naming one of them. */
  lemma CheckEdgeCount(l: Lookup, caller: IdentPath, order: seq<IdentPath>, callee: IdentPath)
    requires Distinct(order) && forall x :: x in order <==> x in Unmet(l, caller, callee)
    ensures |Denials(l, caller, order)| == |Unmet(l, caller, callee)|
    ensures forall req :: req in Unmet(l, caller, callee) ==> Denial(l, caller, req) in Denials(l, caller, order)
  {
    DistinctCard(order, Unmet(l, caller, callee));
    forall req | req in Unmet(l, caller, callee)
      ensures Denial(l, caller, req) in Denials(l, caller, order)
    {
      var k :| 0 <= k < |order| && order[k] == req;
      DenialsAt(l, caller, order, k);
    }
  }

  /** The errors reported for a list of unmet requirements, in that order. */
  function Denials(l: Lookup, caller: IdentPath, reqs: seq<IdentPath>): (r: seq<string>)
    ensures |r| == |reqs|
  {
    if reqs == [] then [] else Denials(l, caller, reqs[..|reqs| - 1]) + [Denial(l, caller, reqs[|reqs| - 1])]
  }

  lemma {:induction false} DenialsAt(l: Lookup, caller: IdentPath, reqs: seq<IdentPath>, k: nat)
    requires k < |reqs|
    ensures Denials(l, caller, reqs)[k] == Denial(l, caller, reqs[k])
  {
    if k < |reqs| - 1 {
      DenialsAt(l, caller, reqs[..|reqs| - 1], k);
    }
  }

  lemma DenialsSnoc(l: Lookup, caller: IdentPath, reqs: seq<IdentPath>, req: IdentPath)
    ensures Denials(l, caller, reqs + [req]) == Denials(l, caller, reqs) + [Denial(l, caller, req)]
  {
    assert (reqs + [req])[..|reqs|] == reqs;
  }

  predicate Distinct<T(==)>(s: seq<T>) {
    forall i, j :: 0 <= i < j < |s| ==> s[i] != s[j]
  }

  lemma DistinctSnoc<T>(s: seq<T>, x: T)
    requires Distinct(s) && x !in s
    ensures Distinct(s + [x])
  {
  }

  /** A list without repeats that has exactly the elements of a set is as long as the set is large. */
  lemma {:induction false} DistinctCard<T>(s: seq<T>, xs: set<T>)
    requires Distinct(s) && forall x :: x in s <==> x in xs
    ensures |s| == |xs|
  {
    if s != [] {
      var last := s[|s| - 1];
      var init := s[..|s| - 1];
      assert forall x :: x in init <==> x in xs - {last} by {
        forall x ensures x in init <==> x in xs - {last} {
          if x in init {
            var i :| 0 <= i < |init| && init[i] == x;
            assert s[i] == x && i < |s| - 1;
          }
          if x in xs - {last} {
            assert x in s;
            var i :| 0 <= i < |s| && s[i] == x;
            assert i != |s| - 1;
            assert init[i] == x;
          }
        }
      }
      DistinctCard(init, xs - {last});
    } else {
      assert forall x :: x !in xs;
      assert xs == {};
    }
  }

  // ----- Properties of the lookup -----

  /** An `Allow` puts the effect in the region's allow set and changes nothing else. */
  lemma AddAllowSpec(l: Lookup, r: FnCall, e: FnCall)
    ensures var l' := AddStatementTo(l, Allow(r, e));
      l'.require == l.require && r.fnPath in l'.allow && e.fnPath in l'.allow[r.fnPath]
      && (r.fnPath in l.allow ==> l'.allow[r.fnPath] == l.allow[r.fnPath] + {e.fnPath})
      && forall k :: k != r.fnPath ==> (k in l'.allow <==> k in l.allow) && (k in l.allow ==> l'.allow[k] == l.allow[k])
  {
  }

  /** A `Require` puts the effect in both the region's require set and its allow set. */
  lemma AddRequireSpec(l: Lookup, r: FnCall, e: FnCall)
    ensures var l' := AddStatementTo(l, Require(r, e));
      r.fnPath in l'.require && e.fnPath in l'.require[r.fnPath]
      && r.fnPath in l'.allow && e.fnPath in l'.allow[r.fnPath]
      && forall k :: k != r.fnPath ==> (k in l'.allow <==> k in l.allow) && (k in l'.require <==> k in l.require)
  {
  }

  /** Marking `c` adds `c` to its own requirements and changes nothing else. */
  lemma MarkOfInterestSpec(l: Lookup, c: IdentPath, k: IdentPath)
    ensures Allowed(MarkOfInterestIn(l, c), k) == Allowed(l, k)
    ensures Requirements(MarkOfInterestIn(l, c), k) == Requirements(l, k) + (if k == c then {c} else {})
  {
  }

  /** After marking `c`, an edge into `c` passes exactly when the caller is allowed `c` and all of `c`'s other requirements. */
  lemma MarkedNeedsAllow(l: Lookup, caller: IdentPath, c: IdentPath)
    ensures CheckEdgeBool(MarkOfInterestIn(l, c), caller, c) <==>
      c in Allowed(l, caller) && Requirements(l, c) <= Allowed(l, caller)
  {
    MarkOfInterestSpec(l, c, c);
    MarkOfInterestSpec(l, c, caller);
    CheckEdgeBoolSubset(MarkOfInterestIn(l, c), caller, c);
  }

  /** Allowing more never makes an edge fail. */
  lemma AllowMonotone(l: Lookup, r: FnCall, e: FnCall, caller: IdentPath, callee: IdentPath)
    requires CheckEdgeBool(l, caller, callee)
    ensures CheckEdgeBool(AddStatementTo(l, Allow(r, e)), caller, callee)
  {
    AddStatementKeys(l, Allow(r, e), caller);
    AddStatementKeys(l, Allow(r, e), callee);
    CheckEdgeBoolSubset(l, caller, callee);
    CheckEdgeBoolSubset(AddStatementTo(l, Allow(r, e)), caller, callee);
  }

  lemma FromStatementsSnoc(stmts: seq<Statement>, s: Statement)
    requires NoTrust(stmts) && !s.Trust?
    ensures NoTrust(stmts + [s])
    ensures FromStatements(stmts + [s]) == AddStatementTo(FromStatements(stmts), s)
  {
    assert (stmts + [s])[..|stmts|] == stmts;
  }

  /** The effects a function is allowed: its allow set, or none. */
  function Allowed(l: Lookup, caller: IdentPath): set<IdentPath> {
    if caller in l.allow then l.allow[caller] else {}
  }

  /** An edge passes exactly when the callee's requirements are among the caller's allowed effects. */
  lemma CheckEdgeBoolSubset(l: Lookup, caller: IdentPath, callee: IdentPath)
    ensures CheckEdgeBool(l, caller, callee) <==> Requirements(l, callee) <= Allowed(l, caller)
  {
    CheckEdgeBoolSpec(l, caller, callee);
  }

  // ----- The unit tests of policy.rs, as lemmas -----

  /** A policy of `Allow` statements only has no requirements. */
  lemma {:induction false} AllowOnlyRequiresNothing(stmts: seq<Statement>)
    requires NoTrust(stmts) && forall i :: 0 <= i < |stmts| ==> stmts[i].Allow?
    ensures FromStatements(stmts).require == map[]
  {
    if stmts != [] {
      AllowOnlyRequiresNothing(stmts[..|stmts| - 1]);
    }
  }

  /** One statement more, seen through `Allowed` and `Requirements`. */
  lemma AddStatementKeys(l: Lookup, stmt: Statement, k: IdentPath)
    requires !stmt.Trust?
    ensures Allowed(AddStatementTo(l, stmt), k) == Allowed(l, k) + (if k == stmt.region.fnPath then {stmt.effect.fnPath} else {})
    ensures Requirements(AddStatementTo(l, stmt), k) == Requirements(l, k)
      + (if stmt.Require? && k == stmt.region.fnPath then {stmt.effect.fnPath} else {})
  {
  }

  lemma FromStatementsKeys(stmts: seq<Statement>, s: Statement, k: IdentPath)
    requires NoTrust(stmts) && !s.Trust?
    ensures NoTrust(stmts + [s])
    ensures Allowed(FromStatements(stmts + [s]), k) == Allowed(FromStatements(stmts), k) + (if k == s.region.fnPath then {s.effect.fnPath} else {})
    ensures Requirements(FromStatements(stmts + [s]), k) == Requirements(FromStatements(stmts), k)
      + (if s.Require? && k == s.region.fnPath then {s.effect.fnPath} else {})
  {
    FromStatementsSnoc(stmts, s);
    AddStatementKeys(FromStatements(stmts), s, k);
  }

  /** The effects the statements allow a function: every `Allow` or `Require` whose region is that function. */
  function AllowedBy(stmts: seq<Statement>, k: IdentPath): set<IdentPath>
    requires NoTrust(stmts)
  {
    if stmts == [] then {}
    else
      var last := stmts[|stmts| - 1];
      AllowedBy(stmts[..|stmts| - 1], k) + (if last.region.fnPath == k then {last.effect.fnPath} else {})
  }

  /** The effects the statements require of a function's callers: every `Require` whose region is that function. */
  function RequiredBy(stmts: seq<Statement>, k: IdentPath): set<IdentPath>
    requires NoTrust(stmts)
  {
    if stmts == [] then {}
    else
      var last := stmts[|stmts| - 1];
      RequiredBy(stmts[..|stmts| - 1], k) + (if last.Require? && last.region.fnPath == k then {last.effect.fnPath} else {})
  }

  /** The lookup built from a policy holds exactly what its statements allow and require. */
  lemma {:induction false} FromStatementsSpec(stmts: seq<Statement>, k: IdentPath)
    requires NoTrust(stmts)
    ensures Allowed(FromStatements(stmts), k) == AllowedBy(stmts, k)
    ensures Requirements(FromStatements(stmts), k) == RequiredBy(stmts, k)
  {
    if stmts != [] {
      FromStatementsSpec(stmts[..|stmts| - 1], k);
      AddStatementKeys(FromStatements(stmts[..|stmts| - 1]), stmts[|stmts| - 1], k);
    }
  }

  // ----- The unit tests of policy.rs, as lemmas -----

  /** The two effects `ex_lookup` marks as of interest: each requires itself. */
  function Marks(k: IdentPath): set<IdentPath> {
    (if k == "libc::effect" then {"libc::effect"} else {}) + (if k == "std::effect" then {"std::effect"} else {})
  }

  /** `ex_lookup`: the lookup of the statements, with both example effects marked. */
  function ExLookup(stmts: seq<Statement>): Lookup
    requires NoTrust(stmts)
  {
    MarkOfInterestIn(MarkOfInterestIn(FromStatements(stmts), "libc::effect"), "std::effect")
  }

  /** An edge in `ex_lookup`: the callee's requirements, plus its mark, must be among the caller's allowed effects. */
  lemma ExLookupEdge(stmts: seq<Statement>, caller: IdentPath, callee: IdentPath)
    requires NoTrust(stmts)
    ensures CheckEdgeBool(ExLookup(stmts), caller, callee) <==>
      Requirements(FromStatements(stmts), callee) + Marks(callee) <= Allowed(FromStatements(stmts), caller)
  {
    var l := FromStatements(stmts);
    var m := MarkOfInterestIn(l, "libc::effect");
    MarkOfInterestSpec(l, "libc::effect", caller);
    MarkOfInterestSpec(l, "libc::effect", callee);
    MarkOfInterestSpec(m, "std::effect", caller);
    MarkOfInterestSpec(m, "std::effect", callee);
    CheckEdgeBoolSubset(ExLookup(stmts), caller, callee);
  }

  /** `test_policy_lookup_trivial`: an edge between plain functions passes; an edge into an effect fails. */
  lemma TrivialTest()
    ensures CheckEdgeBool(ExLookup([]), "foo", "bar")
    ensures !CheckEdgeBool(ExLookup([]), "foo", "std::effect")
  {
    ExLookupEdge([], "foo", "bar");
    ExLookupEdge([], "foo", "std::effect");
  }

  /** The lookup of a one-statement policy, for any function path. */
  lemma OneStatementKeys(s1: Statement, k: IdentPath)
    requires !s1.Trust?
    ensures NoTrust([s1])
    ensures Allowed(FromStatements([s1]), k) == (if k == s1.region.fnPath then {s1.effect.fnPath} else {})
    ensures Requirements(FromStatements([s1]), k) == (if s1.Require? && k == s1.region.fnPath then {s1.effect.fnPath} else {})
  {
    var none: seq<Statement> := [];
    FromStatementsKeys(none, s1, k);
    assert none + [s1] == [s1];
    EmptyKeys(FromStatements(none), k);
  }

  lemma EmptyKeys(l: Lookup, k: IdentPath)
    requires l == Lookup(map[], map[])
    ensures Allowed(l, k) == {} && Requirements(l, k) == {}
  {
  }

  /** The lookup of a two-statement policy, for any function path. */
  lemma TwoStatementKeys(s1: Statement, s2: Statement, k: IdentPath)
    requires !s1.Trust? && !s2.Trust?
    ensures NoTrust([s1, s2])
    ensures Allowed(FromStatements([s1, s2]), k)
      == (if k == s1.region.fnPath then {s1.effect.fnPath} else {}) + (if k == s2.region.fnPath then {s2.effect.fnPath} else {})
    ensures Requirements(FromStatements([s1, s2]), k)
      == (if s1.Require? && k == s1.region.fnPath then {s1.effect.fnPath} else {})
       + (if s2.Require? && k == s2.region.fnPath then {s2.effect.fnPath} else {})
  {
    OneStatementKeys(s1, k);
    FromStatementsKeys([s1], s2, k);
    assert [s1] + [s2] == [s1, s2];
  }

  /** An edge in `ex_lookup` of a one-statement policy. */
  lemma OneStatementEdge(s1: Statement, caller: IdentPath, callee: IdentPath)
    requires !s1.Trust?
    ensures NoTrust([s1])
    ensures CheckEdgeBool(ExLookup([s1]), caller, callee) <==>
      (if s1.Require? && callee == s1.region.fnPath then {s1.effect.fnPath} else {}) + Marks(callee)
      <= (if caller == s1.region.fnPath then {s1.effect.fnPath} else {})
  {
    OneStatementKeys(s1, caller);
    OneStatementKeys(s1, callee);
    ExLookupEdge([s1], caller, callee);
  }

  /** An edge in `ex_lookup` of a two-statement policy. */
  lemma TwoStatementEdge(s1: Statement, s2: Statement, caller: IdentPath, callee: IdentPath)
    requires !s1.Trust? && !s2.Trust?
    ensures NoTrust([s1, s2])
    ensures CheckEdgeBool(ExLookup([s1, s2]), caller, callee) <==>
      (if s1.Require? && callee == s1.region.fnPath then {s1.effect.fnPath} else {})
      + (if s2.Require? && callee == s2.region.fnPath then {s2.effect.fnPath} else {}) + Marks(callee)
      <= (if caller == s1.region.fnPath then {s1.effect.fnPath} else {}) + (if caller == s2.region.fnPath then {s2.effect.fnPath} else {})
  {
    TwoStatementKeys(s1, s2, caller);
    TwoStatementKeys(s1, s2, callee);
    ExLookupEdge([s1, s2], caller, callee);
  }

  /** `test_policy_lookup_allow`. */
  lemma AllowTest()
    ensures var l := ExLookup([Statement.AllowSimple("foo", "std::effect")]);
      CheckEdgeBool(l, "foo", "std::effect") && !CheckEdgeBool(l, "foo", "libc::effect")
      && CheckEdgeBool(l, "foo", "std::non_effect") && !CheckEdgeBool(l, "bar", "std::effect")
      && CheckEdgeBool(l, "bar", "foo")
  {
    var s1 := Statement.AllowSimple("foo", "std::effect");
    OneStatementEdge(s1, "foo", "std::effect");
    OneStatementEdge(s1, "foo", "libc::effect");
    OneStatementEdge(s1, "foo", "std::non_effect");
    OneStatementEdge(s1, "bar", "std::effect");
    OneStatementEdge(s1, "bar", "foo");
  }

  /** `test_policy_lookup_require`: a requirement on `foo` makes `bar -> foo` fail, while `foo -> bar` passes. */
  lemma RequireTest()
    ensures var l := ExLookup([Statement.RequireSimple("foo", "std::effect")]);
      CheckEdgeBool(l, "foo", "std::effect") && !CheckEdgeBool(l, "foo", "libc::effect")
      && !CheckEdgeBool(l, "bar", "std::effect") && !CheckEdgeBool(l, "bar", "foo")
      && CheckEdgeBool(l, "foo", "bar")
  {
    var s1 := Statement.RequireSimple("foo", "std::effect");
    OneStatementEdge(s1, "foo", "std::effect");
    OneStatementEdge(s1, "foo", "libc::effect");
    OneStatementEdge(s1, "bar", "std::effect");
    OneStatementEdge(s1, "bar", "foo");
    OneStatementEdge(s1, "foo", "bar");
  }

  /** `test_policy_lookup_1`: allowing one effect of interest and one plain function. */
  lemma Lookup1Test()
    ensures var l := ExLookup([Statement.AllowSimple("foo::bar", "libc::effect"), Statement.AllowSimple("foo::bar", "libc::non_effect")]);
      CheckEdgeBool(l, "foo::bar", "libc::effect") && !CheckEdgeBool(l, "foo::bar", "std::effect")
      && CheckEdgeBool(l, "foo::bar", "libc::non_effect") && CheckEdgeBool(l, "foo::bar", "std::non_effect")
  {
    var s1, s2 := Statement.AllowSimple("foo::bar", "libc::effect"), Statement.AllowSimple("foo::bar", "libc::non_effect");
    TwoStatementEdge(s1, s2, "foo::bar", "libc::effect");
    TwoStatementEdge(s1, s2, "foo::bar", "std::effect");
    TwoStatementEdge(s1, s2, "foo::bar", "libc::non_effect");
    TwoStatementEdge(s1, s2, "foo::bar", "std::non_effect");
  }

  /** `test_policy_lookup_cycle`: two functions requiring the same effect may call each other. */
  lemma CycleTest()
    ensures var l := ExLookup([Statement.RequireSimple("foo", "libc::effect"), Statement.RequireSimple("bar", "libc::effect")]);
      CheckEdgeBool(l, "foo", "bar") && CheckEdgeBool(l, "bar", "foo")
  {
    var s1, s2 := Statement.RequireSimple("foo", "libc::effect"), Statement.RequireSimple("bar", "libc::effect");
    TwoStatementEdge(s1, s2, "foo", "bar");
    TwoStatementEdge(s1, s2, "bar", "foo");
  }

  /** The statements of `test_policy_lookup_2`, in order. */
  function Lookup2Statements(): (r: seq<Statement>)
    ensures NoTrust(r)
  {
    [ Statement.AllowSimple("foo::bar", "std::effect"),
      Statement.RequireSimple("foo::bar", "libc::effect"),
      Statement.RequireSimple("foo::f1", "libc::effect"),
      Statement.RequireSimple("foo::f2", "libc::effect"),
      Statement.AllowSimple("foo::g1", "libc::effect"),
      Statement.AllowSimple("foo::g2", "libc::effect") ]
  }

  /** What the lookup of `test_policy_lookup_2` holds for any function path. */
  lemma Lookup2Keys(k: IdentPath)
    ensures Allowed(FromStatements(Lookup2Statements()), k)
      == (if k == "foo::bar" then {"std::effect", "libc::effect"} else {})
       + (if k == "foo::f1" || k == "foo::f2" || k == "foo::g1" || k == "foo::g2" then {"libc::effect"} else {})
    ensures Requirements(FromStatements(Lookup2Statements()), k)
      == (if k == "foo::bar" || k == "foo::f1" || k == "foo::f2" then {"libc::effect"} else {})
  {
    var stmts := Lookup2Statements();
    var p0: seq<Statement> := [];
    FromStatementsKeys(p0, stmts[0], k);
    var p1 := p0 + [stmts[0]];
    FromStatementsKeys(p1, stmts[1], k);
    var p2 := p1 + [stmts[1]];
    FromStatementsKeys(p2, stmts[2], k);
    var p3 := p2 + [stmts[2]];
    FromStatementsKeys(p3, stmts[3], k);
    var p4 := p3 + [stmts[3]];
    FromStatementsKeys(p4, stmts[4], k);
    var p5 := p4 + [stmts[4]];
    FromStatementsKeys(p5, stmts[5], k);
    assert p5 + [stmts[5]] == stmts;
  }

  /** An edge in `ex_lookup` of the policy of `test_policy_lookup_2`. */
  lemma Lookup2Edge(caller: IdentPath, callee: IdentPath)
    ensures CheckEdgeBool(ExLookup(Lookup2Statements()), caller, callee) <==>
      (if callee == "foo::bar" || callee == "foo::f1" || callee == "foo::f2" then {"libc::effect"} else {}) + Marks(callee)
      <= (if caller == "foo::bar" then {"std::effect", "libc::effect"} else {})
       + (if caller == "foo::f1" || caller == "foo::f2" || caller == "foo::g1" || caller == "foo::g2" then {"libc::effect"} else {})
  {
    Lookup2Keys(caller);
    Lookup2Keys(callee);
    ExLookupEdge(Lookup2Statements(), caller, callee);
  }

  /** `test_policy_lookup_2`. */
  lemma Lookup2Test()
    ensures var l := ExLookup(Lookup2Statements());
      CheckEdgeBool(l, "foo::bar", "libc::effect") && CheckEdgeBool(l, "foo::bar", "std::effect")
      && CheckEdgeBool(l, "foo::f1", "foo::bar") && CheckEdgeBool(l, "foo::f2", "foo::f1")
      && CheckEdgeBool(l, "foo::g1", "foo::f1") && CheckEdgeBool(l, "foo::g2", "foo::f2")
      && CheckEdgeBool(l, "foo::g2", "foo::f1") && CheckEdgeBool(l, "foo::g3", "foo::g2")
      && !CheckEdgeBool(l, "foo::g3", "foo::f1") && !CheckEdgeBool(l, "foo::g3", "foo::f2")
  {
    Lookup2Edge("foo::bar", "libc::effect");
    Lookup2Edge("foo::bar", "std::effect");
    Lookup2Edge("foo::f1", "foo::bar");
    Lookup2Edge("foo::f2", "foo::f1");
    Lookup2Edge("foo::g1", "foo::f1");
    Lookup2Edge("foo::g2", "foo::f2");
    Lookup2Edge("foo::g2", "foo::f1");
    Lookup2Edge("foo::g3", "foo::g2");
    Lookup2Edge("foo::g3", "foo::f1");
    Lookup2Edge("foo::g3", "foo::f2");
  }
}
