/**
 * The heuristic parser for one `use ...;` statement of Rust (scan.py's
 * `parse_use` and `parse_use_core`): checks the statement's shape, then expands
 * nested brace groups into the list of imported paths.
 */
module UseParser {
  import opened Outcomes
  import opened Strings
  import opened Sorting

  /** The warnings the parser logs, one constructor per message. */
  datatype UseWarning =
    | NotNewlineTerminated   // the statement does not end in a newline
    | NotUseStatement        // it does not start with "use "
    | NoSemicolon            // it holds no ';'
    | ExtraSlash             // it holds a '/'
    | NoFinalSemicolon       // without its newlines, it does not end in ';'
    | ExtraSemicolon         // a ';' before the final one (warns only)
    | UnexpectedComma        // a ',' outside every brace group (stops)
    | UnexpectedCloseBrace   // a '}' outside every brace group (stops)
    | UnclosedBrace          // a '{' left open at the end (warns only)

  /**
   * The state of `parse_use_core` between two characters: the stack of
   * enclosing prefixes, the current path `cur`, the text `pending` read since
   * the last brace or comma, the paths yielded so far, and the warning that
   * ended the expansion early, if any.
   */
  datatype CoreState = CoreState(
    stack: seq<string>,
    cur: string,
    pending: string,
    out: seq<string>,
    stop: Option<UseWarning>)

  const CoreInit: CoreState := CoreState([], "", "", [], None)

  predicate IsGroupChar(ch: char) {
    ch == '{' || ch == ',' || ch == '}'
  }

  predicate NoGroupChars(s: string) {
    forall i :: 0 <= i < |s| ==> !IsGroupChar(s[i])
  }

  /** One iteration of the character loop; a stopped state no longer changes. */
  function Step(st: CoreState, ch: char): CoreState {
    if st.stop.Some? then st
    else if !IsGroupChar(ch) then st.(pending := st.pending + [ch])
    else
      var cur := st.cur + Strip(st.pending);
      if ch == '{' then
        st.(stack := st.stack + [cur], cur := cur, pending := "")
      else if ch == ',' then
        if st.stack == [] then st.(cur := cur, pending := "", stop := Some(UnexpectedComma))
        else st.(out := st.out + [cur], cur := st.stack[|st.stack| - 1], pending := "")
      else
        if st.stack == [] then st.(cur := cur, pending := "", stop := Some(UnexpectedCloseBrace))
        else st.(stack := st.stack[..|st.stack| - 1], cur := cur, pending := "")
  }

  /** The state after the loop has read all of `s`. */
  function CoreRun(s: string): CoreState {
    if s == [] then CoreInit else Step(CoreRun(s[..|s| - 1]), s[|s| - 1])
  }

  /**
   * What `parse_use_core` yields for `expr`, with its warnings: after an early
   * stop only the paths yielded so far; otherwise also the final `cur`.
   */
  function ExpandUse(expr: string): (r: (seq<string>, seq<UseWarning>))
    ensures |r.1| <= 1
    ensures r.1 == [] ==> |r.0| > 0
  {
    var st := CoreRun(expr);
    if st.stop.Some? then (st.out, [st.stop.value])
    else (st.out + [st.cur + Strip(st.pending)], if st.stack != [] then [UnclosedBrace] else [])
  }

  /** `parse_use_core`, as the character loop of the source. */
  method ParseUseCore(expr: string) returns (paths: seq<string>, warnings: seq<UseWarning>)
    ensures (paths, warnings) == ExpandUse(expr)
  {
    var stack: seq<string> := [];
    var cur := "";
    var pending := "";
    paths := [];
    for i := 0 to |expr|
      invariant CoreRun(expr[..i]) == CoreState(stack, cur, pending, paths, None)
    {
      var ch := expr[i];
      ghost var st := CoreState(stack, cur, pending, paths, None);
      assert expr[..i + 1][..i] == expr[..i];
      CoreRunUnfold(expr[..i + 1]);
      if IsGroupChar(ch) {
        cur, pending := cur + Strip(pending), "";
      }
      if ch == '{' {
        StepOpen(st);
        stack := stack + [cur];
      } else if ch == ',' {
        if stack == [] {
          StopPersists(expr, i + 1);
          return paths, [UnexpectedComma];
        }
        StepComma(st);
        paths := paths + [cur];
        cur := stack[|stack| - 1];
      } else if ch == '}' {
        if stack == [] {
          StopPersists(expr, i + 1);
          return paths, [UnexpectedCloseBrace];
        }
        StepClose(st);
        stack := stack[..|stack| - 1];
      } else {
        StepPlain(st, ch);
        pending := pending + [ch];
      }
    }
    assert expr[..|expr|] == expr;
    warnings := if stack != [] then [UnclosedBrace] else [];
    cur, pending := cur + Strip(pending), "";
    paths := paths + [cur];
  }

  /** Once the loop has stopped, the rest of the input changes nothing. */
  lemma {:induction false} StopPersists(s: string, k: nat)
    requires k <= |s| && CoreRun(s[..k]).stop.Some?
    ensures CoreRun(s) == CoreRun(s[..k])
    decreases |s| - k
  {
    if k < |s| {
      assert s[..k + 1][..k] == s[..k];
      StopPersists(s, k + 1);
    } else {
      assert s[..k] == s;
    }
  }

  /** Without an early stop, one path is yielded per comma read. */
  lemma {:induction false} CoreRunCommaCount(s: string)
    ensures CoreRun(s).stop.None? ==> |CoreRun(s).out| == CountChar(s, ',')
  {
    if s != [] {
      var init := s[..|s| - 1];
      var ch := s[|s| - 1];
      CoreRunCommaCount(init);
      assert s == init + [ch];
      CountCharConcat(init, [ch], ',');
      assert CountChar([ch], ',') == if ch == ',' then 1 else 0 by {
        assert [ch][1..] == [];
      }
      if CoreRun(s).stop.None? {
        StepOutCount(CoreRun(init), ch);
      }
    }
  }

  lemma StepOutCount(st: CoreState, ch: char)
    requires Step(st, ch).stop.None?
    ensures st.stop.None?
    ensures |Step(st, ch).out| == |st.out| + (if ch == ',' then 1 else 0)
  {
  }

  /** The expansion stops early only on an unexpected ',' or '}'. */
  lemma {:induction false} CoreRunStopKinds(s: string)
    ensures CoreRun(s).stop == None || CoreRun(s).stop == Some(UnexpectedComma)
         || CoreRun(s).stop == Some(UnexpectedCloseBrace)
  {
    if s != [] {
      CoreRunStopKinds(s[..|s| - 1]);
    }
  }

  /**
   * Without a stopping warning the expansion yields one path more than the
   * input has commas; an unclosed brace still yields the final path.
   */
  lemma ExpandUsePathCount(s: string)
    requires UnexpectedComma !in ExpandUse(s).1 && UnexpectedCloseBrace !in ExpandUse(s).1
    ensures |ExpandUse(s).0| == CountChar(s, ',') + 1
    ensures ExpandUse(s).1 == [] || ExpandUse(s).1 == [UnclosedBrace]
  {
    CoreRunCommaCount(s);
    CoreRunStopKinds(s);
  }

  /**
   * The stack is a chain of prefixes, each entry extending the one below it,
   * and `cur` extends the top entry.
   */
  predicate PrefixChain(st: CoreState) {
    (forall i :: 0 <= i < |st.stack| - 1 ==> st.stack[i] <= st.stack[i + 1])
    && (st.stack != [] ==> st.stack[|st.stack| - 1] <= st.cur)
  }

  lemma StepKeepsPrefixChain(st: CoreState, ch: char)
    requires PrefixChain(st)
    ensures PrefixChain(Step(st, ch))
  {
    if st.stop.None? {
      var cur := st.cur + Strip(st.pending);
      assert st.cur <= cur;
      if !IsGroupChar(ch) {
        StepPlain(st, ch);
        SameChain(st, st.(pending := st.pending + [ch]));
      } else if ch == '{' {
        StepOpen(st);
        OpenKeepsPrefixChain(st.stack, st.cur, cur);
        ChainOf(st.(stack := st.stack + [cur], cur := cur, pending := ""));
      } else if st.stack != [] && ch == ',' {
        StepComma(st);
        SameStackChain(st, st.(out := st.out + [cur], cur := st.stack[|st.stack| - 1], pending := ""));
      } else if st.stack != [] {
        StepClose(st);
        CloseKeepsPrefixChain(st.stack, st.cur, cur);
        ChainOf(st.(stack := st.stack[..|st.stack| - 1], cur := cur, pending := ""));
      } else {
        assert Step(st, ch).stack == [];
        ChainOf(Step(st, ch));
      }
    }
  }

  /** The two halves of `PrefixChain`, spelled out for one state. */
  lemma ChainOf(n: CoreState)
    requires forall i :: 0 <= i < |n.stack| - 1 ==> n.stack[i] <= n.stack[i + 1]
    requires n.stack != [] ==> n.stack[|n.stack| - 1] <= n.cur
    ensures PrefixChain(n)
  {
  }

  lemma SameChain(st: CoreState, n: CoreState)
    requires PrefixChain(st) && n.stack == st.stack && n.cur == st.cur
    ensures PrefixChain(n)
  {
  }

  lemma SameStackChain(st: CoreState, n: CoreState)
    requires PrefixChain(st) && n.stack == st.stack && st.stack != [] && n.cur == st.stack[|st.stack| - 1]
    ensures PrefixChain(n)
  {
  }

  lemma PrefixTrans(a: string, b: string, c: string)
    requires a <= b && b <= c
    ensures a <= c
  {
    assert c[..|b|][..|a|] == c[..|a|];
  }

  lemma OpenKeepsPrefixChain(stack: seq<string>, old_cur: string, cur: string)
    requires forall i :: 0 <= i < |stack| - 1 ==> stack[i] <= stack[i + 1]
    requires stack != [] ==> stack[|stack| - 1] <= old_cur
    requires old_cur <= cur
    ensures forall i :: 0 <= i < |stack + [cur]| - 1 ==> (stack + [cur])[i] <= (stack + [cur])[i + 1]
  {
    var n := stack + [cur];
    forall i | 0 <= i < |n| - 1 ensures n[i] <= n[i + 1] {
      if i == |stack| - 1 {
        PrefixTrans(stack[i], old_cur, cur);
      } else {
        assert n[i] == stack[i] && n[i + 1] == stack[i + 1];
      }
    }
  }

  lemma CloseKeepsPrefixChain(stack: seq<string>, old_cur: string, cur: string)
    requires stack != []
    requires forall i :: 0 <= i < |stack| - 1 ==> stack[i] <= stack[i + 1]
    requires stack[|stack| - 1] <= old_cur && old_cur <= cur
    ensures var n := stack[..|stack| - 1];
      && (forall i :: 0 <= i < |n| - 1 ==> n[i] <= n[i + 1])
      && (n != [] ==> n[|n| - 1] <= cur)
  {
    var n := stack[..|stack| - 1];
    forall i | 0 <= i < |n| - 1 ensures n[i] <= n[i + 1] {
      assert n[i] == stack[i] && n[i + 1] == stack[i + 1];
    }
    if n != [] {
      var k := |stack|;
      PrefixTrans(stack[k - 2], stack[k - 1], old_cur);
      PrefixTrans(stack[k - 2], old_cur, cur);
    }
  }

  lemma {:induction false} CoreRunPrefixChain(s: string)
    ensures PrefixChain(CoreRun(s))
  {
    if s != [] {
      CoreRunPrefixChain(s[..|s| - 1]);
      StepKeepsPrefixChain(CoreRun(s[..|s| - 1]), s[|s| - 1]);
    }
  }

  /**
   * A ',' or '}' read while no brace is open stops the expansion with its
   * warning, keeping exactly the paths yielded before it.
   */
  lemma EarlyStop(s: string, k: nat)
    requires k < |s| && (s[k] == ',' || s[k] == '}')
    requires CoreRun(s[..k]).stop.None? && CoreRun(s[..k]).stack == []
    ensures ExpandUse(s) == (CoreRun(s[..k]).out, [if s[k] == ',' then UnexpectedComma else UnexpectedCloseBrace])
  {
    assert s[..k + 1][..k] == s[..k];
    StopPersists(s, k + 1);
  }

  /** Text without braces or commas only accumulates in `pending`. */
  lemma {:induction false} CoreRunPlain(s: string)
    requires NoGroupChars(s)
    ensures CoreRun(s) == CoreState([], "", s, [], None)
  {
    if s != [] {
      var init, ch := s[..|s| - 1], s[|s| - 1];
      NoGroupCharsPrefix(s);
      CoreRunPlain(init);
      CoreRunUnfold(s);
      StepPlain(CoreState([], "", init, [], None), ch);
      InitThenLast(s);
    }
  }

  lemma CoreRunUnfold(s: string)
    requires s != []
    ensures CoreRun(s) == Step(CoreRun(s[..|s| - 1]), s[|s| - 1])
  {
  }

  lemma NoGroupCharsPrefix(s: string)
    requires NoGroupChars(s) && s != []
    ensures NoGroupChars(s[..|s| - 1]) && !IsGroupChar(s[|s| - 1])
  {
    var init := s[..|s| - 1];
    forall i | 0 <= i < |init| ensures !IsGroupChar(init[i]) {
      assert init[i] == s[i];
    }
  }

  /** Input with no braces or commas yields exactly itself, stripped. */
  lemma ExpandUsePlain(s: string)
    requires NoGroupChars(s)
    ensures ExpandUse(s) == ([Strip(s)], [])
  {
    CoreRunPlain(s);
    PlainResult(CoreRun(s), s);
  }

  lemma PlainResult(st: CoreState, s: string)
    requires st == CoreState([], "", s, [], None)
    ensures st.out + [st.cur + Strip(st.pending)] == [Strip(s)]
  {
    var x := Strip(s);
    assert "" + x == x;
    assert [] + [x] == [x];
  }

  /** Reading one more character is one more step. */
  lemma CoreRunSnoc(p: string, ch: char)
    ensures CoreRun(p + [ch]) == Step(CoreRun(p), ch)
  {
    assert (p + [ch])[..|p|] == p;
  }

  lemma StepPlain(st: CoreState, ch: char)
    requires st.stop.None? && !IsGroupChar(ch)
    ensures Step(st, ch) == st.(pending := st.pending + [ch])
  {
  }

  lemma StepOpen(st: CoreState)
    requires st.stop.None?
    ensures Step(st, '{')
         == st.(stack := st.stack + [st.cur + Strip(st.pending)], cur := st.cur + Strip(st.pending), pending := "")
  {
  }

  lemma StepComma(st: CoreState)
    requires st.stop.None? && st.stack != []
    ensures Step(st, ',')
         == st.(out := st.out + [st.cur + Strip(st.pending)], cur := st.stack[|st.stack| - 1], pending := "")
  {
  }

  lemma StepClose(st: CoreState)
    requires st.stop.None? && st.stack != []
    ensures Step(st, '}')
         == st.(stack := st.stack[..|st.stack| - 1], cur := st.cur + Strip(st.pending), pending := "")
  {
  }

  /** Reading text without braces or commas only extends `pending`. */
  lemma {:induction false} CoreRunPlainAppend(p: string, t: string)
    requires NoGroupChars(t)
    requires CoreRun(p).stop.None?
    ensures CoreRun(p + t) == CoreRun(p).(pending := CoreRun(p).pending + t)
    decreases |t|
  {
    var st := CoreRun(p);
    if t == [] {
      assert p + t == p;
      assert st.pending + t == st.pending;
    } else {
      var init := t[..|t| - 1];
      NoGroupCharsPrefix(t);
      CoreRunPlainAppend(p, init);
      PlainAppendStep(p, init, t[|t| - 1], t, st);
    }
  }

  lemma PlainAppendStep(p: string, init: string, ch: char, t: string, st: CoreState)
    requires t == init + [ch] && !IsGroupChar(ch) && st.stop.None?
    requires CoreRun(p + init) == st.(pending := st.pending + init)
    ensures CoreRun(p + t) == st.(pending := st.pending + t)
  {
    assert p + t == (p + init) + [ch];
    CoreRunSnoc(p + init, ch);
    StepPlain(st.(pending := st.pending + init), ch);
    assert st.pending + init + [ch] == st.pending + t;
  }

  /** A path piece: no brace, comma, whitespace, ';' or '/'. */
  predicate PlainPiece(x: string) {
    NoGroupChars(x) && forall i :: 0 <= i < |x| ==> !IsSpace(x[i]) && x[i] != ';' && x[i] != '/'
  }

  lemma PlainPieceChars(x: string)
    requires PlainPiece(x)
    ensures ';' !in x && '/' !in x && '\n' !in x
  {
  }

  lemma StripPlainPiece(x: string)
    requires PlainPiece(x)
    ensures Strip(x) == x && Strip(" " + x) == x
  {
    StripNoSurroundingSpace(x);
    assert (" " + x)[1..] == x;
  }

  /** Reading `t{` right after a brace or comma opens a group on `cur + strip(t)`. */
  lemma ReadOpen(p: string, t: string, st: CoreState)
    requires NoGroupChars(t) && CoreRun(p) == st && st.stop.None? && st.pending == ""
    ensures CoreRun(p + t + ['{'])
         == st.(stack := st.stack + [st.cur + Strip(t)], cur := st.cur + Strip(t))
  {
    assert "" + t == t;
    CoreRunPlainAppend(p, t);
    CoreRunSnoc(p + t, '{');
    StepOpen(st.(pending := t));
  }

  /** Reading `t,` inside a group yields `cur + strip(t)` and resets `cur` to the group's prefix. */
  lemma ReadComma(p: string, t: string, st: CoreState)
    requires NoGroupChars(t) && CoreRun(p) == st && st.stop.None? && st.pending == "" && st.stack != []
    ensures CoreRun(p + t + [','])
         == st.(out := st.out + [st.cur + Strip(t)], cur := st.stack[|st.stack| - 1])
  {
    assert "" + t == t;
    CoreRunPlainAppend(p, t);
    CoreRunSnoc(p + t, ',');
    StepComma(st.(pending := t));
  }

  /** Reading `t}` inside a group closes it, keeping `cur + strip(t)`. */
  lemma ReadClose(p: string, t: string, st: CoreState)
    requires NoGroupChars(t) && CoreRun(p) == st && st.stop.None? && st.pending == "" && st.stack != []
    ensures CoreRun(p + t + ['}'])
         == st.(stack := st.stack[..|st.stack| - 1], cur := st.cur + Strip(t))
  {
    assert "" + t == t;
    CoreRunPlainAppend(p, t);
    CoreRunSnoc(p + t, '}');
    StepClose(st.(pending := t));
  }

  lemma SpacedPiece(x: string)
    requires PlainPiece(x)
    ensures NoGroupChars(" " + x) && Strip(" " + x) == x
  {
    StripPlainPiece(x);
    forall i | 0 <= i < |" " + x| ensures !IsGroupChar((" " + x)[i]) {
      if i > 0 {
        assert (" " + x)[i] == x[i - 1];
      }
    }
  }

  lemma Regroup(w: string, x: string, y: string, z: string)
    ensures w + x + y + z == w + (x + y) + z
  {
  }

  /** A run that ends with every group closed and nothing pending yields `cur` last. */
  lemma ExpandUseClosed(s: string, cur: string, out: seq<string>)
    requires CoreRun(s) == CoreState([], cur, "", out, None)
    ensures ExpandUse(s) == (out + [cur], [])
  {
    AppendStripEmpty(cur);
  }

  /** The text between "use " and the final ';', with its newlines removed. */
  function UseBody(expr: string): (r: string)
    requires StartsWith(expr, "use ")
    ensures ';' in expr ==> ';' in r
  {
    assert ';' in expr ==> ';' in expr[4..] by {
      if ';' in expr {
        var i :| 0 <= i < |expr| && expr[i] == ';';
        assert i >= 4 && expr[4..][i - 4] == ';';
      }
    }
    RemoveChar(expr[4..], '\n')
  }

  /**
   * `parse_use`: the shape checks in the source's order, each rejecting with
   * one warning; then the sorted expansion of the body, with a warning (only)
   * when a further ';' precedes the final one.
   */
  function ParseUse(expr: string): (r: (seq<string>, seq<UseWarning>))
    requires |expr| > 0
    ensures r.0 != [] ==> expr[|expr| - 1] == '\n' && StartsWith(expr, "use ") && ';' in expr && '/' !in expr
  {
    if expr[|expr| - 1] != '\n' then ([], [NotNewlineTerminated])
    else if !StartsWith(expr, "use ") then ([], [NotUseStatement])
    else if ';' !in expr then ([], [NoSemicolon])
    else if '/' in expr then ([], [ExtraSlash])
    else
      var body := UseBody(expr);
      if body[|body| - 1] != ';' then ([], [NoFinalSemicolon])
      else
        var core := body[..|body| - 1];
        var expanded := ExpandUse(core);
        (SortStrings(expanded.0), (if ';' in core then [ExtraSemicolon] else []) + expanded.1)
  }

  /** The statement shapes `parse_use` accepts. */
  predicate WellFormedUse(expr: string) {
    |expr| > 0 && expr[|expr| - 1] == '\n' && StartsWith(expr, "use ") && ';' in expr && '/' !in expr
    && UseBody(expr)[|UseBody(expr)| - 1] == ';'
  }

  /** Each malformed statement yields no path and exactly one warning, naming the first failed check. */
  lemma ParseUseRejects(expr: string)
    requires |expr| > 0 && !WellFormedUse(expr)
    ensures ParseUse(expr).0 == [] && |ParseUse(expr).1| == 1
    ensures expr[|expr| - 1] != '\n' ==> ParseUse(expr).1 == [NotNewlineTerminated]
    ensures expr[|expr| - 1] == '\n' && !StartsWith(expr, "use ") ==> ParseUse(expr).1 == [NotUseStatement]
    ensures expr[|expr| - 1] == '\n' && StartsWith(expr, "use ") && ';' !in expr ==> ParseUse(expr).1 == [NoSemicolon]
    ensures expr[|expr| - 1] == '\n' && StartsWith(expr, "use ") && ';' in expr && '/' in expr ==> ParseUse(expr).1 == [ExtraSlash]
    ensures expr[|expr| - 1] == '\n' && StartsWith(expr, "use ") && ';' in expr && '/' !in expr
         ==> ParseUse(expr).1 == [NoFinalSemicolon]
  {
  }

  /**
   * A well-formed statement yields the expansion of its body in sorted order
   * (a permutation of what the expansion yields); an extra ';' adds a warning
   * but changes no path.
   */
  lemma ParseUseAccepts(expr: string)
    requires WellFormedUse(expr)
    ensures var core := UseBody(expr)[..|UseBody(expr)| - 1];
      && ParseUse(expr).0 == SortStrings(ExpandUse(core).0)
      && LexSorted(ParseUse(expr).0)
      && multiset(ParseUse(expr).0) == multiset(ExpandUse(core).0)
      && ParseUse(expr).1 == (if ';' in core then [ExtraSemicolon] else []) + ExpandUse(core).1
  {
    var body := UseBody(expr);
    SortStringsCorrect(ExpandUse(body[..|body| - 1]).0);
  }

  /**
   * A statement `use <body>;` on one line, whose body has no ';', '/' or
   * newline, parses to the sorted expansion of its body.
   */
  lemma ParseUseOfBody(x: string)
    requires ';' !in x && '/' !in x && '\n' !in x
    ensures ParseUse("use " + x + ";\n") == (SortStrings(ExpandUse(x).0), ExpandUse(x).1)
  {
    OneLineUse(x);
    var stmt := "use " + x + ";\n";
    assert (x + ";")[..|x + ";"| - 1] == x;
    ParseUseAccepts(stmt);
    assert ParseUse(stmt).0 == SortStrings(ExpandUse(x).0);
    assert ParseUse(stmt).1 == [] + ExpandUse(x).1 == ExpandUse(x).1;
  }

  lemma OneLineUse(x: string)
    requires ';' !in x && '/' !in x && '\n' !in x
    ensures WellFormedUse("use " + x + ";\n")
    ensures UseBody("use " + x + ";\n") == x + ";"
  {
    var stmt := "use " + x + ";\n";
    assert stmt[4..] == x + ";\n";
    assert stmt[|stmt| - 1] == '\n';
    assert StartsWith(stmt, "use ");
    assert stmt[|stmt| - 2] == ';';
    assert '/' !in "use " && '/' !in ";\n";
    RemoveCharSnoc(x + ";", '\n');
    RemoveCharIdentity(x + ";", '\n');
    assert x + ";\n" == (x + ";") + ['\n'];
  }

  // ----- Brace trees: what the expansion computes -----

  /**
   * A `use` tree as Rust writes it: a path, or a prefix followed by a brace
   * group of subtrees, as in `std::{fs, io::{Read, Write}}`.
   */
  datatype UseTree = Leaf(path: string) | Group(prefix: string, kids: seq<UseTree>)

  /** The text of a tree, its subtrees separated by ", ". */
  function Render(t: UseTree): string
    decreases t, 1
  {
    match t
    case Leaf(x) => x
    case Group(pre, kids) => pre + "{" + RenderAll(kids) + "}"
  }

  function RenderAll(ts: seq<UseTree>): string
    decreases ts, 0
  {
    if ts == [] then ""
    else if |ts| == 1 then Render(ts[0])
    else Render(ts[0]) + ", " + RenderAll(ts[1..])
  }

  /** `a` in front of every path of `xs`. */
  function Prefixed(a: string, xs: seq<string>): seq<string> {
    seq(|xs|, i requires 0 <= i < |xs| => a + xs[i])
  }

  /**
   * The paths a tree imports: every leaf, left to right, behind the prefixes
   * of the groups that enclose it.
   */
  function Expand(t: UseTree): seq<string>
    decreases t, 1
  {
    match t
    case Leaf(x) => [x]
    case Group(pre, kids) => Prefixed(pre, ExpandAll(kids))
  }

  function ExpandAll(ts: seq<UseTree>): seq<string>
    decreases ts, 0
  {
    if ts == [] then [] else Expand(ts[0]) + ExpandAll(ts[1..])
  }

  /** Path pieces at the leaves and in the prefixes, and no empty group. */
  predicate WellFormedTree(t: UseTree)
    decreases t, 1
  {
    match t
    case Leaf(x) => PlainPiece(x)
    case Group(pre, kids) => PlainPiece(pre) && kids != [] && WellFormedForest(kids)
  }

  predicate WellFormedForest(ts: seq<UseTree>)
    decreases ts, 0
  {
    ts == [] || (WellFormedTree(ts[0]) && WellFormedForest(ts[1..]))
  }

  lemma PrefixedConcat(a: string, xs: seq<string>, ys: seq<string>)
    ensures Prefixed(a, xs + ys) == Prefixed(a, xs) + Prefixed(a, ys)
  {
  }

  lemma PrefixedPrefixed(a: string, b: string, xs: seq<string>)
    ensures Prefixed(a, Prefixed(b, xs)) == Prefixed(a + b, xs)
  {
    forall i | 0 <= i < |xs| ensures Prefixed(a, Prefixed(b, xs))[i] == Prefixed(a + b, xs)[i] {
      assert a + (b + xs[i]) == a + b + xs[i];
    }
  }

  lemma PrefixedEmpty(xs: seq<string>)
    ensures Prefixed("", xs) == xs
  {
    forall i | 0 <= i < |xs| ensures Prefixed("", xs)[i] == xs[i] {
      assert "" + xs[i] == xs[i];
    }
  }

  /** The path the loop would yield on the next ',' or '}' or at the end. */
  function Effective(st: CoreState): string {
    st.cur + Strip(st.pending)
  }

  /**
   * Having read a subtree with expansion `e` from the state `st`, behind the
   * prefix `base`: nothing stopped, the stack is as before, every path of `e`
   * but the last has been yielded behind `base`, and the last one is pending.
   */
  predicate ReadsAs(r: CoreState, st: CoreState, base: string, e: seq<string>) {
    |e| > 0 && r.stop.None? && r.stack == st.stack
    && r.out == st.out + Prefixed(base, e[..|e| - 1])
    && Effective(r) == base + e[|e| - 1]
  }

  /** A path piece, perhaps after one space, is read as itself. */
  lemma LeadPiece(lead: string, x: string)
    requires lead == "" || lead == " "
    requires PlainPiece(x)
    ensures NoGroupChars(lead + x) && Strip(lead + x) == x
  {
    if lead == "" {
      assert lead + x == x;
      StripPlainPiece(x);
    } else {
      SpacedPiece(x);
    }
  }

  /** Reading a well-formed subtree, after an optional space, right after a brace or comma. */
  lemma {:induction false} ReadTree(p: string, lead: string, t: UseTree, st: CoreState)
    requires lead == "" || lead == " "
    requires WellFormedTree(t) && CoreRun(p) == st && st.stop.None? && st.pending == ""
    ensures ReadsAs(CoreRun(p + lead + Render(t)), st, st.cur, Expand(t))
    decreases t, 3
  {
    match t
    case Leaf(x) =>
      ReadLeaf(p, lead, x, st);
    case Group(_, _) =>
      ReadGroup(p, lead, t, st);
  }

  /** A group: its opening brace, its subtrees, and its closing brace. */
  lemma {:induction false} ReadGroup(p: string, lead: string, t: UseTree, st: CoreState)
    requires lead == "" || lead == " "
    requires t.Group? && WellFormedTree(t) && CoreRun(p) == st && st.stop.None? && st.pending == ""
    ensures ReadsAs(CoreRun(p + lead + Render(t)), st, st.cur, Expand(t))
    decreases t, 2
  {
    var pre, kids := t.prefix, t.kids;
    LeadPiece(lead, pre);
    ReadOpen(p, lead + pre, st);
    var st1 := st.(stack := st.stack + [st.cur + pre], cur := st.cur + pre);
    var q1 := p + (lead + pre) + ['{'];
    ReadAll(q1, "", kids, st1);
    ReadGroupClose(p, lead, pre, kids, st, q1, st1);
  }

  lemma ReadLeaf(p: string, lead: string, x: string, st: CoreState)
    requires lead == "" || lead == " "
    requires PlainPiece(x) && CoreRun(p) == st && st.stop.None? && st.pending == ""
    ensures ReadsAs(CoreRun(p + lead + x), st, st.cur, [x])
  {
    LeadPiece(lead, x);
    Regroup(p, lead, x, "");
    assert p + lead + x + "" == p + lead + x;
    assert p + (lead + x) + "" == p + (lead + x);
    CoreRunPlainAppend(p, lead + x);
    LeafState(CoreRun(p + lead + x), st, x, lead + x);
  }

  lemma LeafState(r: CoreState, st: CoreState, x: string, y: string)
    requires st.pending == "" && st.stop.None?
    requires r == st.(pending := st.pending + y) && Strip(y) == x
    ensures ReadsAs(r, st, st.cur, [x])
  {
    assert st.pending + y == y;
    assert [x][..0] == [];
    assert Prefixed(st.cur, []) == [];
  }

  /** The closing brace of a group whose subtrees have been read. */
  lemma ReadGroupClose(p: string, lead: string, pre: string, kids: seq<UseTree>, st: CoreState, q1: string, st1: CoreState)
    requires q1 == p + (lead + pre) + ['{']
    requires st1 == st.(stack := st.stack + [st.cur + pre], cur := st.cur + pre)
    requires ReadsAs(CoreRun(q1 + "" + RenderAll(kids)), st1, st1.cur, ExpandAll(kids))
    ensures ReadsAs(CoreRun(p + lead + Render(Group(pre, kids))), st, st.cur, Expand(Group(pre, kids)))
  {
    var q2 := q1 + "" + RenderAll(kids);
    var r2 := CoreRun(q2);
    ReadClose1(q2, r2);
    assert st1.stack[..|st1.stack| - 1] == st.stack;
    GroupText(p, lead, pre, RenderAll(kids), Render(Group(pre, kids)), q1, q2);
    CloseState(r2, CoreRun(q2 + ['}']), st, st1, pre, ExpandAll(kids));
  }

  lemma GroupText(p: string, lead: string, pre: string, body: string, g: string, q1: string, q2: string)
    requires g == pre + "{" + body + "}" && q1 == p + (lead + pre) + ['{'] && q2 == q1 + "" + body
    ensures p + lead + g == q2 + ['}']
  {
  }

  /** The '}' closing the innermost open group. */
  lemma ReadClose1(q2: string, r2: CoreState)
    requires CoreRun(q2) == r2 && r2.stop.None? && r2.stack != []
    ensures CoreRun(q2 + ['}']) == r2.(stack := r2.stack[..|r2.stack| - 1], cur := Effective(r2), pending := "")
  {
    CoreRunSnoc(q2, '}');
    StepClose(r2);
  }

  lemma CloseState(r2: CoreState, r: CoreState, st: CoreState, st1: CoreState, pre: string, es: seq<string>)
    requires st1 == st.(stack := st.stack + [st.cur + pre], cur := st.cur + pre)
    requires ReadsAs(r2, st1, st1.cur, es)
    requires r == r2.(stack := st.stack, cur := Effective(r2), pending := "")
    ensures ReadsAs(r, st, st.cur, Prefixed(pre, es))
  {
    PrefixedInit(pre, es);
    EffectiveFlushed(r2, r);
    CloseOut(r.out, st.out, st.cur, pre, es);
    CloseLast(Effective(r), st.cur, pre, es);
  }

  lemma CloseOut(out: seq<string>, out0: seq<string>, c: string, pre: string, es: seq<string>)
    requires |es| > 0 && out == out0 + Prefixed(c + pre, es[..|es| - 1])
    ensures out == out0 + Prefixed(c, Prefixed(pre, es)[..|es| - 1])
  {
    PrefixedInit(pre, es);
    PrefixedPrefixed(c, pre, es[..|es| - 1]);
  }

  lemma CloseLast(eff: string, c: string, pre: string, es: seq<string>)
    requires |es| > 0 && eff == c + pre + es[|es| - 1]
    ensures eff == c + Prefixed(pre, es)[|es| - 1]
  {
    PrefixedInit(pre, es);
    assert c + (pre + es[|es| - 1]) == c + pre + es[|es| - 1];
  }

  /** Flushing `pending` into `cur` leaves the path to be yielded as it was. */
  lemma EffectiveFlushed(r2: CoreState, r: CoreState)
    requires r.cur == Effective(r2) && r.pending == ""
    ensures Effective(r) == Effective(r2)
  {
    AppendStripEmpty(Effective(r2));
  }

  lemma PrefixedInit(a: string, xs: seq<string>)
    requires |xs| > 0
    ensures var e := Prefixed(a, xs);
      |e| == |xs| && e[..|e| - 1] == Prefixed(a, xs[..|xs| - 1]) && e[|e| - 1] == a + xs[|xs| - 1]
  {
  }

  /** Reading the subtrees of a group, the first after an optional space, the others after ", ". */
  lemma {:induction false} ReadAll(p: string, lead: string, ts: seq<UseTree>, st: CoreState)
    requires lead == "" || lead == " "
    requires WellFormedForest(ts) && ts != []
    requires CoreRun(p) == st && st.stop.None? && st.pending == ""
    requires st.stack != [] && st.cur == st.stack[|st.stack| - 1]
    ensures ReadsAs(CoreRun(p + lead + RenderAll(ts)), st, st.cur, ExpandAll(ts))
    decreases ts, 2
  {
    if |ts| == 1 {
      ReadTree(p, lead, ts[0], st);
      SingleForest(ts);
    } else {
      ReadCons(p, lead, ts, st);
    }
  }

  /** A first subtree, its ',' and then the others. */
  lemma {:induction false} ReadCons(p: string, lead: string, ts: seq<UseTree>, st: CoreState)
    requires lead == "" || lead == " "
    requires WellFormedForest(ts) && |ts| > 1
    requires CoreRun(p) == st && st.stop.None? && st.pending == ""
    requires st.stack != [] && st.cur == st.stack[|st.stack| - 1]
    ensures ReadsAs(CoreRun(p + lead + RenderAll(ts)), st, st.cur, ExpandAll(ts))
    decreases ts, 1
  {
    ReadTree(p, lead, ts[0], st);
    var q1 := p + lead + Render(ts[0]);
    var r2 := ReadComma1(q1, st, Expand(ts[0]));
    ReadTail(p, lead, ts, st, q1, r2);
  }

  /** After the first subtree and its ',', the others are read behind the same prefix. */
  lemma {:induction false} ReadTail(p: string, lead: string, ts: seq<UseTree>, st: CoreState, q1: string, r2: CoreState)
    requires WellFormedForest(ts) && |ts| > 1
    requires q1 == p + lead + Render(ts[0]) && |Expand(ts[0])| > 0
    requires r2 == CoreRun(q1 + [','])
    requires r2.stop.None? && r2.pending == "" && r2.stack == st.stack && r2.cur == st.cur
    requires r2.out == st.out + Prefixed(st.cur, Expand(ts[0]))
    requires st.stack != [] && st.cur == st.stack[|st.stack| - 1]
    ensures ReadsAs(CoreRun(p + lead + RenderAll(ts)), st, st.cur, ExpandAll(ts))
    decreases ts, 0
  {
    ReadAll(q1 + [','], " ", ts[1..], r2);
    ReadRest(p, lead, ts, st, q1, r2);
  }

  lemma SingleForest(ts: seq<UseTree>)
    requires |ts| == 1
    ensures RenderAll(ts) == Render(ts[0]) && ExpandAll(ts) == Expand(ts[0])
  {
    assert ExpandAll(ts[1..]) == [];
    assert Expand(ts[0]) + [] == Expand(ts[0]);
  }

  /** The ',' after a subtree: its last path is yielded and `cur` falls back to the group's prefix. */
  lemma ReadComma1(q1: string, st: CoreState, e0: seq<string>) returns (r2: CoreState)
    requires st.stack != [] && st.cur == st.stack[|st.stack| - 1]
    requires ReadsAs(CoreRun(q1), st, st.cur, e0)
    ensures r2 == CoreRun(q1 + [','])
    ensures r2.stop.None? && r2.pending == "" && r2.stack == st.stack && r2.cur == st.cur
    ensures r2.out == st.out + Prefixed(st.cur, e0)
  {
    var r1 := CoreRun(q1);
    var n0 := |e0|;
    CoreRunSnoc(q1, ',');
    StepComma(r1);
    r2 := r1.(out := r1.out + [Effective(r1)], cur := st.cur, pending := "");
    PrefixedConcat(st.cur, e0[..n0 - 1], [e0[n0 - 1]]);
    assert e0[..n0 - 1] + [e0[n0 - 1]] == e0;
  }

  /** The subtrees after the first one, read behind the same prefix. */
  lemma ReadRest(p: string, lead: string, ts: seq<UseTree>, st: CoreState, q1: string, r2: CoreState)
    requires |ts| > 1 && q1 == p + lead + Render(ts[0]) && |Expand(ts[0])| > 0
    requires r2.stack == st.stack && r2.cur == st.cur && r2.out == st.out + Prefixed(st.cur, Expand(ts[0]))
    requires ReadsAs(CoreRun(q1 + [','] + " " + RenderAll(ts[1..])), r2, r2.cur, ExpandAll(ts[1..]))
    ensures ReadsAs(CoreRun(p + lead + RenderAll(ts)), st, st.cur, ExpandAll(ts))
  {
    RestText(p, lead, Render(ts[0]), RenderAll(ts[1..]), RenderAll(ts), q1);
    ReadsAsCons(CoreRun(q1 + [','] + " " + RenderAll(ts[1..])), st, r2, Expand(ts[0]), ExpandAll(ts[1..]));
  }

  lemma RestText(p: string, lead: string, a: string, b: string, ab: string, q1: string)
    requires ab == a + ", " + b && q1 == p + lead + a
    ensures p + lead + ab == q1 + [','] + " " + b
  {
  }

  /** A first expansion `e0`, yielded in full, then the rest `e1` behind the same prefix. */
  lemma ReadsAsCons(r: CoreState, st: CoreState, r2: CoreState, e0: seq<string>, e1: seq<string>)
    requires |e0| > 0
    requires r2.stack == st.stack && r2.cur == st.cur && r2.out == st.out + Prefixed(st.cur, e0)
    requires ReadsAs(r, r2, r2.cur, e1)
    ensures ReadsAs(r, st, st.cur, e0 + e1)
  {
    var n1 := |e1|;
    var es := e0 + e1;
    assert es[..|es| - 1] == e0 + e1[..n1 - 1];
    assert es[|es| - 1] == e1[n1 - 1];
    PrefixedConcat(st.cur, e0, e1[..n1 - 1]);
  }

  /**
   * For every well-formed tree, the character loop yields exactly the
   * tree's expansion, in order and without warning.
   */
  lemma ExpandRender(t: UseTree)
    requires WellFormedTree(t)
    ensures ExpandUse(Render(t)) == (Expand(t), [])
  {
    var s := Render(t);
    assert [] + "" + s == s;
    ReadTree([], "", t, CoreInit);
    ReadsAsTop(CoreRun(s), Expand(t));
  }

  /** A tree read from the initial state leaves exactly its expansion behind. */
  lemma ReadsAsTop(r: CoreState, e: seq<string>)
    requires ReadsAs(r, CoreInit, "", e)
    ensures r.stop.None? && r.stack == [] && r.out + [Effective(r)] == e
  {
    PrefixedEmpty(e[..|e| - 1]);
    assert "" + e[|e| - 1] == e[|e| - 1];
    assert e[..|e| - 1] + [e[|e| - 1]] == e;
  }

  /** The text of a well-formed tree holds no ';', '/' or newline. */
  lemma {:induction false} RenderChars(t: UseTree)
    requires WellFormedTree(t)
    ensures ';' !in Render(t) && '/' !in Render(t) && '\n' !in Render(t)
    decreases t, 1
  {
    match t
    case Leaf(x) =>
      PlainPieceChars(x);
    case Group(pre, kids) =>
      PlainPieceChars(pre);
      RenderAllChars(kids);
  }

  lemma {:induction false} RenderAllChars(ts: seq<UseTree>)
    requires WellFormedForest(ts)
    ensures ';' !in RenderAll(ts) && '/' !in RenderAll(ts) && '\n' !in RenderAll(ts)
    decreases ts, 0
  {
    if ts != [] {
      RenderChars(ts[0]);
      if |ts| > 1 {
        RenderAllChars(ts[1..]);
      }
    }
  }

  /**
   * `use <tree>;` on one line, for every well-formed tree: the tree's
   * expansion, sorted, with no warning.
   */
  lemma ParseUseTree(t: UseTree)
    requires WellFormedTree(t)
    ensures ParseUse("use " + Render(t) + ";\n") == (SortStrings(Expand(t)), [])
    ensures LexSorted(ParseUse("use " + Render(t) + ";\n").0)
    ensures multiset(ParseUse("use " + Render(t) + ";\n").0) == multiset(Expand(t))
  {
    RenderChars(t);
    ParseUseOfBody(Render(t));
    ExpandRender(t);
    SortStringsCorrect(Expand(t));
  }

  /** The tree of `a::{b, c::{d, e}}`. */
  const ExampleTree: UseTree := Group("a::", [Leaf("b"), Group("c::", [Leaf("d"), Leaf("e")])])

  lemma PrefixedPair(a: string, x: string, y: string)
    ensures Prefixed(a, [x, y]) == [a + x, a + y]
  {
    var p := Prefixed(a, [x, y]);
    assert |p| == 2 && p[0] == a + x && p[1] == a + y;
  }

  lemma PrefixedOne(a: string, x: string)
    ensures Prefixed(a, [x]) == [a + x]
  {
    var p := Prefixed(a, [x]);
    assert |p| == 1 && p[0] == a + x;
  }

  lemma RenderPair(x: UseTree, y: UseTree)
    ensures RenderAll([x, y]) == Render(x) + ", " + Render(y)
  {
    assert [x, y][1..] == [y];
  }

  lemma ExpandPair(x: UseTree, y: UseTree)
    ensures ExpandAll([x, y]) == Expand(x) + Expand(y)
  {
    assert [x, y][1..] == [y];
    assert [y][1..] == [];
    assert ExpandAll([y]) == Expand(y) + ExpandAll([]);
    assert Expand(y) + [] == Expand(y);
  }

  lemma ExampleTreeText()
    ensures Render(ExampleTree) == "a::{b, c::{d, e}}"
  {
    var inner := Group("c::", [Leaf("d"), Leaf("e")]);
    InnerTreeText(inner);
    RenderPair(Leaf("b"), inner);
    assert "b" + ", " + "c::{d, e}" == "b, c::{d, e}";
    assert "a::" + "{" + "b, c::{d, e}" + "}" == "a::{b, c::{d, e}}";
  }

  lemma InnerTreeText(inner: UseTree)
    requires inner == Group("c::", [Leaf("d"), Leaf("e")])
    ensures Render(inner) == "c::{d, e}"
  {
    RenderPair(Leaf("d"), Leaf("e"));
    assert "d" + ", " + "e" == "d, e";
    assert "c::" + "{" + "d, e" + "}" == "c::{d, e}";
  }

  lemma ExampleTreeWellFormed()
    ensures WellFormedTree(ExampleTree)
  {
    var inner := Group("c::", [Leaf("d"), Leaf("e")]);
    assert PlainPiece("a::") && PlainPiece("b") && PlainPiece("c::") && PlainPiece("d") && PlainPiece("e");
    assert [Leaf("e")][1..] == [] && [Leaf("d"), Leaf("e")][1..] == [Leaf("e")];
    assert WellFormedTree(inner);
    assert [inner][1..] == [] && [Leaf("b"), inner][1..] == [inner];
  }

  lemma ExampleTreePaths()
    ensures Expand(ExampleTree) == ["a::b", "a::c::d", "a::c::e"]
  {
    var inner := Group("c::", [Leaf("d"), Leaf("e")]);
    ExpandPair(Leaf("d"), Leaf("e"));
    assert ["d"] + ["e"] == ["d", "e"];
    PrefixedPair("c::", "d", "e");
    assert "c::" + "d" == "c::d" && "c::" + "e" == "c::e";
    ExpandPair(Leaf("b"), inner);
    assert ["b"] + ["c::d", "c::e"] == ["b", "c::d", "c::e"];
    PrefixedConcat("a::", ["b"], ["c::d", "c::e"]);
    PrefixedOne("a::", "b");
    PrefixedPair("a::", "c::d", "c::e");
    assert "a::" + "b" == "a::b" && "a::" + "c::d" == "a::c::d" && "a::" + "c::e" == "a::c::e";
    assert ["a::b"] + ["a::c::d", "a::c::e"] == ["a::b", "a::c::d", "a::c::e"];
  }

  lemma ExamplePathsSorted()
    ensures LexSorted(["a::b", "a::c::d", "a::c::e"])
  {
    var xs: seq<string> := ["a::b", "a::c::d", "a::c::e"];
    assert LexLe(xs[0], xs[1]) && LexLe(xs[1], xs[2]) && LexLe(xs[0], xs[2]);
  }

  /** A statement holding a well-formed tree parses to any sorted permutation of the tree's paths. */
  lemma ParseUseTreeSorted(stmt: string, t: UseTree, xs: seq<string>)
    requires WellFormedTree(t) && stmt == "use " + Render(t) + ";\n"
    requires LexSorted(xs) && multiset(xs) == multiset(Expand(t))
    ensures ParseUse(stmt) == (xs, [])
  {
    ParseUseTree(t);
    LexSortedUnique(ParseUse(stmt).0, xs);
  }

  /** The worked statement holds the example tree, whose paths are already sorted. */
  lemma ExampleStatement(stmt: string, t: UseTree, xs: seq<string>)
    requires stmt == "use a::{b, c::{d, e}};\n" && t == ExampleTree && xs == ["a::b", "a::c::d", "a::c::e"]
    ensures WellFormedTree(t) && stmt == "use " + Render(t) + ";\n"
    ensures LexSorted(xs) && multiset(xs) == multiset(Expand(t))
  {
    ExampleTreeWellFormed();
    ExampleTreeText();
    ExampleStatementText(stmt, Render(t));
    ExampleTreePaths();
    ExamplePathsSorted();
  }

  lemma ExampleStatementText(stmt: string, body: string)
    requires stmt == "use a::{b, c::{d, e}};\n" && body == "a::{b, c::{d, e}}"
    ensures stmt == "use " + body + ";\n"
  {
  }

  /** `use a::{b, c::{d, e}};` imports `a::b`, `a::c::d` and `a::c::e`, in that order, without warning. */
  lemma NestedExample(stmt: string)
    requires stmt == "use a::{b, c::{d, e}};\n"
    ensures ParseUse(stmt) == (["a::b", "a::c::d", "a::c::e"], [])
  {
    var t, xs := ExampleTree, ["a::b", "a::c::d", "a::c::e"];
    ExampleStatement(stmt, t, xs);
    ParseUseTreeSorted(stmt, t, xs);
  }
}
