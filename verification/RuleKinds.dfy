/**
 * One analysis, asked twice. A space rule that names no kinds is judged at save for every kind at once and narrowed to
 * those whose view it reads; at run time it is compiled for one kind. The two agree: it compiles for exactly the kinds
 * that were left, with the same reads. And a rule the analysis accepts is one whose price bounds its work.
 */
module RuleKinds {

  import opened Maybe
  import opened RuleSyntax
  import opened RulePrice
  import opened RuleValue
  import opened RuleEval
  import opened RuleBody
  import opened RuleLoop
  import opened RuleBudget
  import opened RuleCopies
  import opened RuleAnalysis

  // ---- What makes a rule clean for a scope ------------------------------------------------------------------------

  predicate Clean(ev: Event, scope: Scope) {
    match ev
    case Wrong(_) => false
    case ReadsField(name, _, _) => name != "from" && name != "to" && Governs(scope, name)
    case ReadsProperty(name, _) => scope.declared.None? || name in scope.declared.value
    case ReadsComputed => scope.declared.None?
    case _ => true
  }

  /** Every kind named has the field; one of them, when none was named. */
  predicate Governs(scope: Scope, name: string) {
    if scope.implicit then exists k :: k in scope.kinds && name in ViewFields(k)
    else forall k :: k in scope.kinds ==> name in ViewFields(k)
  }

  predicate AllClean(evs: seq<Event>, scope: Scope) {
    forall i :: 0 <= i < |evs| ==> Clean(evs[i], scope)
  }

  /** `k` has every field the events read. */
  predicate HasFields(k: Kind, evs: seq<Event>) {
    forall i :: 0 <= i < |evs| && evs[i].ReadsField? ==> evs[i].name in ViewFields(k)
  }

  /** What the events read, whoever asks. */
  function Read(refs: Refs, ev: Event): Refs {
    match ev
    case ReadsField(name, testOnly, consumed) =>
      if !testOnly && !(name == "properties" && consumed) then refs.(fields := refs.fields + {name}) else refs
    case ReadsProperty(name, testOnly) =>
      if testOnly then refs.(presence := refs.presence + {name}) else refs.(props := refs.props + {name})
    case ReadsWhole => refs.(whole := true)
    case _ => refs
  }

  function ReadAll(refs: Refs, evs: seq<Event>): Refs
    decreases |evs|
  {
    if evs == [] then refs else ReadAll(Read(refs, evs[0]), evs[1..])
  }

  function Patterns(evs: seq<Event>): seq<string> {
    if evs == [] then [] else (if evs[0].HasPattern? then [evs[0].pattern] else []) + Patterns(evs[1..])
  }

  lemma {:induction false} LackingAre(kinds: seq<Kind>, name: string)
    ensures forall k :: k in Lacking(kinds, name) <==> k in kinds && name !in ViewFields(k)
    ensures |Lacking(kinds, name)| <= |kinds|
    ensures |Lacking(kinds, name)| == |kinds| <==> forall k :: k in kinds ==> name !in ViewFields(k)
    ensures Lacking(kinds, name) == [] <==> forall k :: k in kinds ==> name in ViewFields(k)
  {
    if kinds != [] {
      LackingAre(kinds[1..], name);
      assert kinds == [kinds[0]] + kinds[1..];
      assert forall k :: k in kinds <==> k == kinds[0] || k in kinds[1..];
    }
  }

  lemma {:induction false} WithoutAre(kinds: seq<Kind>, gone: seq<Kind>)
    ensures forall k :: k in Without(kinds, gone) <==> k in kinds && k !in gone
  {
    if kinds != [] {
      WithoutAre(kinds[1..], gone);
      assert kinds == [kinds[0]] + kinds[1..];
    }
  }

  /** One event: clean, it adds its reads and narrows the kinds; otherwise it leaves a problem behind. */
  lemma NoteIs(f: Findings, ev: Event, scope: Scope)
    requires scope.kinds != []
    ensures var g := Note(f, ev, scope);
            && (g.problems == [] <==> f.problems == [] && Clean(ev, scope))
            && (Clean(ev, scope) ==>
                  && g.refs == Read(f.refs, ev)
                  && g.patterns == f.patterns + Patterns([ev])
                  && (forall k ::
                        k in g.kinds
                        <==> k in f.kinds
                             && (scope.implicit && ev.ReadsField? && k in scope.kinds ==> ev.name in ViewFields(k))))
  {
    if ev.ReadsField? {
      LackingAre(scope.kinds, ev.name);
      WithoutAre(f.kinds, Lacking(scope.kinds, ev.name));
      var some := scope.kinds[0];
      assert some in scope.kinds;
    }
    assert [ev][1..] == [];
  }

  /** A list of events, all together. */
  lemma {:induction false} FindingsAre(f: Findings, evs: seq<Event>, scope: Scope)
    requires scope.kinds != [] && forall k :: k in f.kinds ==> k in scope.kinds
    ensures var g := NoteAll(f, evs, scope);
            && (g.problems == [] <==> f.problems == [] && AllClean(evs, scope))
            && (AllClean(evs, scope) ==>
                  && g.refs == ReadAll(f.refs, evs)
                  && g.patterns == f.patterns + Patterns(evs)
                  && forall k :: k in g.kinds <==> k in f.kinds && (scope.implicit ==> HasFields(k, evs)))
    decreases |evs|
  {
    if evs != [] {
      var ev, rest := evs[0], evs[1..];
      hide Note, Clean, HasFields, AllClean, Read;
      NoteIs(f, ev, scope);
      assert Patterns([ev]) + Patterns(rest) == Patterns(evs) by { assert [ev][1..] == []; }
      SplitClean(evs, scope);
      if Clean(ev, scope) {
        FindingsAre(Note(f, ev, scope), rest, scope);
        forall k ensures HasFields(k, evs) <==> (ev.ReadsField? ==> ev.name in ViewFields(k)) && HasFields(k, rest) {
          SplitFields(k, evs);
        }
      } else {
        StaysWrong(Note(f, ev, scope), rest, scope);
      }
    }
  }

  lemma SplitClean(evs: seq<Event>, scope: Scope)
    requires evs != []
    ensures AllClean(evs, scope) <==> Clean(evs[0], scope) && AllClean(evs[1..], scope)
  {
    if Clean(evs[0], scope) && AllClean(evs[1..], scope) {
      forall i | 0 <= i < |evs| ensures Clean(evs[i], scope) {
        if i > 0 { assert evs[i] == evs[1..][i - 1]; }
      }
    }
  }

  lemma SplitFields(k: Kind, evs: seq<Event>)
    requires evs != []
    ensures HasFields(k, evs) <==> (evs[0].ReadsField? ==> evs[0].name in ViewFields(k)) && HasFields(k, evs[1..])
  {
    if (evs[0].ReadsField? ==> evs[0].name in ViewFields(k)) && HasFields(k, evs[1..]) {
      forall i | 0 <= i < |evs| && evs[i].ReadsField? ensures evs[i].name in ViewFields(k) {
        if i > 0 { assert evs[i] == evs[1..][i - 1]; }
      }
    }
  }

  lemma {:induction false} StaysWrong(f: Findings, evs: seq<Event>, scope: Scope)
    requires f.problems != []
    ensures NoteAll(f, evs, scope).problems != []
    decreases |evs|
  {
    if evs != [] {
      StaysWrong(Note(f, evs[0], scope), evs[1..], scope);
    }
  }

  // ---- The two analyses -------------------------------------------------------------------------------------------

  /** At save, a space rule that names no kinds; at run time, one kind; and a rule for the kinds it names. */
  function SaveScope(): Scope { Scope(ALL_KINDS, true, None) }
  function RunScope(k: Kind): Scope { Scope([k], false, None) }
  function NamedScope(kinds: seq<Kind>): Scope { Scope(kinds, false, None) }

  predicate Accepted(f: Findings) { f.problems == [] }

  /** The outcome of a whole analysis: which scopes accept a rule, and what it reads. */
  lemma AnalysedIs(e: Expr, scope: Scope, funcs: set<string>)
    requires scope.kinds != []
    ensures var f, evs := Analysed(e, scope, funcs), Walk(e, [], 0, false, funcs);
            && (Accepted(f) <==> Nodes(e) <= AST_NODE_LIMIT && AllClean(evs, scope)
                                 && (scope.implicit ==> exists k :: k in scope.kinds && HasFields(k, evs)))
            && (Accepted(f) ==>
                  && f.refs == ReadAll(Refs(false, {}, {}, {}), evs) && f.patterns == Patterns(evs)
                  && forall k :: k in f.kinds <==> k in scope.kinds && (scope.implicit ==> HasFields(k, evs)))
  {
    hide Walk, Nodes, HasFields, AllClean;
    var evs := Walk(e, [], 0, false, funcs);
    var g := NoteAll(Fresh(scope), evs, scope);
    FindingsAre(Fresh(scope), evs, scope);
    assert [] + Patterns(evs) == Patterns(evs);
    var some := scope.kinds[0];
    assert some in scope.kinds;
    assert g.kinds == [] <==> forall k :: k !in g.kinds by { if g.kinds != [] { assert g.kinds[0] in g.kinds; } }
  }

  /**
   * A space rule that names no kinds compiles for a kind exactly when the save-time analysis accepts it and leaves that
   * kind in, and reads the same when it does; and it is accepted at save exactly when some kind can run it.
   */
  lemma SaveAndRunAgree(e: Expr, k: Kind, funcs: set<string>)
    ensures var save, run := Analysed(e, SaveScope(), funcs), Analysed(e, RunScope(k), funcs);
            && (Accepted(run) <==> Accepted(save) && k in save.kinds)
            && (Accepted(run) ==> run.refs == save.refs && run.patterns == save.patterns)
    ensures Accepted(Analysed(e, SaveScope(), funcs)) <==> exists j :: Accepted(Analysed(e, RunScope(j), funcs))
  {
    hide Walk, Nodes, HasFields, AllClean, Analysed;
    var evs := Walk(e, [], 0, false, funcs);
    AnalysedIs(e, SaveScope(), funcs);
    forall j: Kind
      ensures j in ALL_KINDS && (AllClean(evs, RunScope(j)) <==> AllClean(evs, SaveScope()) && HasFields(j, evs))
    {
      OneKindClean(evs, j);
    }
    forall j: Kind
      ensures Accepted(Analysed(e, RunScope(j), funcs))
              <==> Accepted(Analysed(e, SaveScope(), funcs)) && j in Analysed(e, SaveScope(), funcs).kinds
    {
      AnalysedIs(e, RunScope(j), funcs);
    }
    AnalysedIs(e, RunScope(k), funcs);
  }

  lemma OneKindClean(evs: seq<Event>, k: Kind)
    ensures k in ALL_KINDS
    ensures AllClean(evs, RunScope(k)) <==> AllClean(evs, SaveScope()) && HasFields(k, evs)
  {
    KindIsKnown(k);
    forall i | 0 <= i < |evs|
      ensures Clean(evs[i], RunScope(k))
              <==> Clean(evs[i], SaveScope()) && (evs[i].ReadsField? ==> evs[i].name in ViewFields(k))
    {
      assert k in [k];
    }
  }

  lemma KindIsKnown(k: Kind)
    ensures k in ALL_KINDS
  {
    assert ALL_KINDS[0] == Entity && ALL_KINDS[1] == Fact && ALL_KINDS[2] == Edge && ALL_KINDS[3] == Chrono;
  }

  /**
   * A rule that names its kinds is accepted at save exactly when it compiles for each of them, and reads the same
   * there.
   */
  lemma NamedKindsAgree(e: Expr, kinds: seq<Kind>, funcs: set<string>)
    requires kinds != []
    ensures var save := Analysed(e, NamedScope(kinds), funcs);
            && (Accepted(save) <==> forall k :: k in kinds ==> Accepted(Analysed(e, RunScope(k), funcs)))
            && (Accepted(save) ==> forall k :: k in kinds ==> Analysed(e, RunScope(k), funcs).refs == save.refs)
  {
    hide Walk, Nodes, HasFields, AllClean, Analysed;
    var evs := Walk(e, [], 0, false, funcs);
    AnalysedIs(e, NamedScope(kinds), funcs);
    EachKindClean(evs, kinds);
    forall k: Kind
      ensures Accepted(Analysed(e, RunScope(k), funcs)) <==> Nodes(e) <= AST_NODE_LIMIT && AllClean(evs, RunScope(k))
    {
      AnalysedIs(e, RunScope(k), funcs);
    }
    forall k | k in kinds && Accepted(Analysed(e, NamedScope(kinds), funcs))
      ensures Analysed(e, RunScope(k), funcs).refs == Analysed(e, NamedScope(kinds), funcs).refs
    {
      AnalysedIs(e, RunScope(k), funcs);
    }
    assert kinds[0] in kinds;
  }

  lemma EachKindClean(evs: seq<Event>, kinds: seq<Kind>)
    requires kinds != []
    ensures AllClean(evs, NamedScope(kinds)) <==> forall k :: k in kinds ==> AllClean(evs, RunScope(k))
  {
    var first := kinds[0];
    assert first in kinds;
    if forall k :: k in kinds ==> AllClean(evs, RunScope(k)) {
      forall i | 0 <= i < |evs| ensures Clean(evs[i], NamedScope(kinds)) {
        assert AllClean(evs, RunScope(first)) && Clean(evs[i], RunScope(first));
        forall k | k in kinds && evs[i].ReadsField? ensures evs[i].name in ViewFields(k) {
          assert AllClean(evs, RunScope(k)) && Clean(evs[i], RunScope(k)) && k in [k];
        }
      }
    }
    if AllClean(evs, NamedScope(kinds)) {
      forall k, i | k in kinds && 0 <= i < |evs| ensures Clean(evs[i], RunScope(k)) {
        assert Clean(evs[i], NamedScope(kinds));
      }
    }
  }

  // ---- An accepted rule is a priced one ---------------------------------------------------------------------------

  /** Every loop of `e`, however deep, is written by a macro. */
  predicate AllMacros(e: Expr)
    decreases e, 0
  {
    match e
    case Select(operand, _, _) => AllMacros(operand)
    case Call(_, target, args) => (target.Some? ==> AllMacros(target.value)) && EachAllMacros(args)
    case ListOf(elements) => EachAllMacros(elements)
    case StructOf(keys, values) => EachAllMacros(keys) && EachAllMacros(values)
    case Comprehension(_, _, _, iterRange, _, loopCondition, loopStep, _) =>
      IsMacroShape(e) && AllMacros(iterRange) && AllMacros(loopCondition) && AllMacros(loopStep)
    case _ => true
  }

  predicate EachAllMacros(es: seq<Expr>)
    decreases es, 0
  {
    es == [] || (AllMacros(es[0]) && EachAllMacros(es[1..]))
  }

  predicate Nested(evs: seq<Event>) { Wrong(LoopInLoop) in evs }

  /** Where the walk meets no loop inside a loop, bodies hold none, and the loops outside them are the macros'. */
  lemma {:induction false} NotNested(e: Expr, bound: seq<string>, depth: nat, consumed: bool, funcs: set<string>)
    requires Parsed(e) && !Nested(Walk(e, bound, depth, consumed, funcs))
    ensures (depth > 0 ==> LoopFree(e)) && (AllMacros(e) ==> MacroRule(e))
    decreases e, 1
  {
    match e
    case Select(operand, _, _) =>
      var inside := IsSelf(operand) || IsSelfProperties(operand);
      NotNested(operand, bound, depth, inside, funcs);
    case Call(_, target, args) =>
      if ReadsPropertyByKey(e) || ReadsFieldByKey(e) {
        var rest := args[1..];
        assert rest[0] == args[1] && rest[1..] == [];
        assert LoopFree(args[1]) && MacroRule(args[1]);
        assert AllLoopFree(rest) && AllMacroRules(rest);
        assert LoopFree(args[0]) && MacroRule(args[0]);
      } else {
        if target.Some? { NotNested(target.value, bound, depth, false, funcs); }
        NoneNested(args, bound, depth, funcs);
      }
    case ListOf(elements) => NoneNested(elements, bound, depth, funcs);
    case StructOf(_, values) =>
      EntriesNotNested(e, 0, bound, depth, funcs);
      assert values[0..] == values;
    case Comprehension(_, _, _, iterRange, _, loopCondition, loopStep, _) =>
      LoopWalk(e, bound, depth, consumed, funcs);
      var inner := bound + LoopVars(e);
      NotNested(iterRange, bound, depth, false, funcs);
      NotNested(loopCondition, inner, depth + 1, false, funcs);
      NotNested(loopStep, inner, depth + 1, false, funcs);
    case _ =>
  }

  lemma {:induction false} NoneNested(es: seq<Expr>, bound: seq<string>, depth: nat, funcs: set<string>)
    requires AllParsed(es) && !Nested(Walks(es, bound, depth, funcs))
    ensures (depth > 0 ==> AllLoopFree(es)) && (EachAllMacros(es) ==> AllMacroRules(es))
    decreases es, 0
  {
    if es != [] {
      NotNested(es[0], bound, depth, false, funcs);
      NoneNested(es[1..], bound, depth, funcs);
    }
  }

  lemma {:induction false} EntriesNotNested(e: Expr, i: nat, bound: seq<string>, depth: nat, funcs: set<string>)
    requires e.StructOf? && Parsed(e) && i <= |e.values| && !Nested(WalkEntries(e, i, bound, depth, funcs))
    ensures depth > 0 ==> AllLoopFree(KeysFrom(e, i)) && AllLoopFree(e.values[i..])
    ensures EachAllMacros(KeysFrom(e, i)) ==> AllMacroRules(KeysFrom(e, i))
    ensures EachAllMacros(e.values[i..]) ==> AllMacroRules(e.values[i..])
    decreases e, 0, |e.values| - i
  {
    if i < |e.values| {
      StructIsParsed(e, i);
      EntriesNotNested(e, i + 1, bound, depth, funcs);
      NotNested(e.values[i], bound, depth, false, funcs);
      if e.keys != [] {
        NotNested(e.keys[i], bound, depth, false, funcs);
        assert e.keys[i..][1..] == e.keys[i + 1..];
      }
      assert e.values[i..][1..] == e.values[i + 1..];
    }
  }

  lemma CleanIsNotNested(evs: seq<Event>, scope: Scope)
    requires AllClean(evs, scope)
    ensures !Nested(evs)
  {
    assert forall i :: 0 <= i < |evs| ==> Clean(evs[i], scope);
  }

  lemma AcceptedIsMacroRule(e: Expr, scope: Scope, funcs: set<string>)
    requires Parsed(e) && AllMacros(e) && scope.kinds != [] && Accepted(Analysed(e, scope, funcs))
    ensures MacroRule(e) && Nodes(e) <= AST_NODE_LIMIT
  {
    hide Walk, Nodes, Analysed, MacroRule, AllMacros;
    var evs := Walk(e, [], 0, false, funcs);
    AnalysedIs(e, scope, funcs);
    CleanIsNotNested(evs, scope);
    NotNested(e, [], 0, false, funcs);
  }

  /**
   * A rule `analyse` accepts does bounded work: on every record within the input caps it evaluates at most 30 nodes,
   * scans at most 6 000 code points and copies at most 60 caps, for each unit of the price `analyse` gave it.
   */
  lemma AcceptedRuleIsBounded(e: Expr, scope: Scope, funcs: set<string>, record: Value, fn: Engine)
    requires Parsed(e) && AllMacros(e) && Chars(e) <= MAX_RULE_LENGTH
    requires scope.kinds != [] && Accepted(Analysed(e, scope, funcs))
    requires WithinCaps(record) && Modest(fn)
    ensures var run := Eval(e, map["self" := record], fn);
            && run.nodes <= 30 * Cost(e, 1, []) && run.text <= 6000 * Cost(e, 1, [])
            && Copies(e, map["self" := record], fn) <= 60.0 * Cost(e, 1, []) as real
  {
    hide *;
    AcceptedIsMacroRule(e, scope, funcs);
    PriceBoundsWork(e, record, fn);
  }

  /** What the rules that apply to one record may cost together. */
  const COST_BUDGET: nat := 10_000_000

  function TotalPrice(rules: seq<Expr>): nat {
    if rules == [] then 0 else Cost(rules[0], 1, []) + TotalPrice(rules[1..])
  }

  /** The nodes, the code points and the caps copied by a set of rules. */
  function TotalWork(rules: seq<Expr>, record: Value, fn: Engine): (nat, nat, real) {
    if rules == [] then (0, 0, 0.0)
    else
      var run, rest := Eval(rules[0], map["self" := record], fn), TotalWork(rules[1..], record, fn);
      (run.nodes + rest.0, run.text + rest.1, Copies(rules[0], map["self" := record], fn) + rest.2)
  }

  /** The analysis accepted the rule for some kinds. */
  ghost predicate IsAccepted(e: Expr, funcs: set<string>) {
    && Parsed(e) && AllMacros(e) && Chars(e) <= MAX_RULE_LENGTH
    && exists scope: Scope :: scope.kinds != [] && Accepted(Analysed(e, scope, funcs))
  }

  /** Every rule of a set is one that was accepted. */
  ghost predicate AllAccepted(rules: seq<Expr>, funcs: set<string>) {
    forall i :: 0 <= i < |rules| ==> IsAccepted(rules[i], funcs)
  }

  lemma AnAcceptedRuleIsBounded(e: Expr, funcs: set<string>, record: Value, fn: Engine)
    requires IsAccepted(e, funcs) && WithinCaps(record) && Modest(fn)
    ensures var run := Eval(e, map["self" := record], fn);
            && run.nodes <= 30 * Cost(e, 1, []) && run.text <= 6000 * Cost(e, 1, [])
            && Copies(e, map["self" := record], fn) <= 60.0 * Cost(e, 1, []) as real
  {
    hide Cost, Eval, Analysed, Parsed, AllMacros, Chars, Copies, Accepted;
    var scope: Scope :| scope.kinds != [] && Accepted(Analysed(e, scope, funcs));
    AcceptedRuleIsBounded(e, scope, funcs, record, fn);
  }

  lemma {:induction false} AcceptedRulesAreBounded(rules: seq<Expr>, funcs: set<string>, record: Value, fn: Engine)
    requires AllAccepted(rules, funcs) && WithinCaps(record) && Modest(fn)
    ensures var work := TotalWork(rules, record, fn);
            && work.0 <= 30 * TotalPrice(rules) && work.1 <= 6000 * TotalPrice(rules)
            && work.2 <= 60.0 * TotalPrice(rules) as real
  {
    hide Cost, Eval, Copies, IsAccepted, WithinCaps, Modest;
    if rules != [] {
      AnAcceptedRuleIsBounded(rules[0], funcs, record, fn);
      AcceptedRulesAreBounded(rules[1..], funcs, record, fn);
    }
  }

  /** No set of rules within the budget can make one write do more than this, whatever the record. */
  lemma BudgetBoundsWork(rules: seq<Expr>, funcs: set<string>, record: Value, fn: Engine)
    requires AllAccepted(rules, funcs) && WithinCaps(record) && Modest(fn) && TotalPrice(rules) <= COST_BUDGET
    ensures var work := TotalWork(rules, record, fn);
            work.0 <= 30 * COST_BUDGET && work.1 <= 6000 * COST_BUDGET && work.2 <= 60.0 * COST_BUDGET as real
  {
    hide TotalWork, TotalPrice, AllAccepted;
    AcceptedRulesAreBounded(rules, funcs, record, fn);
  }
}
