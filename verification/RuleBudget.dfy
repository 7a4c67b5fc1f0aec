/**
 * The price is enough: a rule made of the CEL macros' loops, run on any record within the input caps, evaluates at most
 * a fixed number of nodes and scans at most a fixed number of code points for every unit `analyse` charged, whatever
 * its loops build from what its other loops built. `RuleCopies` adds the copies it makes.
 */
module RuleBudget {

  import opened Maybe
  import opened RuleSyntax
  import opened RulePrice
  import opened RuleValue
  import opened RuleEval
  import opened RuleBody
  import opened RuleCaps
  import opened RuleLoop

  /** Every loop of `e` is a macro's, and stands outside every other loop's body. */
  predicate MacroRule(e: Expr)
    decreases e, 0
  {
    match e
    case Select(operand, _, _) => MacroRule(operand)
    case Call(_, target, args) => (target.Some? ==> MacroRule(target.value)) && AllMacroRules(args)
    case ListOf(elements) => AllMacroRules(elements)
    case StructOf(keys, values) => AllMacroRules(keys) && AllMacroRules(values)
    case Comprehension(_, _, _, iterRange, _, _, _, _) => IsMacro(e) && MacroRule(iterRange)
    case _ => true
  }

  predicate AllMacroRules(es: seq<Expr>)
    decreases es, 0
  {
    es == [] || (MacroRule(es[0]) && AllMacroRules(es[1..]))
  }

  /** What a part written outside every loop is charged, and may hold. */
  function Price(e: Expr, b: seq<string>): nat { Cost(e, 1, b) }
  function Prices(es: seq<Expr>, b: seq<string>): nat { Costs(es, 1, b) }
  function Hold(e: Expr, b: seq<string>): real { 6.0 * Cap(Size(e, b), Bulk(e)) }
  function HoldAll(es: seq<Expr>, b: seq<string>): real { 6.0 * Cap(Sizes(es, b), AllBulk(es)) }

  /** `p` nodes and `q` code points for each unit of the price. */
  ghost predicate Fits(e: Expr, run: Run, p: real, q: real, b: seq<string>) {
    && Load(run.v) <= Hold(e, b)
    && run.nodes as real <= Worth(Price(e, b), p)
    && run.text as real <= Worth(Price(e, b), q)
  }

  ghost predicate AllFit(es: seq<Expr>, runs: Runs, p: real, q: real, b: seq<string>) {
    && |runs.vs| == |es|
    && TotalLoad(runs.vs) <= HoldAll(es, b)
    && runs.nodes as real <= Worth(Prices(es, b), p)
    && runs.text as real <= Worth(Prices(es, b), q)
  }

  ghost predicate Paid(bulk: nat, p: real, q: real) { p >= 3.0 * Pow(bulk) && q >= 600.0 * Pow(bulk) }

  lemma PaidLess(big: nat, small: nat, p: real, q: real)
    requires Paid(big, p, q) && small <= big
    ensures Paid(small, p, q) && p >= 3.0 && q >= 600.0
  {
    PowMonotone(small, big);
    PowGrows(small);
  }

  /** What `n` units of price allow at `p` a unit. */
  function Worth(n: nat, p: real): real { Times(n as real, p) }

  lemma WorthAdds(a: nat, b: nat, p: real)
    ensures Worth(a + b, p) == Worth(a, p) + Worth(b, p)
  {
  }

  lemma WorthGrows(a: nat, b: nat, p: real)
    requires a <= b && p >= 0.0
    ensures 0.0 <= Worth(a, p) <= Worth(b, p)
  {
  }

  /** A part with one node of its own above parts that fit. */
  lemma OneNodeMore(nodes: nat, text: nat, below: nat, all: nat, p: real, q: real)
    requires nodes as real <= Worth(below, p) && text as real <= Worth(below, q)
    requires below + 1 <= all && p >= 1.0 && q >= 0.0
    ensures (nodes + 1) as real <= Worth(all, p) && text as real <= Worth(all, q)
  {
    WorthAdds(below, 1, p);
    WorthGrows(below + 1, all, p);
    WorthGrows(below, all, q);
    assert Worth(1, p) == p;
  }

  // ---- Parts without a loop of their own --------------------------------------------------------------------------

  lemma ReadLoad(e: Expr, env: Env, fn: Engine)
    requires (IsSelf(e) || IsSelfProperties(e)) && OnlyRecord(env)
    ensures Load(Eval(e, env, fn).v) <= 6.0
  {
    if IsSelfProperties(e) {
      FieldWithin(Eval(e.operand, env, fn).v, e.field);
    }
  }

  lemma LeafFits(e: Expr, env: Env, fn: Engine, p: real, q: real, b: seq<string>)
    requires (e.Const? || e.Ident? || e.Unknown?) && OnlyRecord(env) && p >= 1.0 && q >= 0.0
    ensures Fits(e, Eval(e, env, fn), p, q, b)
  {
    SelfIsNoType();
    CapFloor(Size(e, b), Bulk(e));
    hide Worth, Times, Pow, Cap, Apply;
    WorthGrows(0, 0, p);
    WorthGrows(0, 0, q);
    OneNodeMore(0, 0, 0, Price(e, b), p, q);
  }

  lemma SelectFits(e: Expr, env: Env, fn: Engine, p: real, q: real, b: seq<string>)
    requires e.Select? && OnlyRecord(env) && p >= 1.0 && q >= 0.0 && Fits(e.operand, Eval(e.operand, env, fn), p, q, b)
    ensures Fits(e, Eval(e, env, fn), p, q, b)
  {
    hide Worth, Times, Pow, Cap;
    var o := Eval(e.operand, env, fn);
    FieldWithin(o.v, e.field);
    WeightIsLoad(o.v);
    CapFloor(Size(e, b), Bulk(e));
    OneNodeMore(o.nodes, o.text, Price(e.operand, b), Price(e, b), p, q);
    if IsSelf(e.operand) || IsSelfProperties(e.operand) {
      ReadLoad(e.operand, env, fn);
    } else {
      CapMonotone(Size(e.operand, b), Bulk(e.operand), Size(e, b), Bulk(e));
    }
  }

  /** A list of `n` parts, each with a node counted, holds little more than its parts. */
  lemma ListLoads(vs: seq<Value>, size: nat, bulk: nat, s: nat, b: nat)
    requires TotalLoad(vs) <= 6.0 * Cap(size, bulk) && bulk >= 100 * |vs| && size <= s && bulk <= b
    ensures ListLoad(vs) <= 6.0 * Cap(s, b) && MostLoaded(vs) <= 6.0 * Cap(s, b)
  {
    TotalsBoundMost(vs);
    CapFloor(size, bulk);
    CapMonotone(size, bulk, s, b);
  }

  lemma ListFits(e: Expr, env: Env, fn: Engine, p: real, q: real, b: seq<string>)
    requires e.ListOf? && p >= 1.0 && q >= 0.0 && AllFit(e.elements, EvalAll(e.elements, env, fn), p, q, b)
    ensures Fits(e, Eval(e, env, fn), p, q, b)
  {
    hide Worth, Times, Pow, Cap;
    var r := EvalAll(e.elements, env, fn);
    NodesCount(e.elements);
    ListLoads(r.vs, Sizes(e.elements, b), AllBulk(e.elements), Size(e, b), Bulk(e));
    OneNodeMore(r.nodes, r.text, Prices(e.elements, b), Price(e, b), p, q);
  }

  lemma StructFits(e: Expr, env: Env, fn: Engine, p: real, q: real, b: seq<string>)
    requires e.StructOf? && p >= 1.0 && q >= 0.0
    requires AllFit(e.keys, EvalAll(e.keys, env, fn), p, q, b) && AllFit(e.values, EvalAll(e.values, env, fn), p, q, b)
    ensures Fits(e, Eval(e, env, fn), p, q, b)
  {
    hide Worth, Times, Pow, Cap, EvalAll;
    var k, r := EvalAll(e.keys, env, fn), EvalAll(e.values, env, fn);
    NodesCount(e.keys);
    NodesCount(e.values);
    ListLoads(k.vs, Sizes(e.keys, b), AllBulk(e.keys), Size(e, b), Bulk(e));
    ListLoads(r.vs, Sizes(e.values, b), AllBulk(e.values), Size(e, b), Bulk(e));
    WorthAdds(Prices(e.keys, b), Prices(e.values, b), p);
    WorthAdds(Prices(e.keys, b), Prices(e.values, b), q);
    OneNodeMore(k.nodes + r.nodes, k.text + r.text, Prices(e.keys, b) + Prices(e.values, b), Price(e, b), p, q);
  }

  /** The operand `?:` chooses, for a record. */
  function Chosen(e: Expr, env: Env, fn: Engine): Expr
    requires e.Call? && |e.args| == 3
  {
    if Eval(e.args[0], env, fn).v == Scalar(true) then e.args[1] else e.args[2]
  }

  lemma ChoiceRuns(e: Expr, env: Env, fn: Engine)
    requires e.Call? && e.fn == "_?_:_" && e.target.None? && |e.args| == 3
    ensures var a, c := Eval(e.args[0], env, fn), Eval(Chosen(e, env, fn), env, fn);
            Eval(e, env, fn) == Run(c.v, a.nodes + c.nodes + 1, a.text + c.text)
  {
  }

  lemma ChoiceFits(e: Expr, env: Env, fn: Engine, p: real, q: real, b: seq<string>)
    requires e.Call? && e.fn == "_?_:_" && e.target.None? && |e.args| == 3 && p >= 1.0 && q >= 0.0
    requires Fits(e.args[0], Eval(e.args[0], env, fn), p, q, b)
    requires Fits(e.args[1], Eval(e.args[1], env, fn), p, q, b) && Fits(e.args[2], Eval(e.args[2], env, fn), p, q, b)
    ensures Fits(e, Eval(e, env, fn), p, q, b)
  {
    hide Worth, Times, Pow, Cap, Size, Cost, Eval, Load, Nodes;
    var a, chosen := e.args[0], Chosen(e, env, fn);
    var ra, rc := Eval(a, env, fn), Eval(chosen, env, fn);
    ChoiceRuns(e, env, fn);
    ChoiceSizes(e, chosen, b);
    CapMonotone(Size(chosen, b), Bulk(chosen), Size(e, b), Bulk(e));
    WorthAdds(Price(a, b), Price(chosen, b), p);
    WorthAdds(Price(a, b), Price(chosen, b), q);
    OneNodeMore(ra.nodes + rc.nodes, ra.text + rc.text, Price(a, b) + Price(chosen, b), Price(e, b), p, q);
  }

  lemma ChoiceSizes(e: Expr, chosen: Expr, b: seq<string>)
    requires e.Call? && e.fn == "_?_:_" && e.target.None? && |e.args| == 3
    requires (chosen == e.args[1] || chosen == e.args[2])
    ensures Size(chosen, b) <= Size(e, b) && Bulk(chosen) <= Bulk(e)
    ensures Price(e.args[0], b) + Price(chosen, b) < Price(e, b)
  {
    ThreeArgs(e.args, b);
    assert Price(e, b) >= 1 + Prices(e.args, b);
    assert Bulk(chosen) <= Bulk(e);
  }

  // ---- Calls ------------------------------------------------------------------------------------------------------

  ghost predicate OperandsFit(e: Expr, env: Env, fn: Engine, p: real, q: real, b: seq<string>)
    requires e.Call?
  {
    && (e.target.Some? ==> Fits(e.target.value, Eval(e.target.value, env, fn), p, q, b))
    && AllFit(e.args, EvalAll(e.args, env, fn), p, q, b)
    && (forall i :: 0 <= i < |e.args| ==> Fits(e.args[i], Eval(e.args[i], env, fn), p, q, b))
  }

  function OperandBulk(e: Expr): nat
    requires e.Call?
  {
    (if e.target.Some? then Bulk(e.target.value) else 0) + AllBulk(e.args)
  }

  lemma OperandLoads(e: Expr, env: Env, fn: Engine, p: real, q: real, b: seq<string>)
    requires e.Call? && OperandsFit(e, env, fn, p, q, b)
    ensures TotalLoad(OperandsOf(e, env, fn)) <= 6.0 * Cap(Operands(e, b), OperandBulk(e))
    ensures Bulk(e) == OperandBulk(e) + 100
  {
    hide Worth, Times, Pow, Cap, Cost, Costs, Eval, EvalAll, Load, Size, Sizes;
    var tg, a := EvalTarget(e.target, env, fn), EvalAll(e.args, env, fn);
    JoinedTotals(tg.vs, a.vs);
    if e.target.Some? {
      assert tg.vs[1..] == [];
      CapAdd(Size(e.target.value, b), Bulk(e.target.value), Sizes(e.args, b), AllBulk(e.args));
    }
  }

  lemma CallLoad(e: Expr, env: Env, fn: Engine, p: real, q: real, b: seq<string>)
    requires e.Call? && e.fn != "_[_]" && e.fn != "_?_:_" && Modest(fn) && OperandsFit(e, env, fn, p, q, b)
    ensures Load(Eval(e, env, fn).v) <= Hold(e, b)
  {
    hide *;
    OperandLoads(e, env, fn, p, q, b);
    ApplyWithin(e.fn, OperandsOf(e, env, fn), fn);
    CallApplies(e, env, fn);
    CapNode(Operands(e, b), OperandBulk(e));
    CallHold(e, b);
  }

  lemma CallApplies(e: Expr, env: Env, fn: Engine)
    requires e.Call? && e.fn != "_[_]" && e.fn != "_?_:_"
    ensures Eval(e, env, fn).v == Apply(e.fn, OperandsOf(e, env, fn), fn)
  {
    hide Apply, EvalAll, EvalTarget;
  }

  lemma CallHold(e: Expr, b: seq<string>)
    requires e.Call? && e.fn != "_[_]" && e.fn != "_?_:_"
    ensures Hold(e, b) == 6.0 * Cap(Operands(e, b), Bulk(e))
  {
    hide Cap, Operands, Bulk;
  }

  lemma IndexLoad(e: Expr, env: Env, fn: Engine, p: real, q: real, b: seq<string>)
    requires e.Call? && (e.fn == "_[_]" || (e.fn == "_?_:_" && !(e.target.None? && |e.args| == 3)))
    requires OnlyRecord(env) && OperandsFit(e, env, fn, p, q, b)
    ensures Load(Eval(e, env, fn).v) <= Hold(e, b)
  {
    hide Pow, Cap;
    var v := Eval(e, env, fn).v;
    CapFloor(Size(e, b), Bulk(e));
    if !v.Scalar? {
      var ops := OperandsOf(e, env, fn);
      assert e.fn == "_[_]" && e.target.None? && ops == EvalAll(e.args, env, fn).vs && |ops| == 2;
      var first := e.args[0];
      assert ops[0] == Eval(first, env, fn).v;
      IndexIsInside(ops, fn);
      InsideIsWithin(v, ops[0]);
      if IsSelf(first) || IsSelfProperties(first) {
        ReadLoad(first, env, fn);
        IndexedSelf(e, b);
        IndexedSize(e, b);
      } else {
        assert Size(e, b) == Size(first, b) && Bulk(first) <= AllBulk(e.args) <= Bulk(e);
        CapMonotone(Size(first, b), Bulk(first), Size(e, b), Bulk(e));
      }
    }
  }

  lemma IndexedSize(e: Expr, b: seq<string>)
    requires e.Call? && e.fn == "_[_]" && |e.args| == 2 && (IsSelf(e.args[0]) || IsSelfProperties(e.args[0]))
    ensures Size(e, b) >= 1
  {
    SelfIsNoType();
    assert Size(e.args[0], b) >= 1;
    assert SizeAt(e.args, 0, b) == Size(e.args[0], b);
  }

  /** A scan reads no more than its subject can hold, and is charged for that. */
  lemma ScanFits(e: Expr, env: Env, fn: Engine, p: real, q: real, b: seq<string>)
    requires e.Call? && OperandsFit(e, env, fn, p, q, b) && Paid(Bulk(e), p, q)
    ensures Scanned(e.fn, OperandsOf(e, env, fn)) as real <= Worth(ScanPrice(e, b), q)
  {
    PaidLess(Bulk(e), 0, p, q);
    hide Worth, Times, Pow, Cap, Cost, Costs, Eval, Size, Sizes, Apply;
    WorthGrows(0, ScanPrice(e, b), q);
    if Scanned(e.fn, OperandsOf(e, env, fn)) > 0 {
      var sub := Subject(e).value;
      assert Fits(sub, Eval(sub, env, fn), p, q, b) && Bulk(sub) <= Bulk(e);
      assert OperandsOf(e, env, fn)[0] == Eval(sub, env, fn).v;
      PaidLess(Bulk(e), Bulk(sub), p, q);
      CapIsPriced(Size(sub, b), Bulk(sub));
      ScanShare(Load(Eval(sub, env, fn).v), Size(sub, b), Bulk(sub), q);
    }
  }

  lemma ScanShare(load: real, size: nat, bulk: nat, q: real)
    requires load <= 6.0 * Grown(size, bulk) && q >= 600.0 * Pow(bulk)
    ensures 10000.0 * load <= Worth(REGEX_WEIGHT * Max(1, size), q)
  {
    var m, g := Max(1, size) as real, Pow(bulk);
    hide Times, Pow;
    Grow(600.0 * g, q, 100.0 * m);
    Swap(600.0 * g, 100.0 * m);
    Swap(q, 100.0 * m);
    ScanProduct(m, g);
  }

  lemma ScanProduct(m: real, g: real)
    ensures Times(100.0 * m, 600.0 * g) == 60000.0 * (m * g)
  {
  }

  lemma CallFits(e: Expr, env: Env, fn: Engine, p: real, q: real, b: seq<string>)
    requires e.Call? && !(e.fn == "_?_:_" && e.target.None? && |e.args| == 3)
    requires OnlyRecord(env) && Modest(fn) && Paid(Bulk(e), p, q) && OperandsFit(e, env, fn, p, q, b)
    ensures Fits(e, Eval(e, env, fn), p, q, b)
  {
    hide *;
    var tg, a := EvalTarget(e.target, env, fn), EvalAll(e.args, env, fn);
    var scan, ops := Scanned(e.fn, OperandsOf(e, env, fn)), OperandCost(e, b);
    CallRuns(e, env, fn);
    if e.fn == "_[_]" || e.fn == "_?_:_" {
      IndexLoad(e, env, fn, p, q, b);
    } else {
      CallLoad(e, env, fn, p, q, b);
    }
    ScanFits(e, env, fn, p, q, b);
    PaidLess(Bulk(e), 0, p, q);
    CallPriced(e, b);
    OperandsPriced(e, env, fn, p, q, b);
    WorthGrows(0, ScanPrice(e, b), p);
    WorthAdds(ops, ScanPrice(e, b), p);
    WorthAdds(ops, ScanPrice(e, b), q);
    OneNodeMore(tg.nodes + a.nodes, tg.text + a.text + scan, ops + ScanPrice(e, b), Price(e, b), p, q);
    FitsIs(e, Eval(e, env, fn), p, q, b);
  }

  lemma CallPriced(e: Expr, bound: seq<string>)
    requires e.Call?
    ensures Cost(e, 1, bound) >= 1 + OperandCost(e, bound) + ScanPrice(e, bound) && Price(e, bound) == Cost(e, 1, bound)
  {
  }

  lemma OperandsPriced(e: Expr, env: Env, fn: Engine, p: real, q: real, b: seq<string>)
    requires e.Call? && OperandsFit(e, env, fn, p, q, b)
    ensures var tg, a := EvalTarget(e.target, env, fn), EvalAll(e.args, env, fn);
            && (tg.nodes + a.nodes) as real <= Worth(OperandCost(e, b), p)
            && (tg.text + a.text) as real <= Worth(OperandCost(e, b), q)
  {
    hide Worth, Times, Cost, Costs, Eval, EvalAll, Load, Size, Hold, HoldAll;
    if e.target.Some? {
      WorthAdds(Price(e.target.value, b), Prices(e.args, b), p);
      WorthAdds(Price(e.target.value, b), Prices(e.args, b), q);
    }
  }

  // ---- Loops ------------------------------------------------------------------------------------------------------

  /** How often `analyse` takes a loop's body to run: a hundred times for each cap of its range. */
  function PerRun(e: Expr, b: seq<string>): nat
    requires e.Comprehension?
  {
    LIST_CAP * Max(1, Size(e.iterRange, b))
  }

  lemma {:induction false} NodesArePriced(e: Expr, bound: seq<string>)
    requires LoopFree(e)
    ensures Nodes(e) <= Cost(e, 1, bound)
    decreases e, 0
  {
    match e
    case Select(operand, _, _) => NodesArePriced(operand, bound);
    case Call(_, target, args) =>
      if target.Some? { NodesArePriced(target.value, bound); }
      AllNodesArePriced(args, bound);
    case ListOf(elements) => AllNodesArePriced(elements, bound);
    case StructOf(keys, values) => AllNodesArePriced(keys, bound); AllNodesArePriced(values, bound);
    case _ =>
  }

  lemma {:induction false} AllNodesArePriced(es: seq<Expr>, bound: seq<string>)
    requires AllLoopFree(es)
    ensures AllNodes(es) <= Costs(es, 1, bound)
    decreases es, 0
  {
    if es != [] {
      NodesArePriced(es[0], bound);
      AllNodesArePriced(es[1..], bound);
    }
  }

  lemma LoopPrice(e: Expr, b: seq<string>)
    requires e.Comprehension? && IsMacro(e)
    ensures Price(e, b) == 1 + Price(e.iterRange, b) + Price(e.accuInit, b) + Multiple(PerRun(e, b), BodyCost(e, b))
                           + Cost(e.result, 1, Scope(e, b))
    ensures BodyNodes(e) <= BodyCost(e, b)
  {
    var inner := Scope(e, b);
    NodesArePriced(e.loopCondition, inner);
    NodesArePriced(e.loopStep, inner);
    CostScales(e.loopCondition, PerRun(e, b), inner);
    CostScales(e.loopStep, PerRun(e, b), inner);
    Distribute(PerRun(e, b), Cost(e.loopCondition, 1, inner), Cost(e.loopStep, 1, inner));
  }

  /** What a loop starts from and what it answers cost their own nodes and scan nothing. */
  lemma EndsRun(e: Expr, env: Env, out: Env, fn: Engine, b: seq<string>)
    requires e.Comprehension? && IsMacro(e) && e.accuVar in out
    ensures Eval(e.accuInit, env, fn) == Run(if Builds(e) then Items([]) else Scalar(e.accuInit.lit.truth), 1, 0)
    ensures var r := Eval(e.result, out, fn);
            r.text == 0 && r.nodes <= Cost(e.result, 1, Scope(e, b)) && (r.v.Scalar? || r.v == out[e.accuVar])
    ensures Price(e.accuInit, b) >= 1
  {
    var scope := Scope(e, b);
    if Gathers(e) && IsCount(e) {
      TwoEvaluated(e.result.args, out, fn);
      TwoArgs(e.result.args, scope);
      assert EvalTarget(e.result.target, out, fn) == Runs([], 0, 0);
      CallPriced(e.result, scope);
    }
  }

  /** How much a range can make its loop do, by its price. */
  lemma RangeReach(v: Value, size: nat, bulk: nat)
    requires Load(v) <= 6.0 * Cap(size, bulk)
    ensures Top(6.0, Load(v)) <= 6.0 * Grown(size, bulk)
    ensures 0.0 <= |Visited(v)| as real <= 300.0 * Grown(size, bulk)
    ensures 0.0 <= Demand(Visited(v)) <= 600.0 * Grown(size, bulk)
    ensures Demand(Visited(v)) <= 100.0 * Top(6.0, Load(v))
  {
    CapIsPriced(size, bulk);
    GrownIsOne(size, bulk);
    VisitedLoad(v);
    WeightsAreLoads(Visited(v));
    hide Grown, Cap;
  }

  lemma GrownIsOne(size: nat, bulk: nat)
    ensures Grown(size, bulk) >= 1.0
  {
    PowGrows(bulk);
    assert Max(1, size) as real * Pow(bulk) >= Pow(bulk);
  }

  /** The nodes a loop evaluates are within what its body is charged. */
  lemma LoopNodesPaid(n: nat, nodes: nat, cost: nat, size: nat, bulk: nat, p: real)
    requires n as real <= 300.0 * Grown(size, bulk) && nodes <= cost && p >= 3.0 * Pow(bulk)
    ensures (n * nodes) as real <= Worth(Multiple(LIST_CAP * Max(1, size), cost), p)
  {
    PowGrows(bulk);
    NodesProduct(n as real, nodes as real, cost as real, Max(1, size) as real, Pow(bulk), p);
    AsReal(n, nodes);
    AsReal(LIST_CAP * Max(1, size), cost);
  }

  lemma AsReal(a: nat, b: nat)
    ensures (a * b) as real == a as real * b as real
  {
  }

  lemma NodesProduct(n: real, nodes: real, cost: real, m: real, g: real, p: real)
    requires 0.0 <= n <= 300.0 * (m * g) && 0.0 <= nodes <= cost && p >= 3.0 * g >= 0.0 && m >= 0.0
    ensures n * nodes <= Times((100.0 * m) * cost, p)
  {
    var w := 100.0 * m * cost;
    assert n * nodes <= n * cost by { Share(n, nodes, cost); }
    assert n * cost <= 300.0 * (m * g) * cost by { Share(cost, n, 300.0 * (m * g)); }
    assert 300.0 * (m * g) * cost == w * (3.0 * g);
    assert w >= 0.0;
    Share(w, 3.0 * g, p);
  }

  /** The text a loop scans is within what its body is charged. */
  lemma LoopTextPaid(demand: real, cost: nat, size: nat, bulk: nat, body: nat, q: real)
    requires 0.0 <= demand <= 600.0 * Grown(size, bulk) && q >= 600.0 * Pow(bulk + body)
    ensures Times(demand, Times(cost as real, 100.0 * Pow(body))) <= Worth(Multiple(LIST_CAP * Max(1, size), cost), q)
  {
    PowGrows(bulk);
    PowGrows(body);
    PowAdd(bulk, body);
    TextProduct(demand, cost as real, Max(1, size) as real, Pow(bulk), Pow(body), q);
    AsReal(LIST_CAP * Max(1, size), cost);
  }

  lemma TextProduct(d: real, cost: real, m: real, g: real, h: real, q: real)
    requires 0.0 <= d <= 600.0 * (m * g) && cost >= 0.0 && m >= 0.0 && g >= 0.0 && h >= 0.0 && q >= 600.0 * (g * h)
    ensures Times(d, Times(cost, 100.0 * h)) <= Times((100.0 * m) * cost, q)
  {
    var w := 100.0 * m * cost;
    assert w >= 0.0 && cost * (100.0 * h) >= 0.0;
    Share(cost * (100.0 * h), d, 600.0 * (m * g));
    assert (cost * (100.0 * h)) * (600.0 * (m * g)) == w * (600.0 * (g * h));
    Share(w, 600.0 * (g * h), q);
  }

  /** What a building loop gathers holds no more than the analysis says of the loop. */
  lemma BuiltHolds(v: Value, els: seq<Value>, size: nat, step: nat, part: nat, range: nat, bulk: nat, t: real)
    requires Built(Items([]), v, els, step as real - 1.0 + part as real / 10000.0, t) && step >= 1
    requires t >= 6.0 && t <= 6.0 * Grown(size, range) && Demand(els) <= 100.0 * t && range + part <= bulk
    ensures Load(v) <= 6.0 * Cap(Multiple(Max(1, size), step), bulk)
  {
    var room := step as real - 1.0 + part as real / 10000.0;
    PowGrows(part);
    PowGrows(range);
    BuiltLoad(v, els, room, t);
    StepGrowth(step as real, part as real / 10000.0, Pow(part));
    hide Pow, Times, Cap;
    GrownProduct(room, t, Max(1, size) as real, step as real, Pow(range), Pow(part));
    GrownIsCap(size, step, range, part);
    CapMonotone(Multiple(Max(1, size), step), range + part, Multiple(Max(1, size), step), bulk);
  }

  lemma StepGrowth(step: real, x: real, g: real)
    requires step >= 1.0 && x >= 0.0 && g >= 1.0 + x
    ensures step + x <= step * g
  {
    Share(step, 1.0 + x, g);
    Share(x, 1.0, step);
    assert step * (1.0 + x) == step + step * x;
  }

  lemma GrownIsCap(size: nat, step: nat, range: nat, part: nat)
    requires step >= 1
    ensures Times(Times(Max(1, size) as real, step as real), Times(Pow(range), Pow(part)))
            == Cap(Multiple(Max(1, size), step), range + part)
  {
    hide Pow, Times, Held, Multiple;
    PowJoins(range, part);
    RealMultiple(Max(1, size), step);
    HeldIsTimes(Multiple(Max(1, size), step) as real, Pow(range + part));
  }

  lemma PowJoins(a: nat, b: nat)
    ensures Pow(a + b) == Times(Pow(a), Pow(b))
  {
    PowAdd(a, b);
  }

  lemma RealMultiple(a: nat, b: nat)
    requires a >= 1 && b >= 1
    ensures Multiple(a, b) as real == Times(a as real, b as real) && Multiple(a, b) >= 1
  {
  }

  lemma HeldIsTimes(s: real, x: real)
    requires s >= 1.0
    ensures Held(s, x) == Times(s, x)
  {
  }

  lemma GrownProduct(room: real, t: real, m: real, s: real, r: real, g: real)
    requires 0.0 <= 1.0 + room <= s * g && 0.0 <= t <= 6.0 * (m * r) && s >= 0.0 && g >= 0.0
    ensures (1.0 + room) * t <= 6.0 * Times(Times(m, s), Times(r, g))
  {
    Share(1.0 + room, t, 6.0 * (m * r));
    assert m * r >= 0.0;
    Share(6.0 * (m * r), 1.0 + room, s * g);
    assert (6.0 * (m * r)) * (s * g) == 6.0 * ((m * s) * (r * g));
  }

  lemma BuiltLoad(v: Value, els: seq<Value>, room: real, t: real)
    requires Built(Items([]), v, els, room, t) && t >= 0.0 && room >= 0.0 && Demand(els) <= 100.0 * t
    ensures Load(v) <= (1.0 + room) * t
  {
    WeightsAreLoads(els);
    Share(room, Demand(els), 100.0 * t);
    assert (1.0 + room) * t == t + room * t;
    RoomShare(Demand(els), room, t);
  }

  lemma RoomShare(d: real, room: real, t: real)
    requires d <= 100.0 * t && room >= 0.0 && t >= 0.0
    ensures Times(d, room) <= 100.0 * (room * t) && Times(room, t) == room * t >= 0.0
  {
    Share(room, d, 100.0 * t);
    assert room * (100.0 * t) == 100.0 * (room * t);
  }

  /** What a loop gathers before its result is read. */
  function Gathered(e: Expr, env: Env, fn: Engine): Run
    requires e.Comprehension?
  {
    EvalLoop(e, Visited(Eval(e.iterRange, env, fn).v), env, Eval(e.accuInit, env, fn).v, fn)
  }

  lemma LoopRuns(e: Expr, env: Env, fn: Engine, t: real, b: seq<string>)
    requires e.Comprehension? && IsMacro(e) && OnlyRecord(env) && Modest(fn)
    requires t >= 6.0 && t >= Load(Eval(e.iterRange, env, fn).v)
    ensures var els, r := Visited(Eval(e.iterRange, env, fn).v), Gathered(e, env, fn);
            && r.nodes <= |els| * BodyNodes(e)
            && r.text as real <= Times(Demand(els), Times(BodyCost(e, b) as real, 100.0 * Pow(BodyBulk(e))))
            && (if Builds(e) then Built(Items([]), r.v, els, Room(Element(e), Scope(e, b)), t) else r.v.Scalar?)
  {
    hide Times, BodyCost, Cost, Room;
    var range := Eval(e.iterRange, env, fn).v;
    var els, k := Visited(range), 100.0 * Pow(BodyBulk(e));
    PowGrows(BodyBulk(e));
    forall i | 0 <= i < |els| ensures Load(els[i]) <= t {
      VisitedIsWithin(range, i);
    }
    EndsRun(e, env, env[e.accuVar := range], fn, b);
    if Builds(e) {
      BuildLoop(e, els, env, Items([]), b, fn, t, k);
    } else {
      GatherLoop(e, els, env, Eval(e.accuInit, env, fn).v, b, fn, t, k);
    }
  }

  lemma LoopLoad(e: Expr, env: Env, fn: Engine, p: real, q: real, b: seq<string>)
    requires e.Comprehension? && IsMacro(e) && OnlyRecord(env) && Modest(fn)
    requires Fits(e.iterRange, Eval(e.iterRange, env, fn), p, q, b)
    ensures Load(Eval(e, env, fn).v) <= Hold(e, b)
  {
    hide Times, Cap, Pow, Grown, Cost, Built;
    var range := Eval(e.iterRange, env, fn).v;
    var t := Top(6.0, Load(range));
    LoopRuns(e, env, fn, t, b);
    var loop := Gathered(e, env, fn);
    EndsRun(e, env, env[e.accuVar := loop.v], fn, b);
    CapFloor(Size(e, b), Bulk(e));
    if !Eval(e, env, fn).v.Scalar? {
      StepPriced(e, b);
      RangeReach(range, Size(e.iterRange, b), Bulk(e.iterRange));
      LoopSize(e, b);
      BuiltHolds(loop.v, Visited(range), Size(e.iterRange, b), Size(e.loopStep, Scope(e, b)), Bulk(Element(e)),
                 Bulk(e.iterRange), Bulk(e), t);
    }
  }

  lemma LoopSize(e: Expr, b: seq<string>)
    requires e.Comprehension? && IsMacro(e) && Builds(e)
    ensures Size(e, b) == Multiple(Max(1, Size(e.iterRange, b)), Size(e.loopStep, Scope(e, b)))
    ensures Room(Element(e), Scope(e, b))
            == Size(e.loopStep, Scope(e, b)) as real - 1.0 + Bulk(Element(e)) as real / 10000.0
    ensures Bulk(e.iterRange) + Bulk(Element(e)) <= Bulk(e)
  {
    StepPriced(e, b);
  }

  lemma LoopFits(e: Expr, env: Env, fn: Engine, p: real, q: real, b: seq<string>)
    requires e.Comprehension? && IsMacro(e) && OnlyRecord(env) && Modest(fn) && Paid(Bulk(e), p, q)
    requires Fits(e.iterRange, Eval(e.iterRange, env, fn), p, q, b)
    ensures Fits(e, Eval(e, env, fn), p, q, b)
  {
    hide *;
    LoopLoad(e, env, fn, p, q, b);
    LoopWork(e, env, fn, p, q, b);
    FitsIs(e, Eval(e, env, fn), p, q, b);
  }

  lemma FitsIs(e: Expr, run: Run, p: real, q: real, b: seq<string>)
    requires Load(run.v) <= Hold(e, b) && run.nodes as real <= Worth(Price(e, b), p)
    requires run.text as real <= Worth(Price(e, b), q)
    ensures Fits(e, run, p, q, b)
  {
  }

  lemma FitsOf(e: Expr, run: Run, p: real, q: real, b: seq<string>)
    requires Fits(e, run, p, q, b)
    ensures Load(run.v) <= 6.0 * Cap(Size(e, b), Bulk(e))
    ensures run.nodes as real <= Worth(Price(e, b), p) && run.text as real <= Worth(Price(e, b), q)
  {
    hide Cap, Worth, Price;
  }

  lemma LoopEval(e: Expr, env: Env, fn: Engine)
    requires e.Comprehension?
    ensures var range, init, loop, run := Eval(e.iterRange, env, fn), Eval(e.accuInit, env, fn), Gathered(e, env, fn),
            Eval(e, env, fn);
            var out := Eval(e.result, env[e.accuVar := loop.v], fn);
            && run.nodes == range.nodes + init.nodes + loop.nodes + out.nodes + 1
            && run.text == range.text + init.text + loop.text + out.text
  {
  }

  lemma LoopWork(e: Expr, env: Env, fn: Engine, p: real, q: real, b: seq<string>)
    requires e.Comprehension? && IsMacro(e) && OnlyRecord(env) && Modest(fn) && Paid(Bulk(e), p, q)
    requires Fits(e.iterRange, Eval(e.iterRange, env, fn), p, q, b)
    ensures var run := Eval(e, env, fn);
            run.nodes as real <= Worth(Price(e, b), p) && run.text as real <= Worth(Price(e, b), q)
  {
    hide *;
    var range, loop := Eval(e.iterRange, env, fn), Gathered(e, env, fn);
    FitsOf(e.iterRange, range, p, q, b);
    PaidFor(Bulk(e), 0, p, q);
    GatheredPaid(e, env, fn, p, q, b);
    EndsRun(e, env, env[e.accuVar := loop.v], fn, b);
    LoopPrice(e, b);
    LoopEval(e, env, fn);
    LoopSum(range, loop, Price(e.iterRange, b), Multiple(PerRun(e, b), BodyCost(e, b)), Cost(e.result, 1, Scope(e, b)),
            Eval(e.result, env[e.accuVar := loop.v], fn).nodes, Price(e, b), p, q);
  }

  /** What the turns of a loop come to is within what its body is charged. */
  lemma GatheredPaid(e: Expr, env: Env, fn: Engine, p: real, q: real, b: seq<string>)
    requires e.Comprehension? && IsMacro(e) && OnlyRecord(env) && Modest(fn) && Paid(Bulk(e), p, q)
    requires Fits(e.iterRange, Eval(e.iterRange, env, fn), p, q, b)
    ensures var loop, n := Gathered(e, env, fn), Multiple(PerRun(e, b), BodyCost(e, b));
            loop.nodes as real <= Worth(n, p) && loop.text as real <= Worth(n, q)
  {
    hide *;
    GatheredNodes(e, env, fn, p, q, b);
    GatheredText(e, env, fn, p, q, b);
  }

  lemma GatheredNodes(e: Expr, env: Env, fn: Engine, p: real, q: real, b: seq<string>)
    requires e.Comprehension? && IsMacro(e) && OnlyRecord(env) && Modest(fn) && Paid(Bulk(e), p, q)
    requires Fits(e.iterRange, Eval(e.iterRange, env, fn), p, q, b)
    ensures Gathered(e, env, fn).nodes as real <= Worth(Multiple(PerRun(e, b), BodyCost(e, b)), p)
  {
    BulkOfLoop(e);
    hide *;
    var range := Eval(e.iterRange, env, fn);
    var size, bulk := Size(e.iterRange, b), Bulk(e.iterRange);
    FitsOf(e.iterRange, range, p, q, b);
    LoopRuns(e, env, fn, Most(range.v), b);
    RangeReach(range.v, size, bulk);
    LoopPrice(e, b);
    PaidFor(Bulk(e), bulk, p, q);
    LoopNodesPaid(|Visited(range.v)|, BodyNodes(e), BodyCost(e, b), size, bulk, p);
    PerRunIs(e, b);
  }

  lemma GatheredText(e: Expr, env: Env, fn: Engine, p: real, q: real, b: seq<string>)
    requires e.Comprehension? && IsMacro(e) && OnlyRecord(env) && Modest(fn) && Paid(Bulk(e), p, q)
    requires Fits(e.iterRange, Eval(e.iterRange, env, fn), p, q, b)
    ensures Gathered(e, env, fn).text as real <= Worth(Multiple(PerRun(e, b), BodyCost(e, b)), q)
  {
    BulkOfLoop(e);
    hide *;
    var range := Eval(e.iterRange, env, fn);
    var size, bulk := Size(e.iterRange, b), Bulk(e.iterRange);
    FitsOf(e.iterRange, range, p, q, b);
    LoopRuns(e, env, fn, Most(range.v), b);
    RangeReach(range.v, size, bulk);
    PaidFor(Bulk(e), bulk + BodyBulk(e), p, q);
    LoopTextPaid(Demand(Visited(range.v)), BodyCost(e, b), size, bulk, BodyBulk(e), q);
    PerRunIs(e, b);
  }

  /** What a loop over a value is measured by: its load, and at least the record's. */
  function Most(v: Value): (t: real)
    ensures t >= 6.0 && t >= Load(v)
  {
    Top(6.0, Load(v))
  }

  lemma PaidFor(big: nat, small: nat, p: real, q: real)
    requires Paid(big, p, q) && small <= big
    ensures p >= 3.0 * Pow(small) && q >= 600.0 * Pow(small) && p >= 3.0 && q >= 600.0
  {
    PaidLess(big, small, p, q);
    hide Pow;
  }

  lemma BulkOfLoop(e: Expr)
    requires e.Comprehension?
    ensures Bulk(e.iterRange) + BodyBulk(e) <= Bulk(e)
  {
  }

  lemma PerRunIs(e: Expr, b: seq<string>)
    requires e.Comprehension?
    ensures PerRun(e, b) == LIST_CAP * Max(1, Size(e.iterRange, b))
  {
  }

  /** The parts of a loop, each within its price, and the two nodes that start it and hold it. */
  lemma LoopSum(range: Run, loop: Run, a: nat, m: nat, r: nat, out: nat, all: nat, p: real, q: real)
    requires range.nodes as real <= Worth(a, p) && range.text as real <= Worth(a, q)
    requires loop.nodes as real <= Worth(m, p) && loop.text as real <= Worth(m, q)
    requires out <= r && all >= a + m + r + 2 && p >= 1.0 && q >= 0.0
    ensures (range.nodes + 1 + loop.nodes + out + 1) as real <= Worth(all, p)
    ensures (range.text + loop.text) as real <= Worth(all, q)
  {
    hide Worth;
    WorthAdds(a, m, p);
    WorthAdds(a, m, q);
    NodesWorth(r + 2, p);
    WorthAdds(a + m, r + 2, p);
    WorthGrows(a + m + (r + 2), all, p);
    WorthGrows(a + m, all, q);
  }

  lemma NodesWorth(n: nat, p: real)
    requires p >= 1.0
    ensures n as real <= Worth(n, p)
  {
    Share(n as real, 1.0, p);
  }

  // ---- The whole rule ---------------------------------------------------------------------------------------------

  /** Every part outside a loop's body fits its price. */
  lemma {:induction false} PartFits(e: Expr, env: Env, fn: Engine, p: real, q: real, b: seq<string>)
    requires MacroRule(e) && OnlyRecord(env) && Modest(fn) && Paid(Bulk(e), p, q)
    ensures Fits(e, Eval(e, env, fn), p, q, b)
    decreases e, 1
  {
    PaidLess(Bulk(e), 0, p, q);
    hide Fits, AllFit, Paid, Eval, EvalAll;
    match e
    case Select(operand, _, _) =>
      PaidLess(Bulk(e), Bulk(operand), p, q);
      PartFits(operand, env, fn, p, q, b);
      SelectFits(e, env, fn, p, q, b);
    case ListOf(elements) =>
      PaidLess(Bulk(e), AllBulk(elements), p, q);
      PartsFit(elements, env, fn, p, q, b);
      ListFits(e, env, fn, p, q, b);
    case StructOf(keys, values) =>
      PaidLess(Bulk(e), AllBulk(keys), p, q);
      PaidLess(Bulk(e), AllBulk(values), p, q);
      PartsFit(keys, env, fn, p, q, b);
      PartsFit(values, env, fn, p, q, b);
      StructFits(e, env, fn, p, q, b);
    case Call(name, target, args) =>
      PaidLess(Bulk(e), AllBulk(args), p, q);
      PartsFit(args, env, fn, p, q, b);
      if target.Some? {
        PaidLess(Bulk(e), Bulk(target.value), p, q);
        PartFits(target.value, env, fn, p, q, b);
      }
      if name == "_?_:_" && target.None? && |args| == 3 {
        ChoiceFits(e, env, fn, p, q, b);
      } else {
        CallFits(e, env, fn, p, q, b);
      }
    case Comprehension(_, _, _, iterRange, _, _, _, _) =>
      PaidLess(Bulk(e), Bulk(iterRange), p, q);
      PartFits(iterRange, env, fn, p, q, b);
      LoopFits(e, env, fn, p, q, b);
    case _ => LeafFits(e, env, fn, p, q, b);
  }

  lemma {:induction false} PartsFit(es: seq<Expr>, env: Env, fn: Engine, p: real, q: real, b: seq<string>)
    requires AllMacroRules(es) && OnlyRecord(env) && Modest(fn) && Paid(AllBulk(es), p, q)
    ensures AllFit(es, EvalAll(es, env, fn), p, q, b)
    ensures forall i :: 0 <= i < |es| ==> Fits(es[i], Eval(es[i], env, fn), p, q, b)
    decreases es, 0
  {
    if es == [] {
      NoneFit(env, fn, p, q, b);
    } else {
      var e, rest := es[0], es[1..];
      PaidLess(AllBulk(es), Bulk(e), p, q);
      PaidLess(AllBulk(es), AllBulk(rest), p, q);
      PartFits(e, env, fn, p, q, b);
      PartsFit(rest, env, fn, p, q, b);
      JoinFit(es, env, fn, p, q, b);
      FitEach(es, env, fn, p, q, b);
    }
  }

  lemma NoneFit(env: Env, fn: Engine, p: real, q: real, b: seq<string>)
    ensures AllFit([], EvalAll([], env, fn), p, q, b)
  {
  }

  lemma JoinFit(es: seq<Expr>, env: Env, fn: Engine, p: real, q: real, b: seq<string>)
    requires es != [] && Fits(es[0], Eval(es[0], env, fn), p, q, b)
    requires AllFit(es[1..], EvalAll(es[1..], env, fn), p, q, b)
    ensures AllFit(es, EvalAll(es, env, fn), p, q, b)
  {
    hide Times, Worth, Cap, Pow;
    var e, rest := es[0], es[1..];
    var first, more := Eval(e, env, fn), EvalAll(rest, env, fn);
    assert EvalAll(es, env, fn) == Runs([first.v] + more.vs, first.nodes + more.nodes, first.text + more.text);
    assert ([first.v] + more.vs)[1..] == more.vs;
    CapAdd(Size(e, b), Bulk(e), Sizes(rest, b), AllBulk(rest));
    assert AllBulk(es) == Bulk(e) + AllBulk(rest) && Sizes(es, b) == Size(e, b) + Sizes(rest, b);
    assert Prices(es, b) == Price(e, b) + Prices(rest, b);
    hide Eval, EvalAll, Cost, Costs, Size, Sizes, Nodes, AllNodes, Load;
    WorthAdds(Price(e, b), Prices(rest, b), p);
    WorthAdds(Price(e, b), Prices(rest, b), q);
  }

  lemma FitEach(es: seq<Expr>, env: Env, fn: Engine, p: real, q: real, b: seq<string>)
    requires es != [] && Fits(es[0], Eval(es[0], env, fn), p, q, b)
    requires forall i :: 0 <= i < |es[1..]| ==> Fits(es[1..][i], Eval(es[1..][i], env, fn), p, q, b)
    ensures forall i :: 0 <= i < |es| ==> Fits(es[i], Eval(es[i], env, fn), p, q, b)
  {
    hide *;
    forall i | 0 <= i < |es| ensures Fits(es[i], Eval(es[i], env, fn), p, q, b) {
      if i > 0 { assert es[i] == es[1..][i - 1]; }
    }
  }

  lemma WorkIsBounded(e: Expr, record: Value, fn: Engine, b: seq<string>)
    requires MacroRule(e) && Nodes(e) <= AST_NODE_LIMIT && Chars(e) <= MAX_RULE_LENGTH
    requires WithinCaps(record) && Modest(fn)
    ensures var run := Eval(e, map["self" := record], fn);
            run.nodes <= 30 * Cost(e, 1, b) && run.text <= 6000 * Cost(e, 1, b)
  {
    hide Pow, Eval, Cost;
    CapsBound(record);
    PowWithinLimits(Bulk(e));
    PartFits(e, map["self" := record], fn, 30.0, 6000.0, b);
  }
}
