/**
 * The loops the CEL macros write (`all`, `exists`, `exists_one`, `map`, `filter`) and what running one comes to. A loop
 * either keeps a truth or a count, or appends one value to a list for each element it keeps; it never does anything
 * else with what it has gathered. Its cost is amortised over its elements: each pays two and its own weight, and
 * together they pay at most a hundred times what the range loads.
 */
module RuleLoop {

  import opened Maybe
  import opened RuleSyntax
  import opened RulePrice
  import opened RuleValue
  import opened RuleEval
  import opened RuleBody

  // ---- The shapes -------------------------------------------------------------------------------------------------

  predicate IsPlain(e: Expr) { e.Const? && e.lit.Other? }

  /** `all` and `exists`: the step joins one more test to the truth so far. */
  predicate IsTest(e: Expr)
    requires e.Comprehension?
  {
    && e.loopStep.Call? && e.loopStep.fn in {"_&&_", "_||_"} && e.loopStep.target.None?
    && |e.loopStep.args| == 2 && e.loopStep.args[0] == Ident(e.accuVar)
    && e.result == Ident(e.accuVar)
  }

  /** `exists_one`: the step counts the elements that pass, and the result compares the count. */
  predicate IsCount(e: Expr)
    requires e.Comprehension?
  {
    && e.loopStep.Call? && e.loopStep.fn == "_?_:_" && e.loopStep.target.None? && |e.loopStep.args| == 3
    && IsIncrement(e.loopStep.args[1], e.accuVar) && e.loopStep.args[2] == Ident(e.accuVar)
    && e.result.Call? && e.result.fn == "_==_" && e.result.target.None? && |e.result.args| == 2
    && e.result.args[0] == Ident(e.accuVar) && IsPlain(e.result.args[1])
  }

  predicate IsIncrement(x: Expr, accu: string) {
    && x.Call? && x.fn == "_+_" && x.target.None? && |x.args| == 2
    && x.args[0] == Ident(accu) && IsPlain(x.args[1])
  }

  /** A loop that gathers a truth or a count. */
  predicate Gathers(e: Expr)
    requires e.Comprehension?
  {
    IsPlain(e.accuInit) && (IsTest(e) || IsCount(e))
  }

  /** `map` and `filter`: the step appends one value, or keeps the list when the element is left out. */
  predicate Builds(e: Expr)
    requires e.Comprehension?
  {
    && e.accuInit == ListOf([]) && e.loopCondition.Const? && e.result == Ident(e.accuVar)
    && (IsAppend(e.loopStep, e.accuVar) || IsAppendIf(e.loopStep, e.accuVar))
  }

  predicate IsAppend(x: Expr, accu: string) {
    && x.Call? && x.fn == "_+_" && x.target.None? && |x.args| == 2 && x.args[0] == Ident(accu)
    && x.args[1].ListOf? && |x.args[1].elements| == 1 && !Mentions(x.args[1].elements[0], accu)
  }

  predicate IsAppendIf(x: Expr, accu: string) {
    && x.Call? && x.fn == "_?_:_" && x.target.None? && |x.args| == 3
    && !Mentions(x.args[0], accu) && IsAppend(x.args[1], accu) && x.args[2] == Ident(accu)
  }

  /** A comprehension as a macro writes it, whatever its author put in the body. */
  predicate IsMacroShape(e: Expr)
    requires e.Comprehension?
  {
    && e.iterVar2 == "" && e.iterVar != "" && e.accuVar != "" && e.iterVar != e.accuVar
    && (Gathers(e) || Builds(e))
  }

  /** A macro's loop with no loop inside its body. */
  predicate IsMacro(e: Expr)
    requires e.Comprehension?
  {
    IsMacroShape(e) && LoopFree(e.loopCondition) && LoopFree(e.loopStep)
  }

  // ---- What one turn comes to -------------------------------------------------------------------------------------

  /** What the elements of a loop pay together. */
  function Demand(els: seq<Value>): real { 2.0 * |els| as real + TotalWeight(els) }

  function Pays(el: Value): real { 2.0 + Weight(el) }

  /** Everything but the loop's own variables is the record, within the input caps. */
  ghost predicate OnlyRecord(env: Env) {
    forall x :: x in env ==> x == "self" && Weight(env[x]) <= 2.0 && Load(env[x]) <= 6.0
  }

  function Scope(e: Expr, bound: seq<string>): seq<string>
    requires e.Comprehension?
  {
    bound + LoopVars(e)
  }

  function BodyNodes(e: Expr): nat
    requires e.Comprehension?
  {
    Nodes(e.loopCondition) + Nodes(e.loopStep)
  }

  function BodyBulk(e: Expr): nat
    requires e.Comprehension?
  {
    Bulk(e.loopCondition) + Bulk(e.loopStep)
  }

  function BodyCost(e: Expr, bound: seq<string>): nat
    requires e.Comprehension?
  {
    Cost(e.loopCondition, 1, Scope(e, bound)) + Cost(e.loopStep, 1, Scope(e, bound))
  }

  function Turn(e: Expr, env: Env, accu: Value, el: Value): Env
    requires e.Comprehension?
  {
    env[e.accuVar := accu][e.iterVar := el]
  }

  lemma TurnBounded(e: Expr, part: Expr, env: Env, accu: Value, el: Value, bound: seq<string>, t: real)
    requires e.Comprehension? && IsMacro(e) && OnlyRecord(env) && Load(el) <= t && t >= 6.0
    requires accu.Scalar? || !Mentions(part, e.accuVar)
    ensures Bounded(part, Turn(e, env, accu, el), Scope(e, bound), Pays(el), t)
  {
    WeightIsLoad(el);
    var inner := Turn(e, env, accu, el);
    forall x | x in inner && Mentions(part, x)
      ensures Charged(x, Scope(e, bound)) && Weight(inner[x]) <= Pays(el) && Load(inner[x]) <= t
    {
      if x == e.iterVar {
        assert e.iterVar in Named(e.iterVar);
      } else if x == e.accuVar {
        assert e.accuVar in Named(e.accuVar);
      } else {
        assert x in env;
      }
    }
  }

  /** A loop-free part of the body, run for one element. */
  lemma PartHolds(e: Expr, part: Expr, env: Env, accu: Value, el: Value, bound: seq<string>, fn: Engine, t: real,
      k: real)
    requires e.Comprehension? && IsMacro(e) && OnlyRecord(env) && Load(el) <= t && t >= 6.0 && Modest(fn)
    requires accu.Scalar? || !Mentions(part, e.accuVar)
    requires LoopFree(part) && k >= 100.0 * (1.0 + Bulk(part) as real / 10000.0)
    ensures Holds(part, Eval(part, Turn(e, env, accu, el), fn), Scope(e, bound), Pays(el), t, Times(k, Pays(el)))
  {
    hide Times;
    WeightIsLoad(el);
    var y := Pays(el);
    TurnBounded(e, part, env, accu, el, bound, t);
    Grow(100.0 * (1.0 + Bulk(part) as real / 10000.0), k, y);
    TimesPositive(k, y);
    BodyHolds(part, Turn(e, env, accu, el), Scope(e, bound), fn, y, t, Times(k, y));
  }

  lemma TimesPositive(a: real, y: real)
    requires a >= 0.0 && y >= 0.0
    ensures Times(a, y) >= 0.0
  {
  }

  /** The texts of two parts, each within its own price, are within what one element pays for both. */
  lemma TwoTexts(a: real, b: real, p: real, q: real, k: real, y: real)
    requires a <= Times(p, Times(k, y)) && b <= Times(q, Times(k, y))
    ensures a + b <= Times(y, Times(p + q, k))
  {
    assert Times(p, Times(k, y)) == y * (p * k) by { assert p * (k * y) == y * (p * k); }
    assert Times(q, Times(k, y)) == y * (q * k) by { assert q * (k * y) == y * (q * k); }
    assert Times(y, Times(p + q, k)) == y * (p * k) + y * (q * k) by {
      assert (p + q) * k == p * k + q * k;
    }
  }

  /** One more element pays for itself. */
  lemma OneMorePays(els: seq<Value>, u: real)
    requires els != []
    ensures Times(Demand(els), u) == Times(Pays(els[0]), u) + Times(Demand(els[1..]), u)
  {
    hide Times;
    assert Demand(els) == Pays(els[0]) + Demand(els[1..]);
    Spread(Pays(els[0]), Demand(els[1..]), u);
  }

  lemma PaysNothing(els: seq<Value>, u: real)
    requires u >= 0.0
    ensures 0.0 <= Times(Demand(els), u)
  {
    WeightsAreLoads(els);
    TimesPositive(Demand(els), u);
  }

  // ---- A loop that gathers ----------------------------------------------------------------------------------------

  /** Joining a test to a truth, or one to a count, is a scalar again. */
  lemma StepIsScalar(e: Expr, inner: Env, fn: Engine)
    requires e.Comprehension? && Gathers(e) && e.accuVar in inner && inner[e.accuVar].Scalar?
    ensures Eval(e.loopStep, inner, fn).v.Scalar?
  {
    var s := e.loopStep;
    if IsCount(e) {
      IncrementIsScalar(s.args[1], e.accuVar, inner, fn);
    }
  }

  lemma IncrementIsScalar(x: Expr, accu: string, inner: Env, fn: Engine)
    requires IsIncrement(x, accu) && accu in inner && inner[accu].Scalar?
    ensures Eval(x, inner, fn).v.Scalar?
  {
    assert EvalAll(x.args, inner, fn).vs[0] == Eval(x.args[0], inner, fn).v;
  }

  lemma {:induction false} GatherLoop(e: Expr, els: seq<Value>, env: Env, accu: Value, bound: seq<string>, fn: Engine,
      t: real, k: real)
    requires e.Comprehension? && IsMacro(e) && Gathers(e) && accu.Scalar? && OnlyRecord(env) && Modest(fn) && t >= 6.0
    requires forall i :: 0 <= i < |els| ==> Load(els[i]) <= t
    requires k >= 100.0 * (1.0 + BodyBulk(e) as real / 10000.0)
    ensures var r := EvalLoop(e, els, env, accu, fn);
            && r.v.Scalar? && r.nodes <= |els| * BodyNodes(e)
            && r.text as real <= Times(Demand(els), Times(BodyCost(e, bound) as real, k))
    decreases |els|
  {
    hide Times, BodyCost;
    var u := Times(BodyCost(e, bound) as real, k);
    TimesPositive(BodyCost(e, bound) as real, k);
    PaysNothing(els, u);
    if els != [] {
      OneMorePays(els, u);
      PaysNothing(els[1..], u);
      GatherTurn(e, els[0], env, accu, bound, fn, t, k);
      var inner := Turn(e, env, accu, els[0]);
      var c := Eval(e.loopCondition, inner, fn);
      if c.v != Scalar(false) {
        GatherLoop(e, els[1..], env, Eval(e.loopStep, inner, fn).v, bound, fn, t, k);
      }
      NodesAddUp(|els|, BodyNodes(e));
    }
  }

  lemma NodesAddUp(n: nat, b: nat)
    requires n > 0
    ensures n * b == b + (n - 1) * b && n * b >= b
  {
  }

  lemma GatherTurn(e: Expr, el: Value, env: Env, accu: Value, bound: seq<string>, fn: Engine, t: real, k: real)
    requires e.Comprehension? && IsMacro(e) && Gathers(e) && accu.Scalar? && OnlyRecord(env) && Modest(fn) && t >= 6.0
    requires Load(el) <= t && k >= 100.0 * (1.0 + BodyBulk(e) as real / 10000.0)
    ensures var inner := Turn(e, env, accu, el);
            var c, s := Eval(e.loopCondition, inner, fn), Eval(e.loopStep, inner, fn);
            && s.v.Scalar? && c.nodes + s.nodes <= BodyNodes(e)
            && (c.text + s.text) as real <= Times(Pays(el), Times(BodyCost(e, bound) as real, k))
  {
    hide Times;
    var inner := Turn(e, env, accu, el);
    StepIsScalar(e, inner, fn);
    PartHolds(e, e.loopCondition, env, accu, el, bound, fn, t, k);
    PartHolds(e, e.loopStep, env, accu, el, bound, fn, t, k);
    TwoTexts(Eval(e.loopCondition, inner, fn).text as real, Eval(e.loopStep, inner, fn).text as real,
             Cost(e.loopCondition, 1, Scope(e, bound)) as real, Cost(e.loopStep, 1, Scope(e, bound)) as real, k,
                 Pays(el));
  }

  // ---- A loop that builds -----------------------------------------------------------------------------------------

  /** The value a building loop appends. */
  function Element(e: Expr): Expr
    requires e.Comprehension? && Builds(e)
  {
    if IsAppend(e.loopStep, e.accuVar) then e.loopStep.args[1].elements[0] else e.loopStep.args[1].args[1].elements[0]
  }

  lemma {:induction false} EachIsLoopFree(es: seq<Expr>, i: nat)
    requires AllLoopFree(es) && i < |es|
    ensures LoopFree(es[i])
  {
    if i > 0 {
      EachIsLoopFree(es[1..], i - 1);
    }
  }

  lemma AppendsLoopFree(x: Expr, accu: string)
    requires IsAppend(x, accu) && LoopFree(x)
    ensures LoopFree(x.args[1].elements[0])
  {
    EachIsLoopFree(x.args, 1);
    EachIsLoopFree(x.args[1].elements, 0);
  }

  lemma StepIsLoopFree(e: Expr)
    requires e.Comprehension? && IsMacro(e) && Builds(e)
    ensures LoopFree(Element(e)) && (!IsAppend(e.loopStep, e.accuVar) ==> LoopFree(e.loopStep.args[0]))
  {
    if IsAppend(e.loopStep, e.accuVar) {
      AppendsLoopFree(e.loopStep, e.accuVar);
    } else {
      EachIsLoopFree(e.loopStep.args, 0);
      EachIsLoopFree(e.loopStep.args, 1);
      AppendsLoopFree(e.loopStep.args[1], e.accuVar);
    }
  }

  lemma OneEvaluated(es: seq<Expr>, env: Env, fn: Engine)
    requires |es| == 1
    ensures EvalAll(es, env, fn) == var r := Eval(es[0], env, fn); Runs([r.v], r.nodes, r.text)
  {
    assert es[1..] == [];
    assert EvalAll(es[1..], env, fn) == Runs([], 0, 0);
  }

  lemma TwoEvaluated(es: seq<Expr>, env: Env, fn: Engine)
    requires |es| == 2
    ensures EvalAll(es, env, fn) == var p, q := Eval(es[0], env, fn), Eval(es[1], env, fn);
                                    Runs([p.v, q.v], p.nodes + q.nodes, p.text + q.text)
  {
    OneEvaluated(es[1..], env, fn);
  }

  /** Evaluating an append: the element, and three nodes of its own. */
  lemma AppendRuns(x: Expr, accu: string, inner: Env, fn: Engine)
    requires IsAppend(x, accu) && accu in inner && inner[accu].Items?
    ensures var el := Eval(x.args[1].elements[0], inner, fn);
            Eval(x, inner, fn) == Run(Items(inner[accu].vs + [el.v]), el.nodes + 3, el.text)
  {
    var el := Eval(x.args[1].elements[0], inner, fn);
    OneEvaluated(x.args[1].elements, inner, fn);
    assert Eval(x.args[1], inner, fn) == Run(Items([el.v]), el.nodes + 1, el.text);
    TwoEvaluated(x.args, inner, fn);
    assert Eval(x.args[0], inner, fn) == Run(inner[accu], 1, 0);
    var ops := [inner[accu], Items([el.v])];
    assert [] + ops == ops;
    assert Scanned("_+_", ops) == 0;
    assert EvalTarget(x.target, inner, fn) == Runs([], 0, 0);
  }

  lemma OneArg(es: seq<Expr>, bound: seq<string>)
    requires |es| == 1
    ensures AllNodes(es) == Nodes(es[0]) && AllChars(es) == Chars(es[0])
    ensures Costs(es, 1, bound) == Cost(es[0], 1, bound) && Sizes(es, bound) == Size(es[0], bound)
  {
    assert es[1..] == [];
    assert AllNodes(es[1..]) == 0 && AllChars(es[1..]) == 0 && Costs(es[1..], 1, bound) == 0
        && Sizes(es[1..], bound) == 0;
  }

  lemma TwoArgs(es: seq<Expr>, bound: seq<string>)
    requires |es| == 2
    ensures AllNodes(es) == Nodes(es[0]) + Nodes(es[1]) && AllChars(es) == Chars(es[0]) + Chars(es[1])
    ensures Costs(es, 1, bound) == Cost(es[0], 1, bound) + Cost(es[1], 1, bound)
    ensures Sizes(es, bound) == Size(es[0], bound) + Size(es[1], bound)
  {
    OneArg(es[1..], bound);
  }

  lemma AppendPriced(x: Expr, accu: string, bound: seq<string>)
    requires IsAppend(x, accu) && accu in bound
    ensures var el := x.args[1].elements[0];
            && Nodes(x) == Nodes(el) + 3 && Chars(x) == Chars(el) && Cost(x, 1, bound) >= Cost(el, 1, bound)
            && Size(x, bound) == 1 + Size(el, bound)
  {
    OneArg(x.args[1].elements, bound);
    TwoArgs(x.args, bound);
    var el := x.args[1].elements[0];
    assert Nodes(x.args[1]) == 1 + Nodes(el) && Chars(x.args[1]) == Chars(el)
        && Size(x.args[1], bound) == Size(el, bound);
    assert Cost(x.args[1], 1, bound) == 1 + Cost(el, 1, bound);
    assert Chars(x.args[0]) == 0 && Nodes(x.args[0]) == 1 && Size(x.args[0], bound) == 1;
    assert Cost(x, 1, bound) >= Costs(x.args, 1, bound);
    assert Size(x, bound) == Operands(x, bound);
  }

  /** The parts of a building step, as the analysis prices them. */
  lemma StepPriced(e: Expr, bound: seq<string>)
    requires e.Comprehension? && IsMacro(e) && Builds(e)
    ensures var el := Element(e);
            && Size(e.loopStep, Scope(e, bound)) == 1 + Size(el, Scope(e, bound))
            && Bulk(el) <= Bulk(e.loopStep)
  {
    var inner := Scope(e, bound);
    assert e.accuVar in Named(e.accuVar);
    if IsAppend(e.loopStep, e.accuVar) {
      AppendPriced(e.loopStep, e.accuVar, inner);
    } else {
      AppendPriced(e.loopStep.args[1], e.accuVar, inner);
      ThreeArgs(e.loopStep.args, inner);
      assert SizeAt(e.loopStep.args, 1, inner) == 1 + Size(Element(e), inner) && SizeAt(e.loopStep.args, 2, inner) == 1;
    }
  }

  ghost predicate Grew(from: Value, to: Value, room: real, y: real, t: real) {
    && from.Items? && to.Items?
    && |to.vs| <= |from.vs| + 1
    && TotalWeight(to.vs) <= TotalWeight(from.vs) + Times(room, y)
    && MostLoaded(to.vs) <= Top(MostLoaded(from.vs), Times(room, t))
  }

  lemma BuildTurn(e: Expr, el: Value, env: Env, accu: Value, bound: seq<string>, fn: Engine, t: real, k: real)
    requires e.Comprehension? && IsMacro(e) && Builds(e) && accu.Items? && OnlyRecord(env) && Modest(fn) && t >= 6.0
    requires Load(el) <= t && k >= 100.0 * (1.0 + BodyBulk(e) as real / 10000.0)
    ensures var inner := Turn(e, env, accu, el);
            var s := Eval(e.loopStep, inner, fn);
            && Grew(accu, s.v, Room(Element(e), Scope(e, bound)), Pays(el), t)
            && s.nodes <= Nodes(e.loopStep)
            && s.text as real <= Times(Cost(e.loopStep, 1, Scope(e, bound)) as real, Times(k, Pays(el)))
  {
    hide Times;
    var inner := Turn(e, env, accu, el);
    var scope := Scope(e, bound);
    var c := Times(k, Pays(el));
    WeightIsLoad(el);
    TimesPositive(k, Pays(el));
    StepPriced(e, bound);
    assert e.accuVar in Named(e.accuVar);
    var part := Element(e);
    StepIsLoopFree(e);
    PartHolds(e, part, env, accu, el, bound, fn, t, k);
    if IsAppend(e.loopStep, e.accuVar) {
      AppendRuns(e.loopStep, e.accuVar, inner, fn);
      AppendPriced(e.loopStep, e.accuVar, scope);
      Grow(Cost(part, 1, scope) as real, Cost(e.loopStep, 1, scope) as real, c);
      OneAppended(accu.vs, Eval(part, inner, fn).v, Room(part, scope), Pays(el), t);
    } else {
      AppendRuns(e.loopStep.args[1], e.accuVar, inner, fn);
      AppendPriced(e.loopStep.args[1], e.accuVar, scope);
      AppendIfTurn(e, el, env, accu, bound, fn, t, k);
    }
  }

  lemma OneAppended(vs: seq<Value>, v: Value, room: real, y: real, t: real)
    requires Weight(v) <= Times(room, y) && Load(v) <= Times(room, t)
    ensures Grew(Items(vs), Items(vs + [v]), room, y, t)
  {
    JoinMeasures(vs, [v]);
    WeightIsLoad(v);
    WeightsAreLoads(vs);
    assert [v][1..] == [];
  }

  lemma NoneAppended(vs: seq<Value>, room: real, y: real, t: real)
    requires room >= 0.0 && y >= 0.0
    ensures Grew(Items(vs), Items(vs), room, y, t)
  {
    TimesPositive(room, y);
  }

  /** Evaluating a guarded append: the test, then the append or the list as it was. */
  lemma AppendIfRuns(x: Expr, accu: string, inner: Env, fn: Engine)
    requires IsAppendIf(x, accu) && accu in inner && inner[accu].Items?
    ensures var t, el := Eval(x.args[0], inner, fn), Eval(x.args[1].args[1].elements[0], inner, fn);
            Eval(x, inner, fn) == if t.v == Scalar(true)
                                  then Run(Items(inner[accu].vs + [el.v]), t.nodes + el.nodes + 4, t.text + el.text)
                                  else Run(inner[accu], t.nodes + 2, t.text)
  {
    AppendRuns(x.args[1], accu, inner, fn);
    assert Eval(x.args[2], inner, fn) == Run(inner[accu], 1, 0);
  }

  lemma AppendIfPriced(x: Expr, accu: string, bound: seq<string>)
    requires IsAppendIf(x, accu) && accu in bound
    ensures var t, el := x.args[0], x.args[1].args[1].elements[0];
            && Nodes(x) >= Nodes(t) + Nodes(el) + 4 && Bulk(t) <= Bulk(x) && Bulk(el) <= Bulk(x)
            && Cost(x, 1, bound) >= Cost(t, 1, bound) + Cost(el, 1, bound)
  {
    AppendPriced(x.args[1], accu, bound);
    ThreeArgs(x.args, bound);
    assert Nodes(x.args[2]) == 1;
    assert Cost(x, 1, bound) >= Costs(x.args, 1, bound);
  }

  lemma AppendIfTurn(e: Expr, el: Value, env: Env, accu: Value, bound: seq<string>, fn: Engine, t: real, k: real)
    requires e.Comprehension? && IsMacro(e) && Builds(e) && accu.Items? && OnlyRecord(env) && Modest(fn) && t >= 6.0
    requires Load(el) <= t && k >= 100.0 * (1.0 + BodyBulk(e) as real / 10000.0) && !IsAppend(e.loopStep, e.accuVar)
    ensures var inner := Turn(e, env, accu, el);
            var s := Eval(e.loopStep, inner, fn);
            && Grew(accu, s.v, Room(Element(e), Scope(e, bound)), Pays(el), t)
            && s.nodes <= Nodes(e.loopStep)
            && s.text as real <= Times(Cost(e.loopStep, 1, Scope(e, bound)) as real, Times(k, Pays(el)))
  {
    var inner, scope := Turn(e, env, accu, el), Scope(e, bound);
    var step, c := e.loopStep, Times(k, Pays(el));
    var test, part := step.args[0], Element(e);
    assert e.accuVar in Named(e.accuVar);
    AppendIfRuns(step, e.accuVar, inner, fn);
    AppendIfPriced(step, e.accuVar, scope);
    assert Bulk(step) <= BodyBulk(e);
    StepIsLoopFree(e);
    hide Times, IsAppend, IsAppendIf, Cost, Nodes, Eval, Room, Grew, Size, LoopFree, Mentions;
    WeightIsLoad(el);
    TimesPositive(k, Pays(el));
    PartHolds(e, test, env, accu, el, bound, fn, t, k);
    PartHolds(e, part, env, accu, el, bound, fn, t, k);
    OneAppended(accu.vs, Eval(part, inner, fn).v, Room(part, scope), Pays(el), t);
    NoneAppended(accu.vs, Room(part, scope), Pays(el), t);
    BothTexts(Eval(test, inner, fn).text, Eval(part, inner, fn).text,
              Cost(test, 1, scope), Cost(part, 1, scope), Cost(step, 1, scope), c);
  }

  lemma BothTexts(a: nat, b: nat, p: nat, q: nat, all: nat, c: real)
    requires a as real <= Times(p as real, c) && b as real <= Times(q as real, c) && p + q <= all && c >= 0.0
    ensures (a + b) as real <= Times(all as real, c)
  {
    hide Times;
    Spread(p as real, q as real, c);
    Grow((p + q) as real, all as real, c);
  }

  /** What a building loop makes of a list of elements, started from `accu`. */
  ghost predicate Built(accu: Value, v: Value, els: seq<Value>, room: real, t: real) {
    && accu.Items? && v.Items?
    && |v.vs| <= |accu.vs| + |els|
    && TotalWeight(v.vs) <= TotalWeight(accu.vs) + Times(Demand(els), room)
    && MostLoaded(v.vs) <= Top(MostLoaded(accu.vs), Times(room, t))
  }

  lemma {:induction false} BuildLoop(e: Expr, els: seq<Value>, env: Env, accu: Value, bound: seq<string>, fn: Engine,
      t: real, k: real)
    requires e.Comprehension? && IsMacro(e) && Builds(e) && accu.Items? && OnlyRecord(env) && Modest(fn) && t >= 6.0
    requires forall i :: 0 <= i < |els| ==> Load(els[i]) <= t
    requires k >= 100.0 * (1.0 + BodyBulk(e) as real / 10000.0)
    ensures var r := EvalLoop(e, els, env, accu, fn);
            && Built(accu, r.v, els, Room(Element(e), Scope(e, bound)), t)
            && r.nodes <= |els| * BodyNodes(e)
            && r.text as real <= Times(Demand(els), Times(BodyCost(e, bound) as real, k))
    decreases |els|
  {
    hide Times;
    var room := Room(Element(e), Scope(e, bound));
    var u := Times(BodyCost(e, bound) as real, k);
    TimesPositive(BodyCost(e, bound) as real, k);
    PaysNothing(els, u);
    PaysNothing(els, room);
    if els != [] {
      NodesAddUp(|els|, BodyNodes(e));
      OneMorePays(els, u);
      OneMorePays(els, room);
      PaysNothing(els[1..], u);
      BuildTurn(e, els[0], env, accu, bound, fn, t, k);
      var inner := Turn(e, env, accu, els[0]);
      var s := Eval(e.loopStep, inner, fn);
      WeightIsLoad(els[0]);
      TimesPositive(k, Pays(els[0]));
      Grow(0.0, Cost(e.loopCondition, 1, Scope(e, bound)) as real, Times(k, Pays(els[0])));
      TwoTexts(0.0, s.text as real, Cost(e.loopCondition, 1, Scope(e, bound)) as real,
               Cost(e.loopStep, 1, Scope(e, bound)) as real, k, Pays(els[0]));
      if Eval(e.loopCondition, inner, fn).v != Scalar(false) {
        BuildLoop(e, els[1..], env, s.v, bound, fn, t, k);
        Swap(room, Pays(els[0]));
      }
    }
  }

  lemma Swap(a: real, b: real)
    ensures Times(a, b) == Times(b, a)
  {
  }
}
