/**
 * What the `+` of a rule copies. `analyse` charges a `+` the caps its operands can hold; here the caps they do hold are
 * counted, each time it is evaluated, and proved to be within a fixed number for each unit of the price. A building
 * macro's own `+` appends one element to what it has gathered, and counts as that element.
 */
module RuleCopies {

  import opened Maybe
  import opened RuleSyntax
  import opened RulePrice
  import opened RuleValue
  import opened RuleEval
  import opened RuleBody
  import opened RuleCaps
  import opened RuleLoop
  import opened RuleBudget

  /** The caps copied while `e` is evaluated. */
  function Copies(e: Expr, env: Env, fn: Engine): real
    decreases e, 1, 0
  {
    match e
    case Select(operand, _, _) => Copies(operand, env, fn)
    case Call(name, target, args) =>
      if name == "_?_:_" && target.None? && |args| == 3 then
        Copies(args[0], env, fn)
        + if Eval(args[0], env, fn).v == Scalar(true) then Copies(args[1], env, fn) else Copies(args[2], env, fn)
      else
        (if target.Some? then Copies(target.value, env, fn) else 0.0) + CopiesAll(args, env, fn)
        + (if name == "_+_" then TotalWeight(OperandsOf(e, env, fn)) else 0.0)
    case ListOf(elements) => CopiesAll(elements, env, fn)
    case StructOf(keys, values) => CopiesAll(keys, env, fn) + CopiesAll(values, env, fn)
    case Comprehension(_, _, accuVar, iterRange, accuInit, _, _, result) =>
      Copies(iterRange, env, fn) + Copies(accuInit, env, fn)
      + LoopCopies(e, Visited(Eval(iterRange, env, fn).v), env, Eval(accuInit, env, fn).v, fn)
      + Copies(result, env[accuVar := Gathered(e, env, fn).v], fn)
    case _ => 0.0
  }

  function CopiesAll(es: seq<Expr>, env: Env, fn: Engine): real
    decreases es, 1, 0
  {
    if es == [] then 0.0 else Copies(es[0], env, fn) + CopiesAll(es[1..], env, fn)
  }

  function LoopCopies(e: Expr, els: seq<Value>, env: Env, accu: Value, fn: Engine): real
    requires e.Comprehension?
    decreases e, 0, |els|
  {
    if els == [] then 0.0
    else
      var inner := Turn(e, env, accu, els[0]);
      Copies(e.loopCondition, inner, fn)
      + if Eval(e.loopCondition, inner, fn).v == Scalar(false) then 0.0
        else
          StepCopies(e.loopStep, e.accuVar, inner, fn)
          + LoopCopies(e, els[1..], env, Eval(e.loopStep, inner, fn).v, fn)
  }

  /** A building step copies the element it appends, and not the list it appends to. */
  function StepCopies(step: Expr, accu: string, inner: Env, fn: Engine): real
    decreases step, 2, 0
  {
    if IsAppend(step, accu) then
      Copies(step.args[1].elements[0], inner, fn) + Weight(Eval(step.args[1].elements[0], inner, fn).v) + 0.01
    else if IsAppendIf(step, accu) then
      Copies(step.args[0], inner, fn)
      + if Eval(step.args[0], inner, fn).v == Scalar(true) then StepCopies(step.args[1], accu, inner, fn) else 0.0
    else Copies(step, inner, fn)
  }

  // ---- A loop-free part -------------------------------------------------------------------------------------------

  /** The allowance covers a copy of anything `e` joins: a unit a cap, and what its literals add. */
  ghost predicate Enough(bulk: nat, y: real, d: real) { d >= Times(1.0 + bulk as real / 10000.0, y) }

  lemma EnoughLess(big: nat, small: nat, y: real, d: real)
    requires Enough(big, y, d) && small <= big && y >= 0.0
    ensures Enough(small, y, d) && d >= 0.0
  {
    Grow(1.0 + small as real / 10000.0, 1.0 + big as real / 10000.0, y);
    TimesPositive(1.0 + small as real / 10000.0, y);
  }

  lemma CallCopies(e: Expr, env: Env, fn: Engine)
    requires e.Call? && !(e.fn == "_?_:_" && e.target.None? && |e.args| == 3)
    ensures Copies(e, env, fn)
            == (if e.target.Some? then Copies(e.target.value, env, fn) else 0.0) + CopiesAll(e.args, env, fn)
                                  + (if e.fn == "_+_" then TotalWeight(OperandsOf(e, env, fn)) else 0.0)
  {
  }

  lemma CopyPriced(e: Expr, bound: seq<string>)
    requires e.Call?
    ensures Cost(e, 1, bound) >= OperandCost(e, bound) + (if e.fn == "_+_" then 1 + Operands(e, bound) else 0)
  {
  }

  /** What the operands of a loop-free call weigh. */
  lemma OperandsWeigh(e: Expr, env: Env, bound: seq<string>, fn: Engine, y: real, t: real)
    requires e.Call? && LoopFree(e) && Modest(fn) && y >= 2.0 && t >= 6.0 && Bounded(e, env, bound, y, t)
    ensures TotalWeight(OperandsOf(e, env, fn))
            <= Times(Operands(e, bound) as real + OperandBulk(e) as real / 10000.0, y)
    ensures OperandBulk(e) <= Bulk(e)
  {
    hide Times;
    var c := Times(100.0 * (1.0 + Bulk(e) as real / 10000.0), y);
    TimesPositive(100.0 * (1.0 + Bulk(e) as real / 10000.0), y);
    MentionedBelow(e, env, bound, y, t);
    AllowLess(Bulk(e), AllBulk(e.args), y, c);
    BodiesHold(e.args, env, bound, fn, y, t, c);
    if e.target.Some? {
      AllowLess(Bulk(e), Bulk(e.target.value), y, c);
      BodyHolds(e.target.value, env, bound, fn, y, t, c);
    }
    OperandTotals(e, env, bound, fn, y, t, c);
    assert OperandRoom(e, bound) == Operands(e, bound) as real + OperandBulk(e) as real / 10000.0;
  }

  /** A copy of operands priced at `ops` caps. */
  lemma CopyPaid(w: real, ops: nat, part: nat, bulk: nat, y: real, d: real)
    requires w <= Times(ops as real + part as real / 10000.0, y) && part <= bulk && y >= 0.0 && Enough(bulk, y, d)
    ensures w <= Times((1 + ops) as real, d)
  {
    hide Times;
    var n, b := (1 + ops) as real, bulk as real / 10000.0;
    RoomOfCopy(ops as real, part as real / 10000.0, b);
    Grow(ops as real + part as real / 10000.0, Times(n, 1.0 + b), y);
    Regroup(n, 1.0 + b, y);
    Swap(n, Times(1.0 + b, y));
    Swap(n, d);
    Grow(Times(1.0 + b, y), d, n);
  }

  lemma RoomOfCopy(ops: real, part: real, b: real)
    requires ops >= 0.0 && 0.0 <= part <= b
    ensures ops + part <= Times(1.0 + ops, 1.0 + b)
  {
    Share(b, 0.0, ops);
    assert (1.0 + ops) * (1.0 + b) == 1.0 + ops + b + b * ops;
  }

  lemma Regroup(a: real, b: real, y: real)
    ensures Times(Times(a, b), y) == Times(a, Times(b, y))
  {
  }

  /** Every loop-free expression, evaluated once, copies within its price. */
  lemma {:induction false} BodyCopies(e: Expr, env: Env, bound: seq<string>, fn: Engine, y: real, t: real, d: real)
    requires LoopFree(e) && Modest(fn) && y >= 2.0 && t >= 6.0 && Bounded(e, env, bound, y, t) && Enough(Bulk(e), y, d)
    ensures 0.0 <= Copies(e, env, fn) <= Times(Cost(e, 1, bound) as real, d)
    decreases e, 1
  {
    hide Times, Enough;
    EnoughLess(Bulk(e), 0, y, d);
    MentionedBelow(e, env, bound, y, t);
    match e
    case Select(operand, _, _) =>
      EnoughLess(Bulk(e), Bulk(operand), y, d);
      BodyCopies(operand, env, bound, fn, y, t, d);
      Grow(Cost(operand, 1, bound) as real, Cost(e, 1, bound) as real, d);
    case ListOf(elements) =>
      EnoughLess(Bulk(e), AllBulk(elements), y, d);
      BodiesCopy(elements, env, bound, fn, y, t, d);
      Grow(Costs(elements, 1, bound) as real, Cost(e, 1, bound) as real, d);
    case StructOf(keys, values) =>
      EnoughLess(Bulk(e), AllBulk(keys), y, d);
      EnoughLess(Bulk(e), AllBulk(values), y, d);
      BodiesCopy(keys, env, bound, fn, y, t, d);
      BodiesCopy(values, env, bound, fn, y, t, d);
      Spread(Costs(keys, 1, bound) as real, Costs(values, 1, bound) as real, d);
      Grow((Costs(keys, 1, bound) + Costs(values, 1, bound)) as real, Cost(e, 1, bound) as real, d);
    case Call(_, target, args) =>
      EnoughLess(Bulk(e), AllBulk(args), y, d);
      BodiesCopy(args, env, bound, fn, y, t, d);
      if target.Some? {
        EnoughLess(Bulk(e), Bulk(target.value), y, d);
        BodyCopies(target.value, env, bound, fn, y, t, d);
      }
      CallCopiesPaid(e, env, bound, fn, y, t, d);
    case _ => PricePays(e, bound, d);
  }

  lemma PricePays(e: Expr, bound: seq<string>, d: real)
    requires d >= 0.0
    ensures 0.0 <= Times(Cost(e, 1, bound) as real, d)
  {
    TimesPositive(Cost(e, 1, bound) as real, d);
  }

  lemma CallCopiesPaid(e: Expr, env: Env, bound: seq<string>, fn: Engine, y: real, t: real, d: real)
    requires e.Call? && LoopFree(e) && Modest(fn) && y >= 2.0 && t >= 6.0 && Bounded(e, env, bound, y, t)
    requires Enough(Bulk(e), y, d)
    requires e.target.Some?
            ==> 0.0 <= Copies(e.target.value, env, fn) <= Times(Cost(e.target.value, 1, bound) as real, d)
    requires 0.0 <= CopiesAll(e.args, env, fn) <= Times(Costs(e.args, 1, bound) as real, d)
    requires forall i ::
      0 <= i < |e.args| ==> 0.0 <= Copies(e.args[i], env, fn) <= Times(Cost(e.args[i], 1, bound) as real, d)
    ensures 0.0 <= Copies(e, env, fn) <= Times(Cost(e, 1, bound) as real, d)
  {
    hide *;
    EnoughLess(Bulk(e), Bulk(e), y, d);
    if e.fn == "_?_:_" && e.target.None? && |e.args| == 3 {
      ChoiceCopies(e, env, bound, fn, d);
    } else {
      CallCopies(e, env, fn);
      CopyPriced(e, bound);
      OperandCosts(e, bound, d);
      OperandsWeigh(e, env, bound, fn, y, t);
      NoLess(OperandsOf(e, env, fn));
      CopyPaid(TotalWeight(OperandsOf(e, env, fn)), Operands(e, bound), OperandBulk(e), Bulk(e), y, d);
      Spread(OperandCost(e, bound) as real, (1 + Operands(e, bound)) as real, d);
      if e.fn == "_+_" {
        Grow((OperandCost(e, bound) + (1 + Operands(e, bound))) as real, Cost(e, 1, bound) as real, d);
      } else {
        Grow(OperandCost(e, bound) as real, Cost(e, 1, bound) as real, d);
      }
    }
  }

  lemma NoLess(vs: seq<Value>)
    ensures 0.0 <= TotalWeight(vs)
  {
    WeightsAreLoads(vs);
  }

  lemma OperandCosts(e: Expr, bound: seq<string>, d: real)
    requires e.Call?
    ensures Times(OperandCost(e, bound) as real, d)
            == (if e.target.Some? then Times(Cost(e.target.value, 1, bound) as real, d) else 0.0)
                + Times(Costs(e.args, 1, bound) as real, d)
  {
    if e.target.Some? {
      Spread(Cost(e.target.value, 1, bound) as real, Costs(e.args, 1, bound) as real, d);
    }
  }

  lemma ChoiceCopies(e: Expr, env: Env, bound: seq<string>, fn: Engine, d: real)
    requires e.Call? && e.fn == "_?_:_" && e.target.None? && |e.args| == 3 && d >= 0.0
    requires forall i ::
      0 <= i < |e.args| ==> 0.0 <= Copies(e.args[i], env, fn) <= Times(Cost(e.args[i], 1, bound) as real, d)
    ensures 0.0 <= Copies(e, env, fn) <= Times(Cost(e, 1, bound) as real, d)
  {
    hide Times;
    ThreeArgs(e.args, bound);
    var chosen := Chosen(e, env, fn);
    Spread(Cost(e.args[0], 1, bound) as real, Cost(chosen, 1, bound) as real, d);
    Grow((Cost(e.args[0], 1, bound) + Cost(chosen, 1, bound)) as real, Cost(e, 1, bound) as real, d);
  }

  lemma {:induction false} BodiesCopy(es: seq<Expr>, env: Env, bound: seq<string>, fn: Engine, y: real, t: real,
      d: real)
    requires AllLoopFree(es) && Modest(fn) && y >= 2.0 && t >= 6.0 && AllBounded(es, env, bound, y, t)
    requires Enough(AllBulk(es), y, d)
    ensures 0.0 <= CopiesAll(es, env, fn) <= Times(Costs(es, 1, bound) as real, d)
    ensures forall i :: 0 <= i < |es| ==> 0.0 <= Copies(es[i], env, fn) <= Times(Cost(es[i], 1, bound) as real, d)
    decreases es, 0
  {
    hide Times, Enough;
    EnoughLess(AllBulk(es), 0, y, d);
    Grow(0.0, 0.0, d);
    if es != [] {
      var e, rest := es[0], es[1..];
      assert Bounded(e, env, bound, y, t) && AllBounded(rest, env, bound, y, t);
      EnoughLess(AllBulk(es), Bulk(e), y, d);
      EnoughLess(AllBulk(es), AllBulk(rest), y, d);
      BodyCopies(e, env, bound, fn, y, t, d);
      BodiesCopy(rest, env, bound, fn, y, t, d);
      Spread(Cost(e, 1, bound) as real, Costs(rest, 1, bound) as real, d);
      forall i | 0 <= i < |es| ensures 0.0 <= Copies(es[i], env, fn) <= Times(Cost(es[i], 1, bound) as real, d) {
        if i > 0 { assert es[i] == rest[i - 1]; }
      }
    }
  }

  // ---- Loops ------------------------------------------------------------------------------------------------------

  /** What a loop has gathered so far is what its kind gathers. */
  predicate Gathering(e: Expr, accu: Value)
    requires e.Comprehension?
  {
    (Gathers(e) && accu.Scalar?) || (Builds(e) && accu.Items?)
  }

  lemma GatheringStays(e: Expr, inner: Env, fn: Engine)
    requires e.Comprehension? && e.accuVar in inner && Gathering(e, inner[e.accuVar])
    ensures Gathering(e, Eval(e.loopStep, inner, fn).v)
  {
    if Gathers(e) && inner[e.accuVar].Scalar? {
      StepIsScalar(e, inner, fn);
    } else if IsAppend(e.loopStep, e.accuVar) {
      AppendRuns(e.loopStep, e.accuVar, inner, fn);
    } else {
      AppendIfRuns(e.loopStep, e.accuVar, inner, fn);
    }
  }

  /** A loop-free part of the body copies, for one element, within what the element pays. */
  lemma PartCopiesPaid(e: Expr, part: Expr, env: Env, accu: Value, el: Value, bound: seq<string>, fn: Engine, t: real,
      k: real)
    requires e.Comprehension? && IsMacro(e) && OnlyRecord(env) && Load(el) <= t && t >= 6.0 && Modest(fn)
    requires accu.Scalar? || !Mentions(part, e.accuVar)
    requires LoopFree(part) && k >= 1.0 + Bulk(part) as real / 10000.0
    ensures 0.0 <= Copies(part, Turn(e, env, accu, el), fn)
                <= Times(Cost(part, 1, Scope(e, bound)) as real, Times(k, Pays(el)))
  {
    hide Times;
    WeightIsLoad(el);
    TurnBounded(e, part, env, accu, el, bound, t);
    Grow(1.0 + Bulk(part) as real / 10000.0, k, Pays(el));
    BodyCopies(part, Turn(e, env, accu, el), Scope(e, bound), fn, Pays(el), t, Times(k, Pays(el)));
  }

  /** The price of an append, to the unit: the element, four nodes, and the copy. */
  lemma AppendPrice(x: Expr, accu: string, bound: seq<string>)
    requires IsAppend(x, accu) && accu in bound
    ensures var el := x.args[1].elements[0];
            && Cost(x, 1, bound) == Cost(el, 1, bound) + Size(el, bound) + 4 && Bulk(el) <= Bulk(x)
  {
    OneArg(x.args[1].elements, bound);
    TwoArgs(x.args, bound);
    AppendPriced(x, accu, bound);
    var el := x.args[1].elements[0];
    assert Cost(x.args[1], 1, bound) == 1 + Cost(el, 1, bound) && Cost(x.args[0], 1, bound) == 1;
    assert Operands(x, bound) == 1 + Size(el, bound);
  }

  lemma AppendCopiesPaid(e: Expr, step: Expr, env: Env, accu: Value, el: Value, bound: seq<string>, fn: Engine, t: real,
      k: real)
    requires e.Comprehension? && IsMacro(e) && OnlyRecord(env) && Load(el) <= t && t >= 6.0 && Modest(fn)
    requires IsAppend(step, e.accuVar) && LoopFree(step) && k >= 1.0 + Bulk(step) as real / 10000.0
    ensures 0.0 <= StepCopies(step, e.accuVar, Turn(e, env, accu, el), fn)
                <= Times(Cost(step, 1, Scope(e, bound)) as real, Times(k, Pays(el)))
  {
    hide Times;
    var part, inner, scope, y := step.args[1].elements[0], Turn(e, env, accu, el), Scope(e, bound), Pays(el);
    assert e.accuVar in Named(e.accuVar);
    AppendsLoopFree(step, e.accuVar);
    AppendPrice(step, e.accuVar, scope);
    PartCopiesPaid(e, part, env, accu, el, bound, fn, t, k);
    PartWeighs(e, part, env, accu, el, bound, fn, t);
    WeightIsLoad(Eval(part, inner, fn).v);
    WeightIsLoad(el);
    AppendedPaid(Weight(Eval(part, inner, fn).v), Size(part, scope), Bulk(part), k, y);
    Spread(Cost(part, 1, scope) as real, (Size(part, scope) + 4) as real, Times(k, y));
  }

  lemma PartWeighs(e: Expr, part: Expr, env: Env, accu: Value, el: Value, bound: seq<string>, fn: Engine, t: real)
    requires e.Comprehension? && IsMacro(e) && OnlyRecord(env) && Load(el) <= t && t >= 6.0 && Modest(fn)
    requires LoopFree(part) && !Mentions(part, e.accuVar)
    ensures Weight(Eval(part, Turn(e, env, accu, el), fn).v) <= Times(Room(part, Scope(e, bound)), Pays(el))
  {
    hide Times;
    PartHolds(e, part, env, accu, el, bound, fn, t, 100.0 * (1.0 + Bulk(part) as real / 10000.0));
  }

  lemma AppendedPaid(w: real, size: nat, part: nat, k: real, y: real)
    requires w <= Times(size as real + part as real / 10000.0, y) && k >= 1.0 + part as real / 10000.0 && y >= 2.0
    ensures w + 0.01 <= Times((size + 4) as real, Times(k, y))
  {
    hide Times;
    var b := part as real / 10000.0;
    RoomOfCopy(size as real, b, b);
    Grow(size as real + b, Times((1 + size) as real, 1.0 + b), y);
    Regroup((1 + size) as real, 1.0 + b, y);
    Grow(1.0 + b, k, y);
    Grow(1.0, 1.0 + b, y);
    Swap((1 + size) as real, Times(1.0 + b, y));
    Swap((1 + size) as real, Times(k, y));
    Grow(Times(1.0 + b, y), Times(k, y), (1 + size) as real);
    Spread((1 + size) as real, 3.0, Times(k, y));
    ThreeUnits(Times(k, y));
  }

  lemma ThreeUnits(x: real)
    ensures Times(3.0, x) == 3.0 * x
  {
  }

  /** One turn of a loop copies within what its element pays for the body's price. */
  lemma TurnCopiesPaid(e: Expr, el: Value, env: Env, accu: Value, bound: seq<string>, fn: Engine, t: real, k: real)
    requires e.Comprehension? && IsMacro(e) && Gathering(e, accu) && OnlyRecord(env) && Modest(fn) && t >= 6.0
    requires Load(el) <= t && k >= 1.0 + BodyBulk(e) as real / 10000.0
    ensures var inner := Turn(e, env, accu, el);
            && 0.0 <= Copies(e.loopCondition, inner, fn)
            && 0.0 <= StepCopies(e.loopStep, e.accuVar, inner, fn)
            && Copies(e.loopCondition, inner, fn) + StepCopies(e.loopStep, e.accuVar, inner, fn)
               <= Times(Pays(el), Times(BodyCost(e, bound) as real, k))
  {
    hide Times;
    var inner, scope, step := Turn(e, env, accu, el), Scope(e, bound), e.loopStep;
    WeightIsLoad(el);
    PartCopiesPaid(e, e.loopCondition, env, accu, el, bound, fn, t, k);
    if Gathers(e) && accu.Scalar? {
      GathersPlainly(e);
      PartCopiesPaid(e, step, env, accu, el, bound, fn, t, k);
    } else if IsAppend(step, e.accuVar) {
      AppendCopiesPaid(e, step, env, accu, el, bound, fn, t, k);
    } else {
      GuardedCopiesPaid(e, el, env, accu, bound, fn, t, k);
    }
    TwoTexts(Copies(e.loopCondition, inner, fn), StepCopies(step, e.accuVar, inner, fn),
             Cost(e.loopCondition, 1, scope) as real, Cost(step, 1, scope) as real, k, Pays(el));
  }

  lemma GathersPlainly(e: Expr)
    requires e.Comprehension? && Gathers(e)
    ensures !IsAppend(e.loopStep, e.accuVar) && !IsAppendIf(e.loopStep, e.accuVar)
  {
  }

  lemma GuardedCopiesPaid(e: Expr, el: Value, env: Env, accu: Value, bound: seq<string>, fn: Engine, t: real, k: real)
    requires e.Comprehension? && IsMacro(e) && Builds(e) && OnlyRecord(env) && Modest(fn) && t >= 6.0
    requires Load(el) <= t && k >= 1.0 + BodyBulk(e) as real / 10000.0 && !IsAppend(e.loopStep, e.accuVar)
    ensures 0.0 <= StepCopies(e.loopStep, e.accuVar, Turn(e, env, accu, el), fn)
                <= Times(Cost(e.loopStep, 1, Scope(e, bound)) as real, Times(k, Pays(el)))
  {
    hide Times;
    var step, scope, c := e.loopStep, Scope(e, bound), Times(k, Pays(el));
    var test, append := step.args[0], step.args[1];
    WeightIsLoad(el);
    TimesPositive(k, Pays(el));
    EachIsLoopFree(step.args, 0);
    EachIsLoopFree(step.args, 1);
    ThreeArgs(step.args, scope);
    assert Bulk(test) <= Bulk(step) <= BodyBulk(e) && Bulk(append) <= Bulk(step);
    PartCopiesPaid(e, test, env, accu, el, bound, fn, t, k);
    AppendCopiesPaid(e, append, env, accu, el, bound, fn, t, k);
    assert Cost(test, 1, scope) + Cost(append, 1, scope) <= Cost(step, 1, scope);
    Spread(Cost(test, 1, scope) as real, Cost(append, 1, scope) as real, c);
    Grow((Cost(test, 1, scope) + Cost(append, 1, scope)) as real, Cost(step, 1, scope) as real, c);
  }

  lemma {:induction false} LoopCopiesPaid(
    e: Expr, els: seq<Value>, env: Env, accu: Value, bound: seq<string>, fn: Engine, t: real, k: real)
    requires e.Comprehension? && IsMacro(e) && Gathering(e, accu) && OnlyRecord(env) && Modest(fn) && t >= 6.0
    requires forall i :: 0 <= i < |els| ==> Load(els[i]) <= t
    requires k >= 1.0 + BodyBulk(e) as real / 10000.0
    ensures 0.0 <= LoopCopies(e, els, env, accu, fn) <= Times(Demand(els), Times(BodyCost(e, bound) as real, k))
    decreases |els|
  {
    hide Times, BodyCost, Copies, StepCopies, Eval, Gathering;
    var u := Times(BodyCost(e, bound) as real, k);
    TimesPositive(BodyCost(e, bound) as real, k);
    PaysNothing(els, u);
    if els != [] {
      OneMorePays(els, u);
      PaysNothing(els[1..], u);
      TurnCopiesPaid(e, els[0], env, accu, bound, fn, t, k);
      var inner := Turn(e, env, accu, els[0]);
      assert inner[e.accuVar] == accu;
      GatheringStays(e, inner, fn);
      LoopCopiesPaid(e, els[1..], env, Eval(e.loopStep, inner, fn).v, bound, fn, t, k);
    }
  }

  // ---- The whole rule ---------------------------------------------------------------------------------------------

  lemma PaidInFull(bulk: nat)
    ensures Paid(bulk, 3.0 * Pow(bulk), 600.0 * Pow(bulk))
  {
  }

  lemma DueLess(big: nat, small: nat, d: real)
    requires d >= 6.0 * Pow(big) && small <= big
    ensures d >= 6.0 * Pow(small) && d >= 0.0
  {
    PowMonotone(small, big);
    PowGrows(small);
  }

  /** The copies of a loop over a range that fits are within what its body is charged. */
  lemma LoopCopiesPriced(e: Expr, env: Env, fn: Engine, p: real, q: real, b: seq<string>, d: real)
    requires e.Comprehension? && IsMacro(e) && OnlyRecord(env) && Modest(fn)
    requires Fits(e.iterRange, Eval(e.iterRange, env, fn), p, q, b) && d >= 6.0 * Pow(Bulk(e))
    ensures var range := Eval(e.iterRange, env, fn).v;
            0.0 <= LoopCopies(e, Visited(range), env, Eval(e.accuInit, env, fn).v, fn)
                <= Worth(Multiple(PerRun(e, b), BodyCost(e, b)), d)
  {
    hide *;
    var range, init := Eval(e.iterRange, env, fn).v, Eval(e.accuInit, env, fn).v;
    var t, k := Most(range), Pow(BodyBulk(e));
    BulkOfLoop(e);
    FitsOf(e.iterRange, Eval(e.iterRange, env, fn), p, q, b);
    RangeReach(range, Size(e.iterRange, b), Bulk(e.iterRange));
    EachWithin(range, t);
    StartsGathering(e, env, fn, b);
    PowGrows(BodyBulk(e));
    LoopCopiesPaid(e, Visited(range), env, init, b, fn, t, k);
    DueLess(Bulk(e), Bulk(e.iterRange) + BodyBulk(e), d);
    DemandPriced(Demand(Visited(range)), BodyCost(e, b), Size(e.iterRange, b), Bulk(e.iterRange), BodyBulk(e), d);
    PerRunIs(e, b);
  }

  lemma DemandPriced(demand: real, cost: nat, size: nat, bulk: nat, body: nat, d: real)
    requires 0.0 <= demand <= 600.0 * Grown(size, bulk) && d >= 6.0 * Pow(bulk + body)
    ensures Times(demand, Times(cost as real, Pow(body))) <= Worth(Multiple(LIST_CAP * Max(1, size), cost), d)
  {
    hide *;
    LoopTextPaid(demand, cost, size, bulk, body, 100.0 * d);
    Hundredfold(demand, cost as real, Pow(body), Multiple(LIST_CAP * Max(1, size), cost), d);
  }

  lemma EachWithin(range: Value, t: real)
    requires Load(range) <= t
    ensures forall i :: 0 <= i < |Visited(range)| ==> Load(Visited(range)[i]) <= t
  {
    forall i | 0 <= i < |Visited(range)| ensures Load(Visited(range)[i]) <= t {
      VisitedIsWithin(range, i);
    }
  }

  lemma StartsGathering(e: Expr, env: Env, fn: Engine, b: seq<string>)
    requires e.Comprehension? && IsMacro(e)
    ensures Gathering(e, Eval(e.accuInit, env, fn).v)
  {
    EndsRun(e, env, env[e.accuVar := Scalar(false)], fn, b);
  }

  lemma Hundredfold(demand: real, cost: real, k: real, n: nat, d: real)
    requires Times(demand, Times(cost, 100.0 * k)) <= Worth(n, 100.0 * d)
    ensures Times(demand, Times(cost, k)) <= Worth(n, d)
  {
    assert cost * (100.0 * k) == 100.0 * (cost * k);
    assert demand * (100.0 * (cost * k)) == 100.0 * (demand * (cost * k));
    assert n as real * (100.0 * d) == 100.0 * (n as real * d);
  }

  /** What starts a loop and what it answers copy nothing. */
  lemma EndsCopyNothing(e: Expr, env: Env, out: Env, fn: Engine)
    requires e.Comprehension? && IsMacro(e)
    ensures Copies(e.accuInit, env, fn) == 0.0 && Copies(e.result, out, fn) == 0.0
  {
    if Gathers(e) && IsCount(e) {
      var args := e.result.args;
      CallCopies(e.result, out, fn);
      assert args[1..][0] == args[1] && args[1..][1..] == [];
      assert CopiesAll(args[1..], out, fn) == Copies(args[1], out, fn) + CopiesAll(args[1..][1..], out, fn);
      assert CopiesAll(args, out, fn) == Copies(args[0], out, fn) + CopiesAll(args[1..], out, fn);
    }
  }

  /** What the operands of a call outside every loop weigh is within its price. */
  lemma JoinPriced(e: Expr, env: Env, fn: Engine, b: seq<string>, d: real)
    requires e.Call? && MacroRule(e) && OnlyRecord(env) && Modest(fn) && d >= 6.0 * Pow(Bulk(e))
    ensures 0.0 <= TotalWeight(OperandsOf(e, env, fn)) <= Worth(1 + Operands(e, b), d)
  {
    hide *;
    var p, q := 3.0 * Pow(Bulk(e)), 600.0 * Pow(Bulk(e));
    PaidInFull(Bulk(e));
    OperandsFitTheirPrice(e, env, fn, p, q, b);
    OperandLoads(e, env, fn, p, q, b);
    TotalsBoundMost(OperandsOf(e, env, fn));
    CapIsPriced(Operands(e, b), OperandBulk(e));
    PowMonotone(OperandBulk(e), Bulk(e));
    PowGrows(OperandBulk(e));
    JoinShare(TotalWeight(OperandsOf(e, env, fn)), Operands(e, b), OperandBulk(e), d);
  }

  lemma OperandsFitTheirPrice(e: Expr, env: Env, fn: Engine, p: real, q: real, b: seq<string>)
    requires e.Call? && MacroRule(e) && OnlyRecord(env) && Modest(fn) && Paid(Bulk(e), p, q)
    ensures OperandsFit(e, env, fn, p, q, b)
  {
    hide Fits, AllFit, Paid, Eval, EvalAll;
    PaidLess(Bulk(e), AllBulk(e.args), p, q);
    PartsFit(e.args, env, fn, p, q, b);
    if e.target.Some? {
      PaidLess(Bulk(e), Bulk(e.target.value), p, q);
      PartFits(e.target.value, env, fn, p, q, b);
    }
  }

  lemma JoinShare(w: real, ops: nat, bulk: nat, d: real)
    requires w <= 6.0 * Grown(ops, bulk) && d >= 6.0 * Pow(bulk) && Pow(bulk) >= 0.0
    ensures w <= Worth(1 + ops, d)
  {
    hide Pow;
    var m, g := Max(1, ops) as real, Pow(bulk);
    assert 6.0 * (m * g) == m * (6.0 * g);
    Share(m, 6.0 * g, d);
    Share(d, m, (1 + ops) as real);
  }

  /** What `d` caps a unit of price allow a part outside every loop's body. */
  ghost predicate CopiesFit(copies: real, price: nat, d: real) { 0.0 <= copies <= Worth(price, d) }

  lemma FitsMore(copies: real, small: nat, big: nat, d: real)
    requires CopiesFit(copies, small, d) && small <= big && d >= 0.0
    ensures CopiesFit(copies, big, d)
  {
    WorthGrows(small, big, d);
  }

  lemma FitsBoth(x: real, y: real, m: nat, n: nat, d: real)
    requires CopiesFit(x, m, d) && CopiesFit(y, n, d)
    ensures CopiesFit(x + y, m + n, d)
  {
    WorthAdds(m, n, d);
  }

  /** Every part outside a loop's body copies within its price. */
  lemma {:induction false} PartCopies(e: Expr, env: Env, fn: Engine, b: seq<string>, d: real)
    requires MacroRule(e) && OnlyRecord(env) && Modest(fn) && d >= 6.0 * Pow(Bulk(e))
    ensures CopiesFit(Copies(e, env, fn), Price(e, b), d)
    decreases e, 1
  {
    hide Pow, CopiesFit, Eval, EvalAll;
    DueLess(Bulk(e), Bulk(e), d);
    match e
    case Select(operand, _, _) =>
      DueLess(Bulk(e), Bulk(operand), d);
      PartCopies(operand, env, fn, b, d);
      FitsMore(Copies(operand, env, fn), Price(operand, b), Price(e, b), d);
    case ListOf(elements) =>
      DueLess(Bulk(e), AllBulk(elements), d);
      PartsCopy(elements, env, fn, b, d);
      FitsMore(CopiesAll(elements, env, fn), Prices(elements, b), Price(e, b), d);
    case StructOf(keys, values) =>
      DueLess(Bulk(e), AllBulk(keys), d);
      DueLess(Bulk(e), AllBulk(values), d);
      PartsCopy(keys, env, fn, b, d);
      PartsCopy(values, env, fn, b, d);
      FitsBoth(CopiesAll(keys, env, fn), CopiesAll(values, env, fn), Prices(keys, b), Prices(values, b), d);
      FitsMore(Copies(e, env, fn), Prices(keys, b) + Prices(values, b), Price(e, b), d);
    case Call(_, target, args) =>
      DueLess(Bulk(e), AllBulk(args), d);
      PartsCopy(args, env, fn, b, d);
      if target.Some? {
        DueLess(Bulk(e), Bulk(target.value), d);
        PartCopies(target.value, env, fn, b, d);
      }
      CallCopiesFit(e, env, fn, b, d);
    case Comprehension(_, _, _, iterRange, _, _, _, _) =>
      DueLess(Bulk(e), Bulk(iterRange), d);
      PartCopies(iterRange, env, fn, b, d);
      LoopCopiesFit(e, env, fn, b, d);
    case _ => NothingFits(Price(e, b), d);
  }

  lemma NothingFits(n: nat, d: real)
    requires d >= 0.0
    ensures CopiesFit(0.0, n, d)
  {
    WorthGrows(0, n, d);
  }

  lemma CallCopiesFit(e: Expr, env: Env, fn: Engine, b: seq<string>, d: real)
    requires e.Call? && MacroRule(e) && OnlyRecord(env) && Modest(fn) && d >= 6.0 * Pow(Bulk(e)) && d >= 0.0
    requires e.target.Some? ==> CopiesFit(Copies(e.target.value, env, fn), Price(e.target.value, b), d)
    requires CopiesFit(CopiesAll(e.args, env, fn), Prices(e.args, b), d)
    requires forall i :: 0 <= i < |e.args| ==> CopiesFit(Copies(e.args[i], env, fn), Price(e.args[i], b), d)
    ensures CopiesFit(Copies(e, env, fn), Price(e, b), d)
  {
    hide Pow, CopiesFit, Eval, EvalAll, Copies, CopiesAll, Cost, Costs, Size;
    if e.fn == "_?_:_" && e.target.None? && |e.args| == 3 {
      ChosenCopies(e, env, fn);
      var chosen := Chosen(e, env, fn);
      ChoiceSizes(e, chosen, b);
      FitsBoth(Copies(e.args[0], env, fn), Copies(chosen, env, fn), Price(e.args[0], b), Price(chosen, b), d);
      FitsMore(Copies(e, env, fn), Price(e.args[0], b) + Price(chosen, b), Price(e, b), d);
    } else {
      CallCopies(e, env, fn);
      CopyPriced(e, b);
      NothingFits(0, d);
      var target := if e.target.Some? then Copies(e.target.value, env, fn) else 0.0;
      var paid := if e.target.Some? then Price(e.target.value, b) else 0;
      FitsBoth(target, CopiesAll(e.args, env, fn), paid, Prices(e.args, b), d);
      if e.fn == "_+_" {
        JoinPriced(e, env, fn, b, d);
        JoinFits(TotalWeight(OperandsOf(e, env, fn)), 1 + Operands(e, b), d);
        FitsBoth(target + CopiesAll(e.args, env, fn), TotalWeight(OperandsOf(e, env, fn)), OperandCost(e, b),
            1 + Operands(e, b), d);
        FitsMore(Copies(e, env, fn), OperandCost(e, b) + (1 + Operands(e, b)), Price(e, b), d);
      } else {
        FitsMore(Copies(e, env, fn), OperandCost(e, b), Price(e, b), d);
      }
    }
  }

  lemma JoinFits(w: real, n: nat, d: real)
    requires 0.0 <= w <= Worth(n, d)
    ensures CopiesFit(w, n, d)
  {
  }

  lemma ChosenCopies(e: Expr, env: Env, fn: Engine)
    requires e.Call? && e.fn == "_?_:_" && e.target.None? && |e.args| == 3
    ensures Copies(e, env, fn) == Copies(e.args[0], env, fn) + Copies(Chosen(e, env, fn), env, fn)
  {
  }

  lemma LoopCopiesFit(e: Expr, env: Env, fn: Engine, b: seq<string>, d: real)
    requires e.Comprehension? && IsMacro(e) && MacroRule(e.iterRange) && OnlyRecord(env) && Modest(fn)
    requires d >= 6.0 * Pow(Bulk(e)) && d >= 0.0 && CopiesFit(Copies(e.iterRange, env, fn), Price(e.iterRange, b), d)
    ensures CopiesFit(Copies(e, env, fn), Price(e, b), d)
  {
    hide *;
    var p, q := 3.0 * Pow(Bulk(e)), 600.0 * Pow(Bulk(e));
    var gathered := Gathered(e, env, fn).v;
    var n := Multiple(PerRun(e, b), BodyCost(e, b));
    var loop := LoopCopies(e, Visited(Eval(e.iterRange, env, fn).v), env, Eval(e.accuInit, env, fn).v, fn);
    LoopCopiesAre(e, env, fn);
    BulkOfLoop(e);
    PaidInFull(Bulk(e));
    PaidLess(Bulk(e), Bulk(e.iterRange), p, q);
    PartFits(e.iterRange, env, fn, p, q, b);
    LoopCopiesPriced(e, env, fn, p, q, b, d);
    JoinFits(loop, n, d);
    EndsCopyNothing(e, env, env[e.accuVar := gathered], fn);
    FitsBoth(Copies(e.iterRange, env, fn), loop, Price(e.iterRange, b), n, d);
    LoopPrice(e, b);
    FitsMore(Copies(e, env, fn), Price(e.iterRange, b) + n, Price(e, b), d);
  }

  lemma LoopCopiesAre(e: Expr, env: Env, fn: Engine)
    requires e.Comprehension?
    ensures Copies(e, env, fn)
            == Copies(e.iterRange, env, fn) + Copies(e.accuInit, env, fn)
               + LoopCopies(e, Visited(Eval(e.iterRange, env, fn).v), env, Eval(e.accuInit, env, fn).v, fn)
               + Copies(e.result, env[e.accuVar := Gathered(e, env, fn).v], fn)
  {
    hide LoopCopies, Visited, Gathered, Eval;
  }

  lemma {:induction false} PartsCopy(es: seq<Expr>, env: Env, fn: Engine, b: seq<string>, d: real)
    requires AllMacroRules(es) && OnlyRecord(env) && Modest(fn) && d >= 6.0 * Pow(AllBulk(es))
    ensures CopiesFit(CopiesAll(es, env, fn), Prices(es, b), d)
    ensures forall i :: 0 <= i < |es| ==> CopiesFit(Copies(es[i], env, fn), Price(es[i], b), d)
    decreases es, 0
  {
    hide Pow, CopiesFit;
    DueLess(AllBulk(es), AllBulk(es), d);
    if es == [] {
      NothingFits(0, d);
    } else {
      var e, rest := es[0], es[1..];
      DueLess(AllBulk(es), Bulk(e), d);
      DueLess(AllBulk(es), AllBulk(rest), d);
      PartCopies(e, env, fn, b, d);
      PartsCopy(rest, env, fn, b, d);
      FitsBoth(Copies(e, env, fn), CopiesAll(rest, env, fn), Price(e, b), Prices(rest, b), d);
      forall i | 0 <= i < |es| ensures CopiesFit(Copies(es[i], env, fn), Price(es[i], b), d) {
        if i > 0 { assert es[i] == rest[i - 1]; }
      }
    }
  }

  lemma CopiesAreBounded(e: Expr, record: Value, fn: Engine, b: seq<string>)
    requires MacroRule(e) && Nodes(e) <= AST_NODE_LIMIT && Chars(e) <= MAX_RULE_LENGTH
    requires WithinCaps(record) && Modest(fn)
    ensures Copies(e, map["self" := record], fn) <= 60.0 * Cost(e, 1, b) as real
  {
    hide Pow, Eval, Cost, Copies;
    CapsBound(record);
    PowWithinLimits(Bulk(e));
    PartCopies(e, map["self" := record], fn, b, 60.0);
  }

  /**
   * The price bounds the work. A rule within the node and length limits, whose loops are macros' and stand outside one
   * another's bodies, run on any record within the input caps, evaluates at most 30 nodes, scans at most 6 000 code
   * points and copies at most 60 caps for each unit `analyse` charged (a hundred units buy a scan of ten thousand).
   */
  lemma PriceBoundsWork(e: Expr, record: Value, fn: Engine)
    requires MacroRule(e) && Nodes(e) <= AST_NODE_LIMIT && Chars(e) <= MAX_RULE_LENGTH
    requires WithinCaps(record) && Modest(fn)
    ensures var run, env := Eval(e, map["self" := record], fn), map["self" := record];
            && run.nodes <= 30 * Cost(e, 1, []) && run.text <= 6000 * Cost(e, 1, [])
            && Copies(e, env, fn) <= 60.0 * Cost(e, 1, []) as real
  {
    hide *;
    WorkIsBounded(e, record, fn, []);
    CopiesAreBounded(e, record, fn, []);
  }
}
