/**
 * Expressions without a loop: what their value can hold and what evaluating them once costs, when every variable they
 * read holds at most `y` (and loads at most `t`). A literal is free in `analyse`, so its characters and the nodes that
 * hold it are carried beside the size, in ten-thousandths of a cap (`Bulk`).
 */
module RuleBody {

  import opened Maybe
  import opened RuleSyntax
  import opened RulePrice
  import opened RuleValue
  import opened RuleEval

  predicate LoopFree(e: Expr)
    decreases e, 0
  {
    match e
    case Select(operand, _, _) => LoopFree(operand)
    case Call(_, target, args) => (target.Some? ==> LoopFree(target.value)) && AllLoopFree(args)
    case ListOf(elements) => AllLoopFree(elements)
    case StructOf(keys, values) => AllLoopFree(keys) && AllLoopFree(values)
    case Comprehension(_, _, _, _, _, _, _, _) => false
    case _ => true
  }

  predicate AllLoopFree(es: seq<Expr>)
    decreases es, 0
  {
    es == [] || (LoopFree(es[0]) && AllLoopFree(es[1..]))
  }

  /** `e`, which has no loop, mentions the variable `x`. */
  predicate Mentions(e: Expr, x: string)
    decreases e, 0
  {
    match e
    case Ident(name) => name == x
    case Select(operand, _, _) => Mentions(operand, x)
    case Call(_, target, args) => (target.Some? && Mentions(target.value, x)) || AnyMentions(args, x)
    case ListOf(elements) => AnyMentions(elements, x)
    case StructOf(keys, values) => AnyMentions(keys, x) || AnyMentions(values, x)
    case _ => false
  }

  predicate AnyMentions(es: seq<Expr>, x: string)
    decreases es, 0
  {
    es != [] && (Mentions(es[0], x) || AnyMentions(es[1..], x))
  }

  /** The characters of the string literals of `e`. */
  function Chars(e: Expr): nat
    decreases e, 0
  {
    match e
    case Const(lit) => if lit.Str? then |lit.s| else 0
    case Select(operand, _, _) => Chars(operand)
    case Call(_, target, args) => (if target.Some? then Chars(target.value) else 0) + AllChars(args)
    case ListOf(elements) => AllChars(elements)
    case StructOf(keys, values) => AllChars(keys) + AllChars(values)
    case Comprehension(_, _, _, iterRange, accuInit, loopCondition, loopStep, result) =>
      Chars(iterRange) + Chars(accuInit) + Chars(loopCondition) + Chars(loopStep) + Chars(result)
    case _ => 0
  }

  function AllChars(es: seq<Expr>): nat
    decreases es, 0
  {
    if es == [] then 0 else Chars(es[0]) + AllChars(es[1..])
  }

  /** What the literals of `e` can add, in ten-thousandths of a cap: a hundred a node, one a character. */
  function Bulk(e: Expr): nat { 100 * Nodes(e) + Chars(e) }
  function AllBulk(es: seq<Expr>): nat { 100 * AllNodes(es) + AllChars(es) }

  /** The size and the bulk together, in caps. */
  function Room(e: Expr, bound: seq<string>): real { Size(e, bound) as real + Bulk(e) as real / 10000.0 }
  function AllRoom(es: seq<Expr>, bound: seq<string>): real { Sizes(es, bound) as real + AllBulk(es) as real / 10000.0 }

  /** Every variable `e` mentions is one `analyse` charges a cap for, and holds at most `y` and loads at most `t`. */
  ghost predicate Bounded(e: Expr, env: Env, bound: seq<string>, y: real, t: real) {
    forall x :: x in env && Mentions(e, x) ==> Charged(x, bound) && Weight(env[x]) <= y && Load(env[x]) <= t
  }

  ghost predicate AllBounded(es: seq<Expr>, env: Env, bound: seq<string>, y: real, t: real) {
    forall x :: x in env && AnyMentions(es, x) ==> Charged(x, bound) && Weight(env[x]) <= y && Load(env[x]) <= t
  }

  predicate Charged(x: string, bound: seq<string>) { x in bound || x == "self" }

  /** What one evaluation of `e` comes to; `c` is the code points allowed per unit of its price. */
  ghost predicate Holds(e: Expr, run: Run, bound: seq<string>, y: real, t: real, c: real) {
    && Weight(run.v) <= Times(Room(e, bound), y)
    && Load(run.v) <= Times(Room(e, bound), t)
    && run.nodes <= Nodes(e)
    && run.text as real <= Times(Cost(e, 1, bound) as real, c)
  }

  ghost predicate AllHold(es: seq<Expr>, runs: Runs, bound: seq<string>, y: real, t: real, c: real) {
    && |runs.vs| == |es|
    && TotalWeight(runs.vs) <= Times(AllRoom(es, bound), y)
    && TotalLoad(runs.vs) <= Times(AllRoom(es, bound), t)
    && runs.nodes <= AllNodes(es)
    && runs.text as real <= Times(Costs(es, 1, bound) as real, c)
  }

  /** The allowance covers a scan of anything `e` builds: a hundred code points a unit, and what its literals add. */
  ghost predicate Allowed(bulk: nat, y: real, c: real) {
    c >= Times(100.0 * (1.0 + bulk as real / 10000.0), y)
  }

  /** Multiplication by name, so that a proof may keep it folded. */
  function Times(a: real, y: real): real { a * y }

  lemma Spread(a: real, b: real, y: real)
    ensures Times(a + b, y) == Times(a, y) + Times(b, y)
  {
  }

  lemma Grow(a: real, b: real, y: real)
    requires a <= b && y >= 0.0
    ensures Times(a, y) <= Times(b, y) && (a == 0.0 ==> Times(a, y) == 0.0) && (a == 1.0 ==> Times(a, y) == y)
  {
  }

  lemma AllowLess(big: nat, small: nat, y: real, c: real)
    requires Allowed(big, y, c) && small <= big && y >= 0.0
    ensures Allowed(small, y, c)
  {
    Grow(100.0 * (1.0 + small as real / 10000.0), 100.0 * (1.0 + big as real / 10000.0), y);
  }

  lemma {:induction false} TotalsBoundMost(vs: seq<Value>)
    ensures MostLoaded(vs) <= TotalLoad(vs) && 0.0 <= TotalWeight(vs) <= TotalLoad(vs)
  {
    if vs != [] {
      WeightIsLoad(vs[0]);
      TotalsBoundMost(vs[1..]);
    }
  }

  lemma {:induction false} NodesCount(es: seq<Expr>)
    ensures AllNodes(es) >= |es|
  {
    if es != [] {
      NodesCount(es[1..]);
    }
  }

  lemma {:induction false} FieldIsInside(keys: seq<Value>, vals: seq<Value>, key: Value)
    ensures var x := ValueAt(keys, vals, key); x.Scalar? || x in vals
  {
    if keys != [] && vals != [] && keys[0] != key {
      FieldIsInside(keys[1..], vals[1..], key);
      assert vals == [vals[0]] + vals[1..];
    }
  }

  // ---- Case by case -----------------------------------------------------------------------------------------------

  lemma RoomCovers(x: real, room: real, y: real)
    requires 0.0 <= x <= room && y >= 1.0
    ensures x <= Times(room, y)
  {
    Grow(1.0, y, room);
  }

  /** A list built of values that hold `room` caps together, where the room counts each of its nodes. */
  lemma MakesList(vs: seq<Value>, room: real, y: real, t: real)
    requires y >= 2.0 && t >= 6.0 && |vs| as real / 100.0 <= room
    requires TotalWeight(vs) <= Times(room, y) && TotalLoad(vs) <= Times(room, t)
    ensures ListWeight(vs) <= Times(room, y) && ListLoad(vs) <= Times(room, t)
  {
    WeightsAreLoads(vs);
    TotalsBoundMost(vs);
    RoomCovers(|vs| as real / 100.0, room, y);
    assert 6.0 * room <= Times(room, t) by { Grow(6.0, t, room); }
  }

  /** `self` or `self.properties` evaluated: what the record holds, whatever it is charged. */
  lemma SelfReads(e: Expr, env: Env, bound: seq<string>, fn: Engine, y: real, t: real)
    requires (IsSelf(e) || IsSelfProperties(e)) && Bounded(e, env, bound, y, t) && y >= 0.0 && t >= 0.0
    ensures Weight(Eval(e, env, fn).v) <= y && Load(Eval(e, env, fn).v) <= t
  {
    if IsSelfProperties(e) {
      assert Mentions(e, "self");
      FieldWithin(Eval(e.operand, env, fn).v, e.field);
    }
  }

  /** What an index answers is held inside what it indexes. */
  lemma IndexIsInside(ops: seq<Value>, fn: Engine)
    requires |ops| == 2
    ensures Inside(Apply("_[_]", ops, fn), ops[0])
  {
    if ops[0].Table? && ops[1].Text? {
      FieldIsInside(ops[0].keys, ops[0].vals, ops[1]);
    }
  }

  lemma FieldWithin(v: Value, name: string)
    ensures Weight(Field(v, name)) <= Weight(v) && Load(Field(v, name)) <= Load(v)
  {
    WeightIsLoad(v);
    if v.Table? {
      FieldIsInside(v.keys, v.vals, Text(name));
      InsideIsWithin(Field(v, name), v);
    }
  }

  /** A value no larger than another's bound, in a part with at least as much room. */
  lemma StaysWithin(w: real, l: real, small: real, room: real, y: real, t: real)
    requires w <= Times(small, y) && l <= Times(small, t) && small <= room && y >= 0.0 && t >= 0.0
    ensures w <= Times(room, y) && l <= Times(room, t)
  {
    Grow(small, room, y);
    Grow(small, room, t);
  }

  lemma SelectHolds(e: Expr, env: Env, bound: seq<string>, fn: Engine, y: real, t: real, c: real)
    requires e.Select? && y >= 2.0 && t >= 6.0 && c >= 0.0 && Bounded(e, env, bound, y, t)
    requires Holds(e.operand, Eval(e.operand, env, fn), bound, y, t, c)
    ensures Holds(e, Eval(e, env, fn), bound, y, t, c)
  {
    hide Times;
    var o := Eval(e.operand, env, fn);
    var v := Eval(e, env, fn).v;
    FieldWithin(o.v, e.field);
    WeightIsLoad(o.v);
    if IsSelf(e.operand) || IsSelfProperties(e.operand) {
      forall x | x in env && Mentions(e.operand, x)
        ensures Charged(x, bound) && Weight(env[x]) <= y && Load(env[x]) <= t
      {
        assert Mentions(e, x);
      }
      SelfReads(e.operand, env, bound, fn, y, t);
      assert Weight(v) <= y && Load(v) <= t;
      Grow(1.0, 1.0, y);
      Grow(1.0, 1.0, t);
      StaysWithin(Weight(v), Load(v), 1.0, Room(e, bound), y, t);
    } else {
      assert Weight(v) <= Weight(o.v) && Load(v) <= Load(o.v);
      StaysWithin(Weight(v), Load(v), Room(e.operand, bound), Room(e, bound), y, t);
    }
    Grow(Cost(e.operand, 1, bound) as real, Cost(e, 1, bound) as real, c);
  }

  lemma LeafHolds(e: Expr, env: Env, bound: seq<string>, fn: Engine, y: real, t: real, c: real)
    requires (e.Const? || e.Ident? || e.Unknown?) && y >= 2.0 && t >= 6.0 && c >= 0.0 && Bounded(e, env, bound, y, t)
    ensures Holds(e, Eval(e, env, fn), bound, y, t, c)
  {
    hide Times;
    var v := Eval(e, env, fn).v;
    if e.Ident? && e.name in env {
      assert Mentions(e, e.name);
      Grow(1.0, 1.0, y);
      Grow(1.0, 1.0, t);
      StaysWithin(Weight(v), Load(v), 1.0, Room(e, bound), y, t);
    } else {
      RoomCovers(Weight(v), Room(e, bound), y);
      RoomCovers(Load(v), Room(e, bound), t);
    }
    Grow(0.0, Cost(e, 1, bound) as real, c);
  }

  lemma ListHolds(e: Expr, env: Env, bound: seq<string>, fn: Engine, y: real, t: real, c: real)
    requires e.ListOf? && y >= 2.0 && t >= 6.0 && c >= 0.0
    requires AllHold(e.elements, EvalAll(e.elements, env, fn), bound, y, t, c)
    ensures Holds(e, Eval(e, env, fn), bound, y, t, c)
  {
    hide Times;
    var r := EvalAll(e.elements, env, fn);
    NodesCount(e.elements);
    var room := AllRoom(e.elements, bound);
    MakesList(r.vs, room, y, t);
    StaysWithin(ListWeight(r.vs), ListLoad(r.vs), room, Room(e, bound), y, t);
    Grow(Costs(e.elements, 1, bound) as real, Cost(e, 1, bound) as real, c);
  }

  lemma StructHolds(e: Expr, env: Env, bound: seq<string>, fn: Engine, y: real, t: real, c: real)
    requires e.StructOf? && y >= 2.0 && t >= 6.0 && c >= 0.0
    requires AllHold(e.keys, EvalAll(e.keys, env, fn), bound, y, t, c)
    requires AllHold(e.values, EvalAll(e.values, env, fn), bound, y, t, c)
    ensures Holds(e, Eval(e, env, fn), bound, y, t, c)
  {
    var k, r := EvalAll(e.keys, env, fn), EvalAll(e.values, env, fn);
    StructMeasures(e, env, bound, fn);
    hide Times, Weight, Load, Eval, EvalAll, Cost, Costs, Nodes, AllNodes, ListWeight, ListLoad, Heaviest, MostLoaded;
    NodesCount(e.keys);
    NodesCount(e.values);
    MakesList(k.vs, AllRoom(e.keys, bound), y, t);
    WeightsAreLoads(r.vs);
    TotalsBoundMost(r.vs);
    StaysWithin(ListWeight(k.vs), ListLoad(k.vs), AllRoom(e.keys, bound), Room(e, bound), y, t);
    StaysWithin(Heaviest(r.vs), MostLoaded(r.vs), AllRoom(e.values, bound), Room(e, bound), y, t);
    Spread(Costs(e.keys, 1, bound) as real, Costs(e.values, 1, bound) as real, c);
    Grow((Costs(e.keys, 1, bound) + Costs(e.values, 1, bound)) as real, Cost(e, 1, bound) as real, c);
  }

  lemma StructMeasures(e: Expr, env: Env, bound: seq<string>, fn: Engine)
    requires e.StructOf?
    ensures var k, r, run := EvalAll(e.keys, env, fn), EvalAll(e.values, env, fn), Eval(e, env, fn);
            && Weight(run.v) == Top(ListWeight(k.vs), Heaviest(r.vs))
            && Load(run.v) == Top(ListLoad(k.vs), MostLoaded(r.vs))
            && run.nodes == k.nodes + r.nodes + 1 && run.text == k.text + r.text
    ensures Nodes(e) == 1 + AllNodes(e.keys) + AllNodes(e.values)
    ensures Cost(e, 1, bound) == 1 + Costs(e.keys, 1, bound) + Costs(e.values, 1, bound)
  {
    hide ListWeight, ListLoad, Heaviest, MostLoaded;
  }

  lemma ThreeArgs(es: seq<Expr>, bound: seq<string>)
    requires |es| == 3
    ensures AllNodes(es) == Nodes(es[0]) + Nodes(es[1]) + Nodes(es[2])
    ensures AllChars(es) == Chars(es[0]) + Chars(es[1]) + Chars(es[2])
    ensures Costs(es, 1, bound) == Cost(es[0], 1, bound) + Cost(es[1], 1, bound) + Cost(es[2], 1, bound)
  {
    var two := es[1..];
    var one := two[1..];
    assert two[0] == es[1] && one[0] == es[2] && one[1..] == [];
    assert AllNodes(two) == Nodes(two[0]) + AllNodes(one) && AllNodes(one) == Nodes(one[0]) + AllNodes(one[1..]);
    assert AllChars(two) == Chars(two[0]) + AllChars(one) && AllChars(one) == Chars(one[0]) + AllChars(one[1..]);
    assert Costs(two, 1, bound) == Cost(two[0], 1, bound) + Costs(one, 1, bound);
    assert Costs(one, 1, bound) == Cost(one[0], 1, bound) + Costs(one[1..], 1, bound);
  }

  lemma ChoiceRoom(e: Expr, chosen: Expr, bound: seq<string>)
    requires e.Call? && e.fn == "_?_:_" && e.target.None? && |e.args| == 3
    requires (chosen == e.args[1] || chosen == e.args[2])
    ensures Room(chosen, bound) <= Room(e, bound)
  {
    ThreeArgs(e.args, bound);
    assert Size(chosen, bound) <= Size(e, bound);
    assert Bulk(chosen) <= Bulk(e);
  }

  /** The choice of `?:` holds no more than the larger branch. */
  lemma ChoiceHolds(e: Expr, env: Env, bound: seq<string>, fn: Engine, y: real, t: real, c: real)
    requires e.Call? && e.fn == "_?_:_" && e.target.None? && |e.args| == 3 && y >= 2.0 && t >= 6.0 && c >= 0.0
    requires forall i :: 0 <= i < 3 ==> Holds(e.args[i], Eval(e.args[i], env, fn), bound, y, t, c)
    ensures Holds(e, Eval(e, env, fn), bound, y, t, c)
  {
    hide Times;
    var a, b, d := e.args[0], e.args[1], e.args[2];
    ThreeArgs(e.args, bound);
    var chosen := if Eval(a, env, fn).v == Scalar(true) then b else d;
    var v := Eval(chosen, env, fn);
    assert Eval(e, env, fn).v == v.v;
    ChoiceRoom(e, chosen, bound);
    StaysWithin(Weight(v.v), Load(v.v), Room(chosen, bound), Room(e, bound), y, t);
    Spread(Cost(a, 1, bound) as real, Cost(chosen, 1, bound) as real, c);
    Grow((Cost(a, 1, bound) + Cost(chosen, 1, bound)) as real, Cost(e, 1, bound) as real, c);
  }

  /** Target and arguments together. */
  function OperandRoom(e: Expr, bound: seq<string>): real
    requires e.Call?
  {
    (if e.target.Some? then Room(e.target.value, bound) else 0.0) + AllRoom(e.args, bound)
  }

  function OperandCost(e: Expr, bound: seq<string>): nat
    requires e.Call?
  {
    (if e.target.Some? then Cost(e.target.value, 1, bound) else 0) + Costs(e.args, 1, bound)
  }

  function OperandsOf(e: Expr, env: Env, fn: Engine): seq<Value>
    requires e.Call?
  {
    EvalTarget(e.target, env, fn).vs + EvalAll(e.args, env, fn).vs
  }

  ghost predicate OperandsHold(e: Expr, env: Env, bound: seq<string>, fn: Engine, y: real, t: real, c: real)
    requires e.Call?
  {
    && (e.target.Some? ==> Holds(e.target.value, Eval(e.target.value, env, fn), bound, y, t, c))
    && AllHold(e.args, EvalAll(e.args, env, fn), bound, y, t, c)
    && (|e.args| > 0 ==> Holds(e.args[0], Eval(e.args[0], env, fn), bound, y, t, c))
  }

  /** The first operand, wherever it is written, and the room it has. */
  lemma FirstOperand(e: Expr, env: Env, bound: seq<string>, fn: Engine, y: real, t: real, c: real)
    requires e.Call? && OperandsHold(e, env, bound, fn, y, t, c)
    ensures |OperandsOf(e, env, fn)| > 0 <==> Subject(e).Some?
    ensures Subject(e).Some? ==>
              OperandsOf(e, env, fn)[0] == Eval(Subject(e).value, env, fn).v
              && Holds(Subject(e).value, Eval(Subject(e).value, env, fn), bound, y, t, c)
              && Bulk(Subject(e).value) <= Bulk(e)
  {
  }

  lemma {:induction false} JoinedTotals(a: seq<Value>, b: seq<Value>)
    ensures TotalWeight(a + b) == TotalWeight(a) + TotalWeight(b) && TotalLoad(a + b) == TotalLoad(a) + TotalLoad(b)
  {
    if a == [] {
      assert a + b == b;
    } else {
      assert (a + b)[1..] == a[1..] + b;
      JoinedTotals(a[1..], b);
    }
  }

  lemma OperandTotals(e: Expr, env: Env, bound: seq<string>, fn: Engine, y: real, t: real, c: real)
    requires e.Call? && OperandsHold(e, env, bound, fn, y, t, c)
    ensures var ops := OperandsOf(e, env, fn);
            TotalWeight(ops) <= Times(OperandRoom(e, bound), y) && TotalLoad(ops) <= Times(OperandRoom(e, bound), t)
    ensures EvalTarget(e.target, env, fn).text as real + EvalAll(e.args, env, fn).text as real
            <= Times(OperandCost(e, bound) as real, c)
    ensures EvalTarget(e.target, env, fn).nodes + EvalAll(e.args, env, fn).nodes + 1 <= Nodes(e)
  {
    hide Times, Cost, Costs, Eval, EvalAll, Weight, Load, Room, AllRoom, Size, Nodes;
    CallNodes(e);
    var tg, a := EvalTarget(e.target, env, fn), EvalAll(e.args, env, fn);
    JoinedTotals(tg.vs, a.vs);
    if e.target.Some? {
      assert tg.vs[1..] == [];
      Spread(Room(e.target.value, bound), AllRoom(e.args, bound), y);
      Spread(Room(e.target.value, bound), AllRoom(e.args, bound), t);
      Spread(Cost(e.target.value, 1, bound) as real, Costs(e.args, 1, bound) as real, c);
    } else {
      assert OperandRoom(e, bound) == AllRoom(e.args, bound);
    }
  }

  lemma CallNodes(e: Expr)
    requires e.Call?
    ensures Nodes(e) == 1 + (if e.target.Some? then Nodes(e.target.value) else 0) + AllNodes(e.args)
  {
  }

  lemma PairTotals(ops: seq<Value>)
    requires |ops| == 2
    ensures TotalWeight(ops) == Weight(ops[0]) + Weight(ops[1]) && TotalLoad(ops) == Load(ops[0]) + Load(ops[1])
  {
    var one := ops[1..];
    assert one[0] == ops[1] && one[1..] == [];
    assert TotalWeight(one) == Weight(one[0]) + TotalWeight(one[1..])
        && TotalLoad(one) == Load(one[0]) + TotalLoad(one[1..]);
  }

  lemma CallRoom(e: Expr, bound: seq<string>)
    requires e.Call? && e.fn != "_[_]" && e.fn != "_?_:_"
    ensures Room(e, bound) == OperandRoom(e, bound) + 0.01
  {
    assert Size(e, bound) == Operands(e, bound);
    assert Bulk(e) == 100 + (if e.target.Some? then Bulk(e.target.value) else 0) + AllBulk(e.args);
  }

  /** What a call answers: a scalar, its operands joined, one of their parts, or the engine's modest result. */
  lemma ApplyWithin(name: string, ops: seq<Value>, fn: Engine)
    requires Modest(fn) && name != "_[_]"
    ensures Weight(Apply(name, ops, fn)) <= TotalWeight(ops) + 0.01
    ensures Load(Apply(name, ops, fn)) <= TotalLoad(ops) + 0.01
  {
    TotalsBoundMost(ops);
    if name == "_+_" && |ops| == 2 {
      PairTotals(ops);
      WeightIsLoad(ops[0]);
      WeightIsLoad(ops[1]);
      if ops[0].Items? && ops[1].Items? {
        JoinedList(ops[0].vs, ops[1].vs);
      }
    }
  }

  lemma CallValue(e: Expr, env: Env, bound: seq<string>, fn: Engine, y: real, t: real, c: real)
    requires e.Call? && e.fn != "_[_]" && e.fn != "_?_:_" && y >= 2.0 && t >= 6.0 && c >= 0.0 && Modest(fn)
    requires OperandsHold(e, env, bound, fn, y, t, c)
    ensures Weight(Eval(e, env, fn).v) <= Times(Room(e, bound), y)
    ensures Load(Eval(e, env, fn).v) <= Times(Room(e, bound), t)
  {
    hide Times;
    var ops := OperandsOf(e, env, fn);
    ApplyWithin(e.fn, ops, fn);
    OperandTotals(e, env, bound, fn, y, t, c);
    var room := OperandRoom(e, bound);
    CallRoom(e, bound);
    Spread(room, 0.01, y);
    Spread(room, 0.01, t);
    RoomCovers(0.01, 0.01, y);
    RoomCovers(0.01, 0.01, t);
  }

  /** `?:` and an index outside their usual shape answer an error; an index answers a part of what it indexes. */
  lemma IndexValue(e: Expr, env: Env, bound: seq<string>, fn: Engine, y: real, t: real, c: real)
    requires e.Call? && (e.fn == "_[_]" || (e.fn == "_?_:_" && !(e.target.None? && |e.args| == 3)))
    requires y >= 2.0 && t >= 6.0 && c >= 0.0 && Bounded(e, env, bound, y, t)
    requires OperandsHold(e, env, bound, fn, y, t, c)
    ensures Weight(Eval(e, env, fn).v) <= Times(Room(e, bound), y)
    ensures Load(Eval(e, env, fn).v) <= Times(Room(e, bound), t)
  {
    hide Times;
    var v := Eval(e, env, fn).v;
    var ops := OperandsOf(e, env, fn);
    if v.Scalar? {
      RoomCovers(0.0, Room(e, bound), y);
      RoomCovers(0.0, Room(e, bound), t);
    } else {
      assert e.fn == "_[_]" && e.target.None? && ops == EvalAll(e.args, env, fn).vs && |ops| == 2;
      var first := e.args[0];
      assert ops[0] == Eval(first, env, fn).v;
      IndexIsInside(ops, fn);
      InsideIsWithin(v, ops[0]);
      if IsSelf(first) || IsSelfProperties(first) {
        forall x | x in env && Mentions(first, x)
          ensures Charged(x, bound) && Weight(env[x]) <= y && Load(env[x]) <= t
        {
          assert Mentions(e, x);
        }
        SelfReads(first, env, bound, fn, y, t);
        Grow(1.0, 1.0, y);
        Grow(1.0, 1.0, t);
        IndexedSelf(e, bound);
        StaysWithin(Weight(v), Load(v), 1.0, Room(e, bound), y, t);
      } else {
        assert Size(e, bound) == Size(first, bound) && Bulk(first) <= AllBulk(e.args) <= Bulk(e);
        StaysWithin(Weight(v), Load(v), Room(first, bound), Room(e, bound), y, t);
      }
    }
  }

  lemma SelfIsNoType()
    ensures "self" !in TYPE_IDENTS
  {
    assert "self"[0] == 's';
  }

  lemma IndexedSelf(e: Expr, bound: seq<string>)
    requires e.Call? && e.fn == "_[_]" && |e.args| == 2 && (IsSelf(e.args[0]) || IsSelfProperties(e.args[0]))
    ensures Room(e, bound) >= 1.0
  {
    SelfIsNoType();
    assert Size(e.args[0], bound) >= 1;
    assert SizeAt(e.args, 0, bound) == Size(e.args[0], bound);
    assert Size(e, bound) >= 1;
  }

  /** A scan reads its subject, and the price of the call covers that. */
  lemma ScanPaid(w: real, size: nat, sub: nat, bulk: nat, y: real, c: real)
    requires w <= Times(size as real + sub as real / 10000.0, y) && sub <= bulk && y >= 0.0 && Allowed(bulk, y, c)
    ensures 10000.0 * w <= Times((REGEX_WEIGHT * Max(1, size)) as real, c)
  {
    var m := Max(1, size) as real;
    var b := bulk as real / 10000.0;
    assert size as real + sub as real / 10000.0 <= (1.0 + b) * m by { assert b * m >= b * 1.0; }
    Grow(size as real + sub as real / 10000.0, (1.0 + b) * m, y);
    assert 10000.0 * Times((1.0 + b) * m, y) == 100.0 * m * Times(100.0 * (1.0 + b), y);
    Grow(Times(100.0 * (1.0 + b), y), c, 100.0 * m);
  }

  lemma CallHolds(e: Expr, env: Env, bound: seq<string>, fn: Engine, y: real, t: real, c: real)
    requires e.Call? && !(e.fn == "_?_:_" && e.target.None? && |e.args| == 3)
    requires y >= 2.0 && t >= 6.0 && Modest(fn) && Bounded(e, env, bound, y, t) && Allowed(Bulk(e), y, c) && c >= 0.0
    requires OperandsHold(e, env, bound, fn, y, t, c)
    ensures Holds(e, Eval(e, env, fn), bound, y, t, c)
  {
    hide *;
    if e.fn == "_[_]" || e.fn == "_?_:_" {
      IndexValue(e, env, bound, fn, y, t, c);
    } else {
      CallValue(e, env, bound, fn, y, t, c);
    }
    CallWork(e, env, bound, fn, y, t, c);
    HoldsIs(e, Eval(e, env, fn), bound, y, t, c);
  }

  lemma HoldsIs(e: Expr, run: Run, bound: seq<string>, y: real, t: real, c: real)
    requires Weight(run.v) <= Times(Room(e, bound), y) && Load(run.v) <= Times(Room(e, bound), t)
    requires run.nodes <= Nodes(e) && run.text as real <= Times(Cost(e, 1, bound) as real, c)
    ensures Holds(e, run, bound, y, t, c)
  {
  }

  lemma CallWork(e: Expr, env: Env, bound: seq<string>, fn: Engine, y: real, t: real, c: real)
    requires e.Call? && !(e.fn == "_?_:_" && e.target.None? && |e.args| == 3)
    requires y >= 0.0 && c >= 0.0 && Allowed(Bulk(e), y, c) && OperandsHold(e, env, bound, fn, y, t, c)
    ensures var run := Eval(e, env, fn);
            run.nodes <= Nodes(e) && run.text as real <= Times(Cost(e, 1, bound) as real, c)
  {
    hide *;
    CallRuns(e, env, fn);
    OperandTotals(e, env, bound, fn, y, t, c);
    ScanIsPaid(e, env, bound, fn, y, t, c);
    CallCost(e, bound);
    Spread(OperandCost(e, bound) as real, ScanPrice(e, bound) as real, c);
    Grow((OperandCost(e, bound) + ScanPrice(e, bound)) as real, Cost(e, 1, bound) as real, c);
  }

  lemma CallRuns(e: Expr, env: Env, fn: Engine)
    requires e.Call? && !(e.fn == "_?_:_" && e.target.None? && |e.args| == 3)
    ensures var tg, a, run := EvalTarget(e.target, env, fn), EvalAll(e.args, env, fn), Eval(e, env, fn);
            run.nodes == tg.nodes + a.nodes + 1 && run.text == tg.text + a.text + Scanned(e.fn, OperandsOf(e, env, fn))
  {
  }

  function ScanPrice(e: Expr, bound: seq<string>): nat
    requires e.Call?
  {
    if e.fn in SCANS then REGEX_WEIGHT * ScanSize(e, bound) else 0
  }

  lemma CallCost(e: Expr, bound: seq<string>)
    requires e.Call?
    ensures Cost(e, 1, bound) >= OperandCost(e, bound) + ScanPrice(e, bound)
  {
  }

  lemma ScanIsPaid(e: Expr, env: Env, bound: seq<string>, fn: Engine, y: real, t: real, c: real)
    requires e.Call? && y >= 0.0 && c >= 0.0 && Allowed(Bulk(e), y, c) && OperandsHold(e, env, bound, fn, y, t, c)
    ensures Scanned(e.fn, OperandsOf(e, env, fn)) as real <= Times(ScanPrice(e, bound) as real, c)
  {
    hide Times, AllHold;
    FirstOperand(e, env, bound, fn, y, t, c);
    Grow(0.0, ScanPrice(e, bound) as real, c);
    if Scanned(e.fn, OperandsOf(e, env, fn)) > 0 {
      var sub := Subject(e).value;
      ScanPaid(Weight(Eval(sub, env, fn).v), Size(sub, bound), Bulk(sub), Bulk(e), y, c);
    }
  }

  /** Every loop-free expression, evaluated once. */
  lemma {:induction false} BodyHolds(e: Expr, env: Env, bound: seq<string>, fn: Engine, y: real, t: real, c: real)
    requires LoopFree(e) && Modest(fn) && y >= 2.0 && t >= 6.0 && c >= 0.0
    requires Bounded(e, env, bound, y, t) && Allowed(Bulk(e), y, c)
    ensures Holds(e, Eval(e, env, fn), bound, y, t, c)
    decreases e, 1
  {
    hide Times;
    match e
    case Select(operand, _, _) =>
      MentionedBelow(e, env, bound, y, t);
      AllowLess(Bulk(e), Bulk(operand), y, c);
      BodyHolds(operand, env, bound, fn, y, t, c);
      SelectHolds(e, env, bound, fn, y, t, c);
    case ListOf(elements) =>
      MentionedBelow(e, env, bound, y, t);
      AllowLess(Bulk(e), AllBulk(elements), y, c);
      BodiesHold(elements, env, bound, fn, y, t, c);
      ListHolds(e, env, bound, fn, y, t, c);
    case StructOf(keys, values) =>
      MentionedBelow(e, env, bound, y, t);
      AllowLess(Bulk(e), AllBulk(keys), y, c);
      AllowLess(Bulk(e), AllBulk(values), y, c);
      BodiesHold(keys, env, bound, fn, y, t, c);
      BodiesHold(values, env, bound, fn, y, t, c);
      StructHolds(e, env, bound, fn, y, t, c);
    case Call(name, target, args) =>
      MentionedBelow(e, env, bound, y, t);
      AllowLess(Bulk(e), AllBulk(args), y, c);
      BodiesHold(args, env, bound, fn, y, t, c);
      if target.Some? {
        AllowLess(Bulk(e), Bulk(target.value), y, c);
        BodyHolds(target.value, env, bound, fn, y, t, c);
      }
      if name == "_?_:_" && target.None? && |args| == 3 {
        ChoiceHolds(e, env, bound, fn, y, t, c);
      } else {
        CallHolds(e, env, bound, fn, y, t, c);
      }
    case _ => LeafHolds(e, env, bound, fn, y, t, c);
  }

  lemma {:induction false} BodiesHold(es: seq<Expr>, env: Env, bound: seq<string>, fn: Engine, y: real, t: real,
      c: real)
    requires AllLoopFree(es) && Modest(fn) && y >= 2.0 && t >= 6.0 && c >= 0.0
    requires AllBounded(es, env, bound, y, t) && Allowed(AllBulk(es), y, c)
    ensures AllHold(es, EvalAll(es, env, fn), bound, y, t, c)
    ensures forall i :: 0 <= i < |es| ==> Holds(es[i], Eval(es[i], env, fn), bound, y, t, c)
    decreases es, 0
  {
    hide Times;
    Grow(0.0, 0.0, y);
    Grow(0.0, 0.0, t);
    Grow(0.0, 0.0, c);
    if es != [] {
      var e, rest := es[0], es[1..];
      assert Bounded(e, env, bound, y, t) && AllBounded(rest, env, bound, y, t);
      AllowLess(AllBulk(es), Bulk(e), y, c);
      AllowLess(AllBulk(es), AllBulk(rest), y, c);
      BodyHolds(e, env, bound, fn, y, t, c);
      BodiesHold(rest, env, bound, fn, y, t, c);
      JoinHolds(es, env, bound, fn, y, t, c);
      HoldEach(es, env, bound, fn, y, t, c);
    }
  }

  lemma JoinHolds(es: seq<Expr>, env: Env, bound: seq<string>, fn: Engine, y: real, t: real, c: real)
    requires es != [] && Holds(es[0], Eval(es[0], env, fn), bound, y, t, c)
    requires AllHold(es[1..], EvalAll(es[1..], env, fn), bound, y, t, c)
    ensures AllHold(es, EvalAll(es, env, fn), bound, y, t, c)
  {
    hide Times, Room, AllRoom, Weight, Load;
    var e, rest := es[0], es[1..];
    JoinRoom(es, bound);
    Spread(Room(e, bound), AllRoom(rest, bound), y);
    Spread(Room(e, bound), AllRoom(rest, bound), t);
    Spread(Cost(e, 1, bound) as real, Costs(rest, 1, bound) as real, c);
    var vs := EvalAll(es, env, fn).vs;
    assert vs[0] == Eval(e, env, fn).v && vs[1..] == EvalAll(rest, env, fn).vs;
    hide Room, AllRoom, Cost, Eval;
  }

  lemma JoinRoom(es: seq<Expr>, bound: seq<string>)
    requires es != []
    ensures AllRoom(es, bound) == Room(es[0], bound) + AllRoom(es[1..], bound)
  {
    assert AllBulk(es) == Bulk(es[0]) + AllBulk(es[1..]);
  }

  lemma HoldEach(es: seq<Expr>, env: Env, bound: seq<string>, fn: Engine, y: real, t: real, c: real)
    requires es != [] && Holds(es[0], Eval(es[0], env, fn), bound, y, t, c)
    requires forall i :: 0 <= i < |es[1..]| ==> Holds(es[1..][i], Eval(es[1..][i], env, fn), bound, y, t, c)
    ensures forall i :: 0 <= i < |es| ==> Holds(es[i], Eval(es[i], env, fn), bound, y, t, c)
  {
    hide *;
    forall i | 0 <= i < |es| ensures Holds(es[i], Eval(es[i], env, fn), bound, y, t, c) {
      if i > 0 { assert es[i] == es[1..][i - 1]; }
    }
  }

  /** What bounds the variables of an expression bounds them in each of its parts. */
  lemma MentionedBelow(e: Expr, env: Env, bound: seq<string>, y: real, t: real)
    requires Bounded(e, env, bound, y, t)
    ensures e.Select? ==> Bounded(e.operand, env, bound, y, t)
    ensures e.ListOf? ==> AllBounded(e.elements, env, bound, y, t)
    ensures e.StructOf? ==> AllBounded(e.keys, env, bound, y, t) && AllBounded(e.values, env, bound, y, t)
    ensures e.Call? ==>
            AllBounded(e.args, env, bound, y, t) && (e.target.Some? ==> Bounded(e.target.value, env, bound, y, t))
  {
    match e
    case Select(o, _, _) => assert forall x :: Mentions(o, x) ==> Mentions(e, x);
    case ListOf(es) => assert forall x :: AnyMentions(es, x) ==> Mentions(e, x);
    case StructOf(ks, vs) =>
      assert forall x :: AnyMentions(ks, x) ==> Mentions(e, x);
      assert forall x :: AnyMentions(vs, x) ==> Mentions(e, x);
    case Call(_, tg, args) =>
      assert forall x :: AnyMentions(args, x) ==> Mentions(e, x);
      if tg.Some? { assert forall x :: Mentions(tg.value, x) ==> Mentions(e, x); }
    case _ =>
  }
}
