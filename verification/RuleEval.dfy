/**
 * A small evaluator for the rules' expressions that counts its work: the nodes it evaluates, one each time, and the
 * code points its scans read. Both sides of `&&` and `||` are evaluated, so the count is an upper bound for an engine
 * that stops early. What a function computes is the engine's (`fn`); what matters here is how much its result can hold.
 */
module RuleEval {

  import opened Maybe
  import opened RuleSyntax
  import opened RuleValue

  type Env = map<string, Value>
  type Engine = (string, seq<Value>) -> Value

  datatype Run = Run(v: Value, nodes: nat, text: nat)
  datatype Runs = Runs(vs: seq<Value>, nodes: nat, text: nat)

  /** The operators that answer a truth value. */
  const TRUTHS: set<string> :=
    {"_&&_", "_||_", "!_", "@not_strictly_false", "_==_", "_!=_", "_<_", "_<=_", "_>_", "_>=_", "@in"}

  function AsScalar(v: Value): Value { Scalar(v.Scalar? && v.truth) }

  function Field(v: Value, name: string): Value {
    if v.Table? && Text(name) in v.keys then ValueAt(v.keys, v.vals, Text(name)) else Scalar(false)
  }

  function ValueAt(keys: seq<Value>, vals: seq<Value>, key: Value): Value {
    if keys == [] || vals == [] then Scalar(false)
    else if keys[0] == key then vals[0]
    else ValueAt(keys[1..], vals[1..], key)
  }

  function Apply(name: string, ops: seq<Value>, fn: Engine): Value {
    if name in SCANS || name in TRUTHS then AsScalar(fn(name, ops))
    else if name == "_+_" then
      if |ops| != 2 then Scalar(false)
      else if ops[0].Text? && ops[1].Text? then Text(ops[0].s + ops[1].s)
      else if ops[0].Items? && ops[1].Items? then Items(ops[0].vs + ops[1].vs)
      else AsScalar(fn(name, ops))
    else if name == "_[_]" then
      if |ops| != 2 then Scalar(false)
      else if ops[1].Text? then Field(ops[0], ops[1].s)
      else if Inside(fn(name, ops), ops[0]) then fn(name, ops)
      else Scalar(false)
    else if name == "_?_:_" then Scalar(false)
    else fn(name, ops)
  }

  function Scanned(name: string, ops: seq<Value>): nat {
    if name in SCANS && |ops| > 0 && ops[0].Text? then |ops[0].s| else 0
  }

  function Eval(e: Expr, env: Env, fn: Engine): Run
    decreases e, 1, 0
  {
    match e
    case Const(lit) => Run(if lit.Str? then Text(lit.s) else Scalar(lit.truth), 1, 0)
    case Ident(name) => Run(if name in env then env[name] else Scalar(false), 1, 0)
    case Select(operand, field, testOnly) =>
      var o := Eval(operand, env, fn);
      Run(if testOnly then Scalar(o.v.Table? && Text(field) in o.v.keys) else Field(o.v, field), o.nodes + 1, o.text)
    case Call(name, target, args) =>
      if name == "_?_:_" && target.None? && |args| == 3 then
        var c := Eval(args[0], env, fn);
        var b := if c.v == Scalar(true) then Eval(args[1], env, fn) else Eval(args[2], env, fn);
        Run(b.v, c.nodes + b.nodes + 1, c.text + b.text)
      else
        var t := EvalTarget(target, env, fn);
        var a := EvalAll(args, env, fn);
        var ops := t.vs + a.vs;
        Run(if name == "_[_]" && target.Some? then Scalar(false) else Apply(name, ops, fn),
            t.nodes + a.nodes + 1, t.text + a.text + Scanned(name, ops))
    case ListOf(elements) =>
      var r := EvalAll(elements, env, fn);
      Run(Items(r.vs), r.nodes + 1, r.text)
    case StructOf(keys, values) =>
      var k := EvalAll(keys, env, fn);
      var r := EvalAll(values, env, fn);
      Run(Table(k.vs, r.vs), k.nodes + r.nodes + 1, k.text + r.text)
    case Comprehension(_, _, accuVar, iterRange, accuInit, _, _, result) =>
      var range := Eval(iterRange, env, fn);
      var init := Eval(accuInit, env, fn);
      var loop := EvalLoop(e, Visited(range.v), env, init.v, fn);
      var out := Eval(result, env[accuVar := loop.v], fn);
      Run(out.v, range.nodes + init.nodes + loop.nodes + out.nodes + 1, range.text + init.text + loop.text + out.text)
    case Unknown => Run(Scalar(false), 1, 0)
  }

  function EvalTarget(target: Option<Expr>, env: Env, fn: Engine): Runs
    decreases target, 1, 0
  {
    if target.Some? then var t := Eval(target.value, env, fn); Runs([t.v], t.nodes, t.text) else Runs([], 0, 0)
  }

  function EvalAll(es: seq<Expr>, env: Env, fn: Engine): Runs
    decreases es, 1, 0
  {
    if es == [] then Runs([], 0, 0)
    else
      var first := Eval(es[0], env, fn);
      var rest := EvalAll(es[1..], env, fn);
      Runs([first.v] + rest.vs, first.nodes + rest.nodes, first.text + rest.text)
  }

  /** The loop of a comprehension over the elements left, from the accumulator it has reached. */
  function EvalLoop(e: Expr, els: seq<Value>, env: Env, accu: Value, fn: Engine): Run
    requires e.Comprehension?
    decreases e, 0, |els|
  {
    if els == [] then Run(accu, 0, 0)
    else
      var inner := env[e.accuVar := accu][e.iterVar := els[0]];
      var c := Eval(e.loopCondition, inner, fn);
      if c.v == Scalar(false) then Run(accu, c.nodes, c.text)
      else
        var s := Eval(e.loopStep, inner, fn);
        var rest := EvalLoop(e, els[1..], env, s.v, fn);
        Run(rest.v, c.nodes + s.nodes + rest.nodes, c.text + s.text + rest.text)
  }

  function TotalLoad(vs: seq<Value>): real {
    if vs == [] then 0.0 else Load(vs[0]) + TotalLoad(vs[1..])
  }

  /**
   * What the engine's functions return holds no more than their operands together, but for a conversion's hundred
   * characters.
   */
  ghost predicate Modest(fn: Engine) {
    forall name, ops ::
      Weight(fn(name, ops)) <= TotalWeight(ops) + 0.01 && Load(fn(name, ops)) <= TotalLoad(ops) + 0.01
  }
}
