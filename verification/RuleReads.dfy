/**
 * What the reads `analyse` finds are for (`schema/src/rules.ts`): they are all a rule's answer depends on. Two records
 * that agree on the fields, the properties and the tests an accepted rule is found to make get the same answer, by the
 * same work, from any two engines that agree on the functions a rule may call.
 */
module RuleReads {

  import opened Maybe
  import opened RuleSyntax
  import opened RuleValue
  import opened RuleEval
  import RuleBody
  import opened RuleLoop
  import opened RuleAnalysis
  import opened RuleKinds

  predicate Present(v: Value, name: string) { v.Table? && Text(name) in v.keys }

  /** Two records with the same fields, as two views of one kind have, that agree on what a rule reads. */
  ghost predicate AgreeOn(refs: Refs, a: Value, b: Value) {
    && (forall name :: Present(a, name) <==> Present(b, name))
    && (refs.whole ==> a == b)
    && (forall name :: name in refs.fields ==> Field(a, name) == Field(b, name))
    && (forall name :: name in refs.props ==>
          Field(Field(a, "properties"), name) == Field(Field(b, "properties"), name))
    && (forall name :: name in refs.presence ==>
          (Present(Field(a, "properties"), name) <==> Present(Field(b, "properties"), name)))
  }

  /** Two engines that compute the operators and the known functions alike. */
  ghost predicate SameEngine(f: Engine, g: Engine, funcs: set<string>) {
    forall name, ops :: name in PLANNER || name in funcs ==> f(name, ops) == g(name, ops)
  }

  /** Two records and two engines. */
  datatype Sides = Sides(a: Value, b: Value, f: Engine, g: Engine, funcs: set<string>)

  ghost predicate Agrees(ev: Event, s: Sides) {
    match ev
    case Wrong(_) => false
    case ReadsField(name, testOnly, consumed) =>
      !testOnly && !(name == "properties" && consumed) ==> Field(s.a, name) == Field(s.b, name)
    case ReadsProperty(name, testOnly) =>
      var p, q := Field(s.a, "properties"), Field(s.b, "properties");
      if testOnly then Present(p, name) <==> Present(q, name) else Field(p, name) == Field(q, name)
    case ReadsWhole => s.a == s.b
    case _ => true
  }

  ghost predicate AllAgree(evs: seq<Event>, s: Sides) { forall ev :: ev in evs ==> Agrees(ev, s) }

  ghost predicate Comparable(s: Sides) {
    SameEngine(s.f, s.g, s.funcs) && forall name :: Present(s.a, name) <==> Present(s.b, name)
  }

  /** The variables of the two sides: the loops' are the same, and `self` is each side's record. */
  ghost predicate Alike(env: Env, other: Env, bound: seq<string>, s: Sides) {
    && env.Keys == other.Keys
    && (forall x :: x in env ==> x in bound || x == "self")
    && (forall x :: x in env && x in bound ==> env[x] == other[x])
    && ("self" !in bound ==> "self" in env && env["self"] == s.a && other["self"] == s.b)
  }

  // ---- The reads of the record ------------------------------------------------------------------------------------

  /** `self.<name>`, read or tested for, or read by key. */
  lemma SelfSelected(e: Expr, env: Env, other: Env, bound: seq<string>, taken: bool, s: Sides)
    requires e.Select? && IsSelf(e.operand) && Alike(env, other, bound, s) && Comparable(s)
    requires Agrees(ReadsField(e.field, e.testOnly, taken), s) && !(e.field == "properties" && taken)
    ensures Eval(e, env, s.f) == Eval(e, other, s.g)
  {
    hide SameEngine;
    assert Present(s.a, e.field) <==> Present(s.b, e.field);
  }

  /** `self.properties`, on each side. */
  lemma PropertiesAre(e: Expr, env: Env, other: Env, bound: seq<string>, s: Sides)
    requires IsSelfProperties(e) && Alike(env, other, bound, s) && Comparable(s)
    ensures var l, r := Eval(e, env, s.f), Eval(e, other, s.g);
            && l.nodes == r.nodes && l.text == r.text
            && (l == r || (l.v == Field(s.a, "properties") && r.v == Field(s.b, "properties")))
  {
    hide SameEngine;
    assert Present(s.a, "properties") <==> Present(s.b, "properties");
  }

  lemma PropertySelected(e: Expr, env: Env, other: Env, bound: seq<string>, s: Sides)
    requires e.Select? && IsSelfProperties(e.operand) && Alike(env, other, bound, s) && Comparable(s)
    requires Agrees(ReadsProperty(e.field, e.testOnly), s)
    ensures Eval(e, env, s.f) == Eval(e, other, s.g)
  {
    PropertiesAre(e.operand, env, other, bound, s);
    hide Alike, Comparable;
  }

  lemma TwoEvaluated(es: seq<Expr>, env: Env, fn: Engine)
    requires |es| == 2
    ensures var x, y := Eval(es[0], env, fn), Eval(es[1], env, fn);
            EvalAll(es, env, fn) == Runs([x.v, y.v], x.nodes + y.nodes, x.text + y.text)
  {
    hide Eval;
    var rest := es[1..];
    assert rest[0] == es[1] && rest[1..] == [];
    assert EvalAll(rest[1..], env, fn) == Runs([], 0, 0);
  }

  /** A call that is no choice, evaluated. */
  lemma CallIs(e: Expr, env: Env, fn: Engine)
    requires e.Call? && e.fn != "_?_:_" && e.target.None?
    ensures var a := EvalAll(e.args, env, fn);
            Eval(e, env, fn) == Run(Apply(e.fn, a.vs, fn), a.nodes + 1, a.text + Scanned(e.fn, a.vs))
  {
    hide EvalAll, Apply, Scanned;
    var a := EvalAll(e.args, env, fn);
    assert [] + a.vs == a.vs;
  }

  /** A value and a written key, evaluated. */
  lemma ByKeyIs(e: Expr, env: Env, fn: Engine)
    requires (ReadsPropertyByKey(e) || ReadsFieldByKey(e)) && e.target.None?
    ensures var o := Eval(e.args[0], env, fn);
            Eval(e, env, fn) == Run(Field(o.v, e.args[1].lit.s), o.nodes + 2, o.text)
  {
    assert Eval(e.args[1], env, fn) == Run(Text(e.args[1].lit.s), 1, 0);
    CallIs(e, env, fn);
    TwoEvaluated(e.args, env, fn);
    IndexIs(Eval(e.args[0], env, fn).v, e.args[1].lit.s, fn);
    hide Eval, EvalAll, Apply, Field;
  }

  lemma IndexIs(v: Value, key: string, fn: Engine)
    ensures Apply("_[_]", [v, Text(key)], fn) == Field(v, key) && Scanned("_[_]", [v, Text(key)]) == 0
  {
    hide Field;
    assert "_[_]"[0] == '_';
  }

  lemma ByKeyAlike(e: Expr, env: Env, other: Env, bound: seq<string>, depth: nat, s: Sides)
    requires (ReadsPropertyByKey(e) || ReadsFieldByKey(e)) && Parsed(e)
    requires AllAgree(Walk(e, bound, depth, false, s.funcs), s) && Alike(env, other, bound, s) && Comparable(s)
    ensures Eval(e, env, s.f) == Eval(e, other, s.g)
  {
    var key := e.args[1].lit.s;
    ByKeyIs(e, env, s.f);
    ByKeyIs(e, other, s.g);
    if ReadsPropertyByKey(e) {
      assert ReadsProperty(key, false) in Walk(e, bound, depth, false, s.funcs);
      PropertiesAre(e.args[0], env, other, bound, s);
    } else {
      assert ReadsField(key, false, false) in Walk(e, bound, depth, false, s.funcs);
      assert Eval(e.args[0], env, s.f).nodes == Eval(e.args[0], other, s.g).nodes;
    }
  }

  // ---- The rest ---------------------------------------------------------------------------------------------------

  /** A known function or operator is computed alike. */
  lemma ApplyAlike(name: string, ops: seq<Value>, s: Sides)
    requires Comparable(s) && (name in PLANNER || name in s.funcs)
    ensures Apply(name, ops, s.f) == Apply(name, ops, s.g)
  {
    assert s.f(name, ops) == s.g(name, ops);
  }

  lemma UnknownIsMet(e: Expr, bound: seq<string>, depth: nat, funcs: set<string>)
    requires e.Call? && !ReadsPropertyByKey(e) && !ReadsFieldByKey(e) && e.fn !in PLANNER && e.fn !in funcs
    ensures Wrong(NotAFunction(e.fn)) in Walk(e, bound, depth, false, funcs)
  {
    assert Wrong(NotAFunction(e.fn)) in CallEvents(e, funcs);
    hide CallEvents;
  }

  lemma CallIsKnown(e: Expr, bound: seq<string>, depth: nat, s: Sides)
    requires e.Call? && !ReadsPropertyByKey(e) && !ReadsFieldByKey(e)
    requires AllAgree(Walk(e, bound, depth, false, s.funcs), s)
    ensures e.fn in PLANNER || e.fn in s.funcs
  {
    hide Walk;
    if e.fn !in PLANNER && e.fn !in s.funcs {
      UnknownIsMet(e, bound, depth, s.funcs);
    }
  }

  lemma OperandsAgree(e: Expr, bound: seq<string>, depth: nat, s: Sides)
    requires e.Call? && !ReadsPropertyByKey(e) && !ReadsFieldByKey(e)
    requires AllAgree(Walk(e, bound, depth, false, s.funcs), s)
    ensures e.target.Some? ==> AllAgree(Walk(e.target.value, bound, depth, false, s.funcs), s)
    ensures AllAgree(Walks(e.args, bound, depth, s.funcs), s)
  {
    hide CallEvents, Agrees;
  }

  lemma {:induction false} PartAlike(e: Expr, env: Env, other: Env, bound: seq<string>, depth: nat, s: Sides)
    requires Parsed(e) && AllMacros(e) && Alike(env, other, bound, s) && Comparable(s)
    requires AllAgree(Walk(e, bound, depth, false, s.funcs), s)
    ensures Eval(e, env, s.f) == Eval(e, other, s.g)
    decreases e, 2
  {
    hide Comparable, Apply, Agrees, Alike, Present;
    match e
    case Const(_) =>
    case Ident(_) => IdentAlike(e, env, other, bound, depth, s);
    case Select(_, _, _) => SelectAlike(e, env, other, bound, depth, s);
    case Call(_, _, _) => CallAlike(e, env, other, bound, depth, s);
    case ListOf(elements) => PartsAlike(elements, env, other, bound, depth, s);
    case StructOf(keys, values) =>
      EntriesAlike(e, 0, env, other, bound, depth, s);
      assert values[0..] == values && (keys != [] ==> keys[0..] == keys);
    case Comprehension(_, _, _, _, _, _, _, _) => LoopAlike(e, env, other, bound, depth, s);
    case Unknown =>
  }

  lemma {:induction false} SelectAlike(e: Expr, env: Env, other: Env, bound: seq<string>, depth: nat, s: Sides)
    requires e.Select? && Parsed(e) && AllMacros(e) && Alike(env, other, bound, s) && Comparable(s)
    requires AllAgree(Walk(e, bound, depth, false, s.funcs), s)
    ensures Eval(e, env, s.f) == Eval(e, other, s.g)
    decreases e, 1
  {
    hide Comparable, Agrees, Alike, Present;
    if IsSelf(e.operand) {
      assert ReadsField(e.field, e.testOnly, false) in Walk(e, bound, depth, false, s.funcs);
      SelfSelected(e, env, other, bound, false, s);
    } else if IsSelfProperties(e.operand) {
      assert ReadsProperty(e.field, e.testOnly) in Walk(e, bound, depth, false, s.funcs);
      PropertySelected(e, env, other, bound, s);
    } else {
      PartAlike(e.operand, env, other, bound, depth, s);
    }
  }

  lemma IdentAlike(e: Expr, env: Env, other: Env, bound: seq<string>, depth: nat, s: Sides)
    requires e.Ident? && Alike(env, other, bound, s) && AllAgree(Walk(e, bound, depth, false, s.funcs), s)
    ensures Eval(e, env, s.f) == Eval(e, other, s.g)
  {
    if e.name !in bound && e.name !in TYPE_IDENTS {
      if e.name == "self" {
        assert ReadsWhole in Walk(e, bound, depth, false, s.funcs);
      } else {
        assert Wrong(NotAVariable(e.name)) in Walk(e, bound, depth, false, s.funcs);
      }
    }
    RuleBody.SelfIsNoType();
  }

  lemma {:induction false} CallAlike(e: Expr, env: Env, other: Env, bound: seq<string>, depth: nat, s: Sides)
    requires e.Call? && Parsed(e) && AllMacros(e) && Alike(env, other, bound, s) && Comparable(s)
    requires AllAgree(Walk(e, bound, depth, false, s.funcs), s)
    ensures Eval(e, env, s.f) == Eval(e, other, s.g)
    decreases e, 1
  {
    hide Comparable, Apply, Agrees, Walk, Walks, AllAgree, Alike, Eval, EvalAll;
    if ReadsPropertyByKey(e) || ReadsFieldByKey(e) {
      ByKeyAlike(e, env, other, bound, depth, s);
    } else {
      CallIsKnown(e, bound, depth, s);
      OperandsAgree(e, bound, depth, s);
      if e.target.Some? {
        PartAlike(e.target.value, env, other, bound, depth, s);
      }
      PartsAlike(e.args, env, other, bound, depth, s);
      forall ops ensures Apply(e.fn, ops, s.f) == Apply(e.fn, ops, s.g) { ApplyAlike(e.fn, ops, s); }
      OperandsAlike(e, env, other, s);
    }
  }

  lemma OperandsAlike(e: Expr, env: Env, other: Env, s: Sides)
    requires e.Call? && forall ops :: Apply(e.fn, ops, s.f) == Apply(e.fn, ops, s.g)
    requires e.target.Some? ==> Eval(e.target.value, env, s.f) == Eval(e.target.value, other, s.g)
    requires EvalAll(e.args, env, s.f) == EvalAll(e.args, other, s.g)
    requires forall i :: 0 <= i < |e.args| ==> Eval(e.args[i], env, s.f) == Eval(e.args[i], other, s.g)
    ensures Eval(e, env, s.f) == Eval(e, other, s.g)
  {
    hide Apply, EvalAll, Scanned;
  }

  lemma {:induction false} PartsAlike(es: seq<Expr>, env: Env, other: Env, bound: seq<string>, depth: nat, s: Sides)
    requires AllParsed(es) && EachAllMacros(es) && Alike(env, other, bound, s) && Comparable(s)
    requires AllAgree(Walks(es, bound, depth, s.funcs), s)
    ensures EvalAll(es, env, s.f) == EvalAll(es, other, s.g)
    ensures forall i :: 0 <= i < |es| ==> Eval(es[i], env, s.f) == Eval(es[i], other, s.g)
    decreases es, 0
  {
    hide Comparable, Agrees, Alike, Eval, Walk;
    if es != [] {
      PartAlike(es[0], env, other, bound, depth, s);
      PartsAlike(es[1..], env, other, bound, depth, s);
      OneMoreAlike(es, env, other, s);
      forall i | 0 <= i < |es| ensures Eval(es[i], env, s.f) == Eval(es[i], other, s.g) {
        if i > 0 { assert es[i] == es[1..][i - 1]; }
      }
    }
  }

  lemma EntryAgrees(e: Expr, i: nat, bound: seq<string>, depth: nat, s: Sides)
    requires e.StructOf? && i < |e.values| && (e.keys == [] || |e.keys| == |e.values|)
    requires AllAgree(WalkEntries(e, i, bound, depth, s.funcs), s)
    ensures e.keys != [] ==> AllAgree(Walk(e.keys[i], bound, depth, false, s.funcs), s)
    ensures AllAgree(Walk(e.values[i], bound, depth, false, s.funcs), s)
    ensures AllAgree(WalkEntries(e, i + 1, bound, depth, s.funcs), s)
  {
    hide Walk, Agrees;
  }

  lemma {:induction false} EntriesAlike(e: Expr, i: nat, env: Env, other: Env, bound: seq<string>, depth: nat, s: Sides)
    requires e.StructOf? && Parsed(e) && i <= |e.values| && Alike(env, other, bound, s) && Comparable(s)
    requires EachAllMacros(KeysFrom(e, i)) && EachAllMacros(e.values[i..])
    requires AllAgree(WalkEntries(e, i, bound, depth, s.funcs), s)
    ensures EvalAll(KeysFrom(e, i), env, s.f) == EvalAll(KeysFrom(e, i), other, s.g)
    ensures EvalAll(e.values[i..], env, s.f) == EvalAll(e.values[i..], other, s.g)
    decreases e, 1, |e.values| - i
  {
    hide Comparable, Agrees, Alike, Walk, Eval, EvalAll, AllAgree, WalkEntries;
    NoneAlike(env, other, s);
    if i < |e.values| {
      StructIsParsed(e, i);
      EntryAgrees(e, i, bound, depth, s);
      assert e.values[i..][1..] == e.values[i + 1..];
      PartAlike(e.values[i], env, other, bound, depth, s);
      if e.keys != [] {
        assert e.keys[i..][1..] == e.keys[i + 1..];
        PartAlike(e.keys[i], env, other, bound, depth, s);
      }
      EntriesAlike(e, i + 1, env, other, bound, depth, s);
      OneMoreAlike(e.values[i..], env, other, s);
      if e.keys != [] {
        OneMoreAlike(e.keys[i..], env, other, s);
      }
    }
  }

  lemma NoneAlike(env: Env, other: Env, s: Sides)
    ensures EvalAll([], env, s.f) == EvalAll([], other, s.g)
  {
  }

  lemma OneMoreAlike(es: seq<Expr>, env: Env, other: Env, s: Sides)
    requires es != [] && Eval(es[0], env, s.f) == Eval(es[0], other, s.g)
    requires EvalAll(es[1..], env, s.f) == EvalAll(es[1..], other, s.g)
    ensures EvalAll(es, env, s.f) == EvalAll(es, other, s.g)
  {
    hide Eval;
  }

  lemma LoopAgrees(e: Expr, bound: seq<string>, depth: nat, s: Sides)
    requires e.Comprehension? && AllAgree(Walk(e, bound, depth, false, s.funcs), s)
    ensures AllAgree(Walk(e.iterRange, bound, depth, false, s.funcs), s)
    ensures AllAgree(Walk(e.accuInit, bound, depth, false, s.funcs), s)
    ensures var inner := bound + LoopVars(e);
            && AllAgree(Walk(e.loopCondition, inner, depth + 1, false, s.funcs), s)
            && AllAgree(Walk(e.loopStep, inner, depth + 1, false, s.funcs), s)
            && AllAgree(Walk(e.result, inner, depth, false, s.funcs), s)
  {
    LoopWalk(e, bound, depth, false, s.funcs);
    hide Walk, Agrees;
  }

  lemma {:induction false} LoopAlike(e: Expr, env: Env, other: Env, bound: seq<string>, depth: nat, s: Sides)
    requires e.Comprehension? && Parsed(e) && AllMacros(e) && Alike(env, other, bound, s) && Comparable(s)
    requires AllAgree(Walk(e, bound, depth, false, s.funcs), s)
    ensures Eval(e, env, s.f) == Eval(e, other, s.g)
    decreases e, 1
  {
    hide Comparable, Agrees, Walk, AllAgree, Alike, Apply;
    LoopAgrees(e, bound, depth, s);
    PartAlike(e.iterRange, env, other, bound, depth, s);
    PartAlike(e.accuInit, env, other, bound, depth, s);
    var els, init := Visited(Eval(e.iterRange, env, s.f).v), Eval(e.accuInit, env, s.f).v;
    TurnsAlike(e, els, init, env, other, bound, depth, s);
    ResultAlike(e, EvalLoop(e, els, env, init, s.f).v, env, other, bound, depth, s);
    hide Eval, EvalLoop, IsMacroShape;
    LoopIs(e, env, s.f);
    LoopIs(e, other, s.g);
  }

  lemma LoopIs(e: Expr, env: Env, fn: Engine)
    requires e.Comprehension?
    ensures var range, init := Eval(e.iterRange, env, fn), Eval(e.accuInit, env, fn);
            var loop := EvalLoop(e, Visited(range.v), env, init.v, fn);
            var out := Eval(e.result, env[e.accuVar := loop.v], fn);
            Eval(e, env, fn) == Run(out.v, range.nodes + init.nodes + loop.nodes + out.nodes + 1,
                                    range.text + init.text + loop.text + out.text)
  {
  }

  /** The loop's variables are the same on both sides. */
  lemma InnerAlike(e: Expr, accu: Value, el: Value, env: Env, other: Env, bound: seq<string>, s: Sides)
    requires e.Comprehension? && IsMacroShape(e) && Alike(env, other, bound, s)
    ensures Alike(env[e.accuVar := accu][e.iterVar := el], other[e.accuVar := accu][e.iterVar := el],
                  bound + LoopVars(e), s)
  {
    assert LoopVars(e) == [e.iterVar, e.accuVar];
    hide IsMacroShape, LoopVars;
  }

  lemma {:induction false} TurnsAlike(e: Expr, els: seq<Value>, accu: Value, env: Env, other: Env, bound: seq<string>,
                                      depth: nat, s: Sides)
    requires e.Comprehension? && Parsed(e) && AllMacros(e) && Alike(env, other, bound, s) && Comparable(s)
    requires var inner := bound + LoopVars(e);
             && AllAgree(Walk(e.loopCondition, inner, depth + 1, false, s.funcs), s)
             && AllAgree(Walk(e.loopStep, inner, depth + 1, false, s.funcs), s)
    ensures EvalLoop(e, els, env, accu, s.f) == EvalLoop(e, els, other, accu, s.g)
    decreases e, 0, |els|
  {
    hide Comparable, Agrees, Walk, AllAgree, Alike, Apply, Eval, IsMacroShape;
    if els != [] {
      var inner, outer := env[e.accuVar := accu][e.iterVar := els[0]], other[e.accuVar := accu][e.iterVar := els[0]];
      InnerAlike(e, accu, els[0], env, other, bound, s);
      PartAlike(e.loopCondition, inner, outer, bound + LoopVars(e), depth + 1, s);
      PartAlike(e.loopStep, inner, outer, bound + LoopVars(e), depth + 1, s);
      TurnsAlike(e, els[1..], Eval(e.loopStep, inner, s.f).v, env, other, bound, depth, s);
    }
  }

  /** A macro's result reads only what the loop has gathered. */
  lemma ResultAlike(e: Expr, v: Value, env: Env, other: Env, bound: seq<string>, depth: nat, s: Sides)
    requires e.Comprehension? && Parsed(e) && IsMacroShape(e) && Comparable(s)
    requires AllAgree(Walk(e.result, bound + LoopVars(e), depth, false, s.funcs), s)
    ensures Eval(e.result, env[e.accuVar := v], s.f) == Eval(e.result, other[e.accuVar := v], s.g)
  {
    if e.result != Ident(e.accuVar) {
      hide Walk, AllAgree, Comparable, Eval, Agrees;
      CallIsKnown(e.result, bound + LoopVars(e), depth, s);
      CountAlike(e.result, e.accuVar, env[e.accuVar := v], other[e.accuVar := v], s);
    }
  }

  lemma CountAlike(r: Expr, accu: string, env: Env, other: Env, s: Sides)
    requires r.Call? && r.fn == "_==_" && r.target.None? && |r.args| == 2 && r.args[0] == Ident(accu)
    requires r.args[1].Const?
    requires accu in env && accu in other && env[accu] == other[accu]
    requires Comparable(s) && (r.fn in PLANNER || r.fn in s.funcs)
    ensures Eval(r, env, s.f) == Eval(r, other, s.g)
  {
    assert Eval(r.args[1], env, s.f) == Eval(r.args[1], other, s.g);
    assert Eval(r.args[0], env, s.f) == Eval(r.args[0], other, s.g);
    hide Comparable, Apply, Eval, EvalAll, Scanned;
    forall ops ensures Apply(r.fn, ops, s.f) == Apply(r.fn, ops, s.g) { ApplyAlike(r.fn, ops, s); }
    TwoEvaluated(r.args, env, s.f);
    TwoEvaluated(r.args, other, s.g);
    CallIs(r, env, s.f);
    CallIs(r, other, s.g);
  }

  // ---- What the reads decide --------------------------------------------------------------------------------------

  lemma {:induction false} ReadsAgree(refs: Refs, evs: seq<Event>, s: Sides)
    requires AgreeOn(ReadAll(refs, evs), s.a, s.b) && forall i :: 0 <= i < |evs| ==> !evs[i].Wrong?
    ensures AllAgree(evs, s) && AgreeOn(refs, s.a, s.b)
    decreases |evs|
  {
    if evs != [] {
      var ev, rest := evs[0], evs[1..];
      assert forall x :: x in evs <==> x == ev || x in rest by { assert evs == [ev] + rest; }
      ReadsAgree(Read(refs, ev), rest, s);
    }
  }

  lemma AgreeIsComparable(refs: Refs, s: Sides)
    requires AgreeOn(refs, s.a, s.b) && SameEngine(s.f, s.g, s.funcs)
    ensures Comparable(s)
  {
    hide SameEngine;
  }

  /**
   * The reads the analysis finds decide an accepted rule's answer and its work: a record differs for the rule only in
   * what the rule is found to read.
   */
  lemma ReadsDecide(e: Expr, scope: Scope, funcs: set<string>, a: Value, b: Value, f: Engine, g: Engine)
    requires Parsed(e) && AllMacros(e) && scope.kinds != [] && Accepted(Analysed(e, scope, funcs))
    requires AgreeOn(Analysed(e, scope, funcs).refs, a, b) && SameEngine(f, g, funcs)
    ensures Eval(e, map["self" := a], f) == Eval(e, map["self" := b], g)
  {
    var s := Sides(a, b, f, g, funcs);
    var evs := Walk(e, [], 0, false, funcs);
    AnalysedIs(e, scope, funcs);
    hide Analysed, Walk, Eval, SameEngine, HasFields, AgreeOn, Parsed, AllMacros, Agrees;
    forall i | 0 <= i < |evs| ensures !evs[i].Wrong? {
      assert Clean(evs[i], scope);
    }
    ReadsAgree(Refs(false, {}, {}, {}), evs, s);
    AgreeIsComparable(Refs(false, {}, {}, {}), s);
    PartAlike(e, map["self" := a], map["self" := b], [], 0, s);
  }
}
