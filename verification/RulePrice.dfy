/**
 * What `analyse` counts and charges: the nodes of a rule, how much each part can hold in caps, and the price. The three
 * are stated as functions of the tree; `Visitor` is the source's own walk over its counters, proved to compute them.
 */
module RulePrice {

  import opened Maybe
  import opened RuleSyntax

  function Max(a: nat, b: nat): nat { if a >= b then a else b }

  /**
   * What one read of a top-level field can hold: the properties are as many caps as lists it takes to hold their
   * entries.
   */
  function ReadSize(name: string): nat {
    if name == "properties" then (MAP_CAP + LIST_CAP - 1) / LIST_CAP else 1
  }

  // ---- Size -----------------------------------------------------------------------------------------------------

  /** How much the value of `e` can hold, in caps; `bound` is the loop variables in scope. */
  function Size(e: Expr, bound: seq<string>): nat
    decreases e, 0
  {
    match e
    case Const(_) => 0
    case Ident(name) => if name in bound then 1 else if name in TYPE_IDENTS then 0 else if name == "self" then 1 else 0
    case Select(operand, field, _) =>
      if IsSelf(operand) then ReadSize(field)
      else if IsSelfProperties(operand) then 1
      else Size(operand, bound)
    case Call(fn, target, args) =>
      if ReadsPropertyByKey(e) then 1
      else if ReadsFieldByKey(e) then ReadSize(args[1].lit.s)
      else if fn == "_?_:_" then Max(SizeAt(args, 1, bound), SizeAt(args, 2, bound))
      else if fn == "_[_]" then SizeAt(args, 0, bound)
      else Operands(e, bound)
    case ListOf(elements) => Sizes(elements, bound)
    case StructOf(keys, values) => Sizes(keys, bound) + Sizes(values, bound)
    case Comprehension(_, _, _, iterRange, _, _, loopStep, _) =>
      Max(1, Size(iterRange, bound)) * Max(1, Size(loopStep, bound + LoopVars(e)))
    case Unknown => 0
  }

  function SizeAt(es: seq<Expr>, i: nat, bound: seq<string>): nat
    decreases es, 1
  {
    if i < |es| then Size(es[i], bound) else 0
  }

  function Sizes(es: seq<Expr>, bound: seq<string>): nat
    decreases es, 0
  {
    if es == [] then 0 else Size(es[0], bound) + Sizes(es[1..], bound)
  }

  /** The sizes of a call's target and arguments together. */
  function Operands(e: Expr, bound: seq<string>): nat
    requires e.Call?
    decreases e, -1
  {
    (if e.target.Some? then Size(e.target.value, bound) else 0) + Sizes(e.args, bound)
  }

  // ---- Nodes ----------------------------------------------------------------------------------------------------

  function Nodes(e: Expr): nat
    decreases e, 0
  {
    1 + match e
        case Const(_) => 0
        case Ident(_) => 0
        case Select(operand, _, _) => Nodes(operand)
        case Call(_, target, args) => (if target.Some? then Nodes(target.value) else 0) + AllNodes(args)
        case ListOf(elements) => AllNodes(elements)
        case StructOf(keys, values) => AllNodes(keys) + AllNodes(values)
        case Comprehension(_, _, _, iterRange, accuInit, loopCondition, loopStep, result) =>
          Nodes(iterRange) + Nodes(accuInit) + Nodes(loopCondition) + Nodes(loopStep) + Nodes(result)
        case Unknown => 0
  }

  function AllNodes(es: seq<Expr>): nat
    decreases es, 0
  {
    if es == [] then 0 else Nodes(es[0]) + AllNodes(es[1..])
  }

  // ---- Cost -----------------------------------------------------------------------------------------------------

  /** What `e` is charged where each part of it runs `mult` times. */
  function Cost(e: Expr, mult: nat, bound: seq<string>): nat
    decreases e, 0
  {
    mult + match e
           case Const(_) => 0
           case Ident(_) => 0
           case Select(operand, _, _) => Cost(operand, mult, bound)
           case Call(fn, target, args) =>
             (if target.Some? then Cost(target.value, mult, bound) else 0) + Costs(args, mult, bound)
             + (if fn in SCANS then mult * REGEX_WEIGHT * ScanSize(e, bound) else 0)
             + (if fn == "_+_" then mult * Operands(e, bound) else 0)
           case ListOf(elements) => Costs(elements, mult, bound)
           case StructOf(keys, values) => Costs(keys, mult, bound) + Costs(values, mult, bound)
           case Comprehension(_, _, _, iterRange, accuInit, loopCondition, loopStep, result) =>
             var perRun := mult * LIST_CAP * Max(1, Size(iterRange, bound));
             var inner := bound + LoopVars(e);
             Cost(iterRange, mult, bound) + Cost(accuInit, mult, bound)
             + Cost(loopCondition, perRun, inner) + Cost(loopStep, perRun, inner) + Cost(result, mult, inner)
           case Unknown => 0
  }

  /** The caps a scan is charged for: its subject's, and at least one. */
  function ScanSize(e: Expr, bound: seq<string>): nat
    requires e.Call?
    decreases e, -1
  {
    Max(1, if Subject(e).Some? then Size(Subject(e).value, bound) else 0)
  }

  function Costs(es: seq<Expr>, mult: nat, bound: seq<string>): nat
    decreases es, 0
  {
    if es == [] then 0 else Cost(es[0], mult, bound) + Costs(es[1..], mult, bound)
  }

  // ---- The price is a price per run -------------------------------------------------------------------------------

  /** A part that runs `m` times is charged `m` times what one run is. */
  lemma {:induction false} CostScales(e: Expr, m: nat, bound: seq<string>)
    ensures Cost(e, m, bound) == Multiple(m, Cost(e, 1, bound))
    decreases e, 0
  {
    hide Multiple;
    OnceAndNone(m);
    match e
    case Select(operand, _, _) =>
      CostScales(operand, m, bound);
      Distribute(m, 1, Cost(operand, 1, bound));
    case Call(_, _, _) => CallScales(e, m, bound);
    case ListOf(elements) =>
      CostsScale(elements, m, bound);
      Distribute(m, 1, Costs(elements, 1, bound));
    case StructOf(keys, values) =>
      CostsScale(keys, m, bound);
      CostsScale(values, m, bound);
      Distribute(m, Costs(keys, 1, bound), Costs(values, 1, bound));
      Distribute(m, 1, Costs(keys, 1, bound) + Costs(values, 1, bound));
    case Comprehension(_, _, _, _, _, _, _, _) => LoopScales(e, m, bound);
    case _ =>
  }

  lemma {:induction false} CallScales(e: Expr, m: nat, bound: seq<string>)
    requires e.Call?
    ensures Cost(e, m, bound) == Multiple(m, Cost(e, 1, bound))
    decreases e, -1
  {
    hide Multiple;
    OnceAndNone(m);
    CostsScale(e.args, m, bound);
    var target := if e.target.Some? then Cost(e.target.value, 1, bound) else 0;
    if e.target.Some? { CostScales(e.target.value, m, bound); }
    var scan := if e.fn in SCANS then REGEX_WEIGHT * ScanSize(e, bound) else 0;
    var copy := if e.fn == "_+_" then Operands(e, bound) else 0;
    assert e.fn in SCANS
        ==> m * REGEX_WEIGHT * ScanSize(e, bound) == Multiple(m, scan) by { Ordered(m, ScanSize(e, bound)); }
    assert e.fn == "_+_" ==> m * Operands(e, bound) == Multiple(m, copy) by { Ordered(m, Operands(e, bound)); }
    Distribute(m, target, Costs(e.args, 1, bound));
    Distribute(m, target + Costs(e.args, 1, bound), scan);
    Distribute(m, target + Costs(e.args, 1, bound) + scan, copy);
    Distribute(m, 1, target + Costs(e.args, 1, bound) + scan + copy);
  }

  lemma {:induction false} LoopScales(e: Expr, m: nat, bound: seq<string>)
    requires e.Comprehension?
    ensures Cost(e, m, bound) == Multiple(m, Cost(e, 1, bound))
    decreases e, -1
  {
    hide Multiple;
    OnceAndNone(m);
    var each := LIST_CAP * Max(1, Size(e.iterRange, bound));
    var inner := bound + LoopVars(e);
    Ordered(m, Max(1, Size(e.iterRange, bound)));
    CostScales(e.iterRange, m, bound);
    CostScales(e.accuInit, m, bound);
    CostScales(e.loopCondition, m * each, inner);
    CostScales(e.loopCondition, each, inner);
    CostScales(e.loopStep, m * each, inner);
    CostScales(e.loopStep, each, inner);
    CostScales(e.result, m, inner);
    Associate(m, each, Cost(e.loopCondition, 1, inner));
    Associate(m, each, Cost(e.loopStep, 1, inner));
    var a, b := Cost(e.iterRange, 1, bound), Cost(e.accuInit, 1, bound);
    var c, d, r := Cost(e.loopCondition, each, inner), Cost(e.loopStep, each, inner), Cost(e.result, 1, inner);
    Distribute(m, a, b);
    Distribute(m, a + b, c);
    Distribute(m, a + b + c, d);
    Distribute(m, a + b + c + d, r);
    Distribute(m, 1, a + b + c + d + r);
  }

  lemma {:induction false} CostsScale(es: seq<Expr>, m: nat, bound: seq<string>)
    ensures Costs(es, m, bound) == Multiple(m, Costs(es, 1, bound))
    decreases es, 0
  {
    hide Multiple;
    OnceAndNone(m);
    if es != [] {
      CostScales(es[0], m, bound);
      CostsScale(es[1..], m, bound);
      Distribute(m, Cost(es[0], 1, bound), Costs(es[1..], 1, bound));
    }
  }

  /** Multiplication by name, so that a proof may keep it folded. */
  function Multiple(m: nat, n: nat): nat { m * n }

  lemma OnceAndNone(m: nat)
    ensures Multiple(m, 1) == m && Multiple(m, 0) == 0
  {
  }

  lemma Distribute(m: nat, a: nat, b: nat)
    ensures Multiple(m, a + b) == Multiple(m, a) + Multiple(m, b)
  {
  }

  lemma Ordered(m: nat, n: nat)
    ensures m * REGEX_WEIGHT * n == Multiple(m, REGEX_WEIGHT * n) && m * n == Multiple(m, n)
    ensures m * LIST_CAP * n == m * (LIST_CAP * n)
  {
  }

  lemma Associate(m: nat, n: nat, x: nat)
    ensures Multiple(m * n, x) == Multiple(m, Multiple(n, x))
  {
  }
}
