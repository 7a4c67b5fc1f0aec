/**
 * The price of a rule (`schema/src/rules.ts`), put together from its nodes: each is paid for as often as it can run, a
 * scan by what it runs over and a copy by what it makes.
 */
module RulePriced {

  import opened Maybe
  import opened RuleSyntax
  import opened RulePrice
  import opened RuleAnalysis
  import RuleValue

  /** A node, the loop variables in scope there, and how often it is paid for. */
  datatype Spot = Spot(e: Expr, bound: seq<string>, runs: nat)

  /** How often a loop's body runs for each time the loop does: a hundred times for each cap of what it runs over. */
  function Turns(e: Expr, bound: seq<string>): nat
    requires e.Comprehension?
  {
    100 * Max(1, Size(e.iterRange, bound))
  }

  function Spots(e: Expr, bound: seq<string>, runs: nat): seq<Spot>
    decreases e, 1
  {
    [Spot(e, bound, runs)] + Parts(e, bound, runs)
  }

  function Parts(e: Expr, bound: seq<string>, runs: nat): seq<Spot>
    decreases e, 0
  {
    match e
    case Select(operand, _, _) => Spots(operand, bound, runs)
    case Call(_, target, args) =>
      (if target.Some? then Spots(target.value, bound, runs) else []) + AllSpots(args, bound, runs)
    case ListOf(elements) => AllSpots(elements, bound, runs)
    case StructOf(keys, values) => AllSpots(keys, bound, runs) + AllSpots(values, bound, runs)
    case Comprehension(_, _, _, iterRange, accuInit, loopCondition, loopStep, result) =>
      var inner, body := bound + LoopVars(e), runs * Turns(e, bound);
      Spots(iterRange, bound, runs) + Spots(accuInit, bound, runs) + Spots(loopCondition, inner, body)
      + Spots(loopStep, inner, body) + Spots(result, inner, runs)
    case _ => []
  }

  function AllSpots(es: seq<Expr>, bound: seq<string>, runs: nat): seq<Spot>
    decreases es, 0
  {
    if es == [] then [] else Spots(es[0], bound, runs) + AllSpots(es[1..], bound, runs)
  }

  /** What a call's operands hold together. */
  function Held(e: Expr, bound: seq<string>): nat
    requires e.Call?
  {
    (if e.target.Some? then Size(e.target.value, bound) else 0) + Sizes(e.args, bound)
  }

  /**
   * What running a node once is charged: the node, a scan of its subject at a hundred a cap, and a copy of its
   * operands.
   */
  function Once(e: Expr, bound: seq<string>): nat {
    1 + (if e.Call? && e.fn in {"matches", "contains", "startsWith", "endsWith"} then 100 * Scan(e, bound) else 0)
    + (if e.Call? && e.fn == "_+_" then Held(e, bound) else 0)
  }

  function Scan(e: Expr, bound: seq<string>): nat
    requires e.Call?
  {
    if e.target.Some? then Max(1, Size(e.target.value, bound))
    else if e.args != [] then Max(1, Size(e.args[0], bound))
    else 1
  }

  function Total(spots: seq<Spot>): nat {
    if spots == [] then 0 else Times(spots[0].runs, Once(spots[0].e, spots[0].bound)) + Total(spots[1..])
  }

  function Times(a: nat, b: nat): nat { a * b }

  lemma {:induction false} TotalJoined(a: seq<Spot>, b: seq<Spot>)
    ensures Total(a + b) == Total(a) + Total(b)
  {
    hide Times, Once;
    if a == [] {
      assert a + b == b;
    } else {
      assert (a + b)[1..] == a[1..] + b;
      TotalJoined(a[1..], b);
    }
  }

  lemma TotalFirst(s: Spot, rest: seq<Spot>)
    ensures Total([s] + rest) == Times(s.runs, Once(s.e, s.bound)) + Total(rest)
  {
    hide Times, Once;
    assert ([s] + rest)[1..] == rest;
  }

  lemma OnceIs(e: Expr, bound: seq<string>, runs: nat)
    ensures Times(runs, Once(e, bound)) == runs + if e.Call? then CallCharge(e, runs, bound) else 0
  {
    hide Size, Sizes;
    if e.Call? {
      var scan, held := Scan(e, bound), Held(e, bound);
      assert ScanSize(e, bound) == scan && Operands(e, bound) == held;
      assert runs * (1 + 100 * scan) == runs + runs * 100 * scan;
      assert runs * (1 + held) == runs + runs * held;
      assert e.fn in SCANS <==> e.fn in {"matches", "contains", "startsWith", "endsWith"};
      NotBoth(e.fn);
    }
  }

  lemma NotBoth(fn: string)
    ensures "_+_" !in SCANS
  {
    assert "_+_"[0] == '_';
  }

  /** A rule's price is the sum over its nodes. */
  lemma {:induction false} PriceIsSum(e: Expr, bound: seq<string>, runs: nat)
    ensures Cost(e, runs, bound) == Total(Spots(e, bound, runs))
    decreases e, 1
  {
    OnceIs(e, bound, runs);
    TotalFirst(Spot(e, bound, runs), Parts(e, bound, runs));
    hide Times, Once, Total, CallCharge;
    match e
    case Select(operand, _, _) => PriceIsSum(operand, bound, runs);
    case Call(_, target, args) =>
      CallCounts(e, runs, bound);
      PricesAreSum(args, bound, runs);
      if target.Some? {
        PriceIsSum(target.value, bound, runs);
        TotalJoined(Spots(target.value, bound, runs), AllSpots(args, bound, runs));
      } else {
        assert [] + AllSpots(args, bound, runs) == AllSpots(args, bound, runs);
      }
    case ListOf(elements) => PricesAreSum(elements, bound, runs);
    case StructOf(keys, values) =>
      PricesAreSum(keys, bound, runs);
      PricesAreSum(values, bound, runs);
      TotalJoined(AllSpots(keys, bound, runs), AllSpots(values, bound, runs));
    case Comprehension(_, _, _, _, _, _, _, _) => LoopIsSum(e, bound, runs);
    case _ => NothingCosts();
  }

  lemma NothingCosts()
    ensures Total([]) == 0
  {
  }

  /** A loop's price and its spots, part by part. */
  lemma LoopParts(e: Expr, bound: seq<string>, runs: nat)
    requires e.Comprehension?
    ensures var inner, body := bound + LoopVars(e), runs * Turns(e, bound);
            Cost(e, runs, bound)
            == runs + Cost(e.iterRange, runs, bound) + Cost(e.accuInit, runs, bound)
               + Cost(e.loopCondition, body, inner)
               + Cost(e.loopStep, body, inner) + Cost(e.result, runs, inner)
  {
    LoopCounts(e, runs, bound);
    Ordered(runs, Max(1, Size(e.iterRange, bound)));
    assert runs * LIST_CAP * Max(1, Size(e.iterRange, bound)) == runs * Turns(e, bound);
    hide Cost, Size;
  }

  lemma FiveTotals(a: seq<Spot>, b: seq<Spot>, c: seq<Spot>, d: seq<Spot>, r: seq<Spot>)
    ensures Total(a + b + c + d + r) == Total(a) + Total(b) + Total(c) + Total(d) + Total(r)
  {
    hide Total;
    TotalJoined(a, b);
    TotalJoined(a + b, c);
    TotalJoined(a + b + c, d);
    TotalJoined(a + b + c + d, r);
  }

  lemma LoopIsSum(e: Expr, bound: seq<string>, runs: nat)
    requires e.Comprehension?
    ensures Cost(e, runs, bound) == runs + Total(Parts(e, bound, runs))
    decreases e, 0
  {
    hide Cost, Spots, Total, Turns, LoopVars, Size;
    var inner, body := bound + LoopVars(e), runs * Turns(e, bound);
    LoopParts(e, bound, runs);
    PriceIsSum(e.iterRange, bound, runs);
    PriceIsSum(e.accuInit, bound, runs);
    PriceIsSum(e.loopCondition, inner, body);
    PriceIsSum(e.loopStep, inner, body);
    PriceIsSum(e.result, inner, runs);
    FiveTotals(Spots(e.iterRange, bound, runs), Spots(e.accuInit, bound, runs), Spots(e.loopCondition, inner, body),
               Spots(e.loopStep, inner, body), Spots(e.result, inner, runs));
  }

  lemma {:induction false} PricesAreSum(es: seq<Expr>, bound: seq<string>, runs: nat)
    ensures Costs(es, runs, bound) == Total(AllSpots(es, bound, runs))
    decreases es, 0
  {
    if es != [] {
      hide Total, Cost, Spots;
      PriceIsSum(es[0], bound, runs);
      PricesAreSum(es[1..], bound, runs);
      TotalJoined(Spots(es[0], bound, runs), AllSpots(es[1..], bound, runs));
    } else {
      assert Total([]) == 0;
    }
  }

  /**
   * A read of a field is priced for what a loop over it can visit, and for no more: the properties, the one map a
   * record holds, for their two hundred entries, and any other field for the hundred elements of a list.
   */
  lemma ReadIsPriced(v: RuleValue.Value, name: string)
    requires RuleValue.WithinCaps(v) && (v.Table? ==> name == "properties")
    ensures |RuleValue.Visited(v)| <= 100 * ReadSize(name)
    ensures forall n: nat :: 100 * n >= (if name == "properties" then 200 else 100) ==> ReadSize(name) <= n
  {
  }
}
