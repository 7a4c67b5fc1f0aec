/**
 * The values a rule computes with and how much they hold. `Weight` is the caps a value fills: a string of 10 000 code
 * points, a list of 100 elements, or elements that weigh 100 together fill one, and no element weighs more than its
 * list. `Load` also counts the elements themselves, twice over, which is what a loop over the value can be made to
 * build.
 */
module RuleValue {

  import opened RuleSyntax

  /** A number, a truth value or an error is a scalar: a rule can do nothing with its size. */
  datatype Value = Scalar(truth: bool) | Text(s: string) | Items(vs: seq<Value>)
      | Table(keys: seq<Value>, vals: seq<Value>)

  function Top(a: real, b: real): real { if a >= b then a else b }

  function Weight(v: Value): real
    decreases v, 1
  {
    match v
    case Scalar(_) => 0.0
    case Text(s) => |s| as real / 10000.0
    case Items(vs) => ListWeight(vs)
    case Table(keys, vals) => Top(ListWeight(keys), Heaviest(vals))
  }

  function ListWeight(vs: seq<Value>): real
    decreases vs, 1
  {
    Top(Top(|vs| as real / 100.0, TotalWeight(vs) / 100.0), Heaviest(vs))
  }

  function TotalWeight(vs: seq<Value>): real
    decreases vs, 0
  {
    if vs == [] then 0.0 else Weight(vs[0]) + TotalWeight(vs[1..])
  }

  function Heaviest(vs: seq<Value>): real
    decreases vs, 0
  {
    if vs == [] then 0.0 else Top(Weight(vs[0]), Heaviest(vs[1..]))
  }

  function Load(v: Value): real
    decreases v, 1
  {
    match v
    case Scalar(_) => 0.0
    case Text(s) => |s| as real / 10000.0
    case Items(vs) => ListLoad(vs)
    case Table(keys, vals) => Top(ListLoad(keys), MostLoaded(vals))
  }

  /**
   * A loop over `vs` handles each element and what it weighs: this is its own share, at the least its heaviest
   * element's.
   */
  function ListLoad(vs: seq<Value>): real
    decreases vs, 1
  {
    Top(2.0 * |vs| as real / 100.0 + TotalWeight(vs) / 100.0, MostLoaded(vs))
  }

  function MostLoaded(vs: seq<Value>): real
    decreases vs, 0
  {
    if vs == [] then 0.0 else Top(Load(vs[0]), MostLoaded(vs[1..]))
  }

  /** What a loop over `v` visits: a list's elements, a map's keys, nothing of anything else. */
  function Visited(v: Value): seq<Value> {
    match v
    case Items(vs) => vs
    case Table(keys, _) => keys
    case _ => []
  }

  // ---- The measures ---------------------------------------------------------------------------------------------

  lemma WeightIsLoad(v: Value)
    ensures 0.0 <= Weight(v) <= Load(v)
    decreases v, 1
  {
    match v
    case Items(vs) => WeightsAreLoads(vs);
    case Table(keys, vals) => WeightsAreLoads(keys); WeightsAreLoads(vals);
    case _ =>
  }

  lemma {:induction false} WeightsAreLoads(vs: seq<Value>)
    ensures 0.0 <= TotalWeight(vs) && 0.0 <= Heaviest(vs) <= MostLoaded(vs)
    ensures Heaviest(vs) <= TotalWeight(vs)
    ensures 0.0 <= ListWeight(vs) <= ListLoad(vs)
    decreases vs, 0
  {
    if vs != [] {
      WeightIsLoad(vs[0]);
      WeightsAreLoads(vs[1..]);
    }
  }

  /** An element weighs and loads no more than its list says. */
  lemma {:induction false} ElementIsWithin(vs: seq<Value>, i: nat)
    requires i < |vs|
    ensures Weight(vs[i]) <= Heaviest(vs) && Load(vs[i]) <= MostLoaded(vs)
  {
    if i > 0 {
      ElementIsWithin(vs[1..], i - 1);
    }
  }

  lemma VisitedIsWithin(v: Value, i: nat)
    requires i < |Visited(v)|
    ensures Weight(Visited(v)[i]) <= Weight(v) && Load(Visited(v)[i]) <= Load(v)
  {
    ElementIsWithin(Visited(v), i);
  }

  /** A loop's elements, counted twice and weighed, are at most 100 times the load of what it runs over. */
  lemma VisitedLoad(v: Value)
    ensures 2.0 * |Visited(v)| as real + TotalWeight(Visited(v)) <= 100.0 * Load(v)
  {
    WeightIsLoad(v);
  }

  lemma {:induction false} JoinMeasures(a: seq<Value>, b: seq<Value>)
    ensures TotalWeight(a + b) == TotalWeight(a) + TotalWeight(b)
    ensures Heaviest(a + b) == Top(Heaviest(a), Heaviest(b))
    ensures MostLoaded(a + b) == Top(MostLoaded(a), MostLoaded(b))
  {
    WeightsAreLoads(b);
    if a == [] {
      assert a + b == b;
    } else {
      assert (a + b)[1..] == a[1..] + b;
      JoinMeasures(a[1..], b);
    }
  }

  lemma JoinedList(a: seq<Value>, b: seq<Value>)
    ensures ListWeight(a + b) <= ListWeight(a) + ListWeight(b)
    ensures ListLoad(a + b) <= ListLoad(a) + ListLoad(b)
  {
    JoinMeasures(a, b);
    WeightsAreLoads(a);
    WeightsAreLoads(b);
  }

  /** Values held inside `v`, at any place a rule can reach by one selection or index. */
  predicate Inside(x: Value, v: Value) {
    x.Scalar? || (v.Items? && x in v.vs) || (v.Table? && x in v.vals)
  }

  lemma InsideIsWithin(x: Value, v: Value)
    requires Inside(x, v)
    ensures Weight(x) <= Weight(v) && Load(x) <= Load(v)
  {
    WeightIsLoad(v);
    if !x.Scalar? {
      var vs := if v.Items? then v.vs else v.vals;
      var i :| 0 <= i < |vs| && vs[i] == x;
      ElementIsWithin(vs, i);
      WeightsAreLoads(vs);
    }
  }

  // ---- The input caps ---------------------------------------------------------------------------------------------

  /** A value within the caps a rule's reads are held to, at every depth; a map's keys count as strings. */
  predicate WithinCaps(v: Value)
    decreases v, 1
  {
    match v
    case Scalar(_) => true
    case Text(s) => |s| <= LONGEST_CHECKED_STRING
    case Items(vs) => |vs| <= LIST_CAP && AllWithinCaps(vs)
    case Table(keys, vals) => |keys| <= MAP_CAP && AllKeys(keys) && AllWithinCaps(vals)
  }

  predicate AllKeys(vs: seq<Value>) {
    forall i :: 0 <= i < |vs| ==> vs[i].Text? && |vs[i].s| <= LONGEST_CHECKED_STRING
  }

  predicate AllWithinCaps(vs: seq<Value>)
    decreases vs, 0
  {
    vs == [] || (WithinCaps(vs[0]) && AllWithinCaps(vs[1..]))
  }

  /** A capped list weighs at most one cap of its own and a map two; nothing in it weighs more, however deep. */
  lemma CapsBound(v: Value)
    requires WithinCaps(v)
    ensures Weight(v) <= 2.0 && Load(v) <= 6.0
    decreases v, 1
  {
    match v
    case Items(vs) => CapsBoundAll(vs);
    case Table(keys, vals) => KeysBound(keys); CapsBoundAll(vals);
    case _ =>
  }

  lemma {:induction false} KeysBound(vs: seq<Value>)
    requires AllKeys(vs)
    ensures TotalWeight(vs) <= |vs| as real && Heaviest(vs) <= 1.0 && MostLoaded(vs) <= 1.0
  {
    if vs != [] {
      KeysBound(vs[1..]);
    }
  }

  lemma {:induction false} CapsBoundAll(vs: seq<Value>)
    requires AllWithinCaps(vs)
    ensures TotalWeight(vs) <= 2.0 * |vs| as real && Heaviest(vs) <= 2.0 && MostLoaded(vs) <= 6.0
    decreases vs, 0
  {
    if vs != [] {
      CapsBound(vs[0]);
      CapsBoundAll(vs[1..]);
    }
  }
}
