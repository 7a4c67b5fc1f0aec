/**
 * What `analyse` finds in a rule: the parts it reads, what is wrong with it for the records it is checked for, and the
 * kinds of record it governs. `Walk` lists what the walk meets, in order; `NoteAll` is what one scope makes of the
 * list. `Visitor` is the source's walk over its own counters, proved to come to the same findings, price and sizes.
 */
module RuleAnalysis {

  import opened Maybe
  import opened RuleSyntax
  import opened RulePrice

  datatype Kind = Entity | Fact | Edge | Chrono

  const ALL_KINDS: seq<Kind> := [Entity, Fact, Edge, Chrono]

  /** The fields a record's view has. */
  function ViewFields(k: Kind): set<string> {
    if k == Edge then {"label", "description", "tags", "properties"}
    else {"title", "type", "description", "tags", "properties"}
  }

  datatype Problem =
    | ReadsAnEnd(name: string)
    | NotAField(name: string, of: Kind, every: bool)
    | NotDeclared(name: string)
    | NotAVariable(name: string)
    | ComputedProperty
    | NotAFunction(fn: string)
    | PatternNotWritten
    | LoopInLoop
    | NotAnExpression
    | TooComplex(nodes: nat)
    | NoOneKind

  /** What the walk meets: a problem whatever the scope, or a read the scope judges. */
  datatype Event =
    | Wrong(problem: Problem)
    | ReadsField(name: string, testOnly: bool, consumed: bool)
    | ReadsProperty(name: string, testOnly: bool)
    | ReadsComputed
    | ReadsWhole
    | HasPattern(pattern: string)

  datatype Refs = Refs(whole: bool, fields: set<string>, props: set<string>, presence: set<string>)
  datatype Findings = Findings(problems: seq<Problem>, refs: Refs, patterns: seq<string>, kinds: seq<Kind>)

  /** Who a rule is checked for; `funcs` is the engine's function table. */
  datatype Scope = Scope(kinds: seq<Kind>, implicit: bool, declared: Option<set<string>>)

  const PLANNER: set<string> := {"_&&_", "_||_", "_?_:_", "_[_]", "@not_strictly_false"}
  const MOST_PROBLEMS: nat := 5

  // ---- The walk ---------------------------------------------------------------------------------------------------

  /**
   * An index is never called on a target: the parser writes it with its two operands. A map has a key for each value, a
   * message none.
   */
  predicate Parsed(e: Expr)
    decreases e, 0
  {
    match e
    case Select(operand, _, _) => Parsed(operand)
    case Call(fn, target, args) =>
      (fn == "_[_]" ==> target.None?) && (target.Some? ==> Parsed(target.value)) && AllParsed(args)
    case ListOf(elements) => AllParsed(elements)
    case StructOf(keys, values) => (keys == [] || |keys| == |values|) && AllParsed(keys) && AllParsed(values)
    case Comprehension(_, _, _, iterRange, accuInit, loopCondition, loopStep, result) =>
      Parsed(iterRange) && Parsed(accuInit) && Parsed(loopCondition) && Parsed(loopStep) && Parsed(result)
    case _ => true
  }

  predicate AllParsed(es: seq<Expr>)
    decreases es, 0
  {
    es == [] || (Parsed(es[0]) && AllParsed(es[1..]))
  }

  /** What visiting `e` meets, `depth` loops deep; `consumed` when the read around it has taken account of it. */
  function Walk(e: Expr, bound: seq<string>, depth: nat, consumed: bool, funcs: set<string>): seq<Event>
    decreases e, 1
  {
    match e
    case Const(_) => []
    case Ident(name) =>
      if name in bound || name in TYPE_IDENTS then []
      else if name == "self" then (if consumed then [] else [ReadsWhole])
      else [Wrong(NotAVariable(name))]
    case Select(operand, field, testOnly) =>
      if IsSelf(operand) then [ReadsField(field, testOnly, consumed)] + Walk(operand, bound, depth, true, funcs)
      else if IsSelfProperties(operand) then [ReadsProperty(field, testOnly)] + Walk(operand, bound, depth, true, funcs)
      else Walk(operand, bound, depth, false, funcs)
    case Call(fn, target, args) =>
      if ReadsPropertyByKey(e) then
        [ReadsProperty(args[1].lit.s, false)] + Walk(args[0], bound, depth, true, funcs)
      else if ReadsFieldByKey(e) then
        [ReadsField(args[1].lit.s, false, false)] + Walk(args[0], bound, depth, true, funcs)
      else
        CallEvents(e, funcs)
        + (if target.Some? then Walk(target.value, bound, depth, false, funcs) else [])
        + Walks(args, bound, depth, funcs)
    case ListOf(elements) => Walks(elements, bound, depth, funcs)
    case StructOf(_, _) => WalkEntries(e, 0, bound, depth, funcs)
    case Comprehension(_, _, _, iterRange, accuInit, loopCondition, loopStep, result) =>
      var inner := bound + LoopVars(e);
      (if depth > 0 then [Wrong(LoopInLoop)] else [])
      + Walk(iterRange, bound, depth, false, funcs) + Walk(accuInit, bound, depth, false, funcs)
      + Walk(loopCondition, inner, depth + 1, false, funcs) + Walk(loopStep, inner, depth + 1, false, funcs)
      + Walk(result, inner, depth, false, funcs)
    case Unknown => [Wrong(NotAnExpression)]
  }

  function Walks(es: seq<Expr>, bound: seq<string>, depth: nat, funcs: set<string>): seq<Event>
    decreases es, 0
  {
    if es == [] then [] else Walk(es[0], bound, depth, false, funcs) + Walks(es[1..], bound, depth, funcs)
  }

  /** The entries of a literal in turn from the `i`th: its key, where it is an expression, and its value. */
  function WalkEntries(e: Expr, i: nat, bound: seq<string>, depth: nat, funcs: set<string>): seq<Event>
    requires e.StructOf? && i <= |e.values|
    decreases e, 0, |e.values| - i
  {
    if i == |e.values| then []
    else
      WalkKey(e, i, bound, depth, funcs) + Walk(e.values[i], bound, depth, false, funcs)
          + WalkEntries(e, i + 1, bound, depth, funcs)
  }

  function WalkKey(e: Expr, i: nat, bound: seq<string>, depth: nat, funcs: set<string>): seq<Event>
    requires e.StructOf?
    decreases e, 0, 0
  {
    if i < |e.keys| then Walk(e.keys[i], bound, depth, false, funcs) else []
  }

  /** The keys from the `i`th; a message has none. */
  function KeysFrom(e: Expr, i: nat): seq<Expr>
    requires e.StructOf? && (e.keys == [] || |e.keys| == |e.values|) && i <= |e.values|
  {
    if e.keys == [] then [] else e.keys[i..]
  }

  /** What one entry adds to what is left of a literal's counts. */
  lemma EntryCounts(e: Expr, i: nat, mult: nat, bound: seq<string>)
    requires e.StructOf? && (e.keys == [] || |e.keys| == |e.values|) && i < |e.values|
    ensures e.keys == [] ==> KeysFrom(e, i) == KeysFrom(e, i + 1) == []
    ensures e.keys != [] ==>
              && Sizes(KeysFrom(e, i), bound) == Size(e.keys[i], bound) + Sizes(KeysFrom(e, i + 1), bound)
              && AllNodes(KeysFrom(e, i)) == Nodes(e.keys[i]) + AllNodes(KeysFrom(e, i + 1))
              && Costs(KeysFrom(e, i), mult, bound)
                  == Cost(e.keys[i], mult, bound) + Costs(KeysFrom(e, i + 1), mult, bound)
    ensures Sizes(e.values[i..], bound) == Size(e.values[i], bound) + Sizes(e.values[i + 1..], bound)
    ensures AllNodes(e.values[i..]) == Nodes(e.values[i]) + AllNodes(e.values[i + 1..])
    ensures Costs(e.values[i..], mult, bound) == Cost(e.values[i], mult, bound) + Costs(e.values[i + 1..], mult, bound)
  {
    assert e.values[i..][1..] == e.values[i + 1..];
    if e.keys != [] {
      assert e.keys[i..][1..] == e.keys[i + 1..];
    }
    hide Size, Nodes, Cost;
  }

  lemma {:induction false} ParsedAt(es: seq<Expr>, i: nat)
    requires AllParsed(es) && i < |es|
    ensures Parsed(es[i])
  {
    if i > 0 {
      ParsedAt(es[1..], i - 1);
    }
  }

  /** What a call is charged beside its node and its operands: the scan, or the copy a `+` makes. */
  function CallCharge(e: Expr, mult: nat, bound: seq<string>): nat
    requires e.Call?
  {
    (if e.fn in SCANS then mult * REGEX_WEIGHT * ScanSize(e, bound) else 0)
    + (if e.fn == "_+_" then mult * Operands(e, bound) else 0)
  }

  /** A call's counts, part by part. */
  lemma CallCounts(e: Expr, mult: nat, bound: seq<string>)
    requires e.Call?
    ensures Cost(e, mult, bound)
            == mult + (if e.target.Some? then Cost(e.target.value, mult, bound) else 0) + Costs(e.args, mult, bound)
               + CallCharge(e, mult, bound)
    ensures !ReadsPropertyByKey(e) && !ReadsFieldByKey(e) ==>
              Size(e, bound) == if e.fn == "_?_:_" then Max(SizeAt(e.args, 1, bound), SizeAt(e.args, 2, bound))
                                else if e.fn == "_[_]" then SizeAt(e.args, 0, bound)
                                else Operands(e, bound)
  {
  }

  /** A loop's counts, part by part. */
  lemma LoopCounts(e: Expr, mult: nat, bound: seq<string>)
    requires e.Comprehension?
    ensures var inner, perRun := bound + LoopVars(e), mult * LIST_CAP * Max(1, Size(e.iterRange, bound));
            && Nodes(e) == 1 + Nodes(e.iterRange) + Nodes(e.accuInit) + Nodes(e.loopCondition) + Nodes(e.loopStep)
                + Nodes(e.result)
            && Cost(e, mult, bound) == mult + Cost(e.iterRange, mult, bound) + Cost(e.accuInit, mult, bound)
                 + Cost(e.loopCondition, perRun, inner) + Cost(e.loopStep, perRun, inner) + Cost(e.result, mult, inner)
            && Size(e, bound) == Max(1, Size(e.iterRange, bound)) * Max(1, Size(e.loopStep, inner))
  {
  }

  lemma LoopWalk(e: Expr, bound: seq<string>, depth: nat, consumed: bool, funcs: set<string>)
    requires e.Comprehension?
    ensures var inner := bound + LoopVars(e);
            Walk(e, bound, depth, consumed, funcs)
            == (if depth > 0 then [Wrong(LoopInLoop)] else [])
               + Walk(e.iterRange, bound, depth, false, funcs) + Walk(e.accuInit, bound, depth, false, funcs)
               + (Walk(e.loopCondition, inner, depth + 1, false, funcs)
                   + Walk(e.loopStep, inner, depth + 1, false, funcs))
               + Walk(e.result, inner, depth, false, funcs)
  {
  }

  /** What a call itself comes to, before its operands. */
  function CallEvents(e: Expr, funcs: set<string>): seq<Event>
    requires e.Call?
  {
    (if e.fn == "_[_]" && |e.args| == 2 && IsSelfProperties(e.args[0]) then [ReadsComputed] else [])
    + (if e.fn !in PLANNER && e.fn !in funcs then [Wrong(NotAFunction(e.fn))] else [])
    + (if e.fn == "matches" then [PatternEvent(e)] else [])
  }

  function PatternEvent(e: Expr): Event
    requires e.Call?
  {
    var at := if e.target.Some? then 0 else 1;
    if at < |e.args| && IsStringConst(e.args[at]) then HasPattern(e.args[at].lit.s) else Wrong(PatternNotWritten)
  }

  // ---- What a scope makes of it -----------------------------------------------------------------------------------

  function Lacking(kinds: seq<Kind>, name: string): seq<Kind> {
    if kinds == [] then []
    else (if name in ViewFields(kinds[0]) then [] else [kinds[0]]) + Lacking(kinds[1..], name)
  }

  function Without(kinds: seq<Kind>, gone: seq<Kind>): seq<Kind> {
    if kinds == [] then []
    else (if kinds[0] in gone then [] else [kinds[0]]) + Without(kinds[1..], gone)
  }

  /** A problem is told once, and no more than five are. */
  function Told(f: Findings, p: Problem): Findings {
    if p !in f.problems && |f.problems| < MOST_PROBLEMS then f.(problems := f.problems + [p]) else f
  }

  function NoteField(f: Findings, name: string, testOnly: bool, consumed: bool, scope: Scope): Findings {
    if name == "from" || name == "to" then Told(f, ReadsAnEnd(name))
    else
      var lacking := Lacking(scope.kinds, name);
      if scope.implicit && |lacking| < |scope.kinds| then
        AddField(f.(kinds := Without(f.kinds, lacking)), name, testOnly, consumed)
      else if |lacking| > 0 then Told(f, NotAField(name, lacking[0], |lacking| == |ALL_KINDS|))
      else AddField(f, name, testOnly, consumed)
  }

  function AddField(f: Findings, name: string, testOnly: bool, consumed: bool): Findings {
    if !testOnly && !(name == "properties" && consumed) then f.(refs := f.refs.(fields := f.refs.fields + {name}))
        else f
  }

  function NoteProperty(f: Findings, name: string, testOnly: bool, scope: Scope): Findings {
    if scope.declared.Some? && name !in scope.declared.value then Told(f, NotDeclared(name))
    else if testOnly then f.(refs := f.refs.(presence := f.refs.presence + {name}))
    else f.(refs := f.refs.(props := f.refs.props + {name}))
  }

  function Note(f: Findings, ev: Event, scope: Scope): Findings {
    match ev
    case Wrong(p) => Told(f, p)
    case ReadsField(name, testOnly, consumed) => NoteField(f, name, testOnly, consumed, scope)
    case ReadsProperty(name, testOnly) => NoteProperty(f, name, testOnly, scope)
    case ReadsComputed => if scope.declared.Some? then Told(f, ComputedProperty) else f
    case ReadsWhole => f.(refs := f.refs.(whole := true))
    case HasPattern(p) => f.(patterns := f.patterns + [p])
  }

  function NoteAll(f: Findings, evs: seq<Event>, scope: Scope): Findings
    decreases |evs|
  {
    if evs == [] then f else NoteAll(Note(f, evs[0], scope), evs[1..], scope)
  }

  function Fresh(scope: Scope): Findings { Findings([], Refs(false, {}, {}, {}), [], scope.kinds) }

  /** The two checks after the walk: the rule's length in nodes, and that some kind is left. */
  function Closed(f: Findings, nodes: nat): Findings {
    var f := if nodes > AST_NODE_LIMIT then Told(f, TooComplex(nodes)) else f;
    if f.kinds == [] && f.problems == [] then Told(f, NoOneKind) else f
  }

  function Analysed(e: Expr, scope: Scope, funcs: set<string>): Findings {
    Closed(NoteAll(Fresh(scope), Walk(e, [], 0, false, funcs), scope), Nodes(e))
  }

  lemma ToldIsNoted(f: Findings, scope: Scope)
    ensures NoteAll(f, [Wrong(LoopInLoop)], scope) == Told(f, LoopInLoop) && NoteAll(f, [], scope) == f
  {
  }

  lemma {:induction false} NoteJoined(f: Findings, a: seq<Event>, b: seq<Event>, scope: Scope)
    ensures NoteAll(f, a + b, scope) == NoteAll(NoteAll(f, a, scope), b, scope)
    decreases |a|
  {
    if a == [] {
      assert a + b == b;
    } else {
      assert (a + b)[1..] == a[1..] + b;
      NoteJoined(Note(f, a[0], scope), a[1..], b, scope);
    }
  }

  lemma NothingNoted(f: Findings, scope: Scope)
    ensures NoteAll(f, [], scope) == f
  {
  }

  /** A literal's counts are those of its entries, none of them visited yet. */
  lemma StructCounts(e: Expr, mult: nat, bound: seq<string>, depth: nat, consumed: bool, funcs: set<string>)
    requires e.StructOf? && (e.keys == [] || |e.keys| == |e.values|)
    ensures Size(e, bound) == Sizes(KeysFrom(e, 0), bound) + Sizes(e.values[0..], bound)
    ensures Nodes(e) == 1 + AllNodes(KeysFrom(e, 0)) + AllNodes(e.values[0..])
    ensures Cost(e, mult, bound) == mult + Costs(KeysFrom(e, 0), mult, bound) + Costs(e.values[0..], mult, bound)
    ensures Walk(e, bound, depth, consumed, funcs) == WalkEntries(e, 0, bound, depth, funcs)
  {
    assert e.values[0..] == e.values && (e.keys != [] ==> e.keys[0..] == e.keys);
  }

  lemma StructIsParsed(e: Expr, i: nat)
    requires e.StructOf? && Parsed(e) && i < |e.values|
    ensures (e.keys == [] || |e.keys| == |e.values|) && (e.keys != [] ==> Parsed(e.keys[i])) && Parsed(e.values[i])
  {
    ParsedAt(e.values, i);
    if e.keys != [] {
      ParsedAt(e.keys, i);
    }
  }

  // ---- The source's walk ------------------------------------------------------------------------------------------

  class Visitor {
    const scope: Scope
    const funcs: set<string>
    var nodes: nat
    var cost: nat
    var problems: seq<Problem>
    var refs: Refs
    var patterns: seq<string>
    var kinds: seq<Kind>
    var bound: seq<string>
    var loopDepth: nat

    constructor (scope: Scope, funcs: set<string>)
      ensures this.scope == scope && this.funcs == funcs
      ensures Found() == Fresh(scope) && nodes == 0 && cost == 0 && bound == [] && loopDepth == 0
    {
      this.scope, this.funcs := scope, funcs;
      nodes, cost := 0, 0;
      problems, refs, patterns, kinds := [], Refs(false, {}, {}, {}), [], scope.kinds;
      bound, loopDepth := [], 0;
    }

    function Found(): Findings
      reads this
    {
      Findings(problems, refs, patterns, kinds)
    }

    method Tell(p: Problem)
      modifies this`problems
      ensures Found() == Told(old(Found()), p)
    {
      if p !in problems && |problems| < MOST_PROBLEMS {
        problems := problems + [p];
      }
    }

    method Field(name: string, testOnly: bool, consumed: bool)
      modifies this`problems, this`kinds, this`refs
      ensures Found() == NoteField(old(Found()), name, testOnly, consumed, scope)
    {
      if name == "from" || name == "to" {
        Tell(ReadsAnEnd(name));
        return;
      }
      var lacking := Lacking(scope.kinds, name);
      if scope.implicit && |lacking| < |scope.kinds| {
        kinds := Without(kinds, lacking);
      } else if |lacking| > 0 {
        Tell(NotAField(name, lacking[0], |lacking| == |ALL_KINDS|));
        return;
      }
      if !testOnly && !(name == "properties" && consumed) {
        refs := refs.(fields := refs.fields + {name});
      }
    }

    method Property(name: string, testOnly: bool)
      modifies this`problems, this`refs
      ensures Found() == NoteProperty(old(Found()), name, testOnly, scope)
    {
      if scope.declared.Some? && name !in scope.declared.value {
        Tell(NotDeclared(name));
        return;
      }
      if testOnly {
        refs := refs.(presence := refs.presence + {name});
      } else {
        refs := refs.(props := refs.props + {name});
      }
    }

    /** The walk leaves the loop variables and the depth as they were, and has met what `Walk` lists. */
    twostate predicate Visited(e: Expr, mult: nat, consumed: bool, size: nat)
      reads this
    {
      && bound == old(bound) && loopDepth == old(loopDepth)
      && size == Size(e, bound)
      && nodes == old(nodes) + Nodes(e)
      && cost == old(cost) + Cost(e, mult, bound)
      && Found() == NoteAll(old(Found()), Walk(e, bound, loopDepth, consumed, funcs), scope)
    }

    twostate predicate AllVisited(es: seq<Expr>, mult: nat, sizes: seq<nat>)
      reads this
    {
      && bound == old(bound) && loopDepth == old(loopDepth)
      && |sizes| == |es| && (forall i :: 0 <= i < |es| ==> sizes[i] == Size(es[i], bound))
      && Sum(sizes) == Sizes(es, bound)
      && nodes == old(nodes) + AllNodes(es)
      && cost == old(cost) + Costs(es, mult, bound)
      && Found() == NoteAll(old(Found()), Walks(es, bound, loopDepth, funcs), scope)
    }

    method Visit(e: Expr, mult: nat, consumed: bool) returns (size: nat)
      requires Parsed(e)
      modifies this
      ensures Visited(e, mult, consumed, size)
      decreases e, 1
    {
      hide NoteAll, Walk, Nodes, Cost, Size;
      nodes, cost := nodes + 1, cost + mult;
      match e
      case Select(_, _, _) => size := VisitSelect(e, mult, consumed);
      case Call(_, _, _) => size := VisitCall(e, mult, consumed);
      case ListOf(_) => size := VisitList(e, mult, consumed);
      case StructOf(_, _) => size := VisitStruct(e, mult, consumed);
      case Comprehension(_, _, _, _, _, _, _, _) => size := VisitLoop(e, mult, consumed);
      case _ => size := VisitLeaf(e, mult, consumed);
    }

    /** What is left of visiting a part once its own node is counted. */
    twostate predicate Counted(e: Expr, mult: nat, consumed: bool, size: nat)
      reads this
    {
      && bound == old(bound) && loopDepth == old(loopDepth)
      && size == Size(e, bound)
      && nodes == old(nodes) + Nodes(e) - 1
      && cost == old(cost) + Cost(e, mult, bound) - mult
      && Found() == NoteAll(old(Found()), Walk(e, bound, loopDepth, consumed, funcs), scope)
    }

    method VisitLeaf(e: Expr, mult: nat, consumed: bool) returns (size: nat)
      requires e.Const? || e.Ident? || e.Unknown?
      modifies this`problems, this`refs
      ensures Counted(e, mult, consumed, size)
    {
      if e.Ident? {
        size := VisitIdent(e.name, consumed);
        return;
      }
      if e.Unknown? {
        Tell(NotAnExpression);
      }
      size := 0;
    }

    method VisitList(e: Expr, mult: nat, consumed: bool) returns (size: nat)
      requires e.ListOf? && Parsed(e)
      modifies this
      ensures Counted(e, mult, consumed, size)
      decreases e, 0
    {
      var sizes := VisitAll(e.elements, mult);
      size := Sum(sizes);
    }

    method VisitStruct(e: Expr, mult: nat, consumed: bool) returns (size: nat)
      requires e.StructOf? && Parsed(e)
      modifies this
      ensures Counted(e, mult, consumed, size)
      decreases e, 0
    {
      size := 0;
      StructCounts(e, mult, bound, loopDepth, consumed, funcs);
      var i := 0;
      while i < |e.values|
        invariant i <= |e.values| && bound == old(bound) && loopDepth == old(loopDepth)
        invariant size + Sizes(KeysFrom(e, i), bound) + Sizes(e.values[i..], bound) == Size(e, bound)
        invariant nodes + AllNodes(KeysFrom(e, i)) + AllNodes(e.values[i..]) == old(nodes) + Nodes(e) - 1
        invariant cost + Costs(KeysFrom(e, i), mult, bound) + Costs(e.values[i..], mult, bound)
                  == old(cost) + Cost(e, mult, bound) - mult
        invariant NoteAll(Found(), WalkEntries(e, i, bound, loopDepth, funcs), scope)
                  == NoteAll(old(Found()), Walk(e, bound, loopDepth, consumed, funcs), scope)
      {
        hide Walk, Size, Sizes, Nodes, AllNodes, Cost, Costs, NoteAll, KeysFrom, Parsed, AllParsed;
        EntryCounts(e, i, mult, bound);
        StructIsParsed(e, i);
        ghost var before: Findings := Found();
        ghost var key, value := WalkKey(e, i, bound, loopDepth, funcs),
            Walk(e.values[i], bound, loopDepth, false, funcs);
        NoteJoined(before, key + value, WalkEntries(e, i + 1, bound, loopDepth, funcs), scope);
        NoteJoined(before, key, value, scope);
        if e.keys != [] {
          var ofKey := Visit(e.keys[i], mult, false);
          size := size + ofKey;
        } else {
          NothingNoted(before, scope);
        }
        var ofValue := Visit(e.values[i], mult, false);
        size, i := size + ofValue, i + 1;
      }
    }

    method VisitIdent(name: string, consumed: bool) returns (size: nat)
      modifies this`problems, this`refs
      ensures size == Size(Ident(name), bound)
      ensures Found() == NoteAll(old(Found()), Walk(Ident(name), bound, loopDepth, consumed, funcs), scope)
    {
      if name in bound {
        return 1;
      }
      if name in TYPE_IDENTS {
        return 0;
      }
      if name == "self" {
        if !consumed {
          refs := refs.(whole := true);
        }
        return 1;
      }
      Tell(NotAVariable(name));
      return 0;
    }

    method VisitSelect(e: Expr, mult: nat, consumed: bool) returns (size: nat)
      requires e.Select? && Parsed(e)
      modifies this
      ensures Counted(e, mult, consumed, size)
      decreases e, 0
    {
      ghost var before: Findings, first: seq<Event> := Found(), [];
      if IsSelf(e.operand) {
        Field(e.field, e.testOnly, consumed);
        first := [ReadsField(e.field, e.testOnly, consumed)];
      } else if IsSelfProperties(e.operand) {
        Property(e.field, e.testOnly);
        first := [ReadsProperty(e.field, e.testOnly)];
      }
      var inside := IsSelf(e.operand) || IsSelfProperties(e.operand);
      assert Found() == NoteAll(before, first, scope);
      size := Visit(e.operand, mult, inside);
      NoteJoined(before, first, Walk(e.operand, bound, loopDepth, inside, funcs), scope);
      if IsSelf(e.operand) {
        size := ReadSize(e.field);
      } else if IsSelfProperties(e.operand) {
        size := 1;
      }
    }

    method VisitAll(es: seq<Expr>, mult: nat) returns (sizes: seq<nat>)
      requires AllParsed(es)
      modifies this
      ensures AllVisited(es, mult, sizes)
      decreases es, 0
    {
      sizes := [];
      if es != [] {
        ghost var before := Found();
        var first := Visit(es[0], mult, false);
        ghost var evs := Walk(es[0], bound, loopDepth, false, funcs);
        var rest := VisitAll(es[1..], mult);
        NoteJoined(before, evs, Walks(es[1..], bound, loopDepth, funcs), scope);
        sizes := [first] + rest;
        assert sizes[1..] == rest;
      }
    }

    /** A read whose key the rule writes: the field or the property is noted, and its subject is taken account of. */
    method VisitByKey(e: Expr, mult: nat) returns (size: nat)
      requires (ReadsPropertyByKey(e) || ReadsFieldByKey(e)) && Parsed(e)
      modifies this
      ensures Counted(e, mult, false, size)
      decreases e, -1
    {
      var key := e.args[1].lit.s;
      ghost var before := Found();
      ghost var first := if ReadsPropertyByKey(e) then ReadsProperty(key, false) else ReadsField(key, false, false);
      if ReadsPropertyByKey(e) {
        Property(key, false);
      } else {
        Field(key, false, false);
      }
      assert Found() == NoteAll(before, [first], scope);
      TwoCounted(e.args, mult, bound);
      var _ := Visit(e.args[0], mult, true);
      ghost var evs := Walk(e.args[0], bound, loopDepth, true, funcs);
      var _ := Visit(e.args[1], mult, false);
      NoteJoined(before, [first], evs, scope);
      size := if ReadsPropertyByKey(e) then 1 else ReadSize(key);
    }

    method NoteCall(e: Expr)
      requires e.Call?
      modifies this`problems, this`patterns
      ensures Found() == NoteAll(old(Found()), CallEvents(e, funcs), scope)
    {
      ghost var before := Found();
      ghost var first: seq<Event>, second: seq<Event> := [], [];
      if e.fn == "_[_]" && |e.args| == 2 && IsSelfProperties(e.args[0]) {
        first := [ReadsComputed];
        if scope.declared.Some? {
          Tell(ComputedProperty);
        }
      }
      assert Found() == NoteAll(before, first, scope);
      if e.fn !in PLANNER && e.fn !in funcs {
        second := [Wrong(NotAFunction(e.fn))];
        Tell(NotAFunction(e.fn));
      }
      NoteJoined(before, first, second, scope);
      assert Found() == NoteAll(before, first + second, scope);
      ghost var third := if e.fn == "matches" then [PatternEvent(e)] else [];
      NoteJoined(before, first + second, third, scope);
      if e.fn == "matches" {
        var at := if e.target.Some? then 0 else 1;
        if at < |e.args| && IsStringConst(e.args[at]) {
          patterns := patterns + [e.args[at].lit.s];
        } else {
          Tell(PatternNotWritten);
        }
      }
      assert first + second + third == CallEvents(e, funcs);
    }

    /** The target and the arguments of a call, in order, with what each can hold. */
    method VisitOperands(e: Expr, mult: nat) returns (targetSize: nat, sizes: seq<nat>)
      requires e.Call? && Parsed(e) && !ReadsPropertyByKey(e) && !ReadsFieldByKey(e)
      modifies this
      ensures bound == old(bound) && loopDepth == old(loopDepth)
      ensures targetSize == (if e.target.Some? then Size(e.target.value, bound) else 0)
      ensures |sizes| == |e.args| && (forall i :: 0 <= i < |sizes| ==> sizes[i] == Size(e.args[i], bound))
      ensures targetSize + Sum(sizes) == Operands(e, bound)
      ensures nodes == old(nodes) + Nodes(e) - 1
      ensures cost == old(cost) + (if e.target.Some? then Cost(e.target.value, mult, bound) else 0)
              + Costs(e.args, mult, bound)
      ensures Found() == NoteAll(old(Found()), Walk(e, bound, loopDepth, false, funcs), scope)
      decreases e, -1
    {
      ghost var before := Found();
      NoteCall(e);
      targetSize := 0;
      ghost var evs := [];
      if e.target.Some? {
        targetSize := Visit(e.target.value, mult, false);
        evs := Walk(e.target.value, bound, loopDepth, false, funcs);
      }
      NoteJoined(before, CallEvents(e, funcs), evs, scope);
      sizes := VisitAll(e.args, mult);
      NoteJoined(before, CallEvents(e, funcs) + evs, Walks(e.args, bound, loopDepth, funcs), scope);
    }

    /** The scan and the copy of a call, charged by what its operands can hold. */
    method Charge(e: Expr, mult: nat, targetSize: nat, sizes: seq<nat>)
      requires e.Call?
      requires targetSize == (if e.target.Some? then Size(e.target.value, bound) else 0)
      requires |sizes| == |e.args| && (forall i :: 0 <= i < |sizes| ==> sizes[i] == Size(e.args[i], bound))
      requires targetSize + Sum(sizes) == Operands(e, bound)
      modifies this`cost
      ensures cost == old(cost) + CallCharge(e, mult, bound)
    {
      hide Size, Sizes, Sum, Operands;
      if e.fn in SCANS {
        var subject := if e.target.Some? then targetSize else if |sizes| > 0 then sizes[0] else 0;
        cost := cost + mult * REGEX_WEIGHT * Max(1, subject);
      }
      if e.fn == "_+_" {
        cost := cost + mult * (targetSize + Sum(sizes));
      }
    }

    method VisitCall(e: Expr, mult: nat, consumed: bool) returns (size: nat)
      requires e.Call? && Parsed(e)
      modifies this
      ensures Counted(e, mult, consumed, size)
      decreases e, 0
    {
      if ReadsPropertyByKey(e) || ReadsFieldByKey(e) {
        size := VisitByKey(e, mult);
        return;
      }
      hide NoteAll, Walk, Nodes, Sum, Cost, Costs, Size, Sizes, CallCharge;
      CallCounts(e, mult, bound);
      var targetSize, sizes := VisitOperands(e, mult);
      var operands := targetSize + Sum(sizes);
      Charge(e, mult, targetSize, sizes);
      if e.fn == "_?_:_" {
        size := Max(if |sizes| > 1 then sizes[1] else 0, if |sizes| > 2 then sizes[2] else 0);
      } else if e.fn == "_[_]" {
        size := if |sizes| > 0 then sizes[0] else 0;
      } else {
        size := operands;
      }
    }

    /** The condition and the step of a loop, with its variables in scope and one loop deeper. */
    method VisitBody(e: Expr, perRun: nat) returns (step: nat)
      requires e.Comprehension? && Parsed(e)
      modifies this
      ensures bound == old(bound) + LoopVars(e) && loopDepth == old(loopDepth)
      ensures step == Size(e.loopStep, bound)
      ensures nodes == old(nodes) + Nodes(e.loopCondition) + Nodes(e.loopStep)
      ensures cost == old(cost) + Cost(e.loopCondition, perRun, bound) + Cost(e.loopStep, perRun, bound)
      ensures Found() == NoteAll(old(Found()), Walk(e.loopCondition, bound, loopDepth + 1, false, funcs)
                                               + Walk(e.loopStep, bound, loopDepth + 1, false, funcs), scope)
      decreases e, -1
    {
      hide Walk, Cost, Nodes, NoteAll, Size;
      ghost var before := Found();
      bound := bound + LoopVars(e);
      loopDepth := loopDepth + 1;
      var _ := Visit(e.loopCondition, perRun, false);
      ghost var evs := Walk(e.loopCondition, bound, loopDepth, false, funcs);
      step := Visit(e.loopStep, perRun, false);
      NoteJoined(before, evs, Walk(e.loopStep, bound, loopDepth, false, funcs), scope);
      loopDepth := loopDepth - 1;
    }

    method VisitLoop(e: Expr, mult: nat, consumed: bool) returns (size: nat)
      requires e.Comprehension? && Parsed(e)
      modifies this
      ensures Counted(e, mult, consumed, size)
      decreases e, 0
    {
      hide Walk, Cost, Nodes, NoteAll, Size;
      LoopCounts(e, mult, bound);
      LoopWalk(e, bound, loopDepth, consumed, funcs);
      ghost var before: Findings, evs: seq<Event> := Found(), [];
      ToldIsNoted(before, scope);
      if loopDepth > 0 {
        Tell(LoopInLoop);
        evs := [Wrong(LoopInLoop)];
      }
      assert Found() == NoteAll(before, evs, scope);
      var rangeSize := Visit(e.iterRange, mult, false);
      var range := Max(1, rangeSize);
      NoteJoined(before, evs, Walk(e.iterRange, bound, loopDepth, false, funcs), scope);
      evs := evs + Walk(e.iterRange, bound, loopDepth, false, funcs);
      var _ := Visit(e.accuInit, mult, false);
      NoteJoined(before, evs, Walk(e.accuInit, bound, loopDepth, false, funcs), scope);
      evs := evs + Walk(e.accuInit, bound, loopDepth, false, funcs);
      var step := VisitBody(e, mult * LIST_CAP * range);
      ghost var body := Walk(e.loopCondition, bound, loopDepth + 1, false, funcs)
                        + Walk(e.loopStep, bound, loopDepth + 1, false, funcs);
      NoteJoined(before, evs, body, scope);
      var _ := Visit(e.result, mult, false);
      ghost var last := Walk(e.result, bound, loopDepth, false, funcs);
      NoteJoined(before, evs + body, last, scope);
      bound := bound[..|bound| - |LoopVars(e)|];
      size := range * Max(1, step);
    }

    method Analyse(root: Expr)
      requires Parsed(root) && Found() == Fresh(scope) && nodes == 0 && cost == 0 && bound == [] && loopDepth == 0
      modifies this
      ensures Found() == Analysed(root, scope, funcs) && nodes == Nodes(root) && cost == Cost(root, 1, [])
    {
      hide Walk, Cost, Nodes, NoteAll, Size;
      var _ := Visit(root, 1, false);
      if nodes > AST_NODE_LIMIT {
        Tell(TooComplex(nodes));
      }
      if kinds == [] && problems == [] {
        Tell(NoOneKind);
      }
    }
  }

  lemma TwoCounted(es: seq<Expr>, mult: nat, bound: seq<string>)
    requires |es| == 2
    ensures AllNodes(es) == Nodes(es[0]) + Nodes(es[1])
    ensures Costs(es, mult, bound) == Cost(es[0], mult, bound) + Cost(es[1], mult, bound)
  {
    var one := es[1..];
    assert one[0] == es[1] && one[1..] == [];
    assert AllNodes(one) == Nodes(one[0]) + AllNodes(one[1..]);
    assert Costs(one, mult, bound) == Cost(one[0], mult, bound) + Costs(one[1..], mult, bound);
  }

  function Sum(ns: seq<nat>): nat { if ns == [] then 0 else ns[0] + Sum(ns[1..]) }
}
