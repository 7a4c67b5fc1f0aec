/**
 * What `analyse` accepts and finds (`schema/src/rules.ts`), said of the rule's tree: of each node, the variables in
 * scope there, how many loops it is in, and whether the read around it takes account of it.
 */
module RulePlaces {

  import opened Maybe
  import opened RuleSyntax
  import opened RulePrice
  import opened RuleAnalysis
  import opened RuleKinds
  import RuleBody

  /** A node of a rule, where it stands. */
  datatype Place = Place(e: Expr, bound: seq<string>, depth: nat, taken: bool)

  predicate Record(e: Expr) { e == Ident("self") }
  predicate Properties(e: Expr) { e.Select? && Record(e.operand) && e.field == "properties" }

  /** `x[k]` with the key written in the rule, of the record or of its properties. */
  predicate ByKey(e: Expr) {
    && e.Call? && e.fn == "_[_]" && |e.args| == 2 && (Record(e.args[0]) || Properties(e.args[0]))
    && e.args[1].Const? && e.args[1].lit.Str?
  }

  /** Every node of a rule, from the root down. */
  function Places(e: Expr, bound: seq<string>, depth: nat, taken: bool): seq<Place>
    decreases e, 1
  {
    [Place(e, bound, depth, taken)] + Below(e, bound, depth)
  }

  function Below(e: Expr, bound: seq<string>, depth: nat): seq<Place>
    decreases e, 0
  {
    match e
    case Select(operand, _, _) => Places(operand, bound, depth, Record(operand) || Properties(operand))
    case Call(_, target, args) =>
      if ByKey(e) then Places(args[0], bound, depth, true) + Places(args[1], bound, depth, false)
      else (if target.Some? then Places(target.value, bound, depth, false) else []) + AllPlaces(args, bound, depth)
    case ListOf(elements) => AllPlaces(elements, bound, depth)
    case StructOf(keys, values) => AllPlaces(keys, bound, depth) + AllPlaces(values, bound, depth)
    case Comprehension(_, _, _, iterRange, accuInit, loopCondition, loopStep, result) =>
      var inner := bound + LoopVars(e);
      Places(iterRange, bound, depth, false) + Places(accuInit, bound, depth, false)
      + Places(loopCondition, inner, depth + 1, false) + Places(loopStep, inner, depth + 1, false)
      + Places(result, inner, depth, false)
    case _ => []
  }

  function AllPlaces(es: seq<Expr>, bound: seq<string>, depth: nat): seq<Place>
    decreases es, 0
  {
    if es == [] then [] else Places(es[0], bound, depth, false) + AllPlaces(es[1..], bound, depth)
  }

  function PlacesOf(e: Expr): seq<Place> { Places(e, [], 0, false) }

  // ---- What a place reads -----------------------------------------------------------------------------------------

  predicate ReadsRecord(p: Place) { Record(p.e) && !p.taken && "self" !in p.bound }

  /** The place reads or tests the field. */
  predicate NamesField(p: Place, name: string) {
    || (p.e.Select? && Record(p.e.operand) && p.e.field == name)
    || (ByKey(p.e) && Record(p.e.args[0]) && p.e.args[1].lit.s == name)
  }

  /** The place reads the field's value, and not only a property in it. */
  predicate ReadsFieldValue(p: Place, name: string) {
    NamesField(p, name) && (p.e.Select? ==> !p.e.testOnly && !(name == "properties" && p.taken))
  }

  predicate NamesProperty(p: Place, name: string) {
    || (p.e.Select? && Properties(p.e.operand) && p.e.field == name)
    || (ByKey(p.e) && Properties(p.e.args[0]) && p.e.args[1].lit.s == name)
  }

  predicate ReadsPropertyValue(p: Place, name: string) { NamesProperty(p, name) && (p.e.Select? ==> !p.e.testOnly) }

  predicate TestsProperty(p: Place, name: string) { NamesProperty(p, name) && p.e.Select? && p.e.testOnly }

  predicate ComputesProperty(p: Place) {
    p.e.Call? && p.e.fn == "_[_]" && |p.e.args| == 2 && Properties(p.e.args[0]) && !ByKey(p.e)
  }

  /** What a call of `matches` is given as its pattern. */
  function PatternArg(e: Expr): Option<Expr>
    requires e.Call?
  {
    if e.target.Some? && |e.args| > 0 then Some(e.args[0])
    else if e.target.None? && |e.args| > 1 then Some(e.args[1])
    else None
  }

  predicate UsesPattern(p: Place, pattern: string) {
    p.e.Call? && p.e.fn == "matches" && PatternArg(p.e) == Some(Const(Str(pattern)))
  }

  // ---- What is wrong with a place ---------------------------------------------------------------------------------

  predicate HasField(k: Kind, name: string) {
    name in {"description", "tags", "properties"} || (if k == Edge then name == "label" else name in {"title", "type"})
  }

  /** The field is one the record has: every kind's, or some kind's where the rule named none. */
  predicate FieldKnown(scope: Scope, name: string) {
    if scope.implicit then exists k :: k in scope.kinds && HasField(k, name)
    else forall k :: k in scope.kinds ==> HasField(k, name)
  }

  predicate Known(fn: string, funcs: set<string>) {
    fn in {"_&&_", "_||_", "_?_:_", "_[_]", "@not_strictly_false"} || fn in funcs
  }

  ghost predicate Fits(p: Place, scope: Scope, funcs: set<string>) {
    && !p.e.Unknown?
    && (p.e.Ident? ==> p.e.name in p.bound || p.e.name in TYPE_IDENTS || p.e.name == "self")
    && (forall name :: NamesField(p, name) ==> name != "from" && name != "to" && FieldKnown(scope, name))
    && (scope.declared.Some? ==>
          !ComputesProperty(p) && forall name :: NamesProperty(p, name) ==> name in scope.declared.value)
    && (p.e.Call? ==> Known(p.e.fn, funcs))
    && (p.e.Call? && p.e.fn == "matches" ==> exists pattern :: UsesPattern(p, pattern))
    && (p.e.Comprehension? ==> p.depth == 0)
  }

  /** The kind has every field the rule names. */
  ghost predicate HasAllFields(k: Kind, e: Expr) {
    forall p, name :: p in PlacesOf(e) && NamesField(p, name) ==> HasField(k, name)
  }

  ghost predicate Acceptable(e: Expr, scope: Scope, funcs: set<string>) {
    && |PlacesOf(e)| <= 200
    && (forall p :: p in PlacesOf(e) ==> Fits(p, scope, funcs))
    && (scope.implicit ==> exists k :: k in scope.kinds && HasAllFields(k, e))
  }

  // ---- The walk meets what its places come to ---------------------------------------------------------------------

  /** What the visit of one node meets. */
  function At(p: Place, funcs: set<string>): seq<Event> {
    match p.e
    case Ident(name) =>
      if name in p.bound || name in TYPE_IDENTS then []
      else if name == "self" then (if p.taken then [] else [ReadsWhole])
      else [Wrong(NotAVariable(name))]
    case Select(operand, field, testOnly) =>
      if Record(operand) then [ReadsField(field, testOnly, p.taken)]
      else if Properties(operand) then [ReadsProperty(field, testOnly)]
      else []
    case Call(_, _, args) =>
      if !ByKey(p.e) then CallEvents(p.e, funcs)
      else if Record(args[0]) then [ReadsField(args[1].lit.s, false, false)]
      else [ReadsProperty(args[1].lit.s, false)]
    case Comprehension(_, _, _, _, _, _, _, _) => if p.depth > 0 then [Wrong(LoopInLoop)] else []
    case Unknown => [Wrong(NotAnExpression)]
    case Const(_) => []
    case ListOf(_) => []
    case StructOf(_, _) => []
  }

  ghost predicate Met(ps: seq<Place>, ev: Event, funcs: set<string>) {
    exists p :: p in ps && ev in At(p, funcs)
  }

  lemma MetJoined(a: seq<Place>, b: seq<Place>, ev: Event, funcs: set<string>)
    ensures Met(a + b, ev, funcs) <==> Met(a, ev, funcs) || Met(b, ev, funcs)
  {
    hide At;
    if Met(a, ev, funcs) {
      var p :| p in a && ev in At(p, funcs);
      assert p in a + b;
    }
    if Met(b, ev, funcs) {
      var p :| p in b && ev in At(p, funcs);
      assert p in a + b;
    }
  }

  lemma MetFirst(p: Place, rest: seq<Place>, ev: Event, funcs: set<string>)
    ensures Met([p] + rest, ev, funcs) <==> ev in At(p, funcs) || Met(rest, ev, funcs)
  {
    hide At;
    MetJoined([p], rest, ev, funcs);
    assert p in [p];
  }

  lemma {:induction false} WalkMeets(e: Expr, bound: seq<string>, depth: nat, taken: bool, funcs: set<string>,
      ev: Event)
    requires Parsed(e)
    ensures ev in Walk(e, bound, depth, taken, funcs) <==> Met(Places(e, bound, depth, taken), ev, funcs)
    decreases e, 2
  {
    hide Met;
    var p := Place(e, bound, depth, taken);
    MetFirst(p, Below(e, bound, depth), ev, funcs);
    match e
    case Select(operand, _, _) =>
      WalkMeets(operand, bound, depth, Record(operand) || Properties(operand), funcs, ev);
    case Call(_, _, _) => CallMeets(e, bound, depth, taken, funcs, ev);
    case ListOf(elements) => WalksMeet(elements, bound, depth, funcs, ev);
    case StructOf(keys, values) =>
      EntriesMeet(e, 0, bound, depth, funcs, ev);
      assert values[0..] == values && (keys != [] ==> keys[0..] == keys);
      MetJoined(AllPlaces(keys, bound, depth), AllPlaces(values, bound, depth), ev, funcs);
    case Comprehension(_, _, _, _, _, _, _, _) => LoopMeets(e, bound, depth, taken, funcs, ev);
    case _ => NoneMet(ev, funcs);
  }

  lemma NoneMet(ev: Event, funcs: set<string>)
    ensures !Met([], ev, funcs)
  {
  }

  lemma CallMeets(e: Expr, bound: seq<string>, depth: nat, taken: bool, funcs: set<string>, ev: Event)
    requires e.Call? && Parsed(e)
    ensures ev in Walk(e, bound, depth, taken, funcs)
            <==> ev in At(Place(e, bound, depth, taken), funcs) || Met(Below(e, bound, depth), ev, funcs)
    decreases e, 1
  {
    hide Met, CallEvents;
    if ByKey(e) {
      var key := Place(e.args[1], bound, depth, false);
      ParsedAt(e.args, 0);
      WalkMeets(e.args[0], bound, depth, true, funcs, ev);
      assert Places(e.args[1], bound, depth, false) == [key] + [];
      assert At(key, funcs) == [];
      MetFirst(key, [], ev, funcs);
      NoneMet(ev, funcs);
      MetJoined(Places(e.args[0], bound, depth, true), Places(e.args[1], bound, depth, false), ev, funcs);
    } else {
      var target := if e.target.Some? then Places(e.target.value, bound, depth, false) else [];
      if e.target.Some? {
        WalkMeets(e.target.value, bound, depth, false, funcs, ev);
      } else {
        NoneMet(ev, funcs);
      }
      WalksMeet(e.args, bound, depth, funcs, ev);
      MetJoined(target, AllPlaces(e.args, bound, depth), ev, funcs);
    }
  }

  lemma LoopMeets(e: Expr, bound: seq<string>, depth: nat, taken: bool, funcs: set<string>, ev: Event)
    requires e.Comprehension? && Parsed(e)
    ensures ev in Walk(e, bound, depth, taken, funcs)
            <==> ev in At(Place(e, bound, depth, taken), funcs) || Met(Below(e, bound, depth), ev, funcs)
    decreases e, 1
  {
    var inner := bound + LoopVars(e);
    LoopWalk(e, bound, depth, taken, funcs);
    WalkMeets(e.iterRange, bound, depth, false, funcs, ev);
    WalkMeets(e.accuInit, bound, depth, false, funcs, ev);
    WalkMeets(e.loopCondition, inner, depth + 1, false, funcs, ev);
    WalkMeets(e.loopStep, inner, depth + 1, false, funcs, ev);
    WalkMeets(e.result, inner, depth, false, funcs, ev);
    var a, b := Places(e.iterRange, bound, depth, false), Places(e.accuInit, bound, depth, false);
    var c, d := Places(e.loopCondition, inner, depth + 1, false), Places(e.loopStep, inner, depth + 1, false);
    var r := Places(e.result, inner, depth, false);
    assert Below(e, bound, depth) == a + b + c + d + r;
    hide Walk, Met, Places, Below;
    MetJoined(a, b, ev, funcs);
    MetJoined(a + b, c, ev, funcs);
    MetJoined(a + b + c, d, ev, funcs);
    MetJoined(a + b + c + d, r, ev, funcs);
  }

  lemma {:induction false} WalksMeet(es: seq<Expr>, bound: seq<string>, depth: nat, funcs: set<string>, ev: Event)
    requires AllParsed(es)
    ensures ev in Walks(es, bound, depth, funcs) <==> Met(AllPlaces(es, bound, depth), ev, funcs)
    decreases es, 0
  {
    hide Met, At;
    if es == [] {
      NoneMet(ev, funcs);
    } else {
      WalkMeets(es[0], bound, depth, false, funcs, ev);
      WalksMeet(es[1..], bound, depth, funcs, ev);
      MetJoined(Places(es[0], bound, depth, false), AllPlaces(es[1..], bound, depth), ev, funcs);
    }
  }

  lemma {:induction false} EntriesMeet(e: Expr, i: nat, bound: seq<string>, depth: nat, funcs: set<string>, ev: Event)
    requires e.StructOf? && Parsed(e) && i <= |e.values|
    ensures ev in WalkEntries(e, i, bound, depth, funcs)
            <==> Met(AllPlaces(KeysFrom(e, i), bound, depth), ev, funcs)
                 || Met(AllPlaces(e.values[i..], bound, depth), ev, funcs)
    decreases e, 1, |e.values| - i
  {
    hide Met, At, Walk, Places;
    NoneMet(ev, funcs);
    if i < |e.values| {
      StructIsParsed(e, i);
      EntriesMeet(e, i + 1, bound, depth, funcs, ev);
      WalkMeets(e.values[i], bound, depth, false, funcs, ev);
      assert e.values[i..][1..] == e.values[i + 1..];
      MetJoined(Places(e.values[i], bound, depth, false), AllPlaces(e.values[i + 1..], bound, depth), ev, funcs);
      if e.keys != [] {
        WalkMeets(e.keys[i], bound, depth, false, funcs, ev);
        assert e.keys[i..][1..] == e.keys[i + 1..];
        MetJoined(Places(e.keys[i], bound, depth, false), AllPlaces(KeysFrom(e, i + 1), bound, depth), ev, funcs);
      }
    }
  }

  lemma {:induction false} PlacesAreNodes(e: Expr, bound: seq<string>, depth: nat, taken: bool)
    requires Parsed(e)
    ensures |Places(e, bound, depth, taken)| == Nodes(e)
    decreases e, 1
  {
    match e
    case Select(operand, _, _) => PlacesAreNodes(operand, bound, depth, Record(operand) || Properties(operand));
    case Call(_, target, args) =>
      AllPlacesAreNodes(args, bound, depth);
      if ByKey(e) {
        ParsedAt(args, 0);
        ParsedAt(args, 1);
        TwoCounted(args, 1, bound);
        PlacesAreNodes(args[0], bound, depth, true);
        PlacesAreNodes(args[1], bound, depth, false);
      } else if target.Some? {
        PlacesAreNodes(target.value, bound, depth, false);
      }
    case ListOf(elements) => AllPlacesAreNodes(elements, bound, depth);
    case StructOf(keys, values) =>
      AllPlacesAreNodes(keys, bound, depth);
      AllPlacesAreNodes(values, bound, depth);
    case Comprehension(_, _, _, iterRange, accuInit, loopCondition, loopStep, result) =>
      var inner := bound + LoopVars(e);
      PlacesAreNodes(iterRange, bound, depth, false);
      PlacesAreNodes(accuInit, bound, depth, false);
      PlacesAreNodes(loopCondition, inner, depth + 1, false);
      PlacesAreNodes(loopStep, inner, depth + 1, false);
      PlacesAreNodes(result, inner, depth, false);
    case _ =>
  }

  lemma {:induction false} AllPlacesAreNodes(es: seq<Expr>, bound: seq<string>, depth: nat)
    requires AllParsed(es)
    ensures |AllPlaces(es, bound, depth)| == AllNodes(es)
    decreases es, 0
  {
    if es != [] {
      PlacesAreNodes(es[0], bound, depth, false);
      AllPlacesAreNodes(es[1..], bound, depth);
    }
  }

  // ---- What is accepted -------------------------------------------------------------------------------------------

  lemma FieldIs(k: Kind, name: string)
    ensures HasField(k, name) <==> name in ViewFields(k)
  {
  }

  lemma KnownIs(scope: Scope, name: string)
    ensures Governs(scope, name) <==> FieldKnown(scope, name)
  {
    forall k ensures HasField(k, name) <==> name in ViewFields(k) { FieldIs(k, name); }
    hide HasField, ViewFields;
  }

  /** A place fits exactly when all it meets is clean. */
  lemma PlaceIsClean(p: Place, scope: Scope, funcs: set<string>)
    ensures Fits(p, scope, funcs) <==> forall ev :: ev in At(p, funcs) ==> Clean(ev, scope)
  {
    hide Governs, FieldKnown, TYPE_IDENTS;
    match p.e
    case Call(_, _, _) => CallIsClean(p, scope, funcs);
    case Select(_, _, _) => SelectIsClean(p, scope, funcs);
    case Ident(name) =>
      assert forall name :: !NamesField(p, name) && !NamesProperty(p, name);
      if At(p, funcs) != [] {
        assert At(p, funcs)[0] in At(p, funcs);
      }
    case Comprehension(_, _, _, _, _, _, _, _) =>
      assert forall name :: !NamesField(p, name) && !NamesProperty(p, name);
      if p.depth > 0 {
        assert Wrong(LoopInLoop) in At(p, funcs);
      }
    case Unknown =>
      assert Wrong(NotAnExpression) in At(p, funcs);
    case _ =>
      assert forall name :: !NamesField(p, name) && !NamesProperty(p, name);
  }

  lemma SelectIsClean(p: Place, scope: Scope, funcs: set<string>)
    requires p.e.Select?
    ensures Fits(p, scope, funcs) <==> forall ev :: ev in At(p, funcs) ==> Clean(ev, scope)
  {
    var field := p.e.field;
    KnownIs(scope, field);
    hide Governs, FieldKnown, Known;
    if Record(p.e.operand) {
      assert NamesField(p, field);
      assert ReadsField(field, p.e.testOnly, p.taken) in At(p, funcs);
    } else if Properties(p.e.operand) {
      assert NamesProperty(p, field);
      assert ReadsProperty(field, p.e.testOnly) in At(p, funcs);
    }
  }

  lemma CallIsClean(p: Place, scope: Scope, funcs: set<string>)
    requires p.e.Call?
    ensures Fits(p, scope, funcs) <==> forall ev :: ev in At(p, funcs) ==> Clean(ev, scope)
  {
    if ByKey(p.e) {
      var key := p.e.args[1].lit.s;
      KnownIs(scope, key);
      hide Governs, FieldKnown;
      if Record(p.e.args[0]) {
        assert NamesField(p, key);
        assert ReadsField(key, false, false) in At(p, funcs);
      } else {
        assert NamesProperty(p, key);
        assert ReadsProperty(key, false) in At(p, funcs);
      }
    } else {
      if p.e.fn == "matches" {
        PatternIs(p);
      }
      CallEventsClean(p.e, scope, funcs);
      hide Governs, FieldKnown, CallEvents, Clean, PatternEvent, UsesPattern, Known;
      assert forall name :: !NamesField(p, name) && !NamesProperty(p, name);
    }
  }

  lemma PatternIs(p: Place)
    requires p.e.Call? && p.e.fn == "matches"
    ensures PatternEvent(p.e).HasPattern? <==> exists pattern :: UsesPattern(p, pattern)
    ensures forall pattern :: UsesPattern(p, pattern) <==> PatternEvent(p.e) == HasPattern(pattern)
  {
    if PatternEvent(p.e).HasPattern? {
      assert UsesPattern(p, PatternEvent(p.e).pattern);
    }
  }

  lemma CallEventsClean(e: Expr, scope: Scope, funcs: set<string>)
    requires e.Call?
    ensures (forall ev :: ev in CallEvents(e, funcs) ==> Clean(ev, scope))
            <==> && (e.fn == "_[_]" && |e.args| == 2 && IsSelfProperties(e.args[0]) ==> scope.declared.None?)
                 && Known(e.fn, funcs)
                 && (e.fn == "matches" ==> PatternEvent(e).HasPattern?)
  {
    var evs := CallEvents(e, funcs);
    hide PatternEvent;
    assert e.fn == "_[_]" && |e.args| == 2 && IsSelfProperties(e.args[0]) ==> ReadsComputed in evs;
    assert !Known(e.fn, funcs) ==> Wrong(NotAFunction(e.fn)) in evs;
    assert e.fn == "matches" ==> PatternEvent(e) in evs;
    PatternOrProblem(e);
  }

  lemma PatternOrProblem(e: Expr)
    requires e.Call?
    ensures PatternEvent(e).HasPattern? || PatternEvent(e) == Wrong(PatternNotWritten)
  {
  }

  /** What the root's walk meets is what its places come to. */
  lemma RootMeets(e: Expr, funcs: set<string>, ev: Event)
    requires Parsed(e)
    ensures ev in Walk(e, [], 0, false, funcs) <==> exists p :: p in PlacesOf(e) && ev in At(p, funcs)
  {
    WalkMeets(e, [], 0, false, funcs, ev);
  }

  lemma AllFit(e: Expr, scope: Scope, funcs: set<string>)
    requires Parsed(e)
    ensures AllClean(Walk(e, [], 0, false, funcs), scope) <==> forall p :: p in PlacesOf(e) ==> Fits(p, scope, funcs)
  {
    var evs := Walk(e, [], 0, false, funcs);
    forall p ensures Fits(p, scope, funcs) <==> forall ev :: ev in At(p, funcs) ==> Clean(ev, scope) {
      PlaceIsClean(p, scope, funcs);
    }
    forall ev ensures ev in evs <==> exists p :: p in PlacesOf(e) && ev in At(p, funcs) {
      RootMeets(e, funcs, ev);
    }
    hide Walk, PlacesOf, At, Fits, Clean;
    if AllClean(evs, scope) {
      forall p, ev | p in PlacesOf(e) && ev in At(p, funcs) ensures Clean(ev, scope) {
        assert ev in evs;
      }
    }
    if forall p :: p in PlacesOf(e) ==> Fits(p, scope, funcs) {
      forall i | 0 <= i < |evs| ensures Clean(evs[i], scope) {
        assert evs[i] in evs;
      }
    }
  }

  ghost predicate ValueRead(evs: seq<Event>, name: string) {
    exists consumed :: ReadsField(name, false, consumed) in evs && !(name == "properties" && consumed)
  }

  lemma FieldsMet(p: Place, name: string, funcs: set<string>)
    ensures NamesField(p, name)
            <==> exists testOnly, consumed :: ReadsField(name, testOnly, consumed) in At(p, funcs)
    ensures ReadsFieldValue(p, name) <==> ValueRead(At(p, funcs), name)
  {
    hide TYPE_IDENTS;
    if NamesField(p, name) {
      if p.e.Select? {
        assert ReadsField(name, p.e.testOnly, p.taken) in At(p, funcs);
      } else {
        assert ReadsField(name, false, false) in At(p, funcs);
      }
    }
  }

  lemma OthersMet(p: Place, name: string, funcs: set<string>)
    ensures ReadsPropertyValue(p, name) <==> ReadsProperty(name, false) in At(p, funcs)
    ensures TestsProperty(p, name) <==> ReadsProperty(name, true) in At(p, funcs)
    ensures ReadsRecord(p) <==> ReadsWhole in At(p, funcs)
  {
    RuleBody.SelfIsNoType();
    hide TYPE_IDENTS;
  }

  lemma PatternsMet(p: Place, pattern: string, funcs: set<string>)
    ensures UsesPattern(p, pattern) <==> HasPattern(pattern) in At(p, funcs)
  {
    hide TYPE_IDENTS;
    if p.e.Call? && p.e.fn == "matches" {
      PatternIs(p);
      hide PatternEvent, UsesPattern;
    }
  }

  lemma KindHasAll(e: Expr, k: Kind, funcs: set<string>)
    requires Parsed(e)
    ensures HasFields(k, Walk(e, [], 0, false, funcs)) <==> HasAllFields(k, e)
  {
    var evs := Walk(e, [], 0, false, funcs);
    forall name ensures HasField(k, name) <==> name in ViewFields(k) { FieldIs(k, name); }
    forall p, name
      ensures NamesField(p, name)
              <==> exists testOnly, consumed :: ReadsField(name, testOnly, consumed) in At(p, funcs)
    {
      FieldsMet(p, name, funcs);
    }
    forall ev ensures ev in evs <==> exists p :: p in PlacesOf(e) && ev in At(p, funcs) {
      RootMeets(e, funcs, ev);
    }
    hide Walk, PlacesOf, At, NamesField, HasField, ViewFields;
    if HasFields(k, evs) {
      forall p, name | p in PlacesOf(e) && NamesField(p, name) ensures HasField(k, name) {
        var testOnly, consumed :| ReadsField(name, testOnly, consumed) in At(p, funcs);
        assert ReadsField(name, testOnly, consumed) in evs;
      }
    }
    if HasAllFields(k, e) {
      forall i | 0 <= i < |evs| && evs[i].ReadsField? ensures evs[i].name in ViewFields(k) {
        assert evs[i] in evs;
        var p :| p in PlacesOf(e) && evs[i] in At(p, funcs);
        assert evs[i] == ReadsField(evs[i].name, evs[i].testOnly, evs[i].consumed);
        assert NamesField(p, evs[i].name);
      }
    }
  }

  /**
   * A rule is accepted exactly when it has at most two hundred nodes, every one of them fits the kinds and the type it
   * is checked for, and, where it names no kinds, some kind has all it reads.
   */
  lemma AcceptsExactly(e: Expr, scope: Scope, funcs: set<string>)
    requires Parsed(e) && scope.kinds != []
    ensures Accepted(Analysed(e, scope, funcs)) <==> Acceptable(e, scope, funcs)
  {
    AnalysedIs(e, scope, funcs);
    PlacesAreNodes(e, [], 0, false);
    AllFit(e, scope, funcs);
    forall k ensures HasFields(k, Walk(e, [], 0, false, funcs)) <==> HasAllFields(k, e) { KindHasAll(e, k, funcs); }
    assert |PlacesOf(e)| == Nodes(e);
    hide Walk, PlacesOf, Places, HasFields, HasAllFields, AllClean, Fits, Analysed, Nodes;
  }

  /** What a list of events reads, event by event. */
  lemma {:induction false} ReadAllIs(refs: Refs, evs: seq<Event>)
    ensures var r := ReadAll(refs, evs);
            && (r.whole <==> refs.whole || ReadsWhole in evs)
            && (forall name :: name in r.fields <==> name in refs.fields || ValueRead(evs, name))
            && (forall name :: name in r.props <==> name in refs.props || ReadsProperty(name, false) in evs)
            && (forall name :: name in r.presence <==> name in refs.presence || ReadsProperty(name, true) in evs)
    decreases |evs|
  {
    if evs != [] {
      var ev, rest := evs[0], evs[1..];
      assert forall x :: x in evs <==> x == ev || x in rest by { assert evs == [ev] + rest; }
      ReadAllIs(Read(refs, ev), rest);
    }
  }

  lemma {:induction false} PatternsAre(evs: seq<Event>, pattern: string)
    ensures pattern in Patterns(evs) <==> HasPattern(pattern) in evs
  {
    if evs != [] {
      PatternsAre(evs[1..], pattern);
      assert forall x :: x in evs <==> x == evs[0] || x in evs[1..] by { assert evs == [evs[0]] + evs[1..]; }
    }
  }

  /**
   * What the analysis of an accepted rule finds is what the rule's nodes read, and no more: the record whole, the
   * fields and the properties whose value is read, the properties tested for, the patterns, and the kinds that have all
   * of it.
   */
  lemma FindsExactly(e: Expr, scope: Scope, funcs: set<string>)
    requires Parsed(e) && scope.kinds != [] && Accepted(Analysed(e, scope, funcs))
    ensures var f := Analysed(e, scope, funcs);
            && (f.refs.whole <==> exists p :: p in PlacesOf(e) && ReadsRecord(p))
            && (forall name :: name in f.refs.fields <==> exists p :: p in PlacesOf(e) && ReadsFieldValue(p, name))
            && (forall name :: name in f.refs.props <==> exists p :: p in PlacesOf(e) && ReadsPropertyValue(p, name))
            && (forall name :: name in f.refs.presence <==> exists p :: p in PlacesOf(e) && TestsProperty(p, name))
            && (forall s :: s in f.patterns <==> exists p :: p in PlacesOf(e) && UsesPattern(p, s))
            && (forall k :: k in f.kinds <==> k in scope.kinds && (scope.implicit ==> HasAllFields(k, e)))
  {
    var evs := Walk(e, [], 0, false, funcs);
    AnalysedIs(e, scope, funcs);
    ReadAllIs(Refs(false, {}, {}, {}), evs);
    forall k ensures HasFields(k, evs) <==> HasAllFields(k, e) { KindHasAll(e, k, funcs); }
    forall s
      ensures s in Patterns(evs) <==> exists p :: p in PlacesOf(e) && UsesPattern(p, s)
    {
      PatternsAre(evs, s);
      PatternFound(e, s, funcs);
    }
    RefsFound(e, funcs);
    hide Walk, PlacesOf, Analysed, HasFields, HasAllFields, AllClean, Patterns, ReadAll, ReadsRecord, ReadsFieldValue,
      ReadsPropertyValue, TestsProperty, UsesPattern;
  }

  lemma RefsFound(e: Expr, funcs: set<string>)
    requires Parsed(e)
    ensures var refs := ReadAll(Refs(false, {}, {}, {}), Walk(e, [], 0, false, funcs));
            && (refs.whole <==> exists p :: p in PlacesOf(e) && ReadsRecord(p))
            && (forall name :: name in refs.fields <==> exists p :: p in PlacesOf(e) && ReadsFieldValue(p, name))
            && (forall name :: name in refs.props <==> exists p :: p in PlacesOf(e) && ReadsPropertyValue(p, name))
            && (forall name :: name in refs.presence <==> exists p :: p in PlacesOf(e) && TestsProperty(p, name))
  {
    var evs := Walk(e, [], 0, false, funcs);
    var refs := ReadAll(Refs(false, {}, {}, {}), evs);
    ReadAllIs(Refs(false, {}, {}, {}), evs);
    hide Walk, PlacesOf, ReadAll, ReadsRecord, ReadsFieldValue, ReadsPropertyValue, TestsProperty, ValueRead;
    ReadsFound(e, "", funcs);
    forall name
      ensures name in refs.fields <==> exists p :: p in PlacesOf(e) && ReadsFieldValue(p, name)
      ensures name in refs.props <==> exists p :: p in PlacesOf(e) && ReadsPropertyValue(p, name)
      ensures name in refs.presence <==> exists p :: p in PlacesOf(e) && TestsProperty(p, name)
    {
      ReadsFound(e, name, funcs);
    }
  }

  lemma PatternFound(e: Expr, s: string, funcs: set<string>)
    requires Parsed(e)
    ensures HasPattern(s) in Walk(e, [], 0, false, funcs) <==> exists p :: p in PlacesOf(e) && UsesPattern(p, s)
  {
    RootMeets(e, funcs, HasPattern(s));
    forall p ensures UsesPattern(p, s) <==> HasPattern(s) in At(p, funcs) { PatternsMet(p, s, funcs); }
    hide Walk, PlacesOf, At, UsesPattern;
  }

  lemma ReadsFound(e: Expr, name: string, funcs: set<string>)
    requires Parsed(e)
    ensures var evs := Walk(e, [], 0, false, funcs);
            && (ReadsWhole in evs <==> exists p :: p in PlacesOf(e) && ReadsRecord(p))
            && (ReadsProperty(name, false) in evs <==> exists p :: p in PlacesOf(e) && ReadsPropertyValue(p, name))
            && (ReadsProperty(name, true) in evs <==> exists p :: p in PlacesOf(e) && TestsProperty(p, name))
            && (ValueRead(evs, name) <==> exists p :: p in PlacesOf(e) && ReadsFieldValue(p, name))
  {
    forall ev ensures ev in Walk(e, [], 0, false, funcs) <==> exists p :: p in PlacesOf(e) && ev in At(p, funcs) {
      RootMeets(e, funcs, ev);
    }
    forall p
      ensures ReadsPropertyValue(p, name) <==> ReadsProperty(name, false) in At(p, funcs)
      ensures TestsProperty(p, name) <==> ReadsProperty(name, true) in At(p, funcs)
      ensures ReadsRecord(p) <==> ReadsWhole in At(p, funcs)
      ensures ReadsFieldValue(p, name) <==> ValueRead(At(p, funcs), name)
    {
      FieldsMet(p, name, funcs);
      OthersMet(p, name, funcs);
    }
    hide Walk, PlacesOf, At, ReadsRecord, ReadsFieldValue, ReadsPropertyValue, TestsProperty;
  }

  // ---- What a rule is told ----------------------------------------------------------------------------------------

  /** The first of the kinds that lacks the field. */
  predicate FirstLacking(kinds: seq<Kind>, name: string, k: Kind) {
    exists i :: 0 <= i < |kinds| && FirstAt(kinds, name, k, i)
  }

  predicate FirstAt(kinds: seq<Kind>, name: string, k: Kind, i: int) {
    && 0 <= i < |kinds| && kinds[i] == k && !HasField(k, name)
    && forall j :: 0 <= j < i ==> HasField(kinds[j], name)
  }

  function HowManyLack(kinds: seq<Kind>, name: string): nat { |set i: nat | i < |kinds| && !HasField(kinds[i], name)| }

  /** What is wrong with a place, if this is. */
  ghost predicate Tells(p: Place, q: Problem, scope: Scope, funcs: set<string>) {
    match q
    case ReadsAnEnd(name) => NamesField(p, name) && (name == "from" || name == "to")
    case NotAField(name, k, every) =>
      && NamesField(p, name) && name != "from" && name != "to" && !FieldKnown(scope, name)
      && FirstLacking(scope.kinds, name, k) && (every <==> HowManyLack(scope.kinds, name) == 4)
    case NotDeclared(name) => scope.declared.Some? && NamesProperty(p, name) && name !in scope.declared.value
    case NotAVariable(name) => p.e == Ident(name) && name !in p.bound && name !in TYPE_IDENTS && name != "self"
    case ComputedProperty => scope.declared.Some? && ComputesProperty(p)
    case NotAFunction(fn) => p.e.Call? && p.e.fn == fn && !Known(fn, funcs)
    case PatternNotWritten => p.e.Call? && p.e.fn == "matches" && !exists pattern :: UsesPattern(p, pattern)
    case LoopInLoop => p.e.Comprehension? && p.depth > 0
    case NotAnExpression => p.e.Unknown?
    case TooComplex(_) => false
    case NoOneKind => false
  }

  /** What is wrong with the rule as a whole, if this is. */
  ghost predicate IsProblem(e: Expr, q: Problem, scope: Scope, funcs: set<string>) {
    || (exists p :: p in PlacesOf(e) && Tells(p, q, scope, funcs))
    || (q == TooComplex(|PlacesOf(e)|) && |PlacesOf(e)| > 200)
    || (q == NoOneKind && scope.implicit && |PlacesOf(e)| <= 200
        && (forall p :: p in PlacesOf(e) ==> Fits(p, scope, funcs))
        && forall k :: k in scope.kinds ==> !HasAllFields(k, e))
  }

  /** The problem an event comes to. */
  function ProblemOf(ev: Event, scope: Scope): Option<Problem> {
    match ev
    case Wrong(q) => Option.Some(q)
    case ReadsField(name, _, _) =>
      var lacking := Lacking(scope.kinds, name);
      if name == "from" || name == "to" then Option.Some(ReadsAnEnd(name))
      else if (scope.implicit && |lacking| < |scope.kinds|) || lacking == [] then None
      else Option.Some(NotAField(name, lacking[0], |lacking| == |ALL_KINDS|))
    case ReadsProperty(name, _) =>
      if scope.declared.Some? && name !in scope.declared.value then Option.Some(NotDeclared(name)) else None
    case ReadsComputed => if scope.declared.Some? then Option.Some(ComputedProperty) else None
    case _ => None
  }

  predicate Distinct(qs: seq<Problem>) { forall i, j :: 0 <= i < j < |qs| ==> qs[i] != qs[j] }

  lemma ToldOne(f: Findings, ev: Event, scope: Scope)
    ensures var g, q := Note(f, ev, scope), ProblemOf(ev, scope);
            g.problems == if q.None? then f.problems else Told(f, q.value).problems
  {
  }

  lemma ToldIs(f: Findings, q: Problem)
    requires |f.problems| <= 5 && Distinct(f.problems)
    ensures var g := Told(f, q).problems;
            && |g| <= 5 && Distinct(g) && |f.problems| <= |g| && (|g| < 5 ==> q in g)
            && (forall r :: r in f.problems ==> r in g) && (forall r :: r in g ==> r == q || r in f.problems)
  {
  }

  lemma {:induction false} ToldAll(f: Findings, evs: seq<Event>, scope: Scope)
    requires |f.problems| <= 5 && Distinct(f.problems)
    ensures var g := NoteAll(f, evs, scope).problems;
            && |g| <= 5 && Distinct(g) && |f.problems| <= |g|
            && (forall r :: r in f.problems ==> r in g)
            && (forall r :: r in g ==>
                  r in f.problems || exists ev :: ev in evs && ProblemOf(ev, scope) == Option.Some(r))
            && (|g| < 5 ==> forall ev :: ev in evs && ProblemOf(ev, scope).Some? ==> ProblemOf(ev, scope).value in g)
    decreases |evs|
  {
    if evs != [] {
      var ev, rest := evs[0], evs[1..];
      assert forall x :: x in evs <==> x == ev || x in rest by { assert evs == [ev] + rest; }
      var f1 := Note(f, ev, scope);
      ToldOne(f, ev, scope);
      var q := ProblemOf(ev, scope);
      if q.Some? {
        ToldIs(f, q.value);
      }
      assert q == ProblemOf(ev, scope);
      hide Note, ProblemOf, Told, Distinct;
      ToldAll(f1, rest, scope);
    }
  }

  lemma {:induction false} LackingLast(kinds: seq<Kind>, k: Kind, name: string)
    ensures Lacking(kinds + [k], name) == Lacking(kinds, name) + if HasField(k, name) then [] else [k]
  {
    FieldIs(k, name);
    hide HasField, ViewFields;
    if kinds == [] {
      assert [] + [k] == [k] && [k][1..] == [];
    } else {
      LackingLast(kinds[1..], k, name);
      assert (kinds + [k])[1..] == kinds[1..] + [k];
    }
  }

  lemma HowManyLast(kinds: seq<Kind>, k: Kind, name: string)
    ensures HowManyLack(kinds + [k], name) == HowManyLack(kinds, name) + if HasField(k, name) then 0 else 1
  {
    hide HasField;
    var some := set i: nat | i < |kinds| && !HasField(kinds[i], name);
    var more := set i: nat | i < |kinds + [k]| && !HasField((kinds + [k])[i], name);
    assert more == some + if HasField(k, name) then {} else {|kinds|};
  }

  lemma FirstStays(kinds: seq<Kind>, last: Kind, name: string, k: Kind)
    requires FirstLacking(kinds, name, k)
             || (k == last && !HasField(k, name) && forall j :: j in kinds ==> HasField(j, name))
    ensures FirstLacking(kinds + [last], name, k)
  {
    var all := kinds + [last];
    if FirstLacking(kinds, name, k) {
      var i :| 0 <= i < |kinds| && FirstAt(kinds, name, k, i);
      assert all[i] == k && forall j :: 0 <= j < i ==> HasField(all[j], name);
      assert FirstAt(all, name, k, i);
    } else {
      assert all[|kinds|] == k && forall j :: 0 <= j < |kinds| ==> HasField(all[j], name);
      assert FirstAt(all, name, k, |kinds|);
    }
  }

  lemma NoneLack(name: string)
    ensures HowManyLack([], name) == 0
  {
    hide HasField;
    var kinds: seq<Kind> := [];
    assert |kinds| == 0;
  }

  lemma {:induction false} LackingIs(kinds: seq<Kind>, name: string)
    ensures |Lacking(kinds, name)| == HowManyLack(kinds, name)
    ensures Lacking(kinds, name) != [] ==> FirstLacking(kinds, name, Lacking(kinds, name)[0])
    ensures Lacking(kinds, name) == [] <==> forall k :: k in kinds ==> HasField(k, name)
    decreases |kinds|
  {
    if kinds == [] {
      NoneLack(name);
    } else {
      hide HasField, Lacking, HowManyLack, FirstLacking;
      var init, last := kinds[..|kinds| - 1], kinds[|kinds| - 1];
      assert kinds == init + [last];
      LackingIs(init, name);
      LackingLast(init, last, name);
      HowManyLast(init, last, name);
      if Lacking(kinds, name) != [] {
        FirstStays(init, last, name, Lacking(kinds, name)[0]);
      }
    }
  }

  /** What an event tells is what its place tells. */
  lemma FieldTells(scope: Scope, name: string, testOnly: bool, consumed: bool, q: Problem)
    requires scope.kinds != []
    ensures ProblemOf(ReadsField(name, testOnly, consumed), scope) == Option.Some(q)
            ==> (if name == "from" || name == "to" then q == ReadsAnEnd(name)
                 else
                   && q.NotAField? && q.name == name && !FieldKnown(scope, name)
                   && FirstLacking(scope.kinds, name, q.of)
                   && (q.every <==> HowManyLack(scope.kinds, name) == 4))
    ensures name == "from" || name == "to" || !FieldKnown(scope, name)
            ==> ProblemOf(ReadsField(name, testOnly, consumed), scope).Some?
  {
    var lacking := Lacking(scope.kinds, name);
    LackingIs(scope.kinds, name);
    SomeHas(scope.kinds, name);
    hide HasField, FirstLacking, HowManyLack, Lacking;
  }

  lemma SomeHas(kinds: seq<Kind>, name: string)
    ensures |Lacking(kinds, name)| < |kinds| <==> exists k :: k in kinds && HasField(k, name)
  {
    LackingAre(kinds, name);
    forall k ensures HasField(k, name) <==> name in ViewFields(k) { FieldIs(k, name); }
    hide HasField, ViewFields, Lacking;
  }

  lemma OneIsFirst(kinds: seq<Kind>, name: string, a: Kind, b: Kind)
    requires FirstLacking(kinds, name, a) && FirstLacking(kinds, name, b)
    ensures a == b
  {
    var i :| 0 <= i < |kinds| && FirstAt(kinds, name, a, i);
    var n :| 0 <= n < |kinds| && FirstAt(kinds, name, b, n);
    assert i == n;
  }

  lemma FieldTellsOne(p: Place, name: string, testOnly: bool, consumed: bool, q: Problem, scope: Scope,
      funcs: set<string>)
    requires scope.kinds != [] && At(p, funcs) == [ReadsField(name, testOnly, consumed)]
    ensures Tells(p, q, scope, funcs) <==> ProblemOf(ReadsField(name, testOnly, consumed), scope) == Option.Some(q)
  {
    var ev := ReadsField(name, testOnly, consumed);
    FieldTells(scope, name, testOnly, consumed, q);
    FieldsMet(p, name, funcs);
    assert ev in At(p, funcs);
    assert NamesField(p, name);
    assert forall other :: NamesField(p, other) <==> other == name;
    assert q.PatternNotWritten? ==> !Tells(p, q, scope, funcs);
    if q.NotAField? && Tells(p, q, scope, funcs) {
      var r := ProblemOf(ev, scope).value;
      FieldTells(scope, name, testOnly, consumed, r);
      OneIsFirst(scope.kinds, name, q.of, r.of);
    }
    hide FieldKnown, FirstLacking, HowManyLack, ProblemOf, TYPE_IDENTS, CallEvents;
  }

  lemma CallTells(p: Place, q: Problem, scope: Scope, funcs: set<string>)
    requires p.e.Call? && !ByKey(p.e)
    ensures Tells(p, q, scope, funcs) <==> exists ev :: ev in At(p, funcs) && ProblemOf(ev, scope) == Option.Some(q)
  {
    var e := p.e;
    var evs := CallEvents(e, funcs);
    if e.fn == "matches" {
      PatternIs(p);
      PatternOrProblem(e);
    }
    hide PatternEvent, UsesPattern;
    assert forall name :: !NamesField(p, name) && !NamesProperty(p, name);
    assert forall ev :: ev in evs <==>
             || (ev == ReadsComputed && e.fn == "_[_]" && |e.args| == 2 && IsSelfProperties(e.args[0]))
             || (ev == Wrong(NotAFunction(e.fn)) && !Known(e.fn, funcs))
             || (e.fn == "matches" && ev == PatternEvent(e));
    assert ComputesProperty(p) <==> e.fn == "_[_]" && |e.args| == 2 && IsSelfProperties(e.args[0]);
    hide CallEvents, Known, ComputesProperty, IsSelfProperties;
    if Tells(p, q, scope, funcs) {
      var ev := if q.ComputedProperty? then ReadsComputed else Wrong(q);
      assert ev in At(p, funcs);
    }
  }

  /** What is wrong with a place is what its events come to. */
  lemma PlaceTells(p: Place, q: Problem, scope: Scope, funcs: set<string>)
    requires scope.kinds != []
    ensures Tells(p, q, scope, funcs) <==> exists ev :: ev in At(p, funcs) && ProblemOf(ev, scope) == Option.Some(q)
  {
    var evs := At(p, funcs);
    if p.e.Call? && !ByKey(p.e) {
      CallTells(p, q, scope, funcs);
    } else if |evs| == 1 && evs[0].ReadsField? {
      FieldTellsOne(p, evs[0].name, evs[0].testOnly, evs[0].consumed, q, scope, funcs);
      assert evs[0] in evs;
    } else {
      OtherTells(p, q, scope, funcs);
    }
  }

  lemma OtherTells(p: Place, q: Problem, scope: Scope, funcs: set<string>)
    requires p.e.Call? ==> ByKey(p.e)
    requires !(|At(p, funcs)| == 1 && At(p, funcs)[0].ReadsField?)
    ensures Tells(p, q, scope, funcs) <==> exists ev :: ev in At(p, funcs) && ProblemOf(ev, scope) == Option.Some(q)
  {
    var evs := At(p, funcs);
    hide TYPE_IDENTS, CallEvents, FieldKnown;
    assert |evs| <= 1;
    assert forall name :: !NamesField(p, name);
    if |evs| == 1 {
      assert evs[0] in evs;
    }
  }

  /**
   * Each problem told is one the rule has, none is told twice, and no more than five are; when fewer are, they are all
   * the problems it has.
   */
  lemma TellsExactly(e: Expr, scope: Scope, funcs: set<string>)
    requires Parsed(e) && scope.kinds != []
    ensures var told := Analysed(e, scope, funcs).problems;
            && |told| <= 5 && Distinct(told)
            && (forall q :: q in told ==> IsProblem(e, q, scope, funcs))
            && (|told| < 5 ==> forall q :: IsProblem(e, q, scope, funcs) ==> q in told)
  {
    var evs := Walk(e, [], 0, false, funcs);
    var f := NoteAll(Fresh(scope), evs, scope);
    PlacesAreNodes(e, [], 0, false);
    assert |PlacesOf(e)| == Nodes(e);
    FindingsAre(Fresh(scope), evs, scope);
    AllFit(e, scope, funcs);
    WalkIsTold(e, scope, funcs);
    forall k ensures HasFields(k, evs) <==> HasAllFields(k, e) { KindHasAll(e, k, funcs); }
    hide Walk, PlacesOf, Places, HasFields, HasAllFields, AllClean, Fits, Nodes, NoteAll, Distinct, Tells;
    ClosedTells(e, f, scope, funcs);
  }

  /** The walk tells what its places tell. */
  lemma WalkIsTold(e: Expr, scope: Scope, funcs: set<string>)
    requires Parsed(e) && scope.kinds != []
    ensures var told := NoteAll(Fresh(scope), Walk(e, [], 0, false, funcs), scope).problems;
            && |told| <= 5 && Distinct(told)
            && (forall q :: q in told ==> exists p :: p in PlacesOf(e) && Tells(p, q, scope, funcs))
            && (|told| < 5 ==> forall q :: (exists p :: p in PlacesOf(e) && Tells(p, q, scope, funcs)) ==> q in told)
  {
    var evs := Walk(e, [], 0, false, funcs);
    var told := NoteAll(Fresh(scope), evs, scope).problems;
    ToldAll(Fresh(scope), evs, scope);
    hide Walk, PlacesOf, NoteAll, ProblemOf, Distinct, Tells;
    forall q
      ensures q in told ==> exists p :: p in PlacesOf(e) && Tells(p, q, scope, funcs)
      ensures |told| < 5 && (exists p :: p in PlacesOf(e) && Tells(p, q, scope, funcs)) ==> q in told
    {
      WalkTells(e, q, scope, funcs);
    }
  }

  lemma WalkTells(e: Expr, q: Problem, scope: Scope, funcs: set<string>)
    requires Parsed(e) && scope.kinds != []
    ensures (exists ev :: ev in Walk(e, [], 0, false, funcs) && ProblemOf(ev, scope) == Option.Some(q))
            <==> exists p :: p in PlacesOf(e) && Tells(p, q, scope, funcs)
  {
    forall ev ensures ev in Walk(e, [], 0, false, funcs) <==> exists p :: p in PlacesOf(e) && ev in At(p, funcs) {
      RootMeets(e, funcs, ev);
    }
    forall p
      ensures Tells(p, q, scope, funcs)
              <==> exists ev :: ev in At(p, funcs) && ProblemOf(ev, scope) == Option.Some(q)
    {
      PlaceTells(p, q, scope, funcs);
    }
    hide Walk, PlacesOf, At, Tells, ProblemOf;
  }

  /** The checks after the walk. */
  lemma ClosedTells(e: Expr, f: Findings, scope: Scope, funcs: set<string>)
    requires scope.kinds != [] && |f.problems| <= 5 && Distinct(f.problems)
    requires forall q :: q in f.problems ==> exists p :: p in PlacesOf(e) && Tells(p, q, scope, funcs)
    requires |f.problems| < 5 ==>
               forall q :: (exists p :: p in PlacesOf(e) && Tells(p, q, scope, funcs)) ==> q in f.problems
    requires f.problems == [] <==> forall p :: p in PlacesOf(e) ==> Fits(p, scope, funcs)
    requires f.problems == [] ==>
               forall k :: k in f.kinds <==> k in scope.kinds && (scope.implicit ==> HasAllFields(k, e))
    ensures var told := Closed(f, |PlacesOf(e)|).problems;
            && |told| <= 5 && Distinct(told)
            && (forall q :: q in told ==> IsProblem(e, q, scope, funcs))
            && (|told| < 5 ==> forall q :: IsProblem(e, q, scope, funcs) ==> q in told)
  {
    var n := |PlacesOf(e)|;
    hide PlacesOf, Tells, Fits, HasAllFields;
    ToldIs(f, TooComplex(n));
    var g := if n > 200 then Told(f, TooComplex(n)) else f;
    assert g.kinds == f.kinds;
    ToldIs(g, NoOneKind);
    if g.kinds != [] {
      assert g.kinds[0] in g.kinds;
    }
    assert scope.kinds[0] in scope.kinds;
    if n > 200 {
      assert |g.problems| < 5 ==> TooComplex(n) in g.problems;
    }
    hide Told, Distinct;
  }
}
