/**
 * What the whole parse of a schema accepts (`schema/src/space-meta.ts`, `schema/src/rules.ts`), said of the schema
 * itself: which fields, kinds and names it may hold, what each definition must be, and how many rules, costing how
 * much, may apply to one record.
 */
module SpaceMetaAccepted {

  import opened Maybe
  import RuleAnalysis
  import opened SpaceMeta

  type Kind = RuleAnalysis.Kind

  // ---- The schema's parts -----------------------------------------------------------------------------------------

  predicate IsKind(kind: string, k: Kind) {
    match k
    case Entity => kind == "entity"
    case Fact => kind == "fact"
    case Edge => kind == "edge"
    case Chrono => kind == "chrono"
  }

  /** The schema defines the type. */
  predicate Has(m: Meta, kind: string, name: string, d: Def) {
    && m.types.Some? && m.types.value.Types? && kind in m.types.value.kinds && m.types.value.kinds[kind].Defs?
    && name in m.types.value.kinds[kind].all && m.types.value.kinds[kind].all[name] == d
  }

  function RulesOf(b: Body, m: Meta): seq<SpaceRule> {
    if "rules" in m.fields then b.spaceRules(m.fields["rules"]) else []
  }

  /** A space rule governs the kinds it names, and every kind when it names none. */
  predicate Rules(r: SpaceRule, k: Kind) { r.kinds == [] || k in r.kinds }

  /** Where the rules that govern a kind stand. */
  function Governing(rules: seq<SpaceRule>, k: Kind): set<nat> {
    set i: nat | i < |rules| && Rules(rules[i], k)
  }

  function Sum(costs: seq<nat>): nat { if costs == [] then 0 else costs[0] + Sum(costs[1..]) }

  function Share(b: Body, r: SpaceRule, k: Kind): nat { if Rules(r, k) then b.judgeSpace(r).cost else 0 }

  /** What the rules that govern a kind cost together. */
  function GoverningCost(b: Body, rules: seq<SpaceRule>, k: Kind): nat {
    Sum(seq<nat>(|rules|, i requires 0 <= i < |rules| => Share(b, rules[i], k)))
  }

  function OwnCosts(b: Body, k: Kind, doc: Doc): nat {
    var own := b.typeRules(doc);
    Sum(seq<nat>(|own|, i requires 0 <= i < |own| => b.judgeOwn(k, doc, own[i]).cost))
  }

  // ---- What is accepted -------------------------------------------------------------------------------------------

  predicate Known(key: string) {
    key in {"purpose", "usageNotes", "validationMode", "strictLinkage", "suppressEmbeddings", "whenDuePasses",
            "stampSkew", "rules"}
  }

  ghost predicate DefAcceptable(b: Body, k: Kind, name: string, d: Def) {
    && 1 <= |name| <= 200 && name !in {"__proto__", "constructor", "prototype"}
    && match d
       case Ref(entry) => b.refOk(entry)
       case Expanded(entry, rest) => b.refOk(entry) && b.expands(entry, rest)
       case Inline(doc) => b.inlineOk(k, doc) && (b.reading || OwnAcceptable(b, k, doc))
       case NoDef(_) => false
  }

  /** Each of a type's own rules can be applied, and together they are within the budget. */
  ghost predicate OwnAcceptable(b: Body, k: Kind, doc: Doc) {
    && (forall i :: 0 <= i < |b.typeRules(doc)| ==> b.judgeOwn(k, doc, b.typeRules(doc)[i]).ok)
    && OwnCosts(b, k, doc) <= 10_000_000
  }

  /** What applies to one record of a kind that some space rule governs. */
  ghost predicate WithinLimits(b: Body, m: Meta, k: Kind) {
    var rules := RulesOf(b, m);
    Governing(rules, k) != {} ==>
      && GoverningCost(b, rules, k) <= 10_000_000
      && (forall kind, name, doc :: IsKind(kind, k) && Has(m, kind, name, Inline(doc)) ==>
            && |b.typeRules(doc)| + |Governing(rules, k)| <= 50
            && GoverningCost(b, rules, k) + OwnCosts(b, k, doc) <= 10_000_000)
  }

  ghost predicate PartsAcceptable(b: Body, m: Meta) {
    && (forall key :: key in m.fields ==> Known(key) && b.fieldOk(key, m.fields[key]))
    && (m.types.Some? ==>
          && m.types.value.Types?
          && forall kind :: kind in m.types.value.kinds ==>
               m.types.value.kinds[kind].Defs? && kind in {"entity", "fact", "edge", "chrono"})
    && (forall kind, k, name, d :: IsKind(kind, k) && Has(m, kind, name, d) ==> DefAcceptable(b, k, name, d))
  }

  ghost predicate RulesAcceptable(b: Body, m: Meta) {
    && (forall i :: 0 <= i < |RulesOf(b, m)| ==> b.judgeSpace(RulesOf(b, m)[i]).ok)
    && forall k :: WithinLimits(b, m, k)
  }

  ghost predicate Acceptable(b: Body, m: Meta) {
    PartsAcceptable(b, m) && (b.reading || RulesAcceptable(b, m))
  }

  // ---- The rules that govern a kind -------------------------------------------------------------------------------

  lemma {:induction false} ApplyingLast(rules: seq<SpaceRule>, r: SpaceRule, k: Kind)
    ensures Applying(rules + [r], k) == Applying(rules, k) + (if Rules(r, k) then [r] else [])
  {
    if rules == [] {
      assert rules + [r] == [r] && [r][1..] == [];
    } else {
      ApplyingLast(rules[1..], r, k);
      assert (rules + [r])[1..] == rules[1..] + [r];
      assert (rules + [r])[0] == rules[0];
    }
  }

  lemma GoverningLast(rules: seq<SpaceRule>, r: SpaceRule, k: Kind)
    ensures Governing(rules + [r], k) == Governing(rules, k) + (if Rules(r, k) then {|rules|} else {})
    ensures |rules| !in Governing(rules, k)
  {
    forall i: nat
      ensures i in Governing(rules + [r], k) <==> i in Governing(rules, k) || (i == |rules| && Rules(r, k))
    {
      if i < |rules| {
        assert (rules + [r])[i] == rules[i];
      }
    }
  }

  lemma {:induction false} ApplyingCounts(rules: seq<SpaceRule>, k: Kind)
    ensures |Applying(rules, k)| == |Governing(rules, k)|
    ensures Applying(rules, k) == [] <==> Governing(rules, k) == {}
    decreases |rules|
  {
    if rules == [] {
      assert Governing(rules, k) == {};
    } else {
      hide Applying, Governing, Rules;
      var n := |rules| - 1;
      var init := rules[..n];
      assert rules == init + [rules[n]];
      ApplyingCounts(init, k);
      ApplyingLast(init, rules[n], k);
      GoverningLast(init, rules[n], k);
    }
  }

  lemma {:induction false} ApplyingCosts(b: Body, rules: seq<SpaceRule>, k: Kind)
    ensures SpaceCost(b, Applying(rules, k)) == GoverningCost(b, rules, k)
    ensures (forall i :: 0 <= i < |rules| ==> b.judgeSpace(rules[i]).ok) ==> AllSpaceOk(b, Applying(rules, k))
  {
    if rules != [] {
      var rest := rules[1..];
      ApplyingCosts(b, rest, k);
      var costs := seq<nat>(|rules|, i requires 0 <= i < |rules| => Share(b, rules[i], k));
      var more := seq<nat>(|rest|, i requires 0 <= i < |rest| => Share(b, rest[i], k));
      assert costs[1..] == more;
      if Rules(rules[0], k) {
        assert ([rules[0]] + Applying(rest, k))[1..] == Applying(rest, k);
      } else {
        assert [] + Applying(rest, k) == Applying(rest, k);
      }
    }
  }

  lemma {:induction false} OwnCostIs(b: Body, k: Kind, doc: Doc, own: seq<string>)
    ensures OwnCost(b, k, doc, own)
            == Sum(seq<nat>(|own|, i requires 0 <= i < |own| => b.judgeOwn(k, doc, own[i]).cost))
  {
    if own != [] {
      var rest := own[1..];
      OwnCostIs(b, k, doc, rest);
      var costs := seq<nat>(|own|, i requires 0 <= i < |own| => b.judgeOwn(k, doc, own[i]).cost);
      var more := seq<nat>(|rest|, i requires 0 <= i < |rest| => b.judgeOwn(k, doc, rest[i]).cost);
      assert costs[1..] == more;
    }
  }

  // ---- The parts --------------------------------------------------------------------------------------------------

  lemma NamesAreKinds(kind: string, k: Kind)
    ensures IsKind(kind, k) <==> kind == NameOf(k)
    ensures IsKind(kind, k) ==> kind in KIND_NAMES && KindOf(kind) == k
    ensures kind in KIND_NAMES ==> IsKind(kind, KindOf(kind))
  {
  }

  lemma DefParses(b: Body, kind: string, k: Kind, name: string, d: Def)
    requires IsKind(kind, k)
    ensures ParseDef(b, kind, name, d).Some? <==> DefAcceptable(b, k, name, d)
    ensures ParseDef(b, kind, name, d).Some? ==>
              ParseDef(b, kind, name, d).value == if d.Expanded? then Ref(d.entry) else d
  {
    NamesAreKinds(kind, k);
    if d.Inline? {
      OwnCostIs(b, k, d.doc, b.typeRules(d.doc));
    }
  }

  lemma PartsParseExactly(b: Body, m: Meta)
    ensures PartsParse(b, m) <==> PartsAcceptable(b, m)
  {
    forall kind, k, name, d | IsKind(kind, k)
      ensures ParseDef(b, kind, name, d).Some? <==> DefAcceptable(b, k, name, d)
    {
      DefParses(b, kind, k, name, d);
    }
    hide ParseDef, DefAcceptable;
    if PartsParse(b, m) {
      forall kind, k, name, d | IsKind(kind, k) && Has(m, kind, name, d) ensures DefAcceptable(b, k, name, d) {
        assert DefsParse(b, kind, m.types.value.kinds[kind]);
      }
    }
    if PartsAcceptable(b, m) && m.types.Some? {
      forall kind | kind in m.types.value.kinds ensures DefsParse(b, kind, m.types.value.kinds[kind]) {
        KindAcceptable(b, m, kind);
      }
    }
  }

  lemma KindAcceptable(b: Body, m: Meta, kind: string)
    requires PartsAcceptable(b, m) && m.types.Some? && kind in m.types.value.kinds
    ensures DefsParse(b, kind, m.types.value.kinds[kind])
  {
    hide ParseDef, DefAcceptable;
    var k, defs := KindOf(kind), m.types.value.kinds[kind];
    NamesAreKinds(kind, k);
    forall name | name in defs.all ensures ParseDef(b, kind, name, defs.all[name]).Some? {
      assert Has(m, kind, name, defs.all[name]);
      DefParses(b, kind, k, name, defs.all[name]);
    }
  }

  // ---- The limits -------------------------------------------------------------------------------------------------

  lemma TypeAppliesExactly(b: Body, k: Kind, doc: Doc, rules: seq<SpaceRule>)
    requires OwnAcceptable(b, k, doc)
    ensures TypeApplies(b, k, doc, Applying(rules, k))
            <==> (|b.typeRules(doc)| + |Governing(rules, k)| <= 50
                  && GoverningCost(b, rules, k) + OwnCosts(b, k, doc) <= 10_000_000)
  {
    ApplyingCounts(rules, k);
    ApplyingCosts(b, rules, k);
    OwnCostIs(b, k, doc, b.typeRules(doc));
    hide Applying, Governing, GoverningCost, SpaceCost, OwnCost, Sum;
  }

  lemma InlineIs(m: Meta, k: Kind, name: string, doc: Doc)
    ensures InlineDef(m, NameOf(k), name) == Some(doc) <==> Has(m, NameOf(k), name, Inline(doc))
  {
  }

  lemma KindAppliesExactly(b: Body, m: Meta, k: Kind)
    requires !b.reading && PartsParse(b, m)
    requires forall i :: 0 <= i < |RulesOf(b, m)| ==> b.judgeSpace(RulesOf(b, m)[i]).ok
    ensures KindApplies(b, Parsed(b, m), None, k) <==> WithinLimits(b, m, k)
  {
    var rules := RulesOf(b, m);
    assert SpaceRules(b, Parsed(b, m)) == rules;
    ApplyingCounts(rules, k);
    ApplyingCosts(b, rules, k);
    PartsParseExactly(b, m);
    forall name ensures InlineDef(Parsed(b, m), NameOf(k), name) == InlineDef(m, NameOf(k), name) {
      ParsedInline(b, m, NameOf(k), name);
    }
    forall kind ensures IsKind(kind, k) <==> kind == NameOf(k) { NamesAreKinds(kind, k); }
    forall name, doc ensures InlineDef(m, NameOf(k), name) == Some(doc) <==> Has(m, NameOf(k), name, Inline(doc)) {
      InlineIs(m, k, name, doc);
    }
    forall name, doc | Has(m, NameOf(k), name, Inline(doc))
      ensures TypeApplies(b, k, doc, Applying(rules, k))
              <==> (|b.typeRules(doc)| + |Governing(rules, k)| <= 50
                    && GoverningCost(b, rules, k) + OwnCosts(b, k, doc) <= 10_000_000)
    {
      assert DefAcceptable(b, k, name, Inline(doc));
      TypeAppliesExactly(b, k, doc, rules);
    }
    hide Applying, Governing, GoverningCost, SpaceCost, OwnCosts, TypeApplies, Has, InlineDef, Parsed, PartsParse;
    KindAppliesIs(b, m, k, rules);
  }

  /** The check of one kind, put together. */
  lemma KindAppliesIs(b: Body, m: Meta, k: Kind, rules: seq<SpaceRule>)
    requires PartsParse(b, m) && SpaceRules(b, Parsed(b, m)) == rules && RulesOf(b, m) == rules
    requires AllSpaceOk(b, Applying(rules, k)) && SpaceCost(b, Applying(rules, k)) == GoverningCost(b, rules, k)
    requires Applying(rules, k) == [] <==> Governing(rules, k) == {}
    requires forall kind :: IsKind(kind, k) <==> kind == NameOf(k)
    requires forall name :: InlineDef(Parsed(b, m), NameOf(k), name) == InlineDef(m, NameOf(k), name)
    requires forall name, doc :: InlineDef(m, NameOf(k), name) == Some(doc) <==> Has(m, NameOf(k), name, Inline(doc))
    requires forall name, doc :: Has(m, NameOf(k), name, Inline(doc)) ==>
               (TypeApplies(b, k, doc, Applying(rules, k))
                <==> (|b.typeRules(doc)| + |Governing(rules, k)| <= 50
                      && GoverningCost(b, rules, k) + OwnCosts(b, k, doc) <= 10_000_000))
    ensures KindApplies(b, Parsed(b, m), None, k) <==> WithinLimits(b, m, k)
  {
    hide Applying, Governing, GoverningCost, SpaceCost, OwnCosts, TypeApplies, Has, Parsed, PartsParse, AllSpaceOk;
    hide IsKind, NameOf;
    if WithinLimits(b, m, k) && Applying(rules, k) != [] {
      forall name | InlineDef(m, NameOf(k), name).Some?
        ensures TypeApplies(b, k, InlineDef(m, NameOf(k), name).value, Applying(rules, k))
      {
        assert Has(m, NameOf(k), name, Inline(InlineDef(m, NameOf(k), name).value));
      }
    }
    if KindApplies(b, Parsed(b, m), None, k) && Governing(rules, k) != {} {
      forall kind, name, doc | IsKind(kind, k) && Has(m, kind, name, Inline(doc))
        ensures TypeApplies(b, k, doc, Applying(rules, k))
      {
        assert InlineDef(Parsed(b, m), NameOf(k), name) == Some(doc);
      }
    }
  }

  lemma AllOkIs(b: Body, m: Meta)
    ensures AllSpaceOk(b, SpaceRules(b, m))
            <==> forall i :: 0 <= i < |RulesOf(b, m)| ==> b.judgeSpace(RulesOf(b, m)[i]).ok
  {
    assert SpaceRules(b, m) == RulesOf(b, m);
  }

  /**
   * The whole parse accepts a schema exactly when each of its parts is valid and, where rules are judged, each space
   * rule can be applied and what applies to one record is within the limits.
   */
  lemma WholeAccepts(b: Body, m: Meta)
    ensures ParseWhole(b, m).Some? <==> Acceptable(b, m)
  {
    PartsParseExactly(b, m);
    if PartsParse(b, m) && !b.reading {
      AllOkIs(b, m);
      if AllSpaceOk(b, SpaceRules(b, m)) {
        forall k ensures KindApplies(b, Parsed(b, m), None, k) <==> WithinLimits(b, m, k) {
          KindAppliesExactly(b, m, k);
        }
        hide KindApplies, WithinLimits, PartsParse, PartsAcceptable, Parsed, AllSpaceOk;
        assert Applies(b, Parsed(b, m), None) <==> forall k :: WithinLimits(b, m, k);
      }
    }
    hide KindApplies, WithinLimits, PartsParse, PartsAcceptable, Parsed;
  }

  /**
   * And gives it back as it is, but for a definition a reference brought along, which is taken back to the reference.
   */
  lemma WholeGives(b: Body, m: Meta)
    requires Acceptable(b, m)
    ensures ParseWhole(b, m).Some?
    ensures var r := ParseWhole(b, m).value;
            && r.fields == m.fields
            && (forall kind, name, d :: Has(r, kind, name, d)
                  <==> exists e :: Has(m, kind, name, e) && d == if e.Expanded? then Ref(e.entry) else e)
  {
    WholeAccepts(b, m);
    var r := Parsed(b, m);
    hide SpaceRulesOk, Applies, Acceptable;
    forall kind, name, d
      ensures Has(r, kind, name, d)
              <==> exists e :: Has(m, kind, name, e) && d == if e.Expanded? then Ref(e.entry) else e
    {
      TypeGives(b, m, kind, name);
    }
  }

  lemma TypeGives(b: Body, m: Meta, kind: string, name: string)
    requires PartsParse(b, m)
    ensures forall d :: Has(Parsed(b, m), kind, name, d)
              <==> exists e :: Has(m, kind, name, e) && d == if e.Expanded? then Ref(e.entry) else e
  {
    if m.types.Some? && kind in m.types.value.kinds && name in m.types.value.kinds[kind].all {
      var e := m.types.value.kinds[kind].all[name];
      assert DefsParse(b, kind, m.types.value.kinds[kind]);
      NamesAreKinds(kind, KindOf(kind));
      DefParses(b, kind, KindOf(kind), name, e);
      assert Has(m, kind, name, e);
    }
  }

  // ---- What is accepted over a store ------------------------------------------------------------------------------

  /** The field is not what the store holds. */
  predicate NewField(c: Meta, s: Meta, key: string) {
    key in c.fields && !(key in s.fields && s.fields[key] == c.fields[key])
  }

  predicate NewType(c: Meta, s: Meta, kind: string, name: string, d: Def) {
    Has(c, kind, name, d) && !Has(s, kind, name, d)
  }

  /** Whatever the store holds, only what differs from it is judged; what is no object is judged wherever it stands. */
  ghost predicate NewPartsAcceptable(b: Body, c: Meta, s: Meta) {
    && (forall key :: NewField(c, s, key) ==> Known(key) && b.fieldOk(key, c.fields[key]))
    && (c.types.Some? && c.types.value.NoTypes? ==> c.types == s.types)
    && (c.types.Some? && c.types.value.Types? ==>
          forall kind :: kind in c.types.value.kinds ==> c.types.value.kinds[kind].Defs?)
    && (forall kind, name, d :: NewType(c, s, kind, name, d) ==>
          kind in {"entity", "fact", "edge", "chrono"} && DefAcceptable(b, KindOf(kind), name, d))
  }

  /** Whether the type is judged beside the space's rules: the rules are new, or the type is. */
  predicate JudgedOver(c: Meta, s: Meta, k: Kind, name: string, doc: Doc) {
    NewField(c, s, "rules") || NewType(c, s, NameOf(k), name, Inline(doc))
  }

  ghost predicate LimitsOver(b: Body, c: Meta, s: Meta, k: Kind) {
    var rules := RulesOf(b, c);
    (Governing(rules, k) != {} && forall i :: i in Governing(rules, k) ==> b.judgeSpace(rules[i]).ok) ==>
      && (NewField(c, s, "rules") ==> GoverningCost(b, rules, k) <= 10_000_000)
      && (forall name, doc :: Has(c, NameOf(k), name, Inline(doc)) && JudgedOver(c, s, k, name, doc) ==>
            && |b.typeRules(doc)| + |Governing(rules, k)| <= 50
            && (AllOwnOk(b, k, doc, b.typeRules(doc)) ==>
                  GoverningCost(b, rules, k) + OwnCosts(b, k, doc) <= 10_000_000))
  }

  ghost predicate AcceptableOver(b: Body, c: Meta, s: Meta) {
    && NewPartsAcceptable(b, c, s)
    && (b.reading
        || ((NewField(c, s, "rules") ==> forall i :: 0 <= i < |RulesOf(b, c)| ==> b.judgeSpace(RulesOf(b, c)[i]).ok)
            && forall k :: LimitsOver(b, c, s, k)))
  }

  lemma {:induction false} ApplyingOk(b: Body, rules: seq<SpaceRule>, k: Kind)
    ensures AllSpaceOk(b, Applying(rules, k)) <==> forall i :: i in Governing(rules, k) ==> b.judgeSpace(rules[i]).ok
    decreases |rules|
  {
    if rules != [] {
      hide Applying, Rules;
      var n := |rules| - 1;
      var init := rules[..n];
      assert rules == init + [rules[n]];
      ApplyingOk(b, init, k);
      ApplyingLast(init, rules[n], k);
      GoverningLast(init, rules[n], k);
      OneMoreOk(b, Applying(init, k), rules[n]);
      hide AllSpaceOk, Governing;
      assert Applying(init, k) + [] == Applying(init, k);
      assert forall i :: i in Governing(init, k) ==> i < n && init[i] == rules[i] by { Within(init, k); }
    } else {
      assert Applying(rules, k) == [];
    }
  }

  lemma Within(rules: seq<SpaceRule>, k: Kind)
    ensures forall i :: i in Governing(rules, k) ==> i < |rules|
  {
  }

  lemma OneMoreOk(b: Body, rules: seq<SpaceRule>, r: SpaceRule)
    ensures AllSpaceOk(b, rules + [r]) <==> AllSpaceOk(b, rules) && b.judgeSpace(r).ok
  {
    if AllSpaceOk(b, rules + [r]) {
      assert (rules + [r])[|rules|] == r;
      forall i | 0 <= i < |rules| ensures b.judgeSpace(rules[i]).ok {
        assert (rules + [r])[i] == rules[i];
      }
    }
  }

  lemma NewIs(c: Meta, s: Meta, kind: string, name: string, d: Def)
    ensures Has(ToParse(c, s), kind, name, d) <==> NewType(c, s, kind, name, d)
  {
    HasIs(ToParse(c, s), kind, name, d);
    HasIs(c, kind, name, d);
    HasIs(s, kind, name, d);
    hide Has, ToParse, DefsOf;
    ChangedDefsOf(c, s, kind);
  }

  lemma HasIs(m: Meta, kind: string, name: string, d: Def)
    ensures Has(m, kind, name, d) <==> name in DefsOf(m, kind) && DefsOf(m, kind)[name] == d
  {
  }

  lemma NewFieldIs(c: Meta, s: Meta, key: string)
    ensures key in ToParse(c, s).fields <==> NewField(c, s, key)
    ensures key in ToParse(c, s).fields ==> ToParse(c, s).fields[key] == c.fields[key]
  {
  }

  lemma NewFieldsExactly(b: Body, c: Meta, s: Meta)
    ensures (forall key :: key in ToParse(c, s).fields ==> Known(key) && b.fieldOk(key, ToParse(c, s).fields[key]))
            <==> forall key :: NewField(c, s, key) ==> Known(key) && b.fieldOk(key, c.fields[key])
  {
    forall key
      ensures key in ToParse(c, s).fields <==> NewField(c, s, key)
      ensures key in ToParse(c, s).fields ==> ToParse(c, s).fields[key] == c.fields[key]
    {
      NewFieldIs(c, s, key);
    }
    hide Known, ToParse;
  }

  lemma NewPartsExactly(b: Body, c: Meta, s: Meta)
    ensures PartsAcceptable(b, ToParse(c, s)) <==> NewPartsAcceptable(b, c, s)
  {
    var p := ToParse(c, s);
    NewFieldsExactly(b, c, s);
    forall kind, name, d ensures Has(p, kind, name, d) <==> NewType(c, s, kind, name, d) { NewIs(c, s, kind, name, d); }
    forall kind, k | IsKind(kind, k) ensures kind in {"entity", "fact", "edge", "chrono"} && KindOf(kind) == k {
      NamesAreKinds(kind, k);
    }
    forall kind: string | kind in {"entity", "fact", "edge", "chrono"} ensures IsKind(kind, KindOf(kind)) {
      NamesAreKinds(kind, KindOf(kind));
    }
    NewKinds(c, s);
    hide DefAcceptable, Known, NewType, NewField, Has, IsKind, KindOf, ToParse;
    if PartsAcceptable(b, p) {
      forall kind, name, d | NewType(c, s, kind, name, d)
        ensures kind in {"entity", "fact", "edge", "chrono"} && DefAcceptable(b, KindOf(kind), name, d)
      {
        HasNames(p, kind, name, d);
      }
    }
    if NewPartsAcceptable(b, c, s) && p.types.Some? {
      forall kind | kind in p.types.value.kinds
        ensures p.types.value.kinds[kind].Defs? && kind in {"entity", "fact", "edge", "chrono"}
      {
        var name, d :| NewType(c, s, kind, name, d);
      }
    }
  }

  lemma HasNames(m: Meta, kind: string, name: string, d: Def)
    requires Has(m, kind, name, d)
    ensures m.types.Some? && m.types.value.Types? && kind in m.types.value.kinds
  {
  }

  /** What is left of the types to be judged. */
  lemma NewKinds(c: Meta, s: Meta)
    ensures var p := ToParse(c, s);
            && (p.types.Some? && p.types.value.NoTypes? <==>
                  c.types.Some? && c.types.value.NoTypes? && c.types != s.types)
            && (p.types.Some? && p.types.value.Types? ==>
                  && c.types.Some? && c.types.value.Types?
                  && forall kind :: kind in p.types.value.kinds ==>
                       && kind in c.types.value.kinds
                       && (p.types.value.kinds[kind].Defs? <==> c.types.value.kinds[kind].Defs?)
                       && (p.types.value.kinds[kind].Defs? ==> exists name, d :: NewType(c, s, kind, name, d)))
            && (c.types.Some? && c.types.value.Types? ==>
                  forall kind :: kind in c.types.value.kinds && c.types.value.kinds[kind].NoDefs? ==>
                    p.types.Some? && p.types.value.Types? && kind in p.types.value.kinds)
  {
    var p := ToParse(c, s);
    if c.types.Some? && c.types.value.Types? {
      var kinds, changed := c.types.value.kinds, ChangedKinds(c.types.value.kinds, HeldKinds(s));
      forall kind | kind in changed && changed[kind].Defs? ensures exists name, d :: NewType(c, s, kind, name, d) {
        var defs := ChangedDefs(kinds[kind].all, HeldDefs(HeldKinds(s), kind));
        var name :| name in defs;
        assert NewType(c, s, kind, name, defs[name]);
      }
      forall kind | kind in kinds && kinds[kind].NoDefs? ensures kind in changed {
      }
    }
  }

  /** One type, beside the rules that govern its kind. */
  lemma TypeLimits(b: Body, k: Kind, doc: Doc, rules: seq<SpaceRule>)
    ensures TypeApplies(b, k, doc, Applying(rules, k))
            <==> && |b.typeRules(doc)| + |Governing(rules, k)| <= 50
                 && (AllOwnOk(b, k, doc, b.typeRules(doc)) ==>
                       GoverningCost(b, rules, k) + OwnCosts(b, k, doc) <= 10_000_000)
  {
    ApplyingCounts(rules, k);
    ApplyingCosts(b, rules, k);
    OwnCostIs(b, k, doc, b.typeRules(doc));
    hide Applying, Governing, GoverningCost, SpaceCost, OwnCost, Sum, AllOwnOk;
  }

  lemma JudgedIs(c: Meta, s: Meta, k: Kind, name: string, doc: Doc)
    requires Has(c, NameOf(k), name, Inline(doc))
    ensures Judged(Some(ChangedBy(ToParse(c, s))), NameOf(k), name) <==> JudgedOver(c, s, k, name, doc)
  {
    var p := ToParse(c, s);
    NewFieldIs(c, s, "rules");
    NamesAreHeld(p, NameOf(k), name);
    ChangedDefsOf(c, s, NameOf(k));
    HasIs(c, NameOf(k), name, Inline(doc));
    HasIs(s, NameOf(k), name, Inline(doc));
    hide ToParse, TypeNames, DefsOf, Has;
  }

  lemma LimitsExactly(b: Body, c: Meta, s: Meta, k: Kind)
    ensures KindApplies(b, c, Some(ChangedBy(ToParse(c, s))), k) <==> LimitsOver(b, c, s, k)
  {
    var rules, only := RulesOf(b, c), ChangedBy(ToParse(c, s));
    assert SpaceRules(b, c) == rules;
    ApplyingCounts(rules, k);
    ApplyingCosts(b, rules, k);
    ApplyingOk(b, rules, k);
    NewFieldIs(c, s, "rules");
    forall name, doc ensures InlineDef(c, NameOf(k), name) == Some(doc) <==> Has(c, NameOf(k), name, Inline(doc)) {
      InlineIs(c, k, name, doc);
    }
    forall doc
      ensures TypeApplies(b, k, doc, Applying(rules, k))
              <==> && |b.typeRules(doc)| + |Governing(rules, k)| <= 50
                   && (AllOwnOk(b, k, doc, b.typeRules(doc)) ==>
                         GoverningCost(b, rules, k) + OwnCosts(b, k, doc) <= 10_000_000)
    {
      TypeLimits(b, k, doc, rules);
    }
    forall name, doc | Has(c, NameOf(k), name, Inline(doc))
      ensures Judged(Some(only), NameOf(k), name) <==> JudgedOver(c, s, k, name, doc)
    {
      JudgedIs(c, s, k, name, doc);
    }
    assert only.spaceRules <==> NewField(c, s, "rules");
    hide Applying, Governing, GoverningCost, SpaceCost, OwnCosts, TypeApplies, Has, AllSpaceOk, AllOwnOk, ToParse,
      Judged, JudgedOver, NewField, ChangedBy, RulesOf, SpaceRules;
    LimitsPut(b, c, s, k, rules, only);
  }

  lemma LimitsPut(b: Body, c: Meta, s: Meta, k: Kind, rules: seq<SpaceRule>, only: Changed)
    requires SpaceRules(b, c) == rules && RulesOf(b, c) == rules
    requires SpaceCost(b, Applying(rules, k)) == GoverningCost(b, rules, k)
    requires Applying(rules, k) == [] <==> Governing(rules, k) == {}
    requires AllSpaceOk(b, Applying(rules, k)) <==> forall i :: i in Governing(rules, k) ==> b.judgeSpace(rules[i]).ok
    requires only.spaceRules <==> NewField(c, s, "rules")
    requires forall name, doc :: InlineDef(c, NameOf(k), name) == Some(doc) <==> Has(c, NameOf(k), name, Inline(doc))
    requires forall doc :: TypeApplies(b, k, doc, Applying(rules, k))
               <==> && |b.typeRules(doc)| + |Governing(rules, k)| <= 50
                    && (AllOwnOk(b, k, doc, b.typeRules(doc)) ==>
                          GoverningCost(b, rules, k) + OwnCosts(b, k, doc) <= 10_000_000)
    requires forall name, doc :: Has(c, NameOf(k), name, Inline(doc)) ==>
               (Judged(Some(only), NameOf(k), name) <==> JudgedOver(c, s, k, name, doc))
    ensures KindApplies(b, c, Some(only), k) <==> LimitsOver(b, c, s, k)
  {
    hide Applying, Governing, GoverningCost, SpaceCost, OwnCosts, TypeApplies, Has, AllSpaceOk, AllOwnOk, Judged,
      JudgedOver, NewField, RulesOf, SpaceRules, NameOf;
    if LimitsOver(b, c, s, k) {
      forall name | InlineDef(c, NameOf(k), name).Some? && Judged(Some(only), NameOf(k), name)
        && AllSpaceOk(b, Applying(rules, k)) && Applying(rules, k) != []
        ensures TypeApplies(b, k, InlineDef(c, NameOf(k), name).value, Applying(rules, k))
      {
        assert Has(c, NameOf(k), name, Inline(InlineDef(c, NameOf(k), name).value));
      }
    }
    if KindApplies(b, c, Some(only), k) {
      forall name, doc | Has(c, NameOf(k), name, Inline(doc)) && JudgedOver(c, s, k, name, doc)
        && AllSpaceOk(b, Applying(rules, k)) && Applying(rules, k) != []
        ensures TypeApplies(b, k, doc, Applying(rules, k))
      {
        assert InlineDef(c, NameOf(k), name) == Some(doc);
      }
    }
  }

  /** Where the rules are new, the limits over the store are the limits of the new parts too. */
  lemma NewLimits(b: Body, c: Meta, s: Meta, k: Kind)
    requires !b.reading && NewPartsAcceptable(b, c, s) && LimitsOver(b, c, s, k)
    requires NewField(c, s, "rules") ==> forall i :: 0 <= i < |RulesOf(b, c)| ==> b.judgeSpace(RulesOf(b, c)[i]).ok
    ensures WithinLimits(b, ToParse(c, s), k)
  {
    var p := ToParse(c, s);
    NewFieldIs(c, s, "rules");
    if NewField(c, s, "rules") {
      var rules := RulesOf(b, c);
      assert RulesOf(b, p) == rules;
      Within(rules, k);
      forall kind, name, doc | IsKind(kind, k) && Has(p, kind, name, Inline(doc))
        ensures kind == NameOf(k) && Has(c, kind, name, Inline(doc)) && OwnAcceptable(b, k, doc)
      {
        NewIs(c, s, kind, name, Inline(doc));
        NamesAreKinds(kind, k);
        assert DefAcceptable(b, KindOf(kind), name, Inline(doc));
      }
      hide Governing, GoverningCost, OwnCosts, Has, ToParse, NewField;
      assert forall doc :: OwnAcceptable(b, k, doc) ==> AllOwnOk(b, k, doc, b.typeRules(doc));
    } else {
      assert RulesOf(b, p) == [];
      assert Governing([], k) == {};
    }
  }

  /**
   * Parsing against a store accepts a schema exactly when every part that is not what the store holds is valid, and,
   * where rules are judged, the space's rules can be applied when they are new, and the new rules or the new types keep
   * within the limits. Of what the store holds already, valid or not, nothing is asked again.
   */
  lemma AgainstAccepts(b: Body, c: Meta, s: Meta)
    ensures ParseAgainst(b, c, s).Some? <==> AcceptableOver(b, c, s)
  {
    var p := ToParse(c, s);
    WholeAccepts(b, p);
    NewPartsExactly(b, c, s);
    NewFieldIs(c, s, "rules");
    assert NewField(c, s, "rules") ==> RulesOf(b, p) == RulesOf(b, c);
    assert !NewField(c, s, "rules") ==> RulesOf(b, p) == [];
    forall k ensures KindApplies(b, c, Some(ChangedBy(p)), k) <==> LimitsOver(b, c, s, k) { LimitsExactly(b, c, s, k); }
    if !b.reading && AcceptableOver(b, c, s) {
      forall k ensures WithinLimits(b, p, k) { NewLimits(b, c, s, k); }
    }
    hide ToParse, ParseWhole, KindApplies, LimitsOver, NewPartsAcceptable, PartsAcceptable, WithinLimits, NewField,
      RulesOf, ChangedBy;
  }

  lemma DefsPutBack(c: Meta, p: Meta, kind: string)
    requires c.types.Some? && c.types.value.NoTypes? ==> p.types.None?
    ensures DefsOf(PutBack(c, p), kind)
            == map name | name in DefsOf(c, kind) :: if name in DefsOf(p, kind) then DefsOf(p, kind)[name]
                                                     else DefsOf(c, kind)[name]
  {
  }

  /**
   * What is accepted is given back as it was offered, but for a new definition a reference brought along, which is
   * taken back to the reference.
   */
  lemma AgainstGives(b: Body, c: Meta, s: Meta)
    requires AcceptableOver(b, c, s)
    ensures ParseAgainst(b, c, s).Some? && ParseAgainst(b, c, s).value.fields == c.fields
    ensures forall kind, name, d :: Has(ParseAgainst(b, c, s).value, kind, name, d)
              <==> exists e :: Has(c, kind, name, e)
                     && d == if e.Expanded? && NewType(c, s, kind, name, e) then Ref(e.entry) else e
  {
    AgainstAccepts(b, c, s);
    var q := ToParse(c, s);
    WholeAccepts(b, q);
    var p := Parsed(b, q);
    assert ParseAgainst(b, c, s) == Some(PutBack(c, p));
    forall key | key in q.fields ensures key in c.fields && q.fields[key] == c.fields[key] { NewFieldIs(c, s, key); }
    assert p.fields == q.fields && PutBack(c, p).fields == c.fields;
    hide ToParse, PutBack, ParseAgainst, Parsed, AcceptableOver, Acceptable, Has, NewType, PartsParse;
    forall kind, name, d
      ensures Has(PutBack(c, p), kind, name, d)
              <==> exists e :: Has(c, kind, name, e)
                     && d == if e.Expanded? && NewType(c, s, kind, name, e) then Ref(e.entry) else e
    {
      PutBackGives(b, c, s, kind, name, d);
    }
  }

  lemma NoTypesLeft(b: Body, c: Meta, s: Meta)
    requires PartsParse(b, ToParse(c, s))
    ensures c.types.Some? && c.types.value.NoTypes? ==> Parsed(b, ToParse(c, s)).types.None?
  {
  }

  lemma PutBackGives(b: Body, c: Meta, s: Meta, kind: string, name: string, d: Def)
    requires PartsParse(b, ToParse(c, s))
    ensures Has(PutBack(c, Parsed(b, ToParse(c, s))), kind, name, d)
            <==> exists e :: Has(c, kind, name, e)
                   && d == if e.Expanded? && NewType(c, s, kind, name, e) then Ref(e.entry) else e
  {
    var q := ToParse(c, s);
    var p := Parsed(b, q);
    TypeGives(b, q, kind, name);
    NoTypesLeft(b, c, s);
    hide ToParse, PutBack, Parsed, Has, DefsOf, PartsParse;
    DefsPutBack(c, p, kind);
    HasIs(PutBack(c, p), kind, name, d);
    forall e
      ensures Has(p, kind, name, e) <==> name in DefsOf(p, kind) && DefsOf(p, kind)[name] == e
      ensures Has(q, kind, name, e) <==> NewType(c, s, kind, name, e)
      ensures Has(c, kind, name, e) <==> name in DefsOf(c, kind) && DefsOf(c, kind)[name] == e
    {
      HasIs(p, kind, name, e);
      NewIs(c, s, kind, name, e);
      HasIs(c, kind, name, e);
    }
    assert forall e :: NewType(c, s, kind, name, e) ==> Has(c, kind, name, e);
    hide NewType;
    if name in DefsOf(c, kind) {
      var e := DefsOf(c, kind)[name];
      assert Has(c, kind, name, e);
      if name in DefsOf(p, kind) {
        assert Has(p, kind, name, DefsOf(p, kind)[name]);
      }
    }
  }

  /** A schema a store holds already is taken again as it is, whether or not it would parse today. */
  lemma HeldIsAccepted(b: Body, s: Meta)
    requires s.types.Some? && s.types.value.Types? ==>
               forall kind :: kind in s.types.value.kinds ==> s.types.value.kinds[kind].Defs?
    ensures ParseAgainst(b, s, s) == Some(s)
  {
    AgainstAccepts(b, s, s);
    assert NewPartsAcceptable(b, s, s);
    forall k: Kind ensures LimitsOver(b, s, s, k) {
    }
    assert AcceptableOver(b, s, s);
    var p := Meta(map[], None);
    NothingIsNew(s);
    assert Parsed(b, p) == p;
    NothingPutBack(s);
    hide ToParse, PutBack, NewPartsAcceptable, LimitsOver;
  }

  lemma NothingIsNew(s: Meta)
    requires s.types.Some? && s.types.value.Types? ==>
               forall kind :: kind in s.types.value.kinds ==> s.types.value.kinds[kind].Defs?
    ensures ToParse(s, s) == Meta(map[], None)
  {
    var kinds := HeldKinds(s);
    forall kind | kind in kinds ensures ChangedKind(kinds[kind], HeldDefs(kinds, kind)).None? {
      assert ChangedDefs(kinds[kind].all, HeldDefs(kinds, kind)) == map[];
    }
    assert ChangedKinds(kinds, kinds) == map[];
    assert ChangedFields(s.fields, s.fields) == map[];
  }

  lemma NothingPutBack(s: Meta)
    ensures PutBack(s, Meta(map[], None)) == s
  {
    var p := Meta(map[], None);
    assert HeldKinds(p) == map[];
    if s.types.Some? && s.types.value.Types? {
      var kinds := s.types.value.kinds;
      forall kind | kind in kinds ensures PutBackKinds(kinds, map[])[kind] == kinds[kind] {
        if kinds[kind].Defs? {
          assert PutBackDefs(kinds[kind].all, HeldDefs(map[], kind)) == kinds[kind].all;
        }
      }
      assert PutBackKinds(kinds, map[]) == kinds;
    }
  }
}
