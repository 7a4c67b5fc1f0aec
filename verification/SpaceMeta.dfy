/**
 * The parse of a space's schema (`schema/src/space-meta.ts`): whole, against what a store already holds, and reading
 * back what a store holds part by part. A document is its canonical text, so equality is deep equality; the body is a
 * conjunction of checks on each field and each type, and the check of the rules that apply to one record
 * (`schema/src/rules.ts`).
 */
module SpaceMeta {

  import opened Maybe
  import opened RuleAnalysis
  import opened RuleKinds

  type Doc = string

  /**
   * A type's definition: a reference to a library entry, a reference beside other keys, one written out, or no object.
   */
  datatype Def = Ref(entry: string) | Expanded(entry: string, rest: Doc) | Inline(doc: Doc) | NoDef(doc: Doc)

  datatype Defs = Defs(all: map<string, Def>) | NoDefs(doc: Doc)
  datatype Types = Types(kinds: map<string, Defs>) | NoTypes(doc: Doc)
  datatype Meta = Meta(fields: map<string, Doc>, types: Option<Types>)

  const META_FIELDS: set<string> :=
    {"purpose", "usageNotes", "validationMode", "strictLinkage", "suppressEmbeddings", "whenDuePasses", "stampSkew",
        "rules"}
  const SERVER_OWNED: set<string> :=
    {"version", "updatedAt", "previousVersions", "needsReindex", "reindexRun", "actualSchema", "invalidRules",
        "unknownWriteFields"}
  const INTERNAL_KEYS: set<string> := {"__proto__", "constructor", "prototype"}
  const MAX_NAME: nat := 200
  const MAX_APPLICABLE_RULES: nat := 50

  const KIND_NAMES: set<string> := {"entity", "fact", "edge", "chrono"}

  function NameOf(k: Kind): string {
    match k
    case Entity => "entity"
    case Fact => "fact"
    case Edge => "edge"
    case Chrono => "chrono"
  }

  function KindOf(name: string): Kind {
    if name == "entity" then Entity else if name == "fact" then Fact else if name == "edge" then Edge else Chrono
  }

  // ---- The body ---------------------------------------------------------------------------------------------------

  datatype Verdict = Verdict(ok: bool, cost: nat)
  datatype SpaceRule = SpaceRule(text: string, kinds: seq<Kind>)

  /**
   * The checks of single parts, the judgement of a rule, and a definition without the keys this release does not know.
   * `reading` is on while what a store holds is read.
   */
  datatype Body = Body(
    fieldOk: (string, Doc) -> bool,
    refOk: string -> bool,
    expands: (string, Doc) -> bool,
    inlineOk: (Kind, Doc) -> bool,
    typeRules: Doc -> seq<string>,
    spaceRules: Doc -> seq<SpaceRule>,
    judgeOwn: (Kind, Doc, string) -> Verdict,
    judgeSpace: SpaceRule -> Verdict,
    knownDef: Doc -> Doc,
    reading: bool)

  predicate NameOk(name: string) { name !in INTERNAL_KEYS && 1 <= |name| <= MAX_NAME }

  /** A type's own rules: each one the instance can apply, and together within the budget. */
  predicate OwnRulesOk(b: Body, k: Kind, doc: Doc) {
    b.reading || (AllOwnOk(b, k, doc, b.typeRules(doc)) && OwnCost(b, k, doc, b.typeRules(doc)) <= COST_BUDGET)
  }

  predicate AllOwnOk(b: Body, k: Kind, doc: Doc, rules: seq<string>) {
    forall i :: 0 <= i < |rules| ==> b.judgeOwn(k, doc, rules[i]).ok
  }

  function OwnCost(b: Body, k: Kind, doc: Doc, rules: seq<string>): nat {
    if rules == [] then 0 else b.judgeOwn(k, doc, rules[0]).cost + OwnCost(b, k, doc, rules[1..])
  }

  /**
   * A definition parsed under its kind: a reference that brings its entry's definition along is taken back to the
   * reference.
   */
  function ParseDef(b: Body, kind: string, name: string, d: Def): Option<Def> {
    if kind !in KIND_NAMES || !NameOk(name) then None
    else
      match d
      case Ref(entry) => if b.refOk(entry) then Some(d) else None
      case Expanded(entry, rest) => if b.refOk(entry) && b.expands(entry, rest) then Some(Ref(entry)) else None
      case Inline(doc) => if b.inlineOk(KindOf(kind), doc) && OwnRulesOk(b, KindOf(kind), doc) then Some(d) else None
      case NoDef(_) => None
  }

  predicate FieldParses(b: Body, key: string, doc: Doc) { key in META_FIELDS && b.fieldOk(key, doc) }

  predicate DefsParse(b: Body, kind: string, defs: Defs) {
    && kind in KIND_NAMES && defs.Defs?
    && (forall name :: name in defs.all ==> ParseDef(b, kind, name, defs.all[name]).Some?)
  }

  predicate TypesParse(b: Body, types: Types) {
    types.Types? && forall kind :: kind in types.kinds ==> DefsParse(b, kind, types.kinds[kind])
  }

  /** Every part parses on its own. */
  predicate PartsParse(b: Body, m: Meta) {
    (forall key :: key in m.fields ==> FieldParses(b, key, m.fields[key]))
        && (m.types.Some? ==> TypesParse(b, m.types.value))
  }

  function ParsedDefs(b: Body, kind: string, defs: Defs): Defs
    requires DefsParse(b, kind, defs)
  {
    Defs(map name | name in defs.all :: ParseDef(b, kind, name, defs.all[name]).value)
  }

  function ParsedTypes(b: Body, types: Types): Types
    requires TypesParse(b, types)
  {
    Types(map kind | kind in types.kinds :: ParsedDefs(b, kind, types.kinds[kind]))
  }

  function Parsed(b: Body, m: Meta): Meta
    requires PartsParse(b, m)
  {
    Meta(m.fields, if m.types.Some? then Some(ParsedTypes(b, m.types.value)) else None)
  }

  // ---- What applies to one record ---------------------------------------------------------------------------------

  function SpaceRules(b: Body, m: Meta): seq<SpaceRule> {
    if "rules" in m.fields then b.spaceRules(m.fields["rules"]) else []
  }

  /** The rules that govern a kind: those that name it, and those that name none. */
  function Applying(rules: seq<SpaceRule>, k: Kind): seq<SpaceRule> {
    if rules == [] then []
    else (if rules[0].kinds == [] || k in rules[0].kinds then [rules[0]] else []) + Applying(rules[1..], k)
  }

  predicate AllSpaceOk(b: Body, rules: seq<SpaceRule>) { forall i :: 0 <= i < |rules| ==> b.judgeSpace(rules[i]).ok }

  function SpaceCost(b: Body, rules: seq<SpaceRule>): nat {
    if rules == [] then 0 else b.judgeSpace(rules[0]).cost + SpaceCost(b, rules[1..])
  }

  /** What a write changed: the space's rules, and which types. */
  datatype Changed = Changed(spaceRules: bool, types: set<(string, string)>)

  predicate Judged(only: Option<Changed>, kind: string, name: string) {
    only.None? || only.value.spaceRules || (kind, name) in only.value.types
  }

  function HeldDefs(s: map<string, Defs>, kind: string): map<string, Def> {
    if kind in s && s[kind].Defs? then s[kind].all else map[]
  }

  function HeldKinds(s: Meta): map<string, Defs> {
    if s.types.Some? && s.types.value.Types? then s.types.value.kinds else map[]
  }

  function DefsOf(m: Meta, kind: string): map<string, Def> { HeldDefs(HeldKinds(m), kind) }

  /** The definition a kind's type is written out with, when it is. */
  function InlineDef(m: Meta, kind: string, name: string): Option<Doc> {
    var defs := DefsOf(m, kind);
    if name in defs && defs[name].Inline? then Some(defs[name].doc) else None
  }

  /** A type's own rules beside the space's: at most fifty, and within the budget together. */
  predicate TypeApplies(b: Body, k: Kind, doc: Doc, applying: seq<SpaceRule>) {
    var own := b.typeRules(doc);
    && |own| + |applying| <= MAX_APPLICABLE_RULES
    && (AllOwnOk(b, k, doc, own) ==> SpaceCost(b, applying) + OwnCost(b, k, doc, own) <= COST_BUDGET)
  }

  predicate KindApplies(b: Body, m: Meta, only: Option<Changed>, k: Kind) {
    var applying := Applying(SpaceRules(b, m), k);
    AllSpaceOk(b, applying) && applying != [] ==>
      && ((only.Some? ==> only.value.spaceRules) ==> SpaceCost(b, applying) <= COST_BUDGET)
      && (forall name ::
            name in DefsOf(m, NameOf(k)) && InlineDef(m, NameOf(k), name).Some? && Judged(only, NameOf(k), name) ==>
            TypeApplies(b, k, InlineDef(m, NameOf(k), name).value, applying))
  }

  predicate Applies(b: Body, m: Meta, only: Option<Changed>) {
    b.reading || forall k :: KindApplies(b, m, only, k)
  }

  predicate SpaceRulesOk(b: Body, m: Meta) { b.reading || AllSpaceOk(b, SpaceRules(b, m)) }

  // ---- The whole parse --------------------------------------------------------------------------------------------

  function ParseWhole(b: Body, m: Meta): Option<Meta> {
    if PartsParse(b, m) && SpaceRulesOk(b, m) && Applies(b, Parsed(b, m), None) then Some(Parsed(b, m)) else None
  }

  // ---- The parse against what a store holds -----------------------------------------------------------------------

  function ChangedFields(c: map<string, Doc>, s: map<string, Doc>): map<string, Doc> {
    map key | key in c && !(key in s && s[key] == c[key]) :: c[key]
  }

  function ChangedDefs(c: map<string, Def>, s: map<string, Def>): map<string, Def> {
    map name | name in c && !(name in s && s[name] == c[name]) :: c[name]
  }

  function ChangedKind(defs: Defs, held: map<string, Def>): Option<Defs> {
    if defs.NoDefs? then Some(defs)
    else if ChangedDefs(defs.all, held) != map[] then Some(Defs(ChangedDefs(defs.all, held))) else None
  }

  function ChangedKinds(c: map<string, Defs>, s: map<string, Defs>): map<string, Defs> {
    map kind | kind in c
        && ChangedKind(c[kind], HeldDefs(s, kind)).Some? :: ChangedKind(c[kind], HeldDefs(s, kind)).value
  }

  function ChangedTypes(c: Option<Types>, s: Meta): Option<Types> {
    if c.None? then None
    else if c.value.NoTypes? then (if c == s.types then None else c)
    else if ChangedKinds(c.value.kinds, HeldKinds(s)) != map[]
        then Some(Types(ChangedKinds(c.value.kinds, HeldKinds(s)))) else None
  }

  /** What differs from the store, and so is parsed. */
  function ToParse(c: Meta, s: Meta): Meta { Meta(ChangedFields(c.fields, s.fields), ChangedTypes(c.types, s)) }

  function TypeNames(m: Meta): set<(string, string)> {
    if m.types.Some? && m.types.value.Types? then
      set kind, name | kind in m.types.value.kinds && m.types.value.kinds[kind].Defs?
          && name in m.types.value.kinds[kind].all :: (kind, name)
    else {}
  }

  function ChangedBy(p: Meta): Changed { Changed("rules" in p.fields, TypeNames(p)) }

  function PutBackDefs(c: map<string, Def>, p: map<string, Def>): map<string, Def> {
    map name | name in c :: if name in p then p[name] else c[name]
  }

  function PutBackKinds(c: map<string, Defs>, p: map<string, Defs>): map<string, Defs> {
    map kind | kind in c :: if c[kind].NoDefs? then c[kind] else Defs(PutBackDefs(c[kind].all, HeldDefs(p, kind)))
  }

  function PutBackTypes(c: Option<Types>, p: Meta): Option<Types> {
    if c.None? then None
    else if c.value.NoTypes? then (if p.types.Some? then p.types else c)
    else Some(Types(PutBackKinds(c.value.kinds, HeldKinds(p))))
  }

  /** The parts back together: a parsed part where one was parsed, the carried one where it was not. */
  function PutBack(c: Meta, p: Meta): Meta {
    Meta(map key | key in c.fields :: if key in p.fields then p.fields[key] else c.fields[key],
        PutBackTypes(c.types, p))
  }

  function ParseAgainst(b: Body, c: Meta, s: Meta): Option<Meta> {
    var p := ParseWhole(b, ToParse(c, s));
    if p.Some? && Applies(b, c, Some(ChangedBy(ToParse(c, s)))) then Some(PutBack(c, p.value)) else None
  }

  // ---- The two parses agree ---------------------------------------------------------------------------------------

  /** A name that is no kind, holding no types: nothing in it differs from what any store holds. */
  predicate IsEmptyUnknown(kind: string, defs: Defs) { kind !in KIND_NAMES && defs == Defs(map[]) }

  predicate NoEmptyUnknown(c: Meta) {
    c.types.Some? && c.types.value.Types? ==>
      forall kind :: kind in c.types.value.kinds ==> !IsEmptyUnknown(kind, c.types.value.kinds[kind])
  }

  predicate StoredWhole(b: Body, s: Meta) { ParseWhole(b, s) == Some(s) }

  lemma StoredDefs(b: Body, s: Meta, kind: string, name: string)
    requires StoredWhole(b, s) && name in HeldDefs(HeldKinds(s), kind)
    ensures kind in KIND_NAMES
    ensures ParseDef(b, kind, name, HeldDefs(HeldKinds(s), kind)[name]) == Some(HeldDefs(HeldKinds(s), kind)[name])
  {
    assert ParsedTypes(b, s.types.value) == s.types.value;
    assert DefsParse(b, kind, s.types.value.kinds[kind]);
    assert ParsedDefs(b, kind, s.types.value.kinds[kind]) == s.types.value.kinds[kind];
  }

  /** A kind parses exactly when what changed in it does. */
  lemma KindParses(b: Body, s: Meta, kind: string, defs: Defs)
    requires StoredWhole(b, s) && !IsEmptyUnknown(kind, defs)
    ensures var changed := ChangedKind(defs, HeldDefs(HeldKinds(s), kind));
            DefsParse(b, kind, defs) <==> (changed.Some? ==> DefsParse(b, kind, changed.value))
  {
    var held := HeldDefs(HeldKinds(s), kind);
    var changed := ChangedKind(defs, held);
    if defs.Defs? {
      forall name | name in defs.all && name !in ChangedDefs(defs.all, held)
        ensures kind in KIND_NAMES && ParseDef(b, kind, name, defs.all[name]) == Some(defs.all[name])
      {
        StoredDefs(b, s, kind, name);
      }
      if changed.None? && defs.all != map[] {
        var name :| name in defs.all;
        assert name !in ChangedDefs(defs.all, held);
      }
    }
  }

  lemma TypesParseAlike(b: Body, c: Meta, s: Meta)
    requires StoredWhole(b, s) && NoEmptyUnknown(c) && c.types.Some?
    ensures TypesParse(b, c.types.value)
            <==> (ChangedTypes(c.types, s).Some? ==> TypesParse(b, ChangedTypes(c.types, s).value))
  {
    if c.types.value.Types? {
      var kinds, changed := c.types.value.kinds, ChangedKinds(c.types.value.kinds, HeldKinds(s));
      forall kind | kind in kinds
        ensures DefsParse(b, kind, kinds[kind]) <==> (kind in changed ==> DefsParse(b, kind, changed[kind]))
      {
        KindParses(b, s, kind, kinds[kind]);
      }
    }
  }

  lemma PartsParseAlike(b: Body, c: Meta, s: Meta)
    requires StoredWhole(b, s) && NoEmptyUnknown(c)
    ensures PartsParse(b, c) <==> PartsParse(b, ToParse(c, s))
  {
    if c.types.Some? {
      TypesParseAlike(b, c, s);
    }
    var p := ToParse(c, s);
    forall key | key in c.fields
      ensures FieldParses(b, key, c.fields[key]) <==> (key in p.fields ==> FieldParses(b, key, p.fields[key]))
    {
    }
  }

  /** Parsing keeps every definition that is written out, and turns none into one. */
  lemma ParsedInline(b: Body, m: Meta, kind: string, name: string)
    requires PartsParse(b, m)
    ensures InlineDef(Parsed(b, m), kind, name) == InlineDef(m, kind, name)
  {
  }

  lemma NamesAreHeld(m: Meta, kind: string, name: string)
    ensures (kind, name) in TypeNames(m) <==> name in DefsOf(m, kind)
  {
  }

  /** What was changed is what differs. */
  lemma ChangedDefsOf(c: Meta, s: Meta, kind: string)
    ensures DefsOf(ToParse(c, s), kind) == ChangedDefs(DefsOf(c, kind), DefsOf(s, kind))
  {
  }

  lemma ChangedInline(c: Meta, s: Meta, kind: string, name: string)
    ensures InlineDef(ToParse(c, s), kind, name).Some?
            ==> InlineDef(ToParse(c, s), kind, name) == InlineDef(c, kind, name)
    ensures InlineDef(c, kind, name).Some? && (kind, name) !in TypeNames(ToParse(c, s))
            ==> InlineDef(c, kind, name) == InlineDef(s, kind, name)
  {
    hide ToParse, TypeNames, DefsOf;
    ChangedDefsOf(c, s, kind);
    NamesAreHeld(ToParse(c, s), kind, name);
  }

  /** Nothing is asked of a part of a schema that is not asked of the whole. */
  lemma PartApplies(b: Body, m: Meta, part: Meta, k: Kind)
    requires KindApplies(b, m, None, k)
    requires "rules" in part.fields ==> "rules" in m.fields && part.fields["rules"] == m.fields["rules"]
    requires forall name ::
      InlineDef(part, NameOf(k), name).Some? ==> InlineDef(part, NameOf(k), name) == InlineDef(m, NameOf(k), name)
    ensures KindApplies(b, part, None, k)
  {
    hide TypeApplies, DefsOf;
  }

  /** What a write changed, judged, and what it did not, judged when it was stored, are the whole. */
  lemma ChangedApplies(b: Body, m: Meta, s: Meta, k: Kind, only: Changed)
    requires KindApplies(b, m, Some(only), k) && KindApplies(b, s, None, k)
    requires !only.spaceRules && "rules" in m.fields ==> "rules" in s.fields && m.fields["rules"] == s.fields["rules"]
    requires forall name :: InlineDef(m, NameOf(k), name).Some? && (NameOf(k), name) !in only.types ==>
               InlineDef(m, NameOf(k), name) == InlineDef(s, NameOf(k), name)
    ensures KindApplies(b, m, None, k)
  {
    hide TypeApplies, DefsOf;
  }

  lemma SameInlineApplies(b: Body, m: Meta, n: Meta, only: Option<Changed>, k: Kind)
    requires m.fields == n.fields && forall name :: InlineDef(m, NameOf(k), name) == InlineDef(n, NameOf(k), name)
    ensures KindApplies(b, m, only, k) <==> KindApplies(b, n, only, k)
  {
    hide TypeApplies, DefsOf;
  }

  lemma KindAppliesAlike(b: Body, c: Meta, s: Meta, k: Kind)
    requires StoredWhole(b, s) && PartsParse(b, c) && PartsParse(b, ToParse(c, s)) && !b.reading
    ensures KindApplies(b, Parsed(b, c), None, k)
            <==> (KindApplies(b, Parsed(b, ToParse(c, s)), None, k)
                  && KindApplies(b, c, Some(ChangedBy(ToParse(c, s))), k))
  {
    var p := ToParse(c, s);
    var only := ChangedBy(p);
    assert KindApplies(b, s, None, k);
    assert "rules" in p.fields ==> p.fields["rules"] == c.fields["rules"];
    assert "rules" !in p.fields && "rules" in c.fields
        ==> "rules" in s.fields && c.fields["rules"] == s.fields["rules"];
    hide InlineDef, TypeNames, PartsParse, KindApplies;
    forall name
      ensures InlineDef(Parsed(b, c), NameOf(k), name) == InlineDef(c, NameOf(k), name)
      ensures InlineDef(Parsed(b, p), NameOf(k), name) == InlineDef(p, NameOf(k), name)
      ensures InlineDef(p, NameOf(k), name).Some? ==> InlineDef(p, NameOf(k), name) == InlineDef(c, NameOf(k), name)
      ensures InlineDef(c, NameOf(k), name).Some? && (NameOf(k), name) !in only.types
              ==> InlineDef(c, NameOf(k), name) == InlineDef(s, NameOf(k), name)
    {
      ParsedInline(b, c, NameOf(k), name);
      ParsedInline(b, p, NameOf(k), name);
      ChangedInline(c, s, NameOf(k), name);
    }
    SameInlineApplies(b, c, Parsed(b, c), None, k);
    SameInlineApplies(b, p, Parsed(b, p), None, k);
    if KindApplies(b, c, None, k) {
      PartApplies(b, c, p, k);
      JudgedLess(b, c, only, k);
    }
    if KindApplies(b, c, Some(only), k) {
      ChangedApplies(b, c, s, k, only);
    }
  }

  lemma JudgedLess(b: Body, m: Meta, only: Changed, k: Kind)
    requires KindApplies(b, m, None, k)
    ensures KindApplies(b, m, Some(only), k)
  {
  }

  lemma SpaceRulesAlike(b: Body, c: Meta, s: Meta)
    requires StoredWhole(b, s)
    ensures SpaceRulesOk(b, c) <==> SpaceRulesOk(b, ToParse(c, s))
  {
  }

  lemma PutBackIsParsed(b: Body, c: Meta, s: Meta)
    requires StoredWhole(b, s) && PartsParse(b, c) && PartsParse(b, ToParse(c, s))
    ensures PutBack(c, Parsed(b, ToParse(c, s))) == Parsed(b, c)
  {
    var p := Parsed(b, ToParse(c, s));
    assert PutBack(c, p).fields == c.fields;
    if c.types.Some? {
      var kinds := c.types.value.kinds;
      hide Parsed, ToParse;
      forall kind | kind in kinds
        ensures PutBackKinds(kinds, HeldKinds(p))[kind] == ParsedDefs(b, kind, kinds[kind])
      {
        PutBackKind(b, c, s, kind);
      }
      assert PutBackKinds(kinds, HeldKinds(p)) == ParsedTypes(b, c.types.value).kinds;
    }
  }

  lemma ParsedDefsOf(b: Body, m: Meta, kind: string)
    requires PartsParse(b, m)
    ensures DefsOf(Parsed(b, m), kind).Keys == DefsOf(m, kind).Keys
    ensures forall name ::
      name in DefsOf(m, kind) ==>
        ParseDef(b, kind, name, DefsOf(m, kind)[name]) == Some(DefsOf(Parsed(b, m), kind)[name])
  {
  }

  lemma PutBackKind(b: Body, c: Meta, s: Meta, kind: string)
    requires StoredWhole(b, s) && PartsParse(b, c) && PartsParse(b, ToParse(c, s)) && c.types.Some?
    requires kind in c.types.value.kinds
    ensures PutBackDefs(DefsOf(c, kind), DefsOf(Parsed(b, ToParse(c, s)), kind))
            == ParsedDefs(b, kind, c.types.value.kinds[kind]).all
  {
    var defs, held := DefsOf(c, kind), DefsOf(s, kind);
    assert c.types.value.kinds[kind] == Defs(defs);
    forall name | name in defs && name !in ChangedDefs(defs, held)
      ensures ParseDef(b, kind, name, defs[name]) == Some(defs[name])
    {
      StoredDefs(b, s, kind, name);
    }
    ChangedDefsOf(c, s, kind);
    ParsedDefsOf(b, ToParse(c, s), kind);
    hide ToParse, Parsed, DefsOf, ParseDef;
  }

  /**
   * Where the store holds a schema that parses whole to itself, and the schema offered names no empty kind this release
   * does not know, parsing only what differs accepts exactly what the whole parse accepts, and gives the same schema.
   */
  lemma AgainstIsWhole(b: Body, c: Meta, s: Meta)
    requires StoredWhole(b, s) && NoEmptyUnknown(c)
    ensures ParseAgainst(b, c, s) == ParseWhole(b, c)
  {
    hide PartsParse, ToParse, SpaceRulesOk, KindApplies, PutBack, Parsed;
    PartsParseAlike(b, c, s);
    SpaceRulesAlike(b, c, s);
    if PartsParse(b, c) {
      if !b.reading {
        forall k: Kind
          ensures KindApplies(b, Parsed(b, c), None, k)
                  <==> (KindApplies(b, Parsed(b, ToParse(c, s)), None, k)
                        && KindApplies(b, c, Some(ChangedBy(ToParse(c, s))), k))
        {
          KindAppliesAlike(b, c, s, k);
        }
      }
      PutBackIsParsed(b, c, s);
    }
  }

  /** `c` without the names that are no kind and hold nothing. */
  function WithoutEmptyUnknown(c: Meta): Meta {
    if c.types.Some? && c.types.value.Types? then
      c.(types := Some(Types(map kind | kind in c.types.value.kinds
          && !IsEmptyUnknown(kind, c.types.value.kinds[kind]) :: c.types.value.kinds[kind])))
    else c
  }

  lemma WithoutIsLess(c: Meta, s: Meta)
    ensures ToParse(WithoutEmptyUnknown(c), s) == ToParse(c, s) && NoEmptyUnknown(WithoutEmptyUnknown(c))
    ensures forall kind :: DefsOf(WithoutEmptyUnknown(c), kind) == DefsOf(c, kind)
  {
    if c.types.Some? && c.types.value.Types? {
      var all, left := c.types.value.kinds, WithoutEmptyUnknown(c).types.value.kinds;
      forall kind | kind in all && kind !in left ensures ChangedKind(all[kind], HeldDefs(HeldKinds(s), kind)).None? {
        assert ChangedDefs(all[kind].all, HeldDefs(HeldKinds(s), kind)) == map[];
      }
      assert ChangedKinds(left, HeldKinds(s)) == ChangedKinds(all, HeldKinds(s));
      forall kind ensures DefsOf(WithoutEmptyUnknown(c), kind) == DefsOf(c, kind) {
      }
    }
  }

  /** Whatever the store holds, an unknown kind holding nothing is passed over: the rest decides. */
  lemma AgainstIsWholeOfTheRest(b: Body, c: Meta, s: Meta)
    requires StoredWhole(b, s)
    ensures ParseAgainst(b, c, s).Some? <==> ParseWhole(b, WithoutEmptyUnknown(c)).Some?
  {
    var rest := WithoutEmptyUnknown(c);
    WithoutIsLess(c, s);
    AgainstIsWhole(b, rest, s);
    var only := Some(ChangedBy(ToParse(c, s)));
    hide ParseWhole, ToParse, WithoutEmptyUnknown, DefsOf;
    assert forall k :: KindApplies(b, c, only, k) <==> KindApplies(b, rest, only, k) by {
      hide TypeApplies;
      assert c.fields == rest.fields by { KeepsFields(c); }
      forall k ensures KindApplies(b, c, only, k) <==> KindApplies(b, rest, only, k) {
        assert DefsOf(c, NameOf(k)) == DefsOf(rest, NameOf(k));
        SameInlineApplies(b, c, rest, only, k);
      }
    }
  }

  lemma KeepsFields(c: Meta)
    ensures WithoutEmptyUnknown(c).fields == c.fields
  {
  }

  /**
   * The two parses differ exactly when the schema names an empty kind this release does not know and the rest is
   * accepted.
   */
  lemma AgainstDiffersExactly(b: Body, c: Meta, s: Meta)
    requires StoredWhole(b, s)
    ensures ParseAgainst(b, c, s) == ParseWhole(b, c)
            <==> NoEmptyUnknown(c) || ParseWhole(b, WithoutEmptyUnknown(c)).None?
  {
    AgainstIsWholeOfTheRest(b, c, s);
    if NoEmptyUnknown(c) {
      AgainstIsWhole(b, c, s);
    } else {
      assert ParseWhole(b, c).None?;
    }
  }

  /**
   * Beside an empty store, a schema naming an empty unknown kind is accepted and stored as it is; parsed whole it is
   * refused.
   */
  lemma EmptyUnknownSlipsIn(b: Body)
    ensures var c, s := Meta(map[], Some(Types(map["planet" := Defs(map[])]))), Meta(map[], None);
            ParseAgainst(b, c, s) == Some(c) && ParseWhole(b, c) == None
  {
    var c, s := Meta(map[], Some(Types(map["planet" := Defs(map[])]))), Meta(map[], None);
    var kinds := map["planet" := Defs(map[])];
    assert "planet" in kinds && "planet" !in KIND_NAMES by { assert |"planet"| == 6; }
    assert ChangedDefs(map[], HeldDefs(HeldKinds(s), "planet")) == map[];
    assert ChangedKinds(kinds, HeldKinds(s)) == map[];
    assert ToParse(c, s) == s;
    assert Parsed(b, s) == s;
    assert PutBackKinds(kinds, HeldKinds(s)) == kinds;
    assert PutBack(c, s) == c;
  }
}
