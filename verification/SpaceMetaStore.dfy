/**
 * The doors of the schema parse (`schema/src/space-meta.ts`): the parse a store takes, strict or tolerant, whole or
 * against what is held, and the reading back of what a store holds, which keeps every part that is valid and names the
 * rest.
 */
module SpaceMetaStore {

  import opened Maybe
  import opened RuleAnalysis
  import opened SpaceMeta
  import SpaceMetaAccepted

  // ---- What this release knows ------------------------------------------------------------------------------------

  function KnownDef(b: Body, d: Def): Def { if d.Inline? then Inline(b.knownDef(d.doc)) else d }

  function KnownDefs(b: Body, defs: Defs): Defs {
    if defs.NoDefs? then defs else Defs(map name | name in defs.all :: KnownDef(b, defs.all[name]))
  }

  function KnownTypes(b: Body, types: Types): Types {
    if types.NoTypes? then types
    else Types(map kind | kind in types.kinds && kind in KIND_NAMES :: KnownDefs(b, types.kinds[kind]))
  }

  /** A schema without the keys, the kinds and the fields of a definition this release has never heard of. */
  function ReadKnown(b: Body, m: Meta): Meta {
    Meta(map key | key in m.fields && key in META_FIELDS :: m.fields[key],
         if m.types.Some? then Some(KnownTypes(b, m.types.value)) else None)
  }

  /** A schema without what the server writes itself. */
  function Stripped(m: Meta): Meta { m.(fields := map key | key in m.fields && key !in SERVER_OWNED :: m.fields[key]) }

  /**
   * Reading what this release knows keeps every known field, kind and type, and in a definition the fields it knows.
   */
  lemma ReadKnownKeeps(b: Body, m: Meta)
    ensures var r := ReadKnown(b, m);
            && (forall key :: key in r.fields <==> key in m.fields && SpaceMetaAccepted.Known(key))
            && (forall key :: key in r.fields ==> r.fields[key] == m.fields[key])
            && (forall kind, name, d :: SpaceMetaAccepted.Has(r, kind, name, d) <==>
                  && kind in {"entity", "fact", "edge", "chrono"}
                  && exists e :: SpaceMetaAccepted.Has(m, kind, name, e)
                       && d == if e.Inline? then Inline(b.knownDef(e.doc)) else e)
  {
    forall kind, name, d
      ensures SpaceMetaAccepted.Has(ReadKnown(b, m), kind, name, d) <==>
              && kind in {"entity", "fact", "edge", "chrono"}
              && exists e :: SpaceMetaAccepted.Has(m, kind, name, e)
                   && d == if e.Inline? then Inline(b.knownDef(e.doc)) else e
    {
      if m.types.Some? && m.types.value.Types? && kind in m.types.value.kinds && m.types.value.kinds[kind].Defs?
        && name in m.types.value.kinds[kind].all
      {
        var e := m.types.value.kinds[kind].all[name];
        assert SpaceMetaAccepted.Has(m, kind, name, e);
      }
    }
  }

  /** A strict body takes a definition written out only when it knows all of it. */
  ghost predicate Strict(b: Body) {
    forall k: Kind, doc: Doc :: b.inlineOk(k, doc) ==> b.knownDef(doc) == doc
  }

  // ---- The parse --------------------------------------------------------------------------------------------------

  function ParseMeta(b: Body, input: Meta, against: Option<Meta>, tolerant: bool): Option<Meta> {
    var c := if tolerant then ReadKnown(b, Stripped(input)) else Stripped(input);
    if against.None? then ParseWhole(b, c) else ParseAgainst(b, c, Stripped(against.value))
  }

  /** Read tolerantly, nothing unknown is left to differ over: against a store or whole, the answer is the same. */
  lemma TolerantParsesAgree(b: Body, input: Meta, stored: Meta)
    requires StoredWhole(b, Stripped(stored))
    ensures ParseMeta(b, input, Some(stored), true) == ParseMeta(b, input, None, true)
  {
    AgainstIsWhole(b, ReadKnown(b, Stripped(input)), Stripped(stored));
  }

  /** A schema without what the server writes into it itself. */
  function Offered(input: Meta): Meta {
    Meta(input.fields - {"version", "updatedAt", "previousVersions", "needsReindex", "reindexRun", "actualSchema",
                         "invalidRules", "unknownWriteFields"},
         input.types)
  }

  /** What is accepted: of a whole schema, and over what a store holds. */
  ghost predicate Accepts(b: Body, c: Meta, against: Option<Meta>) {
    if against.None? then SpaceMetaAccepted.Acceptable(b, c)
    else SpaceMetaAccepted.AcceptableOver(b, c, Offered(against.value))
  }

  /** What the parse accepts, strict or tolerant, whole or over any store; a tolerant one of what this release knows. */
  lemma ParseAccepts(b: Body, input: Meta, against: Option<Meta>, tolerant: bool)
    ensures var c := if tolerant then ReadKnown(b, Offered(input)) else Offered(input);
            ParseMeta(b, input, against, tolerant).Some? <==> Accepts(b, c, against)
  {
    assert Stripped(input) == Offered(input);
    var c := if tolerant then ReadKnown(b, Offered(input)) else Offered(input);
    if against.None? {
      SpaceMetaAccepted.WholeAccepts(b, c);
    } else {
      assert Stripped(against.value) == Offered(against.value);
      SpaceMetaAccepted.AgainstAccepts(b, c, Stripped(against.value));
    }
  }

  /**
   * A schema accepted over a store that parses whole is stored as one that parses whole, save for empty unknown kinds.
   */
  lemma StoreStaysWhole(b: Body, input: Meta, stored: Meta, tolerant: bool)
    requires StoredWhole(b, Stripped(stored)) && (tolerant || NoEmptyUnknown(Stripped(input)))
    ensures var r := ParseMeta(b, input, Some(stored), tolerant); r.Some? ==> StoredWhole(b, r.value)
  {
    var c := if tolerant then ReadKnown(b, Stripped(input)) else Stripped(input);
    AgainstIsWhole(b, c, Stripped(stored));
    if ParseWhole(b, c).Some? {
      ParsedAgain(b, c);
    }
  }

  /** Parsing is done once: what it gives parses to itself. */
  lemma ParsedAgain(b: Body, m: Meta)
    requires ParseWhole(b, m).Some?
    ensures ParseWhole(b, ParseWhole(b, m).value) == ParseWhole(b, m)
  {
    PartsParsedAgain(b, m);
  }

  lemma PartsParsedAgain(b: Body, m: Meta)
    requires PartsParse(b, m)
    ensures PartsParse(b, SpaceMeta.Parsed(b, m))
    ensures SpaceMeta.Parsed(b, SpaceMeta.Parsed(b, m)) == SpaceMeta.Parsed(b, m)
  {
    if m.types.Some? {
      var kinds := m.types.value.kinds;
      forall kind | kind in kinds
        ensures DefsParse(b, kind, ParsedDefs(b, kind, kinds[kind]))
                && ParsedDefs(b, kind, ParsedDefs(b, kind, kinds[kind])) == ParsedDefs(b, kind, kinds[kind])
      {
        DefsParsedAgain(b, kind, kinds[kind]);
      }
      assert ParsedTypes(b, ParsedTypes(b, m.types.value)) == ParsedTypes(b, m.types.value);
    }
  }

  lemma DefParsedAgain(b: Body, kind: string, name: string, d: Def)
    requires ParseDef(b, kind, name, d).Some?
    ensures ParseDef(b, kind, name, ParseDef(b, kind, name, d).value) == ParseDef(b, kind, name, d)
    ensures kind in KIND_NAMES
  {
  }

  lemma DefsParsedAgain(b: Body, kind: string, defs: Defs)
    requires DefsParse(b, kind, defs)
    ensures DefsParse(b, kind, ParsedDefs(b, kind, defs))
    ensures ParsedDefs(b, kind, ParsedDefs(b, kind, defs)) == ParsedDefs(b, kind, defs)
  {
    hide ParseDef;
    forall name | name in defs.all
      ensures ParseDef(b, kind, name, ParsedDefs(b, kind, defs).all[name]) == ParseDef(b, kind, name, defs.all[name])
    {
      DefParsedAgain(b, kind, name, defs.all[name]);
    }
  }

  // ---- Reading back what a store holds ----------------------------------------------------------------------------

  /** A part of a schema: a field, a kind whose types are no object, or one type. */
  datatype Part = FieldPart(key: string) | TypesPart | KindPart(kind: string) | TypePart(kind: string, name: string)

  /** The body while a stored schema is read: the checks of rules are off. */
  function Reading(b: Body): Body { b.(reading := true) }

  function KeptDefs(b: Body, kind: string, defs: map<string, Def>): map<string, Def> {
    map name | name in defs
        && ParseDef(Reading(b), kind, name, defs[name]).Some? :: ParseDef(Reading(b), kind, name, defs[name]).value
  }

  function KeptKinds(b: Body, kinds: map<string, Defs>): map<string, Defs> {
    map kind | kind in kinds && kinds[kind].Defs?
        && (KeptDefs(b, kind, kinds[kind].all) != map[] || kinds[kind].all == map[])
      :: Defs(KeptDefs(b, kind, kinds[kind].all))
  }

  function Kept(b: Body, m: Meta): Meta {
    Meta(map key | key in m.fields && FieldParses(b, key, m.fields[key]) :: m.fields[key],
         if m.types.Some? && m.types.value.Types? then Some(Types(KeptKinds(b, m.types.value.kinds))) else None)
  }

  function LeftOut(b: Body, m: Meta): set<Part> {
    (set key | key in m.fields && !FieldParses(b, key, m.fields[key]) :: FieldPart(key))
    + (if m.types.Some? && m.types.value.NoTypes? then {TypesPart} else {})
    + (set kind | kind in HeldKinds(m) && HeldKinds(m)[kind].NoDefs? :: KindPart(kind))
    + (set kind, name | kind in HeldKinds(m) && name in HeldDefs(HeldKinds(m), kind)
                        && ParseDef(Reading(b), kind, name, HeldDefs(HeldKinds(m), kind)[name]).None? ::
                            TypePart(kind, name))
  }

  function ReadBack(b: Body, stored: Meta): (Meta, set<Part>) {
    var known := ReadKnown(b, Stripped(stored));
    (Kept(b, known), LeftOut(b, known))
  }

  /** `x` is some of the parts of `m`, as they stand. */
  predicate PartOf(x: Meta, m: Meta) {
    && (forall key :: key in x.fields ==> key in m.fields && m.fields[key] == x.fields[key])
    && (x.types.Some? ==> m.types.Some? && (x.types.value.NoTypes? ==> m.types == x.types)
                          && (x.types.value.Types? ==> m.types.value.Types?))
    && (forall kind ::
          kind in HeldKinds(x) ==>
            kind in HeldKinds(m) && (HeldKinds(x)[kind].NoDefs? ==> HeldKinds(m)[kind] == HeldKinds(x)[kind]))
    && (forall kind :: kind in HeldKinds(x) && HeldKinds(x)[kind].Defs? ==>
          HeldKinds(m)[kind].Defs? && forall name :: name in HeldKinds(x)[kind].all ==>
            name in HeldKinds(m)[kind].all && HeldKinds(m)[kind].all[name] == HeldKinds(x)[kind].all[name])
  }

  /** What `Kept` gives is valid, whole. */
  lemma KeptIsWhole(b: Body, stored: Meta)
    ensures var known := ReadKnown(b, Stripped(stored)); ParseWhole(Reading(b), Kept(b, known)) == Some(Kept(b, known))
  {
    var known := ReadKnown(b, Stripped(stored));
    var r := Reading(b);
    var kept := Kept(b, known);
    hide ParseDef, SpaceRules, KnownDefs, KeptDefs;
    if kept.types.Some? {
      var kinds := kept.types.value.kinds;
      forall kind | kind in kinds
        ensures DefsParse(r, kind, kinds[kind]) && ParsedDefs(r, kind, kinds[kind]) == kinds[kind]
      {
        assert kind in KIND_NAMES;
        KeptParses(b, kind, known.types.value.kinds[kind].all);
      }
      assert ParsedTypes(r, kept.types.value) == kept.types.value;
    }
  }

  lemma KeptParses(b: Body, kind: string, defs: map<string, Def>)
    requires kind in KIND_NAMES
    ensures var kept := Defs(KeptDefs(b, kind, defs));
            DefsParse(Reading(b), kind, kept) && ParsedDefs(Reading(b), kind, kept) == kept
  {
    hide ParseDef;
    var kept := KeptDefs(b, kind, defs);
    forall name | name in kept ensures ParseDef(Reading(b), kind, name, kept[name]) == Some(kept[name]) {
      DefParsedAgain(Reading(b), kind, name, defs[name]);
    }
  }

  /**
   * Any selection of the stored parts that is valid whole, parsed, is part of what is kept: what is kept is the
   * greatest.
   */
  lemma KeptIsGreatest(b: Body, stored: Meta, x: Meta)
    requires PartOf(x, ReadKnown(b, Stripped(stored))) && ParseWhole(Reading(b), x).Some?
    ensures var kept, v := Kept(b, ReadKnown(b, Stripped(stored))), ParseWhole(Reading(b), x).value;
            && (forall key :: key in v.fields ==> key in kept.fields && kept.fields[key] == v.fields[key])
            && (forall kind, name ::
                  name in DefsOf(v, kind) ==>
                    name in DefsOf(kept, kind) && DefsOf(kept, kind)[name] == DefsOf(v, kind)[name])
  {
    var known := ReadKnown(b, Stripped(stored));
    var kept, v := Kept(b, known), ParseWhole(Reading(b), x).value;
    hide ReadKnown, PartOf, Kept, DefsOf;
    FieldsKept(b, known, x);
    forall kind, name | name in DefsOf(v, kind)
      ensures name in DefsOf(kept, kind) && DefsOf(kept, kind)[name] == DefsOf(v, kind)[name]
    {
      TypeKept(b, known, x, kind, name);
    }
  }

  lemma FieldsKept(b: Body, m: Meta, x: Meta)
    requires PartOf(x, m) && PartsParse(Reading(b), x)
    ensures forall key :: key in x.fields ==> key in Kept(b, m).fields && Kept(b, m).fields[key] == x.fields[key]
  {
  }

  lemma TypeKept(b: Body, m: Meta, x: Meta, kind: string, name: string)
    requires PartOf(x, m) && PartsParse(Reading(b), x) && name in DefsOf(SpaceMeta.Parsed(Reading(b), x), kind)
    ensures name in DefsOf(Kept(b, m), kind)
    ensures DefsOf(Kept(b, m), kind)[name] == DefsOf(SpaceMeta.Parsed(Reading(b), x), kind)[name]
  {
    hide ParseDef;
    ParsedDefsOf(Reading(b), x, kind);
    assert name in HeldKinds(x)[kind].all && HeldKinds(m)[kind].all[name] == HeldKinds(x)[kind].all[name];
    assert name in KeptDefs(b, kind, HeldKinds(m)[kind].all);
  }

  /** Reading back what was read back leaves nothing out and changes nothing. */
  lemma ReadBackIsStable(b: Body, stored: Meta)
    requires Strict(b)
    ensures ReadBack(b, ReadBack(b, stored).0) == (ReadBack(b, stored).0, {})
  {
    var known := ReadKnown(b, Stripped(stored));
    var kept := Kept(b, known);
    KeptIsWhole(b, stored);
    KeptIsKnown(b, known);
    WholeIsKept(b, kept);
  }

  lemma KeptIsKnown(b: Body, known: Meta)
    requires Strict(b)
    requires forall key :: key in known.fields ==> key in META_FIELDS
    requires forall kind :: kind in HeldKinds(known) ==> kind in KIND_NAMES
    ensures ReadKnown(b, Stripped(Kept(b, known))) == Kept(b, known)
  {
    var kept := Kept(b, known);
    hide KeptDefs, KnownDefs;
    FieldsAreNotOwned();
    assert Stripped(kept).fields == kept.fields;
    if kept.types.Some? {
      var kinds := kept.types.value.kinds;
      forall kind | kind in kinds ensures KnownDefs(b, kinds[kind]) == kinds[kind] {
        KeptKindIsKnown(b, kind, known.types.value.kinds[kind].all);
      }
      assert KnownTypes(b, kept.types.value).kinds == kinds;
    }
  }

  lemma KeptKindIsKnown(b: Body, kind: string, defs: map<string, Def>)
    requires Strict(b)
    ensures KnownDefs(b, Defs(KeptDefs(b, kind, defs))) == Defs(KeptDefs(b, kind, defs))
  {
    hide ParseDef, KnownDef;
    var kept := KeptDefs(b, kind, defs);
    forall name | name in kept ensures KnownDef(b, kept[name]) == kept[name] {
      ParsedIsKnown(b, kind, name, defs[name]);
    }
  }

  lemma ParsedIsKnown(b: Body, kind: string, name: string, d: Def)
    requires Strict(b) && ParseDef(Reading(b), kind, name, d).Some?
    ensures KnownDef(b, ParseDef(Reading(b), kind, name, d).value) == ParseDef(Reading(b), kind, name, d).value
  {
  }

  lemma FieldsAreNotOwned()
    ensures META_FIELDS !! SERVER_OWNED
  {
  }

  /**
   * What parses whole while reading is kept whole: the parse that goes first and the reading part by part say the same.
   */
  lemma WholeIsKept(b: Body, m: Meta)
    requires ParseWhole(Reading(b), m).Some?
    ensures Kept(b, m) == ParseWhole(Reading(b), m).value && LeftOut(b, m) == {}
  {
    var r := Reading(b);
    hide ParseDef, SpaceRules, Applies;
    if m.types.Some? {
      var kinds := m.types.value.kinds;
      forall kind | kind in kinds
        ensures kinds[kind].Defs? && KeptDefs(b, kind, kinds[kind].all) == ParsedDefs(r, kind, kinds[kind]).all
      {
        assert DefsParse(r, kind, kinds[kind]);
      }
      assert KeptKinds(b, kinds) == ParsedTypes(r, m.types.value).kinds;
    }
  }

  /**
   * The parts a schema is read by: each field, the types when they are no object, each kind that is none, and each
   * type.
   */
  predicate IsPart(m: Meta, part: Part) {
    match part
    case FieldPart(key) => key in m.fields
    case TypesPart => m.types.Some? && m.types.value.NoTypes?
    case KindPart(kind) => kind in HeldKinds(m) && HeldKinds(m)[kind].NoDefs?
    case TypePart(kind, name) => name in DefsOf(m, kind)
  }

  /** The schema that says that one part and nothing else. */
  function OnlyPart(m: Meta, part: Part): Meta
    requires IsPart(m, part)
  {
    match part
    case FieldPart(key) => Meta(map[key := m.fields[key]], None)
    case TypesPart => Meta(map[], m.types)
    case KindPart(kind) => Meta(map[], Some(Types(map[kind := HeldKinds(m)[kind]])))
    case TypePart(kind, name) => Meta(map[], Some(Types(map[kind := Defs(map[name := DefsOf(m, kind)[name]])])))
  }

  predicate HasPart(m: Meta, part: Part) {
    match part
    case FieldPart(key) => key in m.fields
    case TypesPart => m.types.Some?
    case KindPart(kind) => kind in HeldKinds(m)
    case TypePart(kind, name) => name in DefsOf(m, kind)
  }

  /** What is left out is exactly the parts that are not valid on their own, of every sort, and the rest is kept. */
  lemma LeftOutIsInvalid(b: Body, m: Meta, part: Part)
    ensures part in LeftOut(b, m) <==> IsPart(m, part) && ParseWhole(Reading(b), OnlyPart(m, part)).None?
    ensures IsPart(m, part) ==> (part in LeftOut(b, m) <==> !HasPart(Kept(b, m), part))
  {
    match part
    case TypePart(kind, name) =>
      if IsPart(m, part) {
        TypeLeftOut(b, m, kind, name);
      }
    case FieldPart(key) =>
      hide KeptKinds;
      if key in m.fields {
        FieldAlone(b, key, m.fields[key]);
      }
    case TypesPart =>
    case KindPart(kind) =>
      if IsPart(m, part) {
        var alone := map[kind := HeldKinds(m)[kind]];
        assert kind in alone && !DefsParse(Reading(b), kind, alone[kind]);
      }
  }

  /** A kind of types is kept when something of it is, or when it held nothing. */
  lemma KindsKept(b: Body, m: Meta, kind: string)
    ensures kind in HeldKinds(Kept(b, m))
            <==> && kind in HeldKinds(m) && HeldKinds(m)[kind].Defs?
                 && (HeldKinds(m)[kind].all == map[]
                     || exists name :: IsPart(m, TypePart(kind, name)) && TypePart(kind, name) !in LeftOut(b, m))
  {
    hide LeftOut, KeptDefs;
    if kind in HeldKinds(m) && HeldKinds(m)[kind].Defs? {
      var all := HeldKinds(m)[kind].all;
      forall name | name in all ensures name in KeptDefs(b, kind, all) <==> TypePart(kind, name) !in LeftOut(b, m) {
        OneKept(b, m, kind, name);
      }
      assert forall name :: IsPart(m, TypePart(kind, name)) <==> name in all;
      KeptAreSome(b, kind, all);
      if KeptDefs(b, kind, all) != map[] {
        var name :| name in KeptDefs(b, kind, all);
        assert IsPart(m, TypePart(kind, name)) && TypePart(kind, name) !in LeftOut(b, m);
      }
    }
  }

  lemma KeptAreSome(b: Body, kind: string, all: map<string, Def>)
    ensures forall name :: name in KeptDefs(b, kind, all) ==> name in all
  {
  }

  lemma OneKept(b: Body, m: Meta, kind: string, name: string)
    requires kind in HeldKinds(m) && HeldKinds(m)[kind].Defs? && name in HeldKinds(m)[kind].all
    ensures name in KeptDefs(b, kind, HeldKinds(m)[kind].all) <==> TypePart(kind, name) !in LeftOut(b, m)
  {
    hide ParseDef;
  }

  lemma FieldAlone(b: Body, key: string, doc: Doc)
    ensures ParseWhole(Reading(b), Meta(map[key := doc], None)).None? <==> !FieldParses(b, key, doc)
  {
    var fields := map[key := doc];
    assert key in fields;
  }

  lemma TypeLeftOut(b: Body, m: Meta, kind: string, name: string)
    requires name in DefsOf(m, kind)
    ensures TypePart(kind, name) in LeftOut(b, m)
            <==> ParseWhole(Reading(b),
                Meta(map[], Some(Types(map[kind := Defs(map[name := DefsOf(m, kind)[name]])])))).None?
    ensures TypePart(kind, name) in LeftOut(b, m) <==> name !in DefsOf(Kept(b, m), kind)
  {
    var d := DefsOf(m, kind)[name];
    var defs, kinds := map[name := d], map[kind := Defs(map[name := d])];
    assert name in defs && kind in kinds;
    assert DefsParse(Reading(b), kind, Defs(defs)) <==> kind in KIND_NAMES && ParseDef(Reading(b), kind, name, d).Some?;
    assert TypesParse(Reading(b), Types(kinds)) <==> DefsParse(Reading(b), kind, kinds[kind]);
    hide ParseDef;
  }

  // ---- The source's loops -----------------------------------------------------------------------------------------

  method ReadKnownDefs(b: Body, defs: map<string, Def>) returns (out: map<string, Def>)
    ensures out == map name | name in defs :: KnownDef(b, defs[name])
  {
    out := map[];
    var left := defs.Keys;
    while left != {}
      invariant left <= defs.Keys
      invariant out == map name | name in defs && name !in left :: KnownDef(b, defs[name])
      decreases |left|
    {
      var name :| name in left;
      out := out[name := KnownDef(b, defs[name])];
      left := left - {name};
    }
  }

  method ReadKnownType(b: Body, defs: Defs) returns (out: Defs)
    ensures out == KnownDefs(b, defs)
  {
    if defs.NoDefs? {
      return defs;
    }
    var all := ReadKnownDefs(b, defs.all);
    return Defs(all);
  }

  method ReadKnownKinds(b: Body, kinds: map<string, Defs>) returns (out: map<string, Defs>)
    ensures Types(out) == KnownTypes(b, Types(kinds))
  {
    out := map[];
    var left := kinds.Keys;
    while left != {}
      invariant left <= kinds.Keys
      invariant out == map kind | kind in kinds && kind in KIND_NAMES && kind !in left :: KnownDefs(b, kinds[kind])
      decreases |left|
    {
      hide KnownDefs, KIND_NAMES;
      var kind :| kind in left;
      if kind in KIND_NAMES {
        var defs := ReadKnownType(b, kinds[kind]);
        out := out[kind := defs];
      }
      left := left - {kind};
    }
  }

  method ReadKnownMeta(b: Body, raw: Meta) returns (out: Meta)
    ensures out == ReadKnown(b, raw)
  {
    var fields: map<string, Doc>, left := map[], raw.fields.Keys;
    while left != {}
      invariant left <= raw.fields.Keys
      invariant fields == map key | key in raw.fields && key in META_FIELDS && key !in left :: raw.fields[key]
      decreases |left|
    {
      var key :| key in left;
      if key in META_FIELDS {
        fields := fields[key := raw.fields[key]];
      }
      left := left - {key};
    }
    var types := raw.types;
    if types.Some? && types.value.Types? {
      var kinds := ReadKnownKinds(b, types.value.kinds);
      types := Some(Types(kinds));
    }
    out := Meta(fields, types);
  }

  /** What differs in one kind's types. */
  method DifferingDefs(c: map<string, Def>, s: map<string, Def>) returns (out: map<string, Def>)
    ensures out == ChangedDefs(c, s)
  {
    out := map[];
    var left := c.Keys;
    while left != {}
      invariant left <= c.Keys
      invariant out == map name | name in c && name !in left && !(name in s && s[name] == c[name]) :: c[name]
      decreases |left|
    {
      var name :| name in left;
      if !(name in s && s[name] == c[name]) {
        out := out[name := c[name]];
      }
      left := left - {name};
    }
  }

  method DifferingKind(defs: Defs, held: map<string, Def>) returns (out: Option<Defs>)
    ensures out == ChangedKind(defs, held)
  {
    if defs.NoDefs? {
      return Some(defs);
    }
    var changed := DifferingDefs(defs.all, held);
    return if changed != map[] then Some(Defs(changed)) else None;
  }

  method DifferingKinds(c: map<string, Defs>, s: map<string, Defs>) returns (out: map<string, Defs>)
    ensures out == ChangedKinds(c, s)
  {
    out := map[];
    var left := c.Keys;
    while left != {}
      invariant left <= c.Keys
      invariant out == map kind | kind in c && kind !in left && ChangedKind(c[kind], HeldDefs(s, kind)).Some?
                       :: ChangedKind(c[kind], HeldDefs(s, kind)).value
      decreases |left|
    {
      hide ChangedKind, HeldDefs;
      var kind :| kind in left;
      var changed := DifferingKind(c[kind], HeldDefs(s, kind));
      if changed.Some? {
        out := out[kind := changed.value];
      }
      left := left - {kind};
    }
  }

  /** What is parsed: a field that differs, and inside the types a type that does. */
  method Differing(c: Meta, s: Meta) returns (out: Meta)
    ensures out == ToParse(c, s)
  {
    var fields: map<string, Doc>, left := map[], c.fields.Keys;
    while left != {}
      invariant left <= c.fields.Keys
      invariant fields == map key | key in c.fields && key !in left
              && !(key in s.fields && s.fields[key] == c.fields[key]) :: c.fields[key]
      decreases |left|
    {
      var key :| key in left;
      if !(key in s.fields && s.fields[key] == c.fields[key]) {
        fields := fields[key := c.fields[key]];
      }
      left := left - {key};
    }
    var types: Option<Types> := None;
    if c.types.Some? {
      if c.types.value.NoTypes? {
        if c.types != s.types {
          types := c.types;
        }
      } else {
        var kinds := DifferingKinds(c.types.value.kinds, HeldKinds(s));
        if kinds != map[] {
          types := Some(Types(kinds));
        }
      }
    }
    out := Meta(fields, types);
  }

  /** The parts of the types back where they came from: parsed where it was parsed, carried where it was not. */
  method PutTypesBack(c: map<string, Defs>, p: map<string, Defs>) returns (out: map<string, Defs>)
    ensures out == PutBackKinds(c, p)
  {
    out := map[];
    var left := c.Keys;
    while left != {}
      invariant left <= c.Keys
      invariant out == map kind | kind in c && kind !in left
                       :: if c[kind].NoDefs? then c[kind] else Defs(PutBackDefs(c[kind].all, HeldDefs(p, kind)))
      decreases |left|
    {
      var kind :| kind in left;
      if c[kind].NoDefs? {
        out := out[kind := c[kind]];
      } else {
        var defs := PutDefsBack(c[kind].all, HeldDefs(p, kind));
        out := out[kind := Defs(defs)];
      }
      left := left - {kind};
    }
  }

  method PutDefsBack(c: map<string, Def>, p: map<string, Def>) returns (out: map<string, Def>)
    ensures out == PutBackDefs(c, p)
  {
    out := map[];
    var left := c.Keys;
    while left != {}
      invariant left <= c.Keys
      invariant out == map name | name in c && name !in left :: if name in p then p[name] else c[name]
      decreases |left|
    {
      var name :| name in left;
      out := out[name := if name in p then p[name] else c[name]];
      left := left - {name};
    }
  }

  /** The one parse of a schema a store takes. */
  method ParseSpaceMeta(b: Body, input: Meta, against: Option<Meta>, tolerant: bool) returns (r: Option<Meta>)
    ensures r == ParseMeta(b, input, against, tolerant)
    ensures r.Some? <==> Accepts(b, if tolerant then ReadKnown(b, Offered(input)) else Offered(input), against)
  {
    ParseAccepts(b, input, against, tolerant);
    var c := Stripped(input);
    if tolerant {
      c := ReadKnownMeta(b, c);
    }
    if against.None? {
      return ParseWhole(b, c);
    }
    var s := Stripped(against.value);
    var toParse := Differing(c, s);
    var parsed := ParseWhole(b, toParse);
    if parsed.None? || !Applies(b, c, Some(ChangedBy(toParse))) {
      return None;
    }
    var types := c.types;
    if types.Some? {
      if types.value.NoTypes? {
        types := if parsed.value.types.Some? then parsed.value.types else types;
      } else {
        var kinds := PutTypesBack(types.value.kinds, HeldKinds(parsed.value));
        types := Some(Types(kinds));
      }
    }
    r := Some(Meta(map key | key in c.fields :: if key in parsed.value.fields then parsed.value.fields[key]
        else c.fields[key], types));
  }

  method KeepDefs(b: Body, kind: string, defs: map<string, Def>) returns (kept: map<string, Def>, skipped: set<Part>)
    ensures kept == KeptDefs(b, kind, defs)
    ensures skipped == set name | name in defs
            && ParseDef(Reading(b), kind, name, defs[name]).None? :: TypePart(kind, name)
  {
    kept, skipped := map[], {};
    var left := defs.Keys;
    while left != {}
      invariant left <= defs.Keys
      invariant kept == map name | name in defs && name !in left && ParseDef(Reading(b), kind, name, defs[name]).Some?
                        :: ParseDef(Reading(b), kind, name, defs[name]).value
      invariant skipped == set name | name in defs && name !in left
              && ParseDef(Reading(b), kind, name, defs[name]).None? :: TypePart(kind, name)
      decreases |left|
    {
      hide ParseDef;
      var name :| name in left;
      var part := ParseDef(Reading(b), kind, name, defs[name]);
      if part.Some? {
        kept := kept[name := part.value];
      } else {
        skipped := skipped + {TypePart(kind, name)};
      }
      left := left - {name};
    }
  }

  method KeepFields(b: Body, fields: map<string, Doc>) returns (kept: map<string, Doc>, skipped: set<Part>)
    ensures kept == map key | key in fields && FieldParses(b, key, fields[key]) :: fields[key]
    ensures skipped == set key | key in fields && !FieldParses(b, key, fields[key]) :: FieldPart(key)
  {
    hide FieldParses;
    kept, skipped := map[], {};
    var left := fields.Keys;
    while left != {}
      invariant left <= fields.Keys
      invariant kept == map key | key in fields && key !in left && FieldParses(b, key, fields[key]) :: fields[key]
      invariant skipped == set key | key in fields && key !in left
              && !FieldParses(b, key, fields[key]) :: FieldPart(key)
      decreases |left|
    {
      var key :| key in left;
      if FieldParses(b, key, fields[key]) {
        kept := kept[key := fields[key]];
      } else {
        skipped := skipped + {FieldPart(key)};
      }
      left := left - {key};
    }
  }

  /** The kinds of what is held, type by type: a kind is kept with what is left of it, unless nothing is. */
  method KeepKinds(b: Body, kinds: map<string, Defs>) returns (kept: map<string, Defs>, skipped: set<Part>)
    ensures kept == KeptKinds(b, kinds) && skipped == SkippedIn(b, kinds)
  {
    hide KeptKinds, SkippedIn, KeptDefs, ParseDef;
    kept, skipped := map[], {};
    var left := kinds.Keys;
    ghost var done: map<string, Defs> := map[];
    NoKinds(b);
    while left != {}
      invariant left <= kinds.Keys && done.Keys == kinds.Keys - left
      invariant forall kind :: kind in done ==> done[kind] == kinds[kind]
      invariant kept == KeptKinds(b, done) && skipped == SkippedIn(b, done)
      decreases |left|
    {
      var kind :| kind in left;
      OneMoreSkipped(b, done, kind, kinds[kind]);
      OneMoreKept(b, done, kind, kinds[kind]);
      if kinds[kind].NoDefs? {
        skipped := skipped + {KindPart(kind)};
      } else {
        var defs, parts := KeepDefs(b, kind, kinds[kind].all);
        skipped := skipped + parts;
        if defs != map[] || kinds[kind].all == map[] {
          kept := kept[kind := Defs(defs)];
        }
      }
      left, done := left - {kind}, done[kind := kinds[kind]];
    }
    assert done == kinds;
  }

  lemma NoKinds(b: Body)
    ensures KeptKinds(b, map[]) == map[] && SkippedIn(b, map[]) == {}
  {
  }

  lemma OneMoreKept(b: Body, kinds: map<string, Defs>, kind: string, defs: Defs)
    requires kind !in kinds
    ensures KeptKinds(b, kinds[kind := defs])
            == if defs.Defs? && (KeptDefs(b, kind, defs.all) != map[] || defs.all == map[])
               then KeptKinds(b, kinds)[kind := Defs(KeptDefs(b, kind, defs.all))] else KeptKinds(b, kinds)
  {
    hide KeptDefs;
  }

  function SkippedIn(b: Body, kinds: map<string, Defs>): set<Part> {
    (set kind | kind in kinds && kinds[kind].NoDefs? :: KindPart(kind))
    + (set kind, name | kind in kinds && name in HeldDefs(kinds, kind)
                        && ParseDef(Reading(b), kind, name, HeldDefs(kinds, kind)[name]).None? :: TypePart(kind, name))
  }

  lemma OneMoreSkipped(b: Body, kinds: map<string, Defs>, kind: string, defs: Defs)
    requires kind !in kinds
    ensures SkippedIn(b, kinds[kind := defs])
            == SkippedIn(b, kinds)
               + if defs.NoDefs? then {KindPart(kind)}
                 else
                   (set name | name in defs.all && ParseDef(Reading(b), kind, name, defs.all[name]).None?
                      :: TypePart(kind, name))
  {
    hide ParseDef;
    var more := kinds[kind := defs];
    assert HeldDefs(more, kind) == if defs.Defs? then defs.all else map[];
    assert forall k :: k != kind ==> HeldDefs(more, k) == HeldDefs(kinds, k);
  }

  /** Reading back: the whole parse first, which is the usual case, and part by part when it fails. */
  method ReadStoredMeta(b: Body, stored: Meta) returns (meta: Meta, skipped: set<Part>)
    ensures (meta, skipped) == ReadBack(b, stored)
  {
    var known := ReadKnownMeta(b, Stripped(stored));
    var whole := ParseWhole(Reading(b), known);
    if whole.Some? {
      WholeIsKept(b, known);
      return whole.value, {};
    }
    var fields, parts := KeepFields(b, known.fields);
    skipped := parts;
    var types: Option<Types> := None;
    if known.types.Some? {
      if known.types.value.NoTypes? {
        skipped := skipped + {TypesPart};
      } else {
        var kinds, more := KeepKinds(b, known.types.value.kinds);
        types := Some(Types(kinds));
        skipped := skipped + more;
      }
    }
    meta := Meta(fields, types);
    NoKinds(b);
    SkippedIsLeftOut(b, known);
    hide KeptKinds, SkippedIn, LeftOut, ParseWhole;
    assert fields == Kept(b, known).fields;
    assert parts == set key | key in known.fields && !FieldParses(b, key, known.fields[key]) :: FieldPart(key);
    assert meta == Kept(b, known);
    assert skipped == LeftOut(b, known);
  }

  lemma SkippedIsLeftOut(b: Body, m: Meta)
    ensures LeftOut(b, m) == (set key | key in m.fields && !FieldParses(b, key, m.fields[key]) :: FieldPart(key))
                             + (if m.types.Some? && m.types.value.NoTypes? then {TypesPart} else {})
                             + SkippedIn(b, HeldKinds(m))
  {
  }
}
