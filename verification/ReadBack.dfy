/**
 * A declared property written as TypeScript (`schema/src/typescript.ts`) and read back (`schema/src/from-
 * typescript.ts`): the member's type, and the notes above it that say what the type cannot.
 */
module ReadBack {

  import opened Maybe

  // ---- A property and how it is written ---------------------------------------------------------------------------

  datatype Lit = S(s: string) | N(number: string) | B(b: bool)
  datatype PropertyType = StringT | NumberT | BooleanT | DateT
  datatype Base = StringBase | NumberBase | BooleanBase

  /** `description` and `mergeFn` are empty when not set; the numbers are their texts. */
  datatype Property = Property(
    typ: Option<PropertyType>,
    enum: Option<seq<Lit>>,
    required: bool,
    default: Option<string>,
    description: string,
    pattern: Option<string>,
    minimum: Option<string>,
    maximum: Option<string>,
    mergeFn: string)

  const ENUM_LITERAL_MAX: nat := 200

  function BaseOf(t: PropertyType): Base {
    match t
    case StringT => StringBase
    case DateT => StringBase
    case NumberT => NumberBase
    case BooleanT => BooleanBase
  }

  function TypeOf(v: Lit): Base { if v.S? then StringBase else if v.N? then NumberBase else BooleanBase }

  /**
   * A member's type as it is written: a base type, a union of literals, no value, or the kind's type for an untyped
   * value.
   */
  datatype MemberType = IsBase(base: Base) | Literals(values: seq<Lit>) | Never | AnyPrimitive | Unknown

  function Distinct(vs: seq<Lit>): seq<Lit> {
    if vs == [] then [] else if vs[|vs| - 1] in vs[..|vs| - 1] then Distinct(vs[..|vs| - 1])
        else Distinct(vs[..|vs| - 1]) + [vs[|vs| - 1]]
  }

  function OfBase(vs: seq<Lit>, base: Option<Base>): seq<Lit> {
    if vs == [] then [] else (if base.None? || base == Some(TypeOf(vs[0])) then [vs[0]] else []) + OfBase(vs[1..], base)
  }

  /** The enum as it is written: the values of the declared type, each once, in order. */
  function Filtered(p: Property): seq<Lit>
    requires p.enum.Some?
  {
    Distinct(OfBase(p.enum.value, if p.typ.Some? then Some(BaseOf(p.typ.value)) else None))
  }

  function WriteType(p: Property, entity: bool): MemberType {
    var base := if p.typ.Some? then IsBase(BaseOf(p.typ.value)) else if entity then AnyPrimitive else Unknown;
    if p.enum.None? || |Filtered(p)| > ENUM_LITERAL_MAX then base
    else if Filtered(p) == [] then Never
    else Literals(Filtered(p))
  }

  predicate Optional(p: Property) { !(p.required && p.default.None?) }

  // ---- What the compiler makes of it ------------------------------------------------------------------------------

  datatype Part = StringPart | NumberPart | UnknownPart | NeverPart | LitPart(lit: Lit)

  /** The parts of a written type; a boolean is its two literals. */
  function PartsOf(t: MemberType): multiset<Part> {
    match t
    case IsBase(StringBase) => multiset{StringPart}
    case IsBase(NumberBase) => multiset{NumberPart}
    case IsBase(BooleanBase) => multiset{LitPart(B(false)), LitPart(B(true))}
    case Literals(values) => multiset(LitParts(values))
    case Never => multiset{NeverPart}
    case AnyPrimitive => multiset{StringPart, NumberPart, LitPart(B(false)), LitPart(B(true))}
    case Unknown => multiset{UnknownPart}
  }

  function LitParts(vs: seq<Lit>): seq<Part> { if vs == [] then [] else [LitPart(vs[0])] + LitParts(vs[1..]) }

  /** The literals of a written type, in the order the source writes them; a boolean literal is not among them. */
  function WrittenLiterals(t: MemberType): seq<Lit> { if t.Literals? then NoBooleans(t.values) else [] }

  function NoBooleans(vs: seq<Lit>): seq<Lit> {
    if vs == [] then [] else (if vs[0].B? then [] else [vs[0]]) + NoBooleans(vs[1..])
  }

  // ---- The reading of a type --------------------------------------------------------------------------------------

  datatype ReadProperty = ReadProperty(base: Option<Base>, required: bool, enum: Option<seq<Lit>>)
  datatype Reading = Read(property: ReadProperty, enumLost: bool) | Refused

  predicate AllLits(parts: seq<Part>, base: Base) {
    forall i :: 0 <= i < |parts| ==> parts[i].LitPart? && TypeOf(parts[i].lit) == base
  }

  predicate AllListed(parts: seq<Part>) {
    forall i :: 0 <= i < |parts| ==> parts[i].LitPart? && !parts[i].lit.B?
  }

  function Values(parts: seq<Part>): seq<Lit>
    requires forall i :: 0 <= i < |parts| ==> parts[i].LitPart?
  {
    if parts == [] then [] else [parts[0].lit] + Values(parts[1..])
  }

  /** The compiler's values, in the source's order when the source's literals are exactly those values. */
  function EnumValues(parts: seq<Part>, written: seq<Lit>): seq<Lit>
    requires forall i :: 0 <= i < |parts| ==> parts[i].LitPart?
  {
    var checked := Values(parts);
    var once := Distinct(written);
    if |once| == |checked| && (forall i :: 0 <= i < |once| ==> once[i] in checked) then once else checked
  }

  predicate IsAnyPrimitive(parts: seq<Part>) {
    && |parts| == 4 && multiset(parts)[StringPart] == 1 && multiset(parts)[NumberPart] == 1
    && multiset(parts)[LitPart(B(false))] + multiset(parts)[LitPart(B(true))] == 2
  }

  function Classify(parts: seq<Part>, written: seq<Lit>, optional: bool, entity: bool): Reading {
    if parts == [] then Refused
    else if |parts| == 1 then
      match parts[0]
      case NeverPart => Refused
      case UnknownPart => if entity then Refused else Read(ReadProperty(None, !optional, None), false)
      case StringPart => Read(ReadProperty(Some(StringBase), !optional, None), false)
      case NumberPart => Read(ReadProperty(Some(NumberBase), !optional, None), false)
      case LitPart(B(_)) => Read(ReadProperty(Some(BooleanBase), !optional, None), true)
      case LitPart(lit) => Read(ReadProperty(Some(TypeOf(lit)), !optional, Some(EnumValues(parts, written))), false)
    else if AllLits(parts, BooleanBase) then Read(ReadProperty(Some(BooleanBase), !optional, None), false)
    else if AllListed(parts) then
      if |parts| > ENUM_LITERAL_MAX then Refused
      else
        var base := if AllLits(parts, StringBase) then Some(StringBase)
            else if AllLits(parts, NumberBase) then Some(NumberBase) else None;
        Read(ReadProperty(base, !optional, Some(EnumValues(parts, written))), false)
    else if entity && IsAnyPrimitive(parts) then Read(ReadProperty(None, !optional, None), false)
    else Refused
  }

  /** Reading what was written, whatever order the compiler keeps the parts of a union in. */
  ghost predicate ReadsAs(p: Property, entity: bool, parts: seq<Part>) {
    multiset(parts) == PartsOf(WriteType(p, entity))
  }

  function ReadMember(p: Property, entity: bool, parts: seq<Part>): Reading {
    Classify(parts, WrittenLiterals(WriteType(p, entity)), Optional(p), entity)
  }

  // ---- Lists of literals ------------------------------------------------------------------------------------------

  predicate NoTwice(vs: seq<Lit>) { forall i, j :: 0 <= i < j < |vs| ==> vs[i] != vs[j] }

  lemma {:induction false} DistinctIs(vs: seq<Lit>)
    ensures NoTwice(Distinct(vs)) && forall v :: v in Distinct(vs) <==> v in vs
    ensures NoTwice(vs) ==> Distinct(vs) == vs
  {
    if vs != [] {
      var n := |vs| - 1;
      assert vs == vs[..n] + [vs[n]];
      DistinctIs(vs[..n]);
    }
  }

  lemma {:induction false} OfBaseIs(vs: seq<Lit>, base: Base)
    ensures forall v :: v in OfBase(vs, Some(base)) <==> v in vs && TypeOf(v) == base
  {
    if vs != [] {
      OfBaseIs(vs[1..], base);
      assert vs == [vs[0]] + vs[1..];
    }
  }

  lemma {:induction false} NoBooleansAre(vs: seq<Lit>)
    requires forall v :: v in vs ==> !v.B?
    ensures NoBooleans(vs) == vs
  {
    if vs != [] {
      assert vs[0] in vs;
      NoBooleansAre(vs[1..]);
    }
  }

  lemma {:induction false} LitPartsAre(vs: seq<Lit>)
    ensures |LitParts(vs)| == |vs| && forall i :: 0 <= i < |vs| ==> LitParts(vs)[i] == LitPart(vs[i])
  {
    if vs != [] {
      LitPartsAre(vs[1..]);
    }
  }

  lemma {:induction false} ValuesAre(parts: seq<Part>)
    requires forall i :: 0 <= i < |parts| ==> parts[i].LitPart?
    ensures |Values(parts)| == |parts| && forall i :: 0 <= i < |parts| ==> Values(parts)[i] == parts[i].lit
  {
    if parts != [] {
      ValuesAre(parts[1..]);
    }
  }

  /** Sequences with the same parts have the same length and the same elements. */
  lemma SameParts(parts: seq<Part>, lits: seq<Part>)
    requires multiset(parts) == multiset(lits)
    ensures |parts| == |lits| && forall p :: p in parts <==> p in lits
  {
    assert |multiset(parts)| == |multiset(lits)|;
    forall p ensures p in parts <==> p in lits {
      assert p in parts <==> p in multiset(parts);
      assert p in lits <==> p in multiset(lits);
    }
  }

  /** The parts of a union of literals, in whatever order, are those literals. */
  lemma UnionParts(parts: seq<Part>, vs: seq<Lit>)
    requires multiset(parts) == multiset(LitParts(vs))
    ensures |parts| == |vs|
    ensures forall i :: 0 <= i < |parts| ==> parts[i].LitPart? && parts[i].lit in vs
    ensures forall i :: 0 <= i < |vs| ==> LitPart(vs[i]) in parts
  {
    hide LitParts;
    LitPartsAre(vs);
    var lits := LitParts(vs);
    SameParts(parts, lits);
    forall i | 0 <= i < |parts| ensures parts[i].LitPart? && parts[i].lit in vs {
      assert parts[i] in lits;
      var j :| 0 <= j < |lits| && lits[j] == parts[i];
    }
    forall i | 0 <= i < |vs| ensures LitPart(vs[i]) in parts {
      assert lits[i] in lits;
    }
  }

  /** An enum comes back in the order it was written. */
  lemma EnumComesBack(parts: seq<Part>, vs: seq<Lit>)
    requires multiset(parts) == multiset(LitParts(vs)) && NoTwice(vs) && forall v :: v in vs ==> !v.B?
    ensures forall i :: 0 <= i < |parts| ==> parts[i].LitPart?
    ensures EnumValues(parts, NoBooleans(vs)) == vs
  {
    UnionParts(parts, vs);
    NoBooleansAre(vs);
    DistinctIs(vs);
    ValuesAre(parts);
    forall i | 0 <= i < |vs| ensures vs[i] in Values(parts) {
      var j :| 0 <= j < |parts| && parts[j] == LitPart(vs[i]);
      assert Values(parts)[j] == vs[i];
    }
  }

  // ---- What comes back of a typed property ------------------------------------------------------------------------

  lemma FilteredIs(p: Property)
    requires p.typ.Some? && p.enum.Some?
    ensures NoTwice(Filtered(p))
    ensures forall v :: v in Filtered(p) <==> v in p.enum.value && TypeOf(v) == BaseOf(p.typ.value)
  {
    DistinctIs(OfBase(p.enum.value, Some(BaseOf(p.typ.value))));
    OfBaseIs(p.enum.value, BaseOf(p.typ.value));
  }

  /** `x` is listed, and `y` nowhere before it. */
  predicate ListedBefore(vs: seq<Lit>, x: Lit, y: Lit) { exists i :: 0 <= i < |vs| && vs[i] == x && y !in vs[..i] }

  predicate InOrder(vs: seq<Lit>, all: seq<Lit>) {
    forall i, j :: 0 <= i < j < |vs| ==> ListedBefore(all, vs[i], vs[j])
  }

  lemma StillListed(vs: seq<Lit>, last: Lit, x: Lit, y: Lit)
    requires ListedBefore(vs, x, y) || (x in vs && y !in vs)
    ensures ListedBefore(vs + [last], x, y)
  {
    var i :| 0 <= i < |vs| && vs[i] == x && y !in vs[..i];
    assert (vs + [last])[i] == x && (vs + [last])[..i] == vs[..i];
  }

  lemma OrderStays(once: seq<Lit>, vs: seq<Lit>, last: Lit)
    requires InOrder(once, vs)
    ensures InOrder(once, vs + [last])
  {
    hide ListedBefore;
    forall i, j | 0 <= i < j < |once| ensures ListedBefore(vs + [last], once[i], once[j]) {
      StillListed(vs, last, once[i], once[j]);
    }
  }

  lemma OrderGrows(once: seq<Lit>, vs: seq<Lit>, last: Lit)
    requires InOrder(once, vs) && last !in vs && forall v :: v in once ==> v in vs
    ensures InOrder(once + [last], vs + [last])
  {
    hide ListedBefore;
    forall i, j | 0 <= i < j < |once + [last]|
      ensures ListedBefore(vs + [last], (once + [last])[i], (once + [last])[j])
    {
      assert once[i] in once;
      StillListed(vs, last, once[i], (once + [last])[j]);
    }
  }

  lemma {:induction false} DistinctInOrder(vs: seq<Lit>)
    ensures InOrder(Distinct(vs), vs)
  {
    if vs != [] {
      hide InOrder;
      var init, last := vs[..|vs| - 1], vs[|vs| - 1];
      DistinctInOrder(init);
      DistinctIs(init);
      assert vs == init + [last];
      OrderStays(Distinct(init), init, last);
      if last !in init {
        OrderGrows(Distinct(init), init, last);
      }
    }
  }

  lemma {:induction false} OfBaseInOrder(vs: seq<Lit>, base: Option<Base>, x: Lit, y: Lit)
    requires ListedBefore(OfBase(vs, base), x, y)
    requires base.Some? ==> TypeOf(y) == base.value
    ensures ListedBefore(vs, x, y)
    decreases |vs|
  {
    var of := OfBase(vs, base);
    var i :| 0 <= i < |of| && of[i] == x && y !in of[..i];
    var rest := OfBase(vs[1..], base);
    if base.None? || base == Some(TypeOf(vs[0])) {
      assert of == [vs[0]] + rest;
      if i == 0 {
        assert vs[0] == x && y !in vs[..0];
      } else {
        assert of[0] in of[..i] && vs[0] != y;
        assert forall v :: v in rest[..i - 1] ==> v in of[..i] by { assert of[..i] == [vs[0]] + rest[..i - 1]; }
        assert rest[i - 1] == x;
        OneMoreListed(vs, base, x, y);
      }
    } else {
      assert of == rest && vs[0] != y;
      OneMoreListed(vs, base, x, y);
    }
  }

  lemma {:induction false} OneMoreListed(vs: seq<Lit>, base: Option<Base>, x: Lit, y: Lit)
    requires vs != [] && vs[0] != y && ListedBefore(OfBase(vs[1..], base), x, y)
    requires base.Some? ==> TypeOf(y) == base.value
    ensures ListedBefore(vs, x, y)
    decreases |vs|, 0
  {
    OfBaseInOrder(vs[1..], base, x, y);
    var k :| 0 <= k < |vs| - 1 && vs[1..][k] == x && y !in vs[1..][..k];
    assert vs[k + 1] == x && vs[..k + 1] == [vs[0]] + vs[1..][..k];
  }

  /** The declared type's values. */
  function ValueType(t: PropertyType): Base {
    if t == NumberT then NumberBase else if t == BooleanT then BooleanBase else StringBase
  }

  lemma ValueTypeIs(t: PropertyType)
    ensures ValueType(t) == BaseOf(t) && (BaseOf(t) == BooleanBase <==> t == BooleanT)
  {
  }

  /** The enum as it is written is the declared one's values of the declared type, each once, in the order declared. */
  lemma FilteredIsTheEnum(p: Property)
    requires p.enum.Some?
    ensures var vs := Filtered(p);
            && NoTwice(vs) && InOrder(vs, p.enum.value)
            && (forall v :: v in vs <==> v in p.enum.value && (p.typ.Some? ==> TypeOf(v) == ValueType(p.typ.value)))
  {
    var base := if p.typ.Some? then Some(BaseOf(p.typ.value)) else None;
    var of := OfBase(p.enum.value, base);
    if p.typ.Some? {
      FilteredIs(p);
    } else {
      FilteredUntyped(p);
    }
    DistinctInOrder(of);
    var vs := Filtered(p);
    forall i, j | 0 <= i < j < |vs| ensures ListedBefore(p.enum.value, vs[i], vs[j]) {
      assert vs[j] in vs;
      OfBaseInOrder(p.enum.value, base, vs[i], vs[j]);
    }
  }

  /** The property a reading gives back of a typed one; an enum of booleans does not come back. */
  function Expected(p: Property): ReadProperty
    requires p.typ.Some?
  {
    var enum := if p.enum.None? || p.typ == Some(BooleanT) || |Filtered(p)| > 200 then None
        else Some(Filtered(p));
    ReadProperty(Some(ValueType(p.typ.value)), p.required && p.default.None?, enum)
  }

  /**
   * A typed property reads back as its base type, required exactly when it is required and has no default, with its
   * filtered enum in the order it was declared; it is refused exactly when the filter leaves its enum no value. The one
   * enum that does not come back is a boolean's, and that is said only when it held a single value.
   */
  lemma TypedReadsBack(p: Property, entity: bool, parts: seq<Part>)
    requires p.typ.Some? && ReadsAs(p, entity, parts)
    ensures var r := ReadMember(p, entity, parts);
            && (r.Refused? <==> p.enum.Some? && Filtered(p) == [])
            && (r.Read? ==> r.property == Expected(p))
            && (r.Read? ==> (r.enumLost <==> p.typ == Some(BooleanT) && p.enum.Some? && |Filtered(p)| == 1))
  {
    ValueTypeIs(p.typ.value);
    hide ValueType, BaseOf, Filtered;
    if p.enum.Some? {
      FilteredIs(p);
    }
    var t := WriteType(p, entity);
    match t
    case IsBase(base) => BaseReadsBack(p, entity, parts, base);
    case Literals(values) =>
      if p.typ == Some(BooleanT) {
        BooleansReadBack(p, entity, parts, values);
      } else {
        LiteralsReadBack(p, entity, parts, values);
      }
    case _ => OnePart(parts, NeverPart);
  }

  lemma OnePart(parts: seq<Part>, part: Part)
    requires multiset(parts) == multiset{part}
    ensures parts == [part]
  {
    assert |multiset(parts)| == 1;
    assert parts[0] in multiset(parts);
  }

  lemma BaseReadsBack(p: Property, entity: bool, parts: seq<Part>, base: Base)
    requires p.typ.Some? && ReadsAs(p, entity, parts) && WriteType(p, entity) == IsBase(base)
    ensures ReadMember(p, entity, parts) == Read(ReadProperty(Some(base), !Optional(p), None), false)
  {
    match base
    case StringBase => OnePart(parts, StringPart);
    case NumberBase => OnePart(parts, NumberPart);
    case BooleanBase =>
      assert |multiset(parts)| == 2;
      forall i | 0 <= i < |parts| ensures parts[i] == LitPart(B(false)) || parts[i] == LitPart(B(true)) {
        assert parts[i] in multiset(parts);
      }
  }

  lemma LiteralsReadBack(p: Property, entity: bool, parts: seq<Part>, values: seq<Lit>)
    requires p.typ.Some? && p.typ != Some(BooleanT) && p.enum.Some? && ReadsAs(p, entity, parts)
    requires WriteType(p, entity) == Literals(values)
    requires NoTwice(values) && forall v :: v in values ==> TypeOf(v) == BaseOf(p.typ.value)
    ensures ReadMember(p, entity, parts)
            == Read(ReadProperty(Some(BaseOf(p.typ.value)), !Optional(p), Some(values)), false)
  {
    EnumComesBack(parts, values);
    UnionParts(parts, values);
    ListedClassify(parts, NoBooleans(values), Optional(p), entity, BaseOf(p.typ.value));
  }

  lemma ListedClassify(parts: seq<Part>, written: seq<Lit>, optional: bool, entity: bool, base: Base)
    requires 1 <= |parts| <= ENUM_LITERAL_MAX && base != BooleanBase && AllLits(parts, base)
    ensures Classify(parts, written, optional, entity)
            == Read(ReadProperty(Some(base), !optional, Some(EnumValues(parts, written))), false)
  {
    hide EnumValues, IsAnyPrimitive;
    var first := parts[0];
    assert first.LitPart? && TypeOf(first.lit) == base;
    if |parts| > 1 {
      assert !AllLits(parts, BooleanBase) && AllListed(parts);
      assert AllLits(parts, StringBase) <==> base == StringBase;
    }
  }

  lemma BooleansReadBack(p: Property, entity: bool, parts: seq<Part>, values: seq<Lit>)
    requires p.typ == Some(BooleanT) && p.enum.Some? && ReadsAs(p, entity, parts)
    requires WriteType(p, entity) == Literals(values)
    requires NoTwice(values) && forall v :: v in values ==> TypeOf(v) == BooleanBase
    ensures ReadMember(p, entity, parts) == Read(ReadProperty(Some(BooleanBase), !Optional(p), None), |values| == 1)
  {
    UnionParts(parts, values);
    assert AllLits(parts, BooleanBase);
  }

  /**
   * A boolean whose enum lists a value reads back as any boolean; that an enum was lost is said only when it held one
   * value.
   */
  lemma BooleanEnumIsLost(p: Property, entity: bool, parts: seq<Part>)
    requires p.typ == Some(BooleanT) && p.enum.Some? && Filtered(p) != [] && ReadsAs(p, entity, parts)
    ensures ReadMember(p, entity, parts)
            == Read(ReadProperty(Some(BooleanBase), p.required && p.default.None?, None), |Filtered(p)| == 1)
  {
    TypedReadsBack(p, entity, parts);
  }

  // ---- What comes back of an untyped property ---------------------------------------------------------------------

  predicate AllOf(vs: seq<Lit>, base: Base) { forall i :: 0 <= i < |vs| ==> TypeOf(vs[i]) == base }
  predicate NoneOf(vs: seq<Lit>, base: Base) { forall i :: 0 <= i < |vs| ==> TypeOf(vs[i]) != base }

  /** The one base type of a list without booleans, when it has one. */
  function OneBase(vs: seq<Lit>): Option<Base> {
    if AllOf(vs, StringBase) then Some(StringBase) else if AllOf(vs, NumberBase) then Some(NumberBase) else None
  }

  /** The reading of an untyped property. */
  function ExpectedUntyped(p: Property): Reading
    requires p.typ.None?
  {
    var required := p.required && p.default.None?;
    if p.enum.None? || |Filtered(p)| > ENUM_LITERAL_MAX then Read(ReadProperty(None, required, None), false)
    else if Filtered(p) == [] then Refused
    else if AllOf(Filtered(p), BooleanBase)
        then Read(ReadProperty(Some(BooleanBase), required, None), |Filtered(p)| == 1)
    else if NoneOf(Filtered(p), BooleanBase)
        then Read(ReadProperty(OneBase(Filtered(p)), required, Some(Filtered(p))), false)
    else Refused
  }

  lemma {:induction false} OfNoBase(vs: seq<Lit>)
    ensures OfBase(vs, None) == vs
  {
    if vs != [] {
      OfNoBase(vs[1..]);
    }
  }

  /**
   * An untyped property without an enum reads back untyped, for either kind of record. An enum without booleans comes
   * back in order, now with a base type where all its values have one; one of booleans alone reads back as any boolean;
   * and one that lists a boolean beside anything else is refused, as is one with no value.
   */
  lemma UntypedReadsBack(p: Property, entity: bool, parts: seq<Part>)
    requires p.typ.None? && ReadsAs(p, entity, parts)
    ensures ReadMember(p, entity, parts) == ExpectedUntyped(p)
  {
    match WriteType(p, entity)
    case Unknown => OnePart(parts, UnknownPart);
    case AnyPrimitive => AnyReadsBack(p, parts);
    case Never => OnePart(parts, NeverPart);
    case Literals(values) =>
      FilteredUntyped(p);
      hide Classify, Filtered, NoBooleans, LitParts;
      UntypedEnum(values, parts, Optional(p), entity);
  }

  /** An untyped value is any text, number or truth on a record that holds only those, and anything on another. */
  lemma UntypedIsWritten(p: Property)
    requires p.typ.None? && p.enum.None?
    ensures PartsOf(WriteType(p, true)) == multiset{StringPart, NumberPart, LitPart(B(true)), LitPart(B(false))}
    ensures PartsOf(WriteType(p, false)) == multiset{UnknownPart}
  {
  }

  lemma FilteredUntyped(p: Property)
    requires p.typ.None? && p.enum.Some?
    ensures NoTwice(Filtered(p)) && forall v :: v in Filtered(p) <==> v in p.enum.value
  {
    OfNoBase(p.enum.value);
    DistinctIs(OfBase(p.enum.value, None));
  }

  lemma AnyReadsBack(p: Property, parts: seq<Part>)
    requires multiset(parts) == PartsOf(AnyPrimitive)
    ensures Classify(parts, [], Optional(p), true) == Read(ReadProperty(None, !Optional(p), None), false)
  {
    hide EnumValues;
    assert |multiset(parts)| == 4;
    assert StringPart in multiset(parts);
    assert StringPart in parts;
  }

  lemma ClassifyListed(parts: seq<Part>, written: seq<Lit>, optional: bool, entity: bool)
    requires 1 <= |parts| <= ENUM_LITERAL_MAX && AllListed(parts)
    ensures Classify(parts, written, optional, entity)
            == Read(ReadProperty(if AllLits(parts, StringBase) then Some(StringBase)
                else if AllLits(parts, NumberBase) then Some(NumberBase) else None,
                                 !optional, Some(EnumValues(parts, written))), false)
  {
    hide EnumValues, IsAnyPrimitive;
    assert parts[0].LitPart? && !parts[0].lit.B?;
  }

  lemma ClassifyBooleans(parts: seq<Part>, written: seq<Lit>, optional: bool, entity: bool)
    requires parts != [] && AllLits(parts, BooleanBase)
    ensures Classify(parts, written, optional, entity)
            == Read(ReadProperty(Some(BooleanBase), !optional, None), |parts| == 1)
  {
    hide EnumValues, IsAnyPrimitive;
    assert parts[0].LitPart? && parts[0].lit.B?;
  }

  lemma ClassifyMixed(parts: seq<Part>, written: seq<Lit>, optional: bool, entity: bool)
    requires parts != [] && !AllListed(parts) && !AllLits(parts, BooleanBase)
    requires forall i :: 0 <= i < |parts| ==> parts[i].LitPart?
    ensures Classify(parts, written, optional, entity).Refused?
  {
    hide EnumValues;
    assert parts[0].LitPart?;
    assert StringPart !in multiset(parts);
  }

  lemma UntypedEnum(values: seq<Lit>, parts: seq<Part>, optional: bool, entity: bool)
    requires multiset(parts) == multiset(LitParts(values)) && NoTwice(values) && 1 <= |values| <= ENUM_LITERAL_MAX
    ensures Classify(parts, NoBooleans(values), optional, entity)
            == if AllOf(values, BooleanBase) then Read(ReadProperty(Some(BooleanBase), !optional, None), |values| == 1)
               else if NoneOf(values, BooleanBase)
                   then Read(ReadProperty(OneBase(values), !optional, Some(values)), false)
               else Refused
  {
    hide Classify, EnumValues, LitParts, NoBooleans;
    UnionParts(parts, values);
    PartsAre(values, parts, StringBase);
    PartsAre(values, parts, NumberBase);
    PartsAre(values, parts, BooleanBase);
    PartsListed(values, parts);
    if AllOf(values, BooleanBase) {
      ClassifyBooleans(parts, NoBooleans(values), optional, entity);
    } else if NoneOf(values, BooleanBase) {
      assert forall v :: v in values ==> !v.B?;
      EnumComesBack(parts, values);
      ClassifyListed(parts, NoBooleans(values), optional, entity);
    } else {
      ClassifyMixed(parts, NoBooleans(values), optional, entity);
    }
  }

  /** The parts have one base type exactly when the values do. */
  lemma PartsAre(values: seq<Lit>, parts: seq<Part>, base: Base)
    requires |parts| == |values|
    requires forall i :: 0 <= i < |parts| ==> parts[i].LitPart? && parts[i].lit in values
    requires forall i :: 0 <= i < |values| ==> LitPart(values[i]) in parts
    ensures AllLits(parts, base) <==> AllOf(values, base)
  {
    hide TypeOf;
    if AllLits(parts, base) {
      forall i | 0 <= i < |values| ensures TypeOf(values[i]) == base {
        var j :| 0 <= j < |parts| && parts[j] == LitPart(values[i]);
      }
    }
    if AllOf(values, base) {
      forall i | 0 <= i < |parts| ensures parts[i].LitPart? && TypeOf(parts[i].lit) == base {
        var j :| 0 <= j < |values| && values[j] == parts[i].lit;
      }
    }
  }

  lemma PartsListed(values: seq<Lit>, parts: seq<Part>)
    requires |parts| == |values|
    requires forall i :: 0 <= i < |parts| ==> parts[i].LitPart? && parts[i].lit in values
    requires forall i :: 0 <= i < |values| ==> LitPart(values[i]) in parts
    ensures AllListed(parts) <==> NoneOf(values, BooleanBase)
  {
    if AllListed(parts) {
      forall i | 0 <= i < |values| ensures TypeOf(values[i]) != BooleanBase {
        var j :| 0 <= j < |parts| && parts[j] == LitPart(values[i]);
      }
    }
    if NoneOf(values, BooleanBase) {
      forall i | 0 <= i < |parts| ensures parts[i].LitPart? && !parts[i].lit.B? {
        var j :| 0 <= j < |values| && values[j] == parts[i].lit;
      }
    }
  }
}
