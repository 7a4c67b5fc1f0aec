/**
 * The canonical text of a JSON-shaped value (`schema/src/canonical-json.ts`): a copy with its keys sorted at every
 * level, written by `JSON.stringify` (section 25.5.2 of ECMA-262). Strings are sequences of UTF-16 code units. A record
 * lists its own enumerable keys in the order the object enumerates them.
 */
module CanonicalJson {

  import opened Maybe

  type Unit = u: int | 0 <= u < 0x10000
  type Str = seq<Unit>

  datatype Value =
    | Null
    | Undefined
    | NotFinite
    | Flag(on: bool)
    | Number(token: Str)
    | Text(s: Str)
    | List(items: seq<Value>)
    | Record(entries: seq<Entry>)

  datatype Entry = Entry(key: Str, value: Value)

  // ---- The order of keys ------------------------------------------------------------------------------------------

  /** `__proto__`, by its code units: assigned into the copy, it sets the prototype and adds no key. */
  const PROTO: Str := [95, 95, 112, 114, 111, 116, 111, 95, 95]

  /** UTF-16 order, the order `sort` gives keys. */
  predicate Less(a: Str, b: Str) {
    b != [] && (a == [] || a[0] < b[0] || (a[0] == b[0] && Less(a[1..], b[1..])))
  }

  predicate Digits(s: Str) { s != [] && forall i :: 0 <= i < |s| ==> 48 <= s[i] <= 57 }

  function Numeral(s: Str): nat
    requires forall i :: 0 <= i < |s| ==> 48 <= s[i] <= 57
  {
    if s == [] then 0 else 10 * Numeral(s[..|s| - 1]) + (s[|s| - 1] - 48)
  }

  /** A key an object enumerates first, by its number: the text of an array index. */
  predicate IsIndex(key: Str) { Digits(key) && (key[0] == 48 ==> |key| == 1) && Numeral(key) < 0xFFFF_FFFF }

  /** The order an object enumerates keys that were added in UTF-16 order. */
  predicate Before(a: Str, b: Str) {
    if IsIndex(a) && IsIndex(b) then Numeral(a) < Numeral(b)
    else if IsIndex(a) || IsIndex(b) then IsIndex(a)
    else Less(a, b)
  }

  lemma {:induction false} LessIsOrder(a: Str, b: Str, c: Str)
    ensures !Less(a, a) && (a != b ==> Less(a, b) || Less(b, a)) && (Less(a, b) && Less(b, c) ==> Less(a, c))
  {
    if a != [] && b != [] {
      LessIsOrder(a[1..], b[1..], if c == [] then [] else c[1..]);
      assert a == [a[0]] + a[1..] && b == [b[0]] + b[1..];
    } else if a != [] {
      LessIsOrder(a[1..], [], []);
    }
  }

  /** `a` is a proper part of the start of `b`, or smaller at the first unit where they differ. */
  predicate Earlier(a: Str, b: Str) {
    || (|a| < |b| && b[..|a|] == a)
    || exists i :: 0 <= i < |a| && i < |b| && a[..i] == b[..i] && a[i] < b[i]
  }

  lemma {:induction false} LessIs(a: Str, b: Str)
    ensures Less(a, b) <==> Earlier(a, b)
  {
    if a != [] && b != [] {
      var p, q := a[1..], b[1..];
      LessIs(p, q);
      assert a == [a[0]] + p && b == [b[0]] + q;
      if a[0] < b[0] {
        assert a[..0] == b[..0];
      } else if a[0] == b[0] {
        if Earlier(p, q) {
          EarlierBehind(a, b);
        }
        if Earlier(a, b) {
          EarlierInside(a, b);
        }
      }
    } else if a == [] && b != [] {
      assert b[..0] == a;
    }
  }

  lemma EarlierBehind(a: Str, b: Str)
    requires a != [] && b != [] && a[0] == b[0] && Earlier(a[1..], b[1..])
    ensures Earlier(a, b)
  {
    var p, q := a[1..], b[1..];
    if |p| < |q| && q[..|p|] == p {
      assert b[..|a|] == [b[0]] + q[..|p|] && a == [a[0]] + p;
    } else {
      var i :| 0 <= i < |p| && i < |q| && p[..i] == q[..i] && p[i] < q[i];
      assert a[..i + 1] == [a[0]] + p[..i] && b[..i + 1] == [b[0]] + q[..i];
      assert a[i + 1] < b[i + 1];
    }
  }

  lemma EarlierInside(a: Str, b: Str)
    requires a != [] && b != [] && a[0] == b[0] && Earlier(a, b)
    ensures Earlier(a[1..], b[1..])
  {
    var p, q := a[1..], b[1..];
    if |a| < |b| && b[..|a|] == a {
      assert q[..|p|] == b[..|a|][1..] == p;
    } else {
      var i :| 0 <= i < |a| && i < |b| && a[..i] == b[..i] && a[i] < b[i];
      assert p[..i - 1] == a[..i][1..] && q[..i - 1] == b[..i][1..];
      assert p[i - 1] < q[i - 1];
    }
  }

  /** Two indices of the same number are the same text. */
  lemma {:induction false} NumeralsDiffer(a: Str, b: Str)
    requires Digits(a) && Digits(b) && (a[0] == 48 ==> |a| == 1) && (b[0] == 48 ==> |b| == 1)
    requires Numeral(a) == Numeral(b)
    ensures a == b
  {
    var m, n := |a| - 1, |b| - 1;
    assert a == a[..m] + [a[m]] && b == b[..n] + [b[n]];
    assert a[m] == b[n] && Numeral(a[..m]) == Numeral(b[..n]);
    if m > 0 { NumeralIsPositive(a[..m]); }
    if n > 0 { NumeralIsPositive(b[..n]); }
    if m > 0 && n > 0 {
      NumeralsDiffer(a[..m], b[..n]);
    }
  }

  lemma {:induction false} NumeralIsPositive(s: Str)
    requires Digits(s) && s[0] != 48
    ensures Numeral(s) > 0
  {
    if |s| > 1 {
      NumeralIsPositive(s[..|s| - 1]);
    } else {
      assert s[..0] == [];
    }
  }

  /** A number in decimal. */
  function Decimal(n: nat): Str { if n < 10 then ['0' as int + n] else Decimal(n / 10) + ['0' as int + n % 10] }

  lemma {:induction false} DecimalIs(n: nat)
    ensures Digits(Decimal(n)) && Numeral(Decimal(n)) == n
    ensures Decimal(n)[0] == 48 ==> n == 0 && |Decimal(n)| == 1
  {
    var d := Decimal(n);
    if n >= 10 {
      DecimalIs(n / 10);
      assert d[..|d| - 1] == Decimal(n / 10);
    } else {
      assert d[..0] == [];
    }
  }

  /** The keys enumerated first are the decimal texts of the numbers below 2^32 - 1, and their numbers are those. */
  lemma IndexIs(key: Str)
    ensures IsIndex(key) <==> exists n: nat :: n < 4294967295 && key == Decimal(n)
    ensures forall n: nat :: n < 4294967295 && key == Decimal(n) ==> Numeral(key) == n
  {
    if IsIndex(key) {
      var n := Numeral(key);
      DecimalIs(n);
      NumeralsDiffer(Decimal(n), key);
    }
    forall n: nat | n < 4294967295 && key == Decimal(n) ensures IsIndex(key) && Numeral(key) == n {
      DecimalIs(n);
    }
  }

  lemma BeforeIsOrder(a: Str, b: Str, c: Str)
    ensures !Before(a, a) && (a != b ==> Before(a, b) || Before(b, a))
    ensures (Before(a, b) && Before(b, c) ==> Before(a, c))
  {
    LessIsOrder(a, b, c);
    if IsIndex(a) && IsIndex(b) && Numeral(a) == Numeral(b) {
      NumeralsDiffer(a, b);
    }
  }

  // ---- The sorted copy --------------------------------------------------------------------------------------------

  function Inserted(sorted: seq<Entry>, e: Entry): seq<Entry> {
    if sorted == [] || Less(e.key, sorted[0].key) then [e] + sorted else [sorted[0]] + Inserted(sorted[1..], e)
  }

  /** The entries in the UTF-16 order of their keys. */
  function ByKey(es: seq<Entry>): seq<Entry> {
    if es == [] then [] else Inserted(ByKey(es[1..]), es[0])
  }

  /**
   * `out[key] = value` on an object that lacks the key: an index takes its place among the indices, another key goes
   * last.
   */
  function Assigned(out: seq<Entry>, e: Entry): seq<Entry> {
    if e.key == PROTO then out
    else if !IsIndex(e.key) then out + [e]
    else if out == [] || !IsIndex(out[0].key) || Numeral(e.key) < Numeral(out[0].key) then [e] + out
    else [out[0]] + Assigned(out[1..], e)
  }

  function AllAssigned(out: seq<Entry>, es: seq<Entry>): seq<Entry>
    decreases |es|
  {
    if es == [] then out else AllAssigned(Assigned(out, es[0]), es[1..])
  }

  function SortedCopy(v: Value): Value {
    match v
    case List(items) => List(Copies(items))
    case Record(entries) => Record(AllAssigned([], ByKey(EntryCopies(entries))))
    case _ => v
  }

  function Copies(vs: seq<Value>): seq<Value> {
    if vs == [] then [] else [SortedCopy(vs[0])] + Copies(vs[1..])
  }

  function EntryCopies(es: seq<Entry>): seq<Entry> {
    if es == [] then [] else [Entry(es[0].key, SortedCopy(es[0].value))] + EntryCopies(es[1..])
  }

  // ---- The text ---------------------------------------------------------------------------------------------------

  /** What `JSON.stringify` writes: a value with nothing left out of it. */
  datatype Tree = TNull | TFlag(on: bool) | TNumber(token: Str) | TText(s: Str) | TList(items: seq<Tree>)
      | TRecord(members: seq<Member>)
  datatype Member = Member(key: Str, value: Tree)

  function Written(v: Value): Option<Tree> {
    match v
    case Undefined => None
    case Null => Some(TNull)
    case NotFinite => Some(TNull)
    case Flag(on) => Some(TFlag(on))
    case Number(token) => Some(TNumber(token))
    case Text(s) => Some(TText(s))
    case List(items) => Some(TList(WrittenItems(items)))
    case Record(entries) => Some(TRecord(WrittenMembers(entries)))
  }

  function WrittenItems(vs: seq<Value>): seq<Tree> {
    if vs == [] then [] else [if Written(vs[0]).None? then TNull else Written(vs[0]).value] + WrittenItems(vs[1..])
  }

  function WrittenMembers(es: seq<Entry>): seq<Member> {
    if es == [] then []
    else
      (if Written(es[0].value).None? then [] else [Member(es[0].key, Written(es[0].value).value)])
      + WrittenMembers(es[1..])
  }

  const QUOTE: Unit := 34
  const COMMA: Unit := 44
  const COLON: Unit := 58
  const OPEN_LIST: Unit := 91
  const BACKSLASH: Unit := 92
  const CLOSE_LIST: Unit := 93
  const OPEN_RECORD: Unit := 123
  const CLOSE_RECORD: Unit := 125

  predicate High(u: Unit) { 0xD800 <= u <= 0xDBFF }
  predicate Low(u: Unit) { 0xDC00 <= u <= 0xDFFF }

  function Hex(n: int): Unit
    requires 0 <= n < 16
  {
    if n < 10 then 48 + n else 87 + n
  }

  function Escape(u: Unit): Str { [BACKSLASH] + Code(u) }

  function Code(u: Unit): Str {
    if u == 34 || u == 92 then [u]
    else if u == 8 then [98]
    else if u == 9 then [116]
    else if u == 10 then [110]
    else if u == 12 then [102]
    else if u == 13 then [114]
    else [117, Hex(u / 4096), Hex(u / 256 % 16), Hex(u / 16 % 16), Hex(u % 16)]
  }

  /** A code unit written by an escape: a quote, a backslash, a control, or a surrogate without its other half. */
  predicate Escaped(s: Str)
    requires s != []
  {
    s[0] < 32 || s[0] == 34 || s[0] == 92 || Low(s[0]) || (High(s[0]) && !(|s| > 1 && Low(s[1])))
  }

  function Quoted(s: Str): Str {
    if s == [] then [QUOTE]
    else if Escaped(s) then Escape(s[0]) + Quoted(s[1..])
    else if High(s[0]) then [s[0], s[1]] + Quoted(s[2..])
    else [s[0]] + Quoted(s[1..])
  }

  function Print(t: Tree): Str {
    match t
    case TNull => [110, 117, 108, 108]
    case TFlag(on) => if on then [116, 114, 117, 101] else [102, 97, 108, 115, 101]
    case TNumber(token) => token
    case TText(s) => [QUOTE] + Quoted(s)
    case TList(items) => [OPEN_LIST] + PrintItems(items)
    case TRecord(members) => [OPEN_RECORD] + PrintMembers(members)
  }

  function PrintItems(ts: seq<Tree>): Str {
    if ts == [] then [CLOSE_LIST]
    else Print(ts[0]) + (if |ts| > 1 then [COMMA] else []) + PrintItems(ts[1..])
  }

  function PrintMembers(ms: seq<Member>): Str {
    if ms == [] then [CLOSE_RECORD]
    else
      [QUOTE] + Quoted(ms[0].key) + [COLON] + Print(ms[0].value) + (if |ms| > 1 then [COMMA] else [])
      + PrintMembers(ms[1..])
  }

  /** The canonical text, or none when `JSON.stringify` has no text for the value. */
  function Canonical(v: Value): Option<Str> {
    var w := Written(SortedCopy(v));
    if w.None? then None else Some(Print(w.value))
  }

  // ---- What a value is --------------------------------------------------------------------------------------------

  predicate NumberUnit(u: Unit) { 48 <= u <= 57 || u == 43 || u == 45 || u == 46 || u == 101 }

  /** The text of a finite number: digits and a sign, a point or an exponent, and a digit or a sign first. */
  predicate IsToken(s: Str) {
    s != [] && (48 <= s[0] <= 57 || s[0] == 45) && forall i :: 0 <= i < |s| ==> NumberUnit(s[i])
  }

  predicate Proper(v: Value) {
    match v
    case Number(token) => IsToken(token)
    case List(items) => AllProper(items)
    case Record(entries) => ProperEntries(entries)
    case _ => true
  }

  predicate AllProper(vs: seq<Value>) { vs == [] || (Proper(vs[0]) && AllProper(vs[1..])) }

  /** Every entry is proper, and no key is written twice. */
  predicate ProperEntries(es: seq<Entry>) {
    es == [] || (Proper(es[0].value) && es[0].key !in KeysOf(es[1..]) && ProperEntries(es[1..]))
  }

  function KeysOf(es: seq<Entry>): set<Str> { if es == [] then {} else {es[0].key} + KeysOf(es[1..]) }

  predicate Nothing(v: Value) { v.Null? || v.NotFinite? || v.Undefined? }

  /**
   * Equal up to the order of keys, at every level: what is not there is the same as `undefined`, and in a list as
   * `null`.
   */
  ghost predicate Same(a: Value, b: Value)
    decreases a, 1
  {
    match a
    case Undefined => b.Undefined?
    case Null => b.Null? || b.NotFinite?
    case NotFinite => b.Null? || b.NotFinite?
    case List(items) =>
      b.List? && |items| == |b.items|
      && forall i :: 0 <= i < |items| ==> (Nothing(items[i]) && Nothing(b.items[i])) || Same(items[i], b.items[i])
    case Record(entries) => b.Record? && SameEntries(entries, b.entries)
    case _ => a == b
  }

  ghost predicate SameEntries(es: seq<Entry>, fs: seq<Entry>)
    decreases es, 0
  {
    && (forall key :: key != PROTO ==> (Shown(es, key) <==> Shown(fs, key)))
    && (forall i, j ::
          0 <= i < |es| && 0 <= j < |fs| && es[i].key == fs[j].key && es[i].key != PROTO ==>
            Same(es[i].value, fs[j].value))
  }

  predicate Shown(es: seq<Entry>, key: Str) { exists i :: 0 <= i < |es| && es[i].key == key && !es[i].value.Undefined? }
}
