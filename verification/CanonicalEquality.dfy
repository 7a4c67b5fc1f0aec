/**
 * The canonical text decides equality: two values have one text exactly when they are equal up to the order of their
 * keys.
 */
module CanonicalEquality {

  import opened Maybe
  import opened CanonicalJson
  import opened CanonicalPrint

  // ---- Sequences in the order of their keys -----------------------------------------------------------------------

  function EntryKey(e: Entry): Str { e.key }
  function MemberKey(m: Member): Str { m.key }

  ghost predicate Ordered<T(!new)>(xs: seq<T>, key: T -> Str) {
    xs == [] || ((forall x :: x in xs[1..] ==> Before(key(xs[0]), key(x))) && Ordered(xs[1..], key))
  }

  /** Only one order of the same elements is in the order of keys. */
  lemma {:induction false} OrderIsUnique<T(!new)>(xs: seq<T>, ys: seq<T>, key: T -> Str)
    requires Ordered(xs, key) && Ordered(ys, key) && forall x :: x in xs <==> x in ys
    ensures xs == ys
    decreases |xs| + |ys|
  {
    assert xs != [] ==> xs[0] in ys;
    assert ys != [] ==> ys[0] in xs;
    if xs != [] {
      assert xs == [xs[0]] + xs[1..] && ys == [ys[0]] + ys[1..];
      BeforeIsOrder(key(xs[0]), key(ys[0]), key(xs[0]));
      BeforeIsOrder(key(ys[0]), key(xs[0]), key(ys[0]));
      assert xs[0] in ys && ys[0] in xs;
      assert xs[0] == ys[0];
      forall x ensures x in xs[1..] <==> x in ys[1..] {
        BeforeIsOrder(key(xs[0]), key(xs[0]), key(xs[0]));
        assert x in xs <==> x in ys;
      }
      OrderIsUnique(xs[1..], ys[1..], key);
    }
  }

  lemma {:induction false} OrderedLast<T(!new)>(xs: seq<T>, x: T, key: T -> Str)
    requires Ordered(xs, key) && forall y :: y in xs ==> Before(key(y), key(x))
    ensures Ordered(xs + [x], key)
  {
    if xs != [] {
      assert xs == [xs[0]] + xs[1..];
      OrderedLast(xs[1..], x, key);
      assert (xs + [x])[1..] == xs[1..] + [x];
    }
  }

  // ---- The sorted copy's entries ----------------------------------------------------------------------------------

  ghost predicate Rising(es: seq<Entry>) {
    es == [] || ((forall e :: e in es[1..] ==> Less(es[0].key, e.key)) && Rising(es[1..]))
  }

  lemma {:induction false} InsertedRises(es: seq<Entry>, e: Entry)
    requires Rising(es) && forall f :: f in es ==> f.key != e.key
    ensures Rising(Inserted(es, e)) && forall f :: f in Inserted(es, e) <==> f in es || f == e
  {
    if es != [] {
      assert es == [es[0]] + es[1..];
      LessIsOrder(e.key, es[0].key, e.key);
      if Less(e.key, es[0].key) {
        forall f | f in es ensures Less(e.key, f.key) { LessIsOrder(e.key, es[0].key, f.key); }
        assert ([e] + es)[1..] == es;
      } else {
        InsertedRises(es[1..], e);
        assert ([es[0]] + Inserted(es[1..], e))[1..] == Inserted(es[1..], e);
      }
    }
  }

  lemma {:induction false} KeysAre(es: seq<Entry>)
    ensures forall e :: e in es ==> e.key in KeysOf(es)
    ensures forall key :: key in KeysOf(es) ==> exists i :: 0 <= i < |es| && es[i].key == key
  {
    if es != [] {
      KeysAre(es[1..]);
      assert es == [es[0]] + es[1..];
      forall key | key in KeysOf(es[1..]) ensures exists i :: 0 <= i < |es| && es[i].key == key {
        var i :| 0 <= i < |es[1..]| && es[1..][i].key == key;
        assert es[i + 1].key == key;
      }
    }
  }

  predicate DistinctKeys(es: seq<Entry>) { es == [] || (es[0].key !in KeysOf(es[1..]) && DistinctKeys(es[1..])) }

  lemma {:induction false} ByKeyRises(es: seq<Entry>)
    requires DistinctKeys(es)
    ensures Rising(ByKey(es)) && forall e :: e in ByKey(es) <==> e in es
  {
    if es != [] {
      ByKeyRises(es[1..]);
      KeysAre(es[1..]);
      assert es == [es[0]] + es[1..];
      InsertedRises(ByKey(es[1..]), es[0]);
    }
  }

  lemma {:induction false} IndexPlaced(out: seq<Entry>, e: Entry)
    requires Ordered(out, EntryKey) && IsIndex(e.key) && e.key != PROTO && forall f :: f in out ==> f.key != e.key
    ensures Ordered(Assigned(out, e), EntryKey) && forall f :: f in Assigned(out, e) <==> f in out || f == e
  {
    if out == [] {
      assert [e][1..] == [];
    } else {
      assert out == [out[0]] + out[1..];
      BeforeIsOrder(e.key, out[0].key, e.key);
      if !IsIndex(out[0].key) || Numeral(e.key) < Numeral(out[0].key) {
        forall f | f in out ensures Before(e.key, f.key) { BeforeIsOrder(e.key, out[0].key, f.key); }
        assert ([e] + out)[1..] == out;
      } else {
        IndexPlaced(out[1..], e);
        assert ([out[0]] + Assigned(out[1..], e))[1..] == Assigned(out[1..], e);
      }
    }
  }

  lemma ProtoIsNoIndex()
    ensures !IsIndex(PROTO)
  {
    assert PROTO[0] == 95;
  }

  /**
   * Assigning entries in UTF-16 order leaves an object whose keys enumerate in order, with each entry but `__proto__`.
   */
  lemma {:induction false} AssignedInOrder(out: seq<Entry>, es: seq<Entry>)
    requires Ordered(out, EntryKey) && Rising(es)
    requires forall f, e ::
      f in out && e in es ==> f.key != e.key && (!IsIndex(f.key) && !IsIndex(e.key) ==> Less(f.key, e.key))
    ensures Ordered(AllAssigned(out, es), EntryKey)
    ensures forall f :: f in AllAssigned(out, es) <==> f in out || (f in es && f.key != PROTO)
    decreases |es|
  {
    if es != [] {
      var e := es[0];
      assert es == [e] + es[1..] && e in es;
      ProtoIsNoIndex();
      if e.key == PROTO {
      } else if IsIndex(e.key) {
        IndexPlaced(out, e);
      } else {
        OrderedLast(out, e, EntryKey);
      }
      assert forall f :: f in Assigned(out, e) ==> f in out || f == e;
      forall f, g | f in Assigned(out, e) && g in es[1..]
        ensures f.key != g.key && (!IsIndex(f.key) && !IsIndex(g.key) ==> Less(f.key, g.key))
      {
        LessIsOrder(e.key, e.key, e.key);
      }
      AssignedInOrder(Assigned(out, e), es[1..]);
    }
  }

  lemma {:induction false} CopiesAre(es: seq<Entry>)
    ensures |EntryCopies(es)| == |es| && KeysOf(EntryCopies(es)) == KeysOf(es)
    ensures forall i :: 0 <= i < |es| ==> EntryCopies(es)[i] == Entry(es[i].key, SortedCopy(es[i].value))
    ensures DistinctKeys(es) ==> DistinctKeys(EntryCopies(es))
  {
    if es != [] {
      CopiesAre(es[1..]);
      assert EntryCopies(es)[1..] == EntryCopies(es[1..]);
    }
  }

  /** Exactly the copies of each entry but `__proto__`'s. */
  ghost predicate HoldsCopies(out: seq<Entry>, es: seq<Entry>) {
    forall f :: f in out
        <==> f.key != PROTO && exists i :: 0 <= i < |es| && f == Entry(es[i].key, SortedCopy(es[i].value))
  }

  /** The entries a record's sorted copy has. */
  function CopiedEntries(es: seq<Entry>): seq<Entry> { AllAssigned([], ByKey(EntryCopies(es))) }

  /** The entries of a record's sorted copy: in the order of their keys, each entry's copy but `__proto__`'s. */
  lemma CopyIs(es: seq<Entry>)
    requires DistinctKeys(es)
    ensures Ordered(CopiedEntries(es), EntryKey) && HoldsCopies(CopiedEntries(es), es)
  {
    hide SortedCopy, AllAssigned, ByKey, EntryCopies, Ordered, Rising, KeysOf, DistinctKeys;
    var copies := EntryCopies(es);
    CopiesAre(es);
    CopiesHold(es);
    ByKeyRises(copies);
    NoneAssigned();
    AssignedInOrder([], ByKey(copies));
  }

  lemma {:induction false} OrderedPairs<T(!new)>(xs: seq<T>, key: T -> Str, i: nat, j: nat)
    requires Ordered(xs, key) && i < j < |xs|
    ensures Before(key(xs[i]), key(xs[j]))
  {
    if i == 0 {
      assert xs[j] == xs[1..][j - 1];
    } else {
      OrderedPairs(xs[1..], key, i - 1, j - 1);
    }
  }

  /**
   * Array indices first, by their numbers, and every other key after them, each earlier than the next in UTF-16 order.
   */
  ghost predicate KeysRise(keys: seq<Str>) {
    forall i, j :: 0 <= i < j < |keys| ==>
      && (IsIndex(keys[j]) ==> IsIndex(keys[i]) && Numeral(keys[i]) < Numeral(keys[j]))
      && (!IsIndex(keys[i]) ==> Earlier(keys[i], keys[j]))
  }

  function EntryKeys(es: seq<Entry>): seq<Str> { seq(|es|, i requires 0 <= i < |es| => es[i].key) }
  function MemberKeys(ms: seq<Member>): seq<Str> { seq(|ms|, i requires 0 <= i < |ms| => ms[i].key) }

  lemma BeforeRises(a: Str, b: Str)
    requires Before(a, b)
    ensures IsIndex(b) ==> IsIndex(a) && Numeral(a) < Numeral(b)
    ensures !IsIndex(a) ==> Earlier(a, b)
  {
    LessIs(a, b);
  }

  /** The keys of a record's sorted copy rise. */
  lemma CopyKeysRise(es: seq<Entry>)
    requires DistinctKeys(es)
    ensures KeysRise(EntryKeys(CopiedEntries(es)))
  {
    CopyIs(es);
    var out := CopiedEntries(es);
    var keys := EntryKeys(out);
    forall i, j | 0 <= i < j < |keys|
      ensures IsIndex(keys[j]) ==> IsIndex(keys[i]) && Numeral(keys[i]) < Numeral(keys[j])
      ensures !IsIndex(keys[i]) ==> Earlier(keys[i], keys[j])
    {
      OrderedPairs(out, EntryKey, i, j);
      BeforeRises(keys[i], keys[j]);
    }
  }

  lemma NoneAssigned()
    ensures Ordered([], EntryKey)
  {
  }

  lemma CopiesHold(es: seq<Entry>)
    ensures forall f ::
      f in EntryCopies(es) <==> exists i :: 0 <= i < |es| && f == Entry(es[i].key, SortedCopy(es[i].value))
  {
    hide SortedCopy, EntryCopies;
    CopiesAre(es);
    var copies := EntryCopies(es);
    forall f ensures f in copies <==> exists i :: 0 <= i < |es| && f == Entry(es[i].key, SortedCopy(es[i].value)) {
      if f in copies {
        var i :| 0 <= i < |copies| && copies[i] == f;
      }
    }
  }

  // ---- What is written --------------------------------------------------------------------------------------------

  function W(v: Value): Option<Tree> { Written(SortedCopy(v)) }

  lemma UndefinedIsNotWritten(v: Value)
    ensures W(v).None? <==> v.Undefined?
    ensures W(v) == Some(TNull) <==> v.Null? || v.NotFinite?
  {
  }

  lemma {:induction false} MembersAre(es: seq<Entry>)
    requires Ordered(es, EntryKey)
    ensures Ordered(WrittenMembers(es), MemberKey)
    ensures forall m ::
      m in WrittenMembers(es) <==> exists e :: e in es && e.key == m.key && Written(e.value) == Some(m.value)
  {
    if es != [] {
      MembersAre(es[1..]);
      assert es == [es[0]] + es[1..];
      var rest := WrittenMembers(es[1..]);
      if Written(es[0].value).Some? {
        var m := Member(es[0].key, Written(es[0].value).value);
        assert ([m] + rest)[1..] == rest;
      } else {
        assert [] + rest == rest;
      }
    }
  }

  ghost predicate Gives(es: seq<Entry>, m: Member) {
    m.key != PROTO && exists i :: 0 <= i < |es| && es[i].key == m.key && W(es[i].value) == Some(m.value)
  }

  function Members(es: seq<Entry>): seq<Member> { WrittenMembers(CopiedEntries(es)) }

  lemma RecordMembers(es: seq<Entry>)
    requires DistinctKeys(es)
    ensures Ordered(Members(es), MemberKey) && forall m :: m in Members(es) <==> Gives(es, m)
  {
    hide AllAssigned, ByKey, EntryCopies, SortedCopy, Written, WrittenMembers, CopiedEntries, Ordered;
    var out := CopiedEntries(es);
    CopyIs(es);
    MembersAre(out);
    forall m ensures m in Members(es) <==> Gives(es, m) {
      if m in Members(es) {
        var e :| e in out && e.key == m.key && Written(e.value) == Some(m.value);
        var i :| 0 <= i < |es| && e == Entry(es[i].key, SortedCopy(es[i].value));
      }
      if Gives(es, m) {
        var i :| 0 <= i < |es| && es[i].key == m.key && W(es[i].value) == Some(m.value);
        var e := Entry(es[i].key, SortedCopy(es[i].value));
        assert e in out && e.key == m.key && Written(e.value) == Some(m.value);
      }
    }
  }

  lemma {:induction false} ProperParts(es: seq<Entry>)
    requires ProperEntries(es)
    ensures DistinctKeys(es)
    ensures forall i :: 0 <= i < |es| ==> Proper(es[i].value)
    ensures forall i, j :: 0 <= i < |es| && 0 <= j < |es| && es[i].key == es[j].key ==> i == j
  {
    if es != [] {
      ProperParts(es[1..]);
      KeysAre(es[1..]);
      forall i, j | 0 <= i < j < |es| ensures es[i].key != es[j].key {
        assert es[j] == es[1..][j - 1];
        if i == 0 { assert es[1..][j - 1] in es[1..]; } else { assert es[i] == es[1..][i - 1]; }
      }
    }
  }

  lemma {:induction false} ProperItems(vs: seq<Value>)
    requires AllProper(vs)
    ensures forall i :: 0 <= i < |vs| ==> Proper(vs[i])
  {
    if vs != [] {
      ProperItems(vs[1..]);
    }
  }

  function Item(v: Value): Tree { if W(v).None? then TNull else W(v).value }

  lemma {:induction false} ItemsAre(vs: seq<Value>)
    ensures |WrittenItems(Copies(vs))| == |vs|
    ensures forall i :: 0 <= i < |vs| ==> WrittenItems(Copies(vs))[i] == Item(vs[i])
  {
    if vs != [] {
      ItemsAre(vs[1..]);
      assert Copies(vs)[1..] == Copies(vs[1..]);
    }
  }

  // ---- The theorem ------------------------------------------------------------------------------------------------

  lemma ItemsAlike(vs: seq<Value>, us: seq<Value>)
    ensures WrittenItems(Copies(vs)) == WrittenItems(Copies(us))
            <==> |vs| == |us| && forall i :: 0 <= i < |vs| ==> Item(vs[i]) == Item(us[i])
  {
    hide WrittenItems, Copies, Item;
    ItemsAre(vs);
    ItemsAre(us);
    var xs, ys := WrittenItems(Copies(vs)), WrittenItems(Copies(us));
    if |vs| == |us| && forall i :: 0 <= i < |vs| ==> Item(vs[i]) == Item(us[i]) {
      assert forall i :: 0 <= i < |xs| ==> xs[i] == ys[i];
    }
    if xs == ys {
      assert forall i :: 0 <= i < |vs| ==> xs[i] == ys[i];
    }
  }

  /** Equal up to the order of keys is equal once written. */
  lemma {:induction false} SameIsWritten(a: Value, b: Value)
    requires Proper(a) && Proper(b)
    ensures Same(a, b) <==> W(a) == W(b)
    decreases a
  {
    UndefinedIsNotWritten(a);
    UndefinedIsNotWritten(b);
    if a.List? && b.List? {
      ProperItems(a.items);
      ProperItems(b.items);
      ItemsAlike(a.items, b.items);
      if |a.items| == |b.items| {
        forall i | 0 <= i < |a.items|
          ensures (Nothing(a.items[i]) && Nothing(b.items[i])) || Same(a.items[i], b.items[i])
                  <==> Item(a.items[i]) == Item(b.items[i])
        {
          SameIsWritten(a.items[i], b.items[i]);
          UndefinedIsNotWritten(a.items[i]);
          UndefinedIsNotWritten(b.items[i]);
        }
      }
    } else if a.Record? && b.Record? {
      var es, fs := a.entries, b.entries;
      ProperParts(es);
      ProperParts(fs);
      forall i, j | 0 <= i < |es| && 0 <= j < |fs|
        ensures Same(es[i].value, fs[j].value) <==> W(es[i].value) == W(fs[j].value)
      {
        SameIsWritten(es[i].value, fs[j].value);
      }
      RecordsAlike(es, fs);
    }
  }

  lemma RecordsAlike(es: seq<Entry>, fs: seq<Entry>)
    requires ProperEntries(es) && ProperEntries(fs)
    requires forall i, j ::
      0 <= i < |es| && 0 <= j < |fs| ==> (Same(es[i].value, fs[j].value) <==> W(es[i].value) == W(fs[j].value))
    ensures SameEntries(es, fs) <==> Members(es) == Members(fs)
  {
    ProperParts(es);
    ProperParts(fs);
    RecordMembers(es);
    RecordMembers(fs);
    if SameEntries(es, fs) {
      forall m ensures Gives(es, m) <==> Gives(fs, m) {
        GivesAlike(es, fs, m);
      }
      OrderIsUnique(Members(es), Members(fs), MemberKey);
    }
    if Members(es) == Members(fs) {
      assert forall m :: Gives(es, m) <==> Gives(fs, m);
      GivenAlike(es, fs);
    }
  }

  lemma GivesAlike(es: seq<Entry>, fs: seq<Entry>, m: Member)
    requires SameEntries(es, fs)
    requires forall i, j ::
      0 <= i < |es| && 0 <= j < |fs| ==> (Same(es[i].value, fs[j].value) <==> W(es[i].value) == W(fs[j].value))
    ensures Gives(es, m) <==> Gives(fs, m)
  {
    if Gives(es, m) {
      var i :| 0 <= i < |es| && es[i].key == m.key && W(es[i].value) == Some(m.value);
      UndefinedIsNotWritten(es[i].value);
      assert Shown(es, m.key);
      var j :| 0 <= j < |fs| && fs[j].key == m.key && !fs[j].value.Undefined?;
    }
    if Gives(fs, m) {
      var j :| 0 <= j < |fs| && fs[j].key == m.key && W(fs[j].value) == Some(m.value);
      UndefinedIsNotWritten(fs[j].value);
      assert Shown(fs, m.key);
      var i :| 0 <= i < |es| && es[i].key == m.key && !es[i].value.Undefined?;
    }
  }

  lemma GivenAlike(es: seq<Entry>, fs: seq<Entry>)
    requires ProperEntries(es) && ProperEntries(fs) && forall m :: Gives(es, m) <==> Gives(fs, m)
    requires forall i, j ::
      0 <= i < |es| && 0 <= j < |fs| ==> (Same(es[i].value, fs[j].value) <==> W(es[i].value) == W(fs[j].value))
    ensures SameEntries(es, fs)
  {
    forall key | key != PROTO ensures Shown(es, key) <==> Shown(fs, key) {
      if Shown(es, key) { ShownAlike(es, fs, key); }
      if Shown(fs, key) { ShownAlike(fs, es, key); }
    }
    forall i, j | 0 <= i < |es| && 0 <= j < |fs| && es[i].key == fs[j].key && es[i].key != PROTO
      ensures Same(es[i].value, fs[j].value)
    {
      GivenPair(es, fs, i, j);
      GivenPair(fs, es, j, i);
    }
  }

  /** What one record gives under a key, the other gives under its own entry of that key. */
  lemma GivenPair(es: seq<Entry>, fs: seq<Entry>, i: nat, j: nat)
    requires ProperEntries(fs) && i < |es| && j < |fs| && es[i].key == fs[j].key != PROTO
    requires forall m :: Gives(es, m) ==> Gives(fs, m)
    ensures W(es[i].value).Some? ==> W(fs[j].value) == W(es[i].value)
  {
    ProperParts(fs);
    if W(es[i].value).Some? {
      var m := Member(es[i].key, W(es[i].value).value);
      assert Gives(es, m);
      var k :| 0 <= k < |fs| && fs[k].key == m.key && W(fs[k].value) == Some(m.value);
    }
  }

  lemma ShownAlike(es: seq<Entry>, fs: seq<Entry>, key: Str)
    requires key != PROTO && Shown(es, key) && forall m :: Gives(es, m) ==> Gives(fs, m)
    ensures Shown(fs, key)
  {
    var i :| 0 <= i < |es| && es[i].key == key && !es[i].value.Undefined?;
    UndefinedIsNotWritten(es[i].value);
    var m := Member(key, W(es[i].value).value);
    assert Gives(es, m);
    var j :| 0 <= j < |fs| && fs[j].key == key && W(fs[j].value) == Some(m.value);
    UndefinedIsNotWritten(fs[j].value);
  }

  lemma {:induction false} WrittenIsGood(v: Value)
    requires Proper(v)
    ensures W(v).Some? ==> Good(W(v).value)
    decreases v
  {
    match v
    case List(items) =>
      ProperItems(items);
      ItemsAre(items);
      forall i | 0 <= i < |items| ensures Good(Item(items[i])) { WrittenIsGood(items[i]); }
      EachGood(WrittenItems(Copies(items)));
    case Record(entries) =>
      ProperParts(entries);
      RecordMembers(entries);
      forall i | 0 <= i < |entries|
        ensures W(entries[i].value).Some? ==> Good(W(entries[i].value).value)
      {
        WrittenIsGood(entries[i].value);
      }
      EachGoodMember(Members(entries));
    case _ =>
  }

  lemma {:induction false} EachGood(ts: seq<Tree>)
    requires forall i :: 0 <= i < |ts| ==> Good(ts[i])
    ensures AllGood(ts)
  {
    if ts != [] {
      EachGood(ts[1..]);
    }
  }

  lemma {:induction false} EachGoodMember(ms: seq<Member>)
    requires forall m :: m in ms ==> Good(m.value)
    ensures AllGoodMembers(ms)
  {
    if ms != [] {
      assert ms[0] in ms;
      EachGoodMember(ms[1..]);
    }
  }

  /** Whatever has a text has one that is read back, by the rules of `JSON.parse`, as its sorted copy stripped. */
  lemma CanonicalReadsBack(v: Value)
    requires Proper(v)
    ensures Canonical(v).Some? <==> !v.Undefined?
    ensures !v.Undefined? ==> ReadText(Canonical(v).value) == W(v)
  {
    UndefinedIsNotWritten(v);
    WrittenIsGood(v);
    if !v.Undefined? {
      TextReadsBack(W(v).value);
    }
  }

  /** A record's text is read back as a record whose keys rise, with exactly the members its entries give. */
  lemma RecordReadsInOrder(es: seq<Entry>)
    requires Proper(Record(es))
    ensures var text := Canonical(Record(es));
            && text.Some? && ReadText(text.value) == Some(TRecord(Members(es)))
            && KeysRise(MemberKeys(Members(es))) && (forall m :: m in Members(es) <==> Gives(es, m))
  {
    CanonicalReadsBack(Record(es));
    ProperParts(es);
    RecordMembers(es);
    var ms := Members(es);
    var keys := MemberKeys(ms);
    forall i, j | 0 <= i < j < |keys|
      ensures IsIndex(keys[j]) ==> IsIndex(keys[i]) && Numeral(keys[i]) < Numeral(keys[j])
      ensures !IsIndex(keys[i]) ==> Earlier(keys[i], keys[j])
    {
      OrderedPairs(ms, MemberKey, i, j);
      BeforeRises(keys[i], keys[j]);
    }
  }

  /** Two values have the same canonical text exactly when they are equal up to the order of keys at every level. */
  lemma CanonicalDecidesEquality(a: Value, b: Value)
    requires Proper(a) && Proper(b)
    ensures Canonical(a) == Canonical(b) <==> Same(a, b)
  {
    SameIsWritten(a, b);
    WrittenIsGood(a);
    WrittenIsGood(b);
    if W(a).Some? && W(b).Some? && Print(W(a).value) == Print(W(b).value) {
      PrintIsInjective(W(a).value, W(b).value);
    }
  }

  /** The copy is a normal form: copying it again changes nothing. */
  lemma {:induction false} CopyIsNormal(v: Value)
    requires Proper(v)
    ensures SortedCopy(SortedCopy(v)) == SortedCopy(v)
    decreases v
  {
    match v
    case List(items) =>
      ProperItems(items);
      forall i | 0 <= i < |items|
        ensures SortedCopy(SortedCopy(items[i])) == SortedCopy(items[i])
      {
        CopyIsNormal(items[i]);
      }
      CopiesAgain(items);
    case Record(entries) =>
      ProperParts(entries);
      forall i | 0 <= i < |entries|
        ensures SortedCopy(SortedCopy(entries[i].value)) == SortedCopy(entries[i].value)
      {
        CopyIsNormal(entries[i].value);
      }
      EntriesAgain(entries);
    case _ =>
  }

  lemma {:induction false} CopiesAgain(vs: seq<Value>)
    requires forall i :: 0 <= i < |vs| ==> SortedCopy(SortedCopy(vs[i])) == SortedCopy(vs[i])
    ensures Copies(Copies(vs)) == Copies(vs)
  {
    if vs != [] {
      assert Copies(vs)[1..] == Copies(vs[1..]);
      CopiesAgain(vs[1..]);
    }
  }

  lemma EntriesAgain(es: seq<Entry>)
    requires DistinctKeys(es)
    requires forall i :: 0 <= i < |es| ==> SortedCopy(SortedCopy(es[i].value)) == SortedCopy(es[i].value)
    ensures SortedCopy(SortedCopy(Record(es))) == SortedCopy(Record(es))
  {
    hide AllAssigned, ByKey, EntryCopies, HoldsCopies, CopiedEntries, Ordered, DistinctKeys;
    var out := CopiedEntries(es);
    CopyIs(es);
    OrderedIsDistinct(out);
    CopyIs(out);
    SameElements(es, out, CopiedEntries(out));
    OrderIsUnique(CopiedEntries(out), out, EntryKey);
    RecordCopy(es);
    RecordCopy(out);
  }

  lemma RecordCopy(es: seq<Entry>)
    ensures SortedCopy(Record(es)) == Record(CopiedEntries(es))
  {
  }

  lemma SameElements(es: seq<Entry>, out: seq<Entry>, again: seq<Entry>)
    requires HoldsCopies(out, es) && HoldsCopies(again, out)
    requires forall i :: 0 <= i < |es| ==> SortedCopy(SortedCopy(es[i].value)) == SortedCopy(es[i].value)
    ensures forall f :: f in again <==> f in out
  {
    hide SortedCopy;
    forall f ensures f in again <==> f in out {
      if f in out {
        var i :| 0 <= i < |es| && f == Entry(es[i].key, SortedCopy(es[i].value));
        var j :| 0 <= j < |out| && out[j] == f;
        assert f == Entry(out[j].key, SortedCopy(out[j].value));
      }
      if f in again {
        var j :| 0 <= j < |out| && f == Entry(out[j].key, SortedCopy(out[j].value));
        assert out[j] in out;
        var i :| 0 <= i < |es| && out[j] == Entry(es[i].key, SortedCopy(es[i].value));
      }
    }
  }

  lemma {:induction false} OrderedIsDistinct(es: seq<Entry>)
    requires Ordered(es, EntryKey)
    ensures DistinctKeys(es)
  {
    if es != [] {
      OrderedIsDistinct(es[1..]);
      KeysAre(es[1..]);
      BeforeIsOrder(es[0].key, es[0].key, es[0].key);
      forall key | key in KeysOf(es[1..]) ensures Before(es[0].key, key) {
        var i :| 0 <= i < |es[1..]| && es[1..][i].key == key;
        assert es[1..][i] in es[1..];
      }
    }
  }

  // ---- The source's copy ------------------------------------------------------------------------------------------

  lemma {:induction false} InsertedCopies(es: seq<Entry>, e: Entry)
    ensures EntryCopies(Inserted(es, e)) == Inserted(EntryCopies(es), Entry(e.key, SortedCopy(e.value)))
    ensures forall f :: f in Inserted(es, e) ==> f in es || f == e
  {
    if es == [] || Less(e.key, es[0].key) {
      assert ([e] + es)[1..] == es;
    } else {
      InsertedCopies(es[1..], e);
      assert es == [es[0]] + es[1..];
      assert ([es[0]] + Inserted(es[1..], e))[1..] == Inserted(es[1..], e);
      assert EntryCopies(es)[1..] == EntryCopies(es[1..]);
    }
  }

  /** Sorting and then copying each value is copying each value and then sorting. */
  lemma {:induction false} SortThenCopy(es: seq<Entry>)
    ensures EntryCopies(ByKey(es)) == ByKey(EntryCopies(es)) && forall e :: e in ByKey(es) ==> e in es
  {
    if es != [] {
      SortThenCopy(es[1..]);
      InsertedCopies(ByKey(es[1..]), es[0]);
      assert es == [es[0]] + es[1..];
      assert EntryCopies(es)[1..] == EntryCopies(es[1..]);
    }
  }

  lemma {:induction false} CopiesGrow(vs: seq<Value>, v: Value)
    ensures Copies(vs + [v]) == Copies(vs) + [SortedCopy(v)]
  {
    if vs == [] {
      assert [v][1..] == [];
    } else {
      CopiesGrow(vs[1..], v);
      assert (vs + [v])[1..] == vs[1..] + [v];
    }
  }

  lemma AssignNext(out: seq<Entry>, keys: seq<Entry>, i: nat)
    requires i < |keys|
    ensures AllAssigned(out, EntryCopies(keys[i..]))
            == AllAssigned(Assigned(out, Entry(keys[i].key, SortedCopy(keys[i].value))), EntryCopies(keys[i + 1..]))
  {
    hide SortedCopy, Assigned;
    assert keys[i..] == [keys[i]] + keys[i + 1..];
    assert EntryCopies(keys[i..])[1..] == EntryCopies(keys[i + 1..]);
  }

  lemma NoneLeft(out: seq<Entry>)
    ensures AllAssigned(out, EntryCopies([])) == out && Copies([]) == []
  {
  }

  lemma ListCopy(items: seq<Value>)
    ensures SortedCopy(List(items)) == List(Copies(items))
  {
  }

  lemma OtherCopy(v: Value)
    requires !v.List? && !v.Record?
    ensures SortedCopy(v) == v
  {
  }

  /** The copy as it is built: a list item by item, a record key by key in sorted order. */
  method CopySorted(v: Value) returns (copy: Value)
    ensures copy == SortedCopy(v)
    decreases v
  {
    hide *;
    NoneLeft([]);
    match v
    case List(items) =>
      var out: seq<Value> := [];
      assert items[..0] == [];
      for i := 0 to |items|
        invariant out == Copies(items[..i])
      {
        var item := CopySorted(items[i]);
        CopiesGrow(items[..i], items[i]);
        assert items[..i + 1] == items[..i] + [items[i]];
        out := out + [item];
      }
      assert items[..|items|] == items;
      ListCopy(items);
      copy := List(out);
    case Record(entries) =>
      var keys := ByKey(entries);
      SortThenCopy(entries);
      var out: seq<Entry> := [];
      assert keys[0..] == keys;
      for i := 0 to |keys|
        invariant AllAssigned(out, EntryCopies(keys[i..])) == AllAssigned([], EntryCopies(keys))
      {
        assert keys[i] in entries;
        var j :| 0 <= j < |entries| && entries[j] == keys[i];
        var value := CopySorted(keys[i].value);
        AssignNext(out, keys, i);
        out := Assigned(out, Entry(keys[i].key, value));
      }
      assert keys[|keys|..] == [];
      NoneLeft(out);
      RecordIs(entries);
      copy := Record(out);
    case _ =>
      OtherCopy(v);
      copy := v;
  }

  lemma RecordIs(es: seq<Entry>)
    ensures SortedCopy(Record(es)) == Record(AllAssigned([], ByKey(EntryCopies(es))))
  {
  }
}
