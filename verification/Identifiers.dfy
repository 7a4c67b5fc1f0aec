/**
 * The names of one TypeScript source (`schema/src/typescript.ts`): each type is allocated a base whose `Properties` and
 * `StoredProperties` no other type has, with a numeric suffix from a counter kept per base when the base itself is
 * taken.
 */
module Identifiers {

  const SPACE_TYPES := "SpaceTypes"
  const PROPERTIES := "Properties"
  const STORED := "StoredProperties"

  // ---- Suffixes ---------------------------------------------------------------------------------------------------

  predicate IsDigit(c: char) { '0' <= c <= '9' }

  function Decimal(n: nat): string {
    if n < 10 then [DigitOf(n)] else Decimal(n / 10) + [DigitOf(n % 10)]
  }

  function DigitOf(n: nat): char
    requires n < 10
  {
    '0' + n as char
  }

  lemma {:induction false} DecimalIsDigits(n: nat)
    ensures Decimal(n) != [] && forall i :: 0 <= i < |Decimal(n)| ==> IsDigit(Decimal(n)[i])
  {
    if n >= 10 {
      DecimalIsDigits(n / 10);
    }
  }

  lemma {:induction false} DecimalsDiffer(m: nat, n: nat)
    requires Decimal(m) == Decimal(n)
    ensures m == n
  {
    DecimalIsDigits(m / 10);
    DecimalIsDigits(n / 10);
    assert Decimal(m)[|Decimal(m)| - 1] == DigitOf(m % 10) && Decimal(n)[|Decimal(n)| - 1] == DigitOf(n % 10);
    if m >= 10 && n >= 10 {
      assert Decimal(m)[..|Decimal(m)| - 1] == Decimal(m / 10) && Decimal(n)[..|Decimal(n)| - 1] == Decimal(n / 10);
      DecimalsDiffer(m / 10, n / 10);
    } else {
      assert |Decimal(m)| == 1 <==> m < 10;
      assert |Decimal(n)| == 1 <==> n < 10;
    }
  }

  /** The value of a digit: its place among the ten. */
  function ValueOf(c: char): nat {
    if c == '0' then 0 else if c == '1' then 1 else if c == '2' then 2 else if c == '3' then 3 else if c == '4' then 4
    else if c == '5' then 5 else if c == '6' then 6 else if c == '7' then 7 else if c == '8' then 8 else 9
  }

  /** The number a string of digits says. */
  function Number(s: string): nat { if s == "" then 0 else 10 * Number(s[..|s| - 1]) + ValueOf(s[|s| - 1]) }

  lemma {:induction false} DecimalReadsBack(n: nat)
    ensures Number(Decimal(n)) == n && (n > 0 ==> Decimal(n)[0] != '0')
  {
    assert ValueOf(DigitOf(n % 10)) == n % 10;
    if n >= 10 {
      DecimalReadsBack(n / 10);
      assert Decimal(n)[..|Decimal(n)| - 1] == Decimal(n / 10);
      assert Decimal(n)[0] == Decimal(n / 10)[0];
    } else {
      assert Decimal(n) == [DigitOf(n)] && Decimal(n)[..0] == "";
    }
  }

  /** The `n`-th base tried for a name: the name itself, then the name with a number. */
  function Base(wanted: string, n: nat): string { if n == 1 then wanted else wanted + Decimal(n) }

  /** The first is the name itself, and each one after it the name with its own number behind. */
  lemma BaseIs(wanted: string, n: nat)
    requires n >= 1
    ensures n == 1 ==> Base(wanted, n) == wanted
    ensures n > 1 ==> exists suffix ::
              Base(wanted, n) == wanted + suffix && Number(suffix) == n && suffix != "" && suffix[0] != '0'
                && forall i :: 0 <= i < |suffix| ==> IsDigit(suffix[i])
  {
    DecimalIsDigits(n);
    DecimalReadsBack(n);
    if n > 1 {
      assert Base(wanted, n) == wanted + Decimal(n);
    }
  }

  function Names(base: string): set<string> { {base + PROPERTIES, base + STORED} }

  predicate Taken(taken: set<string>, base: string) { base + PROPERTIES in taken || base + STORED in taken }

  lemma SuffixLemma(a: string, b: string, s: string)
    requires a + s == b + s
    ensures a == b
  {
    assert |a| == |b|;
    assert a == (a + s)[..|a|] && b == (b + s)[..|b|];
  }

  lemma PrefixLemma(w: string, a: string, b: string)
    requires w + a == w + b
    ensures a == b
  {
    assert a == (w + a)[|w|..] && b == (w + b)[|w|..];
  }

  lemma BasesDiffer(wanted: string, m: nat, n: nat)
    requires 1 <= m && 1 <= n && Base(wanted, m) == Base(wanted, n)
    ensures m == n
  {
    DecimalIsDigits(m);
    DecimalIsDigits(n);
    if m != 1 && n != 1 {
      PrefixLemma(wanted, Decimal(m), Decimal(n));
      DecimalsDiffer(m, n);
    } else {
      assert |wanted + Decimal(m)| > |wanted| && |wanted + Decimal(n)| > |wanted|;
    }
  }

  /** A base of a name never ends like another base of it with `Stored` behind: a suffix is digits. */
  lemma NoStoredBase(wanted: string, m: nat, n: nat)
    requires 1 <= m && 1 <= n
    ensures Base(wanted, m) != Base(wanted, n) + "Stored"
  {
    DecimalIsDigits(m);
    var long := Base(wanted, n) + "Stored";
    assert long[|long| - 1] == 'd';
    if m != 1 {
      assert Base(wanted, m)[|Base(wanted, m)| - 1] == Decimal(m)[|Decimal(m)| - 1];
    } else {
      assert |long| > |wanted|;
    }
  }

  /** The names of two different bases tried for one name are all different. */
  lemma NamesDiffer(wanted: string, m: nat, n: nat)
    requires 1 <= m && 1 <= n && m != n
    ensures Names(Base(wanted, m)) !! Names(Base(wanted, n))
  {
    var a, b := Base(wanted, m), Base(wanted, n);
    if a == b { BasesDiffer(wanted, m, n); }
    NoStoredBase(wanted, m, n);
    NoStoredBase(wanted, n, m);
    if a + PROPERTIES == b + PROPERTIES { SuffixLemma(a, b, PROPERTIES); }
    if a + STORED == b + STORED { SuffixLemma(a, b, STORED); }
    assert STORED == "Stored" + PROPERTIES;
    assert a + STORED == (a + "Stored") + PROPERTIES && b + STORED == (b + "Stored") + PROPERTIES;
    if a + PROPERTIES == b + STORED { SuffixLemma(a, b + "Stored", PROPERTIES); }
    if a + STORED == b + PROPERTIES { SuffixLemma(a + "Stored", b, PROPERTIES); }
  }

  // ---- The allocator ----------------------------------------------------------------------------------------------

  /** The names of every base tried for a name from `from` up to `n`. */
  function Tried(wanted: string, from: nat, n: nat): set<string>
    requires from <= n
    decreases n - from
  {
    if from == n then {} else Names(Base(wanted, n - 1)) + Tried(wanted, from, n - 1)
  }

  lemma {:induction false} TriedDiffer(wanted: string, from: nat, n: nat)
    requires 1 <= from <= n
    ensures Tried(wanted, from, n) !! Names(Base(wanted, n))
  {
    TriedDifferFrom(wanted, from, n, n);
  }

  lemma {:induction false} TriedDifferFrom(wanted: string, from: nat, k: nat, n: nat)
    requires 1 <= from <= k <= n
    ensures Tried(wanted, from, k) !! Names(Base(wanted, n))
    decreases k - from
  {
    if from < k {
      NamesDiffer(wanted, k - 1, n);
      TriedDifferFrom(wanted, from, k - 1, n);
    }
  }

  /** The first base of a name that is free, counted from the name itself. */
  ghost predicate FirstFree(taken: set<string>, wanted: string, n: nat) {
    1 <= n && !Taken(taken, Base(wanted, n)) && forall k :: 1 <= k < n ==> Taken(taken, Base(wanted, k))
  }

  /** `base` is the first free base of `wanted`. */
  ghost predicate IsFirstFree(taken: set<string>, wanted: string, base: string) {
    exists n :: FirstFree(taken, wanted, n) && base == Base(wanted, n)
  }

  class Allocator {
    var taken: set<string>
    var next: map<string, nat>

    /** Every suffix a counter has passed is taken, so starting at the counter misses nothing. */
    ghost predicate Valid()
      reads this
    {
      SPACE_TYPES in taken && Counted(taken, next)
    }

    constructor ()
      ensures Valid() && taken == {SPACE_TYPES} && next == map[]
    {
      taken, next := {SPACE_TYPES}, map[];
    }

    /**
     * The base for `wanted`: the first that is free, now taken; the counter starts where it stopped, so no suffix is
     * tried twice.
     */
    method Allocate(wanted: string) returns (base: string)
      requires Valid()
      modifies this
      ensures Valid()
      ensures IsFirstFree(old(taken), wanted, base)
      ensures taken == old(taken) + Names(base) && Names(base) !! old(taken)
    {
      var n := Probe(wanted);
      base := Base(wanted, n);
      Claimed(taken, next, wanted, n);
      next := next[wanted := n + 1];
      taken := taken + {base + PROPERTIES};
      taken := taken + {base + STORED};
      hide Base, Taken;
      assert taken == old(taken) + Names(base);
    }

    /** The suffix of the first free base, looked for from the counter. */
    method Probe(wanted: string) returns (n: nat)
      requires Valid()
      ensures FirstFree(taken, wanted, n) && (wanted in next ==> next[wanted] <= n)
    {
      hide Decimal, Tried, Base;
      var from := if wanted in next then next[wanted] else 1;
      n := from;
      var base := Base(wanted, n);
      while base + PROPERTIES in taken || base + STORED in taken
        invariant 1 <= from <= n && base == Base(wanted, n)
        invariant forall k :: 1 <= k < n ==> Taken(taken, Base(wanted, k))
        decreases |taken - Tried(wanted, from, n)|
      {
        OneMoreTried(taken, wanted, from, n);
        n := n + 1;
        base := wanted + Decimal(n);
        NumberedBase(wanted, n);
      }
    }
  }

  ghost predicate Counted(taken: set<string>, next: map<string, nat>) {
    forall wanted :: wanted in next ==>
      1 <= next[wanted] && forall k :: 1 <= k < next[wanted] ==> Taken(taken, Base(wanted, k))
  }

  /** A claimed base leaves every counter past nothing that is free. */
  lemma Claimed(taken: set<string>, next: map<string, nat>, wanted: string, n: nat)
    requires Counted(taken, next) && FirstFree(taken, wanted, n)
    ensures Counted(taken + Names(Base(wanted, n)), next[wanted := n + 1]) && Names(Base(wanted, n)) !! taken
  {
    hide Base;
    StillTaken(taken, taken + Names(Base(wanted, n)));
  }

  lemma StillTaken(small: set<string>, large: set<string>)
    requires small <= large
    ensures forall base :: Taken(small, base) ==> Taken(large, base)
  {
  }

  lemma NumberedBase(wanted: string, n: nat)
    requires n > 1
    ensures Base(wanted, n) == wanted + Decimal(n)
  {
  }

  /** A base that turns out to be taken uses up one of the names that were. */
  lemma OneMoreTried(taken: set<string>, wanted: string, from: nat, n: nat)
    requires 1 <= from <= n && Taken(taken, Base(wanted, n))
    ensures |taken - Tried(wanted, from, n + 1)| < |taken - Tried(wanted, from, n)|
  {
    TriedDiffer(wanted, from, n);
    var base := Base(wanted, n);
    var hit := if base + PROPERTIES in taken then base + PROPERTIES else base + STORED;
    assert hit in Names(base);
    Shrinks(taken - Tried(wanted, from, n + 1), taken - Tried(wanted, from, n), hit);
  }

  lemma Shrinks(small: set<string>, large: set<string>, x: string)
    requires small <= large && x in large && x !in small
    ensures |small| < |large|
  {
    SubsetSize(small, large - {x});
  }

  lemma {:induction false} SubsetSize(a: set<string>, b: set<string>)
    requires a <= b
    ensures |a| <= |b|
  {
    if a != {} {
      var x :| x in a;
      SubsetSize(a - {x}, b - {x});
    }
  }

  // ---- A whole source ---------------------------------------------------------------------------------------------

  /** The bases of a list of names, and every interface name they declare. */
  predicate Apart(bases: seq<string>) {
    && (forall i :: 0 <= i < |bases| ==> SPACE_TYPES !in Names(bases[i]))
    && (forall i, j :: 0 <= i < j < |bases| ==> Names(bases[i]) !! Names(bases[j]))
  }

  function AllNames(bases: seq<string>): set<string> {
    if bases == [] then {SPACE_TYPES} else AllNames(bases[..|bases| - 1]) + Names(bases[|bases| - 1])
  }

  lemma {:induction false} NamesAmong(bases: seq<string>, i: nat)
    requires i < |bases|
    ensures Names(bases[i]) <= AllNames(bases)
  {
    if i < |bases| - 1 {
      NamesAmong(bases[..|bases| - 1], i);
    }
  }

  lemma {:induction false} SpaceTypesAmong(bases: seq<string>)
    ensures SPACE_TYPES in AllNames(bases)
  {
    if bases != [] {
      SpaceTypesAmong(bases[..|bases| - 1]);
    }
  }

  lemma ApartGrows(bases: seq<string>, base: string)
    requires Apart(bases) && Names(base) !! AllNames(bases)
    ensures Apart(bases + [base]) && AllNames(bases + [base]) == AllNames(bases) + Names(base)
  {
    hide Names, AllNames;
    var more := bases + [base];
    AllNamesGrow(bases, base);
    SpaceTypesAmong(bases);
    forall i, j | 0 <= i < j < |more| ensures Names(more[i]) !! Names(more[j]) {
      if j == |bases| { NamesAmong(bases, i); }
    }
  }

  lemma AllNamesGrow(bases: seq<string>, base: string)
    ensures AllNames(bases + [base]) == AllNames(bases) + Names(base)
  {
    assert (bases + [base])[..|bases|] == bases;
  }

  /** Whatever the types of a space are called, no two interfaces of its source share a name and none is the map's. */
  method AllocateAll(wanted: seq<string>) returns (bases: seq<string>)
    ensures |bases| == |wanted| && Apart(bases)
    ensures forall i :: 0 <= i < |bases| ==> IsFirstFree(AllNames(bases[..i]), wanted[i], bases[i])
  {
    hide Names, AllNames, FirstFree, Base;
    var identifiers := new Allocator();
    bases := [];
    NoNames();
    for i := 0 to |wanted|
      invariant identifiers.Valid() && fresh(identifiers)
      invariant |bases| == i && Apart(bases) && identifiers.taken == AllNames(bases)
      invariant forall k :: 0 <= k < i ==> IsFirstFree(AllNames(bases[..k]), wanted[k], bases[k])
    {
      var base := identifiers.Allocate(wanted[i]);
      ApartGrows(bases, base);
      assert IsFirstFree(AllNames(bases), wanted[i], base);
      ghost var before := bases;
      bases := bases + [base];
      assert bases[..i] == before;
      forall k | 0 <= k < i ensures IsFirstFree(AllNames(bases[..k]), wanted[k], bases[k]) {
        assert bases[..k] == before[..k];
      }
    }
  }

  lemma NoNames()
    ensures AllNames([]) == {SPACE_TYPES}
  {
  }
}
