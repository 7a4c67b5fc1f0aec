/**
 * How far what a rule builds can outgrow the size it is priced at: literals are free, so each node and each literal
 * character may add a ten-thousandth share, and shares compound through loops over lists that loops built. `Cap` is the
 * bound, and a rule within the node and length limits stays below ten times its priced size.
 */
module RuleCaps {

  import opened RuleSyntax
  import opened RulePrice

  /** One ten-thousandth, compounded `n` times. */
  function Pow(n: nat): real { if n == 0 then 1.0 else Pow(n - 1) * 1.0001 }

  /** What a value priced at `size` caps by a tree of bulk `mu` may hold, in sixths. */
  function Cap(size: nat, mu: nat): real { Held(size as real, Pow(mu)) }

  function Held(s: real, x: real): real { if s == 0.0 then x - 1.0 else s * x }

  lemma {:induction false} PowGrows(n: nat)
    ensures Pow(n) >= 1.0 + n as real / 10000.0
  {
    if n > 0 {
      PowGrows(n - 1);
    }
  }

  lemma {:induction false} PowAdd(a: nat, b: nat)
    ensures Pow(a + b) == Pow(a) * Pow(b)
  {
    if b > 0 {
      PowAdd(a, b - 1);
      assert Pow(a + b) == Pow(a + (b - 1)) * 1.0001;
      assert Pow(a) * Pow(b) == (Pow(a) * Pow(b - 1)) * 1.0001;
    }
  }

  lemma PowMonotone(a: nat, b: nat)
    requires a <= b
    ensures Pow(a) <= Pow(b)
  {
    PowAdd(a, b - a);
    PowGrows(a);
    PowGrows(b - a);
    assert Pow(a) * Pow(b - a) >= Pow(a) * 1.0;
  }

  /** Compounding a thousand times gains less than an eighth. */
  lemma {:induction false} PowBelow(n: nat)
    requires n <= 1000
    ensures Pow(n) * (10000.0 - n as real) <= 10000.0
  {
    if n > 0 {
      PowBelow(n - 1);
      PowGrows(n - 1);
      var p, k := Pow(n - 1), n as real;
      assert Pow(n) == p * 1.0001;
      assert (n - 1) as real == k - 1.0;
      hide Pow;
      OneMore(p, k);
    }
  }

  lemma OneMore(p: real, k: real)
    requires p >= 0.0 && k >= 0.0 && p * (10000.0 - (k - 1.0)) <= 10000.0
    ensures (p * 1.0001) * (10000.0 - k) <= 10000.0
  {
    assert p * (1.0001 * (10000.0 - k)) <= p * (10001.0 - k);
  }

  /** The bulk of a rule within the limits: two hundred nodes and a thousand characters. */
  const MOST_BULK: nat := 100 * AST_NODE_LIMIT + MAX_RULE_LENGTH

  /** Compounding further multiplies the bounds. */
  lemma PowChain(a: nat, b: nat, p: real, q: real, r: real)
    requires Pow(a) <= p && Pow(b) <= q && p * q <= r
    ensures Pow(a + b) <= r
  {
    PowAdd(a, b);
    PowGrows(a);
    PowGrows(b);
    hide Pow;
    assert Pow(a) * Pow(b) <= p * Pow(b);
    assert p * Pow(b) <= p * q;
  }

  lemma PowWithinLimits(n: nat)
    requires n <= MOST_BULK
    ensures Pow(n) <= 10.0
  {
    PowMonotone(n, MOST_BULK);
    PowBelow(1000);
    hide Pow;
    assert Pow(1000) <= 1.112;
    PowChain(1000, 1000, 1.112, 1.112, 1.237);
    PowChain(2000, 1000, 1.237, 1.112, 1.376);
    PowChain(3000, 3000, 1.376, 1.376, 1.894);
    PowChain(6000, 6000, 1.894, 1.894, 3.588);
    PowChain(12000, 6000, 3.588, 1.894, 6.796);
    PowChain(18000, 3000, 6.796, 1.376, 9.36);
  }

  /** Parts side by side: their caps together are within the whole's. */
  lemma CapAdd(s: nat, a: nat, r: nat, b: nat)
    ensures Cap(s, a) + Cap(r, b) <= Cap(s + r, a + b)
  {
    PowAdd(a, b);
    PowGrows(a);
    PowGrows(b);
    hide Pow;
    HeldAdd(s as real, r as real, Pow(a), Pow(b));
  }

  lemma HeldAdd(s: real, r: real, x: real, y: real)
    requires (s == 0.0 || s >= 1.0) && (r == 0.0 || r >= 1.0) && x >= 1.0 && y >= 1.0
    ensures Held(s, x) + Held(r, y) <= Held(s + r, x * y)
  {
    var z := x * y;
    Compound(x, y);
    assert y * x == z;
    if s == 0.0 && r == 0.0 {
      assert Held(s + r, z) == z - 1.0;
    } else if r == 0.0 {
      Outgrow(s, x, y);
    } else if s == 0.0 {
      Outgrow(r, y, x);
    } else {
      BothHeld(s, r, x, y, z);
    }
  }

  lemma BothHeld(s: real, r: real, x: real, y: real, z: real)
    requires s >= 1.0 && r >= 1.0 && x <= z && y <= z
    ensures s * x + r * y <= (s + r) * z
  {
    Share(s, x, z);
    Share(r, y, z);
    assert (s + r) * z == s * z + r * z;
  }

  lemma Compound(x: real, y: real)
    requires x >= 1.0 && y >= 1.0
    ensures x * y >= x && x * y >= y && (x - 1.0) + (y - 1.0) <= x * y - 1.0
  {
    assert (x - 1.0) * (y - 1.0) == x * y - x - y + 1.0;
  }

  lemma Outgrow(s: real, x: real, y: real)
    requires s >= 1.0 && x >= 1.0 && y >= 1.0
    ensures s * x + (y - 1.0) <= s * (x * y)
  {
    Compound(s, x);
    Share(y - 1.0, 1.0, s * x);
    assert s * (x * y) == s * x + (y - 1.0) * (s * x);
  }

  lemma Share(s: real, x: real, z: real)
    requires s >= 0.0 && x <= z
    ensures s * x <= s * z
  {
  }

  lemma CapMonotone(s: nat, a: nat, r: nat, b: nat)
    requires s <= r && a <= b
    ensures 0.0 <= Cap(s, a) <= Cap(r, b)
  {
    CapAdd(s, a, r - s, b - a);
    PowGrows(a);
    PowGrows(b - a);
    assert (r - s) as real * Pow(b - a) >= 0.0;
    assert s as real * Pow(a) >= 0.0;
  }

  /** A node of its own leaves room for a hundredth of a cap. */
  lemma CapNode(s: nat, a: nat)
    ensures Cap(s, a) + 0.01 <= Cap(s, a + 100)
  {
    CapAdd(s, a, 0, 100);
    PowGrows(100);
  }

  /** The cap of a priced size, at least one, by its growth. */
  function Grown(size: nat, mu: nat): real { Max(1, size) as real * Pow(mu) }

  lemma CapIsPriced(s: nat, a: nat)
    ensures Cap(s, a) <= Grown(s, a)
  {
    PowGrows(a);
    if s == 0 {
      assert Grown(s, a) == 1.0 * Pow(a);
    } else {
      assert Max(1, s) == s;
      assert Grown(s, a) == s as real * Pow(a);
    }
  }

  lemma CapFloor(s: nat, a: nat)
    ensures Cap(s, a) >= a as real / 10000.0 && (s >= 1 ==> Cap(s, a) >= s as real)
  {
    PowGrows(a);
    if s >= 1 {
      Share(s as real, 1.0, Pow(a));
      Share(Pow(a) - 1.0, 1.0, s as real);
      assert s as real * Pow(a) == s as real * 1.0 + (Pow(a) - 1.0) * s as real;
    }
  }
}
