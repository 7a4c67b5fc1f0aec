/**
 * The page renderer's caps (`sidecars/doc-render/app.py`): the scale a page is rendered at so that its pixels fit, and
 * the window of pages one response carries. Sizes and scales are reals; a page is its size and how long its image
 * encodes to.
 */
module DocRender {

  import opened Maybe

  // ---- Pixels -----------------------------------------------------------------------------------------------------

  /** The whole number a side is rounded up to. */
  function Ceil(x: real): int { -((-x).Floor) }

  function PagePixels(width: real, height: real, scale: real): int { Ceil(width * scale) * Ceil(height * scale) }

  lemma CeilIsAbove(x: real)
    ensures x <= Ceil(x) as real < x + 1.0
  {
  }

  lemma Product(a: real, b: real, c: real, d: real)
    requires 0.0 <= a <= c && 0.0 <= b <= d
    ensures a * b <= c * d
  {
    assert a * b <= a * d;
    assert a * d <= c * d;
  }

  /** A page's pixels are fewer than its sides, each a pixel longer, enclose. */
  lemma PixelsBelow(width: real, height: real, scale: real)
    requires width > 0.0 && height > 0.0 && scale > 0.0
    ensures 1 <= PagePixels(width, height, scale)
    ensures PagePixels(width, height, scale) as real <= Enclosed(width, height, scale)
  {
    var x, y := width * scale, height * scale;
    assert x > 0.0 && y > 0.0;
    CeilIsAbove(x);
    CeilIsAbove(y);
    Product(Ceil(x) as real, Ceil(y) as real, x + 1.0, y + 1.0);
    assert (Ceil(x) * Ceil(y)) as real == Ceil(x) as real * Ceil(y) as real;
    assert Ceil(x) * Ceil(y) >= 1 by { AtLeastOne(Ceil(x), Ceil(y)); }
  }

  lemma AtLeastOne(a: int, b: int)
    requires a >= 1 && b >= 1
    ensures a * b >= 1
  {
  }

  function Enclosed(width: real, height: real, s: real): real { (width * s + 1.0) * (height * s + 1.0) }

  // ---- The clamp --------------------------------------------------------------------------------------------------

  /** `root` is the square root the clamp takes. */
  predicate IsRoot(width: real, height: real, most: nat, root: real) {
    root >= 0.0 && root * root == (width + height) * (width + height) + 4.0 * (width * height) * (most as real - 1.0)
  }

  /** The scale it solves for. */
  function Solved(width: real, height: real, root: real): real
    requires width * height > 0.0
  {
    (root - (width + height)) / (2.0 * (width * height))
  }

  /** At the solution the enclosing rectangle is the cap exactly, and no scale above it encloses so little. */
  lemma SolvedEncloses(width: real, height: real, most: nat, root: real)
    requires width > 0.0 && height > 0.0 && most >= 1 && width * height > 0.0 && IsRoot(width, height, most, root)
    ensures Solved(width, height, root) >= 0.0 && Enclosed(width, height, Solved(width, height, root)) == most as real
  {
    var a, h := width * height, width + height;
    var s := Solved(width, height, root);
    var m := most as real - 1.0;
    RootIsBelow(h, a, m, root);
    assert 2.0 * a * s == root - h;
    Quadratic(a, h, m, root, s);
    assert Enclosed(width, height, s) == a * (s * s) + h * s + 1.0 by { Expanded(width, height, s); }
  }

  lemma Expanded(w: real, h: real, s: real)
    ensures (w * s + 1.0) * (h * s + 1.0) == (w * h) * (s * s) + (w + h) * s + 1.0
  {
    assert (w * s) * (h * s) == (w * h) * (s * s);
  }

  lemma RootIsBelow(h: real, a: real, m: real, root: real)
    requires h > 0.0 && a > 0.0 && m >= 0.0 && root >= 0.0 && root * root == h * h + 4.0 * a * m
    ensures root >= h
  {
    assert a * m >= 0.0;
    assert 4.0 * a * m == 4.0 * (a * m);
    assert (root - h) * (root + h) == root * root - h * h;
    SignOf(root - h, root + h);
  }

  lemma SignOf(x: real, y: real)
    requires y > 0.0 && x * y >= 0.0
    ensures x >= 0.0
  {
  }

  lemma Quadratic(a: real, h: real, m: real, root: real, s: real)
    requires a > 0.0 && 2.0 * a * s == root - h && root * root == h * h + 4.0 * a * m
    ensures a * (s * s) + h * s == m
  {
    var t := 2.0 * a * s;
    assert t * t + 2.0 * h * t == 4.0 * a * m by {
      assert (t + h) * (t + h) == root * root;
      assert (t + h) * (t + h) == t * t + 2.0 * h * t + h * h;
    }
    assert t * t == 4.0 * a * (a * (s * s));
    assert 2.0 * h * t == 4.0 * a * (h * s);
    assert 4.0 * a * (a * (s * s) + h * s) == 4.0 * a * m;
  }

  lemma EnclosedGrows(width: real, height: real, s: real, t: real)
    requires width > 0.0 && height > 0.0 && 0.0 <= s <= t
    ensures Enclosed(width, height, s) <= Enclosed(width, height, t)
  {
    assert width * s <= width * t && height * s <= height * t;
    assert 0.0 <= width * s && 0.0 <= height * s;
    Product(width * s + 1.0, height * s + 1.0, width * t + 1.0, height * t + 1.0);
  }

  /** With the square root exact, the solution fits at once, and is below the scale that did not. */
  lemma SolvedFits(width: real, height: real, scale: real, most: nat, root: real)
    requires width > 0.0 && height > 0.0 && scale > 0.0 && most >= 1 && width * height > 0.0
    requires IsRoot(width, height, most, root)
    ensures var s := Solved(width, height, root);
            && (s > 0.0 ==> PagePixels(width, height, s) <= most)
            && (PagePixels(width, height, scale) > most ==> s <= scale)
  {
    var s := Solved(width, height, root);
    SolvedEncloses(width, height, most, root);
    if s > 0.0 { PixelsBelow(width, height, s); }
    PixelsBelow(width, height, scale);
    if s > scale { EnclosedGrows(width, height, scale, s); }
  }

  /** A scale this small renders a page as one pixel. */
  function OnePixel(width: real, height: real): real
    requires width + height > 0.0
  {
    1.0 / (width + height)
  }

  lemma SmallFits(width: real, height: real, s: real)
    requires width > 0.0 && height > 0.0 && 0.0 < s <= OnePixel(width, height)
    ensures PagePixels(width, height, s) == 1
  {
    var k := OnePixel(width, height);
    assert k * (width + height) == 1.0;
    assert width * s <= width * k && height * s <= height * k;
    assert width * k + height * k == 1.0;
    assert width * s > 0.0 && height * s > 0.0 && width * k > 0.0 && height * k > 0.0;
    CeilIsAbove(width * s);
    CeilIsAbove(height * s);
  }

  /** A first guess, lowered by a ten-thousandth until the page fits. */
  function Reduced(width: real, height: real, most: nat, f: real): (s: real)
    requires width > 0.0 && height > 0.0 && most >= 1
    ensures s <= f && (f > 0.0 ==> s > 0.0) && (s > 0.0 ==> PagePixels(width, height, s) <= most)
    decreases (f / (0.0001 * OnePixel(width, height))).Floor
  {
    if f > 0.0 && PagePixels(width, height, f) > most then
      Tall(width, height, most, f);
      Lowered(f, OnePixel(width, height), 0.0001 * OnePixel(width, height));
      Reduced(width, height, most, f * 0.9999)
    else f
  }

  lemma Tall(width: real, height: real, most: nat, f: real)
    requires width > 0.0 && height > 0.0 && most >= 1 && f > 0.0 && PagePixels(width, height, f) > most
    ensures f > OnePixel(width, height) > 0.0
  {
    if f <= OnePixel(width, height) { SmallFits(width, height, f); }
  }

  /** The scale tried just before the last, where any was. */
  function TriedBefore(width: real, height: real, most: nat, f: real): real
    requires width > 0.0 && height > 0.0 && most >= 1
    decreases (f / (0.0001 * OnePixel(width, height))).Floor
  {
    if f > 0.0 && PagePixels(width, height, f) > most && Next(f) > 0.0 && PagePixels(width, height, Next(f)) > most then
      Tall(width, height, most, f);
      Lowered(f, OnePixel(width, height), 0.0001 * OnePixel(width, height));
      TriedBefore(width, height, most, Next(f))
    else f
  }

  function Next(f: real): real { f * 0.9999 }

  /** No more is taken off than must be: what was tried just before did not fit. */
  lemma {:induction false} ReducedIsLast(width: real, height: real, most: nat, f: real)
    requires width > 0.0 && height > 0.0 && most >= 1 && f > 0.0 && PagePixels(width, height, f) > most
    ensures var before := TriedBefore(width, height, most, f);
            Reduced(width, height, most, f) == Next(before) && PagePixels(width, height, before) > most
    decreases (f / (0.0001 * OnePixel(width, height))).Floor
  {
    hide PagePixels;
    if Next(f) > 0.0 && PagePixels(width, height, Next(f)) > most {
      Tall(width, height, most, f);
      Lowered(f, OnePixel(width, height), 0.0001 * OnePixel(width, height));
      ReducedIsLast(width, height, most, Next(f));
    }
  }

  /**
   * The scale a page is rendered at; `first` is the value the arithmetic finds for the solution, whatever its rounding.
   */
  function Clamped(width: real, height: real, scale: real, most: nat, first: real): (s: real)
    requires width > 0.0 && height > 0.0 && most >= 1
    ensures s > 0.0 ==> PagePixels(width, height, s) <= most
  {
    if PagePixels(width, height, scale) <= most then scale
    else
      var s := Reduced(width, height, most, first);
      if s > 0.0 then s else 0.0
  }

  /** With the solution exact, the clamp gives it: the page fits, and it is rendered no larger than was asked. */
  lemma ClampIsSolved(width: real, height: real, scale: real, most: nat, root: real)
    requires width > 0.0 && height > 0.0 && scale > 0.0 && most >= 1 && width * height > 0.0
    requires IsRoot(width, height, most, root)
    ensures var s := Clamped(width, height, scale, most, Solved(width, height, root));
            && 0.0 <= s <= scale && (s > 0.0 ==> PagePixels(width, height, s) <= most)
            && s == if PagePixels(width, height, scale) <= most then scale else Solved(width, height, root)
  {
    SolvedEncloses(width, height, most, root);
    SolvedFits(width, height, scale, most, root);
  }

  /** The source's clamp: the loop ends whatever the first guess. */
  method ClampScale(width: real, height: real, scale: real, most: nat, first: real) returns (fitted: real)
    requires width > 0.0 && height > 0.0 && scale > 0.0 && most >= 1
    ensures fitted == Clamped(width, height, scale, most, first)
  {
    if PagePixels(width, height, scale) <= most {
      return scale;
    }
    fitted := first;
    while fitted > 0.0 && PagePixels(width, height, fitted) > most
      invariant Reduced(width, height, most, fitted) == Reduced(width, height, most, first)
      decreases (fitted / (0.0001 * OnePixel(width, height))).Floor
    {
      Tall(width, height, most, fitted);
      Lowered(fitted, OnePixel(width, height), 0.0001 * OnePixel(width, height));
      fitted := fitted * 0.9999;
    }
    if fitted <= 0.0 {
      fitted := 0.0;
    }
  }

  /** Each reduction takes at least a fixed step, so only so many are left. */
  lemma Lowered(f: real, k: real, step: real)
    requires f > k > 0.0 && step == 0.0001 * k
    ensures 0 <= (f * 0.9999 / step).Floor < (f / step).Floor
  {
    assert f * 0.9999 / step <= f / step - 1.0 by {
      assert f * 0.9999 <= f - step;
      OneLess(f, step);
      Quotient(f * 0.9999, f - step, step);
    }
    assert f * 0.9999 / step > 0.0 by { Quotient(0.0, f * 0.9999, step); }
  }

  lemma OneLess(f: real, step: real)
    requires step > 0.0
    ensures (f - step) / step == f / step - 1.0
  {
    var q, r := f / step, (f - step) / step;
    assert q * step == f && r * step == f - step;
    assert (q - r - 1.0) * step == q * step - r * step - step;
    NoProduct(q - r - 1.0, step);
  }

  lemma NoProduct(x: real, y: real)
    requires y > 0.0 && x * y == 0.0
    ensures x == 0.0
  {
  }

  lemma Quotient(a: real, b: real, step: real)
    requires step > 0.0 && a <= b
    ensures a / step <= b / step && 0.0 / step == 0.0
  {
  }

  // ---- A window of pages ------------------------------------------------------------------------------------------

  const MIN_DPI: real := 72.0

  /**
   * A page: its size, whether that is a finite one, the first guess at its scale, and how long its image encodes to at
   * a scale.
   */
  datatype Page = Page(width: real, height: real, finite: bool, first: real, encoded: real -> nat)

  /** What a page comes to: an image, or nothing, when its size is no size or would need too small a scale. */
  function ImageOf(p: Page, dpi: nat, most: nat): Option<nat>
    requires dpi >= 1 && most >= 1
  {
    if !(p.finite && p.width > 0.0 && p.height > 0.0) then None
    else
      var scale := Clamped(p.width, p.height, dpi as real / 72.0, most, p.first);
      if scale * 72.0 < MIN_DPI then None else Some(p.encoded(scale))
  }

  /** The page is finite, and has an area. */
  predicate HasSize(p: Page) { p.finite && p.width > 0.0 && p.height > 0.0 }

  /** An image is the page rendered at 72 dots an inch or more, and within the cap. */
  lemma ImageFits(p: Page, dpi: nat, most: nat)
    requires dpi >= 1 && most >= 1 && ImageOf(p, dpi, most).Some?
    ensures HasSize(p)
    ensures exists scale :: scale >= 1.0 && PagePixels(p.width, p.height, scale) <= most
                            && ImageOf(p, dpi, most) == Some(p.encoded(scale))
  {
    hide PagePixels;
    var scale := Clamped(p.width, p.height, dpi as real / 72.0, most, p.first);
    assert scale >= 1.0 && PagePixels(p.width, p.height, scale) <= most;
  }

  lemma EnclosedRises(width: real, height: real, s: real, t: real)
    requires width > 0.0 && height > 0.0 && 0.0 <= s < t
    ensures Enclosed(width, height, s) < Enclosed(width, height, t)
  {
    var a, b, c, d := width * s, height * s, width * t, height * t;
    assert 0.0 <= a < c && 0.0 <= b < d;
    assert (a + 1.0) * (b + 1.0) <= (a + 1.0) * (d + 1.0);
    assert (a + 1.0) * (d + 1.0) < (c + 1.0) * (d + 1.0);
  }

  /**
   * With the square root exact, a page is passed over exactly when it has no size, when fewer than 72 dots an inch were
   * asked for, or when as many do not fit the cap.
   */
  lemma SkippedExactly(p: Page, dpi: nat, most: nat, root: real)
    requires dpi >= 1 && most >= 1
    requires HasSize(p) ==> p.width * p.height > 0.0 && IsRoot(p.width, p.height, most, root)
                            && p.first == Solved(p.width, p.height, root)
    ensures ImageOf(p, dpi, most).None?
            <==> !HasSize(p) || dpi < 72
                 || (PagePixels(p.width, p.height, dpi as real / 72.0) > most
                     && Enclosed(p.width, p.height, 1.0) > most as real)
  {
    if HasSize(p) {
      var scale := dpi as real / 72.0;
      hide PagePixels, Enclosed, Solved, Clamped;
      ClampIsSolved(p.width, p.height, scale, most, root);
      SolvedEncloses(p.width, p.height, most, root);
      if PagePixels(p.width, p.height, scale) > most {
        if p.first < 1.0 {
          EnclosedRises(p.width, p.height, p.first, 1.0);
        } else {
          EnclosedGrows(p.width, p.height, 1.0, p.first);
        }
      }
    }
  }

  /** The pages of `[from, to)` that give an image, and those that do not. */
  function Images(doc: seq<Page>, from: nat, end: nat, dpi: nat, most: nat): seq<nat>
    requires from <= end <= |doc| && dpi >= 1 && most >= 1
    decreases end
  {
    if from == end then []
        else Images(doc, from, end - 1, dpi, most) + if ImageOf(doc[end - 1], dpi, most).Some? then [end - 1] else []
  }

  function Skips(doc: seq<Page>, from: nat, end: nat, dpi: nat, most: nat): seq<nat>
    requires from <= end <= |doc| && dpi >= 1 && most >= 1
    decreases end
  {
    if from == end then []
        else Skips(doc, from, end - 1, dpi, most) + if ImageOf(doc[end - 1], dpi, most).None? then [end - 1] else []
  }

  /** What the images of `[from, to)` hold. */
  function Held(doc: seq<Page>, from: nat, end: nat, dpi: nat, most: nat): nat
    requires from <= end <= |doc| && dpi >= 1 && most >= 1
    decreases end
  {
    if from == end then 0 else Held(doc, from, end - 1, dpi, most) + ImageOf(doc[end - 1], dpi, most).GetOr(0)
  }

  lemma {:induction false} EachPageOnce(doc: seq<Page>, from: nat, end: nat, dpi: nat, most: nat)
    requires from <= end <= |doc| && dpi >= 1 && most >= 1
    ensures |Images(doc, from, end, dpi, most)| + |Skips(doc, from, end, dpi, most)| == end - from
    ensures forall i ::
      from <= i < end ==> (i in Images(doc, from, end, dpi, most) <==> i !in Skips(doc, from, end, dpi, most))
    ensures forall i ::
      (i in Images(doc, from, end, dpi, most) || i in Skips(doc, from, end, dpi, most)) ==> from <= i < end
    decreases end
  {
    if from < end {
      EachPageOnce(doc, from, end - 1, dpi, most);
    }
  }

  lemma {:induction false} WindowsJoin(doc: seq<Page>, from: nat, mid: nat, end: nat, dpi: nat, most: nat)
    requires from <= mid <= end <= |doc| && dpi >= 1 && most >= 1
    ensures Images(doc, from, end, dpi, most) == Images(doc, from, mid, dpi, most) + Images(doc, mid, end, dpi, most)
    ensures Skips(doc, from, end, dpi, most) == Skips(doc, from, mid, dpi, most) + Skips(doc, mid, end, dpi, most)
    decreases end
  {
    if mid < end {
      WindowsJoin(doc, from, mid, end - 1, dpi, most);
    }
  }

  /**
   * One window of `[start, end)`: every page up to `next`, as an image or skipped. It stops before the end only at a
   * page whose image would take what is held past the cap, and it holds more than the cap only when it holds a single
   * image.
   */
  method RenderWindow(doc: seq<Page>, start: nat, end: nat, dpi: nat, most: nat, cap: nat)
      returns (pages: seq<nat>, skipped: seq<nat>, next: nat)
    requires start <= end <= |doc| && dpi >= 1 && most >= 1
    ensures start <= next <= end && (start < end ==> start < next)
    ensures pages == Images(doc, start, next, dpi, most) && skipped == Skips(doc, start, next, dpi, most)
    ensures Held(doc, start, next, dpi, most) <= cap || |pages| == 1
    ensures next < end ==>
            ImageOf(doc[next], dpi, most).Some? && pages != [] && Held(doc, start, next + 1, dpi, most) > cap
  {
    var requested := dpi as real / 72.0;
    var held := 0;
    pages, skipped, next := [], [], start;
    while next < end
      invariant start <= next <= end
      invariant pages == Images(doc, start, next, dpi, most) && skipped == Skips(doc, start, next, dpi, most)
      invariant held == Held(doc, start, next, dpi, most) && (held <= cap || |pages| == 1)
      invariant pages == [] ==> held == 0
    {
      var page := doc[next];
      if !(page.finite && page.width > 0.0 && page.height > 0.0) {
        skipped := skipped + [next];
        next := next + 1;
        continue;
      }
      var scale := ClampScale(page.width, page.height, requested, most, page.first);
      if scale * 72.0 < MIN_DPI {
        skipped := skipped + [next];
        next := next + 1;
        continue;
      }
      var encoded := page.encoded(scale);
      if pages != [] && held + encoded > cap {
        break;
      }
      pages := pages + [next];
      held := held + encoded;
      next := next + 1;
    }
  }

  /**
   * A caller that asks for window after window, each from the last one's start plus the pages it returned and skipped,
   * until one is not truncated: it ends, and meets every page of the document once, in order, as an image or skipped.
   */
  method WalkDocument(doc: seq<Page>, maxPages: nat, dpi: nat, most: nat, cap: nat) returns (pages: seq<nat>,
      skipped: seq<nat>)
    requires maxPages >= 1 && dpi >= 1 && most >= 1
    ensures pages == Images(doc, 0, |doc|, dpi, most) && skipped == Skips(doc, 0, |doc|, dpi, most)
  {
    pages, skipped := [], [];
    var startPage, truncated := 0, true;
    while truncated
      invariant startPage <= |doc| && (!truncated ==> startPage == |doc|)
      invariant pages == Images(doc, 0, startPage, dpi, most) && skipped == Skips(doc, 0, startPage, dpi, most)
      decreases |doc| - startPage, truncated
    {
      var total := |doc|;
      var start := if startPage < total then startPage else total;
      var end := if start + maxPages < total then start + maxPages else total;
      var more, gone, next := RenderWindow(doc, start, end, dpi, most, cap);
      WindowsJoin(doc, 0, start, next, dpi, most);
      EachPageOnce(doc, start, next, dpi, most);
      pages, skipped := pages + more, skipped + gone;
      startPage := startPage + |more| + |gone|;
      truncated := next < total;
    }
  }
}
