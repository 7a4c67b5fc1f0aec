/**
 * A value from outside made safe for a log line (`schema/src/text.ts`): redacted, cut on a code-point boundary at a
 * number of rendered characters, and escaped. Strings are sequences of UTF-16 code units; what redaction finds is a
 * parameter.
 */
module TextRender {

  type Unit = u: int | 0 <= u < 0x10000
  type Str = seq<Unit>

  /** How far past the bound a value is read for redaction. */
  const REDACT_MARGIN: nat := 1024
  const ELLIPSIS: Unit := 0x2026

  predicate BreaksLine(u: Unit) { u <= 0x1f || 0x7f <= u <= 0x9f || u == 0x2028 || u == 0x2029 }
  predicate High(u: Unit) { 0xD800 <= u <= 0xDBFF }
  predicate Low(u: Unit) { 0xDC00 <= u <= 0xDFFF }

  function Hex(n: int): Unit
    requires 0 <= n < 16
  {
    if n < 10 then 48 + n else 87 + n
  }

  /** One line-breaking character, written as an operator reads it. */
  function EscapeChar(u: Unit): Str {
    if u == 13 then [92, 114] else if u == 10 then [92, 110] else if u == 9 then [92, 116]
    else [92, 117, Hex(u / 4096), Hex(u / 256 % 16), Hex(u / 16 % 16), Hex(u % 16)]
  }

  predicate Safe(s: Str) { forall i :: 0 <= i < |s| ==> !BreaksLine(s[i]) }

  lemma EscapeIsSafe(u: Unit)
    ensures Safe(EscapeChar(u))
  {
  }

  function HexValue(u: Unit): int {
    if '0' as int <= u <= '9' as int then u - '0' as int
    else if 'a' as int <= u <= 'f' as int then u - 'a' as int + 10
    else -1
  }

  /**
   * The character an escape stands for: a short one for a return, a line feed or a tab, else four digits of its number.
   */
  function Says(escape: Str): int {
    if |escape| == 2 && escape[0] == '\\' as int then
      (if escape[1] == 'r' as int then '\r' as int
       else if escape[1] == 'n' as int then '\n' as int
       else if escape[1] == 't' as int then '\t' as int
       else -1)
    else if |escape| == 6 && escape[0] == '\\' as int && escape[1] == 'u' as int then
      ((HexValue(escape[2]) * 16 + HexValue(escape[3])) * 16 + HexValue(escape[4])) * 16 + HexValue(escape[5])
    else -1
  }

  lemma HexIs(n: int)
    requires 0 <= n < 16
    ensures HexValue(Hex(n)) == n
  {
  }

  lemma UnitByHex(u: Unit)
    ensures u == ((u / 4096 * 16 + u / 256 % 16) * 16 + u / 16 % 16) * 16 + u % 16
  {
  }

  lemma FourDigits(a: int, b: int, c: int, d: int)
    requires 0 <= a < 16 && 0 <= b < 16 && 0 <= c < 16 && 0 <= d < 16
    ensures Says([92, 117, Hex(a), Hex(b), Hex(c), Hex(d)]) == ((a * 16 + b) * 16 + c) * 16 + d
  {
    HexIs(a);
    HexIs(b);
    HexIs(c);
    HexIs(d);
    hide Hex, HexValue;
  }

  lemma EscapeSays(u: Unit)
    ensures Says(EscapeChar(u)) == u
    ensures |EscapeChar(u)| == 2 <==> u == '\r' as int || u == '\n' as int || u == '\t' as int
  {
    if u == 13 || u == 10 || u == 9 {
      hide HexValue, Hex;
    } else {
      UnitByHex(u);
      FourDigits(u / 4096, u / 256 % 16, u / 16 % 16, u % 16);
      hide HexValue, Hex, Says;
    }
  }

  // ---- The walk ---------------------------------------------------------------------------------------------------

  /** The units of the code point at `i`. */
  function Width(s: Str, i: nat): nat
    requires i < |s|
    ensures 1 <= Width(s, i) && i + Width(s, i) <= |s|
  {
    if High(s[i]) && i + 1 < |s| && Low(s[i + 1]) then 2 else 1
  }

  /** What is shown of it: itself, or its escape. */
  function Shown(s: Str, i: nat): Str
    requires i < |s|
  {
    if BreaksLine(s[i]) then EscapeChar(s[i]) else s[i..i + Width(s, i)]
  }

  /** How far a text is walked from `i` with `used` characters written, and what is written. */
  function WalkFrom(s: Str, i: nat, used: nat, max: nat): (Str, nat)
    requires i <= |s|
    decreases |s| - i
  {
    if i == |s| || used + |Shown(s, i)| > max then ([], i)
    else
      var (rest, end) := WalkFrom(s, i + Width(s, i), used + |Shown(s, i)|, max);
      (Shown(s, i) + rest, end)
  }

  /** A whole text escaped. */
  function Escaped(s: Str): Str {
    if s == [] then [] else (if BreaksLine(s[0]) then EscapeChar(s[0]) else [s[0]]) + Escaped(s[1..])
  }

  /** Between the two halves of a surrogate pair. */
  predicate SplitsPair(s: Str, i: nat) { 0 < i < |s| && High(s[i - 1]) && Low(s[i]) }

  lemma {:induction false} EscapedJoins(a: Str, b: Str)
    ensures Escaped(a + b) == Escaped(a) + Escaped(b)
  {
    if a == [] {
      assert a + b == b;
    } else {
      assert (a + b)[1..] == a[1..] + b;
      EscapedJoins(a[1..], b);
    }
  }

  lemma ShownIsEscaped(s: Str, i: nat)
    requires i < |s|
    ensures Shown(s, i) == Escaped(s[i..i + Width(s, i)]) && Safe(Shown(s, i))
  {
    EscapeIsSafe(s[i]);
    var piece := s[i..i + Width(s, i)];
    assert piece[0] == s[i];
    if Width(s, i) == 2 {
      assert piece == [s[i]] + [s[i + 1]] && piece[1..] == [s[i + 1]] && piece[1..][1..] == [];
      assert Escaped(piece[1..]) == [s[i + 1]];
    } else {
      assert piece == [s[i]] && piece[1..] == [];
    }
  }

  /** A step over a whole code point never ends inside a pair. */
  lemma AfterPair(s: Str, i: nat)
    requires i < |s| && !SplitsPair(s, i)
    ensures !SplitsPair(s, i + Width(s, i))
  {
  }

  /**
   * The walk writes the escape of exactly what it passed, no more than the bound and nothing that breaks a line; it
   * stops between code points, and before one that would not fit whole.
   */
  lemma {:induction false} WalkIs(s: Str, i: nat, used: nat, max: nat)
    requires i <= |s| && used <= max && !SplitsPair(s, i)
    ensures var (out, end) := WalkFrom(s, i, used, max);
            && i <= end <= |s| && out == Escaped(s[i..end]) && Safe(out) && used + |out| <= max
            && !SplitsPair(s, end)
            && (end < |s| ==> used + |out| + |Shown(s, end)| > max)
    decreases |s| - i
  {
    hide *;
    if i == |s| || used + |Shown(s, i)| > max {
      WalkEnds(s, i, used, max);
    } else {
      var w := Width(s, i);
      ShownIsEscaped(s, i);
      AfterPair(s, i);
      WalkStep(s, i, used, max);
      WalkIs(s, i + w, used + |Shown(s, i)|, max);
      var (rest, end) := WalkFrom(s, i + w, used + |Shown(s, i)|, max);
      WalkJoins(s, i, i + w, end);
    }
  }

  lemma WalkEnds(s: Str, i: nat, used: nat, max: nat)
    requires i <= |s| && (i < |s| ==> used + |Shown(s, i)| > max)
    ensures WalkFrom(s, i, used, max) == ([], i) && Escaped(s[i..i]) == [] && Safe([])
  {
    assert s[i..i] == [];
  }

  lemma WalkStep(s: Str, i: nat, used: nat, max: nat)
    requires i < |s| && used + |Shown(s, i)| <= max
    ensures WalkFrom(s, i, used, max)
            == var (rest, end) := WalkFrom(s, i + Width(s, i), used + |Shown(s, i)|, max); (Shown(s, i) + rest, end)
  {
  }

  lemma WalkJoins(s: Str, i: nat, mid: nat, end: nat)
    requires i <= mid <= end <= |s| && Safe(Escaped(s[i..mid])) && Safe(Escaped(s[mid..end]))
    ensures Escaped(s[i..mid]) + Escaped(s[mid..end]) == Escaped(s[i..end]) && Safe(Escaped(s[i..end]))
  {
    assert s[i..end] == s[i..mid] + s[mid..end];
    EscapedJoins(s[i..mid], s[mid..end]);
  }

  lemma {:induction false} PlainIsEscaped(s: Str)
    requires Safe(s)
    ensures Escaped(s) == s
  {
    if s != [] {
      PlainIsEscaped(s[1..]);
    }
  }

  /** A short text with nothing to escape is walked to its end as it is. */
  lemma PlainWalk(s: Str, max: nat)
    requires Safe(s) && |s| <= max
    ensures WalkFrom(s, 0, 0, max) == (s, |s|)
  {
    WalkIs(s, 0, 0, max);
    var (out, end) := WalkFrom(s, 0, 0, max);
    SafeSlice(s, end);
    PlainIsEscaped(s[0..end]);
    assert s[0..end] == s[..end];
    assert end < |s| ==> |Shown(s, end)| <= |s| - end;
    assert s[..|s|] == s;
  }

  lemma SafeSlice(s: Str, end: nat)
    requires Safe(s) && end <= |s|
    ensures Safe(s[0..end])
  {
  }

  // ---- The line ---------------------------------------------------------------------------------------------------

  /** Redaction of a window, and of a URL authority the window cuts open. */
  datatype Redactor = Redactor(redact: Str -> Str, close: Str -> Str)

  function Window(text: Str, max: nat): Str {
    if |text| > max + REDACT_MARGIN then text[..max + REDACT_MARGIN] else text
  }

  function RedactedWindow(text: Str, max: nat, r: Redactor): Str {
    var window := Window(text, max);
    if |window| < |text| then r.close(r.redact(window)) else r.redact(window)
  }

  function Decimal(n: nat): Str { if n < 10 then [48 + n] else Decimal(n / 10) + [48 + n % 10] }

  /** The number a line of digits says. */
  function Number(s: Str): int { if s == [] then 0 else 10 * Number(s[..|s| - 1]) + s[|s| - 1] - '0' as int }

  lemma {:induction false} DecimalReadsBack(n: nat)
    ensures Number(Decimal(n)) == n && (n > 0 ==> Decimal(n)[0] != '0' as int)
    ensures forall i :: 0 <= i < |Decimal(n)| ==> '0' as int <= Decimal(n)[i] <= '9' as int
  {
    if n >= 10 {
      DecimalReadsBack(n / 10);
      assert Decimal(n)[..|Decimal(n)| - 1] == Decimal(n / 10);
      assert Decimal(n)[0] == Decimal(n / 10)[0];
    } else {
      assert Decimal(n)[..0] == [];
    }
  }

  /** The mark that says how much was left out. */
  function Mark(omitted: nat): Str { [ELLIPSIS, 40, 43] + Decimal(omitted) + [32, 99, 104, 97, 114, 115, 41] }

  function Omitted(text: Str, max: nat, r: Redactor): nat {
    var redacted := RedactedWindow(text, max, r);
    var end := WalkFrom(redacted, 0, 0, max).1;
    (if end <= |redacted| then |redacted| - end else 0) + (|text| - |Window(text, max)|)
  }

  function Rendered(text: Str, max: nat, r: Redactor): Str {
    var out := WalkFrom(RedactedWindow(text, max, r), 0, 0, max).0;
    if Omitted(text, max, r) > 0 then out + Mark(Omitted(text, max, r)) else out
  }

  lemma {:induction false} DecimalIsSafe(n: nat)
    ensures Safe(Decimal(n))
  {
    if n >= 10 {
      DecimalIsSafe(n / 10);
    }
  }

  /**
   * A rendered value is one line: at most `max` characters of it, every one the escape of what was redacted, then, when
   * anything was left out, the mark that counts it. No escape and no surrogate pair is cut, and no more was left out
   * than had to be.
   */
  lemma RenderedIsOneLine(text: Str, max: nat, r: Redactor)
    ensures forall u :: u in Rendered(text, max, r) ==> 0x20 <= u && !(0x7f <= u <= 0x9f) && u != 0x2028 && u != 0x2029
    ensures var cut := |text| > max + 1024;
            var redacted := if cut then r.close(r.redact(text[..max + 1024])) else r.redact(text);
            exists end :: (
              && 0 <= end <= |redacted| && !SplitsPair(redacted, end) && |Escaped(redacted[..end])| <= max
              && (end < |redacted| ==> |Escaped(redacted[..end])| + |Shown(redacted, end)| > max)
              && Omitted(text, max, r) == |redacted| - end + (if cut then |text| - (max + 1024) else 0)
              && Rendered(text, max, r)
                 == Escaped(redacted[..end]) + if Omitted(text, max, r) > 0 then Mark(Omitted(text, max, r)) else [])
  {
    var redacted := RedactedWindow(text, max, r);
    WalkIs(redacted, 0, 0, max);
    var (out, end) := WalkFrom(redacted, 0, 0, max);
    assert redacted[0..end] == redacted[..end];
    DecimalIsSafe(Omitted(text, max, r));
    assert out + [] == out;
  }

  /** The walk as a loop: each code point's text while it fits whole. */
  method Walk(s: Str, max: nat) returns (out: Str, i: nat)
    ensures (out, i) == WalkFrom(s, 0, 0, max) && i <= |s|
  {
    hide *;
    var used := 0;
    out, i := [], 0;
    assert [] + WalkFrom(s, 0, 0, max).0 == WalkFrom(s, 0, 0, max).0;
    while i < |s|
      invariant 0 <= i <= |s| && used == |out|
      invariant WalkFrom(s, 0, 0, max).0 == out + WalkFrom(s, i, used, max).0
      invariant WalkFrom(s, 0, 0, max).1 == WalkFrom(s, i, used, max).1
    {
      var shown := Shown(s, i);
      if used + |shown| > max {
        WalkEnds(s, i, used, max);
        break;
      }
      WalkStep(s, i, used, max);
      var width := Width(s, i);
      ghost var rest := WalkFrom(s, i + width, used + |shown|, max).0;
      assert out + (shown + rest) == (out + shown) + rest;
      out, used, i := out + shown, used + |shown|, i + width;
    }
    if i == |s| { WalkEnds(s, i, used, max); }
    assert out + [] == out;
  }

  /**
   * The source's renderer: a short value with nothing to escape is given as it is, and that is what the walk would
   * give.
   */
  method Render(text: Str, max: nat, r: Redactor) returns (line: Str)
    ensures line == Rendered(text, max, r)
  {
    hide Decimal, WalkFrom, Mark, Escaped, Shown;
    var window := Window(text, max);
    var redacted := r.redact(window);
    if |window| < |text| {
      redacted := r.close(redacted);
    } else if |redacted| <= max && (forall i :: 0 <= i < |redacted| ==> !BreaksLine(redacted[i])) {
      PlainWalk(redacted, max);
      return redacted;
    }
    var out, i := Walk(redacted, max);
    var omitted := |redacted| - i + (|text| - |window|);
    line := if omitted > 0 then out + Mark(omitted) else out;
  }
}
