/**
 * The printed text is read back by the rules of `JSON.parse` (section 25.5.1 of ECMA-262), whatever follows it, so the
 * printing is injective: one text, one tree.
 */
module CanonicalPrint {

  import opened Maybe
  import opened CanonicalJson

  predicate Good(t: Tree) {
    match t
    case TNumber(token) => IsToken(token)
    case TList(items) => AllGood(items)
    case TRecord(members) => AllGoodMembers(members)
    case _ => true
  }

  predicate AllGood(ts: seq<Tree>) { ts == [] || (Good(ts[0]) && AllGood(ts[1..])) }
  predicate AllGoodMembers(ms: seq<Member>) { ms == [] || (Good(ms[0].value) && AllGoodMembers(ms[1..])) }

  /** What may follow a value: the end of the text, a comma, or the end of what holds it. */
  predicate Ends(x: Str) { x == [] || x[0] == COMMA || x[0] == CLOSE_LIST || x[0] == CLOSE_RECORD }

  // ---- The reader -------------------------------------------------------------------------------------------------

  function HexValue(u: Unit): Option<nat> {
    if '0' as int <= u <= '9' as int then Some(u - '0' as int)
    else if 'a' as int <= u <= 'f' as int then Some(u - 'a' as int + 10)
    else if 'A' as int <= u <= 'F' as int then Some(u - 'A' as int + 10)
    else None
  }

  /** Four hexadecimal digits, the most significant first. */
  function FourHex(s: Str): Option<Unit>
    requires |s| == 4
  {
    var a, b, c, d := HexValue(s[0]), HexValue(s[1]), HexValue(s[2]), HexValue(s[3]);
    if a.None? || b.None? || c.None? || d.None? || a.value > 15 || b.value > 15 || c.value > 15 || d.value > 15
        then None
    else Some(((a.value * 16 + b.value) * 16 + c.value) * 16 + d.value)
  }

  /** The unit a one-letter escape stands for. */
  function ShortEscape(u: Unit): Option<Unit> {
    if u == '"' as int || u == '\\' as int || u == '/' as int then Some(u)
    else if u == 'b' as int then Some(0x08)
    else if u == 't' as int then Some(0x09)
    else if u == 'n' as int then Some(0x0A)
    else if u == 'f' as int then Some(0x0C)
    else if u == 'r' as int then Some(0x0D)
    else None
  }

  /** One unit of a string, as it is written, and what is left of the text. */
  function ReadUnit(s: Str): (r: Option<(Unit, Str)>)
    ensures r.Some? ==> |r.value.1| < |s|
  {
    if s == [] || s[0] < 0x20 || s[0] == '"' as int then None
    else if s[0] != '\\' as int then Some((s[0], s[1..]))
    else if |s| < 2 then None
    else if s[1] != 'u' as int then (if ShortEscape(s[1]).Some? then Some((ShortEscape(s[1]).value, s[2..])) else None)
    else if |s| < 6 || FourHex(s[2..6]).None? then None
    else Some((FourHex(s[2..6]).value, s[6..]))
  }

  /** A string after its opening quote. */
  function ReadString(s: Str): (r: Option<(Str, Str)>)
    ensures r.Some? ==> |r.value.1| < |s|
    decreases |s|
  {
    if s != [] && s[0] == '"' as int then Some(([], s[1..]))
    else
      var first := ReadUnit(s);
      if first.None? then None
      else
        var rest := ReadString(first.value.1);
        if rest.None? then None else Some(([first.value.0] + rest.value.0, rest.value.1))
  }

  /** How many units at the start are a number's. */
  function NumberRun(s: Str): (n: nat)
    ensures n <= |s|
  {
    if s == [] || !NumberUnit(s[0]) then 0 else 1 + NumberRun(s[1..])
  }

  function Literal(t: Tree): Str {
    match t
    case TNull => ['n' as int, 'u' as int, 'l' as int, 'l' as int]
    case TFlag(true) => ['t' as int, 'r' as int, 'u' as int, 'e' as int]
    case TFlag(false) => ['f' as int, 'a' as int, 'l' as int, 's' as int, 'e' as int]
    case _ => []
  }

  predicate Begins(s: Str, word: Str) { |word| <= |s| && s[..|word|] == word }

  function ReadLiteral(s: Str, t: Tree): (r: Option<(Tree, Str)>)
    requires Literal(t) != []
    ensures r.Some? ==> |r.value.1| < |s|
  {
    if Begins(s, Literal(t)) then Some((t, s[|Literal(t)|..])) else None
  }

  /** One value, and what is left of the text. */
  function ReadValue(s: Str): (r: Option<(Tree, Str)>)
    ensures r.Some? ==> |r.value.1| < |s|
    decreases |s|, 0
  {
    if s == [] then None
    else if s[0] == 'n' as int then ReadLiteral(s, TNull)
    else if s[0] == 't' as int then ReadLiteral(s, TFlag(true))
    else if s[0] == 'f' as int then ReadLiteral(s, TFlag(false))
    else if s[0] == '"' as int then
      var text := ReadString(s[1..]);
      if text.None? then None else Some((TText(text.value.0), text.value.1))
    else if s[0] == '[' as int then
      if |s| > 1 && s[1] == ']' as int then Some((TList([]), s[2..]))
      else
        var items := ReadItems(s[1..]);
        if items.None? then None else Some((TList(items.value.0), items.value.1))
    else if s[0] == '{' as int then
      if |s| > 1 && s[1] == '}' as int then Some((TRecord([]), s[2..]))
      else
        var members := ReadMembers(s[1..]);
        if members.None? then None else Some((TRecord(members.value.0), members.value.1))
    else if NumberUnit(s[0]) then Some((TNumber(s[..NumberRun(s)]), s[NumberRun(s)..]))
    else None
  }

  /** One item or more, each but the last followed by a comma, and the end of the list. */
  function ReadItems(s: Str): (r: Option<(seq<Tree>, Str)>)
    ensures r.Some? ==> |r.value.1| < |s|
    decreases |s|, 1
  {
    var first := ReadValue(s);
    if first.None? || first.value.1 == [] then None
    else if first.value.1[0] == ']' as int then Some(([first.value.0], first.value.1[1..]))
    else if first.value.1[0] != ',' as int then None
    else
      var rest := ReadItems(first.value.1[1..]);
      if rest.None? then None else Some(([first.value.0] + rest.value.0, rest.value.1))
  }

  /** A key, a colon and a value. */
  function ReadMember(s: Str): (r: Option<(Member, Str)>)
    ensures r.Some? ==> |r.value.1| < |s|
    decreases |s|, 1
  {
    if s == [] || s[0] != '"' as int then None
    else
      var key := ReadString(s[1..]);
      if key.None? || key.value.1 == [] || key.value.1[0] != ':' as int then None
      else
        var value := ReadValue(key.value.1[1..]);
        if value.None? then None else Some((Member(key.value.0, value.value.0), value.value.1))
  }

  function ReadMembers(s: Str): (r: Option<(seq<Member>, Str)>)
    ensures r.Some? ==> |r.value.1| < |s|
    decreases |s|, 2
  {
    var first := ReadMember(s);
    if first.None? || first.value.1 == [] then None
    else if first.value.1[0] == '}' as int then Some(([first.value.0], first.value.1[1..]))
    else if first.value.1[0] != ',' as int then None
    else
      var rest := ReadMembers(first.value.1[1..]);
      if rest.None? then None else Some(([first.value.0] + rest.value.0, rest.value.1))
  }

  /** A whole text. */
  function ReadText(s: Str): Option<Tree> {
    var r := ReadValue(s);
    if r.Some? && r.value.1 == [] then Some(r.value.0) else None
  }

  // ---- Strings ----------------------------------------------------------------------------------------------------

  lemma HexReads(n: int)
    requires 0 <= n < 16
    ensures HexValue(Hex(n)) == Some(n)
  {
  }

  lemma UnitByHex(u: Unit)
    ensures 0 <= u / 4096 < 16 && 0 <= u / 256 % 16 < 16 && 0 <= u / 16 % 16 < 16 && 0 <= u % 16 < 16
    ensures u == ((u / 4096 * 16 + u / 256 % 16) * 16 + u / 16 % 16) * 16 + u % 16
  {
  }

  lemma FourHexReads(u: Unit)
    ensures FourHex([Hex(u / 4096), Hex(u / 256 % 16), Hex(u / 16 % 16), Hex(u % 16)]) == Some(u)
  {
    UnitByHex(u);
    HexReads(u / 4096);
    HexReads(u / 256 % 16);
    HexReads(u / 16 % 16);
    HexReads(u % 16);
    hide Hex, HexValue;
  }

  /** An escape is read as the unit it stands for. */
  lemma EscapeReads(u: Unit, x: Str)
    ensures ReadUnit(Escape(u) + x) == Some((u, x))
  {
    var w, code := Escape(u) + x, Code(u);
    assert w[0] == 92 && w[1] == code[0];
    if |code| == 1 {
      assert w[2..] == x;
    } else {
      FourHexReads(u);
      assert |code| == 5 && w[2..6] == code[1..] && w[6..] == x;
      assert code[1..] == [Hex(u / 4096), Hex(u / 256 % 16), Hex(u / 16 % 16), Hex(u % 16)];
    }
  }

  lemma PlainReads(u: Unit, x: Str)
    requires u >= 32 && u != 34 && u != 92
    ensures ReadUnit([u] + x) == Some((u, x))
  {
    assert ([u] + x)[1..] == x;
  }

  lemma Assoc(a: Str, b: Str, c: Str)
    ensures (a + b) + c == a + (b + c)
  {
  }

  lemma ReadStep(w: Str, u: Unit, rest: Str, s: Str, x: Str)
    requires w != [] && w[0] != 34 && ReadUnit(w) == Some((u, rest)) && ReadString(rest) == Some((s, x))
    ensures ReadString(w) == Some(([u] + s, x))
  {
    hide ReadUnit;
  }

  /** A piece of text that is read as one unit, before text that is read as a string. */
  lemma OneRead(piece: Str, rest: Str, x: Str, u: Unit, s: Str)
    requires piece != [] && piece[0] != 34
    requires ReadUnit(piece + (rest + x)) == Some((u, rest + x)) && ReadString(rest + x) == Some((s, x))
    ensures ReadString((piece + rest) + x) == Some(([u] + s, x))
  {
    hide *;
    Assoc(piece, rest, x);
    var w := piece + (rest + x);
    assert w[0] == piece[0];
    ReadStep(w, u, rest + x, s, x);
  }

  /** What a string's text starts with: an escape, a unit as it is, or the two halves of a pair. */
  lemma QuotedIs(s: Str)
    requires s != []
    ensures Escaped(s) ==> Quoted(s) == Escape(s[0]) + Quoted(s[1..])
    ensures !Escaped(s) && High(s[0]) ==>
              |s| > 1 && Low(s[1]) && Quoted(s) == [s[0], s[1]] + Quoted(s[2..])
    ensures !Escaped(s) && !High(s[0]) ==> Quoted(s) == [s[0]] + Quoted(s[1..])
    ensures !Escaped(s) ==> s[0] >= 32 && s[0] != 34 && s[0] != 92
    ensures Escape(s[0]) != [] && Escape(s[0])[0] == 92
  {
  }

  /** A string's text, whatever follows it, is read as that string. */
  lemma {:induction false} QuotedReads(s: Str, x: Str)
    ensures ReadString(Quoted(s) + x) == Some((s, x))
    decreases |s|
  {
    hide *;
    if s == [] {
      NoMore(s, x);
    } else {
      QuotedIs(s);
      if Escaped(s) {
        QuotedReads(s[1..], x);
        EscapeReads(s[0], Quoted(s[1..]) + x);
        OneRead(Escape(s[0]), Quoted(s[1..]), x, s[0], s[1..]);
        assert s == [s[0]] + s[1..];
      } else if High(s[0]) {
        QuotedReads(s[2..], x);
        PairReads(s, x);
      } else {
        QuotedReads(s[1..], x);
        PlainReads(s[0], Quoted(s[1..]) + x);
        OneRead([s[0]], Quoted(s[1..]), x, s[0], s[1..]);
        assert s == [s[0]] + s[1..];
      }
    }
  }

  lemma NoMore(s: Str, x: Str)
    requires s == []
    ensures ReadString(Quoted(s) + x) == Some((s, x))
  {
    var w := [QUOTE] + x;
    assert w[1..] == x;
  }

  /** The two halves of a pair are read one by one. */
  lemma PairReads(s: Str, x: Str)
    requires |s| > 1 && High(s[0]) && Low(s[1]) && Quoted(s) == [s[0], s[1]] + Quoted(s[2..])
    requires ReadString(Quoted(s[2..]) + x) == Some((s[2..], x))
    ensures ReadString(Quoted(s) + x) == Some((s, x))
  {
    assert s[0] >= 0xD800 && s[1] >= 0xD800;
    hide *;
    var rest := Quoted(s[2..]);
    PlainReads(s[1], rest + x);
    OneRead([s[1]], rest, x, s[1], s[2..]);
    PlainReads(s[0], ([s[1]] + rest) + x);
    OneRead([s[0]], [s[1]] + rest, x, s[0], [s[1]] + s[2..]);
    assert [s[0], s[1]] == [s[0]] + [s[1]];
    Assoc([s[0]], [s[1]], rest);
    assert s == [s[0]] + ([s[1]] + s[2..]);
  }

  /** So two strings with one text, even when more follows, are one string. */
  lemma QuotedIsUnique(s: Str, t: Str, x: Str, y: Str)
    requires Quoted(s) + x == Quoted(t) + y
    ensures s == t && x == y
  {
    QuotedReads(s, x);
    QuotedReads(t, y);
  }

  // ---- What is escaped --------------------------------------------------------------------------------------------

  /** Every surrogate is half of a pair. */
  predicate Paired(s: Str) {
    forall i :: 0 <= i < |s| ==> PairedAt(s, i)
  }

  /** Nothing in the text has to be escaped. */
  predicate Plain(s: Str) {
    Paired(s) && forall u :: u in s ==> u >= 0x20 && u != '"' as int && u != '\\' as int
  }

  predicate PairedAt(s: Str, i: nat)
    requires i < |s|
  {
    (High(s[i]) ==> i + 1 < |s| && Low(s[i + 1])) && (Low(s[i]) ==> i > 0 && High(s[i - 1]))
  }

  /** The first character of a text with nothing to escape, and the rest of it. */
  lemma PlainFirst(s: Str)
    requires Plain(s) && s != []
    ensures !Escaped(s) && (High(s[0]) ==> |s| > 1) && Plain(s[if High(s[0]) then 2 else 1..])
  {
    assert s[0] in s;
    assert PairedAt(s, 0);
    var n := if High(s[0]) then 2 else 1;
    var rest := s[n..];
    forall i | 0 <= i < |rest| ensures PairedAt(rest, i) {
      assert PairedAt(s, i + n) && rest[i] == s[i + n];
    }
    assert forall u :: u in rest ==> u in s;
  }

  /** A text with nothing to escape is quoted as it is. */
  lemma {:induction false} PlainIsQuoted(s: Str)
    requires Plain(s)
    ensures Quoted(s) == s + ['"' as int]
    decreases |s|
  {
    hide Plain, Escaped, Escape;
    if s != [] {
      var n := if High(s[0]) then 2 else 1;
      PlainFirst(s);
      PlainIsQuoted(s[n..]);
      QuotedIs(s);
      assert s == s[..n] + s[n..];
    }
  }

  /** An escape is one letter for a quote, a backslash and five controls, and else four small hexadecimal digits. */
  lemma EscapeIs(u: Unit)
    ensures |Escape(u)| == 2
            <==> u in ['"' as int, '\\' as int, '\t' as int, '\n' as int, '\r' as int, 8, 12]
    ensures |Escape(u)| == 2 || |Escape(u)| == 6
    ensures forall i :: 2 <= i < |Escape(u)| ==>
              '0' as int <= Escape(u)[i] <= '9' as int || 'a' as int <= Escape(u)[i] <= 'f' as int
    ensures forall v :: v in Escape(u) ==> 0x20 <= v < 0x80
  {
  }

  lemma PairedAfter(a: Str, b: Str)
    requires Paired(b) && ((forall u :: u in a ==> !High(u) && !Low(u)) || (|a| == 2 && High(a[0]) && Low(a[1])))
    ensures Paired(a + b)
  {
    var s := a + b;
    forall i | 0 <= i < |s| ensures PairedAt(s, i) {
      if i >= |a| {
        assert s[i] == b[i - |a|] && PairedAt(b, i - |a|);
      } else {
        assert s[i] in a;
      }
    }
  }

  /** What is printed of a text is well-formed UTF-16, and holds no control. */
  lemma {:induction false} QuotedIsWellFormed(s: Str)
    ensures Paired(Quoted(s)) && forall u :: u in Quoted(s) ==> u >= 0x20
    decreases |s|
  {
    hide Escape, Escaped, Paired, Quoted;
    if s == [] {
      NothingQuoted();
    } else {
      QuotedIs(s);
      EscapeIs(s[0]);
      if Escaped(s) {
        QuotedIsWellFormed(s[1..]);
        PairedAfter(Escape(s[0]), Quoted(s[1..]));
      } else {
        NotEscaped(s);
        var first := if High(s[0]) then [s[0], s[1]] else [s[0]];
        QuotedIsWellFormed(s[|first|..]);
        PairedAfter(first, Quoted(s[|first|..]));
      }
    }
  }

  lemma NothingQuoted()
    ensures Paired(Quoted([])) && forall u :: u in Quoted([]) ==> u >= 0x20
  {
  }

  lemma NotEscaped(s: Str)
    requires s != [] && !Escaped(s)
    ensures s[0] >= 0x20 && !Low(s[0]) && (High(s[0]) ==> |s| > 1 && Low(s[1]))
  {
  }

  // ---- Numbers ----------------------------------------------------------------------------------------------------

  lemma {:induction false} TokenReads(a: Str, x: Str)
    requires (forall i :: 0 <= i < |a| ==> NumberUnit(a[i])) && Ends(x)
    ensures NumberRun(a + x) == |a|
  {
    if a == [] {
      assert a + x == x;
    } else {
      TokenReads(a[1..], x);
      assert (a + x)[1..] == a[1..] + x;
    }
  }

  // ---- Trees ------------------------------------------------------------------------------------------------------

  lemma LiteralReads(t: Tree, x: Str)
    requires Literal(t) != []
    ensures Print(t) == Literal(t) && ReadValue(Print(t) + x) == Some((t, x))
  {
    var w := Literal(t) + x;
    assert Print(t) == Literal(t);
    assert w[..|Literal(t)|] == Literal(t) && w[|Literal(t)|..] == x;
  }

  lemma NumberReads(token: Str, x: Str)
    requires IsToken(token) && Ends(x)
    ensures ReadValue(token + x) == Some((TNumber(token), x))
  {
    TokenReads(token, x);
    var w := token + x;
    assert w[0] == token[0] && w[..|token|] == token && w[|token|..] == x;
  }

  /** A printed tree, whatever ends it, is read as that tree. */
  lemma {:induction false} PrintReads(t: Tree, x: Str)
    requires Good(t) && Ends(x)
    ensures ReadValue(Print(t) + x) == Some((t, x))
    decreases t, 1
  {
    hide Print, ReadValue, PrintItems, PrintMembers, Quoted;
    match t
    case TNumber(token) =>
      LeafText(t);
      NumberReads(token, x);
    case TText(s) =>
      QuotedReads(s, x);
      TextReads(s, x);
    case TList(items) =>
      if items != [] {
        ItemsRead(items, x);
      }
      ListReads(items, x);
    case TRecord(members) =>
      if members != [] {
        MembersRead(members, x);
      }
      RecordReads(members, x);
    case _ => LiteralReads(t, x);
  }

  lemma LeafText(t: Tree)
    requires t.TNumber?
    ensures Print(t) == t.token
  {
  }

  lemma TextReads(s: Str, x: Str)
    requires ReadString(Quoted(s) + x) == Some((s, x))
    ensures ReadValue(Print(TText(s)) + x) == Some((TText(s), x))
  {
    var w := ([QUOTE] + Quoted(s)) + x;
    hide Quoted, ReadString;
    assert w[0] == QUOTE && w[1..] == Quoted(s) + x;
  }

  lemma ListReads(items: seq<Tree>, x: Str)
    requires AllGood(items) && (items != [] ==> ReadItems(PrintItems(items) + x) == Some((items, x)))
    ensures ReadValue(Print(TList(items)) + x) == Some((TList(items), x))
  {
    var w := ([OPEN_LIST] + PrintItems(items)) + x;
    if items == [] {
      assert w == [OPEN_LIST, CLOSE_LIST] + x && w[2..] == x;
    } else {
      ItemsStart(items, x);
      hide PrintItems, ReadItems;
      assert w[0] == OPEN_LIST && w[1..] == PrintItems(items) + x;
    }
  }

  lemma ItemsStart(items: seq<Tree>, x: Str)
    requires AllGood(items) && items != []
    ensures PrintItems(items) + x != [] && (PrintItems(items) + x)[0] != CLOSE_LIST
  {
    FirstOfPrint(items[0], AfterItem(items) + x);
    hide *;
    ItemsText(items, x);
  }

  lemma RecordReads(members: seq<Member>, x: Str)
    requires members != [] ==> ReadMembers(PrintMembers(members) + x) == Some((members, x))
    ensures ReadValue(Print(TRecord(members)) + x) == Some((TRecord(members), x))
  {
    if members == [] {
      var w := [OPEN_RECORD, CLOSE_RECORD] + x;
      assert Print(TRecord(members)) == [OPEN_RECORD, CLOSE_RECORD];
      assert w[2..] == x;
    } else {
      assert Print(TRecord(members)) == [OPEN_RECORD] + PrintMembers(members);
      hide *;
      MembersStart(members, x);
      Assoc([OPEN_RECORD], PrintMembers(members), x);
      RecordStep([OPEN_RECORD] + (PrintMembers(members) + x), members, x);
    }
  }

  lemma MembersStart(members: seq<Member>, x: Str)
    requires members != []
    ensures PrintMembers(members) + x != [] && (PrintMembers(members) + x)[0] == QUOTE
  {
    MembersText(members, x);
  }

  lemma RecordStep(w: Str, members: seq<Member>, x: Str)
    requires |w| > 1 && w[0] == OPEN_RECORD && w[1] == QUOTE && ReadMembers(w[1..]) == Some((members, x))
    ensures ReadValue(w) == Some((TRecord(members), x))
  {
    hide ReadMembers;
  }

  /** No value's text starts as a list ends. */
  lemma FirstOfPrint(t: Tree, x: Str)
    requires Good(t)
    ensures Print(t) != [] && (Print(t) + x)[0] != CLOSE_LIST
  {
  }

  /** What follows the first item: the comma and the rest, or the end. */
  function AfterItem(ts: seq<Tree>): Str
    requires ts != []
  {
    (if |ts| > 1 then [COMMA] else []) + PrintItems(ts[1..])
  }

  function AfterMember(ms: seq<Member>): Str
    requires ms != []
  {
    (if |ms| > 1 then [COMMA] else []) + PrintMembers(ms[1..])
  }

  /** A comma and more, or the end: what may stand after an item or a member. */
  lemma AfterEnds(more: bool, rest: Str, close: Unit, x: Str)
    requires !more ==> rest == [close]
    requires close == CLOSE_LIST || close == CLOSE_RECORD
    ensures var w := ((if more then [COMMA] else []) + rest) + x;
            Ends(w) && w != [] && w[0] == (if more then COMMA else close) && w[1..] == if more then rest + x else x
  {
    if more {
      Assoc([COMMA], rest, x);
      assert ([COMMA] + (rest + x))[1..] == rest + x;
    } else {
      assert [] + rest + x == [close] + x;
    }
  }

  lemma ItemsText(ts: seq<Tree>, x: Str)
    requires ts != []
    ensures PrintItems(ts) + x == Print(ts[0]) + (AfterItem(ts) + x)
  {
    ItemsAre(ts);
    hide *;
    var p, c, r := Print(ts[0]), if |ts| > 1 then [COMMA] else [], PrintItems(ts[1..]);
    Assoc(p, c, r);
    Assoc(p, c + r, x);
  }

  lemma ItemsAre(ts: seq<Tree>)
    requires ts != []
    ensures PrintItems(ts) == Print(ts[0]) + (if |ts| > 1 then [COMMA] else []) + PrintItems(ts[1..])
    ensures AfterItem(ts) == (if |ts| > 1 then [COMMA] else []) + PrintItems(ts[1..])
    ensures |ts| == 1 ==> PrintItems(ts[1..]) == [CLOSE_LIST]
  {
  }

  lemma ItemsStep(w: Str, t: Tree, after: Str, more: seq<Tree>, x: Str)
    requires ReadValue(w) == Some((t, after)) && after != []
    requires after[0] == CLOSE_LIST ==> more == [] && x == after[1..]
    requires after[0] != CLOSE_LIST ==> after[0] == COMMA && ReadItems(after[1..]) == Some((more, x))
    ensures ReadItems(w) == Some(([t] + more, x))
  {
    hide ReadValue;
    assert [t] + [] == [t];
  }

  lemma {:induction false} ItemsRead(ts: seq<Tree>, x: Str)
    requires ts != [] && AllGood(ts)
    ensures ReadItems(PrintItems(ts) + x) == Some((ts, x))
    decreases ts, 0
  {
    assert Good(ts[0]) && AllGood(ts[1..]);
    hide *;
    var after := AfterItem(ts) + x;
    ItemsAre(ts);
    ItemsText(ts, x);
    AfterEnds(|ts| > 1, PrintItems(ts[1..]), CLOSE_LIST, x);
    PrintReads(ts[0], after);
    if |ts| > 1 {
      ItemsRead(ts[1..], x);
    }
    assert ts == [ts[0]] + ts[1..];
    ItemsStep(PrintItems(ts) + x, ts[0], after, ts[1..], x);
  }

  lemma MembersAre(ms: seq<Member>)
    requires ms != []
    ensures PrintMembers(ms) == [QUOTE] + Quoted(ms[0].key) + [COLON] + Print(ms[0].value)
                                + (if |ms| > 1 then [COMMA] else []) + PrintMembers(ms[1..])
    ensures AfterMember(ms) == (if |ms| > 1 then [COMMA] else []) + PrintMembers(ms[1..])
    ensures |ms| == 1 ==> PrintMembers(ms[1..]) == [CLOSE_RECORD]
  {
  }

  lemma MembersText(ms: seq<Member>, x: Str)
    requires ms != []
    ensures var w := PrintMembers(ms) + x;
            && w != [] && w[0] == QUOTE
            && w[1..] == Quoted(ms[0].key) + ([COLON] + (Print(ms[0].value) + (AfterMember(ms) + x)))
  {
    MembersAre(ms);
    hide *;
    var q, k, c, v := [QUOTE], Quoted(ms[0].key), [COLON], Print(ms[0].value);
    var m, r := if |ms| > 1 then [COMMA] else [], PrintMembers(ms[1..]);
    Assoc(q + k + c + v, m, r);
    Assoc(q + k + c + v, m + r, x);
    Assoc(q + k + c, v, (m + r) + x);
    Assoc(q + k, c, v + ((m + r) + x));
    Assoc(q, k, c + (v + ((m + r) + x)));
    var rest := k + (c + (v + ((m + r) + x)));
    assert ([QUOTE] + rest)[1..] == rest;
  }

  lemma MembersStep(w: Str, m: Member, after: Str, more: seq<Member>, x: Str)
    requires ReadMember(w) == Some((m, after)) && after != []
    requires after[0] == CLOSE_RECORD ==> more == [] && x == after[1..]
    requires after[0] != CLOSE_RECORD ==> after[0] == COMMA && ReadMembers(after[1..]) == Some((more, x))
    ensures ReadMembers(w) == Some(([m] + more, x))
  {
    hide ReadMember;
    assert [m] + [] == [m];
  }

  lemma {:induction false} MembersRead(ms: seq<Member>, x: Str)
    requires ms != [] && AllGoodMembers(ms)
    ensures ReadMembers(PrintMembers(ms) + x) == Some((ms, x))
    decreases ms, 0
  {
    assert Good(ms[0].value) && AllGoodMembers(ms[1..]);
    hide *;
    var after := AfterMember(ms) + x;
    MembersAre(ms);
    MembersText(ms, x);
    AfterEnds(|ms| > 1, PrintMembers(ms[1..]), CLOSE_RECORD, x);
    PrintReads(ms[0].value, after);
    QuotedReads(ms[0].key, [COLON] + (Print(ms[0].value) + after));
    MemberReads(PrintMembers(ms) + x, ms[0], after);
    if |ms| > 1 {
      MembersRead(ms[1..], x);
    }
    assert ms == [ms[0]] + ms[1..];
    MembersStep(PrintMembers(ms) + x, ms[0], after, ms[1..], x);
  }

  lemma MemberReads(w: Str, m: Member, after: Str)
    requires w != [] && w[0] == QUOTE && w[1..] == Quoted(m.key) + ([COLON] + (Print(m.value) + after))
    requires ReadString(w[1..]) == Some((m.key, [COLON] + (Print(m.value) + after)))
    requires ReadValue(Print(m.value) + after) == Some((m.value, after))
    ensures ReadMember(w) == Some((m, after))
  {
    hide ReadString, ReadValue, Print, Quoted;
    assert ([COLON] + (Print(m.value) + after))[1..] == Print(m.value) + after;
  }

  /** The text of a tree is read back as the tree. */
  lemma TextReadsBack(t: Tree)
    requires Good(t)
    ensures ReadText(Print(t)) == Some(t)
  {
    assert Print(t) + [] == Print(t);
    PrintReads(t, []);
  }

  /** One text, one tree. */
  lemma PrintIsInjective(a: Tree, b: Tree)
    requires Good(a) && Good(b) && Print(a) == Print(b)
    ensures a == b
  {
    TextReadsBack(a);
    TextReadsBack(b);
  }
}
