/**
 * The notes above a property (`schema/src/typescript.ts` writes them, `schema/src/from-typescript.ts` reads them): a
 * line each for what the member's type cannot say. They are read from the end, so a description that looks like a note
 * is still the description wherever a note that must come before it follows.
 */
module ReadNotes {

  import opened Maybe
  import opened ReadBack

  // ---- Text in a comment ------------------------------------------------------------------------------------------

  predicate IsBreak(c: char) { c == '\n' || c == '\r' || c == '\U{2028}' || c == '\U{2029}' }
  predicate IsSpace(c: char) {
    c == ' ' || '\t' <= c <= '\r' || c == '\U{a0}' || c == '\U{1680}' || '\U{2000}' <= c <= '\U{200a}'
    || c == '\U{2028}' || c == '\U{2029}' || c == '\U{202f}' || c == '\U{205f}' || c == '\U{3000}' || c == '\U{feff}'
  }

  /** `*` `/` cannot close the comment. */
  function Unclosed(s: string): string {
    if |s| < 2 then s
    else if s[0] == '*' && s[1] == '/' then "*\\/" + Unclosed(s[2..])
    else [s[0]] + Unclosed(s[1..])
  }

  /** A line break is a space; a carriage return and a line feed are one. */
  function OneLine(s: string): string {
    if s == [] then []
    else if |s| > 1 && s[0] == '\r' && s[1] == '\n' then " " + OneLine(s[2..])
    else (if IsBreak(s[0]) then " " else [s[0]]) + OneLine(s[1..])
  }

  /** An `@` that leads the text cannot start a tag. */
  function NoTag(s: string): string {
    if s == [] then [] else if IsSpace(s[0]) then [s[0]] + NoTag(s[1..]) else if s[0] == '@' then "\\" + s else s
  }

  function CommentText(s: string): string { NoTag(OneLine(Unclosed(s))) }

  /** No `*` of a text stands before a `/`. */
  predicate CannotClose(s: string) { forall i :: 0 <= i < |s| - 1 ==> !(s[i] == '*' && s[i + 1] == '/') }
  /** The first character that is not a space is no `@`. */
  predicate StartsNoTag(s: string) {
    forall i :: 0 <= i < |s| && (forall j :: 0 <= j < i ==> IsSpace(s[j])) ==> s[i] != '@'
  }

  predicate HasNoBreak(s: string) { forall i :: 0 <= i < |s| ==> !IsBreak(s[i]) }

  lemma {:induction false} UnclosedHolds(s: string)
    ensures CannotClose(Unclosed(s)) && (Unclosed(s) == [] <==> s == [])
    ensures s != [] ==> Unclosed(s)[0] == s[0]
    decreases |s|
  {
    if |s| >= 2 {
      if s[0] == '*' && s[1] == '/' {
        var rest := Unclosed(s[2..]);
        UnclosedHolds(s[2..]);
        var t := "*\\/" + rest;
        assert t[..3] == "*\\/" && t[3..] == rest;
        forall i | 0 <= i < |t| - 1 ensures !(t[i] == '*' && t[i + 1] == '/') {
          if i >= 3 { assert t[i] == rest[i - 3] && t[i + 1] == rest[i - 2]; }
        }
      } else {
        var rest := Unclosed(s[1..]);
        UnclosedHolds(s[1..]);
        var t := [s[0]] + rest;
        forall i | 0 <= i < |t| - 1 ensures !(t[i] == '*' && t[i + 1] == '/') {
          if i >= 1 { assert t[i] == rest[i - 1] && t[i + 1] == rest[i]; }
        }
      }
    }
  }

  lemma {:induction false} OneLineHolds(s: string)
    requires CannotClose(s)
    ensures CannotClose(OneLine(s)) && HasNoBreak(OneLine(s)) && (OneLine(s) == [] <==> s == [])
    ensures s != [] ==> OneLine(s)[0] == if IsBreak(s[0]) then ' ' else s[0]
    decreases |s|
  {
    if s != [] {
      var two := |s| > 1 && s[0] == '\r' && s[1] == '\n';
      var tail := if two then s[2..] else s[1..];
      forall i | 0 <= i < |tail| - 1 ensures !(tail[i] == '*' && tail[i + 1] == '/') {
        var k := if two then i + 2 else i + 1;
        assert tail[i] == s[k] && tail[i + 1] == s[k + 1];
      }
      OneLineHolds(tail);
      var rest, t := OneLine(tail), OneLine(s);
      assert t == [t[0]] + rest;
      forall i | 0 <= i < |t| - 1 ensures !(t[i] == '*' && t[i + 1] == '/') {
        if i >= 1 { assert t[i] == rest[i - 1] && t[i + 1] == rest[i]; }
      }
    }
  }

  lemma {:induction false} NoTagHolds(s: string)
    requires CannotClose(s) && HasNoBreak(s)
    ensures CannotClose(NoTag(s)) && HasNoBreak(NoTag(s)) && (NoTag(s) == [] <==> s == [])
    ensures s != [] ==> NoTag(s)[0] == (if s[0] == '@' then '\\' else s[0])
    decreases |s|
  {
    if s != [] {
      if IsSpace(s[0]) {
        var tail := s[1..];
        forall i | 0 <= i < |tail| - 1
          ensures !(tail[i] == '*' && tail[i + 1] == '/')
        {
          assert tail[i] == s[i + 1] && tail[i + 1] == s[i + 2];
        }
        NoTagHolds(tail);
        var rest, t := NoTag(tail), NoTag(s);
        assert t == [s[0]] + rest;
        forall i | 0 <= i < |t| - 1 ensures !(t[i] == '*' && t[i + 1] == '/') {
          if i >= 1 { assert t[i] == rest[i - 1] && t[i + 1] == rest[i]; }
        }
      } else if s[0] == '@' {
        var t := "\\" + s;
        forall i | 0 <= i < |t| - 1 ensures !(t[i] == '*' && t[i + 1] == '/') {
          if i >= 1 { assert t[i] == s[i - 1] && t[i + 1] == s[i]; }
        }
      }
    }
  }

  lemma {:induction false} NoTagStartsNone(s: string)
    ensures StartsNoTag(NoTag(s))
    decreases |s|
  {
    if s != [] && IsSpace(s[0]) {
      NoTagStartsNone(s[1..]);
      var rest, t := NoTag(s[1..]), NoTag(s);
      forall i | 0 <= i < |t| && (forall j :: 0 <= j < i ==> IsSpace(t[j])) ensures t[i] != '@' {
        if i > 0 {
          assert forall j :: 0 <= j < i - 1 ==> rest[j] == t[j + 1];
          assert rest[i - 1] == t[i];
        }
      }
    } else if s != [] {
      var t := NoTag(s);
      assert t[0] != '@' && !IsSpace(t[0]);
    }
  }

  /**
   * Whatever a schema says, its text in a comment is one line, cannot close the comment, cannot start a tag or a
   * directive, and is there when it said anything.
   */
  lemma CommentTextIsSafe(s: string)
    ensures CannotClose(CommentText(s)) && HasNoBreak(CommentText(s)) && StartsNoTag(CommentText(s))
    ensures CommentText(s) == [] <==> s == []
  {
    UnclosedHolds(s);
    OneLineHolds(Unclosed(s));
    NoTagHolds(OneLine(Unclosed(s)));
    NoTagStartsNone(OneLine(Unclosed(s)));
  }

  /** A text without its blanks, its line breaks and its backslashes. */
  function Bare(s: string): string {
    if s == [] then []
    else (if s[0] == '\\' || s[0] == ' ' || IsBreak(s[0]) then [] else [s[0]]) + Bare(s[1..])
  }

  lemma {:induction false} BareJoins(a: string, b: string)
    ensures Bare(a + b) == Bare(a) + Bare(b)
  {
    if a == [] {
      assert a + b == b;
    } else {
      assert (a + b)[1..] == a[1..] + b;
      BareJoins(a[1..], b);
    }
  }

  lemma {:induction false} UnclosedIsBare(s: string)
    ensures Bare(Unclosed(s)) == Bare(s)
    decreases |s|
  {
    if |s| < 2 {
    } else if s[0] == '*' && s[1] == '/' {
      UnclosedIsBare(s[2..]);
      BareJoins("*\\/", Unclosed(s[2..]));
      BareJoins("*/", s[2..]);
      assert s == "*/" + s[2..];
      assert Bare("*\\/") == Bare("*/") by { BareClose(); }
    } else {
      UnclosedIsBare(s[1..]);
    }
  }

  lemma BareClose()
    ensures Bare("*\\/") == Bare("*/") == "*/"
  {
    assert "*\\/"[1..] == "\\/" && "\\/"[1..] == "/" && "/"[1..] == "" && "*/"[1..] == "/";
    assert Bare("/") == "/";
    assert Bare("\\/") == "/";
  }

  lemma {:induction false} OneLineIsBare(s: string)
    ensures Bare(OneLine(s)) == Bare(s)
    decreases |s|
  {
    if |s| > 1 && s[0] == '\r' && s[1] == '\n' {
      OneLineIsBare(s[2..]);
      assert s[1..][1..] == s[2..];
      assert Bare(s) == Bare(s[1..]) == Bare(s[2..]);
    } else if s != [] {
      OneLineIsBare(s[1..]);
    }
  }

  lemma {:induction false} NoTagIsBare(s: string)
    ensures Bare(NoTag(s)) == Bare(s)
  {
    if s != [] && IsSpace(s[0]) {
      NoTagIsBare(s[1..]);
    } else if s != [] && s[0] == '@' {
      BareJoins("\\", s);
    }
  }

  /** Making a text safe adds and takes nothing but backslashes, blanks and line breaks. */
  lemma CommentTextKeepsText(s: string)
    ensures Bare(CommentText(s)) == Bare(s)
  {
    hide *;
    CommentTextIs(s);
    UnclosedIsBare(s);
    OneLineIsBare(Unclosed(s));
    NoTagIsBare(OneLine(Unclosed(s)));
  }

  lemma CommentTextIs(s: string)
    ensures CommentText(s) == NoTag(OneLine(Unclosed(s)))
  {
  }

  // ---- The notes --------------------------------------------------------------------------------------------------

  const FIELDS: seq<string> := ["type", "pattern", "minimum", "maximum", "default", "mergeFn", "required"]
  const REQUIRED_REST := " a write must carry it, and not as null or an empty string"
  const REQUIRED_NOTE := "required:" + REQUIRED_REST

  function TypeName(t: PropertyType): string {
    match t
    case StringT => "string"
    case NumberT => "number"
    case BooleanT => "boolean"
    case DateT => "date"
  }

  function Noted(field: string, text: Option<string>): seq<string> {
    if text.None? then [] else [field + " " + CommentText(text.value)]
  }

  function DescriptionNote(p: Property): seq<string> {
    if p.description == "" then [] else [CommentText(p.description)]
  }
  function TypeNote(p: Property): seq<string> { if p.typ.None? then [] else ["type " + TypeName(p.typ.value)] }
  function MergeText(p: Property): Option<string> { if p.mergeFn == "" then None else Some(p.mergeFn) }
  function RequiredNote(p: Property): seq<string> { if p.required then [REQUIRED_NOTE] else [] }

  /** The lines above a property. */
  function Notes(p: Property): seq<string> {
    DescriptionNote(p) + TypeNote(p) + Noted("pattern", p.pattern) + Noted("minimum", p.minimum)
        + Noted("maximum", p.maximum)
    + Noted("default", p.default) + Noted("mergeFn", MergeText(p)) + RequiredNote(p)
  }

  // ---- The reading ------------------------------------------------------------------------------------------------

  function TrimEnd(s: string): string { if s != [] && IsSpace(s[|s| - 1]) then TrimEnd(s[..|s| - 1]) else s }

  predicate StartsWith(s: string, prefix: string) { |prefix| <= |s| && s[..|prefix|] == prefix }

  /** Whether a line starts a field's note. */
  predicate IsNote(at: nat, line: string)
    requires at < 7
  {
    if at == 0 then line in ["type string", "type number", "type boolean", "type date"]
    else if at == 6 then StartsWith(line, "required:")
    else StartsWith(line, FIELDS[at]) && (|line| == |FIELDS[at]| || line[|FIELDS[at]|] == ' ')
  }

  function FindFrom(line: string, at: nat): nat
    requires at <= 7
    ensures FindFrom(line, at) <= 7
    decreases 7 - at
  {
    if at == 7 || IsNote(at, line) then at else FindFrom(line, at + 1)
  }

  /** The field whose note a line is, or 7 when it is none's. */
  function Find(line: string): nat
    ensures Find(line) <= 7
  {
    FindFrom(line, 0)
  }

  /**
   * What the lines note, from the end, each field before the last one met; and whether lines are left that are no note.
   */
  function ReadLines(lines: seq<string>, order: nat): (seq<nat>, bool)
    decreases |lines|
  {
    if lines == [] then ([], false)
    else
      var line := TrimEnd(lines[|lines| - 1]);
      var at := Find(line);
      if at >= order || at == 7 then ([], true)
      else
        var (before, more) := ReadLines(lines[..|lines| - 1], at);
        (before + (if at != 0 || line == "type date" then [at] else []), more)
  }

  function Names(noted: seq<nat>, optional: bool): seq<string>
    requires forall i :: 0 <= i < |noted| ==> noted[i] < 7
  {
    if noted == [] then []
    else (if noted[0] == 6 && !optional then [] else [FIELDS[noted[0]]]) + Names(noted[1..], optional)
  }

  lemma {:induction false} NotedAreFields(lines: seq<string>, order: nat)
    ensures forall i :: 0 <= i < |ReadLines(lines, order).0| ==> ReadLines(lines, order).0[i] < 7
    decreases |lines|
  {
    if lines != [] {
      NotedAreFields(lines[..|lines| - 1], Find(TrimEnd(lines[|lines| - 1])));
    }
  }

  /**
   * The source's reading: up from the last line while each is the note of an earlier field, then named in the fields'
   * order.
   */
  method NotedFields(lines: seq<string>, optional: bool) returns (out: seq<string>)
    ensures forall i :: 0 <= i < |ReadLines(lines, 7).0| ==> ReadLines(lines, 7).0[i] < 7
    ensures out == (if ReadLines(lines, 7).1 then ["description"] else []) + Names(ReadLines(lines, 7).0, optional)
  {
    hide ReadLines, Find, TrimEnd;
    NotedAreFields(lines, 7);
    NoLines(7);
    var noted: seq<nat>, order, i := [], 7, |lines|;
    assert lines[..i] == lines && ReadLines(lines, 7).0 + noted == ReadLines(lines, 7).0;
    while i > 0
      invariant 0 <= i <= |lines| && order <= 7
      invariant ReadLines(lines, 7) == (ReadLines(lines[..i], order).0 + noted, ReadLines(lines[..i], order).1)
    {
      var line := TrimEnd(lines[i - 1]);
      var at := Find(line);
      UpOne(lines, i, order);
      if at == 7 || at >= order {
        break;
      }
      ghost var before := ReadLines(lines[..i - 1], at).0;
      assert (before + [at]) + noted == before + ([at] + noted) && before + [] == before;
      if at != 0 || line == "type date" {
        noted := [at] + noted;
      }
      order, i := at, i - 1;
    }
    NoLines(order);
    assert i == 0 ==> lines[..i] == [];
    assert [] + noted == noted;
    out := (if i > 0 then ["description"] else []) + Names(noted, optional);
  }

  lemma NoLines(order: nat)
    ensures ReadLines([], order) == ([], false)
  {
  }

  lemma UpOne(lines: seq<string>, i: nat, order: nat)
    requires 0 < i <= |lines|
    ensures ReadLines(lines[..i], order)
            == var line := TrimEnd(lines[i - 1]);
               var at := Find(line);
               if at >= order || at == 7 then ([], true)
               else (ReadLines(lines[..i - 1], at).0 + (if at != 0 || line == "type date" then [at] else []),
                   ReadLines(lines[..i - 1], at).1)
  {
    assert lines[..i][..i - 1] == lines[..i - 1];
  }

  // ---- A note is read as itself -----------------------------------------------------------------------------------

  lemma {:induction false} TrimKeeps(word: string, text: string)
    requires word != [] && !IsSpace(word[|word| - 1])
    ensures StartsWith(TrimEnd(word + text), word)
    ensures text != [] && text[0] == ' ' ==> |TrimEnd(word + text)| == |word| || TrimEnd(word + text)[|word|] == ' '
    decreases |text|
  {
    var s := word + text;
    if text != [] && IsSpace(text[|text| - 1]) {
      assert s[..|s| - 1] == word + text[..|text| - 1];
      TrimKeeps(word, text[..|text| - 1]);
    } else {
      assert TrimEnd(s) == s;
    }
  }

  lemma FirstLetters(line: string, at: nat)
    requires at < 7 && IsNote(at, line)
    ensures |line| >= 2
    ensures at == 0 ==> line[0] == 't'
    ensures at == 1 ==> line[0] == 'p'
    ensures at == 2 ==> line[0] == 'm' && line[1] == 'i'
    ensures at == 3 ==> line[0] == 'm' && line[1] == 'a'
    ensures at == 4 ==> line[0] == 'd'
    ensures at == 5 ==> line[0] == 'm' && line[1] == 'e'
    ensures at == 6 ==> line[0] == 'r'
  {
    if 1 <= at {
      var word := if at == 6 then "required:" else FIELDS[at];
      assert line[0] == line[..|word|][0] && line[1] == line[..|word|][1];
    }
  }

  lemma {:induction false} FoundFrom(line: string, at: nat, from: nat)
    requires at < 7 && from <= at && IsNote(at, line)
    ensures FindFrom(line, from) == at
    decreases at - from
  {
    FirstLetters(line, at);
    if from < at {
      if IsNote(from, line) { FirstLetters(line, from); }
      FoundFrom(line, at, from + 1);
    }
  }

  lemma FieldNote(at: nat, text: string)
    requires 1 <= at <= 5
    ensures Find(TrimEnd(FIELDS[at] + " " + text)) == at
  {
    var word := FIELDS[at];
    assert word == ["type", "pattern", "minimum", "maximum", "default", "mergeFn", "required"][at];
    assert !IsSpace(word[|word| - 1]);
    assert FIELDS[at] + " " + text == word + (" " + text);
    TrimKeeps(word, " " + text);
    FoundFrom(TrimEnd(word + (" " + text)), at, 0);
  }

  lemma TypeNoteFound(t: PropertyType)
    ensures var line := "type " + TypeName(t); TrimEnd(line) == line && Find(line) == 0
  {
    var line := "type " + TypeName(t);
    assert !IsSpace(line[|line| - 1]);
    match t
    case StringT => assert line == "type string";
    case NumberT => assert line == "type number";
    case BooleanT => assert line == "type boolean";
    case DateT => assert line == "type date";
  }

  lemma RequiredFound()
    ensures Find(TrimEnd(REQUIRED_NOTE)) == 6
  {
    TrimKeeps("required:", REQUIRED_REST);
    FoundFrom(TrimEnd(REQUIRED_NOTE), 6, 0);
  }

  /** One more line at the end, the note of a field that may still come. */
  lemma LastLine(lines: seq<string>, line: string, order: nat)
    requires Find(TrimEnd(line)) < order <= 7
    ensures ReadLines(lines + [line], order)
            == var at := Find(TrimEnd(line));
               var (before, more) := ReadLines(lines, at);
               (before + (if at != 0 || TrimEnd(line) == "type date" then [at] else []), more)
  {
    assert (lines + [line])[..|lines|] == lines;
  }

  /** A field's note read where it may come: the lines before it are read up to that field. */
  lemma OptionalNote(lines: seq<string>, at: nat, text: Option<string>, order: nat)
    requires 1 <= at <= 5 && at < order <= 7
    ensures ReadLines(lines + Noted(FIELDS[at], text), order)
            == if text.None? then ReadLines(lines, order) else (ReadLines(lines, at).0 + [at], ReadLines(lines, at).1)
  {
    if text.Some? {
      FieldNote(at, CommentText(text.value));
      LastLine(lines, FIELDS[at] + " " + CommentText(text.value), order);
    } else {
      assert lines + [] == lines;
    }
  }

  /** The fields a property's notes name, in order. */
  function Stated(p: Property): seq<nat> {
    (if p.typ == Some(DateT) then [0] else []) + (if p.pattern.Some? then [1] else [])
        + (if p.minimum.Some? then [2] else [])
    + (if p.maximum.Some? then [3] else []) + (if p.default.Some? then [4] else [])
        + (if p.mergeFn != "" then [5] else [])
    + (if p.required then [6] else [])
  }

  lemma TypedHead(p: Property, order: nat)
    requires p.typ.Some? && 1 <= order <= 7
    ensures ReadLines(DescriptionNote(p) + TypeNote(p), order)
            == (if p.typ == Some(DateT) then [0] else [], p.description != "")
  {
    var line := "type " + TypeName(p.typ.value);
    TypeNoteFound(p.typ.value);
    LastLine(DescriptionNote(p), line, order);
    CommentTextIsSafe(p.description);
    var d := DescriptionNote(p);
    assert ReadLines(d, 0) == ([], p.description != "");
    TypeNames(p.typ.value);
    assert TypeNote(p) == [line];
    var none: seq<nat> := [];
    var noted: seq<nat> := if line == "type date" then [0] else [];
    assert none + noted == noted;
    assert ReadLines(d + [line], order) == (none + noted, p.description != "");
  }

  lemma TypeNames(t: PropertyType)
    ensures "type " + TypeName(t) == "type date" <==> t == DateT
  {
    if t != DateT {
      assert ("type " + TypeName(t))[5] != 'd';
      assert "type date"[5] == 'd';
    }
  }

  /** The notes up to a field, and what they state. */
  function NotesTo(p: Property, k: nat): seq<string>
    requires k <= 5
  {
    if k == 0 then DescriptionNote(p) + TypeNote(p) else NotesTo(p, k - 1) + Noted(FIELDS[k], TextOf(p, k))
  }

  function TextOf(p: Property, k: nat): Option<string>
    requires 1 <= k <= 5
  {
    if k == 1 then p.pattern else if k == 2 then p.minimum else if k == 3 then p.maximum else if k == 4 then p.default
        else MergeText(p)
  }

  function StatedTo(p: Property, k: nat): seq<nat>
    requires k <= 5
  {
    if k == 0 then (if p.typ == Some(DateT) then [0] else [])
        else StatedTo(p, k - 1) + (if TextOf(p, k).Some? then [k] else [])
  }

  lemma {:induction false} ReadTo(p: Property, k: nat, order: nat)
    requires p.typ.Some? && k <= 5 && k < order <= 7
    ensures ReadLines(NotesTo(p, k), order) == (StatedTo(p, k), p.description != "")
  {
    hide *;
    if k == 0 {
      TypedHead(p, order);
      NoNotesYet(p);
    } else {
      ReadTo(p, k - 1, order);
      ReadTo(p, k - 1, k);
      OptionalNote(NotesTo(p, k - 1), k, TextOf(p, k), order);
      OneNoteMore(p, k);
    }
  }

  lemma NoNotesYet(p: Property)
    ensures NotesTo(p, 0) == DescriptionNote(p) + TypeNote(p) && StatedTo(p, 0) == if p.typ == Some(DateT) then [0]
            else []
  {
  }

  lemma OneNoteMore(p: Property, k: nat)
    requires 1 <= k <= 5
    ensures NotesTo(p, k) == NotesTo(p, k - 1) + Noted(FIELDS[k], TextOf(p, k))
    ensures StatedTo(p, k) == if TextOf(p, k).Some? then StatedTo(p, k - 1) + [k] else StatedTo(p, k - 1)
  {
    assert StatedTo(p, k - 1) + [] == StatedTo(p, k - 1);
  }

  lemma NotesAre(p: Property)
    ensures Notes(p) == NotesTo(p, 5) + RequiredNote(p)
    ensures Stated(p) == StatedTo(p, 5) + (if p.required then [6] else [])
  {
    assert FIELDS[1] == "pattern" && FIELDS[2] == "minimum" && FIELDS[3] == "maximum" && FIELDS[4] == "default"
        && FIELDS[5] == "mergeFn";
    assert NotesTo(p, 2) == NotesTo(p, 1) + Noted("minimum", p.minimum)
        && NotesTo(p, 1) == NotesTo(p, 0) + Noted("pattern", p.pattern);
    assert NotesTo(p, 4) == NotesTo(p, 3) + Noted("default", p.default)
        && NotesTo(p, 3) == NotesTo(p, 2) + Noted("maximum", p.maximum);
    assert NotesTo(p, 5) == NotesTo(p, 4) + Noted("mergeFn", MergeText(p));
    assert StatedTo(p, 2) == StatedTo(p, 1) + (if p.minimum.Some? then [2] else []);
    assert StatedTo(p, 1) == StatedTo(p, 0) + (if p.pattern.Some? then [1] else []);
    assert StatedTo(p, 4) == StatedTo(p, 3) + (if p.default.Some? then [4] else []);
    assert StatedTo(p, 3) == StatedTo(p, 2) + (if p.maximum.Some? then [3] else []);
    assert StatedTo(p, 5) == StatedTo(p, 4) + (if p.mergeFn != "" then [5] else []);
  }

  /**
   * The notes of a typed property read back as exactly the fields it sets: a date's type, its pattern, its bounds, its
   * default, its merge function and that it is required, and that it has a description, whatever any of them says.
   */
  lemma TypedNotesReadBack(p: Property)
    requires p.typ.Some?
    ensures ReadLines(Notes(p), 7) == (Stated(p), p.description != "")
  {
    hide ReadLines, NotesTo, StatedTo, Stated, Notes;
    NotesAre(p);
    var lines := NotesTo(p, 5);
    ReadTo(p, 5, 6);
    ReadTo(p, 5, 7);
    RequiredFound();
    if p.required {
      LastLine(lines, REQUIRED_NOTE, 7);
    } else {
      assert lines + [] == lines && StatedTo(p, 5) + [] == StatedTo(p, 5);
    }
  }

  lemma {:induction false} StatedToAre(p: Property, k: nat)
    requires k <= 5
    ensures forall at :: at in StatedTo(p, k) ==> at <= k
    ensures 0 in StatedTo(p, k) <==> p.typ == Some(DateT)
    ensures forall at :: 1 <= at <= k ==> (at in StatedTo(p, k) <==> TextOf(p, at).Some?)
  {
    if k > 0 {
      StatedToAre(p, k - 1);
    }
  }

  lemma StatedAre(p: Property)
    ensures var r := Stated(p);
            && (forall at :: at in r ==> at < 7)
            && (0 in r <==> p.typ == Some(DateT)) && (1 in r <==> p.pattern.Some?) && (2 in r <==> p.minimum.Some?)
            && (3 in r <==> p.maximum.Some?) && (4 in r <==> p.default.Some?) && (5 in r <==> p.mergeFn != "")
            && (6 in r <==> p.required)
  {
    hide Stated, StatedTo;
    NotesAre(p);
    StatedToAre(p, 5);
    assert TextOf(p, 1) == p.pattern && TextOf(p, 2) == p.minimum && TextOf(p, 3) == p.maximum
        && TextOf(p, 4) == p.default;
  }

  // ---- An untyped property ----------------------------------------------------------------------------------------

  /** The first field, in order, that a property notes besides its description and type; 7 when there is none. */
  function FirstNote(p: Property): nat { LeadTo(p, 5, if p.required then 6 else 7) }

  function LeadTo(p: Property, k: nat, order: nat): nat
    requires k <= 5
  {
    if k == 0 then order else LeadTo(p, k - 1, if TextOf(p, k).Some? then k else order)
  }

  /**
   * A description met where a note of a field before `order` could stand, and looking like one: the field it is taken
   * to note.
   */
  function TakenBefore(p: Property, order: nat): seq<nat> {
    var line := TrimEnd(CommentText(p.description));
    if p.typ.Some? || p.description == "" || Find(line) >= order || Find(line) == 7 then []
    else if Find(line) != 0 || line == "type date" then [Find(line)] else []
  }

  predicate DescribedBefore(p: Property, order: nat) {
    p.description != "" && (p.typ.Some? || Find(TrimEnd(CommentText(p.description))) >= order)
  }

  lemma {:induction false} UntypedTo(p: Property, k: nat, order: nat)
    requires p.typ.None? && k <= 5 && k < order <= 7
    ensures var lead := LeadTo(p, k, order);
            ReadLines(NotesTo(p, k), order) == (TakenBefore(p, lead) + StatedTo(p, k), DescribedBefore(p, lead))
  {
    hide *;
    LeadIs(p, k, order);
    if k == 0 {
      UntypedHead(p, order);
    } else {
      OneNoteMore(p, k);
      OptionalNote(NotesTo(p, k - 1), k, TextOf(p, k), order);
      UntypedTo(p, k - 1, if TextOf(p, k).Some? then k else order);
      var taken := TakenBefore(p, LeadTo(p, k, order));
      assert (taken + StatedTo(p, k - 1)) + [k] == taken + (StatedTo(p, k - 1) + [k]);
    }
  }

  lemma LeadIs(p: Property, k: nat, order: nat)
    requires k <= 5
    ensures LeadTo(p, k, order) == if k == 0 then order else LeadTo(p, k - 1, if TextOf(p, k).Some? then k else order)
  {
  }

  lemma UntypedHead(p: Property, order: nat)
    requires p.typ.None? && 1 <= order <= 7
    ensures ReadLines(NotesTo(p, 0), order) == (TakenBefore(p, order) + StatedTo(p, 0), DescribedBefore(p, order))
  {
    var taken := TakenBefore(p, order);
    assert taken + [] == taken;
    assert StatedTo(p, 0) == [];
    if p.description != "" {
      OneLineRead(CommentText(p.description), order);
      hide Find, CommentText, TrimEnd;
      assert NotesTo(p, 0) == [CommentText(p.description)];
    }
  }

  lemma OneLineRead(line: string, order: nat)
    requires order <= 7
    ensures ReadLines([line], order)
            == var at := Find(TrimEnd(line));
               if at >= order || at == 7 then ([], true)
                   else (if at != 0 || TrimEnd(line) == "type date" then [at] else [], false)
  {
    hide Find, TrimEnd;
    NoLines(Find(TrimEnd(line)));
    var lines := [line];
    assert lines[..0] == [] && lines[|lines| - 1] == line;
    var noted: seq<nat> := if Find(TrimEnd(line)) != 0 || TrimEnd(line) == "type date" then [Find(TrimEnd(line))]
        else [];
    assert [] + noted == noted;
  }

  /**
   * What a description is taken to note: nothing with a type, and nothing unless it looks like a field that could come
   * first.
   */
  function Taken(p: Property): seq<nat> { TakenBefore(p, FirstNote(p)) }

  /**
   * The notes of any property read back as exactly the fields it sets, and that it is described - but for an untyped
   * property whose description looks like the note of a field that could come first: that field is named and the
   * description is not.
   */
  lemma NotesReadBack(p: Property)
    ensures ReadLines(Notes(p), 7) == (Taken(p) + Stated(p), DescribedBefore(p, FirstNote(p)))
  {
    if p.typ.Some? {
      hide ReadLines, Notes, Stated, Find, CommentText;
      TypedNotesReadBack(p);
      assert Taken(p) + Stated(p) == Stated(p);
    } else {
      hide *;
      UntypedNotesReadBack(p);
    }
  }

  lemma UntypedNotesReadBack(p: Property)
    requires p.typ.None?
    ensures ReadLines(Notes(p), 7) == (Taken(p) + Stated(p), DescribedBefore(p, FirstNote(p)))
  {
    hide ReadLines, Find, TrimEnd, CommentText, NotesTo, StatedTo, Notes, Stated, LeadTo, TakenBefore, DescribedBefore;
    NotesAre(p);
    RequiredFound();
    UntypedTo(p, 5, if p.required then 6 else 7);
    if p.required {
      LastLine(NotesTo(p, 5), REQUIRED_NOTE, 7);
      assert ReadLines(NotesTo(p, 5), 6).0 + [6] == Taken(p) + (StatedTo(p, 5) + [6]);
    } else {
      assert NotesTo(p, 5) + [] == NotesTo(p, 5) && StatedTo(p, 5) + [] == StatedTo(p, 5);
    }
  }

  /**
   * What is named as not read, for any property: every field set that the type does not say, `required` only where the
   * member is optional, and besides them only the field an untyped description is taken to note.
   */
  lemma NotReadIsNamed(p: Property)
    ensures var r := ReadLines(Notes(p), 7);
            && (forall at :: at in r.0 ==> at < 7)
            && (0 in r.0 <==> p.typ == Some(DateT) || 0 in Taken(p))
            && (1 in r.0 <==> p.pattern.Some? || 1 in Taken(p))
            && (2 in r.0 <==> p.minimum.Some? || 2 in Taken(p))
            && (3 in r.0 <==> p.maximum.Some? || 3 in Taken(p))
            && (4 in r.0 <==> p.default.Some? || 4 in Taken(p))
            && (5 in r.0 <==> p.mergeFn != "" || 5 in Taken(p))
            && (6 in r.0 && Optional(p) <==> (p.required && p.default.Some?) || (6 in Taken(p) && Optional(p)))
            && |Taken(p)| <= 1 && (p.typ.Some? ==> Taken(p) == [])
            && (Taken(p) != [] ==>
                p.description != "" && Taken(p) == [Find(TrimEnd(CommentText(p.description)))] && !r.1)
  {
    NotesReadBack(p);
    StatedAre(p);
    hide Stated, ReadLines, Notes, Find, TrimEnd, CommentText, FirstNote;
    assert forall at :: at in Taken(p) + Stated(p) <==> at in Taken(p) || at in Stated(p);
  }

  /**
   * Without a type, nothing stands between the description and the first note: it is read as a description exactly when
   * it does not look like the note of a field that could come first.
   */
  lemma UntypedDescription(p: Property)
    requires p.typ.None?
    ensures ReadLines(Notes(p), 7).1
            <==> p.description != "" && Find(TrimEnd(CommentText(p.description))) >= FirstNote(p)
  {
    hide ReadLines, Find, TrimEnd, CommentText, Notes, LeadTo;
    NotesReadBack(p);
  }

  /**
   * An untyped property described as `pattern ...`, with nothing else set, is read as having a pattern and no
   * description.
   */
  lemma DescriptionTakenForNote(text: string)
    requires IsPlain(text)
    ensures !ReadLines(Notes(Property(None, None, false, None, "pattern " + text, None, None, None, "")), 7).1
  {
    hide ReadLines, Notes, Find;
    var p := Property(None, None, false, None, "pattern " + text, None, None, None, "");
    assert FIELDS[1] == "pattern";
    assert "pattern " + text == FIELDS[1] + " " + text;
    assert IsPlain(p.description);
    PlainIsKept(p.description);
    FieldNote(1, text);
    UntypedDescription(p);
    NothingNoted(p, 5);
  }

  lemma {:induction false} NothingNoted(p: Property, k: nat)
    requires k <= 5 && forall at :: 1 <= at <= k ==> TextOf(p, at).None?
    ensures LeadTo(p, k, 7) == 7
  {
    if k > 0 {
      NothingNoted(p, k - 1);
    }
  }

  predicate IsPlain(s: string) { forall i :: 0 <= i < |s| ==> s[i] != '*' && s[i] != '@' && !IsBreak(s[i]) }

  lemma {:induction false} PlainIsKept(s: string)
    requires IsPlain(s)
    ensures Unclosed(s) == s && OneLine(s) == s && NoTag(s) == s
    decreases |s|
  {
    if s != [] {
      assert s == [s[0]] + s[1..];
      PlainIsKept(s[1..]);
    }
  }

  // ---- What is said not to be read --------------------------------------------------------------------------------

  predicate AllFields(noted: seq<nat>) { forall i :: 0 <= i < |noted| ==> noted[i] < 7 }

  /** One more field behind. */
  lemma {:induction false} NamesJoin(a: seq<nat>, at: nat, optional: bool)
    requires AllFields(a) && at < 7
    ensures AllFields(a + [at]) && Names(a + [at], optional) == Names(a, optional) + Names([at], optional)
  {
    hide FIELDS;
    if a == [] {
      assert a + [at] == [at];
      assert Names(a, optional) == [] && [] + Names([at], optional) == Names([at], optional);
    } else {
      assert (a + [at])[1..] == a[1..] + [at];
      NamesJoin(a[1..], at, optional);
    }
  }

  lemma OneNamed(at: nat, optional: bool)
    requires at < 7
    ensures Names([at], optional) == if at == 6 && !optional then [] else [FIELDS[at]]
  {
    assert [at][1..] == [];
  }

  /**
   * The fields a typed property's notes carry and its type cannot, by name: a date's type, and `required` beside a
   * default.
   */
  function Unread(p: Property): seq<string> {
    (if p.typ == Some(DateT) then ["type"] else []) + (if p.pattern.Some? then ["pattern"] else [])
    + (if p.minimum.Some? then ["minimum"] else []) + (if p.maximum.Some? then ["maximum"] else [])
    + (if p.default.Some? then ["default"] else []) + (if p.mergeFn != "" then ["mergeFn"] else [])
    + (if p.required && p.default.Some? then ["required"] else [])
  }

  /** A field's place, where it is set, and what naming it comes to. */
  lemma MaybeNamed(set_: bool, at: nat, optional: bool, before: seq<nat>)
    requires at < 7 && forall i :: 0 <= i < |before| ==> before[i] < 7
    ensures var more := before + if set_ then [at] else [];
            && (forall i :: 0 <= i < |more| ==> more[i] < 7)
            && Names(more, optional)
               == Names(before, optional) + if set_ && (at < 6 || optional) then [FIELDS[at]] else []
  {
    hide Names;
    if set_ {
      OneNamed(at, optional);
      NamesJoin(before, at, optional);
    } else {
      assert before + [] == before;
    }
    assert Names(before, optional) + [] == Names(before, optional);
  }

  function UnreadTo(p: Property, k: nat): seq<string>
    requires k <= 5
  {
    if k == 0 then (if p.typ == Some(DateT) then ["type"] else [])
    else UnreadTo(p, k - 1) + (if TextOf(p, k).Some? then [FIELDS[k]] else [])
  }

  lemma {:induction false} NamedTo(p: Property, k: nat, optional: bool)
    requires k <= 5
    ensures (forall i :: 0 <= i < |StatedTo(p, k)| ==> StatedTo(p, k)[i] < 7)
    ensures Names(StatedTo(p, k), optional) == UnreadTo(p, k)
  {
    hide Names, TextOf;
    if k == 0 {
      OneNamed(0, optional);
      NoneNamed(optional);
    } else {
      NamedTo(p, k - 1, optional);
      MaybeNamed(TextOf(p, k).Some?, k, optional, StatedTo(p, k - 1));
    }
  }

  lemma NoneNamed(optional: bool)
    ensures Names([], optional) == []
  {
  }

  lemma UnreadAre(p: Property)
    ensures Unread(p) == UnreadTo(p, 5) + (if p.required && p.default.Some? then ["required"] else [])
  {
    assert FIELDS[1] == "pattern" && FIELDS[2] == "minimum" && FIELDS[3] == "maximum" && FIELDS[4] == "default"
        && FIELDS[5] == "mergeFn";
    assert UnreadTo(p, 1) == UnreadTo(p, 0) + (if p.pattern.Some? then ["pattern"] else []);
    assert UnreadTo(p, 2) == UnreadTo(p, 1) + (if p.minimum.Some? then ["minimum"] else []);
    assert UnreadTo(p, 3) == UnreadTo(p, 2) + (if p.maximum.Some? then ["maximum"] else []);
    assert UnreadTo(p, 4) == UnreadTo(p, 3) + (if p.default.Some? then ["default"] else []);
    assert UnreadTo(p, 5) == UnreadTo(p, 4) + (if p.mergeFn != "" then ["mergeFn"] else []);
  }

  /** Exactly those are named as not read. */
  lemma StatedNames(p: Property)
    ensures (forall i :: 0 <= i < |Stated(p)| ==> Stated(p)[i] < 7) && Names(Stated(p), Optional(p)) == Unread(p)
  {
    NotesAre(p);
    UnreadAre(p);
    NamedTo(p, 5, Optional(p));
    assert FIELDS[6] == "required";
    hide Names, Stated, Unread, StatedTo, UnreadTo, Notes, NotesTo;
    MaybeNamed(p.required, 6, Optional(p), StatedTo(p, 5));
  }

  /** What a typed property loses on the way through TypeScript is named, all of it and nothing else. */
  lemma TypedLossIsNamed(p: Property)
    requires p.typ.Some?
    ensures forall i :: 0 <= i < |ReadLines(Notes(p), 7).0| ==> ReadLines(Notes(p), 7).0[i] < 7
    ensures Names(ReadLines(Notes(p), 7).0, Optional(p)) == Unread(p)
  {
    hide ReadLines, Notes, Names, Unread, Stated;
    TypedNotesReadBack(p);
    StatedNames(p);
  }

  /** A note gives what its field says: its name, a blank and the text, made safe. */
  ghost predicate SaysInNotes(p: Property, field: string, text: string) {
    exists line :: line in Notes(p) && StartsWith(line, field + " ") && Bare(line[|field| + 1..]) == Bare(text)
  }

  lemma NoteSays(p: Property, field: string, text: string, at: nat)
    requires at < |Notes(p)| && Notes(p)[at] == field + " " + CommentText(text)
    ensures SaysInNotes(p, field, text)
  {
    hide Notes, CommentText, Bare;
    CommentTextKeepsText(text);
    var line := Notes(p)[at];
    assert line == (field + " ") + CommentText(text);
    assert |field + " "| == |field| + 1 && line[..|field| + 1] == field + " ";
    assert line[|field| + 1..] == CommentText(text);
    assert line in Notes(p) && StartsWith(line, field + " ");
  }

  /** Every field a property sets is said in its notes. */
  lemma NotesSay(p: Property)
    ensures p.pattern.Some? ==> SaysInNotes(p, "pattern", p.pattern.value)
    ensures p.minimum.Some? ==> SaysInNotes(p, "minimum", p.minimum.value)
    ensures p.maximum.Some? ==> SaysInNotes(p, "maximum", p.maximum.value)
    ensures p.default.Some? ==> SaysInNotes(p, "default", p.default.value)
    ensures p.mergeFn != "" ==> SaysInNotes(p, "mergeFn", p.mergeFn)
  {
    hide SaysInNotes, CommentText;
    var n0 := |DescriptionNote(p) + TypeNote(p)|;
    var n1 := n0 + if p.pattern.Some? then 1 else 0;
    var n2 := n1 + if p.minimum.Some? then 1 else 0;
    var n3 := n2 + if p.maximum.Some? then 1 else 0;
    var n4 := n3 + if p.default.Some? then 1 else 0;
    if p.pattern.Some? { NoteSays(p, "pattern", p.pattern.value, n0); }
    if p.minimum.Some? { NoteSays(p, "minimum", p.minimum.value, n1); }
    if p.maximum.Some? { NoteSays(p, "maximum", p.maximum.value, n2); }
    if p.default.Some? { NoteSays(p, "default", p.default.value, n3); }
    if p.mergeFn != "" { NoteSays(p, "mergeFn", p.mergeFn, n4); }
  }
}
