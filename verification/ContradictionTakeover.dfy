/**
 * A takeover of another choice's claim, whatever that claim had recorded: its own choice's effects, or those a takeover
 * before it, cut off between its claim and its undo, left on it. What it ends in, exactly.
 */
module ContradictionTakeover {

  import opened Maybe
  import opened ContradictionModel
  import opened ContradictionRuns
  import opened ContradictionSerial
  import opened ContradictionRetry

  // ---- What an undo comes to -------------------------------------------------------------------------------------

  /** Every read of an undo of `w` lets it lift the mark. */
  ghost predicate Liftable(s: Store, p: Pair, w: Wrote) {
    && w.mark.Some? && Retirable(p.kind)
    && MayLift(s, p, w, FindMark) && MayLift(s, p, w, FindLinkInto) && MayLift(s, p, w, FindPairOn)
  }

  /** Whether an undo of `w` would change anything now. */
  ghost predicate UndoesSomething(s: Store, p: Pair, w: Wrote) {
    (w.link.Some? && w.link.value in s.links) || Liftable(s, p, w)
  }

  function Less(links: set<Link>, w: Wrote): set<Link> { if w.link.Some? then links - {w.link.value} else links }

  ghost function Lifted(s: Store, p: Pair, w: Wrote): set<Rec> {
    if Liftable(s, p, w) then s.marks - {Rec(p.kind, w.mark.value)} else s.marks
  }

  /** Undone exactly: that edge deleted, that mark lifted when nothing else needs it, nothing else ever. */
  ghost function Undone(s: Store, p: Pair, w: Wrote): Store { s.(links := Less(s.links, w), marks := Lifted(s, p, w)) }

  lemma UndoesNothing(s: Store, p: Pair, w: Wrote)
    ensures Undone(s, p, w) == s <==> !UndoesSomething(s, p, w)
  {
    if Liftable(s, p, w) {
      assert Rec(p.kind, w.mark.value) in s.marks;
    }
  }

  // ---- A takeover, call by call ------------------------------------------------------------------------------------

  /** The resolve takes over a claim of another choice that had recorded `w`. */
  ghost predicate TakesOver(s: Store, p: Pair, ch: Choice, w: Wrote) {
    && p in s.cands && s.cands[p].status != Resolved
    && s.cands[p].claim.Some? && s.cands[p].claim.value.choice != ch && s.cands[p].claim.value.wrote == w
  }

  /** The edges and marks after the first undo and the effects, and after the second undo. */
  ghost function Effected(s: Store, p: Pair, ch: Choice, refuses: Link -> bool, w: Wrote): Store {
    var u := Undone(s, p, w);
    u.(links := GoalLinks(u, p, ch, refuses), marks := GoalMarks(u, p, ch))
  }

  ghost function Ended(s: Store, p: Pair, ch: Choice, refuses: Link -> bool, w: Wrote): Store
    requires p in s.cands
  {
    var u := Undone(Effected(s, p, ch, refuses, w), p, w);
    Closed(s, p, ch).(links := u.links, marks := u.marks)
  }

  /** As far as an undo of `w` got: which of its calls it has made over what stood in `u`. */
  ghost predicate UndoneTo(u: Store, t: Store, p: Pair, w: Wrote, st: Stage) {
    && t.records == u.records && t.marks == u.marks
    && t.links == (if st.DeleteLink? then u.links else Less(u.links, w))
    && (!st.DeleteLink? && !st.FindMark? ==> w.mark.Some? && Retirable(p.kind) && MayLift(u, p, w, FindMark))
    && (st.FindPairOn? || st.LiftMark? ==> MayLift(u, p, w, FindLinkInto))
    && (st.LiftMark? ==> MayLift(u, p, w, FindPairOn))
  }

  predicate Holds(t: Store, links: set<Link>, marks: set<Rec>) { t.links == links && t.marks == marks }

  /** The candidates are those of `s`, but for the claim on the pair's own. */
  predicate OwnClaimOnly(s: Store, t: Store, p: Pair) {
    && t.records == s.records && p in s.cands && p in t.cands
    && t.cands == s.cands[p := s.cands[p].(claim := t.cands[p].claim)]
  }

  ghost predicate Overtaking(s: Store, t: Store, r: Request, ch: Choice, refuses: Link -> bool, w: Wrote) {
    var p := r.pair;
    && r.job == Resolve(ch) && p in s.cands
    && (r.pc.ReadPair? || r.pc.TakeClaim? ==> t == s && !r.tookOver)
    && (r.pc.TakeClaim? ==> SnapOk(s, p, ch, r.snap))
    && (r.pc.Done? ==> t == Ended(s, p, ch, refuses, w))
    && (!r.pc.ReadPair? && !r.pc.TakeClaim? && !r.pc.Done? ==>
          OwnClaimOnly(s, t, p) && SameClaim(t, p, ch) && r.tookOver && r.prior == w && Midway(s, t, r, ch, refuses, w))
    && !r.pc.LostCheck? && !r.pc.ReleaseClaim?
  }

  /** What stands between the claim and the close. */
  ghost predicate Midway(s: Store, t: Store, r: Request, ch: Choice, refuses: Link -> bool, w: Wrote) {
    var p, u, e := r.pair, Undone(s, r.pair, w), Effected(s, r.pair, ch, refuses, w);
    && (Taking(r.pc) ==> SnapOk(t, p, ch, if r.lifted then r.snap.(marked := false) else r.snap))
    && (Superseding(r.pc) && !r.pc.Reread? ==> SnapOk(t, p, ch, r.snap))
    && (Superseding(r.pc) ==> ch.Superseded?)
    && match r.pc
       case Undo(First, st) => UndoneTo(s, t, p, w, st)
       case Undo(Second, st) => UndoneTo(e, t, p, w, st)
       case Close => Holds(t, Less(e.links, w), Lifted(e, p, w))
       case RecordMark | Retire => Holds(t, e.links, u.marks) && Marks(s, p, ch)
       case DropRecord | Reread | FindLink => Holds(t, u.links, u.marks)
       case RecordLink | DrawLink => Holds(t, u.links, u.marks) && Unlinked(t, r, ch)
       case UnrecordLink => Holds(t, u.links, u.marks) && Unlinked(t, r, ch) && refuses(LinkOf(p, ch).value)
       case _ => false
  }

  /** The pair's own candidate is nothing an undo asks about. */
  lemma PairOnStays(s: Store, t: Store, p: Pair, m: nat)
    requires p in s.cands && p in t.cands && t.cands == s.cands[p := t.cands[p]]
    ensures PairOn(t, m, p) <==> PairOn(s, m, p)
  {
    if PairOn(s, m, p) {
      var q :| q in s.cands && q != p && s.cands[q].status == Resolved && s.cands[q].loser == Some(m);
      assert t.cands[q] == s.cands[q];
    }
    if PairOn(t, m, p) {
      var q :| q in t.cands && q != p && t.cands[q].status == Resolved && t.cands[q].loser == Some(m);
      assert t.cands[q] == s.cands[q];
    }
  }

  /** The edge of the record does not count against lifting its mark, there or not. */
  lemma LinkIntoLess(u: Store, t: Store, m: nat, w: Wrote)
    requires t.links == u.links || t.links == Less(u.links, w)
    ensures LinkInto(t, m, w.link) <==> LinkInto(u, m, w.link)
  {
    if LinkInto(u, m, w.link) {
      var l :| l in u.links && l.to == m && w.link != Some(l);
      assert l in t.links;
    }
  }

  /** One call of an undo of `w` over `u`: it gets one stage further, or it is over and has left exactly `Undone`. */
  lemma UndoGetsOn(u: Store, t: Store, r: Request)
    requires r.pc.Undo? && UndoneTo(u, t, r.pair, Recorded(r, r.pc.phase), r.pc.stage)
    requires forall m :: PairOn(t, m, r.pair) <==> PairOn(u, m, r.pair)
    ensures var (t', r') := UndoStep(t, r, r.pc.phase, r.pc.stage);
            var w := Recorded(r, r.pc.phase);
            && t'.cands == t.cands && t'.records == t.records && r' == r.(pc := r'.pc, lifted := r'.lifted)
            && (if r'.pc == AfterUndo(r.pc.phase) then Holds(t', Less(u.links, w), Lifted(u, r.pair, w))
                else r'.pc.Undo? && r'.pc.phase == r.pc.phase && UndoneTo(u, t', r.pair, w, r'.pc.stage))
            && (r'.lifted == r.lifted || (r'.lifted && r.pc.stage.LiftMark?))
            && (r.pc.stage.LiftMark? && r.pc.phase.First? ==> r'.lifted)
            && (!r.pc.stage.LiftMark? ==> t'.marks == t.marks)
  {
    var w := Recorded(r, r.pc.phase);
    if w.mark.Some? {
      LinkIntoLess(u, t, w.mark.value, w);
    }
    hide PairOn, LinkInto;
  }

  lemma OvertakeUndo(s: Store, t: Store, r: Request, ch: Choice, refuses: Link -> bool, w: Wrote)
    requires Overtaking(s, t, r, ch, refuses, w) && r.pc.Undo?
    ensures var (t', r') := UndoStep(t, r, r.pc.phase, r.pc.stage); Overtaking(s, t', r', ch, refuses, w)
  {
    var u := if r.pc.phase.First? then s else Effected(s, r.pair, ch, refuses, w);
    forall m ensures PairOn(t, m, r.pair) <==> PairOn(u, m, r.pair) {
      PairOnStays(s, t, r.pair, m);
    }
    UndoGetsOn(u, t, r);
    hide UndoStep, PairOn, UndoneTo, Less, Lifted, GoalLinks, GoalMarks;
  }

  lemma OvertakeClaim(s: Store, t: Store, r: Request, ch: Choice, refuses: Link -> bool, w: Wrote, now: int,
      refused: bool)
    requires TakesOver(s, r.pair, ch, w) && Claimable(s, r.pair, ch, now) && Overtaking(s, t, r, ch, refuses, w)
    requires r.pc.ReadPair? || r.pc.TakeClaim?
    ensures var (t', r') := ResolveStep(t, r, ch, now, refused); Overtaking(s, t', r', ch, refuses, w)
  {
  }

  lemma OvertakeDrop(s: Store, t: Store, r: Request, ch: Choice, refuses: Link -> bool, w: Wrote, now: int,
      refused: bool)
    requires Overtaking(s, t, r, ch, refuses, w)
    requires r.pc.DropRecord? || r.pc.Reread?
    ensures var (t', r') := ResolveStep(t, r, ch, now, refused); Overtaking(s, t', r', ch, refuses, w)
  {
    hide Less, Lifted;
  }

  lemma OvertakeLink(s: Store, t: Store, r: Request, ch: Choice, refuses: Link -> bool, w: Wrote, now: int,
      refused: bool)
    requires Overtaking(s, t, r, ch, refuses, w)
    requires LinkOf(r.pair, ch).Some? ==> refused == refuses(LinkOf(r.pair, ch).value)
    requires r.pc.FindLink? || r.pc.RecordLink? || r.pc.DrawLink? || r.pc.UnrecordLink?
    ensures var (t', r') := ResolveStep(t, r, ch, now, refused); Overtaking(s, t', r', ch, refuses, w)
  {
    hide Less, Lifted;
  }

  lemma OvertakeMark(s: Store, t: Store, r: Request, ch: Choice, refuses: Link -> bool, w: Wrote, now: int,
      refused: bool)
    requires Overtaking(s, t, r, ch, refuses, w)
    requires r.pc.RecordMark? || r.pc.Retire? || r.pc.Close? || r.pc.Done?
    ensures var (t', r') := ResolveStep(t, r, ch, now, refused); Overtaking(s, t', r', ch, refuses, w)
  {
    hide Less, Lifted;
  }

  lemma OvertakeStep(s: Store, t: Store, r: Request, ch: Choice, refuses: Link -> bool, w: Wrote, now: int)
    requires TakesOver(s, r.pair, ch, w) && Claimable(s, r.pair, ch, now) && Overtaking(s, t, r, ch, refuses, w)
    ensures var (t', r') := Step(t, r, now, Refused(r, refuses));
            r'.pair == r.pair && Overtaking(s, t', r', ch, refuses, w)
  {
    var refused := Refused(r, refuses);
    StepKeepsAim(t, r, now, refused);
    hide UndoStep, ResolveStep, Overtaking;
    OvertakingPc(s, t, r, ch, refuses, w);
    if r.pc.Undo? {
      OvertakeUndo(s, t, r, ch, refuses, w);
    } else if r.pc.RecordMark? || r.pc.Retire? || r.pc.Close? || r.pc.Done? {
      OvertakeMark(s, t, r, ch, refuses, w, now, refused);
    } else if r.pc.FindLink? || r.pc.RecordLink? || r.pc.DrawLink? || r.pc.UnrecordLink? {
      OvertakeLink(s, t, r, ch, refuses, w, now, refused);
    } else if r.pc.DropRecord? || r.pc.Reread? {
      OvertakeDrop(s, t, r, ch, refuses, w, now, refused);
    } else {
      OvertakeClaim(s, t, r, ch, refuses, w, now, refused);
    }
  }

  lemma OvertakingPc(s: Store, t: Store, r: Request, ch: Choice, refuses: Link -> bool, w: Wrote)
    requires Overtaking(s, t, r, ch, refuses, w)
    ensures r.job == Resolve(ch) && !r.pc.LostCheck? && !r.pc.ReleaseClaim?
  {
  }

  lemma OvertakeStart(s: Store, p: Pair, ch: Choice, refuses: Link -> bool, w: Wrote)
    requires TakesOver(s, p, ch, w)
    ensures Start(p, Resolve(ch)).pair == p && Overtaking(s, s, Start(p, Resolve(ch)), ch, refuses, w)
  {
  }

  lemma {:induction false} OvertakeGo(s: Store, p: Pair, ch: Choice, refuses: Link -> bool, w: Wrote, now: int, n: nat)
    requires TakesOver(s, p, ch, w) && Claimable(s, p, ch, now)
    ensures var (t, r) := Go(s, Start(p, Resolve(ch)), now, refuses, n);
            r.pair == p && Overtaking(s, t, r, ch, refuses, w)
  {
    hide *;
    if n == 0 {
      OvertakeStart(s, p, ch, refuses, w);
      NoCall(s, Start(p, Resolve(ch)), now, refuses);
    } else {
      OvertakeGo(s, p, ch, refuses, w, now, n - 1);
      GoStep(s, Start(p, Resolve(ch)), now, refuses, n);
      var (t, r) := Go(s, Start(p, Resolve(ch)), now, refuses, n - 1);
      OvertakeStep(s, t, r, ch, refuses, w, now);
    }
  }

  // ---- What a takeover comes to ------------------------------------------------------------------------------------

  /** Undoing before and after the effects leaves the edges that undoing once after them would. */
  lemma LinksUndoneOnce(s: Store, p: Pair, ch: Choice, refuses: Link -> bool, w: Wrote)
    requires p in s.cands
    ensures Less(Effected(s, p, ch, refuses, w).links, w) == Less(Goal(s, p, ch, refuses).links, w)
  {
    hide Liftable;
    var e, g := Less(Effected(s, p, ch, refuses, w).links, w), Less(Goal(s, p, ch, refuses).links, w);
    assert forall l :: l in e <==> l in g;
  }

  lemma ReadsAgree(s: Store, p: Pair, ch: Choice, refuses: Link -> bool, w: Wrote, m: nat)
    requires p in s.cands
    ensures LinkInto(Effected(s, p, ch, refuses, w), m, w.link) <==> LinkInto(Goal(s, p, ch, refuses), m, w.link)
    ensures PairOn(s, m, p) <==> PairOn(Goal(s, p, ch, refuses), m, p)
  {
    var e, g := Effected(s, p, ch, refuses, w), Goal(s, p, ch, refuses);
    var less := e.(links := Less(e.links, w));
    LinksUndoneOnce(s, p, ch, refuses, w);
    LinkIntoLess(e, less, m, w);
    LinkIntoLess(g, less, m, w);
    PairOnStays(s, g, p, m);
  }

  /**
   * An edge into the record that the goal has and the store had not is the choice's own, and its loser is being marked.
   */
  lemma NewLinkIsOwn(s: Store, p: Pair, ch: Choice, refuses: Link -> bool, w: Wrote, m: nat)
    requires p in s.cands && Retirable(p.kind)
    requires LinkInto(Goal(s, p, ch, refuses), m, w.link) && !LinkInto(s, m, w.link)
    ensures Marks(s, p, ch) && m == LoserId(p, ch.winner)
  {
    var l :| l in GoalLinks(s, p, ch, refuses) && l.to == m && w.link != Some(l);
    assert l !in s.links;
  }

  lemma MarksUndoneOnce(s: Store, p: Pair, ch: Choice, refuses: Link -> bool, w: Wrote)
    requires p in s.cands
    ensures Lifted(Effected(s, p, ch, refuses, w), p, w) == Lifted(Goal(s, p, ch, refuses), p, w)
  {
    var e, g := Effected(s, p, ch, refuses, w), Goal(s, p, ch, refuses);
    if w.mark.Some? {
      ReadsAgree(s, p, ch, refuses, w, w.mark.value);
      PairOnStays(s, g, p, w.mark.value);
      if Retirable(p.kind) && LinkInto(g, w.mark.value, w.link) && !LinkInto(s, w.mark.value, w.link) {
        NewLinkIsOwn(s, p, ch, refuses, w, w.mark.value);
      }
      hide LinkInto, PairOn, GoalLinks;
      assert e.marks - {Rec(p.kind, w.mark.value)} == g.marks - {Rec(p.kind, w.mark.value)};
    }
  }

  /**
   * A takeover that is not cut off ends, whatever the claim it took had recorded, as if the resolve had been made and
   * that record then undone exactly.
   */
  lemma TakeoverEnds(s: Store, p: Pair, ch: Choice, refuses: Link -> bool, w: Wrote, now: int)
    requires TakesOver(s, p, ch, w) && Claimable(s, p, ch, now)
    ensures Settle(s, p, ch, refuses, now) == Undone(Goal(s, p, ch, refuses), p, w)
  {
    OvertakeGo(s, p, ch, refuses, w, now, WHOLE);
    WholeIsDone(s, Start(p, Resolve(ch)), now, refuses, WHOLE);
    LinksUndoneOnce(s, p, ch, refuses, w);
    MarksUndoneOnce(s, p, ch, refuses, w);
    hide Goal, Effected, Lifted, Less, Midway;
    assert Settle(s, p, ch, refuses, now) == Ended(s, p, ch, refuses, w);
    EndedIs(s, p, ch, refuses, w);
  }

  lemma EndedIs(s: Store, p: Pair, ch: Choice, refuses: Link -> bool, w: Wrote)
    requires p in s.cands
    ensures Ended(s, p, ch, refuses, w)
            == Closed(s, p, ch).(links := Less(Effected(s, p, ch, refuses, w).links, w),
                marks := Lifted(Effected(s, p, ch, refuses, w), p, w))
    ensures Undone(Goal(s, p, ch, refuses), p, w)
            == Closed(s, p, ch).(links := Less(Goal(s, p, ch, refuses).links, w),
                marks := Lifted(Goal(s, p, ch, refuses), p, w))
  {
  }

  /**
   * Nothing else needs the loser's mark when the second undo asks: no other pair, no other edge, not the edge just
   * drawn.
   */
  ghost predicate LosesItsMark(s: Store, p: Pair, ch: Choice, refuses: Link -> bool, w: Wrote)
    requires ch.Superseded?
  {
    var y := LoserId(p, ch.winner);
    && w.mark == Some(y)
    && !PairOn(s, y, p)
    && !LinkInto(s, y, w.link)
    && !(Draws(s, p, ch, refuses) && LinkOf(p, ch) != w.link)
  }

  /** What the goal adds to the edges into the loser is the choice's own edge. */
  lemma GoalLinkInto(s: Store, p: Pair, ch: Choice, refuses: Link -> bool, w: Wrote)
    requires p in s.cands && ch.Superseded?
    ensures var y := LoserId(p, ch.winner);
            LinkInto(Goal(s, p, ch, refuses), y, w.link)
            <==> LinkInto(s, y, w.link) || (Draws(s, p, ch, refuses) && LinkOf(p, ch) != w.link)
  {
    var y, g := LoserId(p, ch.winner), Goal(s, p, ch, refuses);
    if LinkInto(s, y, w.link) {
      var l :| l in s.links && l.to == y && w.link != Some(l);
      assert l in g.links;
    }
    if Draws(s, p, ch, refuses) && LinkOf(p, ch) != w.link {
      assert LinkOf(p, ch).value in g.links;
    }
  }

  /**
   * A takeover that runs to its end leaves its own loser marked, unless the claim it took had recorded that very mark
   * and nothing but that claim's own edge points at the record: then, and only then, its second undo lifts it again.
   */
  lemma TakeoverMarksItsLoser(s: Store, p: Pair, ch: Choice, refuses: Link -> bool, w: Wrote, now: int)
    requires TakesOver(s, p, ch, w) && Claimable(s, p, ch, now) && Marks(s, p, ch)
    ensures Rec(p.kind, LoserId(p, ch.winner)) in Settle(s, p, ch, refuses, now).marks
            <==> !LosesItsMark(s, p, ch, refuses, w)
  {
    TakeoverEnds(s, p, ch, refuses, w, now);
    GoalLinkInto(s, p, ch, refuses, w);
    PairOnStays(s, Goal(s, p, ch, refuses), p, LoserId(p, ch.winner));
    hide LinkInto, PairOn, Settle, GoalLinks;
  }

  /** It ends with its edge exactly when the edge would stand and the claim it took had not recorded that very edge. */
  lemma TakeoverKeepsItsEdge(s: Store, p: Pair, ch: Choice, refuses: Link -> bool, w: Wrote, now: int)
    requires TakesOver(s, p, ch, w) && Claimable(s, p, ch, now) && LinkOf(p, ch).Some?
    ensures LinkOf(p, ch).value in Settle(s, p, ch, refuses, now).links
            <==> (LinkOf(p, ch).value in s.links || Draws(s, p, ch, refuses)) && w.link != LinkOf(p, ch)
  {
    TakeoverEnds(s, p, ch, refuses, w, now);
    hide Settle, Liftable;
  }

  // ---- A record that is another choice's own -----------------------------------------------------------------------

  predicate OwnWrote(p: Pair, ch: Choice, w: Wrote) {
    && (w.link.Some? ==> w.link == LinkOf(p, ch))
    && (w.mark.Some? ==> w.mark == LoserOf(p, ch))
  }

  /**
   * Where the claim taken over had recorded its own choice's effects, as every claim no cut takeover touched does: the
   * takeover ends as a resolve from the store in which those effects had been undone exactly, so what it took over
   * leaves no trace.
   */
  lemma TakeoverTakes(s: Store, p: Pair, ch: Choice, refuses: Link -> bool, w: Wrote, now: int)
    requires p.Wf() && TakesOver(s, p, ch, w) && Claimable(s, p, ch, now)
    requires OwnWrote(p, s.cands[p].claim.value.choice, w)
    ensures Settle(s, p, ch, refuses, now) == Goal(Undone(s, p, w), p, ch, refuses)
  {
    TakeoverEnds(s, p, ch, refuses, w, now);
    var g, u := Goal(s, p, ch, refuses), Undone(s, p, w);
    assert w.link.Some? ==> w.link != LinkOf(p, ch);
    assert Less(g.links, w) == GoalLinks(u, p, ch, refuses) by { hide Liftable, Settle; }
    if w.mark.Some? {
      PairOnStays(s, g, p, w.mark.value);
      if LinkInto(s, w.mark.value, w.link) {
        var l :| l in s.links && l.to == w.mark.value && w.link != Some(l);
        assert l in g.links;
      }
      if Retirable(p.kind) && LinkInto(g, w.mark.value, w.link) && !LinkInto(s, w.mark.value, w.link) {
        NewLinkIsOwn(s, p, ch, refuses, w, w.mark.value);
      }
      OthersMark(s, p, ch, w);
      hide LinkInto, PairOn, GoalLinks, Settle, Less, Draws, OwnWrote;
      assert Lifted(g, p, w) == GoalMarks(u, p, ch);
    }
    hide Less, Settle, GoalLinks, GoalMarks, Lifted, Liftable;
  }

  lemma OthersMark(s: Store, p: Pair, ch: Choice, w: Wrote)
    requires p.Wf() && TakesOver(s, p, ch, w) && OwnWrote(p, s.cands[p].claim.value.choice, w)
    ensures ch.Superseded? && w.mark.Some? ==> w.mark.value != LoserId(p, ch.winner)
  {
  }
}
