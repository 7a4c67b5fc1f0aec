/**
 * Retry convergence, exactly: a resolve cut off part-way any number of times and repeated with the same choice ends
 * where an uninterrupted one ends, unless it takes over a claim whose record an undo would take something of. Runs that
 * get there.
 */
module ContradictionConvergence {

  import opened Maybe
  import opened ContradictionModel
  import opened ContradictionRuns
  import opened ContradictionSerial
  import opened ContradictionRetry
  import opened ContradictionTakeover

  /**
   * Repeating a choice can tell a cut takeover of `w` from a whole one: of what `w` recorded, something stands or is
   * about to.
   */
  ghost predicate LosesToUndo(s: Store, p: Pair, ch: Choice, refuses: Link -> bool, w: Wrote) {
    || (w.link.Some? && w.link.value in s.links)
    || (w.link.Some? && w.link == LinkOf(p, ch) && Draws(s, p, ch, refuses))
    || (if Marks(s, p, ch) && w.mark == LoserOf(p, ch) then LosesItsMark(s, p, ch, refuses, w) else Liftable(s, p, w))
  }

  /** The resolve takes over a claim of another choice, and loses to its undo. */
  ghost predicate TakesOverEffects(s: Store, p: Pair, ch: Choice, refuses: Link -> bool) {
    && p in s.cands && s.cands[p].claim.Some? && s.cands[p].claim.value.choice != ch
    && LosesToUndo(s, p, ch, refuses, s.cands[p].claim.value.wrote)
  }

  lemma LosesIsUndoing(s: Store, p: Pair, ch: Choice, refuses: Link -> bool, w: Wrote)
    requires p in s.cands
    ensures LosesToUndo(s, p, ch, refuses, w) <==> UndoesSomething(Goal(s, p, ch, refuses), p, w)
  {
    var g := Goal(s, p, ch, refuses);
    if w.mark.Some? {
      PairOnStays(s, g, p, w.mark.value);
      LosesItsMarkIs(s, p, ch, refuses, w);
      OtherMarkIs(s, p, ch, refuses, w);
    }
    hide Liftable, LosesItsMark;
  }

  lemma LosesItsMarkIs(s: Store, p: Pair, ch: Choice, refuses: Link -> bool, w: Wrote)
    requires p in s.cands
    ensures Marks(s, p, ch) && w.mark == LoserOf(p, ch) ==>
              (LosesItsMark(s, p, ch, refuses, w) <==> Liftable(Goal(s, p, ch, refuses), p, w))
  {
    if Marks(s, p, ch) {
      GoalLinkInto(s, p, ch, refuses, w);
      PairOnStays(s, Goal(s, p, ch, refuses), p, LoserId(p, ch.winner));
      hide LinkInto, PairOn, GoalLinks;
    }
  }

  lemma OtherMarkIs(s: Store, p: Pair, ch: Choice, refuses: Link -> bool, w: Wrote)
    requires p in s.cands && w.mark.Some?
    ensures !(Marks(s, p, ch) && w.mark == LoserOf(p, ch)) ==>
              (Liftable(s, p, w) <==> Liftable(Goal(s, p, ch, refuses), p, w))
  {
    var m, g := w.mark.value, Goal(s, p, ch, refuses);
    PairOnStays(s, g, p, m);
    if LinkInto(s, m, w.link) {
      var l :| l in s.links && l.to == m && w.link != Some(l);
      assert l in g.links;
    } else if Retirable(p.kind) && LinkInto(g, m, w.link) {
      NewLinkIsOwn(s, p, ch, refuses, w, m);
    }
    hide LinkInto, PairOn, GoalLinks;
  }

  // ---- Cut anywhere ------------------------------------------------------------------------------------------------

  lemma CutCands(s: Store, t: Store, r: Request, ch: Choice, refuses: Link -> bool, w: Wrote)
    requires Overtaking(s, t, r, ch, refuses, w) && !r.pc.ReadPair? && !r.pc.TakeClaim? && !r.pc.Done?
    ensures OwnClaimOnly(s, t, r.pair) && SameClaim(t, r.pair, ch)
  {
  }

  /** Where nothing is lost the edges a cut takeover leaves are those it met, or the goal's. */
  lemma CutLinks(s: Store, t: Store, r: Request, ch: Choice, refuses: Link -> bool, w: Wrote)
    requires Overtaking(s, t, r, ch, refuses, w) && !r.pc.ReadPair? && !r.pc.TakeClaim? && !r.pc.Done?
    requires w.link.Some? ==> w.link.value !in GoalLinks(s, r.pair, ch, refuses)
    ensures t.links == s.links || t.links == GoalLinks(s, r.pair, ch, refuses)
  {
    hide Liftable, MayLift, SnapOk, Unlinked;
    assert Less(s.links, w) == s.links;
  }

  /** And the marks are short of the goal's by no more than the loser's. */
  lemma CutMarks(s: Store, t: Store, r: Request, ch: Choice, refuses: Link -> bool, w: Wrote)
    requires Overtaking(s, t, r, ch, refuses, w) && !r.pc.ReadPair? && !r.pc.TakeClaim? && !r.pc.Done?
    requires Liftable(s, r.pair, w) ==> Marks(s, r.pair, ch) && w.mark == LoserOf(r.pair, ch)
    requires Lifted(Effected(s, r.pair, ch, refuses, w), r.pair, w) == GoalMarks(s, r.pair, ch)
    ensures GoalMarks(t, r.pair, ch) == GoalMarks(s, r.pair, ch)
  {
    hide Liftable, MayLift, SnapOk, Unlinked, GoalLinks;
  }

  /** A takeover with nothing to lose aims at the same goal wherever it is cut. */
  lemma CutAims(s: Store, t: Store, r: Request, ch: Choice, refuses: Link -> bool, w: Wrote)
    requires TakesOver(s, r.pair, ch, w) && Overtaking(s, t, r, ch, refuses, w)
    requires !LosesToUndo(s, r.pair, ch, refuses, w)
    requires !r.pc.ReadPair? && !r.pc.TakeClaim? && !r.pc.Done?
    ensures Aims(s, t, r.pair, ch, refuses)
  {
    var p, g := r.pair, Goal(s, r.pair, ch, refuses);
    LosesIsUndoing(s, p, ch, refuses, w);
    UndoesNothing(g, p, w);
    MarksUndoneOnce(s, p, ch, refuses, w);
    CutCands(s, t, r, ch, refuses, w);
    CutLinks(s, t, r, ch, refuses, w);
    assert Liftable(s, p, w) ==> Marks(s, p, ch) && w.mark == LoserOf(p, ch) by { hide Liftable, Overtaking; }
    hide Overtaking, Liftable, Effected;
    CutMarks(s, t, r, ch, refuses, w);
    hide LosesToUndo, UndoesSomething;
    assert GoalLinks(t, p, ch, refuses) == g.links;
    assert Closed(t, p, ch).cands == Closed(s, p, ch).cands;
  }

  /** The pair is claimed by the choice, and finishing comes to what finishing `s` would. */
  ghost predicate Aims(s: Store, t: Store, p: Pair, ch: Choice, refuses: Link -> bool) {
    && p in s.cands && Setting(t, p, ch) && SameClaim(t, p, ch)
    && Goal(t, p, ch, refuses) == Goal(s, p, ch, refuses)
  }

  /** One more attempt from there, cut anywhere, still aims at it or has reached it. */
  lemma AttemptAims(s: Store, t: Store, p: Pair, ch: Choice, refuses: Link -> bool, now: int, n: nat)
    requires Aims(s, t, p, ch, refuses)
    ensures var t' := Go(t, Start(p, Resolve(ch)), now, refuses, n).0;
            Aims(s, t', p, ch, refuses) || t' == Goal(s, p, ch, refuses)
  {
    var t' := Go(t, Start(p, Resolve(ch)), now, refuses, n).0;
    UnderwayHere(t, p, ch, refuses);
    AttemptGo(t, t, p, ch, refuses, now, n);
    hide Go, Goal, GoalLinks, GoalMarks;
    if t' != t && t' != Goal(t, p, ch, refuses) {
      SettleReachesGoal(t, t', p, ch, refuses, now);
      UnderwayHere(t', p, ch, refuses);
      SettleReachesGoal(t', t', p, ch, refuses, now);
    }
  }

  lemma GoalIsClosed(s: Store, p: Pair, ch: Choice, refuses: Link -> bool, now: int)
    requires p in s.cands
    ensures !Claimable(Goal(s, p, ch, refuses), p, ch, now)
  {
  }

  /** The first attempt of a takeover that loses nothing: it has not claimed, or aims at the goal, or has reached it. */
  lemma FirstAttemptAims(s: Store, p: Pair, ch: Choice, refuses: Link -> bool, w: Wrote, now: int, n: nat)
    requires TakesOver(s, p, ch, w) && !LosesToUndo(s, p, ch, refuses, w)
    ensures var t := Go(s, Start(p, Resolve(ch)), now, refuses, n).0;
            t == s || Aims(s, t, p, ch, refuses) || t == Goal(s, p, ch, refuses)
  {
    hide *;
    if Claimable(s, p, ch, now) {
      OvertakeGo(s, p, ch, refuses, w, now, n);
      var (t, r) := Go(s, Start(p, Resolve(ch)), now, refuses, n);
      OvertakingEnds(s, t, r, ch, refuses, w);
      if !r.pc.ReadPair? && !r.pc.TakeClaim? && !r.pc.Done? {
        CutAims(s, t, r, ch, refuses, w);
      }
    } else {
      UnclaimableStays(s, p, ch, refuses, now, n);
    }
  }

  lemma OvertakingEnds(s: Store, t: Store, r: Request, ch: Choice, refuses: Link -> bool, w: Wrote)
    requires TakesOver(s, r.pair, ch, w) && Overtaking(s, t, r, ch, refuses, w)
    requires !LosesToUndo(s, r.pair, ch, refuses, w)
    ensures r.pc.ReadPair? || r.pc.TakeClaim? ==> t == s
    ensures r.pc.Done? ==> t == Goal(s, r.pair, ch, refuses)
  {
    LosesIsUndoing(s, r.pair, ch, refuses, w);
    UndoesNothing(Goal(s, r.pair, ch, refuses), r.pair, w);
    LinksUndoneOnce(s, r.pair, ch, refuses, w);
    MarksUndoneOnce(s, r.pair, ch, refuses, w);
    EndedIs(s, r.pair, ch, refuses, w);
    hide Goal, Ended, Undone, Midway, LosesToUndo, UndoesSomething;
  }

  lemma {:induction false} AttemptsAim(s: Store, p: Pair, ch: Choice, refuses: Link -> bool, w: Wrote,
      attempts: seq<Attempt>)
    requires TakesOver(s, p, ch, w) && !LosesToUndo(s, p, ch, refuses, w)
    ensures var t := After(s, p, ch, refuses, attempts);
            t == s || Aims(s, t, p, ch, refuses) || t == Goal(s, p, ch, refuses)
    decreases |attempts|
  {
    hide *;
    AfterIs(s, p, ch, refuses, attempts);
    if attempts != [] {
      var init, a := attempts[..|attempts| - 1], attempts[|attempts| - 1];
      AttemptsAim(s, p, ch, refuses, w, init);
      var t := After(s, p, ch, refuses, init);
      if t == s {
        FirstAttemptAims(s, p, ch, refuses, w, a.now, a.calls);
      } else if Aims(s, t, p, ch, refuses) {
        AttemptAims(s, t, p, ch, refuses, a.now, a.calls);
      } else {
        TakesOverHas(s, p, ch, w);
        GoalIsClosed(s, p, ch, refuses, a.now);
        UnclaimableStays(t, p, ch, refuses, a.now, a.calls);
      }
    }
  }

  lemma TakesOverHas(s: Store, p: Pair, ch: Choice, w: Wrote)
    requires TakesOver(s, p, ch, w)
    ensures p in s.cands
  {
  }

  lemma AfterIs(s: Store, p: Pair, ch: Choice, refuses: Link -> bool, attempts: seq<Attempt>)
    ensures attempts == [] ==> After(s, p, ch, refuses, attempts) == s
    ensures attempts != [] ==>
              var a := attempts[|attempts| - 1];
              After(s, p, ch, refuses, attempts)
              == Go(After(s, p, ch, refuses, attempts[..|attempts| - 1]), Start(p, Resolve(ch)), a.now, refuses,
                  a.calls).0
  {
    hide Go;
  }

  // ---- The theorem -------------------------------------------------------------------------------------------------

  lemma TakeoverConverges(s: Store, p: Pair, ch: Choice, refuses: Link -> bool, w: Wrote, now: int,
      attempts: seq<Attempt>)
    requires TakesOver(s, p, ch, w) && Claimable(s, p, ch, now) && !LosesToUndo(s, p, ch, refuses, w)
    ensures Settle(After(s, p, ch, refuses, attempts), p, ch, refuses, now) == Goal(s, p, ch, refuses)
  {
    AttemptsAim(s, p, ch, refuses, w, attempts);
    var t := After(s, p, ch, refuses, attempts);
    if t == s {
      TakeoverEnds(s, p, ch, refuses, w, now);
      LosesIsUndoing(s, p, ch, refuses, w);
      UndoesNothing(Goal(s, p, ch, refuses), p, w);
    } else if Aims(s, t, p, ch, refuses) {
      hide Go, Goal;
      UnderwayHere(t, p, ch, refuses);
      SettleReachesGoal(t, t, p, ch, refuses, now);
    } else {
      GoalIsClosed(s, p, ch, refuses, now);
      UnclaimableStays(t, p, ch, refuses, now, WHOLE);
    }
  }

  /**
   * A takeover cut off right after its claim and repeated keeps what the claim before it had recorded, beside its own
   * edge and mark; made whole, it undoes it.
   */
  lemma CutTakeoverDiverges(s: Store, p: Pair, ch: Choice, refuses: Link -> bool, now: int)
    requires Claimable(s, p, ch, now) && s.cands[p].claim.Some? && s.cands[p].claim.value.choice != ch
    ensures var t, w := After(s, p, ch, refuses, [Attempt(now, 2)]), s.cands[p].claim.value.wrote;
            && Settle(t, p, ch, refuses, now) == Goal(s, p, ch, refuses)
            && Settle(s, p, ch, refuses, now) == Undone(Goal(s, p, ch, refuses), p, w)
            && (Settle(t, p, ch, refuses, now) != Settle(s, p, ch, refuses, now)
                <==> TakesOverEffects(s, p, ch, refuses))
  {
    var a, w := [Attempt(now, 2)], s.cands[p].claim.value.wrote;
    assert a[..0] == [];
    assert After(s, p, ch, refuses, a[..0]) == s;
    ClaimIsTheSecondCall(s, p, ch, refuses, now);
    var t := After(s, p, ch, refuses, a);
    hide Go;
    assert t == Claimed(s, p, ch, now);
    UnderwayHere(t, p, ch, refuses);
    SettleReachesGoal(t, t, p, ch, refuses, now);
    assert Goal(t, p, ch, refuses) == Goal(s, p, ch, refuses);
    hide Goal;
    TakeoverEnds(s, p, ch, refuses, w, now);
    LosesIsUndoing(s, p, ch, refuses, w);
    UndoesNothing(Goal(s, p, ch, refuses), p, w);
    hide LosesToUndo, UndoesSomething, Undone;
  }

  /**
   * From every claimable candidate, whatever its claim had recorded: every sequence of cut-off attempts with one choice
   * ends, after one that is not cut off, in the store an uninterrupted resolve gives - if and only if the resolve does
   * not take over another choice's claim of whose record something stands, or is the edge or the unneeded mark it is
   * about to write.
   */
  lemma RetryConverges(s: Store, p: Pair, ch: Choice, refuses: Link -> bool, now: int)
    requires Claimable(s, p, ch, now)
    ensures (forall attempts ::
      Settle(After(s, p, ch, refuses, attempts), p, ch, refuses, now) == Settle(s, p, ch, refuses, now))
            <==> !TakesOverEffects(s, p, ch, refuses)
    ensures !TakesOverEffects(s, p, ch, refuses) ==> Settle(s, p, ch, refuses, now) == Goal(s, p, ch, refuses)
  {
    hide Go, Goal, After, LosesToUndo;
    if TakesOverEffects(s, p, ch, refuses) {
      CutTakeoverDiverges(s, p, ch, refuses, now);
    } else if s.cands[p].claim.Some? && s.cands[p].claim.value.choice != ch {
      var w := s.cands[p].claim.value.wrote;
      CutTakeoverDiverges(s, p, ch, refuses, now);
      forall attempts
        ensures Settle(After(s, p, ch, refuses, attempts), p, ch, refuses, now) == Goal(s, p, ch, refuses)
      {
        TakeoverConverges(s, p, ch, refuses, w, now, attempts);
      }
    } else {
      UnderwayHere(s, p, ch, refuses);
      SettleReachesGoal(s, s, p, ch, refuses, now);
      forall attempts
        ensures Settle(After(s, p, ch, refuses, attempts), p, ch, refuses, now) == Goal(s, p, ch, refuses)
      {
        AttemptsAreUnderway(s, p, ch, refuses, attempts);
        SettleReachesGoal(s, After(s, p, ch, refuses, attempts), p, ch, refuses, now);
      }
    }
  }
  // ---- Runs that get there --------------------------------------------------------------------------------------

  const PAIR := Pair(Entity, 1, 2)
  const FOUND := Store(map[PAIR := FRESH], {}, {Rec(Entity, 1), Rec(Entity, 2)}, {})
  const KEEP_A := Superseded(A)
  const KEEP_B := Superseded(B)
  const A_OVER_B := Link(Entity, 1, 2)
  const B_OVER_A := Link(Entity, 2, 1)

  /** A resolve keeping `a`, cut off just before its close: its edge and mark stand, recorded on its claim. */
  const LEFT_OPEN :=
    Store(map[PAIR := Cand(Open, None, None, Some(Claim(KEEP_A, 0, Wrote(Some(A_OVER_B), Some(2)))))],
          {A_OVER_B}, {Rec(Entity, 1), Rec(Entity, 2)}, {Rec(Entity, 2)})

  /** The same resolve cut off after recording its edge, before it is drawn. */
  const UNDRAWN :=
    Store(map[PAIR := Cand(Open, None, None, Some(Claim(KEEP_A, 0, Wrote(Some(A_OVER_B), None))))],
          {}, {Rec(Entity, 1), Rec(Entity, 2)}, {})

  function RefusesNone(l: Link): bool { false }

  const READ_AB := Start(PAIR, Resolve(KEEP_A)).(snap := Snapshot(true, true, false), pc := TakeClaim)
  const DRAWING := READ_AB.(pc := DrawLink, mine := Wrote(Some(A_OVER_B), None))

  lemma FirstCallRecords()
    ensures Go(FOUND, Start(PAIR, Resolve(KEEP_A)), 0, RefusesNone, 4) == (UNDRAWN, DRAWING)
  {
    var r0 := Start(PAIR, Resolve(KEEP_A));
    assert Go(FOUND, r0, 0, RefusesNone, 0) == (FOUND, r0);
    assert Go(FOUND, r0, 0, RefusesNone, 1) == (FOUND, READ_AB);
    var s2 := SetCand(FOUND, PAIR, FRESH.(claim := Some(Claim(KEEP_A, 0, NOTHING))));
    assert Go(FOUND, r0, 0, RefusesNone, 2) == (s2, READ_AB.(pc := FindLink));
    assert Go(FOUND, r0, 0, RefusesNone, 3) == (s2, READ_AB.(pc := RecordLink));
    assert Go(FOUND, r0, 0, RefusesNone, 4).0.cands == UNDRAWN.cands;
  }

  lemma FirstCallMarks()
    ensures Go(FOUND, Start(PAIR, Resolve(KEEP_A)), 0, RefusesNone, 7).0 == LEFT_OPEN
  {
    var r0 := Start(PAIR, Resolve(KEEP_A));
    FirstCallRecords();
    var s5 := UNDRAWN.(links := {A_OVER_B});
    assert Go(FOUND, r0, 0, RefusesNone, 5).0.links == s5.links;
    assert Go(FOUND, r0, 0, RefusesNone, 5) == (s5, DRAWING.(pc := RecordMark));
    var s6 := LEFT_OPEN.(marks := {});
    assert Go(FOUND, r0, 0, RefusesNone, 6).0.cands == s6.cands;
    assert Go(FOUND, r0, 0, RefusesNone, 6) == (s6, DRAWING.(pc := Retire, mine := Wrote(Some(A_OVER_B), Some(2))));
    assert Go(FOUND, r0, 0, RefusesNone, 7).0.marks == LEFT_OPEN.marks;
  }

  /**
   * The first choice cut off after `calls` store calls; ten minutes later the second, cut off right after its claim.
   */
  function TwoCut(calls: nat): Store {
    Serve(FOUND, [Call(PAIR, Resolve(KEEP_A), 0, RefusesNone, calls),
        Call(PAIR, Resolve(KEEP_B), STALE_MS + 1, RefusesNone, 2)])
  }

  lemma TwoCutIs(calls: nat, s: Store)
    requires Go(FOUND, Start(PAIR, Resolve(KEEP_A)), 0, RefusesNone, calls).0 == s
    requires s == LEFT_OPEN || s == UNDRAWN
    ensures TwoCut(calls) == Claimed(s, PAIR, KEEP_B, STALE_MS + 1)
  {
    var first := Call(PAIR, Resolve(KEEP_A), 0, RefusesNone, calls);
    var second := Call(PAIR, Resolve(KEEP_B), STALE_MS + 1, RefusesNone, 2);
    ClaimIsTheSecondCall(s, PAIR, KEEP_B, RefusesNone, STALE_MS + 1);
    hide Go;
    assert [first][..0] == [] && [first, second][..1] == [first];
    assert Serve(FOUND, []) == FOUND;
    assert Served(FOUND, first).0 == s;
    assert Serve(FOUND, [first]) == s;
  }

  /**
   * From a fresh candidate: a resolve keeping `a` is cut off before its close; ten minutes later one keeping `b` takes
   * over and is cut off right after its claim. Repeating the second choice closes the pair linked both ways. Returning
   * to the first choice ten minutes later closes it with its loser unmarked and its edge gone.
   */
  lemma CutTakeoverRuns()
    ensures var cut, now := TwoCut(7), STALE_MS + 1;
            && {A_OVER_B, B_OVER_A} <= Settle(cut, PAIR, KEEP_B, RefusesNone, now).links
            && SameResolved(Settle(cut, PAIR, KEEP_B, RefusesNone, now), PAIR, KEEP_B)
            && Rec(Entity, 2) !in Settle(cut, PAIR, KEEP_A, RefusesNone, 2 * now).marks
            && A_OVER_B !in Settle(cut, PAIR, KEEP_A, RefusesNone, 2 * now).links
            && SameResolved(Settle(cut, PAIR, KEEP_A, RefusesNone, 2 * now), PAIR, KEEP_A)
  {
    var s, w, now := LEFT_OPEN, Wrote(Some(A_OVER_B), Some(2)), STALE_MS + 1;
    FirstCallMarks();
    TwoCutIs(7, s);
    var cut := TwoCut(7);
    hide Go;
    UnderwayHere(cut, PAIR, KEEP_B, RefusesNone);
    SettleReachesGoal(cut, cut, PAIR, KEEP_B, RefusesNone, now);
    TakeoverEnds(cut, PAIR, KEEP_A, RefusesNone, w, 2 * now);
    TakeoverMarksItsLoser(cut, PAIR, KEEP_A, RefusesNone, w, 2 * now);
    TakeoverKeepsItsEdge(cut, PAIR, KEEP_A, RefusesNone, w, 2 * now);
  }

  /**
   * The same with the first resolve cut off before it drew the edge it had recorded, so that nothing recorded stands:
   * returning to the first choice closes the pair with its loser marked and its edge taken back by the second undo,
   * where that takeover cut off after its claim and repeated closes it with the edge.
   */
  lemma UndrawnEdgeRuns()
    ensures var cut, now := TwoCut(4), 2 * (STALE_MS + 1);
            var whole, retried := Settle(cut, PAIR, KEEP_A, RefusesNone, now),
                                  Settle(After(cut, PAIR, KEEP_A, RefusesNone, [Attempt(now, 2)]), PAIR, KEEP_A,
                                      RefusesNone, now);
            && cut.links == {} && cut.marks == {}
            && SameResolved(whole, PAIR, KEEP_A) && Rec(Entity, 2) in whole.marks && A_OVER_B !in whole.links
            && SameResolved(retried, PAIR, KEEP_A) && Rec(Entity, 2) in retried.marks && A_OVER_B in retried.links
  {
    var s, w, now := UNDRAWN, Wrote(Some(A_OVER_B), None), 2 * (STALE_MS + 1);
    FirstCallRecords();
    TwoCutIs(4, s);
    var cut := TwoCut(4);
    hide Go;
    TakeoverMarksItsLoser(cut, PAIR, KEEP_A, RefusesNone, w, now);
    TakeoverKeepsItsEdge(cut, PAIR, KEEP_A, RefusesNone, w, now);
    TakeoverEnds(cut, PAIR, KEEP_A, RefusesNone, w, now);
    CutTakeoverDiverges(cut, PAIR, KEEP_A, RefusesNone, now);
  }
}
