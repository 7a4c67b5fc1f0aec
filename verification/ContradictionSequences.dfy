/**
 * Sequences of requests over many candidates, one at a time, each cut off by a store failure after any number of its
 * calls: when every candidate closed as superseded still has its loser marked, exactly.
 */
module ContradictionSequences {

  import opened Maybe
  import opened ContradictionModel
  import opened ContradictionRuns
  import opened ContradictionSerial
  import opened ContradictionRetry
  import opened ContradictionTakeover
  import opened ContradictionRelease

  /** Every candidate closed as superseded still has its loser marked, while that record exists. */
  ghost predicate LosersMarked(s: Store) {
    forall p :: p in s.cands && s.cands[p].status == Resolved ==> LoserMarked(s, p, s.cands[p])
  }

  predicate LoserMarked(s: Store, p: Pair, c: Cand) {
    (c.loser.Some? && Retirable(p.kind) && Rec(p.kind, c.loser.value) in s.records)
        ==> Rec(p.kind, c.loser.value) in s.marks
  }

  /**
   * The one call that leaves a loser unmarked: a resolve made whole that takes over a claim which had recorded the very
   * mark it is about to need, with nothing else pointing at that record.
   */
  ghost predicate Harms(s: Store, c: Call) {
    && c.job.Resolve? && c.job.choice.Superseded? && Served(s, c).1.pc.Done?
    && Claimable(s, c.pair, c.job.choice, c.now) && TakesOver(s, c.pair, c.job.choice, RecordOf(s, c.pair))
    && Marks(s, c.pair, c.job.choice) && LosesItsMark(s, c.pair, c.job.choice, c.refuses, RecordOf(s, c.pair))
  }

  // ---- The other candidates ----------------------------------------------------------------------------------------

  ghost predicate OthersMarked(t: Store, p: Pair) {
    forall q :: q in t.cands && q != p && t.cands[q].status == Resolved ==> LoserMarked(t, q, t.cands[q])
  }

  /** A request alone has just read that no other pair needs the mark it lifts. */
  ghost predicate Sparing(t: Store, q: Request) {
    && Sound(t) && OthersMarked(t, q.pair) && Alone(t, q)
    && (q.pc.Undo? && q.pc.stage.LiftMark? ==> q.prior.mark.Some? && !PairOn(t, q.prior.mark.value, q.pair))
  }

  lemma UndoSpares(t: Store, q: Request)
    requires Sparing(t, q) && q.pc.Undo?
    ensures var (t', q') := UndoStep(t, q, q.pc.phase, q.pc.stage);
            OthersMarked(t', q.pair)
            && (q'.pc.Undo? && q'.pc.stage.LiftMark?
                ==> q'.prior.mark.Some? && !PairOn(t', q'.prior.mark.value, q'.pair))
  {
    assert UndoStep(t, q, q.pc.phase, q.pc.stage).0.cands == t.cands;
  }

  lemma ResolveSpares(t: Store, q: Request, now: int, refused: bool)
    requires Sparing(t, q) && q.job.Resolve? && !q.pc.Undo?
    ensures var (t', q') := ResolveStep(t, q, q.job.choice, now, refused);
            OthersMarked(t', q.pair) && (q'.pc.Undo? ==> q'.pc.stage.DeleteLink?)
  {
    OnlyOwnCand(t, q, now, refused);
    OnlyUndoTakes(t, q, now, refused);
    ResolveEntersUndo(t, q, now, refused);
    hide ResolveStep;
  }

  lemma ResolveEntersUndo(t: Store, q: Request, now: int, refused: bool)
    requires q.job.Resolve? && !q.pc.Undo?
    ensures var q' := ResolveStep(t, q, q.job.choice, now, refused).1; q'.pc.Undo? ==> q'.pc.stage.DeleteLink?
  {
  }

  lemma OnlyOwnCand(t: Store, q: Request, now: int, refused: bool)
    ensures var t' := Step(t, q, now, refused).0;
            t'.cands.Keys == t.cands.Keys && forall p :: p in t.cands && p != q.pair ==> t'.cands[p] == t.cands[p]
  {
  }

  lemma SparingStep(t: Store, q: Request, now: int, refused: bool)
    requires Sparing(t, q)
    ensures var (t', q') := Step(t, q, now, refused); Sparing(t', q')
  {
    StepKeepsAim(t, q, now, refused);
    StepKeeps(t, q, now, refused);
    AloneStep(t, q, now, refused);
    if q.pc.Undo? {
      hide UndoStep, Sound, Alone;
      UndoSpares(t, q);
    } else if q.job.Resolve? {
      hide ResolveStep, Sound, Alone;
      ResolveSpares(t, q, now, refused);
    } else {
      OnlyOwnCand(t, q, now, refused);
      hide Sound, Alone;
    }
  }

  lemma {:induction false} SparingGo(s: Store, p: Pair, job: Job, now: int, refuses: Link -> bool, n: nat)
    requires Sound(s) && LosersMarked(s)
    ensures var (t, q) := Go(s, Start(p, job), now, refuses, n); q.pair == p && Sparing(t, q)
  {
    hide *;
    if n == 0 {
      NoCall(s, Start(p, job), now, refuses);
      SparingStarts(s, p, job);
    } else {
      SparingGo(s, p, job, now, refuses, n - 1);
      GoStep(s, Start(p, job), now, refuses, n);
      var (t, q) := Go(s, Start(p, job), now, refuses, n - 1);
      StepKeepsAim(t, q, now, Refused(q, refuses));
      SparingStep(t, q, now, Refused(q, refuses));
    }
  }

  lemma SparingStarts(s: Store, p: Pair, job: Job)
    requires Sound(s) && LosersMarked(s)
    ensures Start(p, job).pair == p && Sparing(s, Start(p, job))
  {
    StartsAlone(s, p, job);
    hide Alone;
  }

  // ---- The candidate's own loser -----------------------------------------------------------------------------------

  /** The candidate is resolved only with its loser marked. */
  ghost predicate OwnMarked(t: Store, p: Pair) {
    p in t.cands && t.cands[p].status == Resolved ==> LoserMarked(t, p, t.cands[p])
  }

  lemma GoalMarksIt(s: Store, p: Pair, ch: Choice, refuses: Link -> bool)
    requires Sound(s) && p in s.cands && s.cands[p].status != Resolved
    ensures OwnMarked(Goal(s, p, ch, refuses), p)
  {
  }

  /** Closing a takeover leaves its own loser unmarked exactly when it loses its mark. */
  lemma EndMarksIt(s: Store, p: Pair, ch: Choice, refuses: Link -> bool, w: Wrote, now: int)
    requires Sound(s) && TakesOver(s, p, ch, w) && Claimable(s, p, ch, now)
    ensures OwnMarked(Settle(s, p, ch, refuses, now), p) <==> !(Marks(s, p, ch) && LosesItsMark(s, p, ch, refuses, w))
  {
    TakeoverEnds(s, p, ch, refuses, w, now);
    if Marks(s, p, ch) {
      TakeoverMarksItsLoser(s, p, ch, refuses, w, now);
    }
    hide Settle, LosesItsMark, LinkInto, PairOn, Liftable;
  }

  /** A takeover that has made all its calls has ended as one that is not cut off. */
  lemma DoneIsSettled(s: Store, p: Pair, ch: Choice, refuses: Link -> bool, w: Wrote, now: int, n: nat)
    requires TakesOver(s, p, ch, w) && Claimable(s, p, ch, now)
    ensures var (t, q) := Go(s, Start(p, Resolve(ch)), now, refuses, n);
            if q.pc.Done? then t == Settle(s, p, ch, refuses, now)
                else p in t.cands && t.cands[p].status == s.cands[p].status
  {
    OvertakeGo(s, p, ch, refuses, w, now, n);
    OvertakeGo(s, p, ch, refuses, w, now, WHOLE);
    WholeIsDone(s, Start(p, Resolve(ch)), now, refuses, WHOLE);
    hide Go, Midway, Ended;
  }

  lemma ResolveKeepsOwn(s: Store, p: Pair, ch: Choice, refuses: Link -> bool, now: int, n: nat)
    requires Sound(s) && LosersMarked(s)
    ensures OwnMarked(Go(s, Start(p, Resolve(ch)), now, refuses, n).0, p)
            <==> !Harms(s, Call(p, Resolve(ch), now, refuses, n))
  {
    var (t, q) := Go(s, Start(p, Resolve(ch)), now, refuses, n);
    var w := RecordOf(s, p);
    if !Claimable(s, p, ch, now) {
      UnclaimableStays(s, p, ch, refuses, now, n);
    } else if s.cands[p].claim.Some? && s.cands[p].claim.value.choice != ch {
      hide Go, LosersMarked, LosesItsMark;
      DoneIsSettled(s, p, ch, refuses, w, now, n);
      EndMarksIt(s, p, ch, refuses, w, now);
      hide LoserMarked, Settle, Marks;
      MarksSuperseded(s, p, ch);
    } else {
      hide Go, LosersMarked;
      UnderwayHere(s, p, ch, refuses);
      AttemptGo(s, s, p, ch, refuses, now, n);
      GoalMarksIt(s, p, ch, refuses);
      hide LoserMarked, Goal, GoalLinks, GoalMarks;
    }
  }

  lemma MarksSuperseded(s: Store, p: Pair, ch: Choice)
    ensures Marks(s, p, ch) ==> ch.Superseded?
  {
  }

  lemma ReleaseKeepsOwn(s: Store, p: Pair, job: Job, refuses: Link -> bool, now: int, n: nat)
    requires LosersMarked(s) && !job.Resolve?
    ensures OwnMarked(Go(s, Start(p, job), now, refuses, n).0, p)
  {
    if Releases(s, p, job) {
      ReleaseGoes(s, p, job, now, refuses, n);
    } else {
      Unmatched(s, p, job, now, refuses, n);
    }
  }

  /**
   * One call, cut anywhere, from any store whose losers are marked and whatever its claims had recorded: every loser is
   * marked after it if and only if it is not the one harmful kind.
   */
  lemma ServedKeeps(s: Store, c: Call)
    requires Sound(s) && LosersMarked(s)
    ensures Sound(Served(s, c).0)
    ensures LosersMarked(Served(s, c).0) <==> !Harms(s, c)
  {
    var t := Served(s, c).0;
    SparingGo(s, c.pair, c.job, c.now, c.refuses, c.calls);
    if c.job.Resolve? {
      ResolveKeepsOwn(s, c.pair, c.job.choice, c.refuses, c.now, c.calls);
    } else {
      ReleaseKeepsOwn(s, c.pair, c.job, c.refuses, c.now, c.calls);
    }
    hide Go, Harms, LoserMarked, Alone;
    assert LosersMarked(t) <==> OwnMarked(t, c.pair);
  }

  // ---- Sequences ---------------------------------------------------------------------------------------------------

  /** Before the first call, and after each. */
  ghost predicate AllMarked(s: Store, calls: seq<Call>) {
    LosersMarked(Serve(s, calls)) && (calls == [] || AllMarked(s, calls[..|calls| - 1]))
  }

  /** No call is harmful in the store it is made in. */
  ghost predicate NoneHarms(s: Store, calls: seq<Call>) {
    calls == []
    || (NoneHarms(s, calls[..|calls| - 1]) && !Harms(Serve(s, calls[..|calls| - 1]), calls[|calls| - 1]))
  }

  /**
   * Any sequence of resolves, dismissals and reopens over any candidates, each cut off anywhere: every candidate closed
   * as superseded has its loser marked at every point of it if and only if none of its calls is harmful where it is
   * made.
   */
  lemma {:induction false} SerialKeepsLosersMarked(s: Store, calls: seq<Call>)
    requires Sound(s) && LosersMarked(s)
    ensures AllMarked(s, calls) ==> Sound(Serve(s, calls))
    ensures AllMarked(s, calls) <==> NoneHarms(s, calls)
    decreases |calls|
  {
    hide Harms, LosersMarked, Sound, Served;
    if calls != [] {
      var init := calls[..|calls| - 1];
      SerialKeepsLosersMarked(s, init);
      if AllMarked(s, init) {
        ServedKeeps(Serve(s, init), calls[|calls| - 1]);
      }
    }
  }

  // ---- What a claim recorded is its own choice's -----------------------------------------------------------------

  predicate OwnClaim(p: Pair, c: Cand) {
    c.claim.Some? ==> OwnWrote(p, c.claim.value.choice, c.claim.value.wrote)
  }

  ghost predicate OwnRecords(s: Store) { forall p :: p in s.cands ==> OwnClaim(p, s.cands[p]) }

  /** The call is cut inside its takeover: the claim is its own, and what is recorded on it is not. */
  predicate CutTaking(s: Store, c: Call) {
    var q := Served(s, c).1;
    q.job.Resolve? && Taking(q.pc) && !OwnWrote(q.pair, q.job.choice, q.prior)
  }

  ghost predicate Owning(t: Store, q: Request) {
    && Alone(t, q)
    && (forall p :: p in t.cands && p != q.pair ==> OwnClaim(p, t.cands[p]))
    && (if q.job.Resolve? && Taking(q.pc) then t.cands[q.pair].claim.value.wrote == q.prior
        else q.pair in t.cands ==> OwnClaim(q.pair, t.cands[q.pair]))
  }

  lemma OwningClaim(t: Store, q: Request, now: int, refused: bool)
    requires Owning(t, q) && q.job.Resolve? && (q.pc.TakeClaim? || q.pc.DropRecord?)
    ensures var (t', q') := ResolveStep(t, q, q.job.choice, now, refused);
            if Taking(q'.pc) then q.pair in t'.cands && t'.cands[q.pair].claim.Some?
                && t'.cands[q.pair].claim.value.wrote == q'.prior
            else q.pair in t'.cands ==> OwnClaim(q.pair, t'.cands[q.pair])
  {
  }

  lemma OwningEffects(t: Store, q: Request, now: int, refused: bool)
    requires Owning(t, q) && q.job.Resolve? && !q.pc.Undo? && !q.pc.TakeClaim? && !q.pc.DropRecord?
    ensures var (t', q') := ResolveStep(t, q, q.job.choice, now, refused);
            !Taking(q'.pc) && (q.pair in t'.cands ==> OwnClaim(q.pair, t'.cands[q.pair]))
  {
  }

  lemma OwningStep(t: Store, q: Request, now: int, refused: bool)
    requires Owning(t, q)
    ensures var (t', q') := Step(t, q, now, refused); Owning(t', q')
  {
    StepKeepsAim(t, q, now, refused);
    AloneStep(t, q, now, refused);
    if q.pc.Undo? {
      assert UndoStep(t, q, q.pc.phase, q.pc.stage).0.cands == t.cands;
    } else if q.job.Resolve? {
      OnlyOwnCand(t, q, now, refused);
      hide ResolveStep, Alone, OwnClaim;
      if q.pc.TakeClaim? || q.pc.DropRecord? {
        OwningClaim(t, q, now, refused);
      } else {
        OwningEffects(t, q, now, refused);
      }
    }
  }

  lemma {:induction false} OwningGo(s: Store, p: Pair, job: Job, now: int, refuses: Link -> bool, n: nat)
    requires OwnRecords(s)
    ensures var (t, q) := Go(s, Start(p, job), now, refuses, n); q.pair == p && q.job == job && Owning(t, q)
  {
    hide *;
    if n == 0 {
      NoCall(s, Start(p, job), now, refuses);
      OwningStarts(s, p, job);
    } else {
      OwningGo(s, p, job, now, refuses, n - 1);
      GoStep(s, Start(p, job), now, refuses, n);
      var (t, q) := Go(s, Start(p, job), now, refuses, n - 1);
      StepKeepsAim(t, q, now, Refused(q, refuses));
      OwningStep(t, q, now, Refused(q, refuses));
    }
  }

  lemma OwningStarts(s: Store, p: Pair, job: Job)
    requires OwnRecords(s)
    ensures var q := Start(p, job); q.pair == p && q.job == job && Owning(s, q)
  {
    StartsAlone(s, p, job);
  }

  /** Only a cut inside a takeover leaves on a claim what is not its own choice's. */
  lemma ServedRecordsItsOwn(s: Store, c: Call)
    requires OwnRecords(s)
    ensures OwnRecords(Served(s, c).0) <==> !CutTaking(s, c)
  {
    OwningGo(s, c.pair, c.job, c.now, c.refuses, c.calls);
    var (t, q) := Served(s, c);
    hide Go, OwnWrote;
    if CutTaking(s, c) {
      assert !OwnClaim(c.pair, t.cands[c.pair]);
    }
  }

  lemma OwnRecordsDoNoHarm(s: Store, c: Call)
    requires OwnRecords(s) && c.pair.Wf()
    ensures !Harms(s, c)
  {
    hide Go;
    if Harms(s, c) {
      assert OwnClaim(c.pair, s.cands[c.pair]);
      OthersMark(s, c.pair, c.job.choice, RecordOf(s, c.pair));
    }
  }

  predicate NoneCutTaking(s: Store, calls: seq<Call>) {
    calls == []
    || (NoneCutTaking(s, calls[..|calls| - 1]) && !CutTaking(Serve(s, calls[..|calls| - 1]), calls[|calls| - 1]))
  }

  /**
   * Cut anywhere but inside a takeover, no sequence from records that are their own choices' leaves a loser unmarked.
   */
  lemma {:induction false} UncutTakeoversKeepLosersMarked(s: Store, calls: seq<Call>)
    requires Sound(s) && LosersMarked(s) && OwnRecords(s) && NoneCutTaking(s, calls)
    requires forall i :: 0 <= i < |calls| ==> calls[i].pair.Wf()
    ensures NoneHarms(s, calls) && AllMarked(s, calls) && OwnRecords(Serve(s, calls))
    decreases |calls|
  {
    SerialKeepsLosersMarked(s, calls);
    hide CutTaking, Harms, LosersMarked, Sound, OwnRecords, Served, AllMarked;
    if calls != [] {
      var init, last := calls[..|calls| - 1], calls[|calls| - 1];
      UncutTakeoversKeepLosersMarked(s, init);
      ServedRecordsItsOwn(Serve(s, init), last);
      OwnRecordsDoNoHarm(Serve(s, init), last);
    }
  }
}
