/**
 * A dismiss or reopen served alone: what it comes to, what each cut leaves, and when repeating it does not help. Its
 * one guarded update takes the claim off first, so a repeat finds no claim and undoes nothing.
 */
module ContradictionRelease {

  import opened Maybe
  import opened ContradictionModel
  import opened ContradictionRuns
  import opened ContradictionSerial
  import opened ContradictionRetry
  import opened ContradictionTakeover

  /** The guarded update of a dismiss or reopen matches. */
  predicate Releases(s: Store, p: Pair, job: Job) {
    && p in s.cands && !job.Resolve?
    && (if job.Dismiss? then s.cands[p].status != Resolved else s.cands[p].status == Dismissed)
  }

  /** Its candidate, and nothing else, after that update. */
  function Released(s: Store, p: Pair, job: Job): Store
    requires p in s.cands
  {
    SetCand(s, p, s.cands[p].(status := if job.Dismiss? then Dismissed else Open, claim := None))
  }

  function StageNo(st: Stage): nat { 4 - StageRank(st) }

  /** After `n` calls: the update is the first, the edge goes with the second, and the mark with the sixth. */
  ghost function ReleaseCut(s: Store, p: Pair, job: Job, n: nat): Store
    requires p in s.cands
  {
    if n == 0 then s
    else
      var w := RecordOf(s, p);
      Released(s, p, job).(links := if n < 2 then s.links else Less(s.links, w),
          marks := if n < 6 then s.marks else Lifted(s, p, w))
  }

  ghost predicate Undoing(s: Store, t: Store, q: Request, p: Pair, job: Job, n: nat) {
    && p in s.cands && q.pair == p && q.job == job && t == ReleaseCut(s, p, job, n)
    && (if n == 0 then q.pc.ReleaseClaim?
        else if q.pc.Undo? then
          && q.pc.phase.Release? && StageNo(q.pc.stage) == n - 1 && q.prior == RecordOf(s, p)
          && UndoneTo(s, t, p, q.prior, q.pc.stage)
        else q.pc.Done? && Holds(t, Less(s.links, RecordOf(s, p)), Lifted(s, p, RecordOf(s, p))))
  }

  lemma UndoingStarts(s: Store, p: Pair, job: Job, now: int, refused: bool)
    requires Releases(s, p, job)
    ensures var (t, q) := Step(s, Start(p, job), now, refused); Undoing(s, t, q, p, job, 1)
  {
  }

  lemma UndoingGoesOn(s: Store, t: Store, q: Request, p: Pair, job: Job, n: nat, now: int, refused: bool)
    requires Releases(s, p, job) && Undoing(s, t, q, p, job, n) && n > 0
    ensures var (t', q') := Step(t, q, now, refused); Undoing(s, t', q', p, job, n + 1)
  {
    if q.pc.Undo? {
      forall m ensures PairOn(t, m, p) <==> PairOn(s, m, p) {
        PairOnStays(s, t, p, m);
      }
      UndoGetsOn(s, t, q);
      hide UndoStep, PairOn, MayLift;
    }
  }

  lemma {:induction false} ReleaseGoes(s: Store, p: Pair, job: Job, now: int, refuses: Link -> bool, n: nat)
    requires Releases(s, p, job)
    ensures var (t, q) := Go(s, Start(p, job), now, refuses, n); Undoing(s, t, q, p, job, n)
  {
    if n == 0 {
    } else {
      ReleaseGoes(s, p, job, now, refuses, n - 1);
      var (t, q) := Go(s, Start(p, job), now, refuses, n - 1);
      GoStep(s, Start(p, job), now, refuses, n);
      hide Step, Undoing;
      if n == 1 {
        NoCall(s, Start(p, job), now, refuses);
        UndoingStarts(s, p, job, now, Refused(q, refuses));
      } else {
        UndoingGoesOn(s, t, q, p, job, n - 1, now, Refused(q, refuses));
      }
    }
  }

  /** One dismiss or reopen that is not cut off. */
  function SettleRelease(s: Store, p: Pair, job: Job, refuses: Link -> bool, now: int): Store {
    Go(s, Start(p, job), now, refuses, WHOLE).0
  }

  /**
   * A dismiss or reopen that is not cut off ends with its candidate dismissed or open and unclaimed, and what the claim
   * had recorded undone exactly; where its guard fails it changes nothing.
   */
  lemma ReleaseEnds(s: Store, p: Pair, job: Job, refuses: Link -> bool, now: int)
    requires !job.Resolve?
    ensures SettleRelease(s, p, job, refuses, now)
            == if Releases(s, p, job) then Undone(Released(s, p, job), p, RecordOf(s, p)) else s
  {
    if Releases(s, p, job) {
      ReleaseGoes(s, p, job, now, refuses, WHOLE);
      ReleasedReads(s, p, job);
    } else {
      Unmatched(s, p, job, now, refuses, WHOLE);
    }
  }

  lemma ReleasedReads(s: Store, p: Pair, job: Job)
    requires Releases(s, p, job)
    ensures Liftable(Released(s, p, job), p, RecordOf(s, p)) <==> Liftable(s, p, RecordOf(s, p))
  {
    if RecordOf(s, p).mark.Some? {
      PairOnStays(s, Released(s, p, job), p, RecordOf(s, p).mark.value);
      hide PairOn;
    }
  }

  lemma {:induction false} Unmatched(s: Store, p: Pair, job: Job, now: int, refuses: Link -> bool, n: nat)
    requires !job.Resolve? && !Releases(s, p, job)
    ensures var (t, q) := Go(s, Start(p, job), now, refuses, n);
            t == s && q.pair == p && q.job == job && (q.pc.ReleaseClaim? || q.pc.Done?)
  {
    if n == 0 {
    } else {
      Unmatched(s, p, job, now, refuses, n - 1);
    }
  }

  /** A release cut after its update: the repeat changes nothing, so whatever that left standing stays. */
  lemma RepeatDoesNothing(s: Store, p: Pair, job: Job, refuses: Link -> bool, now: int, n: nat, again: int)
    requires Releases(s, p, job) && n > 0
    ensures var t := Go(s, Start(p, job), now, refuses, n).0;
            t == ReleaseCut(s, p, job, n) && SettleRelease(t, p, job, refuses, again) == t
  {
    ReleaseGoes(s, p, job, now, refuses, n);
    var t := Go(s, Start(p, job), now, refuses, n).0;
    hide Go, Less, Lifted;
    ReleaseEnds(t, p, job, refuses, again);
    if Releases(t, p, job) {
      assert RecordOf(t, p) == NOTHING;
      assert Released(t, p, job).cands == t.cands;
      NothingUndone(t, p);
    }
  }

  lemma NothingUndone(t: Store, p: Pair)
    ensures Less(t.links, NOTHING) == t.links && Lifted(t, p, NOTHING) == t.marks
  {
  }

  /** What a cut after `n` calls and a repeat come to. */
  ghost function CutAndRepeated(s: Store, p: Pair, job: Job, n: nat): Store
    requires p in s.cands
  {
    if n == 0 then Undone(Released(s, p, job), p, RecordOf(s, p)) else ReleaseCut(s, p, job, n)
  }

  lemma CutAndRepeatedIs(s: Store, p: Pair, job: Job, refuses: Link -> bool, now: int, n: nat)
    requires Releases(s, p, job)
    ensures SettleRelease(Go(s, Start(p, job), now, refuses, n).0, p, job, refuses, now) == CutAndRepeated(s, p, job, n)
  {
    hide Go;
    if n == 0 {
      NoCall(s, Start(p, job), now, refuses);
      ReleaseEnds(s, p, job, refuses, now);
    } else {
      RepeatDoesNothing(s, p, job, refuses, now, n, now);
    }
  }

  lemma FirstCutDiffers(s: Store, p: Pair, job: Job)
    requires Releases(s, p, job)
    ensures CutAndRepeated(s, p, job, 1) == CutAndRepeated(s, p, job, 0) <==> !UndoesSomething(s, p, RecordOf(s, p))
    ensures !UndoesSomething(s, p, RecordOf(s, p))
            ==> forall n: nat :: CutAndRepeated(s, p, job, n) == CutAndRepeated(s, p, job, 0)
  {
    ReleasedReads(s, p, job);
    UndoesNothing(s, p, RecordOf(s, p));
    hide Liftable, UndoesSomething;
  }

  /**
   * A dismiss or reopen cut off and repeated ends where an uncut one does, wherever it was cut, if and only if the
   * claim it released had recorded nothing an undo would take. Where it had, the edge is orphaned by a cut after the
   * first call, and the mark by a cut after any of the first five.
   */
  lemma CutReleaseOrphans(s: Store, p: Pair, job: Job, refuses: Link -> bool, now: int)
    requires Releases(s, p, job)
    ensures (forall n: nat :: SettleRelease(Go(s, Start(p, job), now, refuses, n).0, p, job, refuses, now)
                              == SettleRelease(s, p, job, refuses, now))
            <==> !UndoesSomething(s, p, RecordOf(s, p))
    ensures forall n: nat ::
              (var w, t := RecordOf(s, p), SettleRelease(Go(s, Start(p, job), now, refuses, n).0, p, job, refuses, now);
               && (w.link.Some? && w.link.value in s.links ==> (w.link.value in t.links <==> n == 1))
               && (Liftable(s, p, w) ==> (Rec(p.kind, w.mark.value) in t.marks <==> 1 <= n <= 5)))
  {
    FirstCutDiffers(s, p, job);
    forall n: nat
      ensures SettleRelease(Go(s, Start(p, job), now, refuses, n).0, p, job, refuses, now)
              == CutAndRepeated(s, p, job, n)
    {
      CutAndRepeatedIs(s, p, job, refuses, now, n);
    }
    ReleaseEnds(s, p, job, refuses, now);
    ReleasedReads(s, p, job);
    LiftableHas(s, p, RecordOf(s, p));
    hide Go, Released, Liftable, UndoesSomething;
    assert SettleRelease(Go(s, Start(p, job), now, refuses, 1).0, p, job, refuses, now) == CutAndRepeated(s, p, job, 1);
  }

  lemma LiftableHas(s: Store, p: Pair, w: Wrote)
    ensures Liftable(s, p, w) ==> w.mark.Some? && Rec(p.kind, w.mark.value) in s.marks
  {
  }
}
