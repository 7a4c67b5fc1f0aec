/**
 * The routes' own code over the collections it updates in place: `resolveCandidate`, `undoClaim` and the two releases.
 * Any store call may fail, which ends the request where it stands. Each method's promise is that what it leaves is
 * what that many calls of `Step` leave, so every theorem about `Go` is about this code.
 */
module ContradictionSpace {

  import opened Maybe
  import opened ContradictionModel
  import opened ContradictionSerial

  /** How a request ended: its answer, or cut off by a failing store call. */
  datatype Outcome = Answered | Failed

  class Space {
    var cands: map<Pair, Cand>
    var links: set<Link>
    var records: set<Rec>
    var marks: set<Rec>

    // The request in flight: where it started, how many calls it has made, and what it then remembers.
    ghost var origin: Store
    ghost var first: Request
    ghost var clock: int
    ghost var schema: Link -> bool
    ghost var calls: nat
    ghost var r: Request

    ghost function Contents(): Store
      reads this
    {
      Store(cands, links, records, marks)
    }

    /** The collections and the request are what `calls` store calls made of the start. */
    ghost predicate Valid()
      reads this
    {
      (Contents(), r) == Go(origin, first, clock, schema, calls)
    }

    /** The same request is still in flight. */
    twostate predicate SameRun()
      reads this
    {
      origin == old(origin) && first == old(first) && clock == old(clock) && schema == old(schema)
      && r.pair == old(r.pair) && r.job == old(r.job)
    }

    constructor (cs: map<Pair, Cand>, ls: set<Link>, rs: set<Rec>, ms: set<Rec>)
      ensures Contents() == Store(cs, ls, rs, ms)
    {
      cands, links, records, marks := cs, ls, rs, ms;
    }

    ghost method Begin(q: Request, now: int, refuses: Link -> bool)
      modifies this`origin, this`first, this`clock, this`schema, this`calls, this`r
      ensures Valid() && Contents() == old(Contents()) && r == q && calls == 0
      ensures origin == old(Contents()) && first == q && clock == now && schema == refuses
    {
      origin, first, clock, schema, calls, r := Contents(), q, now, refuses, 0, q;
    }

    /** The call just made, counted: `s` is what the collections held before it. */
    ghost method Advance(s: Store)
      requires (s, r) == Go(origin, first, clock, schema, calls)
      requires Contents() == Step(s, r, clock, Refused(r, schema)).0
      modifies this`calls, this`r
      ensures Valid() && SameRun() && Contents() == old(Contents())
      ensures r == Step(s, old(r), clock, Refused(old(r), schema)).1 && calls == old(calls) + 1
    {
      StepKeepsAim(s, r, clock, Refused(r, schema));
      hide Step;
      calls, r := calls + 1, Step(s, r, clock, Refused(r, schema)).1;
    }

    /** Whether the next store call fails: the environment decides. */
    method Fails() returns (b: bool) { b := *; }

    // ---- The store calls ------------------------------------------------------------------------------------------

    method ReadEnds(p: Pair, ch: Choice) returns (snap: Snapshot)
      requires Valid() && r.pair == p && r.job == Resolve(ch) && (r.pc.ReadPair? || r.pc.Reread?)
      modifies this
      ensures Valid() && SameRun() && Contents() == old(Contents()) && snap == Read(Contents(), p, ch)
      ensures r == old(r).(snap := snap, pc := if old(r).pc.ReadPair? then TakeClaim else FindLink)
    {
      ghost var s := Contents();
      if ch.Superseded? {
        var loser := Rec(p.kind, LoserId(p, ch.winner));
        snap := Snapshot(Rec(p.kind, WinnerId(p, ch.winner)) in records, loser in records,
            loser in records && loser in marks);
      } else {
        snap := Snapshot(false, false, false);
      }
      Advance(s);
    }

    /** `findOneAndUpdate`: the candidate before the claim, or none when the claim is not this choice's to take. */
    method ClaimCandidate(p: Pair, ch: Choice, now: int) returns (before: Option<Cand>)
      requires Valid() && r.pair == p && r.job == Resolve(ch) && r.pc.TakeClaim? && clock == now
      modifies this
      ensures Valid() && SameRun()
      ensures before.Some? <==> Claimable(old(Contents()), p, ch, now)
      ensures before.Some? ==>
                && before.value == old(cands)[p]
                && Contents() == Claimed(old(Contents()), p, ch, now)
                && var c := before.value.claim;
                   var took := c.Some? && c.value.choice != ch;
                   var q := old(r).(tookOver := took, prior := if c.Some? then c.value.wrote else NOTHING);
                   r == q.(pc := if took then Undo(First, DeleteLink) else Effects(q))
      ensures before.None? ==> Contents() == old(Contents()) && r == old(r).(pc := Done)
    {
      ghost var s := Contents();
      before := None;
      if p in cands && cands[p].status != Resolved {
        var claim := cands[p].claim;
        if claim.None? || claim.value.choice == ch || !(claim.value.at >= now - STALE_MS) {
          before := Some(cands[p]);
          cands := cands[p := cands[p].(claim := Some(Claim(ch, now,
              if claim.Some? then claim.value.wrote else NOTHING)))];
        }
      }
      Advance(s);
    }

    /** One guarded update of the claim's record; false when the claim is no longer this choice's. */
    method UpdateClaim(p: Pair, ch: Choice, w: Wrote) returns (matched: bool)
      modifies this`cands
      ensures matched <==> SameClaim(old(Contents()), p, ch)
      ensures Contents() == if matched then SetWrote(old(Contents()), p, w) else old(Contents())
    {
      matched := p in cands && cands[p].claim.Some? && cands[p].claim.value.choice == ch;
      if matched {
        cands := cands[p := cands[p].(claim := Some(cands[p].claim.value.(wrote := w)))];
      }
    }

    method DeleteRecorded(p: Pair, w: Wrote, ph: Phase)
      requires Valid() && r.pair == p && r.pc == Undo(ph, DeleteLink) && Recorded(r, ph) == w
      modifies this
      ensures Valid() && SameRun() && r == old(r).(pc := Undo(ph, FindMark))
      ensures cands == old(cands) && records == old(records) && marks == old(marks)
    {
      ghost var s := Contents();
      if w.link.Some? { links := links - {w.link.value}; }
      Advance(s);
    }

    method MarkStands(p: Pair, w: Wrote, ph: Phase) returns (b: bool)
      requires Valid() && r.pair == p && r.pc == Undo(ph, FindMark) && Recorded(r, ph) == w
      modifies this
      ensures Valid() && SameRun() && Contents() == old(Contents()) && (b ==> w.mark.Some? && Retirable(p.kind))
      ensures r == old(r).(pc := if b then Undo(ph, FindLinkInto) else AfterUndo(ph))
    {
      b := w.mark.Some? && Retirable(p.kind) && Rec(p.kind, w.mark.value) in records
          && Rec(p.kind, w.mark.value) in marks;
      Advance(Contents());
    }

    method EdgeInto(p: Pair, w: Wrote, ph: Phase) returns (b: bool)
      requires Valid() && r.pair == p && r.pc == Undo(ph, FindLinkInto) && Recorded(r, ph) == w && w.mark.Some?
      requires Retirable(p.kind)
      modifies this
      ensures Valid() && SameRun() && Contents() == old(Contents())
      ensures r == old(r).(pc := if b then AfterUndo(ph) else Undo(ph, FindPairOn))
    {
      b := exists l :: l in links && l.to == w.mark.value && w.link != Some(l);
      Advance(Contents());
    }

    method PairDepends(p: Pair, w: Wrote, ph: Phase) returns (b: bool)
      requires Valid() && r.pair == p && r.pc == Undo(ph, FindPairOn) && Recorded(r, ph) == w && w.mark.Some?
      requires Retirable(p.kind)
      modifies this
      ensures Valid() && SameRun() && Contents() == old(Contents())
      ensures r == old(r).(pc := if b then AfterUndo(ph) else Undo(ph, LiftMark))
    {
      b := exists q :: q in cands && q != p && cands[q].status == Resolved && cands[q].loser == w.mark;
      Advance(Contents());
    }

    method Reinstate(p: Pair, w: Wrote, ph: Phase)
      requires Valid() && r.pair == p && r.pc == Undo(ph, LiftMark) && Recorded(r, ph) == w && w.mark.Some?
      modifies this
      ensures Valid() && SameRun() && r == old(r).(pc := AfterUndo(ph), lifted := old(r).lifted || ph == First)
      ensures cands == old(cands) && records == old(records) && links == old(links)
    {
      ghost var s := Contents();
      marks := marks - {Rec(p.kind, w.mark.value)};
      Advance(s);
    }

    /** `undoClaim`: delete the recorded edge, and lift the recorded mark unless another pair depends on it. */
    method UndoClaim(p: Pair, w: Wrote, ph: Phase) returns (end: Outcome, lifted: bool)
      requires Valid() && r.pair == p && r.pc == Undo(ph, DeleteLink) && Recorded(r, ph) == w
      modifies this
      ensures Valid() && SameRun() && cands == old(cands) && records == old(records)
      ensures end == Answered ==> r == old(r).(pc := AfterUndo(ph), lifted := old(r).lifted || (lifted && ph == First))
    {
      hide Step, UndoStep, Go;
      end, lifted := Failed, false;
      var failed := Fails();
      if failed { return; }
      DeleteRecorded(p, w, ph);
      failed := Fails();
      if failed { return; }
      var stands := MarkStands(p, w, ph);
      if stands {
        failed := Fails();
        if failed { return; }
        var kept := EdgeInto(p, w, ph);
        if !kept {
          failed := Fails();
          if failed { return; }
          kept := PairDepends(p, w, ph);
          if !kept {
            failed := Fails();
            if failed { return; }
            Reinstate(p, w, ph);
            lifted := true;
          }
        }
      }
      end := Answered;
    }

    method ClearRecord(p: Pair, ch: Choice) returns (matched: bool)
      requires Valid() && r.pair == p && r.job == Resolve(ch) && r.pc.DropRecord?
      modifies this
      ensures Valid() && SameRun()
      ensures r == old(r).(pc := if !matched then LostCheck else if old(r).lifted && ch.Superseded? then Reread
              else Effects(old(r)))
    {
      ghost var s := Contents();
      matched := UpdateClaim(p, ch, NOTHING);
      Advance(s);
    }

    /**
     * Whether the choice's edge is to be drawn: both ends exist, the kind can be linked, and it is not there already.
     */
    method FindEdge(p: Pair, ch: Choice, snap: Snapshot) returns (draw: bool)
      requires Valid() && r.pair == p && r.job == Resolve(ch) && r.pc.FindLink? && r.snap == snap
      modifies this
      ensures Valid() && SameRun() && Contents() == old(Contents())
      ensures draw ==> LinkOf(p, ch).Some?
      ensures r == old(r).(pc := if draw then RecordLink else MarkPc(old(r)))
    {
      draw := false;
      if snap.winner && snap.loser {
        var l := LinkOf(p, ch);
        if l.Some? { draw := l.value !in links; }
      }
      Advance(Contents());
    }

    /** `record({edgeId})`: the edge goes on the claim, under it, before it is drawn. */
    method RecordEdge(p: Pair, ch: Choice) returns (matched: bool)
      requires Valid() && r.pair == p && r.job == Resolve(ch) && r.pc.RecordLink?
      modifies this
      ensures Valid() && SameRun()
      ensures r == if matched then old(r).(mine := old(r).mine.(link := LinkOf(p, ch)), pc := DrawLink)
              else old(r).(pc := LostCheck)
    {
      ghost var s := Contents();
      matched := false;
      if p in cands && cands[p].claim.Some? {
        matched := UpdateClaim(p, ch, cands[p].claim.value.wrote.(link := LinkOf(p, ch)));
      }
      Advance(s);
    }

    /** `upsertEdge`: drawn, or refused by the space's edge schema. */
    method UpsertEdge(p: Pair, ch: Choice, refuses: Link -> bool) returns (drawn: bool)
      requires Valid() && r.pair == p && r.job == Resolve(ch) && r.pc.DrawLink? && LinkOf(p, ch).Some?
      requires schema == refuses
      modifies this
      ensures Valid() && SameRun() && r == old(r).(pc := if drawn then MarkPc(old(r)) else UnrecordLink)
    {
      ghost var s := Contents();
      drawn := !refuses(LinkOf(p, ch).value);
      if drawn { links := links + {LinkOf(p, ch).value}; }
      Advance(s);
    }

    method UnrecordEdge(p: Pair, ch: Choice)
      requires Valid() && r.pair == p && r.job == Resolve(ch) && r.pc.UnrecordLink?
      modifies this
      ensures Valid() && SameRun() && r == old(r).(mine := old(r).mine.(link := None), pc := MarkPc(old(r)))
    {
      ghost var s := Contents();
      if p in cands && cands[p].claim.Some? {
        var matched := UpdateClaim(p, ch, cands[p].claim.value.wrote.(link := None));
      }
      Advance(s);
    }

    /** `record({markedId})`. */
    method RecordLoser(p: Pair, ch: Choice) returns (matched: bool)
      requires Valid() && r.pair == p && r.job == Resolve(ch) && r.pc.RecordMark?
      modifies this
      ensures Valid() && SameRun()
      ensures r == if matched then old(r).(mine := old(r).mine.(mark := LoserOf(p, ch)), pc := Retire)
              else old(r).(pc := LostCheck)
    {
      ghost var s := Contents();
      matched := false;
      if p in cands && cands[p].claim.Some? {
        matched := UpdateClaim(p, ch, cands[p].claim.value.wrote.(mark := LoserOf(p, ch)));
      }
      Advance(s);
    }

    /** `retireRecord`: the mark, when the record is still there. */
    method RetireRecord(p: Pair, ch: Choice)
      requires Valid() && r.pair == p && r.job == Resolve(ch) && r.pc.Retire? && ch.Superseded?
      modifies this
      ensures Valid() && SameRun() && r == old(r).(pc := Finish(old(r)))
    {
      ghost var s := Contents();
      var loser := Rec(p.kind, LoserId(p, ch.winner));
      if loser in records { marks := marks + {loser}; }
      Advance(s);
    }

    /** Close under the claim, or again under the same choice's close. */
    method CloseCandidate(p: Pair, ch: Choice) returns (matched: bool)
      requires Valid() && r.pair == p && r.job == Resolve(ch) && r.pc.Close?
      modifies this
      ensures Valid() && SameRun() && r == old(r).(pc := if matched then Done else LostCheck)
    {
      ghost var s := Contents();
      matched := p in cands && ((cands[p].claim.Some? && cands[p].claim.value.choice == ch) || IsClosedBy(p, ch));
      if matched {
        cands := cands[p := Cand(Resolved, Some(ResolutionOf(ch)),
            if ch.Superseded? then LoserOf(p, ch) else cands[p].loser, None)];
      }
      Advance(s);
    }

    predicate IsClosedBy(p: Pair, ch: Choice)
      requires p in cands
      reads this
    {
      cands[p].status == Resolved && cands[p].resolution == Some(ResolutionOf(ch)) && cands[p].loser == LoserOf(p, ch)
    }

    method FindClosed(p: Pair, ch: Choice) returns (same: bool)
      requires Valid() && r.pair == p && r.job == Resolve(ch) && r.pc.LostCheck?
      modifies this
      ensures Valid() && SameRun() && r == old(r).(pc := if same then Done else Undo(Own, DeleteLink))
    {
      same := p in cands && IsClosedBy(p, ch);
      Advance(Contents());
    }

    // ---- The requests ----------------------------------------------------------------------------------------------

    /** A resolve that found its claim gone: answered from a close by its own choice, or it takes back what it wrote. */
    method LoseClaim(p: Pair, ch: Choice, mine: Wrote) returns (end: Outcome)
      requires Valid() && r.pair == p && r.job == Resolve(ch) && r.pc.LostCheck? && r.mine == mine
      modifies this
      ensures Valid() && SameRun() && (end == Answered ==> r.pc.Done?)
    {
      hide Step, Go;
      end := Failed;
      var failed := Fails();
      if failed { return; }
      var same := FindClosed(p, ch);
      if same { return Answered; }
      var lifted;
      end, lifted := UndoClaim(p, mine, Own);
    }

    /**
     * Step 2b: undo what another choice's stale claim recorded, and drop its record. `lost` says the claim went
     * meanwhile.
     */
    method TakeOver(p: Pair, ch: Choice, prior: Wrote, snap: Snapshot) returns (end: Outcome, lost: bool, now: Snapshot)
      requires Valid() && r.pair == p && r.job == Resolve(ch) && r.pc == Undo(First, DeleteLink) && r.prior == prior
      requires r.snap == snap
      requires !r.lifted && r.tookOver
      modifies this
      ensures Valid() && SameRun()
      ensures end == Answered ==> r.mine == old(r).mine && r.tookOver && r.prior == prior && r.snap == now
      ensures end == Answered ==> r.pc == if lost then LostCheck else if ch.Superseded? then FindLink else Finish(r)
    {
      hide Step, Go;
      lost, now := false, snap;
      var lifted;
      end, lifted := UndoClaim(p, prior, First);
      if end == Failed { return; }
      end := Failed;
      var failed := Fails();
      if failed { return; }
      var matched := ClearRecord(p, ch);
      if !matched { return Answered, true, snap; }
      if ch.Superseded? && lifted {
        failed := Fails();
        if failed { return; }
        now := ReadEnds(p, ch);
      }
      end := Answered;
    }

    /** Step 3: the edge. */
    method DrawEdge(p: Pair, ch: Choice, snap: Snapshot, refuses: Link -> bool, mine0: Wrote) returns (end: Outcome,
        lost: bool, mine: Wrote)
      requires Valid() && r.pair == p && r.job == Resolve(ch) && r.pc.FindLink? && r.snap == snap && r.mine == mine0
      requires schema == refuses
      modifies this
      ensures Valid() && SameRun()
      ensures end == Answered ==> r == old(r).(mine := mine, pc := if lost then LostCheck else MarkPc(old(r)))
    {
      hide Step, Go;
      end, lost, mine := Failed, false, mine0;
      var failed := Fails();
      if failed { return; }
      var draw := FindEdge(p, ch, snap);
      if draw {
        failed := Fails();
        if failed { return; }
        var matched := RecordEdge(p, ch);
        if !matched { return Answered, true, mine; }
        mine := mine.(link := LinkOf(p, ch));
        failed := Fails();
        if failed { return; }
        var drawn := UpsertEdge(p, ch, refuses);
        if !drawn {
          failed := Fails();
          if failed { return; }
          UnrecordEdge(p, ch);
          mine := mine.(link := None);
        }
      }
      end := Answered;
    }

    /** Step 4: the mark, when the loser exists, its kind carries one, and it was not marked already. */
    method MarkLoser(p: Pair, ch: Choice, snap: Snapshot, mine0: Wrote) returns (end: Outcome, lost: bool, mine: Wrote)
      requires Valid() && r.pair == p && r.job == Resolve(ch) && ch.Superseded? && r.pc == MarkPc(r) && r.snap == snap
      requires r.mine == mine0
      modifies this
      ensures Valid() && SameRun()
      ensures end == Answered ==> r == old(r).(mine := mine, pc := if lost then LostCheck else Finish(old(r)))
    {
      hide Step, Go;
      end, lost, mine := Failed, false, mine0;
      if snap.loser && Retirable(p.kind) && !snap.marked {
        var failed := Fails();
        if failed { return; }
        var matched := RecordLoser(p, ch);
        if !matched { return Answered, true, mine; }
        mine := mine.(mark := LoserOf(p, ch));
        failed := Fails();
        if failed { return; }
        RetireRecord(p, ch);
      }
      end := Answered;
    }

    /**
     * `resolveCandidate`: claim, undo what a stale claim wrote, draw the edge, mark the loser, undo once more, close.
     * What it leaves is what `calls` store calls of the request leave, and an answer means the request is done.
     */
    method ResolveCandidate(p: Pair, ch: Choice, now: int, refuses: Link -> bool) returns (end: Outcome)
      modifies this
      ensures (Contents(), r) == Go(old(Contents()), Start(p, Resolve(ch)), now, refuses, calls)
      ensures end == Answered ==> r.pc.Done?
    {
      Begin(Start(p, Resolve(ch)), now, refuses);
      hide Step, Go, UndoStep;
      end := Failed;
      var failed := Fails();
      if failed { return; }
      var snap := ReadEnds(p, ch);
      failed := Fails();
      if failed { return; }
      var before := ClaimCandidate(p, ch, now);
      if before.None? { return Answered; }
      var mine, lost := NOTHING, false;
      var prior := before.value.claim;
      var tookOver := prior.Some? && prior.value.choice != ch;
      if tookOver {
        end, lost, snap := TakeOver(p, ch, prior.value.wrote, snap);
        if end == Failed { return; }
      }
      if !lost && ch.Superseded? {
        end, lost, mine := DrawEdge(p, ch, snap, refuses, mine);
        if end == Failed { return; }
        if !lost {
          end, lost, mine := MarkLoser(p, ch, snap, mine);
          if end == Failed { return; }
        }
      }
      end := Failed;
      if !lost {
        if tookOver {
          var lifted;
          end, lifted := UndoClaim(p, prior.value.wrote, Second);
          if end == Failed { return; }
          end := Failed;
        }
        failed := Fails();
        if failed { return; }
        var closed := CloseCandidate(p, ch);
        if closed { return Answered; }
      }
      end := LoseClaim(p, ch, mine);
    }

    /** A dismiss or reopen: the guarded update takes the claim off first, then what it recorded is undone. */
    method Release(p: Pair, job: Job, now: int, refuses: Link -> bool) returns (end: Outcome)
      requires !job.Resolve?
      modifies this
      ensures (Contents(), r) == Go(old(Contents()), Start(p, job), now, refuses, calls)
      ensures end == Answered ==> r.pc.Done?
    {
      Begin(Start(p, job), now, refuses);
      hide Go;
      end := Failed;
      var failed := Fails();
      if failed { return; }
      ghost var s := Contents();
      if p in cands && (if job.Dismiss? then cands[p].status != Resolved else cands[p].status == Dismissed) {
        var claim := cands[p].claim;
        cands := cands[p := cands[p].(status := if job.Dismiss? then Dismissed else Open, claim := None)];
        Advance(s);
        hide Step, UndoStep;
        if claim.Some? {
          var lifted;
          end, lifted := UndoClaim(p, claim.value.wrote, Phase.Release);
          return;
        }
      } else {
        Advance(s);
      }
      end := Answered;
    }
  }
}
