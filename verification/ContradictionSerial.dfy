/**
 * Requests served one at a time, any of them cut off by a store failure after any number of its calls: what a
 * sequence of them keeps.
 */
module ContradictionSerial {

  import opened Maybe
  import opened ContradictionModel
  import opened ContradictionRuns

  /** `n` store calls of one request with nothing in between; `refuses` is the edge schema. */
  function Go(s: Store, r: Request, now: int, refuses: Link -> bool, n: nat): (Store, Request) {
    if n == 0 then (s, r)
    else
      var (t, q) := Go(s, r, now, refuses, n - 1);
      Step(t, q, now, Refused(q, refuses))
  }

  predicate Refused(r: Request, refuses: Link -> bool) {
    r.job.Resolve? && LinkOf(r.pair, r.job.choice).Some? && refuses(LinkOf(r.pair, r.job.choice).value)
  }

  function StageRank(st: Stage): nat {
    match st case DeleteLink => 4 case FindMark => 3 case FindLinkInto => 2 case FindPairOn => 1 case LiftMark => 0
  }

  /** How many calls a request has left at most. */
  function Rank(pc: Pc): nat {
    match pc
    case ReadPair => 32
    case TakeClaim => 31
    case Undo(First, st) => 26 + StageRank(st)
    case DropRecord => 25
    case Reread => 24
    case FindLink => 23
    case RecordLink => 22
    case DrawLink => 21
    case UnrecordLink => 20
    case RecordMark => 19
    case Retire => 18
    case Undo(Second, st) => 13 + StageRank(st)
    case Close => 12
    case LostCheck => 11
    case Undo(Own, st) => 6 + StageRank(st)
    case ReleaseClaim => 6
    case Undo(Release, st) => 1 + StageRank(st)
    case Done => 0
  }

  /** More calls than any request makes. */
  const WHOLE: nat := 32

  lemma UndoLowersRank(s: Store, r: Request)
    requires r.pc.Undo?
    ensures Rank(UndoStep(s, r, r.pc.phase, r.pc.stage).1.pc) < Rank(r.pc)
  {
  }

  lemma ResolveLowersRank(s: Store, r: Request, now: int, refused: bool)
    requires r.job.Resolve? && !r.pc.Undo? && !r.pc.Done?
    ensures Rank(ResolveStep(s, r, r.job.choice, now, refused).1.pc) < Rank(r.pc)
  {
  }

  lemma StepLowersRank(s: Store, r: Request, now: int, refused: bool)
    ensures r.pc.Done? ==> Step(s, r, now, refused) == (s, r)
    ensures !r.pc.Done? ==> Rank(Step(s, r, now, refused).1.pc) < Rank(r.pc)
  {
    if r.pc.Undo? {
      hide UndoStep;
      UndoLowersRank(s, r);
    } else if r.job.Resolve? && !r.pc.Done? {
      hide ResolveStep;
      ResolveLowersRank(s, r, now, refused);
    }
  }

  /** A request that is not cut off ends. */
  lemma {:induction false} WholeIsDone(s: Store, r: Request, now: int, refuses: Link -> bool, n: nat)
    ensures Rank(Go(s, r, now, refuses, n).1.pc) <= if n <= Rank(r.pc) then Rank(r.pc) - n else 0
    ensures n >= Rank(r.pc) ==> Go(s, r, now, refuses, n).1.pc.Done?
  {
    hide *;
    if n == 0 {
      NoCall(s, r, now, refuses);
    } else {
      WholeIsDone(s, r, now, refuses, n - 1);
      GoStep(s, r, now, refuses, n);
      var (t, q) := Go(s, r, now, refuses, n - 1);
      StepLowersRank(t, q, now, Refused(q, refuses));
      RankZero(q.pc);
    }
    RankZero(Go(s, r, now, refuses, n).1.pc);
  }

  lemma NoCall(s: Store, r: Request, now: int, refuses: Link -> bool)
    ensures Go(s, r, now, refuses, 0) == (s, r)
  {
  }

  lemma RankZero(pc: Pc)
    ensures Rank(pc) == 0 <==> pc.Done?
  {
  }

  lemma GoStep(s: Store, r: Request, now: int, refuses: Link -> bool, n: nat)
    requires n > 0
    ensures Go(s, r, now, refuses, n)
            == var (t, q) := Go(s, r, now, refuses, n - 1); Step(t, q, now, Refused(q, refuses))
  {
    hide Step;
  }

  // ---- Sequences of requests ------------------------------------------------------------------------------------

  /** One request and how many of its store calls succeed before it is cut off. */
  datatype Call = Call(pair: Pair, job: Job, now: int, refuses: Link -> bool, calls: nat)

  function Served(s: Store, c: Call): (Store, Request) { Go(s, Start(c.pair, c.job), c.now, c.refuses, c.calls) }

  function Serve(s: Store, calls: seq<Call>): Store {
    if calls == [] then s else Served(Serve(s, calls[..|calls| - 1]), calls[|calls| - 1]).0
  }

  lemma StepKeepsAim(s: Store, r: Request, now: int, refused: bool)
    ensures var q := Step(s, r, now, refused).1; q.job == r.job && q.pair == r.pair
  {
  }

  // ---- A request served alone --------------------------------------------------------------------------------------

  /** What each read of a pair found, while it is still so. */
  predicate SnapOk(s: Store, p: Pair, ch: Choice, snap: Snapshot) {
    if ch.Superseded? then
      && snap.winner == (Rec(p.kind, WinnerId(p, ch.winner)) in s.records)
      && snap.loser == (Rec(p.kind, LoserId(p, ch.winner)) in s.records)
      && (snap.marked ==> Rec(p.kind, LoserId(p, ch.winner)) in s.marks)
    else snap == Snapshot(false, false, false)
  }

  predicate Superseding(pc: Pc) {
    pc.Reread? || pc.FindLink? || pc.RecordLink? || pc.DrawLink? || pc.UnrecordLink? || pc.RecordMark? || pc.Retire?
  }

  /**
   * With nothing in between, a request keeps the claim it took until it closes, and a release finds its candidate
   * unresolved.
   */
  predicate Alone(t: Store, q: Request) {
    if q.job.Resolve? then
      && (q.pc.ReadPair? || q.pc.TakeClaim? || q.pc.Done? || SameClaim(t, q.pair, q.job.choice))
      && (q.pc.Undo? || q.pc.DropRecord? ==> q.tookOver)
      && (q.pc.Undo? ==> q.pc.phase.First? || q.pc.phase.Second?)
      && !q.pc.LostCheck? && !q.pc.ReleaseClaim?
    else
      && (q.pc.ReleaseClaim? || q.pc.Done? || (q.pc.Undo? && q.pc.phase.Release?))
      && (q.pc.Undo? ==> q.pair in t.cands && t.cands[q.pair].status != Resolved)
  }

  lemma AloneStep(t: Store, q: Request, now: int, refused: bool)
    requires Alone(t, q)
    ensures var (t', q') := Step(t, q, now, refused); Alone(t', q')
  {
    if q.pc.Undo? {
      assert UndoStep(t, q, q.pc.phase, q.pc.stage).0.cands == t.cands;
    } else if q.job.Resolve? {
      hide Step, SetWrote;
      AloneResolveStep(t, q, now, refused);
    }
  }

  lemma AloneResolveStep(t: Store, q: Request, now: int, refused: bool)
    requires Alone(t, q) && q.job.Resolve? && !q.pc.Undo?
    ensures var (t', q') := ResolveStep(t, q, q.job.choice, now, refused); Alone(t', q')
  {
  }

  lemma {:induction false} GoAlone(s: Store, p: Pair, job: Job, now: int, refuses: Link -> bool, n: nat)
    ensures var (t, q) := Go(s, Start(p, job), now, refuses, n); q.job == job && q.pair == p && Alone(t, q)
  {
    hide *;
    if n == 0 {
      NoCall(s, Start(p, job), now, refuses);
      StartsAlone(s, p, job);
    } else {
      GoAlone(s, p, job, now, refuses, n - 1);
      GoStep(s, Start(p, job), now, refuses, n);
      var (t, q) := Go(s, Start(p, job), now, refuses, n - 1);
      StepKeepsAim(t, q, now, Refused(q, refuses));
      AloneStep(t, q, now, Refused(q, refuses));
    }
  }

  lemma StartsAlone(s: Store, p: Pair, job: Job)
    ensures var q := Start(p, job); q.job == job && q.pair == p && Alone(s, q)
  {
  }

  // ---- An undo takes back only what a claim recorded ---------------------------------------------------------------

  /** What the pair's claim has recorded. */
  function RecordOf(s: Store, p: Pair): Wrote {
    if p in s.cands && s.cands[p].claim.Some? then s.cands[p].claim.value.wrote else NOTHING
  }

  ghost predicate TookOnly(s: Store, t: Store, q: Request) {
    var w := RecordOf(s, q.pair);
    && (forall l :: l in s.links && l !in t.links ==> w.link == Some(l))
    && (forall m :: m in s.marks && m !in t.marks ==> m.kind == q.pair.kind && w.mark == Some(m.id))
    && PriorIs(t, q, w)
  }

  /** Outside an undo no edge and no mark goes. */
  lemma OnlyUndoTakes(s: Store, r: Request, now: int, refused: bool)
    requires !r.pc.Undo?
    ensures var t := Step(s, r, now, refused).0; s.links <= t.links && s.marks <= t.marks && t.records == s.records
  {
  }

  /** The record a request undoes: read off the claim it takes over or releases, never changed after. */
  ghost predicate PriorIs(t: Store, q: Request, w: Wrote) {
    && (q.pc.ReadPair? || q.pc.TakeClaim? || q.pc.ReleaseClaim? ==> RecordOf(t, q.pair) == w)
    && (q.tookOver || (q.pc.Undo? && !q.pc.phase.Own?) ==> q.prior == w)
    && (q.pc.Undo? && q.pc.phase.First? ==> q.tookOver)
  }

  lemma ResolvePriorStays(t: Store, q: Request, now: int, refused: bool, w: Wrote)
    requires PriorIs(t, q, w) && q.job.Resolve? && !q.pc.Undo?
    ensures var (t', q') := ResolveStep(t, q, q.job.choice, now, refused); PriorIs(t', q', w)
  {
    var (t', q') := ResolveStep(t, q, q.job.choice, now, refused);
    if q.pc.TakeClaim? {
      ClaimReadsPrior(t, q, now, refused);
    } else {
      PriorUntouched(t, q, now, refused);
      hide ResolveStep, RecordOf;
    }
  }

  lemma ClaimReadsPrior(t: Store, q: Request, now: int, refused: bool)
    requires q.job.Resolve? && q.pc.TakeClaim?
    ensures var q' := ResolveStep(t, q, q.job.choice, now, refused).1;
            && !q'.pc.ReadPair? && !q'.pc.TakeClaim? && !q'.pc.ReleaseClaim?
            && ((q'.pc.Done? && q'.prior == q.prior && q'.tookOver == q.tookOver) || q'.prior == RecordOf(t, q.pair))
            && (q'.pc.Undo? ==> q'.tookOver && q'.pc.phase.First?)
  {
  }

  lemma PriorUntouched(t: Store, q: Request, now: int, refused: bool)
    requires q.job.Resolve? && !q.pc.Undo? && !q.pc.TakeClaim?
    ensures var (t', q') := ResolveStep(t, q, q.job.choice, now, refused);
            && q'.prior == q.prior && q'.tookOver == q.tookOver && q'.pair == q.pair
            && !q'.pc.ReadPair? && !q'.pc.ReleaseClaim? && (q'.pc.TakeClaim? ==> q.pc.ReadPair? && t' == t)
            && (q'.pc.Undo? ==> q'.pc.phase.Own? || (q'.pc.phase.Second? && q.tookOver))
  {
  }

  lemma UndoPriorStays(t: Store, q: Request, w: Wrote)
    requires PriorIs(t, q, w) && q.pc.Undo?
    ensures var (t', q') := UndoStep(t, q, q.pc.phase, q.pc.stage); PriorIs(t', q', w)
  {
  }

  lemma PriorStays(t: Store, q: Request, now: int, refused: bool, w: Wrote)
    requires PriorIs(t, q, w)
    ensures var (t', q') := Step(t, q, now, refused); PriorIs(t', q', w)
  {
    if q.pc.Undo? {
      hide UndoStep;
      UndoPriorStays(t, q, w);
    } else if q.job.Resolve? {
      hide ResolveStep;
      ResolvePriorStays(t, q, now, refused, w);
    }
  }

  lemma TookOnlyStep(s: Store, t: Store, q: Request, now: int, refused: bool)
    requires TookOnly(s, t, q) && Alone(t, q)
    ensures var (t', q') := Step(t, q, now, refused); TookOnly(s, t', q')
  {
    StepKeepsAim(t, q, now, refused);
    PriorStays(t, q, now, refused, RecordOf(s, q.pair));
    if !q.pc.Undo? {
      hide Step;
      OnlyUndoTakes(t, q, now, refused);
    }
  }

  /**
   * A request served alone, cut off anywhere, deletes no edge and lifts no mark but the ones the pair's claim had
   * recorded when the request arrived.
   */
  lemma {:induction false} UndoTakesOnlyTheRecorded(s: Store, p: Pair, job: Job, now: int, refuses: Link -> bool,
      n: nat)
    ensures var (t, q) := Go(s, Start(p, job), now, refuses, n); TookOnly(s, t, q) && q.pair == p
  {
    hide *;
    if n == 0 {
      TookNothingYet(s, p, job, now, refuses);
    } else {
      UndoTakesOnlyTheRecorded(s, p, job, now, refuses, n - 1);
      GoAlone(s, p, job, now, refuses, n - 1);
      var (t, q) := Go(s, Start(p, job), now, refuses, n - 1);
      GoStep(s, Start(p, job), now, refuses, n);
      StepKeepsAim(t, q, now, Refused(q, refuses));
      TookOnlyStep(s, t, q, now, Refused(q, refuses));
    }
  }

  lemma TookNothingYet(s: Store, p: Pair, job: Job, now: int, refuses: Link -> bool)
    ensures var (t, q) := Go(s, Start(p, job), now, refuses, 0); TookOnly(s, t, q) && q.pair == p
  {
  }

  // ---- A claim records only what is new ----------------------------------------------------------------------------

  /** The edge from the record that won to the one that lost. */
  function Drawn(p: Pair, winner: Side): Link { if winner == A then Link(p.kind, p.a, p.b) else Link(p.kind, p.b, p.a) }

  function Lost(p: Pair, winner: Side): nat { if winner == A then p.b else p.a }

  /** What was read of the pair is so. */
  predicate Exact(t: Store, p: Pair, ch: Choice, snap: Snapshot) {
    ch.Superseded? ==>
      var winner, loser := Rec(p.kind, if ch.winner == A then p.a else p.b), Rec(p.kind, Lost(p, ch.winner));
      && snap.winner == (winner in t.records) && snap.loser == (loser in t.records)
      && snap.marked == (loser in t.records && loser in t.marks)
  }

  /** An edge about to be recorded is not there yet, and a record about to be marked carries no mark. */
  ghost predicate OnlyNew(t: Store, q: Request, ch: Choice) {
    && (q.pc.RecordLink? ==>
          && ch.Superseded? && Drawn(q.pair, ch.winner) !in t.links
          && Rec(q.pair.kind, q.pair.a) in t.records && Rec(q.pair.kind, q.pair.b) in t.records)
    && (q.pc.RecordMark? ==>
          && ch.Superseded? && Rec(q.pair.kind, Lost(q.pair, ch.winner)) in t.records
          && Rec(q.pair.kind, Lost(q.pair, ch.winner)) !in t.marks)
  }

  /** What was read is so until a takeover lifts a mark, and again from the second read. */
  ghost predicate Fresh(t: Store, q: Request, ch: Choice) {
    && (q.pc.ReadPair? || q.pc.TakeClaim? ==> !q.lifted)
    && (q.pc.TakeClaim? || q.pc.DropRecord? || (q.pc.Undo? && q.pc.phase.First?) ==>
          q.lifted || Exact(t, q.pair, ch, q.snap))
    && (q.pc.Reread? ==> ch.Superseded?)
    && (q.pc.FindLink? || q.pc.RecordLink? || q.pc.DrawLink? || q.pc.UnrecordLink? || q.pc.RecordMark? ==>
          ch.Superseded? && Exact(t, q.pair, ch, q.snap))
  }

  lemma UndoStaysFresh(t: Store, q: Request, ch: Choice)
    requires q.pc.Undo? && q.job == Resolve(ch) && Alone(t, q) && Fresh(t, q, ch)
    ensures var (t', q') := UndoStep(t, q, q.pc.phase, q.pc.stage); Fresh(t', q', ch) && OnlyNew(t', q', ch)
  {
  }

  lemma ClaimKeeps(t: Store, p: Pair, ch: Choice, now: int)
    requires p in t.cands
    ensures var u := Claimed(t, p, ch, now); u.links == t.links && u.marks == t.marks && u.records == t.records
  {
  }

  lemma StepKeepsRecords(t: Store, q: Request, ch: Choice, now: int, refused: bool)
    requires !q.pc.Undo? && q.job == Resolve(ch) && !(q.pc.TakeClaim? && Claimable(t, q.pair, ch, now))
    ensures var u := ResolveStep(t, q, ch, now, refused).0;
            && u.records == t.records && (!q.pc.Retire? ==> u.marks == t.marks)
            && (!q.pc.DrawLink? ==> u.links == t.links)
  {
  }

  lemma ClaimStaysFresh(t: Store, q: Request, ch: Choice, now: int, refused: bool)
    requires q.pc.TakeClaim? && q.job == Resolve(ch) && Fresh(t, q, ch)
    ensures var (t', q') := ResolveStep(t, q, ch, now, refused); Fresh(t', q', ch) && OnlyNew(t', q', ch)
  {
    hide Claimed, Claimable;
    if q.pair in t.cands {
      ClaimKeeps(t, q.pair, ch, now);
    }
    assert Claimable(t, q.pair, ch, now) ==> q.pair in t.cands by { ClaimableIsThere(t, q.pair, ch, now); }
  }

  lemma ClaimableIsThere(t: Store, p: Pair, ch: Choice, now: int)
    ensures Claimable(t, p, ch, now) ==> p in t.cands
  {
  }

  lemma StepStaysFresh(t: Store, q: Request, ch: Choice, now: int, refused: bool)
    requires !q.pc.Undo? && q.job == Resolve(ch) && Alone(t, q) && Fresh(t, q, ch)
    ensures var (t', q') := ResolveStep(t, q, ch, now, refused); Fresh(t', q', ch) && OnlyNew(t', q', ch)
  {
    hide SetWrote, Closed, Claimed, SameResolved;
    if q.pc.TakeClaim? {
      hide ResolveStep;
      ClaimStaysFresh(t, q, ch, now, refused);
    } else {
      StepKeepsRecords(t, q, ch, now, refused);
      hide SameClaim, Claimable;
    }
  }

  /**
   * A resolve records on its claim only an edge that was not drawn and a mark that did not stand when it is about to
   * make it: taking back what was recorded takes nothing that was there before.
   */
  lemma {:induction false} RecordsOnlyNew(s: Store, p: Pair, ch: Choice, now: int, refuses: Link -> bool, n: nat)
    ensures var (t, q) := Go(s, Start(p, Resolve(ch)), now, refuses, n);
            q.job == Resolve(ch) && q.pair == p && Fresh(t, q, ch) && OnlyNew(t, q, ch)
  {
    hide Step, ResolveStep, UndoStep;
    if n == 0 {
      NoCall(s, Start(p, Resolve(ch)), now, refuses);
    } else {
      RecordsOnlyNew(s, p, ch, now, refuses, n - 1);
      GoAlone(s, p, Resolve(ch), now, refuses, n - 1);
      var (t, q) := Go(s, Start(p, Resolve(ch)), now, refuses, n - 1);
      GoStep(s, Start(p, Resolve(ch)), now, refuses, n);
      StepKeepsAim(t, q, now, Refused(q, refuses));
      FreshStep(t, q, ch, now, Refused(q, refuses));
      hide *;
    }
  }

  lemma FreshStep(t: Store, q: Request, ch: Choice, now: int, refused: bool)
    requires q.job == Resolve(ch) && Alone(t, q) && Fresh(t, q, ch)
    ensures var (t', q') := Step(t, q, now, refused); Fresh(t', q', ch) && OnlyNew(t', q', ch)
  {
    hide ResolveStep, UndoStep;
    if q.pc.Undo? {
      UndoStaysFresh(t, q, ch);
    } else {
      StepStaysFresh(t, q, ch, now, refused);
    }
  }

  /** A mark is only ever on a record: no step, whatever it was told before, marks what is not there. */
  lemma MarksStayOnRecords(s: Store, r: Request, now: int, refused: bool)
    requires s.marks <= s.records
    ensures var t := Step(s, r, now, refused).0; t.marks <= t.records
  {
  }

  /** Closing again what the same choice closed changes nothing and ends the request. */
  lemma CloseAgain(s: Store, r: Request, ch: Choice, now: int, refused: bool)
    requires r.job == Resolve(ch) && r.pc.Close? && SameResolved(s, r.pair, ch) && s.cands[r.pair].claim.None?
    ensures Step(s, r, now, refused) == (s, r.(pc := Done))
  {
    assert s.cands[r.pair := s.cands[r.pair]] == s.cands;
    assert Closed(s, r.pair, ch) == s;
  }

  // ---- An edge that was refused leaves no record -------------------------------------------------------------------

  predicate BeforeEdge(pc: Pc) {
    || pc.ReadPair? || pc.TakeClaim? || (pc.Undo? && pc.phase.First?) || pc.DropRecord? || pc.Reread?
    || pc.FindLink? || pc.RecordLink?
  }

  /** What the claim has recorded of an edge, call by call. */
  ghost predicate EdgeRecord(s: Store, t: Store, q: Request, ch: Choice) {
    var had, has := RecordOf(s, q.pair).link, RecordOf(t, q.pair).link;
    && (BeforeEdge(q.pc) ==> has.None? || has == had)
    && (q.pc.DrawLink? ==> has == LinkOf(q.pair, ch))
    && (q.pc.RecordMark? || q.pc.Retire? || (q.pc.Close? && !q.tookOver) ==>
          has.None? || has == had || has.value in t.links)
  }

  lemma UndoKeepsEdgeRecord(s: Store, t: Store, q: Request, ch: Choice)
    requires q.pc.Undo? && q.job == Resolve(ch) && Alone(t, q) && EdgeRecord(s, t, q, ch)
    ensures var (t', q') := UndoStep(t, q, q.pc.phase, q.pc.stage); EdgeRecord(s, t', q', ch)
  {
  }

  lemma ClaimKeepsEdgeRecord(s: Store, t: Store, q: Request, ch: Choice, now: int, refused: bool)
    requires q.pc.TakeClaim? && q.job == Resolve(ch) && EdgeRecord(s, t, q, ch)
    ensures var (t', q') := ResolveStep(t, q, ch, now, refused); EdgeRecord(s, t', q', ch)
  {
  }

  lemma DrawKeepsEdgeRecord(s: Store, t: Store, q: Request, ch: Choice, now: int, refused: bool)
    requires (q.pc.RecordLink? || q.pc.DrawLink? || q.pc.UnrecordLink?) && q.job == Resolve(ch)
    requires Alone(t, q) && EdgeRecord(s, t, q, ch)
    ensures var (t', q') := ResolveStep(t, q, ch, now, refused); EdgeRecord(s, t', q', ch)
  {
  }

  lemma StepKeepsEdgeRecord(s: Store, t: Store, q: Request, ch: Choice, now: int, refused: bool)
    requires !q.pc.Undo? && q.job == Resolve(ch) && Alone(t, q) && EdgeRecord(s, t, q, ch)
    ensures var (t', q') := ResolveStep(t, q, ch, now, refused); EdgeRecord(s, t', q', ch)
  {
    if q.pc.TakeClaim? {
      ClaimKeepsEdgeRecord(s, t, q, ch, now, refused);
      hide ResolveStep, EdgeRecord;
    } else if q.pc.RecordLink? || q.pc.DrawLink? || q.pc.UnrecordLink? {
      DrawKeepsEdgeRecord(s, t, q, ch, now, refused);
      hide ResolveStep, EdgeRecord;
    } else {
      hide LinkOf, SameResolved;
    }
  }

  /**
   * Once a resolve is past its edge, an edge on its claim's record is one that stands, or one recorded before it began:
   * one that was refused is off the record again.
   */
  lemma {:induction false} RefusedIsUnrecorded(s: Store, p: Pair, ch: Choice, now: int, refuses: Link -> bool, n: nat)
    ensures var (t, q) := Go(s, Start(p, Resolve(ch)), now, refuses, n);
            q.job == Resolve(ch) && q.pair == p && EdgeRecord(s, t, q, ch)
  {
    hide Step, ResolveStep, UndoStep;
    if n == 0 {
      NoCall(s, Start(p, Resolve(ch)), now, refuses);
    } else {
      RefusedIsUnrecorded(s, p, ch, now, refuses, n - 1);
      GoAlone(s, p, Resolve(ch), now, refuses, n - 1);
      var (t, q) := Go(s, Start(p, Resolve(ch)), now, refuses, n - 1);
      GoStep(s, Start(p, Resolve(ch)), now, refuses, n);
      StepKeepsAim(t, q, now, Refused(q, refuses));
      EdgeRecordStep(s, t, q, ch, now, Refused(q, refuses));
      hide *;
    }
  }

  lemma EdgeRecordStep(s: Store, t: Store, q: Request, ch: Choice, now: int, refused: bool)
    requires q.job == Resolve(ch) && Alone(t, q) && EdgeRecord(s, t, q, ch)
    ensures var (t', q') := Step(t, q, now, refused); EdgeRecord(s, t', q', ch)
  {
    hide ResolveStep, UndoStep;
    if q.pc.Undo? {
      UndoKeepsEdgeRecord(s, t, q, ch);
    } else {
      StepKeepsEdgeRecord(s, t, q, ch, now, refused);
    }
  }
}
