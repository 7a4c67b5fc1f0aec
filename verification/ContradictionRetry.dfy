/**
 * Retries of a resolve that takes over nothing: cut off part-way any number of times and repeated with the same choice,
 * one request at a time, it always ends where an uninterrupted resolve ends.
 */
module ContradictionRetry {

  import opened Maybe
  import opened ContradictionModel
  import opened ContradictionRuns
  import opened ContradictionSerial

  // ---- What a resolve comes to -----------------------------------------------------------------------------------

  /** The edge of the choice stands at the end: both ends exist, the kind can be linked, and it is there or admitted. */
  predicate Draws(s: Store, p: Pair, ch: Choice, refuses: Link -> bool) {
    && LinkOf(p, ch).Some?
    && Rec(p.kind, p.a) in s.records && Rec(p.kind, p.b) in s.records
    && (LinkOf(p, ch).value in s.links || !refuses(LinkOf(p, ch).value))
  }

  predicate Marks(s: Store, p: Pair, ch: Choice) {
    ch.Superseded? && Retirable(p.kind) && Rec(p.kind, LoserId(p, ch.winner)) in s.records
  }

  function GoalLinks(s: Store, p: Pair, ch: Choice, refuses: Link -> bool): set<Link> {
    if Draws(s, p, ch, refuses) then s.links + {LinkOf(p, ch).value} else s.links
  }

  function GoalMarks(s: Store, p: Pair, ch: Choice): set<Rec> {
    if Marks(s, p, ch) then s.marks + {Rec(p.kind, LoserId(p, ch.winner))} else s.marks
  }

  /** The closed candidate, the edge drawn, the loser marked, and nothing else changed. */
  function Goal(s: Store, p: Pair, ch: Choice, refuses: Link -> bool): Store
    requires p in s.cands
  {
    Closed(s, p, ch).(links := GoalLinks(s, p, ch, refuses), marks := GoalMarks(s, p, ch))
  }

  predicate IsNewEdge(s: Store, p: Pair, ch: Choice, refuses: Link -> bool, l: Link) {
    && ch.Superseded? && l == Drawn(p, ch.winner) && !refuses(l) && p.kind != Edge
    && Rec(p.kind, p.a) in s.records && Rec(p.kind, p.b) in s.records
  }

  predicate IsNewMark(s: Store, p: Pair, ch: Choice, m: Rec) {
    ch.Superseded? && m == Rec(p.kind, Lost(p, ch.winner)) && p.kind != File && m in s.records
  }

  /** What an uninterrupted resolve makes of the store, said of each thing in it. */
  ghost predicate Settled(s: Store, g: Store, p: Pair, ch: Choice, refuses: Link -> bool)
    requires p in s.cands
  {
    && g.records == s.records
    && g.cands == s.cands[p :=
         match ch
         case Edited => Cand(Resolved, Some(AsEdited), s.cands[p].loser, None)
         case Linked => Cand(Resolved, Some(AsLinked), s.cands[p].loser, None)
         case Superseded(winner) => Cand(Resolved, Some(AsSuperseded), Some(Lost(p, winner)), None)]
    && (forall l :: l in g.links <==> l in s.links || IsNewEdge(s, p, ch, refuses, l))
    && (forall m :: m in g.marks <==> m in s.marks || IsNewMark(s, p, ch, m))
  }

  lemma GoalIsSettled(s: Store, p: Pair, ch: Choice, refuses: Link -> bool)
    requires p in s.cands
    ensures Settled(s, Goal(s, p, ch, refuses), p, ch, refuses)
  {
  }

  // ---- Part of the way there -------------------------------------------------------------------------------------

  /** A store some number of cut-off attempts may leave: between `s` and its goal. */
  ghost predicate Underway(s: Store, t: Store, p: Pair, ch: Choice, refuses: Link -> bool) {
    && p in s.cands && t.records == s.records
    && s.links <= t.links <= GoalLinks(s, p, ch, refuses)
    && s.marks <= t.marks <= GoalMarks(s, p, ch)
    && (t == s
        || t == Goal(s, p, ch, refuses)
        || (SameClaim(t, p, ch) && t.cands == s.cands[p := s.cands[p].(claim := t.cands[p].claim)]))
  }

  /** What one attempt knows call by call, from a setting it may start in. */
  ghost predicate Attempting(s: Store, t: Store, r: Request, ch: Choice, refuses: Link -> bool) {
    var p := r.pair;
    && r.job == Resolve(ch) && Underway(s, t, p, ch, refuses) && !r.tookOver
    && (!r.pc.ReadPair? && !r.pc.Done? ==> SnapOk(t, p, ch, r.snap))
    && (!r.pc.ReadPair? && !r.pc.TakeClaim? && !r.pc.Done? ==> SameClaim(t, p, ch))
    && (r.pc.Done? ==> t == Goal(s, p, ch, refuses))
    && (Superseding(r.pc) ==> ch.Superseded?)
    && (r.pc.RecordLink? || r.pc.DrawLink? || r.pc.UnrecordLink? ==> Unlinked(t, r, ch))
    && (r.pc.UnrecordLink? ==> refuses(LinkOf(p, ch).value))
    && (r.pc.RecordMark? || r.pc.Retire? || r.pc.Close? ==> t.links == GoalLinks(s, p, ch, refuses))
    && (r.pc.RecordMark? || r.pc.Retire? ==> Marks(s, p, ch))
    && (r.pc.Close? ==> t.marks == GoalMarks(s, p, ch))
    && !r.pc.Undo? && !r.pc.DropRecord? && !r.pc.Reread? && !r.pc.LostCheck? && !r.pc.ReleaseClaim?
  }

  predicate Unlinked(t: Store, r: Request, ch: Choice) {
    r.snap.winner && r.snap.loser && LinkOf(r.pair, ch).Some? && LinkOf(r.pair, ch).value !in t.links
  }

  /** A candidate not resolved, and not claimed by another choice. */
  predicate Setting(s: Store, p: Pair, ch: Choice) {
    && p in s.cands && s.cands[p].status != Resolved
    && (s.cands[p].claim.Some? ==> s.cands[p].claim.value.choice == ch)
  }

  lemma AttemptRead(s: Store, t: Store, r: Request, ch: Choice, refuses: Link -> bool, now: int, refused: bool)
    requires Setting(s, r.pair, ch) && Attempting(s, t, r, ch, refuses)
    requires r.pc.ReadPair?
    ensures var (t', r') := ResolveStep(t, r, ch, now, refused); Attempting(s, t', r', ch, refuses)
  {
    hide Goal, GoalLinks, GoalMarks;
  }

  lemma AttemptFind(s: Store, t: Store, r: Request, ch: Choice, refuses: Link -> bool, now: int, refused: bool)
    requires Setting(s, r.pair, ch) && Attempting(s, t, r, ch, refuses) && r.pc.FindLink?
    ensures var (t', r') := ResolveStep(t, r, ch, now, refused); Attempting(s, t', r', ch, refuses)
  {
    hide Goal;
  }

  lemma AttemptClaim(s: Store, t: Store, r: Request, ch: Choice, refuses: Link -> bool, now: int, refused: bool)
    requires Setting(s, r.pair, ch) && Attempting(s, t, r, ch, refuses)
    requires r.pc.TakeClaim?
    ensures var (t', r') := ResolveStep(t, r, ch, now, refused); Attempting(s, t', r', ch, refuses)
  {
    var p := r.pair;
    var t' := ResolveStep(t, r, ch, now, refused).0;
    if t.cands[p].status == Resolved {
      assert t' == t == Goal(s, p, ch, refuses);
    } else {
      ClaimSettles(s, t, r, ch, refuses, now);
    }
  }

  /** Claiming a candidate that is not closed yet, and which way the resolve goes on from there. */
  lemma ClaimSettles(s: Store, t: Store, r: Request, ch: Choice, refuses: Link -> bool, now: int)
    requires Setting(s, r.pair, ch) && Attempting(s, t, r, ch, refuses)
    requires r.pc.TakeClaim? && t.cands[r.pair].status != Resolved
    ensures var (t', r') := ResolveStep(t, r, ch, now, false); Attempting(s, t', r', ch, refuses)
  {
    var p := r.pair;
    assert t.cands == s.cands[p := s.cands[p].(claim := t.cands[p].claim)];
    hide Goal;
    assert Claimable(t, p, ch, now);
    var t' := Claimed(t, p, ch, now);
    assert t'.cands == s.cands[p := s.cands[p].(claim := t'.cands[p].claim)];
    if !ch.Superseded? {
      assert t.links == GoalLinks(s, p, ch, refuses) && t.marks == GoalMarks(s, p, ch);
    } else {
      hide GoalLinks, GoalMarks;
    }
  }

  lemma AttemptRecord(s: Store, t: Store, r: Request, ch: Choice, refuses: Link -> bool, now: int, refused: bool)
    requires Setting(s, r.pair, ch) && Attempting(s, t, r, ch, refuses)
    requires r.pc.RecordLink? || r.pc.UnrecordLink?
    ensures var (t', r') := ResolveStep(t, r, ch, now, refused); Attempting(s, t', r', ch, refuses)
  {
    var p := r.pair;
    assert t.cands == s.cands[p := s.cands[p].(claim := t.cands[p].claim)];
    hide Goal, GoalMarks;
    var t' := ResolveStep(t, r, ch, now, refused).0;
    assert t'.cands == s.cands[p := s.cands[p].(claim := t'.cands[p].claim)];
  }

  lemma AttemptDraw(s: Store, t: Store, r: Request, ch: Choice, refuses: Link -> bool, now: int, refused: bool)
    requires Setting(s, r.pair, ch) && Attempting(s, t, r, ch, refuses) && r.pc.DrawLink?
    requires LinkOf(r.pair, ch).Some? ==> refused == refuses(LinkOf(r.pair, ch).value)
    ensures var (t', r') := ResolveStep(t, r, ch, now, refused); Attempting(s, t', r', ch, refuses)
  {
    var p := r.pair;
    assert t.cands == s.cands[p := s.cands[p].(claim := t.cands[p].claim)];
    hide Goal, GoalMarks;
  }

  lemma AttemptMark(s: Store, t: Store, r: Request, ch: Choice, refuses: Link -> bool, now: int, refused: bool)
    requires Setting(s, r.pair, ch) && Attempting(s, t, r, ch, refuses)
    requires r.pc.RecordMark? || r.pc.Retire?
    ensures var (t', r') := ResolveStep(t, r, ch, now, refused); Attempting(s, t', r', ch, refuses)
  {
    var p := r.pair;
    assert t.cands == s.cands[p := s.cands[p].(claim := t.cands[p].claim)];
    hide Goal, GoalLinks;
    var t' := ResolveStep(t, r, ch, now, refused).0;
    assert t'.cands == s.cands[p := s.cands[p].(claim := t'.cands[p].claim)];
  }

  lemma AttemptClose(s: Store, t: Store, r: Request, ch: Choice, refuses: Link -> bool, now: int, refused: bool)
    requires Setting(s, r.pair, ch) && Attempting(s, t, r, ch, refuses) && r.pc.Close?
    ensures var (t', r') := ResolveStep(t, r, ch, now, refused); Attempting(s, t', r', ch, refuses)
  {
    var t' := ResolveStep(t, r, ch, now, refused).0;
    assert t'.cands == Goal(s, r.pair, ch, refuses).cands;
  }

  lemma AttemptStep(s: Store, t: Store, r: Request, ch: Choice, refuses: Link -> bool, now: int)
    requires Setting(s, r.pair, ch) && Attempting(s, t, r, ch, refuses)
    ensures var (t', r') := Step(t, r, now, Refused(r, refuses));
            Attempting(s, t', r', ch, refuses) && r'.pair == r.pair
  {
    var refused := Refused(r, refuses);
    StepKeepsAim(t, r, now, refused);
    hide ResolveStep;
    if r.pc.ReadPair? {
      AttemptRead(s, t, r, ch, refuses, now, refused);
    } else if r.pc.TakeClaim? {
      AttemptClaim(s, t, r, ch, refuses, now, refused);
    } else if r.pc.FindLink? {
      AttemptFind(s, t, r, ch, refuses, now, refused);
    } else if r.pc.DrawLink? {
      AttemptDraw(s, t, r, ch, refuses, now, refused);
    } else if r.pc.RecordLink? || r.pc.UnrecordLink? {
      AttemptRecord(s, t, r, ch, refuses, now, refused);
    } else if r.pc.RecordMark? || r.pc.Retire? {
      AttemptMark(s, t, r, ch, refuses, now, refused);
    } else if r.pc.Close? {
      AttemptClose(s, t, r, ch, refuses, now, refused);
    } else {
      StepLowersRank(t, r, now, refused);
    }
  }

  lemma AttemptStart(s: Store, t: Store, p: Pair, ch: Choice, refuses: Link -> bool)
    requires Underway(s, t, p, ch, refuses)
    ensures Attempting(s, t, Start(p, Resolve(ch)), ch, refuses)
  {
  }

  lemma {:induction false} AttemptGo(s: Store, t: Store, p: Pair, ch: Choice, refuses: Link -> bool, now: int, n: nat)
    requires Setting(s, p, ch) && Underway(s, t, p, ch, refuses)
    ensures var (t', r') := Go(t, Start(p, Resolve(ch)), now, refuses, n);
            Attempting(s, t', r', ch, refuses) && r'.pair == p
  {
    hide *;
    if n == 0 {
      AttemptStart(s, t, p, ch, refuses);
      NoCall(t, Start(p, Resolve(ch)), now, refuses);
      StartsAlone(t, p, Resolve(ch));
    } else {
      AttemptGo(s, t, p, ch, refuses, now, n - 1);
      GoStep(t, Start(p, Resolve(ch)), now, refuses, n);
      var (t', r') := Go(t, Start(p, Resolve(ch)), now, refuses, n - 1);
      AttemptStep(s, t', r', ch, refuses, now);
    }
  }

  // ---- Attempts -------------------------------------------------------------------------------------------------

  /** One attempt: when it is made, and after how many store calls it fails. */
  datatype Attempt = Attempt(now: int, calls: nat)

  function After(s: Store, p: Pair, ch: Choice, refuses: Link -> bool, attempts: seq<Attempt>): Store {
    if attempts == [] then s
    else
      var a := attempts[|attempts| - 1];
      Go(After(s, p, ch, refuses, attempts[..|attempts| - 1]), Start(p, Resolve(ch)), a.now, refuses, a.calls).0
  }

  /** One resolve that is not cut off. */
  function Settle(s: Store, p: Pair, ch: Choice, refuses: Link -> bool, now: int): Store {
    Go(s, Start(p, Resolve(ch)), now, refuses, WHOLE).0
  }

  lemma UnderwayHere(t: Store, p: Pair, ch: Choice, refuses: Link -> bool)
    requires Setting(t, p, ch)
    ensures Underway(t, t, p, ch, refuses)
  {
  }

  /**
   * From wherever cut-off attempts left the store, a whole resolve ends with the candidate closed, the edge drawn, the
   * loser marked, and nothing else changed.
   */
  lemma SettleReachesGoal(s: Store, t: Store, p: Pair, ch: Choice, refuses: Link -> bool, now: int)
    requires Setting(s, p, ch) && Underway(s, t, p, ch, refuses)
    ensures Settle(t, p, ch, refuses, now) == Goal(s, p, ch, refuses)
    ensures Settled(s, Settle(t, p, ch, refuses, now), p, ch, refuses)
  {
    GoalIsSettled(s, p, ch, refuses);
    hide Settled, Goal, Setting, Underway;
    AttemptGo(s, t, p, ch, refuses, now, WHOLE);
    WholeIsDone(t, Start(p, Resolve(ch)), now, refuses, WHOLE);
  }

  lemma {:induction false} AttemptsAreUnderway(s: Store, p: Pair, ch: Choice, refuses: Link -> bool,
      attempts: seq<Attempt>)
    requires Setting(s, p, ch)
    ensures Underway(s, After(s, p, ch, refuses, attempts), p, ch, refuses)
    decreases |attempts|
  {
    if attempts != [] {
      var init, a := attempts[..|attempts| - 1], attempts[|attempts| - 1];
      AttemptsAreUnderway(s, p, ch, refuses, init);
      AttemptGo(s, After(s, p, ch, refuses, init), p, ch, refuses, a.now, a.calls);
    }
  }

  /** A resolve that cannot claim its candidate writes nothing. */
  lemma {:induction false} UnclaimableStays(s: Store, p: Pair, ch: Choice, refuses: Link -> bool, now: int, n: nat)
    requires !Claimable(s, p, ch, now)
    ensures var (t, q) := Go(s, Start(p, Resolve(ch)), now, refuses, n);
            t == s && q.job == Resolve(ch) && q.pair == p && (q.pc.ReadPair? || q.pc.TakeClaim? || q.pc.Done?)
  {
    if n == 0 {
    } else {
      UnclaimableStays(s, p, ch, refuses, now, n - 1);
    }
  }

  // ---- Who gets the claim ------------------------------------------------------------------------------------------

  lemma ClaimIsTheSecondCall(s: Store, p: Pair, ch: Choice, refuses: Link -> bool, now: int)
    requires Claimable(s, p, ch, now)
    ensures Go(s, Start(p, Resolve(ch)), now, refuses, 2).0 == Claimed(s, p, ch, now)
  {
    var r0 := Start(p, Resolve(ch));
    assert Go(s, r0, now, refuses, 0) == (s, r0);
    var (t1, r1) := Go(s, r0, now, refuses, 1);
    assert t1 == s && r1.pc == TakeClaim && r1.pair == p && r1.job == r0.job;
  }

  /**
   * While another choice's claim is not ten minutes old, a resolve changes nothing, however many calls it makes; nor
   * does one of a candidate that is resolved or gone.
   */
  lemma FreshClaimKeepsOut(s: Store, p: Pair, ch: Choice, refuses: Link -> bool, now: int, n: nat)
    requires p in s.cands && s.cands[p].status != Resolved ==>
               && s.cands[p].claim.Some? && s.cands[p].claim.value.choice != ch
               && s.cands[p].claim.value.at >= now - 600000
    ensures Go(s, Start(p, Resolve(ch)), now, refuses, n).0 == s
  {
    hide Go;
    UnclaimableStays(s, p, ch, refuses, now, n);
  }

  /**
   * An unresolved candidate that no other choice has claimed in the last ten minutes is the resolve's with its second
   * call: the claim is its choice's and of now, what an earlier claim recorded stays on it, and nothing else changes.
   */
  lemma UnheldIsClaimed(s: Store, p: Pair, ch: Choice, refuses: Link -> bool, now: int)
    requires p in s.cands && s.cands[p].status != Resolved
    requires s.cands[p].claim.Some? && s.cands[p].claim.value.choice != ch ==> s.cands[p].claim.value.at < now - 600000
    ensures var wrote := if s.cands[p].claim.Some? then s.cands[p].claim.value.wrote else Wrote(None, None);
            var (t, r) := Go(s, Start(p, Resolve(ch)), now, refuses, 2);
            && t == s.(cands := s.cands[p := s.cands[p].(claim := Some(Claim(ch, now, wrote)))])
            && (r.tookOver <==> s.cands[p].claim.Some? && s.cands[p].claim.value.choice != ch)
            && (r.tookOver ==> r.prior == wrote && r.pc == Undo(First, DeleteLink))
  {
    var r0 := Start(p, Resolve(ch));
    assert Go(s, r0, now, refuses, 0) == (s, r0);
    var (t1, r1) := Go(s, r0, now, refuses, 1);
    assert t1 == s && r1 == r0.(snap := Read(s, p, ch), pc := TakeClaim);
  }
}
