/**
 * The contradiction review protocol of `server/src/api/contradictions.ts`: what the space stores, what one
 * request remembers, and the effect of each single store call a request makes (`Step`). A request is a program
 * counter and its local variables, so an interleaving is a choice of which request takes the next step, and a
 * failure part-way is a request that takes none.
 */
module ContradictionModel {

  import opened Maybe

  /** The collection a pair lives in. */
  datatype Kind = Entity | Fact | Edge | Chrono | File

  /** Which kinds an edge may end at (`isRefKind`): every kind but an edge. */
  predicate Linkable(k: Kind) { k != Edge }

  /** Which kinds can carry the superseded mark (`canBeRetired`): every kind but a file. */
  predicate Retirable(k: Kind) { k != File }

  /** One stored record: ids are assigned per collection. */
  datatype Rec = Rec(kind: Kind, id: nat)

  /** A candidate is identified by its pair, the smaller id first. */
  datatype Pair = Pair(kind: Kind, a: nat, b: nat) {
    predicate Wf() { a < b }
  }

  datatype Side = A | B

  /** What a person decided: `winner` is present exactly for `superseded`. */
  datatype Choice = Edited | Linked | Superseded(winner: Side)

  datatype Resolution = AsEdited | AsLinked | AsSuperseded

  function ResolutionOf(ch: Choice): Resolution {
    match ch
    case Edited => AsEdited
    case Linked => AsLinked
    case Superseded(_) => AsSuperseded
  }

  /** A supersedes edge by its identity: both ends and their kind (`edgeIdFor`). */
  datatype Link = Link(kind: Kind, from: nat, to: nat)

  function WinnerId(p: Pair, s: Side): nat { if s == A then p.a else p.b }
  function LoserId(p: Pair, s: Side): nat { if s == A then p.b else p.a }

  /** The record a choice judges stale; none for `edited` and `linked`. */
  function LoserOf(p: Pair, ch: Choice): Option<nat> {
    if ch.Superseded? then Some(LoserId(p, ch.winner)) else None
  }

  /** The edge a choice draws, when its pair can be linked at all. */
  function LinkOf(p: Pair, ch: Choice): Option<Link> {
    if ch.Superseded? && Linkable(p.kind)
    then Some(Link(p.kind, WinnerId(p, ch.winner), LoserId(p, ch.winner))) else None
  }

  /** What a claim recorded it was about to write. */
  datatype Wrote = Wrote(link: Option<Link>, mark: Option<nat>)

  const NOTHING := Wrote(None, None)

  datatype Claim = Claim(choice: Choice, at: int, wrote: Wrote)

  datatype Status = Open | Dismissed | Resolved

  datatype Cand = Cand(status: Status, resolution: Option<Resolution>, loser: Option<nat>, claim: Option<Claim>)

  /** The collections a resolve touches, as values. */
  datatype Store = Store(cands: map<Pair, Cand>, links: set<Link>, records: set<Rec>, marks: set<Rec>)

  /** Ten minutes, in milliseconds: how old a claim must be before another choice may take it over. */
  const STALE_MS: int := 600000

  /** The filter `claimableBy`: never a resolved candidate; an unclaimed, same-choice or stale-claimed one. */
  predicate Claimable(s: Store, p: Pair, ch: Choice, now: int) {
    && p in s.cands
    && s.cands[p].status != Resolved
    && (s.cands[p].claim.None?
        || s.cands[p].claim.value.choice == ch
        || !(s.cands[p].claim.value.at >= now - STALE_MS))
  }

  /** The filter `sameClaim`. */
  predicate SameClaim(s: Store, p: Pair, ch: Choice) {
    p in s.cands && s.cands[p].claim.Some? && s.cands[p].claim.value.choice == ch
  }

  /** The filter `sameResolved`: closed by this choice, and for `superseded` with the same loser. */
  predicate SameResolved(s: Store, p: Pair, ch: Choice) {
    && p in s.cands
    && s.cands[p].status == Resolved
    && s.cands[p].resolution == Some(ResolutionOf(ch))
    && s.cands[p].loser == LoserOf(p, ch)
  }

  /** Another supersedes edge points at the record (`edgeInto`): the claim's own edge does not count. */
  predicate LinkInto(s: Store, m: nat, own: Option<Link>) {
    exists l :: l in s.links && l.to == m && own != Some(l)
  }

  /** Another resolved candidate names the record as its loser (`pairOn`). */
  predicate PairOn(s: Store, m: nat, p: Pair) {
    exists q :: q in s.cands && q != p && s.cands[q].status == Resolved && s.cands[q].loser == Some(m)
  }

  // ---- One request ---------------------------------------------------------------------------------------------

  datatype Job = Resolve(choice: Choice) | Dismiss | Reopen

  /**
   * Whose record an undo takes back: an abandoned claim's (before and after the effects), its own, a released one's.
   */
  datatype Phase = First | Second | Own | Release

  datatype Stage = DeleteLink | FindMark | FindLinkInto | FindPairOn | LiftMark

  datatype Pc =
    | ReadPair
    | TakeClaim
    | Undo(phase: Phase, stage: Stage)
    | DropRecord
    | Reread
    | FindLink
    | RecordLink
    | DrawLink
    | UnrecordLink
    | RecordMark
    | Retire
    | Close
    | LostCheck
    | ReleaseClaim
    | Done

  /** The pair as read: whether each end exists, and whether the loser carries the mark. */
  datatype Snapshot = Snapshot(winner: bool, loser: bool, marked: bool)

  datatype Request = Request(pair: Pair, job: Job, pc: Pc, snap: Snapshot, tookOver: bool, prior: Wrote, mine: Wrote,
      lifted: bool)

  function Start(p: Pair, job: Job): Request {
    Request(p, job, if job.Resolve? then ReadPair else ReleaseClaim, Snapshot(false, false, false), false, NOTHING,
        NOTHING, false)
  }

  function Read(s: Store, p: Pair, ch: Choice): Snapshot {
    if ch.Superseded? then
      var loser := Rec(p.kind, LoserId(p, ch.winner));
      Snapshot(Rec(p.kind, WinnerId(p, ch.winner)) in s.records, loser in s.records,
          loser in s.records && loser in s.marks)
    else Snapshot(false, false, false)
  }

  /** Where a resolve goes once its effects are made: a takeover undoes once more before it closes. */
  function Finish(r: Request): Pc { if r.tookOver then Undo(Second, DeleteLink) else Close }

  /** Where a resolve goes once the edge is settled. */
  function MarkPc(r: Request): Pc {
    if r.snap.loser && Retirable(r.pair.kind) && !r.snap.marked then RecordMark else Finish(r)
  }

  function Effects(r: Request): Pc {
    if r.job.Resolve? && r.job.choice.Superseded? then FindLink else Finish(r)
  }

  function AfterUndo(ph: Phase): Pc {
    match ph
    case First => DropRecord
    case Second => Close
    case Own => Done
    case Release => Done
  }

  function Recorded(r: Request, ph: Phase): Wrote { if ph == Own then r.mine else r.prior }

  function SetCand(s: Store, p: Pair, c: Cand): Store { s.(cands := s.cands[p := c]) }

  function SetWrote(s: Store, p: Pair, w: Wrote): Store
    requires p in s.cands && s.cands[p].claim.Some?
  {
    SetCand(s, p, s.cands[p].(claim := Some(s.cands[p].claim.value.(wrote := w))))
  }

  /**
   * `findOneAndUpdate` of the claim: its choice and time are set one by one, so what an earlier claim recorded stays.
   */
  function Claimed(s: Store, p: Pair, ch: Choice, now: int): Store
    requires p in s.cands
  {
    var c := s.cands[p];
    SetCand(s, p, c.(claim := Some(Claim(ch, now, if c.claim.Some? then c.claim.value.wrote else NOTHING))))
  }

  function Closed(s: Store, p: Pair, ch: Choice): Store
    requires p in s.cands
  {
    SetCand(s, p, Cand(Resolved, Some(ResolutionOf(ch)), if ch.Superseded? then LoserOf(p, ch) else s.cands[p].loser,
        None))
  }

  /** One stage of `undoClaim`: the edge first, then the mark unless another pair depends on it. */
  function UndoStep(s: Store, r: Request, ph: Phase, st: Stage): (Store, Request) {
    var w := Recorded(r, ph);
    match st
    case DeleteLink =>
      (if w.link.Some? then s.(links := s.links - {w.link.value}) else s, r.(pc := Undo(ph, FindMark)))
    case LiftMark =>
      (if w.mark.Some? then s.(marks := s.marks - {Rec(r.pair.kind, w.mark.value)}) else s,
       r.(pc := AfterUndo(ph), lifted := r.lifted || ph == First))
    case _ =>
      (s, r.(pc := if w.mark.Some? && Retirable(r.pair.kind) && MayLift(s, r.pair, w, st) then Undo(ph, NextStage(st))
          else AfterUndo(ph)))
  }

  function NextStage(st: Stage): Stage {
    match st
    case DeleteLink => FindMark
    case FindMark => FindLinkInto
    case FindLinkInto => FindPairOn
    case _ => LiftMark
  }

  /** What each read of `undoClaim` asks before the mark is lifted. */
  predicate MayLift(s: Store, p: Pair, w: Wrote, st: Stage)
    requires w.mark.Some?
  {
    match st
    case FindMark => Rec(p.kind, w.mark.value) in s.records && Rec(p.kind, w.mark.value) in s.marks
    case FindLinkInto => !LinkInto(s, w.mark.value, w.link)
    case FindPairOn => !PairOn(s, w.mark.value, p)
    case _ => true
  }

  /** A dismiss or reopen: its one guarded update takes the claim off, and hands back what it recorded. */
  function ReleaseStep(s: Store, r: Request): (Store, Request) {
    var p := r.pair;
    if p in s.cands && !r.job.Resolve?
        && (if r.job.Dismiss? then s.cands[p].status != Resolved else s.cands[p].status == Dismissed) then
      var c := s.cands[p];
      (SetCand(s, p, c.(status := if r.job.Dismiss? then Dismissed else Open, claim := None)),
       if c.claim.Some? then r.(pc := Undo(Release, DeleteLink), prior := c.claim.value.wrote) else r.(pc := Done))
    else (s, r.(pc := Done))
  }

  /**
   * One store call of a resolve. `now` is the clock it reads, `refused` the edge schema's verdict on the edge it draws.
   */
  function ResolveStep(s: Store, r: Request, ch: Choice, now: int, refused: bool): (Store, Request)
    requires r.job == Resolve(ch) && !r.pc.Undo?
  {
    var p := r.pair;
    match r.pc
    case ReadPair => (s, r.(snap := Read(s, p, ch), pc := TakeClaim))
    case TakeClaim =>
      if Claimable(s, p, ch, now) then
        var c := s.cands[p].claim;
        var r' := r.(tookOver := c.Some? && c.value.choice != ch, prior := if c.Some? then c.value.wrote else NOTHING);
        (Claimed(s, p, ch, now), r'.(pc := if r'.tookOver then Undo(First, DeleteLink) else Effects(r')))
      else (s, r.(pc := Done))
    case DropRecord =>
      if SameClaim(s, p, ch) then
        (SetWrote(s, p, NOTHING), r.(pc := if r.lifted && ch.Superseded? then Reread else Effects(r)))
      else (s, r.(pc := LostCheck))
    case Reread => (s, r.(snap := Read(s, p, ch), pc := FindLink))
    case FindLink =>
      if r.snap.winner && r.snap.loser && LinkOf(p, ch).Some? && LinkOf(p, ch).value !in s.links
      then (s, r.(pc := RecordLink))
      else (s, r.(pc := MarkPc(r)))
    case RecordLink =>
      if SameClaim(s, p, ch) then
        (SetWrote(s, p, s.cands[p].claim.value.wrote.(link := LinkOf(p, ch))),
         r.(mine := r.mine.(link := LinkOf(p, ch)), pc := DrawLink))
      else (s, r.(pc := LostCheck))
    case DrawLink =>
      if refused || LinkOf(p, ch).None? then (s, r.(pc := UnrecordLink))
      else (s.(links := s.links + {LinkOf(p, ch).value}), r.(pc := MarkPc(r)))
    case UnrecordLink =>
      (if SameClaim(s, p, ch) then SetWrote(s, p, s.cands[p].claim.value.wrote.(link := None)) else s,
       r.(mine := r.mine.(link := None), pc := MarkPc(r)))
    case RecordMark =>
      if SameClaim(s, p, ch) then
        (SetWrote(s, p, s.cands[p].claim.value.wrote.(mark := LoserOf(p, ch))),
         r.(mine := r.mine.(mark := LoserOf(p, ch)), pc := Retire))
      else (s, r.(pc := LostCheck))
    case Retire =>
      (if ch.Superseded? && Rec(p.kind, LoserId(p, ch.winner)) in s.records
       then s.(marks := s.marks + {Rec(p.kind, LoserId(p, ch.winner))}) else s,
       r.(pc := Finish(r)))
    case Close =>
      if SameClaim(s, p, ch) || SameResolved(s, p, ch) then (Closed(s, p, ch), r.(pc := Done))
      else (s, r.(pc := LostCheck))
    case LostCheck =>
      if SameResolved(s, p, ch) then (s, r.(pc := Done)) else (s, r.(pc := Undo(Own, DeleteLink)))
    case ReleaseClaim => (s, r.(pc := Done))
    case Done => (s, r)
  }

  function Step(s: Store, r: Request, now: int, refused: bool): (Store, Request) {
    if r.pc.Undo? then UndoStep(s, r, r.pc.phase, r.pc.stage)
    else if r.job.Resolve? then ResolveStep(s, r, r.job.choice, now, refused)
    else if r.pc.ReleaseClaim? then ReleaseStep(s, r)
    else (s, r.(pc := Done))
  }
}
