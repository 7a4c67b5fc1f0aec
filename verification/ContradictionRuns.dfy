/**
 * Every interleaving of resolves, dismissals and reopens over many candidates. A run is a sequence of states, each
 * one step of one actor after the last; the theorems say what every state of every run keeps.
 */
module ContradictionRuns {

  import opened Maybe
  import opened ContradictionModel

  /** A judged pair as the scanner read it: what it is about to write is decided on that. */
  datatype Look = Look(pair: Pair, was: Option<Status>)

  /** What the judge says of a pair: the records agree, or differ, and whether a dismissal of it no longer counts. */
  datatype Verdict = Agree | Differ(stale: bool)

  /** The store, the requests in flight, and the pairs the scanner has read. */
  datatype World = World(store: Store, live: map<nat, Request>, scans: map<nat, Look>)

  /**
   * Who moves: a request arrives, takes one store call, or is cut off; the scanner reads a pair, and later writes what
   * its verdict means for what it read; or something outside the protocol writes.
   */
  datatype Act =
    | Arrive(id: nat, pair: Pair, job: Job)
    | Advance(id: nat, now: int, refused: bool)
    | Crash(id: nat)
    | See(id: nat, pair: Pair)
    | Judge(id: nat, verdict: Verdict)
    | Outside(links: set<Link>, records: set<Rec>, marks: set<Rec>)

  const FRESH := Cand(Open, None, None, None)

  /** The scanner deletes a finding that no longer holds, by its id alone. */
  predicate Deletes(k: Look, v: Verdict) { k.was == Some(Open) && v.Agree? }

  /** The scanner reopens a dismissal that no longer counts, by its id alone: nothing else of the candidate changes. */
  predicate Reopens(k: Look, v: Verdict) { k.was == Some(Dismissed) && v == Differ(true) }

  /** What `recordContradiction` writes: of the fields modelled, an insert, a delete or a status. */
  function Judged(s: Store, k: Look, v: Verdict): Store {
    if Deletes(k, v) then s.(cands := s.cands - {k.pair})
    else if Reopens(k, v) && k.pair in s.cands then SetCand(s, k.pair, s.cands[k.pair].(status := Open))
    else if k.was.None? && v.Differ? && k.pair !in s.cands then SetCand(s, k.pair, FRESH)
    else s
  }

  function Do(w: World, a: Act): World {
    match a
    case Arrive(id, p, job) => if id in w.live then w else w.(live := w.live[id := Start(p, job)])
    case Advance(id, now, refused) =>
      if id in w.live then
        var (s, r) := Step(w.store, w.live[id], now, refused);
        w.(store := s, live := w.live[id := r])
      else w
    case Crash(id) => w.(live := w.live - {id})
    case See(id, p) =>
      w.(scans := w.scans[id := Look(p, if p in w.store.cands then Some(w.store.cands[p].status) else None)])
    case Judge(id, v) => if id in w.scans then w.(store := Judged(w.store, w.scans[id], v), scans := w.scans - {id})
        else w
    case Outside(links, records, marks) => w.(store := w.store.(links := links, records := records, marks := marks))
  }

  function Run(w: World, acts: seq<Act>): World {
    if acts == [] then w else Do(Run(w, acts[..|acts| - 1]), acts[|acts| - 1])
  }

  // ---- A resolution is final -----------------------------------------------------------------------------------

  /** A resolved candidate carries no claim, and one that is not resolved carries no resolution. */
  predicate SoundCand(c: Cand) {
    if c.status == Resolved then c.claim.None? else c.resolution.None? && c.loser.None?
  }

  ghost predicate Sound(s: Store) { forall p :: p in s.cands ==> SoundCand(s.cands[p]) }

  /** `t` holds every resolution of `s` unchanged. */
  ghost predicate Keeps(s: Store, t: Store) {
    forall p :: p in s.cands && s.cands[p].status == Resolved ==> p in t.cands && t.cands[p] == s.cands[p]
  }

  /** One store call writes at most its own candidate, soundly, and never a resolved one. */
  lemma StepWritesOneCand(s: Store, r: Request, now: int, refused: bool)
    requires r.pair in s.cands ==> SoundCand(s.cands[r.pair])
    ensures var t := Step(s, r, now, refused).0;
            t.cands == s.cands
            || (r.pair in s.cands && exists c :: SoundCand(c) && t.cands == s.cands[r.pair := c]
                                                && (s.cands[r.pair].status == Resolved ==> c == s.cands[r.pair]))
  {
    var t := Step(s, r, now, refused).0;
    if t.cands != s.cands {
      var c := t.cands[r.pair];
      assert SoundCand(c) && t.cands == s.cands[r.pair := c];
    }
  }

  lemma StepKeeps(s: Store, r: Request, now: int, refused: bool)
    requires Sound(s)
    ensures Sound(Step(s, r, now, refused).0)
    ensures Keeps(s, Step(s, r, now, refused).0)
  {
    StepWritesOneCand(s, r, now, refused);
  }

  /** The scanner's write lands on a candidate that was resolved after the scanner read it open or dismissed. */
  predicate Raced(w: World, a: Act) {
    && a.Judge? && a.id in w.scans
    && (Deletes(w.scans[a.id], a.verdict) || Reopens(w.scans[a.id], a.verdict))
    && w.scans[a.id].pair in w.store.cands && w.store.cands[w.scans[a.id].pair].status == Resolved
  }

  /** One act of any actor keeps every resolution if and only if it is not such a write. */
  lemma DoKeeps(w: World, a: Act)
    requires Sound(w.store)
    ensures Keeps(w.store, Do(w, a).store) <==> !Raced(w, a)
    ensures !Raced(w, a) ==> Sound(Do(w, a).store)
  {
    if a.Advance? && a.id in w.live {
      StepKeeps(w.store, w.live[a.id], a.now, a.refused);
    } else if a.Judge? && a.id in w.scans {
      var p := w.scans[a.id].pair;
      assert Raced(w, a) ==>
          p in w.store.cands && !(p in Do(w, a).store.cands && Do(w, a).store.cands[p] == w.store.cands[p]);
    }
  }

  ghost predicate Unraced(w: World, acts: seq<Act>) {
    acts == [] || (Unraced(w, acts[..|acts| - 1]) && !Raced(Run(w, acts[..|acts| - 1]), acts[|acts| - 1]))
  }

  /** No act of the run changes a resolution that stood before it. */
  ghost predicate Lasting(w: World, acts: seq<Act>) {
    acts == []
    || (Lasting(w, acts[..|acts| - 1]) && Keeps(Run(w, acts[..|acts| - 1]).store, Run(w, acts).store))
  }

  /**
   * Whatever resolves, dismissals, reopens, failures, scans and outside writes interleave, a resolution once made lasts
   * unchanged - if and only if no write of the scanner lands on a candidate resolved since the scanner read it.
   */
  lemma {:induction false} ResolutionLasts(w: World, acts: seq<Act>)
    requires Sound(w.store)
    ensures Lasting(w, acts) <==> Unraced(w, acts)
    ensures Unraced(w, acts) ==> Sound(Run(w, acts).store)
    decreases |acts|
  {
    if acts != [] {
      hide Do, Sound, Keeps, Raced;
      ResolutionLasts(w, acts[..|acts| - 1]);
      if Unraced(w, acts[..|acts| - 1]) {
        DoKeeps(Run(w, acts[..|acts| - 1]), acts[|acts| - 1]);
      }
    }
  }

  /**
   * Without such a write: between any two points of a run, no resolution, its loser or its absence of a claim changes.
   */
  lemma {:induction false} ResolutionIsFinal(w: World, acts: seq<Act>, n: nat)
    requires Sound(w.store) && Unraced(w, acts) && n <= |acts|
    ensures Sound(Run(w, acts).store)
    ensures Sound(Run(w, acts[..n]).store) && Keeps(Run(w, acts[..n]).store, Run(w, acts).store)
    decreases |acts|
  {
    if n == |acts| {
      assert acts[..n] == acts;
      if acts != [] {
        ResolutionIsFinal(w, acts[..|acts| - 1], |acts| - 1);
        DoKeeps(Run(w, acts[..|acts| - 1]), acts[|acts| - 1]);
      }
    } else {
      var init := acts[..|acts| - 1];
      ResolutionIsFinal(w, init, n);
      assert init[..n] == acts[..n];
      DoKeeps(Run(w, init), acts[|acts| - 1]);
    }
  }

  lemma RunStep(w: World, acts: seq<Act>, a: Act)
    ensures Run(w, acts + [a]) == Do(Run(w, acts), a)
  {
    hide Do;
    assert (acts + [a])[..|acts|] == acts;
  }

  predicate CandIs(s: Store, p: Pair, c: Cand) { p in s.cands && s.cands[p] == c }

  /** A resolve as `edited` of an unclaimed candidate that is not resolved: read, claim, close. */
  lemma EditedCloses(s: Store, r: Request, status: Status)
    requires status != Resolved && r == Start(r.pair, Resolve(Edited))
    requires CandIs(s, r.pair, Cand(status, None, None, None))
    ensures var (s1, r1) := Step(s, r, 0, false);
            var (s2, r2) := Step(s1, r1, 0, false);
            var (s3, r3) := Step(s2, r2, 0, false);
            r3.pc.Done? && CandIs(s3, r.pair, Cand(Resolved, Some(AsEdited), None, None))
  {
    var (s1, r1) := Step(s, r, 0, false);
    assert s1 == s && r1 == r.(pc := TakeClaim);
    var (s2, r2) := Step(s1, r1, 0, false);
    assert r2.pc.Close? && CandIs(s2, r.pair, Cand(status, None, None, Some(Claim(Edited, 0, NOTHING))));
  }

  /** A request whose three next calls are known, in a world that makes them. */
  lemma ThreeCalls(w: World, acts: seq<Act>, id: nat)
    requires id in Run(w, acts).live
    ensures var v, call := Run(w, acts), Advance(id, 0, false);
            var (s1, r1) := Step(v.store, v.live[id], 0, false);
            var (s2, r2) := Step(s1, r1, 0, false);
            var (s3, r3) := Step(s2, r2, 0, false);
            var v' := Run(w, acts + [call] + [call] + [call]);
            v'.store == s3 && v'.scans == v.scans && id in v'.live && v'.live[id] == r3
  {
    var call := Advance(id, 0, false);
    RunStep(w, acts, call);
    RunStep(w, acts + [call], call);
    RunStep(w, acts + [call] + [call], call);
    hide Step, Run;
  }

  /**
   * A run that gets there: the scanner reads a dismissed candidate, a person resolves it, and the scanner's verdict
   * then opens it again with its resolution still on it.
   */
  lemma ScanReopensResolved(p: Pair, s: Store)
    requires CandIs(s, p, Cand(Dismissed, None, None, None))
    ensures var call := Advance(1, 0, false);
            var person := [See(0, p)] + [Arrive(1, p, Resolve(Edited))] + [call] + [call] + [call];
            var w := Run(World(s, map[], map[]), person + [Judge(0, Differ(true))]);
            1 in w.live && w.live[1].pc.Done? && CandIs(w.store, p, Cand(Open, Some(AsEdited), None, None))
  {
    var w0, call, arrive := World(s, map[], map[]), Advance(1, 0, false), Arrive(1, p, Resolve(Edited));
    assert Run(w0, []) == w0;
    assert [] + [See(0, p)] == [See(0, p)];
    RunStep(w0, [], See(0, p));
    RunStep(w0, [See(0, p)], arrive);
    EditedCloses(s, Start(p, Resolve(Edited)), Dismissed);
    hide Run;
    var v := Run(w0, [See(0, p)] + [arrive]);
    assert v == World(s, map[1 := Start(p, Resolve(Edited))], map[0 := Look(p, Some(Dismissed))]);
    hide Step;
    ThreeCalls(w0, [See(0, p)] + [arrive], 1);
    RunStep(w0, [See(0, p)] + [arrive] + [call] + [call] + [call], Judge(0, Differ(true)));
  }

  // ---- One choice writes ---------------------------------------------------------------------------------------

  /** One effect a resolve made: an edge drawn or a mark set, for a pair, by a choice. */
  datatype Event = Event(pair: Pair, choice: Choice)

  function EventsOf(w: World, a: Act): seq<Event> {
    if a.Advance? && a.id in w.live && w.live[a.id].job.Resolve?
       && ((w.live[a.id].pc == DrawLink && !a.refused) || w.live[a.id].pc == Retire)
    then [Event(w.live[a.id].pair, w.live[a.id].job.choice)] else []
  }

  /** The effects of a run, in order. */
  function Log(w: World, acts: seq<Act>): seq<Event> {
    if acts == [] then []
    else var init := acts[..|acts| - 1]; Log(w, init) + EventsOf(Run(w, init), acts[|acts| - 1])
  }

  /** The scanner changes no resolution and deletes no claimed candidate. */
  predicate Scanned(w: World, a: Act) {
    && !Raced(w, a)
    && (a.Judge? && a.id in w.scans && Deletes(w.scans[a.id], a.verdict) && w.scans[a.id].pair in w.store.cands ==>
          w.store.cands[w.scans[a.id].pair].claim.None?)
  }

  /**
   * No dismiss or reopen arrives, no scan gets in between, and no resolve reads the clock more than ten minutes after
   * another choice's claim on its pair was made.
   */
  predicate Calm(w: World, a: Act) {
    && Scanned(w, a)
    && (a.Arrive? ==> a.job.Resolve?)
    && (a.Advance? && a.id in w.live && w.live[a.id].job.Resolve? && w.live[a.id].pc == TakeClaim ==>
          var r := w.live[a.id];
          r.pair in w.store.cands && w.store.cands[r.pair].claim.Some?
          && w.store.cands[r.pair].claim.value.choice != r.job.choice ==>
            a.now <= w.store.cands[r.pair].claim.value.at + STALE_MS)
  }

  predicate CalmRun(w: World, acts: seq<Act>) {
    acts == [] || (CalmRun(w, acts[..|acts| - 1]) && Calm(Run(w, acts[..|acts| - 1]), acts[|acts| - 1]))
  }

  /** The pair is being resolved, or was resolved, by `ch`. */
  predicate OwnedBy(s: Store, p: Pair, ch: Choice) { SameClaim(s, p, ch) || SameResolved(s, p, ch) }

  lemma OneOwner(s: Store, p: Pair, c: Choice, d: Choice)
    requires Sound(s) && p.Wf() && OwnedBy(s, p, c) && OwnedBy(s, p, d)
    ensures c == d
  {
  }

  ghost predicate InOrder(s: Store, r: Request) {
    && r.job.Resolve?
    && !r.pc.Undo?
    && r.pc != DropRecord
    && !r.tookOver
    && (!r.pc.ReadPair? && !r.pc.TakeClaim? && !r.pc.Done? ==> OwnedBy(s, r.pair, r.job.choice))
    && (r.pc == LostCheck ==> SameResolved(s, r.pair, r.job.choice))
  }

  ghost predicate Ordered(w: World, log: seq<Event>) {
    && Sound(w.store)
    && (forall id :: id in w.live ==> InOrder(w.store, w.live[id]))
    && (forall i :: 0 <= i < |log| ==> OwnedBy(w.store, log[i].pair, log[i].choice))
  }

  lemma CalmKeepsOwner(w: World, a: Act, p: Pair, ch: Choice)
    requires Ordered(w, []) && Calm(w, a) && OwnedBy(w.store, p, ch)
    ensures OwnedBy(Do(w, a).store, p, ch)
  {
  }

  lemma CalmKeepsOrder(w: World, a: Act)
    requires Ordered(w, []) && Calm(w, a) && a.Advance? && a.id in w.live
    ensures var (s, r) := Step(w.store, w.live[a.id], a.now, a.refused); InOrder(s, r)
  {
  }

  lemma CalmStep(w: World, a: Act, log: seq<Event>)
    requires Ordered(w, log) && Calm(w, a)
    ensures Ordered(Do(w, a), log + EventsOf(w, a))
  {
    DoKeeps(w, a);
    var w' := Do(w, a);
    forall id | id in w'.live ensures InOrder(w'.store, w'.live[id]) {
      if a.Advance? && id == a.id {
        CalmKeepsOrder(w, a);
      } else if id in w.live && !w.live[id].pc.ReadPair? && !w.live[id].pc.TakeClaim? && !w.live[id].pc.Done? {
        hide Step;
        CalmKeepsOwner(w, a, w.live[id].pair, w.live[id].job.choice);
        if w.live[id].pc.LostCheck? {
          assert Keeps(w.store, w'.store);
        }
      }
    }
    hide Step;
    forall i | 0 <= i < |log + EventsOf(w, a)|
      ensures OwnedBy(w'.store, (log + EventsOf(w, a))[i].pair, (log + EventsOf(w, a))[i].choice)
    {
      var e := (log + EventsOf(w, a))[i];
      CalmKeepsOwner(w, a, e.pair, e.choice);
    }
  }

  lemma {:induction false} CalmRunIsOrdered(w: World, acts: seq<Act>)
    requires Ordered(w, []) && CalmRun(w, acts)
    ensures Ordered(Run(w, acts), Log(w, acts))
    decreases |acts|
  {
    if acts != [] {
      CalmRunIsOrdered(w, acts[..|acts| - 1]);
      CalmStep(Run(w, acts[..|acts| - 1]), acts[|acts| - 1], Log(w, acts[..|acts| - 1]));
    }
  }

  /** So no request of such a run takes a claim over: within the ten minutes the guard keeps every other choice out. */
  lemma CalmRunsTakeNothingOver(s: Store, acts: seq<Act>, id: nat)
    requires Sound(s) && CalmRun(World(s, map[], map[]), acts) && id in Run(World(s, map[], map[]), acts).live
    ensures !Run(World(s, map[], map[]), acts).live[id].tookOver
  {
    CalmRunIsOrdered(World(s, map[], map[]), acts);
  }

  /**
   * With no dismiss, reopen or scan of a pair in hand, and no clock read past ten minutes of another choice's claim,
   * however resolves interleave, fail and are repeated: every edge drawn and every mark set for one pair is the same
   * choice's, so the pair is never linked both ways.
   */
  lemma OneChoiceWrites(s: Store, acts: seq<Act>, i: nat, j: nat)
    requires Sound(s) && CalmRun(World(s, map[], map[]), acts)
    requires i < |Log(World(s, map[], map[]), acts)| && j < |Log(World(s, map[], map[]), acts)|
    requires Log(World(s, map[], map[]), acts)[i].pair == Log(World(s, map[], map[]), acts)[j].pair
    requires Log(World(s, map[], map[]), acts)[i].pair.Wf()
    ensures Log(World(s, map[], map[]), acts)[i].choice == Log(World(s, map[], map[]), acts)[j].choice
  {
    var w := World(s, map[], map[]);
    CalmRunIsOrdered(w, acts);
    var log := Log(w, acts);
    OneOwner(Run(w, acts).store, log[i].pair, log[i].choice, log[j].choice);
  }

  // ---- Takeovers, dismissals and reopens: what stands when nothing is in flight ----------------------------------

  /** The edge belongs to a closed candidate's own choice. */
  ghost predicate Settled(s: Store, l: Link) {
    exists p, ch :: SameResolved(s, p, ch) && LinkOf(p, ch) == Some(l)
  }

  /** A request in flight drew the edge, and will close on it or take it back. */
  predicate Answers(r: Request, l: Link) {
    && r.mine.link == Some(l)
    && !r.pc.DrawLink? && !r.pc.UnrecordLink? && !r.pc.Done?
    && (r.pc.Undo? && r.pc.phase == Own ==> r.pc.stage == DeleteLink)
  }

  ghost predicate Held(w: World, l: Link) { exists id :: id in w.live && Answers(w.live[id], l) }

  /** The steps of a resolve up to recording its edge. */
  predicate Early(pc: Pc) {
    match pc
    case ReadPair | TakeClaim | DropRecord | Reread | FindLink | RecordLink => true
    case Undo(ph, _) => ph.First?
    case _ => false
  }

  /** What a request recorded is its own choice's edge, and only a resolve records one. */
  predicate RecordsItsOwn(r: Request) {
    && (r.mine.link.Some? ==> r.job.Resolve? && r.mine.link == LinkOf(r.pair, r.job.choice))
    && (Early(r.pc) ==> r.mine.link.None?)
    && (r.job.Resolve? ==> !r.pc.ReleaseClaim? && !(r.pc.Undo? && r.pc.phase.Release?))
    && (r.job.Resolve? && r.pc == RecordLink ==> LinkOf(r.pair, r.job.choice).Some?)
    && (r.job.Resolve? && r.pc == DrawLink ==> r.mine.link.Some?)
  }

  /** A takeover between its claim and dropping what the claim it took had recorded. */
  predicate Taking(pc: Pc) { (pc.Undo? && pc.phase.First?) || pc.DropRecord? }

  /** The pair's claim is the choice's that draws the edge, and records it. */
  predicate RecordedBy(s: Store, p: Pair, ch: Choice, l: Link) {
    SameClaim(s, p, ch) && LinkOf(p, ch) == Some(l) && s.cands[p].claim.value.wrote.link == Some(l)
  }

  /** A request of the same choice that may yet take the record off: inside its takeover, or having found no edge. */
  predicate MayUnrecord(r: Request, p: Pair, ch: Choice) {
    && r.pair == p && r.job == Resolve(ch)
    && (Taking(r.pc) || r.pc.RecordLink? || r.pc.DrawLink? || r.pc.UnrecordLink?)
  }

  ghost predicate SafelyRecorded(s: Store, live: map<nat, Request>, p: Pair, ch: Choice, l: Link) {
    RecordedBy(s, p, ch, l) && forall id :: id in live ==> !MayUnrecord(live[id], p, ch)
  }

  /**
   * A later takeover, dismiss or reopen will find the edge on the claim and delete it; the choice's own resolve will
   * close on it.
   */
  ghost predicate Kept(w: World, l: Link) { exists p, ch :: SafelyRecorded(w.store, w.live, p, ch, l) }

  /** A request that took the claim over, or released it, is about to delete the edge it had recorded. */
  predicate Deleting(r: Request, l: Link) {
    r.pc.Undo? && (r.pc.phase.First? || r.pc.phase.Release?) && r.pc.stage.DeleteLink? && r.prior.link == Some(l)
  }

  ghost predicate Doomed(w: World, l: Link) { exists id :: id in w.live && Deleting(w.live[id], l) }

  ghost predicate Accounted(w: World, before: set<Link>) {
    && Sound(w.store)
    && (forall id :: id in w.live ==> RecordsItsOwn(w.live[id]))
    && (forall l :: l in w.store.links ==> Covered(w, before, l))
  }

  ghost predicate Covered(w: World, before: set<Link>, l: Link) {
    l in before || Settled(w.store, l) || Held(w, l) || Kept(w, l) || Doomed(w, l)
  }

  /**
   * No edge is drawn from outside, the scanner keeps off what is in hand, and a request is cut off neither between
   * taking a claim over or off and deleting the edge it had recorded, nor with its own edge standing unless the pair's
   * claim still records that and no request of the same choice may take the record off.
   */
  ghost predicate Attended(w: World, a: Act) {
    && Scanned(w, a)
    && (a.Outside? ==> a.links == w.store.links)
    && (a.Crash? && a.id in w.live ==>
          var r := w.live[a.id];
          && (forall l :: l in w.store.links ==> !Deleting(r, l))
          && (forall l :: l in w.store.links && Answers(r, l) && r.job.Resolve? ==>
                SafelyRecorded(w.store, w.live - {a.id}, r.pair, r.job.choice, l)))
  }

  ghost predicate AttendedRun(w: World, acts: seq<Act>) {
    acts == [] || (AttendedRun(w, acts[..|acts| - 1]) && Attended(Run(w, acts[..|acts| - 1]), acts[|acts| - 1]))
  }

  lemma SettledStays(s: Store, t: Store, l: Link)
    requires Keeps(s, t) && Settled(s, l)
    ensures Settled(t, l)
  {
    var p, ch :| SameResolved(s, p, ch) && LinkOf(p, ch) == Some(l);
    assert SameResolved(t, p, ch);
  }

  /** One step of the request that answers for an edge: it still does, or the edge is settled, or it is gone. */
  lemma AnswererStep(s: Store, r: Request, now: int, refused: bool, l: Link)
    requires Sound(s) && RecordsItsOwn(r) && Answers(r, l)
    ensures var (t, r') := Step(s, r, now, refused); Answers(r', l) || Settled(t, l) || l !in t.links
  {
    var (t, r') := Step(s, r, now, refused);
    if !Answers(r', l) && l in t.links {
      assert SameResolved(t, r.pair, r.job.choice);
    }
  }

  /** What a request's step does to a claim that records an edge it does not delete. */
  lemma RecordStays(s: Store, r: Request, now: int, refused: bool, p: Pair, ch: Choice, l: Link)
    requires Sound(s) && RecordsItsOwn(r) && RecordedBy(s, p, ch, l) && !MayUnrecord(r, p, ch) && l in s.links
    ensures var (t, r') := Step(s, r, now, refused);
            l in t.links ==>
                (RecordedBy(t, p, ch, l) && !MayUnrecord(r', p, ch)) || SameResolved(t, p, ch) || Deleting(r', l)
  {
    StepKeepsAimOf(s, r, now, refused);
    if r.pair != p {
      OthersStay(s, r, now, refused);
      hide Step;
    } else if r.pc.Undo? {
      UndoStays(s, r);
      hide UndoStep;
    } else if r.job.Resolve? {
      ResolveRecordStays(s, r, now, refused, ch, l);
      hide ResolveStep;
    }
  }

  lemma StepKeepsAimOf(s: Store, r: Request, now: int, refused: bool)
    ensures var q := Step(s, r, now, refused).1; q.job == r.job && q.pair == r.pair
  {
  }

  lemma OthersStay(s: Store, r: Request, now: int, refused: bool)
    ensures var t := Step(s, r, now, refused).0;
            forall p :: p != r.pair ==> (p in t.cands <==> p in s.cands) && (p in s.cands ==> t.cands[p] == s.cands[p])
  {
  }

  lemma UndoStays(s: Store, r: Request)
    requires r.pc.Undo?
    ensures var (t, r') := UndoStep(s, r, r.pc.phase, r.pc.stage);
            t.cands == s.cands && (Taking(r'.pc) ==> Taking(r.pc)) && !r'.pc.RecordLink? && !r'.pc.DrawLink?
                && !r'.pc.UnrecordLink?
  {
  }

  lemma ResolveRecordStays(s: Store, r: Request, now: int, refused: bool, ch: Choice, l: Link)
    requires Sound(s) && r.job.Resolve? && !r.pc.Undo? && RecordsItsOwn(r)
    requires RecordedBy(s, r.pair, ch, l) && !MayUnrecord(r, r.pair, ch) && l in s.links
    ensures var (t, r') := ResolveStep(s, r, r.job.choice, now, refused);
            || (RecordedBy(t, r.pair, ch, l) && !MayUnrecord(r', r.pair, ch)) || SameResolved(t, r.pair, ch)
                || Deleting(r', l)
  {
  }

  lemma KeptStep(w: World, a: Act, l: Link)
    requires Sound(w.store) && Kept(w, l) && l in w.store.links && l in Do(w, a).store.links
    requires a.Advance? && a.id in w.live && RecordsItsOwn(w.live[a.id])
    ensures Kept(Do(w, a), l) || Settled(Do(w, a).store, l) || Doomed(Do(w, a), l)
  {
    var p, ch :| SafelyRecorded(w.store, w.live, p, ch, l);
    var (t, r') := Step(w.store, w.live[a.id], a.now, a.refused);
    RecordStays(w.store, w.live[a.id], a.now, a.refused, p, ch, l);
    hide Step, RecordedBy, SameResolved, MayUnrecord;
    var w' := Do(w, a);
    assert w'.store == t && w'.live == w.live[a.id := r'];
    if RecordedBy(t, p, ch, l) && !MayUnrecord(r', p, ch) {
      assert SafelyRecorded(w'.store, w'.live, p, ch, l);
    } else if SameResolved(t, p, ch) {
      assert LinkOf(p, ch) == Some(l) by { RecordedLink(w.store, p, ch, l); }
    } else {
      assert Deleting(w'.live[a.id], l);
    }
  }

  lemma RecordedLink(s: Store, p: Pair, ch: Choice, l: Link)
    requires RecordedBy(s, p, ch, l)
    ensures LinkOf(p, ch) == Some(l)
  {
  }

  /** A request that is about to delete an edge deletes it. */
  lemma DeleterStep(s: Store, r: Request, now: int, refused: bool, l: Link)
    requires Deleting(r, l)
    ensures l !in Step(s, r, now, refused).0.links
  {
  }

  /** An edge a step adds is the one the request recorded. */
  lemma DrawerStep(s: Store, r: Request, now: int, refused: bool, l: Link)
    requires RecordsItsOwn(r) && l !in s.links && l in Step(s, r, now, refused).0.links
    ensures Answers(Step(s, r, now, refused).1, l)
  {
  }

  lemma AdvanceAccounts(w: World, a: Act, before: set<Link>, l: Link)
    requires Accounted(w, before) && a.Advance? && a.id in w.live && l in Do(w, a).store.links
    ensures Covered(Do(w, a), before, l)
  {
    var w' := Do(w, a);
    DoKeeps(w, a);
    if l !in w.store.links {
      DrawerStep(w.store, w.live[a.id], a.now, a.refused, l);
      hide Step;
      assert a.id in w'.live && Answers(w'.live[a.id], l);
    } else {
      hide Step, Answers, Deleting, Sound, RecordsItsOwn, Settled, Kept, Keeps;
      assert Covered(w, before, l);
      assert w'.live == w.live[a.id := w'.live[a.id]];
      if Settled(w.store, l) {
        SettledStays(w.store, w'.store, l);
      } else if Kept(w, l) {
        KeptStep(w, a, l);
      } else if Held(w, l) {
        var id :| id in w.live && Answers(w.live[id], l);
        if id == a.id {
          AnswererStep(w.store, w.live[id], a.now, a.refused, l);
        }
        assert id in w'.live && (id != a.id ==> w'.live[id] == w.live[id]);
      } else if Doomed(w, l) {
        var id :| id in w.live && Deleting(w.live[id], l);
        if id == a.id {
          DeleterStep(w.store, w.live[id], a.now, a.refused, l);
        }
        assert id in w'.live && w'.live[id] == w.live[id];
      }
    }
  }

  lemma UndoRecordsItsOwn(s: Store, r: Request, now: int, refused: bool)
    requires RecordsItsOwn(r) && r.pc.Undo?
    ensures RecordsItsOwn(Step(s, r, now, refused).1)
  {
    var (t, r') := UndoStep(s, r, r.pc.phase, r.pc.stage);
    assert r'.mine == r.mine && r'.pair == r.pair && r'.job == r.job;
  }

  lemma ResolveRecordsItsOwn(s: Store, r: Request, now: int, refused: bool)
    requires RecordsItsOwn(r) && r.job.Resolve? && !r.pc.Undo?
    ensures RecordsItsOwn(ResolveStep(s, r, r.job.choice, now, refused).1)
  {
    var r' := ResolveStep(s, r, r.job.choice, now, refused).1;
    assert r'.pair == r.pair && r'.job == r.job;
    if Early(r.pc) && !r.pc.RecordLink? {
      assert r'.mine == r.mine;
    }
  }

  lemma StepRecordsItsOwn(s: Store, r: Request, now: int, refused: bool)
    requires RecordsItsOwn(r)
    ensures RecordsItsOwn(Step(s, r, now, refused).1)
  {
    if r.pc.Undo? {
      hide Step;
      UndoRecordsItsOwn(s, r, now, refused);
    } else if r.job.Resolve? {
      hide ResolveStep, RecordsItsOwn;
      ResolveRecordsItsOwn(s, r, now, refused);
    }
  }

  /** Anything but a step of a request: what covered an edge still does. */
  lemma OtherActAccounts(w: World, a: Act, before: set<Link>, l: Link)
    requires Accounted(w, before) && Attended(w, a) && !(a.Advance? && a.id in w.live) && l in Do(w, a).store.links
    ensures Covered(Do(w, a), before, l)
  {
    var w' := Do(w, a);
    DoKeeps(w, a);
    assert Covered(w, before, l);
    if Settled(w.store, l) {
      SettledStays(w.store, w'.store, l);
    } else if Kept(w, l) {
      OtherActKeeps(w, a, l);
    } else if Held(w, l) {
      var id :| id in w.live && Answers(w.live[id], l);
      if a.Crash? && id == a.id {
        assert SafelyRecorded(w'.store, w'.live, w.live[id].pair, w.live[id].job.choice, l);
      } else {
        assert id in w'.live && w'.live[id] == w.live[id];
      }
    } else if Doomed(w, l) {
      var id :| id in w.live && Deleting(w.live[id], l);
      assert id in w'.live && w'.live[id] == w.live[id];
    }
  }

  lemma OtherActKeeps(w: World, a: Act, l: Link)
    requires Kept(w, l) && Attended(w, a) && !(a.Advance? && a.id in w.live)
    ensures Kept(Do(w, a), l)
  {
    var p, ch :| SafelyRecorded(w.store, w.live, p, ch, l);
    var w' := Do(w, a);
    assert p in w'.store.cands && w'.store.cands[p].claim == w.store.cands[p].claim;
    forall id | id in w'.live ensures !MayUnrecord(w'.live[id], p, ch) {
      if id in w.live {
        assert w'.live[id] == w.live[id];
      }
    }
    assert SafelyRecorded(w'.store, w'.live, p, ch, l);
  }

  lemma AccountedStep(w: World, a: Act, before: set<Link>)
    requires Accounted(w, before) && Attended(w, a)
    ensures Accounted(Do(w, a), before)
  {
    var w' := Do(w, a);
    DoKeeps(w, a);
    forall id | id in w'.live ensures RecordsItsOwn(w'.live[id]) {
      if a.Advance? && a.id == id {
        StepRecordsItsOwn(w.store, w.live[id], a.now, a.refused);
      }
    }
    forall l | l in w'.store.links ensures Covered(w', before, l) {
      hide Step, Covered, RecordsItsOwn;
      if a.Advance? && a.id in w.live {
        AdvanceAccounts(w, a, before, l);
      } else {
        OtherActAccounts(w, a, before, l);
      }
    }
  }

  lemma {:induction false} AttendedRunAccounts(w: World, acts: seq<Act>, before: set<Link>)
    requires Accounted(w, before) && AttendedRun(w, acts)
    ensures Accounted(Run(w, acts), before)
    decreases |acts|
  {
    hide *;
    AttendedRunIs(w, acts);
    if acts != [] {
      AttendedRunAccounts(w, acts[..|acts| - 1], before);
      AccountedStep(Run(w, acts[..|acts| - 1]), acts[|acts| - 1], before);
    }
  }

  lemma AttendedRunIs(w: World, acts: seq<Act>)
    requires AttendedRun(w, acts)
    ensures acts == [] ==> Run(w, acts) == w
    ensures acts != [] ==>
              var init, a := acts[..|acts| - 1], acts[|acts| - 1];
              AttendedRun(w, init) && Attended(Run(w, init), a) && Run(w, acts) == Do(Run(w, init), a)
  {
    hide Do, Attended;
  }

  /** The edge is the choice's own of a candidate closed by it, or claimed by it with the edge on the claim. */
  ghost predicate Owned(s: Store, l: Link) {
    exists p, ch :: LinkOf(p, ch) == Some(l) && (SameResolved(s, p, ch) || RecordedBy(s, p, ch, l))
  }

  /**
   * Takeovers, dismissals, reopens and cut-off resolves included: once no request is in flight, an edge the run drew
   * stands only for a candidate closed by the very choice that draws it, or recorded on the claim of that choice, where
   * the next takeover or release deletes it; and no pair is left linked both ways.
   */
  lemma StandingEdgesAreOwned(s: Store, acts: seq<Act>, p: Pair)
    requires Sound(s) && AttendedRun(World(s, map[], map[]), acts)
    requires forall id ::
      id in Run(World(s, map[], map[]), acts).live ==> Run(World(s, map[], map[]), acts).live[id].pc == Done
    requires p.Wf() && forall q :: q in Run(World(s, map[], map[]), acts).store.cands ==> q.Wf()
    ensures var t := Run(World(s, map[], map[]), acts).store;
            && (forall l :: l in t.links && l !in s.links ==> Owned(t, l))
            && !(Link(p.kind, p.a, p.b) in t.links - s.links && Link(p.kind, p.b, p.a) in t.links - s.links)
  {
    var w := World(s, map[], map[]);
    assert Accounted(w, s.links);
    AttendedRunAccounts(w, acts, s.links);
    var v := Run(w, acts);
    forall l | l in v.store.links && l !in s.links ensures Owned(v.store, l) {
      hide Run;
      QuietIsOwned(v, s.links, l);
    }
    OneWayOwned(v.store, p);
  }

  lemma QuietIsOwned(v: World, before: set<Link>, l: Link)
    requires Covered(v, before, l) && l !in before
    requires forall id :: id in v.live ==> v.live[id].pc == Done
    ensures Owned(v.store, l)
  {
    if Kept(v, l) {
      var p, ch :| SafelyRecorded(v.store, v.live, p, ch, l);
      assert RecordedBy(v.store, p, ch, l);
    }
  }

  lemma OneWayOwned(t: Store, p: Pair)
    requires Sound(t) && p.Wf() && forall q :: q in t.cands ==> q.Wf()
    ensures !(Owned(t, Link(p.kind, p.a, p.b)) && Owned(t, Link(p.kind, p.b, p.a)))
  {
    forall q, c, q', d | OwnedBy(t, q, c) && OwnedBy(t, q', d)
      ensures !(LinkOf(q, c) == Some(Link(p.kind, p.a, p.b)) && LinkOf(q', d) == Some(Link(p.kind, p.b, p.a)))
    {
      if q == q' {
        OneOwner(t, q, c, d);
      }
    }
  }
}
