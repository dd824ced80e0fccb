/**
 Placement under short claims: any number of replicas, each with its placement
 sweep, its admission workers and the two sweeps that claim a session only to settle
 its commands, over one store and one monotone clock.

 A claim lapses at any time and is not a fence. What keeps two attaches of one
 session from being outstanding together is the ordering of three durations and
 the names workers claim under, and both are shown to be needed.
 */
module AttachExclusion {
  import opened Framing
  import opened Holders

  type Session = nat
  type Instant = int

  // ------------------------------------------------------------------ limits

  const SECOND: int := 1_000_000_000
  const DEFAULT_PASS_TIMEOUT: int := 10 * SECOND

  datatype Limits = Limits(interval: int, claimTTL: int, applyDeadline: int,
                           maxDue: int, maxConcurrent: int, passTimeout: int)
  {
    /** The pass bound in force: zero means the default. */
    function PassTimeout(): int { if passTimeout == 0 then DEFAULT_PASS_TIMEOUT else passTimeout }

    predicate Accepted() {
      && interval > 0 && passTimeout >= 0 && claimTTL > 0 && applyDeadline > 0
      && maxDue >= 1 && maxConcurrent >= 1
      && interval < claimTTL && claimTTL < applyDeadline && PassTimeout() < claimTTL
    }
  }

  /** ReconcileLimits.Validate: each check in its turn. */
  method Validate(l: Limits) returns (ok: bool)
    ensures ok <==> l.Accepted()
    ensures ok && l.passTimeout == 0 ==> 10_000_000_000 < l.claimTTL
    ensures ok && l.passTimeout != 0 ==> 0 < l.passTimeout < l.claimTTL
  {
    if l.interval <= 0 || l.passTimeout < 0 { return false; }
    if l.claimTTL <= 0 || l.applyDeadline <= 0 { return false; }
    if l.maxDue < 1 || l.maxConcurrent < 1 { return false; }
    if l.interval >= l.claimTTL { return false; }
    if l.claimTTL >= l.applyDeadline { return false; }
    ok := l.PassTimeout() < l.claimTTL;
  }

  // ------------------------------------------------------------------- state

  datatype Claim = Unclaimed | Held(holder: Bytes, expires: Instant)

  /** What one worker is doing. Every call it makes carries the pass's deadline. */
  datatype Phase =
    | Away
    | Passing(deadline: Instant)
    | Deciding(deadline: Instant, session: Session, now: Instant)
    | Placing(deadline: Instant, session: Session, now: Instant)
    | Attaching(deadline: Instant, session: Session, now: Instant)
    | Sweeping(now: Instant, held: set<Session>) // a sweep that never attaches, and the claims it took

  datatype State = State(time: Instant, claims: map<Session, Claim>, phases: map<Worker, Phase>)

  datatype Fleet = Fleet(workers: set<Worker>, digest: Bytes -> Bytes, passTimeout: int, claimTTL: int)
  {
    function Holder(w: Worker): Bytes { HolderOf(digest, w) }
  }

  function ClaimOf(s: State, session: Session): Claim {
    if session in s.claims then s.claims[session] else Unclaimed
  }

  /** The store's grant: nobody's claim, a lapsed one, or the caller's own to extend. */
  predicate Grants(claim: Claim, holder: Bytes, time: Instant) {
    claim.Unclaimed? || claim.holder == holder || time >= claim.expires
  }

  datatype Action =
    | Tick(to: Instant)
    | BeginPass(w: Worker)
    | EndPass(w: Worker)
    | ReadClock(w: Worker, session: Session)
    | AcquireGranted(w: Worker)
    | AcquireHeld(w: Worker)
    | StartAttach(w: Worker)
    | EndAttach(w: Worker)
    | Release(w: Worker, lost: bool)
    | BeginSweep(w: Worker)
    | SweepClaim(w: Worker, session: Session)
    | SweepRelease(w: Worker, session: Session, lost: bool)
    | EndSweep(w: Worker)
    | OtherAcquire(holder: Bytes, session: Session, expires: Instant)
    | OtherRelease(holder: Bytes, session: Session)

  ghost predicate Foreign(f: Fleet, holder: Bytes) { forall w :: w in f.workers ==> f.Holder(w) != holder }

  function Move(s: State, w: Worker, phase: Phase): State { s.(phases := s.phases[w := phase]) }

  function SetClaim(s: State, session: Session, claim: Claim): State { s.(claims := s.claims[session := claim]) }

  /** The store's release: of the claim that stands, if it is under this worker's holder. Its answer may be lost. */
  function GiveBack(f: Fleet, s: State, w: Worker, session: Session, lost: bool): State {
    var claim := ClaimOf(s, session);
    if !lost && claim.Held? && claim.holder == f.Holder(w) then SetClaim(s, session, Unclaimed) else s
  }

  /** A call in flight holds the clock: every call returns by its context's deadline. */
  ghost predicate CallsReturnBy(s: State, to: Instant) {
    forall w :: w in s.phases && s.phases[w].Attaching? ==> to <= s.phases[w].deadline
  }

  ghost predicate Next(f: Fleet, s: State, a: Action, t: State) {
    match a
    case Tick(to) => s.time <= to && CallsReturnBy(s, to) && t == s.(time := to)
    case BeginPass(w) =>
      Attaches(w.role) && w in s.phases && s.phases[w].Away? && t == Move(s, w, Passing(s.time + f.passTimeout))
    case EndPass(w) => w in s.phases && s.phases[w].Passing? && t == Move(s, w, Away)
    case ReadClock(w, session) =>
      w in s.phases && s.phases[w].Passing? && t == Move(s, w, Deciding(s.phases[w].deadline, session, s.time))
    case AcquireGranted(w) =>
      && w in s.phases && s.phases[w].Deciding?
      && var p := s.phases[w];
      && Grants(ClaimOf(s, p.session), f.Holder(w), s.time)
      && t == Move(SetClaim(s, p.session, Held(f.Holder(w), p.now + f.claimTTL)), w,
                   Phase.Placing(p.deadline, p.session, p.now))
    case AcquireHeld(w) => // refused or failed: defer, or report the failure
      w in s.phases && s.phases[w].Deciding? && t == Move(s, w, Passing(s.phases[w].deadline))
    case StartAttach(w) =>
      && Attaches(w.role) && w in s.phases && s.phases[w].Placing? && s.time <= s.phases[w].deadline
      && t == Move(s, w, Attaching(s.phases[w].deadline, s.phases[w].session, s.phases[w].now))
    case EndAttach(w) =>
      && w in s.phases && s.phases[w].Attaching?
      && t == Move(s, w, Phase.Placing(s.phases[w].deadline, s.phases[w].session, s.phases[w].now))
    case Release(w, lost) =>
      && w in s.phases && s.phases[w].Placing?
      && var p := s.phases[w];
      t == GiveBack(f, Move(s, w, Passing(p.deadline)), w, p.session, lost)
    case BeginSweep(w) =>
      !Attaches(w.role) && w in s.phases && s.phases[w].Away? && t == Move(s, w, Sweeping(s.time, {}))
    case SweepClaim(w, session) =>
      && w in s.phases && s.phases[w].Sweeping? && session !in s.phases[w].held
      && Grants(ClaimOf(s, session), f.Holder(w), s.time)
      && var p := s.phases[w];
      t == Move(SetClaim(s, session, Held(f.Holder(w), p.now + f.claimTTL)), w, p.(held := p.held + {session}))
    case SweepRelease(w, session, lost) =>
      && w in s.phases && s.phases[w].Sweeping? && session in s.phases[w].held
      && var p := s.phases[w];
      t == GiveBack(f, Move(s, w, p.(held := p.held - {session})), w, session, lost)
    case EndSweep(w) => w in s.phases && s.phases[w].Sweeping? && s.phases[w].held == {} && t == Move(s, w, Away)
    case OtherAcquire(holder, session, expires) =>
      Foreign(f, holder) && Grants(ClaimOf(s, session), holder, s.time) &&
        t == SetClaim(s, session, Held(holder, expires))
    case OtherRelease(holder, session) =>
      && Foreign(f, holder) && ClaimOf(s, session).Held? && ClaimOf(s, session).holder == holder
      && t == SetClaim(s, session, Unclaimed)
  }

  ghost predicate Init(f: Fleet, s: State) {
    s.phases.Keys == f.workers && forall w :: w in s.phases ==> s.phases[w] == Away
  }

  ghost predicate Run(f: Fleet, states: seq<State>, actions: seq<Action>) {
    && |states| == |actions| + 1 && Init(f, states[0])
    && forall i :: 0 <= i < |actions| ==> Next(f, states[i], actions[i], states[i + 1])
  }

  /** No two attaches of one session are outstanding. */
  ghost predicate Exclusive(s: State) {
    forall w, v ::
      (w in s.phases && v in s.phases && s.phases[w].Attaching? && s.phases[v].Attaching?
       && s.phases[w].session == s.phases[v].session) ==> w == v
  }

  ghost predicate AlwaysExclusive(f: Fleet) {
    forall states, actions :: Run(f, states, actions) ==>
      forall i :: 0 <= i < |states| ==> Exclusive(states[i])
  }

  // --------------------------------------------------------------- sufficiency

  /** Until the horizon it asked for passes, a placing worker's claim is still its own. */
  ghost predicate WorkerInv(f: Fleet, s: State, w: Worker)
    requires w in s.phases
  {
    match s.phases[w]
    case Away => true
    case Passing(deadline) => deadline <= s.time + f.passTimeout
    case Deciding(deadline, session, now) => now <= s.time && deadline <= now + f.passTimeout
    case Placing(deadline, session, now) =>
      && now <= s.time && deadline <= now + f.passTimeout
      && (s.time < now + f.claimTTL ==> ClaimOf(s, session) == Held(f.Holder(w), now + f.claimTTL))
    case Attaching(deadline, session, now) =>
      && now <= s.time <= deadline && deadline <= now + f.passTimeout
      && ClaimOf(s, session) == Held(f.Holder(w), now + f.claimTTL)
    case Sweeping(_, _) => true
  }

  ghost predicate Kept(f: Fleet, s: State, w: Worker) {
    w in s.phases && WorkerInv(f, s, w) && (!Attaches(w.role) ==> s.phases[w].Away? || s.phases[w].Sweeping?)
  }

  ghost predicate Inv(f: Fleet, s: State) {
    s.phases.Keys == f.workers && forall w :: w in s.phases ==> Kept(f, s, w)
  }

  ghost predicate Sound(f: Fleet) { AttachersApart(f.digest, f.workers) && f.passTimeout < f.claimTTL }

  /** The claim of a worker that attaches is touched under no other worker's holder. */
  lemma {:induction false} OwnHolder(f: Fleet, s: State, w: Worker, v: Worker)
    requires Sound(f) && Inv(f, s) && w in s.phases && v in s.phases
    ensures s.phases[w].Placing? || s.phases[w].Attaching? ==> (f.Holder(w) == f.Holder(v) ==> w == v)
  {
    assert Kept(f, s, w);
  }

  /** A granted acquire takes nobody else's unlapsed claim. */
  lemma {:induction false} AcquireKeeps(f: Fleet, s: State, v: Worker, t: State, w: Worker)
    requires Sound(f) && Inv(f, s) && Next(f, s, AcquireGranted(v), t) && w in s.phases
    ensures Kept(f, t, w)
  {
    assert Kept(f, s, w) && Kept(f, s, v);
    OwnHolder(f, s, w, v);
    hide AttachersApart;
  }

  lemma {:induction false} ReleaseKeeps(f: Fleet, s: State, v: Worker, lost: bool, t: State, w: Worker)
    requires Sound(f) && Inv(f, s) && Next(f, s, Release(v, lost), t) && w in s.phases
    ensures Kept(f, t, w)
  {
    assert Kept(f, s, w) && Kept(f, s, v);
    OwnHolder(f, s, w, v);
    hide AttachersApart;
  }

  /** A sweep extends and gives back no claim but its own. */
  lemma {:induction false} SweepKeeps(f: Fleet, s: State, a: Action, t: State, w: Worker)
    requires Sound(f) && Inv(f, s) && Next(f, s, a, t) && w in s.phases && (a.SweepClaim? || a.SweepRelease?)
    ensures Kept(f, t, w)
  {
    assert Kept(f, s, w);
    OwnHolder(f, s, w, a.w);
    hide AttachersApart;
  }

  lemma {:induction false} OthersKeep(f: Fleet, s: State, a: Action, t: State, w: Worker)
    requires Sound(f) && Inv(f, s) && Next(f, s, a, t) && w in s.phases
    requires a.Tick? || a.OtherAcquire? || a.OtherRelease?
    ensures Kept(f, t, w)
  {
    assert Kept(f, s, w);
  }

  lemma {:induction false} LocalKeeps(f: Fleet, s: State, a: Action, t: State, w: Worker)
    requires Sound(f) && Inv(f, s) && Next(f, s, a, t) && w in s.phases
    requires !a.Tick? && !a.OtherAcquire? && !a.OtherRelease? && !a.AcquireGranted? && !a.Release?
    requires !a.SweepClaim? && !a.SweepRelease?
    ensures Kept(f, t, w)
  {
    assert Kept(f, s, w);
  }

  lemma {:induction false} SameWorkers(f: Fleet, s: State, a: Action, t: State)
    requires Next(f, s, a, t)
    ensures t.phases.Keys == s.phases.Keys
  {}

  lemma {:induction false} KeptStep(f: Fleet, s: State, a: Action, t: State, w: Worker)
    requires Sound(f) && Inv(f, s) && Next(f, s, a, t) && w in s.phases
    ensures Kept(f, t, w)
  {
    hide Sound, Inv, Kept, Next;
    match a
    case AcquireGranted(v) => AcquireKeeps(f, s, v, t, w);
    case Release(v, lost) => ReleaseKeeps(f, s, v, lost, t, w);
    case SweepClaim(_, _) => SweepKeeps(f, s, a, t, w);
    case SweepRelease(_, _, _) => SweepKeeps(f, s, a, t, w);
    case Tick(_) => OthersKeep(f, s, a, t, w);
    case OtherAcquire(_, _, _) => OthersKeep(f, s, a, t, w);
    case OtherRelease(_, _) => OthersKeep(f, s, a, t, w);
    case _ => LocalKeeps(f, s, a, t, w);
  }

  lemma {:induction false} InvStep(f: Fleet, s: State, a: Action, t: State)
    requires Sound(f) && Inv(f, s) && Next(f, s, a, t)
    ensures Inv(f, t)
  {
    SameWorkers(f, s, a, t);
    hide Sound, Kept, Next;
    forall w | w in t.phases
      ensures Kept(f, t, w)
    {
      KeptStep(f, s, a, t, w);
    }
  }

  lemma {:induction false} InvAlong(f: Fleet, states: seq<State>, actions: seq<Action>, i: nat)
    requires Sound(f) && Run(f, states, actions) && i < |states|
    ensures Inv(f, states[i])
  {
    if i > 0 {
      InvAlong(f, states, actions, i - 1);
      InvStep(f, states[i - 1], actions[i - 1], states[i]);
    }
  }

  lemma SoundIsExclusive(f: Fleet)
    requires Sound(f)
    ensures AlwaysExclusive(f)
  {
    forall states: seq<State>, actions: seq<Action>, i | Run(f, states, actions) && 0 <= i < |states|
      ensures Exclusive(states[i])
    {
      InvAlong(f, states, actions, i);
      var s := states[i];
      forall w, v | w in s.phases && v in s.phases && s.phases[w].Attaching? && s.phases[v].Attaching?
                    && s.phases[w].session == s.phases[v].session
        ensures w == v
      {
        assert Kept(f, s, w) && Kept(f, s, v);
      }
    }
  }

  /** Limits a composition accepts order the pass bound below the claim's. */
  lemma {:induction false} AcceptedLimitsAreExclusive(limits: Limits, workers: set<Worker>, digest: Bytes -> Bytes)
    requires limits.Accepted() && AttachersSeparated(digest, workers)
    ensures AlwaysExclusive(Fleet(workers, digest, limits.PassTimeout(), limits.claimTTL))
  {
    ApartExactlyWhenSeparated(digest, workers);
    SoundIsExclusive(Fleet(workers, digest, limits.PassTimeout(), limits.claimTTL));
  }

  /** With accepted limits and ids a deployer can check one by one, attaches exclude each other in every run. */
  lemma {:induction false} PlainDeploymentIsExclusive(limits: Limits, workers: set<Worker>, digest: Bytes -> Bytes)
    requires limits.Accepted() && PlainIds(workers)
    ensures AlwaysExclusive(Fleet(workers, digest, limits.PassTimeout(), limits.claimTTL))
  {
    PlainIdsSeparate(digest, workers);
    AcceptedLimitsAreExclusive(limits, workers, digest);
  }

  // ----------------------------------------------------------------- necessity

  ghost predicate Steps(f: Fleet, states: seq<State>, actions: seq<Action>) {
    |states| == |actions| + 1 && forall i :: 0 <= i < |actions| ==> Next(f, states[i], actions[i], states[i + 1])
  }

  /** One stretch of a run after another. */
  lemma {:induction false} Joined(f: Fleet, front: seq<State>, before: seq<Action>, back: seq<State>,
                                  after: seq<Action>)
    requires Steps(f, front, before) && Steps(f, back, after) && front[|before|] == back[0]
    ensures Steps(f, front + back[1..], before + after)
  {
    hide Next;
    var states, actions := front + back[1..], before + after;
    forall i | 0 <= i < |actions|
      ensures Next(f, states[i], actions[i], states[i + 1])
    {
      if i < |before| {
        assert Next(f, front[i], before[i], front[i + 1]);
      } else {
        var k := i - |before|;
        assert Next(f, back[k], after[k], back[k + 1]);
      }
    }
  }

  /** One worker, from away to an attach in flight, in a state whose claim it is granted. */
  ghost function Solo(f: Fleet, s: State, w: Worker): (states: seq<State>)
    requires w in s.phases
    ensures |states| == 5
  {
    var passing := Move(s, w, Passing(s.time + f.passTimeout));
    var deciding := Move(passing, w, Deciding(s.time + f.passTimeout, 0, s.time));
    var placing := Move(SetClaim(deciding, 0, Held(f.Holder(w), s.time + f.claimTTL)), w,
                        Phase.Placing(s.time + f.passTimeout, 0, s.time));
    [s, passing, deciding, placing, Move(placing, w, Attaching(s.time + f.passTimeout, 0, s.time))]
  }

  function SoloActions(w: Worker): seq<Action> { [BeginPass(w), ReadClock(w, 0), AcquireGranted(w), StartAttach(w)] }

  lemma {:induction false} SoloSteps(f: Fleet, s: State, w: Worker)
    requires w in s.phases && s.phases[w].Away? && Attaches(w.role) && f.passTimeout >= 0
    requires Grants(ClaimOf(s, 0), f.Holder(w), s.time)
    ensures Steps(f, Solo(f, s, w), SoloActions(w))
  {}

  /** What gets between two attaches: a claim that lapses, one holder for both, or a sweep that gives the claim away. */
  ghost predicate LetsIn(f: Fleet, s: State, between: seq<State>, actions: seq<Action>, w: Worker, v: Worker) {
    && Steps(f, between, actions) && between[0] == s
    && var t := between[|actions|];
    && v in t.phases && t.phases[v].Away? && Grants(ClaimOf(t, 0), f.Holder(v), t.time)
    && w in s.phases && w in t.phases && t.phases[w] == s.phases[w]
  }

  ghost function Beginning(f: Fleet): State { State(0, map[], map u | u in f.workers :: Away) }

  /** Two attaches with such a stretch between them overlap. */
  lemma {:induction false} Overlap(f: Fleet, w: Worker, v: Worker, between: seq<State>, actions: seq<Action>)
    requires w in f.workers && v in f.workers && w != v && Attaches(w.role) && Attaches(v.role) && f.passTimeout >= 0
    requires |Solo(f, Beginning(f), w)| == 5 && w in Solo(f, Beginning(f), w)[4].phases
    requires LetsIn(f, Solo(f, Beginning(f), w)[4], between, actions, w, v)
    ensures !AlwaysExclusive(f)
  {
    var start := Beginning(f);
    var first := Solo(f, start, w);
    SoloSteps(f, start, w);
    assert first[4].phases[w].Attaching? && first[4].phases[w].session == 0;
    var middle := between[|actions|];
    var second := Solo(f, middle, v);
    SoloSteps(f, middle, v);
    hide Next;
    Joined(f, first, SoloActions(w), between, actions);
    var states, moves := first + between[1..], SoloActions(w) + actions;
    assert states[|moves|] == middle;
    Joined(f, states, moves, second, SoloActions(v));
    var whole, all := states + second[1..], moves + SoloActions(v);
    assert Run(f, whole, all);
    var last := second[4];
    assert whole[|all|] == last;
    assert last.phases[w].Attaching? && last.phases[v].Attaching? && last.phases[w].session == last.phases[v].session;
  }

  /** A pass that may outlive its claim lets any other worker in once it has lapsed. */
  lemma {:induction false} LapseOverlaps(f: Fleet, w: Worker, v: Worker)
    requires w in f.workers && v in f.workers && w != v && Attaches(w.role) && Attaches(v.role)
    requires 0 <= f.claimTTL <= f.passTimeout
    ensures !AlwaysExclusive(f)
  {
    var held := Solo(f, Beginning(f), w)[4];
    var lapsed := held.(time := f.claimTTL);
    assert Next(f, held, Tick(f.claimTTL), lapsed);
    Overlap(f, w, v, [held, lapsed], [Tick(f.claimTTL)]);
  }

  /** A holder shared by two workers that attach lets the second in at once. */
  lemma {:induction false} SharedOverlaps(f: Fleet, w: Worker, v: Worker)
    requires w in f.workers && v in f.workers && w != v && Attaches(w.role) && Attaches(v.role)
    requires f.passTimeout >= 0 && f.Holder(w) == f.Holder(v)
    ensures !AlwaysExclusive(f)
  {
    Overlap(f, w, v, [Solo(f, Beginning(f), w)[4]], []);
  }

  /** A sweep that takes and gives back the claim of session zero. */
  ghost function SweepThrough(f: Fleet, s: State, sweep: Worker): (states: seq<State>)
    ensures |states| == 4
  {
    var sweeping := Move(s, sweep, Sweeping(s.time, {}));
    var claimed := Move(SetClaim(sweeping, 0, Held(f.Holder(sweep), s.time + f.claimTTL)), sweep,
      Sweeping(s.time, {0}));
    [s, sweeping, claimed, SetClaim(Move(claimed, sweep, Sweeping(s.time, {})), 0, Unclaimed)]
  }

  function SweepActions(sweep: Worker): seq<Action> {
    [BeginSweep(sweep), SweepClaim(sweep, 0), SweepRelease(sweep, 0, false)]
  }

  lemma {:induction false} SweepSteps(f: Fleet, s: State, sweep: Worker)
    requires sweep in s.phases && s.phases[sweep].Away? && !Attaches(sweep.role)
    requires ClaimOf(s, 0).Held? && ClaimOf(s, 0).holder == f.Holder(sweep)
    ensures Steps(f, SweepThrough(f, s, sweep), SweepActions(sweep))
    ensures ClaimOf(SweepThrough(f, s, sweep)[3], 0).Unclaimed?
  {
    var none, one: set<Session> := {}, {0};
    assert none + {0} == one && one - {0} == none;
  }

  /**
   A holder shared with a sweep lets a third worker in: the sweep extends the claim
   as its own, mid-attach, and then gives it back.
   */
  lemma {:induction false} SweepOverlaps(f: Fleet, w: Worker, sweep: Worker, v: Worker)
    requires w in f.workers && v in f.workers && sweep in f.workers && w != v
    requires Attaches(w.role) && Attaches(v.role) && !Attaches(sweep.role)
    requires f.passTimeout >= 0 && f.Holder(w) == f.Holder(sweep)
    ensures !AlwaysExclusive(f)
  {
    var held := Solo(f, Beginning(f), w)[4];
    SweepSteps(f, held, sweep);
    hide Next, Grants;
    Overlap(f, w, v, SweepThrough(f, held, sweep), SweepActions(sweep));
  }

  /**
   For a fleet with at least two workers that attach, attaches exclude each other in
   every run exactly when a pass cannot outlive its claim and no worker that attaches
   shares its holder with any other worker, sweeps included.
   */
  lemma {:induction false} ExclusiveExactly(f: Fleet, a: Worker, b: Worker)
    requires f.passTimeout >= 0 && f.claimTTL >= 0
    requires a in f.workers && b in f.workers && a != b && Attaches(a.role) && Attaches(b.role)
    ensures AlwaysExclusive(f) <==> AttachersSeparated(f.digest, f.workers) && f.passTimeout < f.claimTTL
  {
    ApartExactlyWhenSeparated(f.digest, f.workers);
    hide AlwaysExclusive, AttachersSeparated;
    if f.claimTTL <= f.passTimeout {
      LapseOverlaps(f, a, b);
    } else if AttachersApart(f.digest, f.workers) {
      SoundIsExclusive(f);
    } else {
      var w, v :| w in f.workers && v in f.workers && Attaches(w.role) &&
        HolderOf(f.digest, w) == HolderOf(f.digest, v) && w != v;
      if Attaches(v.role) {
        SharedOverlaps(f, w, v);
      } else {
        SweepOverlaps(f, w, v, if w == a then b else a);
      }
    }
  }

  /** The last check of the limits is the one exclusion needs: over limits that pass it, and over no others. */
  lemma {:induction false} LimitsExactly(limits: Limits, workers: set<Worker>, digest: Bytes -> Bytes, a: Worker,
                                         b: Worker)
    requires limits.passTimeout >= 0 && limits.claimTTL >= 0 && AttachersSeparated(digest, workers)
    requires a in workers && b in workers && a != b && Attaches(a.role) && Attaches(b.role)
    ensures AlwaysExclusive(Fleet(workers, digest, limits.PassTimeout(), limits.claimTTL)) <==>
      (if limits.passTimeout == 0 then 10 * SECOND else limits.passTimeout) < limits.claimTTL
  {
    hide AlwaysExclusive, AttachersSeparated;
    ExclusiveExactly(Fleet(workers, digest, limits.PassTimeout(), limits.claimTTL), a, b);
  }
}
