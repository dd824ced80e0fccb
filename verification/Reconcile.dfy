/**
 Routing or placing one session: what is read before the claim, what is done only
 under it, and what is given back, on every path through the reconciler.
 */
module Reconcile {
  import opened Common
  import opened Policy
  import Dedicated
  import Delivery
  import PooledProtocol
  import HostAnswers
  import Pooled

  /** A catalog entry: its record, and whether the desire names no workload. */
  datatype Row = Row(record: Record, bare: bool)

  predicate Released(row: Row) { IsRelease(row.record.placement.Dedicated?, row.record.generation, row.bare) }

  /** An owner that may be routed to: of the desired incarnation, where the Host is built for one. */
  predicate Routable(row: Row, owner: Option<Observation>, now: Instant) {
    && owner.Some? && ReusableOwner(owner.value, row.record, now)
    && (row.record.placement.Dedicated? ==> owner.value.hostGeneration == row.record.generation)
  }

  datatype ClaimReply = Granted | HeldUntil(horizon: Instant) | ClaimFailed

  // ------------------------------------------------------------------ monitor

  datatype Event =
    | Read(row: Row)
    | SawOwner(owner: Option<Observation>, now: Instant)
    | Acquire(reply: ClaimReply)
    | Wrote(row: Row)                    // the record a desire write left, or found in place
    | Ensure(generation: nat)
    | PlacePooled
    | PlaceDedicated(generation: nat)
    | Release

  datatype Phase =
    | Free(row: Option<Row>)
    | Routed(o: Observation, at: Row)            // a live owner, before any claim: woken
    | Unrouted(at: Row)
    | Deferring(horizon: Instant, row: Option<Row>)
    | Named(o: Observation, at: Row)             // a live owner, after a refused claim: only reported
    | Claimed(row: Option<Row>, writes: nat)
    | Ensured(generation: nat)
    | Placed(own: Option<nat>)                   // of a Host built for the session, or in the pool
    | Over
    | Bad

  /** A desire that a workload of this generation may be ensured for. */
  predicate Launches(row: Row, generation: nat) {
    row.record.placement.Dedicated? && !Released(row) && generation == row.record.generation
  }

  function After(p: Phase, e: Event): Phase {
    match p
    case Free(row) =>
      (match e
       case Read(r) => if row.None? then Free(Some(r)) else Bad
       case SawOwner(owner, now) =>
         if row.None? then Bad
         else if Routable(row.value, owner, now) then Routed(owner.value, row.value) else Unrouted(row.value)
       case _ => Bad)
    case Unrouted(_) =>
      if !e.Acquire? then Bad
      else (match e.reply
            case Granted => Claimed(None, 0)
            case HeldUntil(horizon) => Deferring(horizon, None)
            case ClaimFailed => Over)
    case Deferring(horizon, row) =>
      if e.Read? && row.None? then Deferring(horizon, Some(e.row))
      else if e.SawOwner? && row.Some? then
        if Routable(row.value, e.owner, e.now) then Named(e.owner.value, row.value) else Over
      else Bad
    case Claimed(row, writes) =>
      if e.Release? then Over
      else if e.Read? && row.None? then Claimed(Some(e.row), 0)
      else if e.Wrote? && row.Some? then Claimed(Some(e.row), writes + 1)
      else if e.PlacePooled? && row.Some? && row.value.record.placement.Pooled? then Placed(None)
      else if e.Ensure? && row.Some? && Launches(row.value, e.generation) then Ensured(e.generation)
      else Bad
    case Ensured(generation) =>
      if e.Release? then Over else if e == PlaceDedicated(generation) then Placed(Some(generation)) else Bad
    case Placed(_) => if e.Release? then Over else Bad
    case _ => Bad
  }

  function Follow(trace: seq<Event>): Phase {
    if trace == [] then Free(None) else After(Follow(trace[..|trace| - 1]), trace[|trace| - 1])
  }

  lemma Followed(trace: seq<Event>, e: Event)
    ensures Follow(trace + [e]) == After(Follow(trace), e)
  {
    assert (trace + [e])[..|trace|] == trace;
  }

  /** A claim is held. */
  predicate Holds(p: Phase) { p.Claimed? || p.Ensured? || p.Placed? }

  // ----------------------------------------------------------------- theorems

  lemma {:induction false} PrefixPermitted(trace: seq<Event>, n: nat)
    requires !Follow(trace).Bad? && n <= |trace|
    ensures !Follow(trace[..n]).Bad?
    ensures n < |trace| ==>
      Follow(trace[..n + 1]) == After(Follow(trace[..n]), trace[n]) && !Follow(trace[..n + 1]).Bad?
    decreases |trace| - n
  {
    assert trace[..|trace|] == trace;
    if n < |trace| {
      PrefixPermitted(trace, n + 1);
      assert trace[..n + 1] == trace[..n] + [trace[n]];
      Followed(trace[..n], trace[n]);
    }
  }

  /** Whether a claim is held tells which claims were granted and which given back. */
  ghost predicate Bracketed(trace: seq<Event>, p: Phase) {
    && (Holds(p) ==> Acquire(Granted) in trace)
    && (!Holds(p) && Acquire(Granted) in trace ==> p.Over? && trace[|trace| - 1].Release?)
    && (p.Free? || p.Unrouted? || p.Routed? ==> forall e :: e in trace ==> e.Read? || e.SawOwner?)
    && (Acquire(Granted) !in trace ==> forall e :: e in trace ==> e.Read? || e.SawOwner? || e.Acquire?)
  }

  lemma {:induction false} BracketedStep(trace: seq<Event>, p: Phase, e: Event)
    requires Bracketed(trace, p) && !After(p, e).Bad?
    ensures Bracketed(trace + [e], After(p, e))
  {
    hide ReusableOwner;
    assert forall x :: x in trace + [e] <==> x in trace || x == e;
  }

  lemma {:induction false} AlwaysBracketed(trace: seq<Event>)
    requires !Follow(trace).Bad?
    ensures Bracketed(trace, Follow(trace))
  {
    if trace != [] {
      var front, e := trace[..|trace| - 1], trace[|trace| - 1];
      assert trace == front + [e];
      AlwaysBracketed(front);
      BracketedStep(front, Follow(front), e);
    }
  }

  /**
   Every desire written, workload ensured or placement begun is under a claim that was
   granted and not yet given back.
   */
  lemma {:induction false} WorkOnlyUnderClaim(trace: seq<Event>, i: nat)
    requires !Follow(trace).Bad? && i < |trace|
    requires trace[i].Wrote? || trace[i].Ensure? || trace[i].PlacePooled? || trace[i].PlaceDedicated? ||
      trace[i].Release?
    ensures Acquire(Granted) in trace[..i] && Holds(Follow(trace[..i]))
  {
    PrefixPermitted(trace, i);
    AlwaysBracketed(trace[..i]);
    hide Follow, ReusableOwner;
  }

  /** An owned session is routed to without a claim: nothing but the record and its owner was read. */
  lemma {:induction false} RoutedUnclaimed(trace: seq<Event>, i: nat)
    requires Follow(trace).Routed? && i < |trace|
    ensures trace[i].Read? || trace[i].SawOwner?
  {
    AlwaysBracketed(trace);
  }

  /** A finished reconciliation that was granted a claim gave it back, as the last thing it did. */
  lemma {:induction false} ClaimGivenBack(trace: seq<Event>)
    requires !Follow(trace).Bad? && !Holds(Follow(trace)) && Acquire(Granted) in trace
    ensures trace[|trace| - 1].Release?
  {
    AlwaysBracketed(trace);
  }

  /**
   A workload is ensured for the generation of the desire read or written last, under
   the claim: never of one read before it, and never for a release.
   */
  lemma {:induction false} EnsuresSeenDesire(trace: seq<Event>, i: nat)
    requires !Follow(trace).Bad? && i < |trace| && trace[i].Ensure?
    ensures i > 0 && (trace[i - 1].Read? || trace[i - 1].Wrote?) && Acquire(Granted) in trace[..i - 1]
    ensures Launches(trace[i - 1].row, trace[i].generation)
  {
    assert i == 0 ==> Follow(trace[..i]).Free?;
    PrefixPermitted(trace, i);
    if i > 0 {
      PrefixPermitted(trace, i - 1);
      AlwaysBracketed(trace[..i - 1]);
    }
    hide Follow, ReusableOwner;
  }

  /** A dedicated placement is begun right after the workload of that generation was ensured. */
  lemma {:induction false} PlacesWhatWasEnsured(trace: seq<Event>, i: nat)
    requires !Follow(trace).Bad? && i < |trace| && trace[i].PlaceDedicated?
    ensures i > 0 && trace[i - 1] == Ensure(trace[i].generation)
  {
    assert i == 0 ==> Follow(trace[..i]).Free?;
    PrefixPermitted(trace, i);
    if i > 0 { PrefixPermitted(trace, i - 1); }
    hide Follow, ReusableOwner;
  }

  // --------------------------------------------------------------- the method

  /** What the world answers to whatever is asked after n things have happened, and how this replica is composed. */
  datatype World = World(
    catalog: nat -> Reply<Row>, owner: nat -> Reply<Option<Observation>>, now: nat -> Instant, acquire: ClaimReply,
    desire: Option<Reply<Row>>, restore: Option<Reply<Row>>,
    linked: bool, hosts: Reply<seq<Candidate>>, controller: bool, intentValid: bool, ensured: bool,
    cfg: PooledProtocol.Config, pooled: Pooled.World, dedicated: Dedicated.World)

  datatype Result =
    | WokeOwner(o: Observation)
    | NamedOwner(o: Observation)
    | Deferred(horizon: Instant)
    | Decided(d: Decision)
    | FromPool(pooled: Pooled.Ending)
    | FromOwnHost(own: Dedicated.Ending)
    | SessionReleased
    | NoController
    | Fault

  /** The desires a caller asked for, in the order they are written, and what became of each. */
  function Wishes(world: World): seq<Reply<Row>> {
    (if world.desire.Some? then [world.desire.value] else [])
    + if world.restore.Some? then [world.restore.value] else []
  }

  /** Every wish was written, so the record held is the one to place. */
  predicate Settled(world: World, p: Phase) { p.Claimed? && p.row.Some? && p.writes == |Wishes(world)| }

  /** What is done next under a claim, if anything is before it is given back. */
  function Work(world: World, p: Phase, n: nat): Option<Event> {
    match p
    case Claimed(None, _) => if world.catalog(n).Ok? then Some(Read(world.catalog(n).value)) else None
    case Claimed(Some(row), writes) =>
      if writes < |Wishes(world)| then
        if Wishes(world)[writes].Ok? then Some(Wrote(Wishes(world)[writes].value)) else None
      else if !Settled(world, p) then None
      else (match row.record.placement
            case Pooled => if world.linked then Some(PlacePooled) else None
            case Dedicated =>
              if !Released(row) && world.controller && world.intentValid
              then Some(Ensure(row.record.generation)) else None
            case Other => None)
    case Ensured(generation) => if world.ensured then Some(PlaceDedicated(generation)) else None
    case _ => None
  }

  /** What the reconciler heard or did, after n things had happened, is what the world then answers or leaves to do. */
  ghost predicate ToldAt(world: World, p: Phase, n: nat, e: Event) {
    if Holds(p) then Work(world, p, n) == (if e.Release? then None else Some(e))
    else match e
      case Read(row) => world.catalog(n) == Ok(row)
      case SawOwner(owner, now) => world.owner(n) == Ok(owner) && now == world.now(n)
      case Acquire(reply) => reply == world.acquire
      case _ => false
  }

  ghost predicate Told(world: World, trace: seq<Event>) {
    forall n :: 0 <= n < |trace| ==> ToldAt(world, Follow(trace[..n]), n, trace[n])
  }

  function Demanded(world: World): seq<Delivery.Kind> {
    HostAnswers.DemandsOf(world.cfg.gates, world.cfg.references, world.cfg.principals)
  }

  /** What a claimed reconciliation comes to, from where it stood when it gave the claim back. */
  ghost predicate Closes(world: World, owner: Option<Observation>, now: Instant, p: Phase, r: Result) {
    match p
    case Placed(None) => r.FromPool? && exists said :: Pooled.Ends(world.cfg, world.pooled, said, r.pooled)
    case Placed(Some(generation)) =>
      r.FromOwnHost? && exists said ::
        Dedicated.Ends(Dedicated.Wanted(generation), Demanded(world), world.dedicated, said, r.own)
    case Claimed(Some(row), _) =>
      if !Settled(world, p) then r.Fault?
      else (match row.record.placement
            case Pooled =>
              if world.hosts.Err? then r.Fault?
              else r.Decided? && Decides(row.record, owner, world.hosts.value, now, r.d)
            case Dedicated =>
              if Released(row) then r.SessionReleased? else if !world.controller then r.NoController? else r.Fault?
            case Other => r == Decided(Undecided))
    case _ => r.Fault?
  }

  /** The read or the claim that failed, where no claim was ever held. */
  ghost predicate Failed(world: World, trace: seq<Event>, p: Phase) {
    match p
    case Free(row) => if row.None? then world.catalog(|trace|).Err? else world.owner(|trace|).Err?
    case Deferring(_, row) => if row.None? then world.catalog(|trace|).Err? else world.owner(|trace|).Err?
    case Over => world.acquire.ClaimFailed?
    case _ => false
  }

  /** How the result and the conversation fit together. */
  ghost predicate Ends(world: World, trace: seq<Event>, r: Result) {
    var p := Follow(trace);
    && Told(world, trace) && !p.Bad? && !Holds(p)
    && if world.acquire.Granted? && p.Over? then
         && |trace| >= 2 && trace[1].SawOwner?
         && Closes(world, trace[1].owner, trace[1].now, Follow(trace[..|trace| - 1]), r)
       else match r
         case WokeOwner(o) => p.Routed? && p.o == o
         case NamedOwner(o) => p.Named? && p.o == o
         case Deferred(horizon) => p.Over? && world.acquire == HeldUntil(horizon)
         case Fault => Failed(world, trace, p)
         case _ => false
  }

  /** Where a conversation stands; once begun, the owner it first saw. */
  ghost predicate At(world: World, trace: seq<Event>, p: Phase) { Follow(trace) == p && Told(world, trace) }

  lemma {:induction false} Happens(world: World, trace: seq<Event>, p: Phase, e: Event)
    requires At(world, trace, p) && ToldAt(world, p, |trace|, e)
    ensures At(world, trace + [e], After(p, e))
  {
    Followed(trace, e);
    hide ToldAt, After, Follow;
    var longer := trace + [e];
    forall n | 0 <= n < |longer|
      ensures ToldAt(world, Follow(longer[..n]), n, longer[n])
    {
      assert longer[..n] == trace[..n];
      assert trace[..|trace|] == trace;
    }
  }

  lemma {:induction false} Start(world: World)
    ensures At(world, [], Free(None))
  {}

  lemma {:induction false} Closed(world: World, trace: seq<Event>, p: Phase, r: Result)
    requires At(world, trace + [Release], Over) && Follow(trace) == p && world.acquire.Granted?
    requires |trace| >= 2 && trace[1].SawOwner? && Closes(world, trace[1].owner, trace[1].now, p, r)
    ensures Ends(world, trace + [Release], r)
  {
    hide Told, Closes, Follow;
    assert (trace + [Release])[..|trace|] == trace && (trace + [Release])[1] == trace[1];
  }

  /** One wish carried out, or the end of the work. */
  method WriteWish(world: World, reply: Reply<Row>, held: Row, before: seq<Event>, ghost writes: nat)
    returns (row: Option<Row>, trace: seq<Event>)
    requires At(world, before, Claimed(Some(held), writes)) && writes < |Wishes(world)| &&
      Wishes(world)[writes] == reply
    ensures before <= trace
    ensures row.Some? ==> At(world, trace, Claimed(row, writes + 1))
    ensures row.None? ==> trace == before && reply.Err?
  {
    trace := before;
    if reply.Err? { return None, trace; }
    Happens(world, trace, Claimed(Some(held), writes), Wrote(reply.value));
    trace := trace + [Wrote(reply.value)];
    row := Some(reply.value);
  }

  /** The re-read under the claim, then the desire and the restore a caller asked for. */
  method SettleDesire(world: World, before: seq<Event>) returns (row: Option<Row>, trace: seq<Event>, ghost p: Phase)
    requires At(world, before, Claimed(None, 0))
    ensures before <= trace && At(world, trace, p) && p.Claimed?
    ensures row.Some? ==> Settled(world, p) && p.row == row
    ensures row.None? ==> !Settled(world, p) && Work(world, p, |trace|).None?
  {
    hide At;
    p, row := Claimed(None, 0), None;
    trace := before;
    var entry := world.catalog(|trace|);
    if entry.Err? { return; }
    Happens(world, trace, p, Read(entry.value));
    trace := trace + [Read(entry.value)];
    p := Claimed(Some(entry.value), 0);
    var held := entry.value;
    if world.desire.Some? {
      row, trace := WriteWish(world, world.desire.value, held, trace, 0);
      if row.None? { return; }
      held := row.value;
      p := Claimed(row, 1);
    }
    if world.restore.Some? {
      row, trace := WriteWish(world, world.restore.value, held, trace, p.writes);
      if row.None? { return; }
      held := row.value;
      p := Claimed(row, p.writes + 1);
    }
    row := Some(held);
  }

  method PlacePool(world: World, row: Row, owner: Option<Observation>, now: Instant, before: seq<Event>, ghost p: Phase)
    returns (r: Result, trace: seq<Event>, ghost q: Phase)
    requires At(world, before, p) && Settled(world, p) && p.row == Some(row) && row.record.placement.Pooled?
    requires 0 < world.cfg.attempts && world.cfg.backoff <= MAX_BACKOFF
    ensures before <= trace && At(world, trace, q) && Holds(q) && Work(world, q, |trace|).None? &&
      Closes(world, owner, now, q, r)
  {
    hide At, Decides;
    trace, q := before, p;
    if !world.linked {
      // A replica composed without links only names the candidate.
      if world.hosts.Err? { return Fault, trace, q; }
      var d := Decide(row.record, owner, world.hosts.value, now);
      return Decided(d), trace, q;
    }
    Happens(world, trace, p, PlacePooled);
    trace, q := trace + [PlacePooled], Placed(None);
    var ending, said, ledger := Pooled.PlacePooled(world.cfg, world.pooled);
    hide Pooled.Ends;
    return FromPool(ending), trace, q;
  }

  method PlaceOwnHost(world: World, row: Row, before: seq<Event>, ghost p: Phase, ghost owner: Option<Observation>,
                      ghost now: Instant)
    returns (r: Result, trace: seq<Event>, ghost q: Phase)
    requires At(world, before, p) && Settled(world, p) && p.row == Some(row) && row.record.placement.Dedicated?
    ensures before <= trace && At(world, trace, q) && Holds(q) && Work(world, q, |trace|).None? &&
      Closes(world, owner, now, q, r)
  {
    hide At, Decides, Dedicated.Ends;
    trace, q := before, p;
    if Released(row) { return SessionReleased, trace, q; }
    if !world.controller { return NoController, trace, q; }
    if !world.intentValid { return Fault, trace, q; }
    var generation := row.record.generation;
    Happens(world, trace, q, Ensure(generation));
    trace, q := trace + [Ensure(generation)], Ensured(generation);
    if !world.ensured { return Fault, trace, q; }
    Happens(world, trace, q, PlaceDedicated(generation));
    trace, q := trace + [PlaceDedicated(generation)], Placed(Some(generation));
    var ending, said := Dedicated.PlaceDedicated(
      Dedicated.Wanted(generation), world.cfg.gates, world.cfg.references, world.cfg.principals, world.dedicated);
    assert Dedicated.Ends(Dedicated.Wanted(generation), Demanded(world), world.dedicated, said, ending);
    return FromOwnHost(ending), trace, q;
  }

  /** Everything between the granted claim and its release. */
  method UnderClaim(world: World, owner: Option<Observation>, now: Instant, before: seq<Event>)
    returns (r: Result, trace: seq<Event>, ghost q: Phase)
    requires At(world, before, Claimed(None, 0)) && 0 < world.cfg.attempts && world.cfg.backoff <= MAX_BACKOFF
    ensures before <= trace && At(world, trace, q) && Holds(q) && Work(world, q, |trace|).None? &&
      Closes(world, owner, now, q, r)
  {
    hide At;
    var row;
    row, trace, q := SettleDesire(world, before);
    if row.None? { return Fault, trace, q; }
    match row.value.record.placement {
      case Pooled => r, trace, q := PlacePool(world, row.value, owner, now, trace, q);
      case Dedicated => r, trace, q := PlaceOwnHost(world, row.value, trace, q, owner, now);
      case Other => r := Decided(Undecided);
    }
  }

  /** The holder may have finished already: look again, and only name what is found. */
  method DeferToHolder(world: World, horizon: Instant, before: seq<Event>) returns (r: Result, trace: seq<Event>)
    requires At(world, before, Deferring(horizon, None)) && world.acquire == HeldUntil(horizon)
    ensures Ends(world, trace, r)
    ensures r.NamedOwner? || r.Deferred? || r.Fault?
  {
    hide Follow, Told, ReusableOwner;
    trace := before;
    var entry := world.catalog(|trace|);
    if entry.Err? { return Fault, trace; }
    Happens(world, trace, Deferring(horizon, None), Read(entry.value));
    trace := trace + [Read(entry.value)];
    var owner := world.owner(|trace|);
    if owner.Err? { return Fault, trace; }
    var now := world.now(|trace|);
    Happens(world, trace, Deferring(horizon, Some(entry.value)), SawOwner(owner.value, now));
    trace := trace + [SawOwner(owner.value, now)];
    if Routable(entry.value, owner.value, now) { return NamedOwner(owner.value.value), trace; }
    return Deferred(horizon), trace;
  }

  method ReconcileSession(world: World) returns (r: Result, trace: seq<Event>)
    requires 0 < world.cfg.attempts && world.cfg.backoff <= MAX_BACKOFF
    ensures Ends(world, trace, r)
  {
    Start(world);
    hide Follow, Told, ReusableOwner;
    trace := [];
    var entry := world.catalog(0);
    if entry.Err? { return Fault, trace; }
    Happens(world, trace, Free(None), Read(entry.value));
    trace := trace + [Read(entry.value)];
    var owner := world.owner(|trace|);
    if owner.Err? { return Fault, trace; }
    var now := world.now(|trace|);
    Happens(world, trace, Free(Some(entry.value)), SawOwner(owner.value, now));
    trace := trace + [SawOwner(owner.value, now)];
    if Routable(entry.value, owner.value, now) { return WokeOwner(owner.value.value), trace; }
    Happens(world, trace, Unrouted(entry.value), Acquire(world.acquire));
    trace := trace + [Acquire(world.acquire)];
    match world.acquire {
      case ClaimFailed => return Fault, trace;
      case HeldUntil(horizon) => r, trace := DeferToHolder(world, horizon, trace);
      case Granted =>
        ghost var q;
        r, trace, q := UnderClaim(world, owner.value, now, trace);
        Happens(world, trace, q, Release);
        Closed(world, trace, q, r);
        trace := trace + [Release];
    }
  }

  // ---------------------------------------------------------------- then bind

  /** The residency a reconciliation ends with, and whether it was attached by it. An owner only named is not one. */
  function Resides(r: Result): Option<(Observation, bool)> {
    match r
    case WokeOwner(o) => Some((o, false))
    case FromPool(Hold(o, attached)) => Some((o, attached))
    case FromOwnHost(Hold(o, attached)) => Some((o, attached))
    case _ => None
  }

  /** The whole of Reconcile: the residency found or attached is bound to, and the wake delivered to it. */
  method Reconcile(world: World, req: Delivery.Request, links: Delivery.Links)
    returns (r: Result, trace: seq<Event>, report: Delivery.Report, failure: Delivery.Failure,
             calls: seq<Delivery.Call>)
    requires 0 < world.cfg.attempts && world.cfg.backoff <= MAX_BACKOFF
    ensures Ends(world, trace, r)
    ensures match Resides(r)
      case None => calls == [] && report == Delivery.NOTHING && failure.NoFailure?
      case Some(held) => Delivery.Handed(req, world.linked, links, held.0, held.1, report, failure, calls)
  {
    hide Ends, Delivery.Handed;
    report, failure, calls := Delivery.NOTHING, Delivery.NoFailure, [];
    r, trace := ReconcileSession(world);
    var held := Resides(r);
    if held.Some? {
      report, failure, calls := Delivery.HandOver(req, world.linked, links, held.value.0, held.value.1);
    }
  }

  // ------------------------------------------------------ nothing is left open

  /** What comes next in this world, if anything does. */
  function NextEvent(world: World, p: Phase, n: nat): Option<Event> {
    if Holds(p) then Some(if Work(world, p, n).Some? then Work(world, p, n).value else Release)
    else match p
      case Free(row) => if row.None? then NextRead(world, n) else NextOwner(world, n)
      case Unrouted(_) => Some(Acquire(world.acquire))
      case Deferring(_, row) => if row.None? then NextRead(world, n) else NextOwner(world, n)
      case _ => None
  }

  function NextRead(world: World, n: nat): Option<Event> {
    if world.catalog(n).Ok? then Some(Read(world.catalog(n).value)) else None
  }

  function NextOwner(world: World, n: nat): Option<Event> {
    if world.owner(n).Ok? then Some(SawOwner(world.owner(n).value, world.now(n))) else None
  }

  lemma {:induction false} OnlyNext(world: World, p: Phase, n: nat, e: Event)
    requires !After(p, e).Bad? && ToldAt(world, p, n, e)
    ensures NextEvent(world, p, n) == Some(e)
  {
    hide Work, Routable, Launches;
  }

  lemma {:induction false} EndsThere(world: World, trace: seq<Event>, r: Result)
    requires Ends(world, trace, r)
    ensures NextEvent(world, Follow(trace), |trace|).None?
  {
    hide Follow, Told, Closes;
  }

  function NextIn(world: World): seq<Event> -> Option<Event> {
    (trace: seq<Event>) => NextEvent(world, Follow(trace), |trace|)
  }

  lemma {:induction false} ToldInOrder(world: World, trace: seq<Event>)
    requires !Follow(trace).Bad? && Told(world, trace)
    ensures Determined(NextIn(world), trace)
  {
    hide Follow, After, NextEvent, ToldAt;
    forall n | 0 <= n < |trace|
      ensures NextIn(world)(trace[..n]) == Some(trace[n])
    {
      PrefixPermitted(trace, n);
      OnlyNext(world, Follow(trace[..n]), n, trace[n]);
    }
  }

  lemma {:induction false} ClosesOnce(world: World, owner: Option<Observation>, now: Instant, p: Phase, x: Result,
                                      y: Result)
    requires Closes(world, owner, now, p, x) && Closes(world, owner, now, p, y)
    ensures x == y
  {
    hide Pooled.Ends, Dedicated.Ends, Demanded;
    match p {
      case Placed(None) =>
        var said :| Pooled.Ends(world.cfg, world.pooled, said, x.pooled);
        var again :| Pooled.Ends(world.cfg, world.pooled, again, y.pooled);
        Pooled.OneRun(world.cfg, world.pooled, said, x.pooled, again, y.pooled);
      case Placed(Some(generation)) =>
        var want := Dedicated.Wanted(generation);
        var said :| Dedicated.Ends(want, Demanded(world), world.dedicated, said, x.own);
        var again :| Dedicated.Ends(want, Demanded(world), world.dedicated, again, y.own);
        Dedicated.OneRun(want, Demanded(world), world.dedicated, said, x.own, again, y.own);
      case _ =>
    }
  }

  /** A world's answers leave nothing open: what is done, in what order, and what it comes to. */
  lemma {:induction false} OneRun(world: World, a: seq<Event>, x: Result, b: seq<Event>, y: Result)
    requires Ends(world, a, x) && Ends(world, b, y)
    ensures a == b && x == y
  {
    EndsThere(world, a, x);
    EndsThere(world, b, y);
    ToldInOrder(world, a);
    ToldInOrder(world, b);
    hide Follow, NextEvent, Determined, Told, Closes;
    OnePath(NextIn(world), a, b);
    if world.acquire.Granted? && Follow(a).Over? {
      ClosesOnce(world, a[1].owner, a[1].now, Follow(a[..|a| - 1]), x, y);
    }
  }
}
