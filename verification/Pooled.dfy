/**
 Placing a claimed, unowned pooled session: every run of it keeps to the order
 PooledProtocol permits, whatever the store, the Hosts and the clock answer.
 */
module Pooled {
  import opened Common
  import opened Framing
  import opened Policy
  import opened HostAnswers
  import opened PooledProtocol
  import Delivery

  /** What the world answers to whatever is asked after n things have happened. */
  datatype World = World(
    record: Reply<Record>, owner: nat -> Reply<Option<Observation>>, now: nat -> Instant,
    hosts: nat -> Reply<seq<Candidate>>, waitFails: nat -> bool,
    capability: (nat, Delivery.Kind, Candidate) -> CapabilityReply, attach: (nat, AttachRequest) -> AttachReply)

  /** How a placement ended: with a residency to bind, without one, or in an error. */
  datatype Ending = Hold(o: Observation, attached: bool) | Gone | Full | RegistryStale | Fault

  /** What the placement heard, after n things had happened, is what the world answers then. */
  ghost predicate ToldAt(world: World, n: nat, e: Event) {
    match e
    case ReadRecord(record) => world.record == Ok(record)
    case Waited(_) => !world.waitFails(n)
    case ReadOwner(owner, now) => world.owner(n) == Ok(owner) && now == world.now(n)
    case Listed(hosts) => world.hosts(n) == Ok(hosts)
    case Considered(_) => true
    case Inquired(kind, c, capability) => capability == ClassifyCapability(world.capability(n, kind, c))
    case Attach(_, request, reply) => reply == world.attach(n, request)
  }

  ghost predicate Told(world: World, trace: seq<Event>) { forall n :: 0 <= n < |trace| ==> ToldAt(world, n, trace[n]) }

  /** What ends a placement in an error: a failed read or wait at this very point, or an answer nothing may follow. */
  ghost predicate Failed(cfg: Config, world: World, trace: seq<Event>) {
    match Follow(cfg, trace)
    case Begin => world.record.Err?
    case Run(_, GoneStale(round)) => round + 1 < cfg.attempts && world.waitFails(|trace|)
    case Run(_, AtOwner(_)) => world.owner(|trace|).Err?
    case Run(_, AtList(_)) => world.hosts(|trace|).Err?
    case Run(_, Broken) => true
    case _ => false
  }

  /** What the ending says of the conversation. */
  ghost predicate Ends(cfg: Config, world: World, trace: seq<Event>, ending: Ending) {
    var t := Follow(cfg, trace);
    && Told(world, trace)
    && match ending
       case Hold(o, attached) => t.Run? && t.at == Holding(o, attached)
       case Gone => t.Run? && t.at.Moved?
       case Full => t.Run? && t.at.Trying? && t.at.left == []
       case RegistryStale => t.Run? && t.at.GoneStale? && t.at.round + 1 >= cfg.attempts
       case Fault => Failed(cfg, world, trace)
  }

  /** Where a conversation stands, with its lists up to date. */
  ghost predicate At(cfg: Config, world: World, trace: seq<Event>, ledger: Ledger, record: Record, at: Phase) {
    Follow(cfg, trace) == Run(record, at) && ledger == LedgerOf(trace) && Told(world, trace)
  }

  lemma {:induction false} Happens(cfg: Config, world: World, trace: seq<Event>, ledger: Ledger, record: Record,
                                   at: Phase, e: Event)
    requires At(cfg, world, trace, ledger, record, at) && Move(cfg, record, at, e).Some? && ToldAt(world, |trace|, e)
    ensures At(cfg, world, trace + [e], Noted(ledger, e), record, Move(cfg, record, at, e).value)
  {
    Followed(cfg, trace, e);
    assert (trace + [e])[..|trace|] == trace;
    hide ToldAt, Move, Noted;
  }

  // ------------------------------------------------------------- one candidate

  datatype Turn = Next | StaleTurn | Took(o: Observation) | Stop

  function PhaseAfter(turn: Turn, round: nat, left: seq<Candidate>): Phase {
    match turn
    case Next => Trying(round, left)
    case StaleTurn => GoneStale(round)
    case Took(o) => Holding(o, true)
    case Stop => Broken
  }

  /** One demanded capability: on to the next question, or the end of the candidate's turn. */
  method Inquire(cfg: Config, world: World, kind: Delivery.Kind, c: Candidate, trace: seq<Event>, ledger: Ledger,
                 ghost record: Record, ghost round: nat, ghost rest: seq<Delivery.Kind>, ghost left: seq<Candidate>)
    returns (turn: Option<Turn>, longer: seq<Event>, noted: Ledger)
    requires At(cfg, world, trace, ledger, record, Vouching(round, c, [kind] + rest, left))
    ensures var next := if turn.None? then Vouching(round, c, rest, left) else PhaseAfter(turn.value, round, left);
      At(cfg, world, longer, noted, record, next)
    ensures turn.Some? ==> turn.value.Next? || turn.value.Stop?
  {
    var verdict := ClassifyCapability(world.capability(|trace|, kind, c));
    Happens(cfg, world, trace, ledger, record, Vouching(round, c, [kind] + rest, left), Inquired(kind, c, verdict));
    longer := trace + [Inquired(kind, c, verdict)];
    hide At;
    match verdict {
      case Capable => return None, longer, ledger;
      case Unaddressable => return Some(Next), longer, ledger.(unaddressable := ledger.unaddressable + [c.host]);
      case Incapable => return Some(Next), longer, ledger.(incapable := ledger.incapable + [c.host]);
      case Unreachable => return Some(Next), longer, ledger.(unreachable := ledger.unreachable + [c.host]);
      case Abort => return Some(Stop), longer, ledger;
    }
  }

  /** The attach itself, and the one meaning each answer has. */
  method AskToAttach(cfg: Config, world: World, record: Record, c: Candidate, trace: seq<Event>, ledger: Ledger,
                     ghost round: nat, ghost left: seq<Candidate>)
    returns (turn: Turn, longer: seq<Event>, noted: Ledger)
    requires At(cfg, world, trace, ledger, record, Vouching(round, c, [], left))
    ensures At(cfg, world, longer, noted, record, PhaseAfter(turn, round, left))
  {
    var request := AttachRequestFor(record, c.host, c.hostGeneration);
    var reply := world.attach(|trace|, request);
    Happens(cfg, world, trace, ledger, record, Vouching(round, c, [], left), Attach(c, request, reply));
    longer := trace + [Attach(c, request, reply)];
    hide At;
    match AttachAnswer(reply) {
      case Accepted => return Took(reply.o), longer, ledger;
      case Stale => return StaleTurn, longer, ledger.(refused := ledger.refused + [c.host]);
      case Refused => return Next, longer, ledger.(refused := ledger.refused + [c.host]);
      case Unsupported => return Next, longer, ledger.(excluded := ledger.excluded + [c.host]);
      case NoContact => return Next, longer, ledger.(unreachable := ledger.unreachable + [c.host]);
      case NoAddress => return Next, longer, ledger.(unaddressable := ledger.unaddressable + [c.host]);
      case HostFailed => return Next, longer, ledger.(failed := ledger.failed + [c.host]);
      case Ambiguous => return Stop, longer, ledger;
    }
  }

  method TryCandidate(cfg: Config, world: World, record: Record, c: Candidate, trace: seq<Event>, ledger: Ledger,
                      ghost round: nat, ghost left: seq<Candidate>)
    returns (turn: Turn, longer: seq<Event>, noted: Ledger)
    requires At(cfg, world, trace, ledger, record, Trying(round, [c] + left))
    ensures At(cfg, world, longer, noted, record, PhaseAfter(turn, round, left))
  {
    Happens(cfg, world, trace, ledger, record, Trying(round, [c] + left), Considered(c));
    assert ([c] + left)[1..] == left;
    longer, noted := trace + [Considered(c)], ledger;
    ghost var gate := if cfg.gates then [Delivery.GateResponse] else [];
    ghost var reference := if cfg.references then [Delivery.Reference] else [];
    ghost var principal := if cfg.principals then [Delivery.Principal] else [];
    assert gate + reference + principal == gate + (reference + principal);
    hide At;
    var answer: Option<Turn> := None;
    if cfg.gates {
      answer, longer, noted :=
        Inquire(cfg, world, Delivery.GateResponse, c, longer, noted, record, round, reference + principal, left);
      if answer.Some? { return answer.value, longer, noted; }
    }
    assert At(cfg, world, longer, noted, record, Vouching(round, c, reference + principal, left)) by {
      assert [] + (reference + principal) == reference + principal;
    }
    if cfg.references {
      answer, longer, noted :=
        Inquire(cfg, world, Delivery.Reference, c, longer, noted, record, round, principal, left);
      if answer.Some? { return answer.value, longer, noted; }
    }
    assert At(cfg, world, longer, noted, record, Vouching(round, c, principal, left)) by {
      assert [] + principal == principal;
    }
    if cfg.principals {
      assert [Delivery.Principal] + [] == principal;
      answer, longer, noted := Inquire(cfg, world, Delivery.Principal, c, longer, noted, record, round, [], left);
      if answer.Some? { return answer.value, longer, noted; }
    }
    turn, longer, noted := AskToAttach(cfg, world, record, c, longer, noted, round, left);
  }

  // ------------------------------------------------------------------ one page

  /** The page in its order; inadmissible candidates are passed over. */
  method TryPage(cfg: Config, world: World, record: Record, hosts: seq<Candidate>, trace: seq<Event>, ledger: Ledger,
                 ghost round: nat)
    returns (turn: Turn, longer: seq<Event>, noted: Ledger)
    requires At(cfg, world, trace, ledger, record, Trying(round, Seats(hosts, record)))
    ensures turn.Next? ==> At(cfg, world, longer, noted, record, Trying(round, []))
    ensures !turn.Next? ==> At(cfg, world, longer, noted, record, PhaseAfter(turn, round, []))
  {
    hide At, Admissible;
    longer, noted := trace, ledger;
    for i := 0 to |hosts|
      invariant At(cfg, world, longer, noted, record, Trying(round, Seats(hosts[i..], record)))
    {
      var c := hosts[i];
      assert hosts[i..][1..] == hosts[i + 1..];
      if !Admissible(c, record) {
        assert Seats(hosts[i..], record) == [] + Seats(hosts[i + 1..], record) == Seats(hosts[i + 1..], record);
        continue;
      }
      turn, longer, noted := TryCandidate(cfg, world, record, c, longer, noted, round, Seats(hosts[i + 1..], record));
      if !turn.Next? { return; }
    }
    turn := Next;
  }

  // ------------------------------------------------------------- the placement

  method PlacePooled(cfg: Config, world: World) returns (ending: Ending, trace: seq<Event>, ledger: Ledger)
    requires 0 < cfg.attempts && cfg.backoff <= MAX_BACKOFF
    ensures Ends(cfg, world, trace, ending) && ledger == LedgerOf(trace)
  {
    trace, ledger := [], EMPTY;
    if world.record.Err? { return Fault, trace, ledger; }
    var record := world.record.value;
    trace := [ReadRecord(record)];
    assert trace[..0] == [];
    if !record.placement.Pooled? { return Gone, trace, ledger; }
    var attempt := 0;
    while true
      invariant attempt < cfg.attempts
      invariant At(cfg, world, trace, ledger, record, if attempt == 0 then AtOwner(0) else GoneStale(attempt - 1))
      decreases cfg.attempts - attempt
    {
      if attempt > 0 {
        var d := Backoff(cfg.backoff, attempt);
        if world.waitFails(|trace|) { return Fault, trace, ledger; }
        Happens(cfg, world, trace, ledger, record, GoneStale(attempt - 1), Waited(d));
        trace := trace + [Waited(d)];
      }
      var turn: Option<Turn>;
      ending, turn, trace, ledger := Round(cfg, world, record, trace, ledger, attempt);
      if turn.None? { return; }
      if attempt + 1 >= cfg.attempts { return RegistryStale, trace, ledger; }
      attempt := attempt + 1;
    }
  }

  /** One round, from the owner read: an ending, or a stale registry. */
  method Round(cfg: Config, world: World, record: Record, before: seq<Event>, noted: Ledger, ghost round: nat)
    returns (ending: Ending, turn: Option<Turn>, trace: seq<Event>, ledger: Ledger)
    requires At(cfg, world, before, noted, record, AtOwner(round))
    ensures turn.None? ==> Ends(cfg, world, trace, ending) && ledger == LedgerOf(trace)
    ensures turn.Some? ==> At(cfg, world, trace, ledger, record, GoneStale(round))
  {
    trace, ledger, turn := before, noted, None;
    var owner := world.owner(|trace|);
    if owner.Err? { return Fault, None, trace, ledger; }
    var now := world.now(|trace|);
    Happens(cfg, world, trace, ledger, record, AtOwner(round), ReadOwner(owner.value, now));
    trace := trace + [ReadOwner(owner.value, now)];
    if owner.value.Some? && ReusableOwner(owner.value.value, record, now) {
      return Hold(owner.value.value, false), None, trace, ledger;
    }
    var page := world.hosts(|trace|);
    if page.Err? { return Fault, None, trace, ledger; }
    Happens(cfg, world, trace, ledger, record, AtList(round), Listed(page.value));
    trace := trace + [Listed(page.value)];
    var last;
    last, trace, ledger := TryPage(cfg, world, record, page.value, trace, ledger, round);
    match last {
      case Next => return Full, None, trace, ledger;
      case Took(o) => return Hold(o, true), None, trace, ledger;
      case Stop => return Fault, None, trace, ledger;
      case StaleTurn => return Fault, Some(StaleTurn), trace, ledger;
    }
  }

  // ---------------------------------------------------------------- then bind

  /** The whole of a claimed pooled placement: a residency held is bound to, and its wake delivered. */
  method Place(cfg: Config, world: World, req: Delivery.Request, links: Delivery.Links)
    returns (ending: Ending, trace: seq<Event>, ledger: Ledger, report: Delivery.Report, failure: Delivery.Failure,
             calls: seq<Delivery.Call>)
    requires 0 < cfg.attempts && cfg.backoff <= MAX_BACKOFF
    ensures Ends(cfg, world, trace, ending) && ledger == LedgerOf(trace)
    ensures !ending.Hold? ==> calls == [] && report == Delivery.NOTHING && failure.NoFailure?
    ensures ending.Hold? ==> Delivery.Handed(req, true, links, ending.o, ending.attached, report, failure, calls)
  {
    report, failure, calls := Delivery.NOTHING, Delivery.NoFailure, [];
    ending, trace, ledger := PlacePooled(cfg, world);
    hide Ends, Delivery.Handed;
    if ending.Hold? {
      report, failure, calls := Delivery.HandOver(req, true, links, ending.o, ending.attached);
    }
  }

  /**
   The residency bound is the accepted attach's own statement, or the owner the
   registry was last seen to name: never the epoch of a refusal.
   */
  lemma {:induction false} BoundResidency(cfg: Config, world: World, trace: seq<Event>, o: Observation, attached: bool)
    requires Ends(cfg, world, trace, Hold(o, attached))
    ensures trace != []
    ensures var e := trace[|trace| - 1];
      if attached then e.Attach? && e.reply == Attached(o)
      else e.ReadOwner? && e.owner == Some(o) && ReusableOwner(o, Follow(cfg, trace).record, e.now)
    ensures ToldAt(world, |trace| - 1, trace[|trace| - 1])
  {
    var front, e := LastFollowed(cfg, trace);
  }

  // ------------------------------------------------------ nothing is left open

  /** What comes next in this world, if anything does. */
  function NextEvent(cfg: Config, world: World, t: Track, n: nat): Option<Event> {
    match t
    case Begin => if world.record.Ok? then Some(ReadRecord(world.record.value)) else None
    case Run(_, AtOwner(_)) => if world.owner(n).Ok? then Some(ReadOwner(world.owner(n).value, world.now(n))) else None
    case Run(_, AtList(_)) => if world.hosts(n).Ok? then Some(Listed(world.hosts(n).value)) else None
    case Run(_, Trying(_, left)) => if left != [] then Some(Considered(left[0])) else None
    case Run(record, Vouching(_, c, demands, _)) =>
      if demands != [] then Some(Inquired(demands[0], c, ClassifyCapability(world.capability(n, demands[0], c))))
      else
        var request := AttachRequestFor(record, c.host, c.hostGeneration);
        Some(Attach(c, request, world.attach(n, request)))
    case Run(_, GoneStale(round)) =>
      if round + 1 < cfg.attempts && !world.waitFails(n) then Some(Waited(BackoffAt(cfg.backoff, round + 1))) else None
    case _ => None
  }

  lemma {:induction false} OnlyNext(cfg: Config, world: World, t: Track, n: nat, e: Event)
    requires !After(cfg, t, e).Bad? && ToldAt(world, n, e)
    ensures NextEvent(cfg, world, t, n) == Some(e)
  {
    hide Seats, BackoffAt, AttachRequestFor, Demands, ReusableOwner, ClassifyCapability;
  }

  lemma {:induction false} EndsThere(cfg: Config, world: World, trace: seq<Event>, ending: Ending)
    requires Ends(cfg, world, trace, ending)
    ensures !Follow(cfg, trace).Bad? && NextEvent(cfg, world, Follow(cfg, trace), |trace|).None?
  {
    hide Follow, Told;
  }

  function NextIn(cfg: Config, world: World): seq<Event> -> Option<Event> {
    (trace: seq<Event>) => NextEvent(cfg, world, Follow(cfg, trace), |trace|)
  }

  lemma {:induction false} ToldInOrder(cfg: Config, world: World, trace: seq<Event>)
    requires !Follow(cfg, trace).Bad? && Told(world, trace)
    ensures Determined(NextIn(cfg, world), trace)
  {
    hide Follow, After, NextEvent, ToldAt;
    forall n | 0 <= n < |trace|
      ensures NextIn(cfg, world)(trace[..n]) == Some(trace[n])
    {
      PrefixPermitted(cfg, trace, n);
      OnlyNext(cfg, world, Follow(cfg, trace[..n]), n, trace[n]);
    }
  }

  /** A world's answers leave nothing open: what is done, in what order, and how it ends. */
  lemma {:induction false} OneRun(cfg: Config, world: World, a: seq<Event>, x: Ending, b: seq<Event>, y: Ending)
    requires Ends(cfg, world, a, x) && Ends(cfg, world, b, y)
    ensures a == b && x == y
  {
    EndsThere(cfg, world, a, x);
    EndsThere(cfg, world, b, y);
    ToldInOrder(cfg, world, a);
    ToldInOrder(cfg, world, b);
    hide Follow, NextEvent, Determined, Told;
    OnePath(NextIn(cfg, world), a, b);
  }
}
