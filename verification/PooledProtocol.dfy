/**
 The order in which one pooled placement may talk to the world, as a monitor over
 the sequence of things it did, and what every permitted sequence guarantees.
 */
module PooledProtocol {
  import opened Common
  import opened Framing
  import opened Policy
  import opened Delivery
  import opened HostAnswers

  // ------------------------------------------------------------------ monitor

  datatype Event =
    | ReadRecord(record: Record)
    | Waited(d: nat)
    | ReadOwner(owner: Option<Observation>, now: Instant)
    | Listed(hosts: seq<Candidate>)
    | Considered(c: Candidate)
    | Inquired(kind: Kind, c: Candidate, capability: Capability)
    | Attach(c: Candidate, request: AttachRequest, reply: AttachReply)

  datatype Config = Config(gates: bool, references: bool, principals: bool, attempts: nat, backoff: nat)

  function Demands(cfg: Config): seq<Kind> { DemandsOf(cfg.gates, cfg.references, cfg.principals) }

  datatype Phase =
    | AtOwner(round: nat)
    | AtList(round: nat)
    | Trying(round: nat, left: seq<Candidate>)
    | Vouching(round: nat, c: Candidate, demands: seq<Kind>, left: seq<Candidate>)
    | GoneStale(round: nat)
    | Holding(o: Observation, attached: bool)
    | Moved
    | Broken

  datatype Track = Begin | Run(record: Record, at: Phase) | Bad

  function AfterVerdict(at: Phase, reply: AttachReply): Phase
    requires at.Vouching?
  {
    match AttachAnswer(reply)
    case Accepted => Holding(reply.o, true)
    case Stale => GoneStale(at.round)
    case Ambiguous => Broken
    case _ => Trying(at.round, at.left)
  }

  function Move(cfg: Config, record: Record, at: Phase, e: Event): Option<Phase> {
    match at
    case AtOwner(round) =>
      if !e.ReadOwner? then None
      else if e.owner.Some? && ReusableOwner(e.owner.value, record, e.now) then Some(Holding(e.owner.value, false))
      else Some(AtList(round))
    case AtList(round) => if e.Listed? then Some(Trying(round, Seats(e.hosts, record))) else None
    case Trying(round, left) =>
      if e.Considered? && left != [] && left[0] == e.c
      then Some(Vouching(round, e.c, Demands(cfg), left[1..])) else None
    case Vouching(round, c, demands, left) =>
      if e.Inquired? && demands != [] && e.kind == demands[0] && e.c == c then
        Some(match e.capability
             case Capable => Vouching(round, c, demands[1..], left)
             case Abort => Broken
             case _ => Trying(round, left))
      else if e.Attach? && demands == [] && e.c == c &&
        e.request == AttachRequestFor(record, c.host, c.hostGeneration) then
        Some(AfterVerdict(at, e.reply))
      else None
    case GoneStale(round) =>
      if e.Waited? && round + 1 < cfg.attempts && e.d == BackoffAt(cfg.backoff, round + 1)
      then Some(AtOwner(round + 1)) else None
    case _ => None // nothing may follow
  }

  function After(cfg: Config, t: Track, e: Event): Track {
    match t
    case Begin => if e.ReadRecord? then Run(e.record, if e.record.placement.Pooled? then AtOwner(0) else Moved) else Bad
    case Run(record, at) => (match Move(cfg, record, at, e) case Some(next) => Run(record, next) case None => Bad)
    case Bad => Bad
  }

  function Follow(cfg: Config, trace: seq<Event>): Track {
    if trace == [] then Begin else After(cfg, Follow(cfg, trace[..|trace| - 1]), trace[|trace| - 1])
  }

  lemma Followed(cfg: Config, trace: seq<Event>, e: Event)
    ensures Follow(cfg, trace + [e]) == After(cfg, Follow(cfg, trace), e)
  {
    assert (trace + [e])[..|trace|] == trace;
  }

  // ------------------------------------------------- what permitted runs share

  lemma {:induction false} PrefixPermitted(cfg: Config, trace: seq<Event>, n: nat)
    requires !Follow(cfg, trace).Bad? && n <= |trace|
    ensures !Follow(cfg, trace[..n]).Bad?
    ensures n < |trace| ==>
      Follow(cfg, trace[..n + 1]) == After(cfg, Follow(cfg, trace[..n]), trace[n]) && !Follow(cfg, trace[..n + 1]).Bad?
    decreases |trace| - n
  {
    hide After, Follow;
    assert trace[..|trace|] == trace;
    if n < |trace| {
      PrefixPermitted(cfg, trace, n + 1);
      assert trace[..n + 1] == trace[..n] + [trace[n]];
      Followed(cfg, trace[..n], trace[n]);
      BadStays(cfg, Follow(cfg, trace[..n]), trace[n]);
    }
  }

  lemma {:induction false} BadStays(cfg: Config, t: Track, e: Event)
    ensures t.Bad? ==> After(cfg, t, e).Bad?
  {}

  /** What a permitted answer to an attach leads to, and what may come next. */
  lemma {:induction false} AnswerLeads(cfg: Config, t: Track, e: Event)
    requires e.Attach? && !After(cfg, t, e).Bad?
    ensures After(cfg, t, e).Run?
    ensures AttachAnswer(e.reply).Stale? ==> After(cfg, t, e).at.GoneStale?
    ensures AttachAnswer(e.reply).Accepted? || AttachAnswer(e.reply).Ambiguous? ==>
      After(cfg, t, e).at.Holding? || After(cfg, t, e).at.Broken?
  {}

  lemma {:induction false} Onward(cfg: Config, t: Track, e: Event)
    requires t.Run? && !After(cfg, t, e).Bad?
    ensures !t.at.Holding? && !t.at.Broken?
    ensures t.at.GoneStale? ==> e.Waited? && After(cfg, t, e).Run? && After(cfg, t, e).at.AtOwner?
    ensures t.at.AtOwner? ==> e.ReadOwner?
  {}

  /** A Host that accepted, or that may have acted, is the last one asked: nothing at all follows its answer. */
  lemma {:induction false} NothingAfterDecisiveAnswer(cfg: Config, trace: seq<Event>, i: nat)
    requires !Follow(cfg, trace).Bad? && i < |trace| && trace[i].Attach?
    requires AttachAnswer(trace[i].reply).Accepted? || AttachAnswer(trace[i].reply).Ambiguous?
    ensures i == |trace| - 1
  {
    hide Follow, After;
    PrefixPermitted(cfg, trace, i);
    AnswerLeads(cfg, Follow(cfg, trace[..i]), trace[i]);
    if i + 1 < |trace| {
      PrefixPermitted(cfg, trace, i + 1);
      Onward(cfg, Follow(cfg, trace[..i + 1]), trace[i + 1]);
    }
  }

  /** A stale registry is waited out and read again before any other Host is asked. */
  lemma {:induction false} StaleMeansReread(cfg: Config, trace: seq<Event>, i: nat)
    requires !Follow(cfg, trace).Bad? && i < |trace| && trace[i].Attach? && AttachAnswer(trace[i].reply).Stale?
    ensures i + 1 < |trace| ==> trace[i + 1].Waited?
    ensures i + 2 < |trace| ==> trace[i + 2].ReadOwner?
  {
    hide Follow, After;
    PrefixPermitted(cfg, trace, i);
    AnswerLeads(cfg, Follow(cfg, trace[..i]), trace[i]);
    if i + 1 < |trace| {
      PrefixPermitted(cfg, trace, i + 1);
      Onward(cfg, Follow(cfg, trace[..i + 1]), trace[i + 1]);
    }
    if i + 2 < |trace| {
      PrefixPermitted(cfg, trace, i + 2);
      Onward(cfg, Follow(cfg, trace[..i + 2]), trace[i + 2]);
    }
  }

  /**
   A permitted listing comes where the registry named no reusable owner, and a placement
   comes to be there by that read.
   */
  lemma {:induction false} ListsAtList(cfg: Config, t: Track, e: Event)
    requires e.Listed? && !After(cfg, t, e).Bad?
    ensures t.Run? && t.at.AtList?
  {
    hide Seats, BackoffAt, AttachRequestFor, Demands, ReusableOwner;
  }

  lemma {:induction false} IntoList(cfg: Config, t: Track, e: Event)
    requires After(cfg, t, e).Run? && After(cfg, t, e).at.AtList?
    ensures e.ReadOwner? && (e.owner.Some? ==> !ReusableOwner(e.owner.value, After(cfg, t, e).record, e.now))
  {
    hide Seats, BackoffAt, AttachRequestFor, Demands, ReusableOwner;
  }

  /** Hosts are listed only right after the registry was seen to name no reusable owner. */
  lemma {:induction false} ListedOnlyUnowned(cfg: Config, trace: seq<Event>, i: nat)
    requires !Follow(cfg, trace).Bad? && i < |trace| && trace[i].Listed?
    ensures i > 0 && trace[i - 1].ReadOwner? && Follow(cfg, trace[..i]).Run?
    ensures trace[i - 1].owner.Some? ==>
      !ReusableOwner(trace[i - 1].owner.value, Follow(cfg, trace[..i]).record, trace[i - 1].now)
  {
    assert i == 0 ==> Follow(cfg, trace[..i]).Begin?;
    hide Follow, After, ReusableOwner;
    PrefixPermitted(cfg, trace, i);
    ListsAtList(cfg, Follow(cfg, trace[..i]), trace[i]);
    PrefixPermitted(cfg, trace, i - 1);
    IntoList(cfg, Follow(cfg, trace[..i - 1]), trace[i - 1]);
  }

  // ----------------------------------------------------------- vouched attaches

  /** The questions put about a candidate, all answered yes. */
  function Assurances(kinds: seq<Kind>, c: Candidate): seq<Event> {
    if kinds == [] then [] else Assurances(kinds[..|kinds| - 1], c) + [Inquired(kinds[|kinds| - 1], c, Capable)]
  }

  /** The trace ends with the candidate being taken up and with `done` answered for it. */
  ghost predicate EndsVouching(trace: seq<Event>, c: Candidate, done: seq<Kind>) {
    var n := |trace| - |Assurances(done, c)| - 1;
    n >= 0 && trace[n..] == [Considered(c)] + Assurances(done, c)
  }

  lemma VouchingBegins(trace: seq<Event>, c: Candidate)
    ensures EndsVouching(trace + [Considered(c)], c, [])
  {
    assert (trace + [Considered(c)])[|trace|..] == [Considered(c)];
  }

  lemma VouchingGrows(trace: seq<Event>, c: Candidate, done: seq<Kind>, kind: Kind)
    requires EndsVouching(trace, c, done)
    ensures EndsVouching(trace + [Inquired(kind, c, Capable)], c, done + [kind])
  {
    var e, n := Inquired(kind, c, Capable), |trace| - |Assurances(done, c)| - 1;
    assert (done + [kind])[..|done|] == done;
    assert (trace + [e])[n..] == trace[n..] + [e];
  }

  /** How a placement comes to be vouching for a candidate. */
  lemma IntoVouching(cfg: Config, t: Track, e: Event)
    requires After(cfg, t, e).Run? && After(cfg, t, e).at.Vouching?
    ensures var at := After(cfg, t, e).at;
      if e.Considered? then at.demands == Demands(cfg) && at.c == e.c
      else
        && t.Run? && t.at.Vouching? && t.at.c == at.c && e.Inquired?
        && t.at.demands == [e.kind] + at.demands && e == Inquired(e.kind, at.c, Capable)
  {}

  lemma Shift(before: seq<Kind>, k: Kind, rest: seq<Kind>)
    ensures before + ([k] + rest) == (before + [k]) + rest
  {}

  lemma LastFollowed(cfg: Config, trace: seq<Event>) returns (front: seq<Event>, e: Event)
    requires Follow(cfg, trace).Run?
    ensures trace == front + [e] && Follow(cfg, trace) == After(cfg, Follow(cfg, front), e)
  {
    front, e := trace[..|trace| - 1], trace[|trace| - 1];
  }

  lemma {:induction false} VouchedSoFar(cfg: Config, trace: seq<Event>) returns (done: seq<Kind>)
    requires Follow(cfg, trace).Run? && Follow(cfg, trace).at.Vouching?
    ensures done + Follow(cfg, trace).at.demands == Demands(cfg) && EndsVouching(trace, Follow(cfg, trace).at.c, done)
    decreases |trace|
  {
    hide Follow, After, EndsVouching, Demands;
    var front, e := LastFollowed(cfg, trace);
    IntoVouching(cfg, Follow(cfg, front), e);
    if e.Considered? {
      done := [];
      VouchingBegins(front, e.c);
    } else {
      done := VouchedSoFar(cfg, front);
      VouchingGrows(front, e.c, done, e.kind);
      Shift(done, e.kind, Follow(cfg, trace).at.demands);
      done := done + [e.kind];
    }
  }

  /** No Host is asked to attach before every demanded capability was confirmed for it, in that very turn. */
  lemma {:induction false} AttachVouched(cfg: Config, trace: seq<Event>, i: nat)
    requires !Follow(cfg, trace).Bad? && i < |trace| && trace[i].Attach?
    ensures EndsVouching(trace[..i], trace[i].c, Demands(cfg))
    ensures (GateResponse in Demands(cfg) <==> cfg.gates) && (Reference in Demands(cfg) <==> cfg.references)
    ensures Principal in Demands(cfg) <==> cfg.principals
  {
    DemandsMeaning(cfg.gates, cfg.references, cfg.principals);
    PrefixPermitted(cfg, trace, i);
    hide Follow;
    var done := VouchedSoFar(cfg, trace[..i]);
    assert done + [] == done;
  }

  // --------------------------------------------------------- admissible targets

  ghost predicate AllAdmissible(record: Record, at: Phase) {
    && (at.Trying? || at.Vouching? ==> forall c :: c in at.left ==> Admissible(c, record))
    && (at.Vouching? ==> Admissible(at.c, record))
  }

  lemma {:induction false} OnlyAdmissible(cfg: Config, trace: seq<Event>)
    requires Follow(cfg, trace).Run?
    ensures AllAdmissible(Follow(cfg, trace).record, Follow(cfg, trace).at)
  {
    var front, e := trace[..|trace| - 1], trace[|trace| - 1];
    if Follow(cfg, front).Run? {
      OnlyAdmissible(cfg, front);
      if e.Listed? {
        var record := Follow(cfg, front).record;
        forall c | c in Seats(e.hosts, record)
          ensures Admissible(c, record)
        {
          SeatsMeaning(e.hosts, record, c);
        }
      }
    }
  }

  /** The record a placement is about is the one it began by reading. */
  lemma {:induction false} RecordFirst(cfg: Config, trace: seq<Event>)
    requires Follow(cfg, trace).Run?
    ensures trace != [] && trace[0] == ReadRecord(Follow(cfg, trace).record)
  {
    var front := trace[..|trace| - 1];
    if Follow(cfg, front).Run? {
      RecordFirst(cfg, front);
      hide Move;
    } else {
      BeginIsEmpty(cfg, front);
    }
  }

  /** Every attach goes to an admissible candidate, under that candidate's fence and the record's own key. */
  lemma {:induction false} AttachAdmissible(cfg: Config, trace: seq<Event>, i: nat)
    requires !Follow(cfg, trace).Bad? && i < |trace| && trace[i].Attach?
    ensures trace[0].ReadRecord?
    ensures var record, c := trace[0].record, trace[i].c;
      && c.agent == record.agent && c.runtime == record.runtime && c.placement == record.placement
      && c.isolation.CrossTenant? && c.accepting && c.capacity > 0
      && AsksFor(trace[i].request, record)
      && trace[i].request.host == c.host && trace[i].request.hostGeneration == c.hostGeneration
  {
    PrefixPermitted(cfg, trace, i);
    OnlyAdmissible(cfg, trace[..i]);
    RecordFirst(cfg, trace[..i]);
    hide Follow, Seats;
  }

  // ------------------------------------------------------------------- rounds

  function Lists(trace: seq<Event>): nat {
    if trace == [] then 0 else Lists(trace[..|trace| - 1]) + if trace[|trace| - 1].Listed? then 1 else 0
  }

  lemma {:induction false} ListsByRound(cfg: Config, trace: seq<Event>)
    requires Follow(cfg, trace).Run? && cfg.attempts > 0
    ensures var at := Follow(cfg, trace).at;
      && (at.AtOwner? || at.AtList? ==> Lists(trace) == at.round < cfg.attempts)
      && (at.Trying? || at.Vouching? || at.GoneStale? ==> Lists(trace) == at.round + 1 <= cfg.attempts)
      && Lists(trace) <= cfg.attempts
  {
    var front := trace[..|trace| - 1];
    if Follow(cfg, front).Run? {
      ListsByRound(cfg, front);
    } else {
      assert front == [] || Follow(cfg, front).Begin?;
      BeginIsEmpty(cfg, front);
    }
  }

  lemma BeginIsEmpty(cfg: Config, trace: seq<Event>)
    requires Follow(cfg, trace).Begin?
    ensures trace == []
  {}

  /** However often the registry is stale, a placement lists Hosts at most as many times as it has attempts. */
  lemma {:induction false} RoundsBounded(cfg: Config, trace: seq<Event>)
    requires !Follow(cfg, trace).Bad? && cfg.attempts > 0
    ensures Lists(trace) <= cfg.attempts
  {
    if Follow(cfg, trace).Run? { ListsByRound(cfg, trace); } else { BeginIsEmpty(cfg, trace); }
  }

  // --------------------------------------------------------------- accounting

  /** The Result's lists. */
  datatype Ledger = Ledger(
    incapable: seq<HostId>, unaddressable: seq<HostId>, unreachable: seq<HostId>,
    refused: seq<HostId>, excluded: seq<HostId>, failed: seq<HostId>)

  const EMPTY: Ledger := Ledger([], [], [], [], [], [])

  function Noted(r: Ledger, e: Event): Ledger {
    match e
    case Inquired(_, c, capability) =>
      (match capability
       case Incapable => r.(incapable := r.incapable + [c.host])
       case Unaddressable => r.(unaddressable := r.unaddressable + [c.host])
       case Unreachable => r.(unreachable := r.unreachable + [c.host])
       case _ => r)
    case Attach(c, _, reply) =>
      (match AttachAnswer(reply)
       case Stale => r.(refused := r.refused + [c.host])
       case Refused => r.(refused := r.refused + [c.host])
       case Unsupported => r.(excluded := r.excluded + [c.host])
       case NoContact => r.(unreachable := r.unreachable + [c.host])
       case NoAddress => r.(unaddressable := r.unaddressable + [c.host])
       case HostFailed => r.(failed := r.failed + [c.host])
       case _ => r)
    case _ => r
  }

  function LedgerOf(trace: seq<Event>): Ledger {
    if trace == [] then EMPTY else Noted(LedgerOf(trace[..|trace| - 1]), trace[|trace| - 1])
  }

  function Occurs(list: seq<HostId>, h: HostId): nat { multiset(list)[h] }

  /** One, if the host is this one. */
  function One(host: HostId, h: HostId): nat { if host == h then 1 else 0 }

  /** How often a host stands on the lists, all six together. */
  function Listings(r: Ledger, h: HostId): nat {
    Occurs(r.incapable, h) + Occurs(r.unaddressable, h) + Occurs(r.unreachable, h)
    + Occurs(r.refused, h) + Occurs(r.excluded, h) + Occurs(r.failed, h)
  }

  function Takes(e: Event, h: HostId): nat { if e.Considered? then One(e.c.host, h) else 0 }

  /** How often a host was taken up. */
  function TakenUp(trace: seq<Event>, h: HostId): nat {
    if trace == [] then 0 else TakenUp(trace[..|trace| - 1], h) + Takes(trace[|trace| - 1], h)
  }

  /** The last event was about a host: the one whose answer ended the placement. */
  function Ended(trace: seq<Event>, h: HostId): nat {
    if trace == [] then 0
    else var e := trace[|trace| - 1]; if e.Inquired? || e.Attach? then One(e.c.host, h) else 0
  }

  /** Whether the host is in the hands of the placement, or is the one whose answer ended it. */
  function InHand(t: Track, trace: seq<Event>, h: HostId): nat {
    if !t.Run? then 0
    else match t.at
      case Vouching(_, c, _, _) => One(c.host, h)
      case Broken => Ended(trace, h)
      case Holding(_, attached) => if attached then Ended(trace, h) else 0
      case _ => 0
  }

  /** Whether the event puts the host on a list. */
  function Lands(e: Event, h: HostId): nat {
    match e
    case Inquired(_, c, capability) => if capability.Capable? || capability.Abort? then 0 else One(c.host, h)
    case Attach(c, _, reply) =>
      if AttachAnswer(reply).Accepted? || AttachAnswer(reply).Ambiguous? then 0 else One(c.host, h)
    case _ => 0
  }

  lemma {:induction false} Added(list: seq<HostId>, host: HostId, h: HostId)
    ensures Occurs(list + [host], h) == Occurs(list, h) + One(host, h)
  {}

  lemma {:induction false} NotedLands(r: Ledger, e: Event, h: HostId)
    ensures Listings(Noted(r, e), h) == Listings(r, h) + Lands(e, h)
  {
    hide Occurs, One;
    if e.Inquired? || e.Attach? {
      Added(r.incapable, e.c.host, h);
      Added(r.unaddressable, e.c.host, h);
      Added(r.unreachable, e.c.host, h);
      Added(r.refused, e.c.host, h);
      Added(r.excluded, e.c.host, h);
      Added(r.failed, e.c.host, h);
    }
  }

  /** A permitted event takes a host in hand, keeps it there, or puts it on a list. */
  lemma {:induction false} HandMoves(cfg: Config, t: Track, trace: seq<Event>, e: Event, h: HostId)
    requires !After(cfg, t, e).Bad?
    ensures Lands(e, h) + InHand(After(cfg, t, e), trace + [e], h) == InHand(t, trace, h) + Takes(e, h)
  {
    hide Seats, BackoffAt, AttachRequestFor, Demands, ReusableOwner, One;
    assert (trace + [e])[|trace|] == e;
  }

  /**
   Every time a host is taken up it lands on exactly one list: counted for each host,
   what was taken up is what the six lists hold and the one still in hand, or whose
   answer ended the placement.
   */
  lemma {:induction false} EveryCandidateListedOnce(cfg: Config, trace: seq<Event>, h: HostId)
    requires !Follow(cfg, trace).Bad?
    ensures TakenUp(trace, h) == Listings(LedgerOf(trace), h) + InHand(Follow(cfg, trace), trace, h)
  {
    hide One, After, Noted, Lands, Takes;
    if trace == [] {
      assert Follow(cfg, trace).Begin? && LedgerOf(trace) == EMPTY;
    } else {
      var front, e := trace[..|trace| - 1], trace[|trace| - 1];
      hide InHand, Listings;
      BadStays(cfg, Follow(cfg, front), e);
      EveryCandidateListedOnce(cfg, front, h);
      NotedLands(LedgerOf(front), e, h);
      HandMoves(cfg, Follow(cfg, front), front, e, h);
      assert trace == front + [e];
    }
  }
}
