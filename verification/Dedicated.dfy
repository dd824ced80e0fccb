/**
 Placing a session on the Host built for it. The claim does not fence the writer
 of the catalog, so the record is read again after everything that may block: no
 attach goes out for a desire that the last read did not show.
 */
module Dedicated {
  import opened Common
  import opened Framing
  import opened Policy
  import opened HostAnswers
  import Delivery

  /** The intent a workload was built for. */
  datatype Wanted = Wanted(generation: nat)

  predicate Current(r: Record, want: Wanted) { r.placement.Dedicated? && r.generation == want.generation }

  predicate Ours(o: Observation, r: Record, want: Wanted, now: Instant) {
    ReusableOwner(o, r, now) && o.hostGeneration == want.generation
  }

  datatype Endpoint = Endpoint(host: HostId, generation: nat, base: Bytes, valid: bool)

  // ------------------------------------------------------------------ monitor

  datatype Event =
    | Observed(found: Option<Observation>)
    | ReadRecord(record: Record)
    | ReadOwner(owner: Option<Observation>, now: Instant)
    | Rechecked(valid: bool, now: Instant)
    | Discovered(endpoint: Endpoint)
    | Inquired(kind: Delivery.Kind, capability: Capability)
    | Attach(request: AttachRequest, reply: AttachReply, valid: bool, now: Instant)

  datatype Phase =
    | Begin
    | Looked(found: Option<Observation>)
    | Known(found: Option<Observation>, r: Record)
    | Unowned(found: Option<Observation>, r: Record)
    | Reachable(host: HostId, base: Bytes, demands: seq<Delivery.Kind>)
    | Fresh(host: HostId, base: Bytes, demands: seq<Delivery.Kind>, r: Record)
    | GoneStale(r: Record)
    | Holding(o: Observation, attached: bool, r: Record)
    | Over
    | Bad

  function Reread(want: Wanted, r: Record, next: Phase): Phase { if Current(r, want) then next else Over }

  function Resident(want: Wanted, owner: Option<Observation>, r: Record, now: Instant, otherwise: Phase): Phase {
    if owner.Some? && Ours(owner.value, r, want, now) then Holding(owner.value, false, r) else otherwise
  }

  function AfterAttach(want: Wanted, p: Phase, e: Event): Phase
    requires p.Fresh? && e.Attach?
  {
    match AttachAnswer(e.reply)
    case Accepted =>
      var o := e.reply.o;
      if e.valid && Ours(o, p.r, want, e.now) && o.host == p.host && o.endpoint == p.base
      then Holding(o, true, p.r) else Over
    case Stale => GoneStale(p.r)
    case _ => Over
  }

  function After(want: Wanted, demands: seq<Delivery.Kind>, p: Phase, e: Event): Phase {
    match p
    case Begin => if e.Observed? then Looked(e.found) else Bad
    case Looked(found) => if e.ReadRecord? then Reread(want, e.record, Known(found, e.record)) else Bad
    case Known(found, r) => if e.ReadOwner? then Resident(want, e.owner, r, e.now, Unowned(found, r)) else Bad
    case Unowned(found, r) =>
      if found.Some? then
        if e.Rechecked? then (if e.valid then Resident(want, found, r, e.now, Over) else Over) else Bad
      else if e.Discovered? then
        if e.endpoint.valid && e.endpoint.generation == want.generation
        then Reachable(e.endpoint.host, e.endpoint.base, demands) else Over
      else Bad
    case Reachable(host, base, rest) =>
      if e.ReadRecord? then Reread(want, e.record, Fresh(host, base, rest, e.record)) else Bad
    case Fresh(host, base, rest, r) =>
      if e.Inquired? && rest != [] && e.kind == rest[0] then
        if e.capability.Capable? then Reachable(host, base, rest[1..]) else Over
      else if e.Attach? && rest == [] && e.request == AttachRequestFor(r, host, want.generation) then
        AfterAttach(want, p, e)
      else Bad
    case GoneStale(r) => if e.ReadOwner? then Resident(want, e.owner, r, e.now, Over) else Bad
    case _ => Bad
  }

  function Follow(want: Wanted, demands: seq<Delivery.Kind>, trace: seq<Event>): Phase {
    if trace == [] then Begin else After(want, demands, Follow(want, demands, trace[..|trace| - 1]), trace[|trace| - 1])
  }

  lemma Followed(want: Wanted, demands: seq<Delivery.Kind>, trace: seq<Event>, e: Event)
    ensures Follow(want, demands, trace + [e]) == After(want, demands, Follow(want, demands, trace), e)
  {
    assert (trace + [e])[..|trace|] == trace;
  }

  // ----------------------------------------------------------------- theorems

  lemma {:induction false} PrefixPermitted(want: Wanted, demands: seq<Delivery.Kind>, trace: seq<Event>, n: nat)
    requires !Follow(want, demands, trace).Bad? && n <= |trace|
    ensures !Follow(want, demands, trace[..n]).Bad?
    ensures n < |trace| ==>
      var next := Follow(want, demands, trace[..n + 1]);
      next == After(want, demands, Follow(want, demands, trace[..n]), trace[n]) && !next.Bad?
    decreases |trace| - n
  {
    hide After, Follow;
    assert trace[..|trace|] == trace;
    if n < |trace| {
      PrefixPermitted(want, demands, trace, n + 1);
      assert trace[..n + 1] == trace[..n] + [trace[n]];
      Followed(want, demands, trace[..n], trace[n]);
      BadStays(want, demands, Follow(want, demands, trace[..n]), trace[n]);
    }
  }

  lemma BadStays(want: Wanted, demands: seq<Delivery.Kind>, p: Phase, e: Event)
    ensures p.Bad? ==> After(want, demands, p, e).Bad?
  {}

  /** What a phase remembers is what the trace last did. */
  ghost predicate Remembers(want: Wanted, trace: seq<Event>, p: Phase) {
    && (p.Fresh? ==> trace != [] && trace[|trace| - 1] == ReadRecord(p.r) && Current(p.r, want))
    && (p.Known? || p.Unowned? || p.GoneStale? || p.Holding? ==> ReadRecord(p.r) in trace && Current(p.r, want))
    && (p.Holding? ==> p.o.hostGeneration == want.generation)
  }

  lemma RemembersStep(want: Wanted, demands: seq<Delivery.Kind>, trace: seq<Event>, p: Phase, e: Event)
    requires Remembers(want, trace, p)
    ensures Remembers(want, trace + [e], After(want, demands, p, e))
  {
    assert p.Fresh? ==> trace[|trace| - 1] in trace;
  }

  lemma {:induction false} RemembersAlways(want: Wanted, demands: seq<Delivery.Kind>, trace: seq<Event>)
    ensures Remembers(want, trace, Follow(want, demands, trace))
  {
    if trace != [] {
      var front, e := trace[..|trace| - 1], trace[|trace| - 1];
      RemembersAlways(want, demands, front);
      RemembersStep(want, demands, front, Follow(want, demands, front), e);
      assert trace == front + [e];
    }
  }

  /** Every attach follows at once on a read that showed this very desire, and is built from it. */
  lemma {:induction false} AttachFresh(want: Wanted, demands: seq<Delivery.Kind>, trace: seq<Event>, i: nat)
    requires !Follow(want, demands, trace).Bad? && i < |trace| && trace[i].Attach?
    ensures i > 0 && trace[i - 1].ReadRecord? && Current(trace[i - 1].record, want)
    ensures AsksFor(trace[i].request, trace[i - 1].record) && trace[i].request.hostGeneration == want.generation
  {
    PrefixPermitted(want, demands, trace, i);
    RemembersAlways(want, demands, trace[..i]);
    hide Follow;
  }

  /** What a permitted attach leads to, and what may come after that. */
  lemma {:induction false} AttachLeads(want: Wanted, demands: seq<Delivery.Kind>, p: Phase, e: Event)
    requires e.Attach? && !After(want, demands, p, e).Bad?
    ensures var next := After(want, demands, p, e); next.Holding? || next.Over? || next.GoneStale?
  {}

  lemma {:induction false} Onward(want: Wanted, demands: seq<Delivery.Kind>, p: Phase, e: Event)
    requires !After(want, demands, p, e).Bad?
    ensures !p.Holding? && !p.Over?
    ensures p.GoneStale? ==> e.ReadOwner? && (After(want, demands, p, e).Holding? || After(want, demands, p, e).Over?)
  {}

  /** At most a second look at the registry follows an attach, and never another attach. */
  lemma {:induction false} OneAttach(want: Wanted, demands: seq<Delivery.Kind>, trace: seq<Event>, i: nat, j: nat)
    requires !Follow(want, demands, trace).Bad? && i < j < |trace| && trace[i].Attach?
    ensures j == i + 1 && trace[j].ReadOwner?
  {
    hide Follow, After;
    PrefixPermitted(want, demands, trace, i);
    AttachLeads(want, demands, Follow(want, demands, trace[..i]), trace[i]);
    PrefixPermitted(want, demands, trace, i + 1);
    Onward(want, demands, Follow(want, demands, trace[..i + 1]), trace[i + 1]);
    if i + 2 < |trace| {
      PrefixPermitted(want, demands, trace, i + 2);
      Onward(want, demands, Follow(want, demands, trace[..i + 2]), trace[i + 2]);
    }
  }

  ghost predicate Confirmed(trace: seq<Event>, demands: seq<Delivery.Kind>, rest: seq<Delivery.Kind>) {
    |rest| <= |demands| && rest == demands[|demands| - |rest|..]
    && forall i :: 0 <= i < |demands| - |rest| ==> Inquired(demands[i], Capable) in trace
  }

  lemma {:induction false} ConfirmedStep(want: Wanted, demands: seq<Delivery.Kind>, trace: seq<Event>, p: Phase,
                                         e: Event)
    requires p.Fresh? || p.Reachable? ==> Confirmed(trace, demands, p.demands)
    ensures var q := After(want, demands, p, e); q.Fresh? || q.Reachable? ==> Confirmed(trace + [e], demands, q.demands)
  {
    hide AttachRequestFor, ReusableOwner;
    if p.Fresh? && e.Inquired? && p.demands != [] {
      var done := |demands| - |p.demands|;
      assert demands[done..][0] == demands[done] && demands[done..][1..] == demands[done + 1..];
    }
  }

  lemma {:induction false} ConfirmedAlways(want: Wanted, demands: seq<Delivery.Kind>, trace: seq<Event>)
    ensures var p := Follow(want, demands, trace); p.Fresh? || p.Reachable? ==> Confirmed(trace, demands, p.demands)
  {
    if trace != [] {
      var front, e := trace[..|trace| - 1], trace[|trace| - 1];
      ConfirmedAlways(want, demands, front);
      ConfirmedStep(want, demands, front, Follow(want, demands, front), e);
      assert trace == front + [e];
    }
  }

  /** No attach before every demanded capability was confirmed. */
  lemma {:induction false} AttachVouched(want: Wanted, demands: seq<Delivery.Kind>, trace: seq<Event>, i: nat)
    requires !Follow(want, demands, trace).Bad? && i < |trace| && trace[i].Attach?
    ensures forall k :: k in demands ==> Inquired(k, Capable) in trace[..i]
  {
    PrefixPermitted(want, demands, trace, i);
    ConfirmedAlways(want, demands, trace[..i]);
    hide Follow;
  }

  /** A residency held, and so bound to, is of the wanted incarnation, and of a desire read in this very placement. */
  lemma {:induction false} HoldFenced(want: Wanted, demands: seq<Delivery.Kind>, trace: seq<Event>)
    requires Follow(want, demands, trace).Holding?
    ensures var p := Follow(want, demands, trace);
      && BindRequestFor(p.o).hostGeneration == want.generation
      && ReadRecord(p.r) in trace && Current(p.r, want)
  {
    RemembersAlways(want, demands, trace);
  }

  // --------------------------------------------------------------- the method

  /** What the world answers to whatever is asked after n things have happened. */
  datatype World = World(
    observe: Reply<Option<Observation>>, observedValid: bool, record: nat -> Reply<Record>,
    owner: nat -> Reply<Option<Observation>>, now: nat -> Instant,
    linked: bool, discovers: bool, endpoint: Reply<Option<Endpoint>>,
    capability: (nat, Delivery.Kind) -> CapabilityReply, attach: (nat, AttachRequest) -> AttachReply,
    replyValid: nat -> bool)

  /** A residency to bind, a desire that has moved on, a Host that would not have it, nothing to do yet, or an error. */
  datatype Ending = Hold(o: Observation, attached: bool) | Superseded | Declined(host: HostId) | Waiting | Fault

  /** What the placement heard, after n things had happened, is what the world answers then. */
  ghost predicate ToldAt(world: World, n: nat, e: Event) {
    match e
    case Observed(found) => world.observe == Ok(found)
    case ReadRecord(record) => world.record(n) == Ok(record)
    case ReadOwner(owner, now) => world.owner(n) == Ok(owner) && now == world.now(n)
    case Rechecked(valid, now) => valid == world.observedValid && now == world.now(n)
    case Discovered(endpoint) => world.linked && world.discovers && world.endpoint == Ok(Some(endpoint))
    case Inquired(kind, capability) => capability == ClassifyCapability(world.capability(n, kind))
    case Attach(request, reply, valid, now) =>
      reply == world.attach(n, request) && valid == world.replyValid(n) && now == world.now(n)
  }

  ghost predicate Told(world: World, trace: seq<Event>) { forall n :: 0 <= n < |trace| ==> ToldAt(world, n, trace[n]) }

  /** An answer of the Host's own that ends the placement without an error. */
  predicate Declining(e: Event) {
    match e
    case Inquired(_, capability) => !capability.Capable? && !capability.Abort?
    case Attach(_, reply, _, _) =>
      var v := AttachAnswer(reply); v.Refused? || v.NoAddress? || v.NoContact? || v.HostFailed?
    case _ => false
  }

  /** No residency, and nobody to ask for one: no links, or a workload that is not ready. */
  predicate NotYet(world: World) { !world.linked || (world.discovers && world.endpoint == Ok(None)) }

  /** What ends a placement in an error: a failed read at this very point, or an answer that may not be acted on. */
  ghost predicate Failed(world: World, trace: seq<Event>, p: Phase) {
    match p
    case Begin => world.observe.Err?
    case Looked(_) => world.record(|trace|).Err?
    case Reachable(_, _, _) => world.record(|trace|).Err?
    case Known(_, _) => world.owner(|trace|).Err?
    case GoneStale(_) => world.owner(|trace|).Err?
    case Unowned(found, _) => found.None? && world.linked && (!world.discovers || world.endpoint.Err?)
    case Over => trace != [] && !trace[|trace| - 1].ReadRecord? && !Declining(trace[|trace| - 1])
    case _ => false
  }

  ghost predicate Ends(want: Wanted, demands: seq<Delivery.Kind>, world: World, trace: seq<Event>, ending: Ending) {
    var p := Follow(want, demands, trace);
    && Told(world, trace) && !p.Bad?
    && match ending
       case Hold(o, attached) => p.Holding? && p.o == o && p.attached == attached
       case Superseded =>
         p.Over? && trace != [] && trace[|trace| - 1].ReadRecord? && !Current(trace[|trace| - 1].record, want)
       case Declined(host) =>
         && p.Over? && trace != [] && Declining(trace[|trace| - 1])
         && var before := Follow(want, demands, trace[..|trace| - 1]); before.Fresh? && before.host == host
       case Waiting => p.Unowned? && p.found.None? && NotYet(world)
       case Fault => Failed(world, trace, p)
  }

  /** Where a conversation stands. */
  ghost predicate At(want: Wanted, demands: seq<Delivery.Kind>, world: World, trace: seq<Event>, p: Phase) {
    Follow(want, demands, trace) == p && Told(world, trace)
  }

  lemma {:induction false} Happens(want: Wanted, demands: seq<Delivery.Kind>, world: World, trace: seq<Event>,
                                   p: Phase, e: Event)
    requires At(want, demands, world, trace, p) && ToldAt(world, |trace|, e)
    ensures At(want, demands, world, trace + [e], After(want, demands, p, e))
  {
    Followed(want, demands, trace, e);
    hide ToldAt, After, Follow;
  }

  lemma {:induction false} Start(want: Wanted, demands: seq<Delivery.Kind>, world: World)
    ensures At(want, demands, world, [], Begin)
  {}

  lemma {:induction false} EndsIn(want: Wanted, demands: seq<Delivery.Kind>, world: World, trace: seq<Event>,
                                  e: Event, before: Phase, ending: Ending)
    requires At(want, demands, world, trace + [e], After(want, demands, before, e)) &&
      Follow(want, demands, trace) == before
    requires match ending
      case Hold(o, attached) =>
        var p := After(want, demands, before, e); p.Holding? && p.o == o && p.attached == attached
      case Superseded => After(want, demands, before, e).Over? && e.ReadRecord? && !Current(e.record, want)
      case Declined(host) =>
        After(want, demands, before, e).Over? && Declining(e) && before.Fresh? && before.host == host
      case Waiting => false
      case Fault => After(want, demands, before, e).Over? && !e.ReadRecord? && !Declining(e)
    ensures Ends(want, demands, world, trace + [e], ending)
  {
    assert (trace + [e])[..|trace|] == trace && (trace + [e])[|trace|] == e;
    hide Told, After, Follow, Declining;
  }

  /** The re-read that follows anything that may have blocked. */
  method ReadAgain(want: Wanted, demands: seq<Delivery.Kind>, world: World, trace: seq<Event>, ghost p: Phase)
    returns (r: Option<Record>, ending: Ending, longer: seq<Event>)
    requires (p.Looked? || p.Reachable?) && At(want, demands, world, trace, p)
    ensures r.Some? ==>
      Current(r.value, want) && At(want, demands, world, longer, After(want, demands, p, ReadRecord(r.value)))
    ensures r.None? ==> Ends(want, demands, world, longer, ending)
  {
    hide Told, Follow;
    longer := trace;
    var entry := world.record(|trace|);
    if entry.Err? { return None, Fault, longer; }
    var e := ReadRecord(entry.value);
    longer := trace + [e];
    Happens(want, demands, world, trace, p, e);
    if !Current(entry.value, want) {
      EndsIn(want, demands, world, trace, e, p, Superseded);
      return None, Superseded, longer;
    }
    return Some(entry.value), Waiting, longer;
  }

  /** One demanded capability, and the re-read after it. */
  method Confirm(want: Wanted, demands: seq<Delivery.Kind>, world: World, kind: Delivery.Kind, endpoint: Endpoint,
                 before: Record, trace: seq<Event>, ghost rest: seq<Delivery.Kind>)
    returns (r: Option<Record>, ending: Ending, longer: seq<Event>)
    requires At(want, demands, world, trace, Fresh(endpoint.host, endpoint.base, [kind] + rest, before))
    ensures r.Some? ==> At(want, demands, world, longer, Fresh(endpoint.host, endpoint.base, rest, r.value))
    ensures r.None? ==> Ends(want, demands, world, longer, ending)
  {
    hide Follow, Told, Ends;
    ghost var p := Fresh(endpoint.host, endpoint.base, [kind] + rest, before);
    var capability := ClassifyCapability(world.capability(|trace|, kind));
    var e := Inquired(kind, capability);
    longer := trace + [e];
    Happens(want, demands, world, trace, p, e);
    if capability.Abort? {
      EndsIn(want, demands, world, trace, e, p, Fault);
      return None, Fault, longer;
    }
    if !capability.Capable? {
      EndsIn(want, demands, world, trace, e, p, Declined(endpoint.host));
      return None, Declined(endpoint.host), longer;
    }
    r, ending, longer := ReadAgain(want, demands, world, longer, Reachable(endpoint.host, endpoint.base, rest));
  }

  /** The registry, then the route the controller observed. */
  method FindOwner(want: Wanted, demands: seq<Delivery.Kind>, world: World, found: Option<Observation>, r: Record,
                   before: seq<Event>)
    returns (ending: Option<Ending>, trace: seq<Event>)
    requires At(want, demands, world, before, Known(found, r))
    ensures ending.Some? ==> Ends(want, demands, world, trace, ending.value)
    ensures ending.None? ==> At(want, demands, world, trace, Unowned(None, r))
  {
    hide Follow, Told, ReusableOwner;
    trace := before;
    var owner := world.owner(|trace|);
    if owner.Err? { return Some(Fault), trace; }
    var now := world.now(|trace|);
    var e := ReadOwner(owner.value, now);
    Happens(want, demands, world, trace, Known(found, r), e);
    trace := trace + [e];
    if owner.value.Some? && Ours(owner.value.value, r, want, now) {
      return Some(Hold(owner.value.value, false)), trace;
    }
    if found.None? { return None, trace; }
    var later := world.now(|trace|);
    e := Rechecked(world.observedValid, later);
    Happens(want, demands, world, trace, Unowned(found, r), e);
    var fits := world.observedValid && Ours(found.value, r, want, later);
    ending := Some(if fits then Hold(found.value, false) else Fault);
    EndsIn(want, demands, world, trace, e, Unowned(found, r), ending.value);
    trace := trace + [e];
  }

  /** From a resident owner to a route, before any endpoint is looked for. */
  method FindResident(want: Wanted, demands: seq<Delivery.Kind>, world: World)
    returns (ending: Option<Ending>, trace: seq<Event>, r: Option<Record>)
    ensures ending.Some? ==> Ends(want, demands, world, trace, ending.value)
    ensures ending.None? ==> r.Some? && At(want, demands, world, trace, Unowned(None, r.value))
  {
    hide Follow, Told;
    trace, r := [], None;
    Start(want, demands, world);
    if world.observe.Err? { return Some(Fault), trace, r; }
    var found := world.observe.value;
    Happens(want, demands, world, trace, Begin, Observed(found));
    trace := trace + [Observed(found)];
    var stop;
    r, stop, trace := ReadAgain(want, demands, world, trace, Looked(found));
    if r.None? { return Some(stop), trace, r; }
    ending, trace := FindOwner(want, demands, world, found, r.value, trace);
  }

  /** The endpoint built for this intent, if there is one to ask. */
  method Locate(want: Wanted, demands: seq<Delivery.Kind>, world: World, before: seq<Event>, ghost r: Record)
    returns (endpoint: Option<Endpoint>, ending: Ending, trace: seq<Event>)
    requires At(want, demands, world, before, Unowned(None, r))
    ensures endpoint.Some? ==>
      At(want, demands, world, trace, Reachable(endpoint.value.host, endpoint.value.base, demands))
    ensures endpoint.None? ==> Ends(want, demands, world, trace, ending)
  {
    hide Follow, Told;
    trace := before;
    if !world.linked { return None, Waiting, trace; }
    if !world.discovers || world.endpoint.Err? { return None, Fault, trace; }
    if world.endpoint.value.None? { return None, Waiting, trace; }
    var e := world.endpoint.value.value;
    Happens(want, demands, world, trace, Unowned(None, r), Discovered(e));
    if !e.valid || e.generation != want.generation {
      EndsIn(want, demands, world, trace, Discovered(e), Unowned(None, r), Fault);
      trace := trace + [Discovered(e)];
      return None, Fault, trace;
    }
    trace := trace + [Discovered(e)];
    return Some(e), Waiting, trace;
  }

  /** A stale registry is read once more, and only an owner of this very incarnation is taken from it. */
  method LookAgain(want: Wanted, demands: seq<Delivery.Kind>, world: World, r: Record, before: seq<Event>)
    returns (ending: Ending, trace: seq<Event>)
    requires At(want, demands, world, before, GoneStale(r))
    ensures Ends(want, demands, world, trace, ending)
  {
    hide Follow, Told, ReusableOwner;
    trace := before;
    var current := world.owner(|trace|);
    if current.Err? { return Fault, trace; }
    var later := world.now(|trace|);
    var e := ReadOwner(current.value, later);
    Happens(want, demands, world, trace, GoneStale(r), e);
    var ours := current.value.Some? && Ours(current.value.value, r, want, later);
    ending := if ours then Hold(current.value.value, false) else Fault;
    EndsIn(want, demands, world, trace, e, GoneStale(r), ending);
    trace := trace + [e];
  }

  /** The attach and what its answer means for a Host built for one session. */
  method AskToAttach(want: Wanted, demands: seq<Delivery.Kind>, world: World, endpoint: Endpoint, r: Record,
                     before: seq<Event>)
    returns (ending: Ending, trace: seq<Event>)
    requires At(want, demands, world, before, Fresh(endpoint.host, endpoint.base, [], r))
    ensures Ends(want, demands, world, trace, ending)
  {
    hide Follow, Told, Ends, AttachRequestFor, ReusableOwner;
    var request := AttachRequestFor(r, endpoint.host, want.generation);
    var reply, valid, now := world.attach(|before|, request), world.replyValid(|before|), world.now(|before|);
    var e := Attach(request, reply, valid, now);
    ghost var p := Fresh(endpoint.host, endpoint.base, [], r);
    trace := before + [e];
    Happens(want, demands, world, before, p, e);
    match AttachAnswer(reply) {
      case Accepted =>
        var o := reply.o;
        ending := if !valid || !Ours(o, r, want, now) || o.host != endpoint.host || o.endpoint != endpoint.base
                  then Fault else Hold(o, true);
      case Stale =>
        ending, trace := LookAgain(want, demands, world, r, trace);
        return;
      case Unsupported => ending := Fault;
      case Ambiguous => ending := Fault;
      case _ => ending := Declined(endpoint.host);
    }
    EndsIn(want, demands, world, before, e, p, ending);
  }

  /** Each demand confirmed in its order, then the attach. */
  method ConfirmAndAttach(want: Wanted, gates: bool, references: bool, principals: bool, world: World,
                          endpoint: Endpoint, before: seq<Event>)
    returns (ending: Ending, trace: seq<Event>)
    requires var demands := DemandsOf(gates, references, principals);
      At(want, demands, world, before, Reachable(endpoint.host, endpoint.base, demands))
    ensures Ends(want, DemandsOf(gates, references, principals), world, trace, ending)
  {
    ghost var gate := if gates then [Delivery.GateResponse] else [];
    ghost var reference := if references then [Delivery.Reference] else [];
    ghost var principal := if principals then [Delivery.Principal] else [];
    var demands := DemandsOf(gates, references, principals);
    assert demands == gate + (reference + principal);
    var r;
    r, ending, trace := ReadAgain(want, demands, world, before, Reachable(endpoint.host, endpoint.base, demands));
    if r.None? { return; }
    hide At, Ends, DemandsOf;
    if gates {
      r, ending, trace :=
        Confirm(want, demands, world, Delivery.GateResponse, endpoint, r.value, trace, reference + principal);
      if r.None? { return; }
    }
    assert At(want, demands, world, trace, Fresh(endpoint.host, endpoint.base, reference + principal, r.value)) by {
      assert [] + (reference + principal) == reference + principal;
    }
    if references {
      r, ending, trace := Confirm(want, demands, world, Delivery.Reference, endpoint, r.value, trace, principal);
      if r.None? { return; }
    }
    assert At(want, demands, world, trace, Fresh(endpoint.host, endpoint.base, principal, r.value)) by {
      assert [] + principal == principal;
    }
    if principals {
      assert [Delivery.Principal] + [] == principal;
      r, ending, trace := Confirm(want, demands, world, Delivery.Principal, endpoint, r.value, trace, []);
      if r.None? { return; }
    }
    ending, trace := AskToAttach(want, demands, world, endpoint, r.value, trace);
  }

  method PlaceDedicated(want: Wanted, gates: bool, references: bool, principals: bool, world: World)
    returns (ending: Ending, trace: seq<Event>)
    ensures Ends(want, DemandsOf(gates, references, principals), world, trace, ending)
  {
    hide Ends, At;
    var demands := DemandsOf(gates, references, principals);
    var stop, r;
    stop, trace, r := FindResident(want, demands, world);
    if stop.Some? { return stop.value, trace; }
    var endpoint;
    endpoint, ending, trace := Locate(want, demands, world, trace, r.value);
    if endpoint.None? { return; }
    ending, trace := ConfirmAndAttach(want, gates, references, principals, world, endpoint.value, trace);
  }

  // ------------------------------------------------------ nothing is left open

  /** What comes next in this world, if anything does. */
  function NextEvent(want: Wanted, world: World, p: Phase, n: nat): Option<Event> {
    match p
    case Begin => if world.observe.Ok? then Some(Observed(world.observe.value)) else None
    case Looked(_) => NextRead(world, n)
    case Reachable(_, _, _) => NextRead(world, n)
    case Known(_, _) => NextOwner(world, n)
    case GoneStale(_) => NextOwner(world, n)
    case Unowned(found, _) =>
      if found.Some? then Some(Rechecked(world.observedValid, world.now(n)))
      else if world.linked && world.discovers && world.endpoint.Ok? && world.endpoint.value.Some?
      then Some(Discovered(world.endpoint.value.value)) else None
    case Fresh(host, _, rest, r) =>
      if rest != [] then Some(Inquired(rest[0], ClassifyCapability(world.capability(n, rest[0]))))
      else
        var request := AttachRequestFor(r, host, want.generation);
        Some(Attach(request, world.attach(n, request), world.replyValid(n), world.now(n)))
    case _ => None
  }

  function NextRead(world: World, n: nat): Option<Event> {
    if world.record(n).Ok? then Some(ReadRecord(world.record(n).value)) else None
  }

  function NextOwner(world: World, n: nat): Option<Event> {
    if world.owner(n).Ok? then Some(ReadOwner(world.owner(n).value, world.now(n))) else None
  }

  lemma {:induction false} OnlyNext(want: Wanted, demands: seq<Delivery.Kind>, world: World, p: Phase, n: nat, e: Event)
    requires !After(want, demands, p, e).Bad? && ToldAt(world, n, e)
    ensures NextEvent(want, world, p, n) == Some(e)
  {
    hide AttachRequestFor, ReusableOwner, ClassifyCapability;
  }

  lemma {:induction false} EndsThere(want: Wanted, demands: seq<Delivery.Kind>, world: World, trace: seq<Event>,
                                     ending: Ending)
    requires Ends(want, demands, world, trace, ending)
    ensures NextEvent(want, world, Follow(want, demands, trace), |trace|).None?
  {
    hide Follow, Told;
  }

  function NextIn(want: Wanted, demands: seq<Delivery.Kind>, world: World): seq<Event> -> Option<Event> {
    (trace: seq<Event>) => NextEvent(want, world, Follow(want, demands, trace), |trace|)
  }

  lemma {:induction false} ToldInOrder(want: Wanted, demands: seq<Delivery.Kind>, world: World, trace: seq<Event>)
    requires !Follow(want, demands, trace).Bad? && Told(world, trace)
    ensures Determined(NextIn(want, demands, world), trace)
  {
    hide Follow, After, NextEvent, ToldAt;
    forall n | 0 <= n < |trace|
      ensures NextIn(want, demands, world)(trace[..n]) == Some(trace[n])
    {
      PrefixPermitted(want, demands, trace, n);
      OnlyNext(want, demands, world, Follow(want, demands, trace[..n]), n, trace[n]);
    }
  }

  /** A world's answers leave nothing open: what is done, in what order, and how it ends. */
  lemma {:induction false} OneRun(want: Wanted, demands: seq<Delivery.Kind>, world: World, a: seq<Event>, x: Ending,
                                  b: seq<Event>, y: Ending)
    requires Ends(want, demands, world, a, x) && Ends(want, demands, world, b, y)
    ensures a == b && x == y
  {
    EndsThere(want, demands, world, a, x);
    EndsThere(want, demands, world, b, y);
    ToldInOrder(want, demands, world, a);
    ToldInOrder(want, demands, world, b);
    hide Follow, NextEvent, Determined, Told;
    OnePath(NextIn(want, demands, world), a, b);
  }
}
