/**
 Waking a session's commands over a transient route: bind to the residency an
 observation names, deliver what its Host can apply, and give back a route that
 was not there before.
 */
module Delivery {
  import opened Common
  import opened Framing
  import opened Policy

  type Command = Bytes

  /** The three capabilities a command can need. */
  datatype Kind = Reference | GateResponse | Principal

  datatype Request = Request(wake: seq<Command>, gates: seq<Command>, references: seq<Command>,
    principals: seq<Command>)

  datatype Answer = Yes | No | Unanswered

  /** What the link layer answers. A kind is asked about at most once, and deliveries are numbered. */
  datatype Links = Links(routed: bool, bindFails: bool, accepts: Kind -> Answer, deliveryFails: nat -> bool)

  datatype Call =
    | RouteFor
    | Bind(endpoint: Bytes, bind: BindRequest)
    | Ask(kind: Kind, owner: Observation)
    | Deliver(command: Command)
    | Unbind(unbind: UnbindRequest)

  datatype Report = Report(bound: bool, delivered: nat, failures: nat, withheldGates: nat, withheldPrincipals: nat)

  const NOTHING: Report := Report(false, 0, 0, 0, 0)

  // ------------------------------------------------------------- specification

  predicate Needs(req: Request, c: Command, k: Kind) {
    match k
    case Reference => c in req.references
    case GateResponse => c in req.gates
    case Principal => c in req.principals
  }

  /**
   The first capability, in the order they are asked about, that the command needs and
   the Host was not seen to have.
   */
  function Missing(req: Request, links: Links, c: Command): Option<Kind> {
    if c in req.references && !links.accepts(Reference).Yes? then Some(Reference)
    else if c in req.gates && !links.accepts(GateResponse).Yes? then Some(GateResponse)
    else if c in req.principals && !links.accepts(Principal).Yes? then Some(Principal)
    else None
  }

  /** References are asked about before gate responses, and those before principals. */
  predicate Before(j: Kind, k: Kind) { (j.Reference? && !k.Reference?) || (j.GateResponse? && k.Principal?) }

  /** The command gets as far as this question: whatever it needs that is asked about before was confirmed. */
  ghost predicate GetsTo(req: Request, links: Links, c: Command, k: Kind) {
    Needs(req, c, k) && forall j :: Before(j, k) && Needs(req, c, j) ==> links.accepts(j).Yes?
  }

  lemma MissingMeaning(req: Request, links: Links, c: Command)
    ensures Missing(req, links, c).None? <==> forall k :: Needs(req, c, k) ==> links.accepts(k).Yes?
    ensures forall k :: Missing(req, links, c) == Some(k) <==> GetsTo(req, links, c, k) && !links.accepts(k).Yes?
  {
    assert Before(Reference, GateResponse) && Before(Reference, Principal) && Before(GateResponse, Principal);
  }

  /** A kind is put to the Host for a command exactly when the command gets as far as it. */
  lemma RaisesMeaning(req: Request, links: Links, c: Command, k: Kind)
    ensures Raises(req, links, c, k) <==> GetsTo(req, links, c, k)
  {
    assert Before(Reference, GateResponse) && Before(Reference, Principal) && Before(GateResponse, Principal);
  }

  /** The commands of a wake that go out, in order. */
  function Sendable(req: Request, links: Links, wake: seq<Command>): seq<Command> {
    if wake == [] then []
    else
      var last := wake[|wake| - 1];
      Sendable(req, links, wake[..|wake| - 1]) + if Missing(req, links, last).None? then [last] else []
  }

  function Held(req: Request, links: Links, wake: seq<Command>, k: Kind): nat {
    if wake == [] then 0
    else
      var last := wake[|wake| - 1];
      Held(req, links, wake[..|wake| - 1], k) + if Missing(req, links, last) == Some(k) then 1 else 0
  }

  /** The kind is put to the Host for this command: needed, and nothing missing before it. */
  predicate Raises(req: Request, links: Links, c: Command, k: Kind) {
    && Needs(req, c, k)
    && (!k.Reference? && c in req.references ==> links.accepts(Reference).Yes?)
    && (k.Principal? && c in req.gates ==> links.accepts(GateResponse).Yes?)
  }

  predicate Asked(req: Request, links: Links, wake: seq<Command>, k: Kind) {
    exists c :: c in wake && Raises(req, links, c, k)
  }

  function Sent(calls: seq<Call>): seq<Command> {
    if calls == [] then []
    else
      var last := calls[|calls| - 1];
      Sent(calls[..|calls| - 1]) + if last.Deliver? then [last.command] else []
  }

  function Asks(calls: seq<Call>, k: Kind): nat {
    if calls == [] then 0
    else
      var last := calls[|calls| - 1];
      Asks(calls[..|calls| - 1], k) + if last.Ask? && last.kind == k then 1 else 0
  }

  lemma Called(calls: seq<Call>, c: Call, k: Kind)
    ensures Sent(calls + [c]) == Sent(calls) + if c.Deliver? then [c.command] else []
    ensures Asks(calls + [c], k) == Asks(calls, k) + if c.Ask? && c.kind == k then 1 else 0
  {
    assert (calls + [c])[..|calls|] == calls;
  }

  function Failures(links: Links, n: nat): nat {
    if n == 0 then 0 else Failures(links, n - 1) + if links.deliveryFails(n - 1) then 1 else 0
  }

  /** The failures are the deliveries that failed. */
  lemma {:induction false} FailuresCount(links: Links, n: nat)
    ensures Failures(links, n) == |set i | 0 <= i < n && links.deliveryFails(i)|
  {
    if n > 0 {
      FailuresCount(links, n - 1);
      var before, now := set i | 0 <= i < n - 1 && links.deliveryFails(i), set i | 0 <= i < n && links.deliveryFails(i);
      assert now == before + if links.deliveryFails(n - 1) then {n - 1} else {};
    }
  }

  /** The conversation after the bind, so far. */
  ghost predicate Talk(req: Request, links: Links, o: Observation, wake: seq<Command>, talk: seq<Call>) {
    && Sent(talk) == Sendable(req, links, wake)
    && (forall k :: Asks(talk, k) == if Asked(req, links, wake, k) then 1 else 0)
    && Addressed(talk, o)
  }

  /** Every question is about the residency the bind named. */
  ghost predicate Addressed(talk: seq<Call>, o: Observation) {
    forall c :: c in talk ==> c.Deliver? || (c.Ask? && c.owner == o)
  }

  ghost predicate Counts(req: Request, links: Links, wake: seq<Command>, r: Report) {
    && r.delivered + r.failures == |Sendable(req, links, wake)|
    && r.failures == Failures(links, |Sendable(req, links, wake)|)
    && r.withheldGates == Held(req, links, wake, GateResponse)
    && r.withheldPrincipals == Held(req, links, wake, Principal)
  }

  // ------------------------------------------------------------ conservation

  lemma {:induction false} EveryCommandOnce(req: Request, links: Links, wake: seq<Command>)
    ensures |wake| == |Sendable(req, links, wake)|
      + Held(req, links, wake, Reference) + Held(req, links, wake, GateResponse) + Held(req, links, wake, Principal)
  {
    if wake != [] { EveryCommandOnce(req, links, wake[..|wake| - 1]); }
  }

  lemma {:induction false} NoneHeld(req: Request, links: Links, wake: seq<Command>, k: Kind)
    ensures Held(req, links, wake, k) == 0 <==> forall c :: c in wake ==> Missing(req, links, c) != Some(k)
  {
    if wake != [] {
      var front, last := wake[..|wake| - 1], wake[|wake| - 1];
      NoneHeld(req, links, front, k);
      assert wake == front + [last];
    }
  }

  /**
   The counters account for every command of the wake exactly when none that carries
   a referenced body met a Host not seen to take those: such a command is left out
   of every counter.
   */
  lemma CountersAccount(req: Request, links: Links, r: Report)
    requires Counts(req, links, req.wake, r)
    ensures r.delivered + r.failures + r.withheldGates + r.withheldPrincipals == |req.wake|
       <==> links.accepts(Reference).Yes? || (forall c :: c in req.wake ==> c !in req.references)
  {
    EveryCommandOnce(req, links, req.wake);
    NoneHeld(req, links, req.wake, Reference);
    forall c | c in req.wake
      ensures Missing(req, links, c) == Some(Reference) <==> c in req.references && !links.accepts(Reference).Yes?
    {}
  }

  /** One command that the counters lose. */
  lemma ReferenceUncounted(c: Command) returns (req: Request, links: Links, r: Report)
    ensures req.wake == [c] && Counts(req, links, req.wake, r) && r == Report(true, 0, 0, 0, 0)
  {
    req := Request([c], [], [c], []);
    links := Links(false, false, k => No, n => false);
    r := Report(true, 0, 0, 0, 0);
    assert Missing(req, links, c) == Some(Reference);
    assert Sendable(req, links, [c][..0]) == [] && [c][..0] == [];
  }

  // ---------------------------------------------------------------- the method

  lemma AskedGrows(req: Request, links: Links, wake: seq<Command>, i: nat, k: Kind)
    requires i < |wake|
    ensures Asked(req, links, wake[..i + 1], k) <==> Asked(req, links, wake[..i], k) || Raises(req, links, wake[i], k)
  {
    assert wake[..i + 1] == wake[..i] + [wake[i]];
    if Raises(req, links, wake[i], k) { assert wake[i] in wake[..i + 1]; }
  }

  /** Which kinds have been asked about. */
  datatype Flags = Flags(reference: bool, gate: bool, principal: bool) {
    predicate Has(k: Kind) { match k case Reference => reference case GateResponse => gate case Principal => principal }
  }

  /** A question put lazily, once. */
  method PutOnce(k: Kind, asked: bool, o: Observation, talk: seq<Call>) returns (longer: seq<Call>)
    ensures Sent(longer) == Sent(talk)
    ensures forall j :: Asks(longer, j) == Asks(talk, j) + if j == k && !asked then 1 else 0
    ensures Addressed(talk, o) ==> Addressed(longer, o)
  {
    longer := talk;
    if !asked {
      longer := talk + [Ask(k, o)];
      forall j
        ensures Sent(longer) == Sent(talk) && Asks(longer, j) == Asks(talk, j) + if j == k then 1 else 0
      {
        Called(talk, Ask(k, o), j);
      }
    }
  }

  /** One command's turn: the questions it raises, up to the first not answered yes. */
  method Clear(req: Request, links: Links, o: Observation, c: Command, asked: Flags, talk: seq<Call>)
    returns (missing: Option<Kind>, now: Flags, longer: seq<Call>)
    ensures missing == Missing(req, links, c) && Sent(longer) == Sent(talk)
    ensures forall k :: now.Has(k) == (asked.Has(k) || Raises(req, links, c, k))
    ensures forall k :: Asks(longer, k) == Asks(talk, k) + if Raises(req, links, c, k) && !asked.Has(k) then 1 else 0
    ensures Addressed(talk, o) ==> Addressed(longer, o)
  {
    hide Asks, Sent, Addressed;
    longer, now := talk, asked;
    if c in req.references {
      longer := PutOnce(Reference, now.reference, o, longer);
      now := now.(reference := true);
      if !links.accepts(Reference).Yes? { return Some(Reference), now, longer; }
    }
    if c in req.gates {
      longer := PutOnce(GateResponse, now.gate, o, longer);
      now := now.(gate := true);
      if !links.accepts(GateResponse).Yes? { return Some(GateResponse), now, longer; }
    }
    if c in req.principals {
      longer := PutOnce(Principal, now.principal, o, longer);
      now := now.(principal := true);
      if !links.accepts(Principal).Yes? { return Some(Principal), now, longer; }
    }
    missing := None;
  }

  lemma TalkDelivers(talk: seq<Call>, o: Observation, c: Command)
    requires Addressed(talk, o)
    ensures Sent(talk + [Deliver(c)]) == Sent(talk) + [c] && Addressed(talk + [Deliver(c)], o)
    ensures forall k :: Asks(talk + [Deliver(c)], k) == Asks(talk, k)
  {
    forall k
      ensures Sent(talk + [Deliver(c)]) == Sent(talk) + [c] && Asks(talk + [Deliver(c)], k) == Asks(talk, k)
    {
      Called(talk, Deliver(c), k);
    }
  }

  method DeliverAll(req: Request, links: Links, o: Observation) returns (r: Report, talk: seq<Call>)
    ensures r.bound && Counts(req, links, req.wake, r) && Talk(req, links, o, req.wake, talk)
  {
    r, talk := NOTHING.(bound := true), [];
    var asked := Flags(false, false, false);
    for i := 0 to |req.wake|
      invariant r.bound && Counts(req, links, req.wake[..i], r) && Talk(req, links, o, req.wake[..i], talk)
      invariant forall k :: asked.Has(k) == Asked(req, links, req.wake[..i], k)
    {
      var c := req.wake[i];
      assert req.wake[..i + 1][..i] == req.wake[..i];
      forall k
        ensures Asked(req, links, req.wake[..i + 1], k) <==>
          Asked(req, links, req.wake[..i], k) || Raises(req, links, c, k)
      {
        AskedGrows(req, links, req.wake, i, k);
      }
      hide Asked, Raises;
      var missing;
      missing, asked, talk := Clear(req, links, o, c, asked, talk);
      match missing {
        case Some(Reference) =>
        case Some(GateResponse) => r := r.(withheldGates := r.withheldGates + 1);
        case Some(Principal) => r := r.(withheldPrincipals := r.withheldPrincipals + 1);
        case None =>
          TalkDelivers(talk, o, c);
          talk := talk + [Deliver(c)];
          if links.deliveryFails(r.delivered + r.failures) {
            r := r.(failures := r.failures + 1);
          } else {
            r := r.(delivered := r.delivered + 1);
          }
      }
    }
    assert req.wake[..|req.wake|] == req.wake;
  }

  /** `attached` marks a bind after an attach, whose failure is reported as such. */
  datatype Failure = NoFailure | BindFailed(afterAttach: bool)

  lemma OneBind(head: seq<Call>, talk: seq<Call>, tail: seq<Call>, o: Observation)
    requires |head| == 2 && head[0].RouteFor? && Addressed(talk, o) && (forall i :: 0 <= i < |tail| ==> tail[i].Unbind?)
    ensures var calls := head + talk + tail; forall i :: 0 <= i < |calls| && i != 1 ==> !calls[i].Bind?
  {
    var calls := head + talk + tail;
    forall i | 0 <= i < |calls| && i != 1
      ensures !calls[i].Bind?
    {
      if 2 <= i < 2 + |talk| { assert calls[i] == talk[i - 2] && talk[i - 2] in talk; }
    }
  }

  /** What follows the bind: the conversation, and the route given back if it was not there before. */
  ghost predicate Follows(req: Request, links: Links, o: Observation, rest: seq<Call>) {
    exists talk, u :: Talk(req, links, o, req.wake, talk) && GivesBack(o, u)
                      && rest == talk + if links.routed then [] else [Unbind(u)]
  }

  /** The unbind is of the bind to this residency. */
  ghost predicate GivesBack(o: Observation, u: UnbindRequest) { exists b :: BindsTo(b, o) && TakesBack(u, b) }

  /** What binding to a residency and waking it does, and what is reported of it. */
  ghost predicate Bound(req: Request, links: Links, o: Observation, attached: bool, r: Report, failure: Failure,
                        calls: seq<Call>) {
    && failure == (if links.bindFails then BindFailed(attached) else NoFailure)
    && |calls| >= 2 && calls[0] == RouteFor
    && calls[1].Bind? && calls[1].endpoint == o.endpoint && BindsTo(calls[1].bind, o)
    && (forall i :: 0 <= i < |calls| && i != 1 ==> !calls[i].Bind?)
    && (links.bindFails ==> r == NOTHING && |calls| == 2)
    && (!links.bindFails ==> r.bound && Counts(req, links, req.wake, r) && Follows(req, links, o, calls[2..]))
  }

  method BindAndDeliver(req: Request, links: Links, o: Observation, attached: bool)
    returns (r: Report, failure: Failure, calls: seq<Call>)
    ensures Bound(req, links, o, attached, r, failure, calls)
  {
    var bind := BindRequestFor(o);
    calls := [RouteFor];
    calls := calls + [Bind(o.endpoint, bind)];
    if links.bindFails { return NOTHING, BindFailed(attached), calls; }
    ghost var head := calls;
    var talk;
    r, talk := DeliverAll(req, links, o);
    OneBind(head, talk, if links.routed then [] else [Unbind(UnbindRequestFor(bind))], o);
    calls := calls + talk;
    assert calls + [] == calls && talk + [] == talk;
    if !links.routed { calls := calls + [Unbind(UnbindRequestFor(bind))]; }
    failure := NoFailure;
    hide Talk, Counts;
    assert BindsTo(bind, o) && TakesBack(UnbindRequestFor(bind), bind) && GivesBack(o, UnbindRequestFor(bind));
    assert calls[2..] == talk + if links.routed then [] else [Unbind(UnbindRequestFor(bind))];
    assert Follows(req, links, o, calls[2..]);
  }

  /** A residency found rather than attached is bound to only for a wake, and only with links to do it. */
  ghost predicate Handed(req: Request, linked: bool, links: Links, o: Observation, attached: bool, r: Report,
                         failure: Failure, calls: seq<Call>) {
    if attached || (linked && req.wake != []) then Bound(req, links, o, attached, r, failure, calls)
    else r == NOTHING && failure == NoFailure && calls == []
  }

  /** The end of a placement that holds a residency: bindAttached for one attached, wake for one found. */
  method HandOver(req: Request, linked: bool, links: Links, o: Observation, attached: bool)
    returns (r: Report, failure: Failure, calls: seq<Call>)
    ensures Handed(req, linked, links, o, attached, r, failure, calls)
  {
    hide Bound;
    if !attached && (!linked || |req.wake| == 0) { return NOTHING, NoFailure, []; }
    r, failure, calls := BindAndDeliver(req, links, o, attached);
  }
}
