/**
 Where the epoch of a bind comes from, over every run of any number of replicas
 placing any number of sessions while Hosts take and lose leases.

 Of Hosts and registry only what the placement code relies on is assumed: a lease
 is exclusive and its epochs rise, a registration or an accepted attach states a
 residency some Host was granted, and an epoch_mismatch names the lease of another
 holder than the Host that answers it.
 */
module Provenance {
  import opened Common
  import opened Framing
  import opened Policy
  import opened HostAnswers
  import PooledProtocol
  import Pool = Pooled
  import Dedicated
  import Reconcile
  import Delivery

  type Replica = nat

  /** A residency a Host holds or held. */
  datatype Grant = Grant(tenant: Bytes, session: Bytes, host: HostId, hostGeneration: nat, epoch: nat)

  function GrantOf(o: Observation): Grant { Grant(o.tenant, o.session, o.host, o.hostGeneration, o.epoch) }

  function Named(b: BindRequest): Grant { Grant(b.tenant, b.session, b.host, b.hostGeneration, b.epoch) }

  /** One placement, or one look at a session's owner, under way: its protocol and what it has seen so far. */
  datatype Talk =
    | InPool(cfg: PooledProtocol.Config, events: seq<PooledProtocol.Event>)
    | OnOwnHost(want: Dedicated.Wanted, demands: seq<Delivery.Kind>, seen: seq<Dedicated.Event>)
    | Routing(looked: seq<Reconcile.Event>)

  /** `refusals` are the leases named by an epoch_mismatch, as if the Host that refused held them. */
  datatype State = State(grants: set<Grant>, talks: map<Replica, Talk>, binds: set<BindRequest>, refusals: set<Grant>)

  datatype Action =
    | Lease(g: Grant)
    | Open(r: Replica, talk: Talk)
    | Pooled(r: Replica, e: PooledProtocol.Event)
    | Own(r: Replica, d: Dedicated.Event)
    | Route(r: Replica, l: Reconcile.Event)
    | Bind(r: Replica, o: Observation)

  // -------------------------------------------------------------- the surroundings

  ghost predicate Known(grants: set<Grant>, o: Option<Observation>) { o.Some? ==> GrantOf(o.value) in grants }

  /** The lease a mismatch names, pinned on the Host that answered. */
  function Blamed(request: AttachRequest, reply: AttachReply): set<Grant> {
    if reply.AttachError? && reply.refusal.Some? && reply.refusal.value.epochMismatch
    then {Grant(request.tenant, request.session, request.host, request.hostGeneration,
      reply.refusal.value.currentEpoch)}
    else {}
  }

  /** The session's epoch is another residency's. */
  ghost predicate Elsewhere(grants: set<Grant>, b: Grant) {
    exists g :: g in grants && g.tenant == b.tenant && g.session == b.session && g.epoch == b.epoch && g != b
  }

  ghost predicate HonestReply(grants: set<Grant>, request: AttachRequest, reply: AttachReply) {
    && (reply.Attached? ==> GrantOf(reply.o) in grants)
    && (forall b :: b in Blamed(request, reply) ==> Elsewhere(grants, b))
  }

  ghost predicate HonestPooled(grants: set<Grant>, e: PooledProtocol.Event) {
    && (e.ReadOwner? ==> Known(grants, e.owner))
    && (e.Attach? ==> HonestReply(grants, e.request, e.reply))
  }

  ghost predicate HonestOwn(grants: set<Grant>, e: Dedicated.Event) {
    && (e.Observed? ==> Known(grants, e.found)) && (e.ReadOwner? ==> Known(grants, e.owner))
    && (e.Attach? ==> HonestReply(grants, e.request, e.reply))
  }

  ghost predicate HonestRoute(grants: set<Grant>, e: Reconcile.Event) { e.SawOwner? ==> Known(grants, e.owner) }

  // ------------------------------------------------------------------------ runs

  predicate Fresh(talk: Talk) {
    match talk
    case InPool(_, events) => events == []
    case OnOwnHost(_, _, seen) => seen == []
    case Routing(looked) => looked == []
  }

  /** The residency a placement has ended with, if it has. */
  function Held(talk: Talk): Option<Observation> {
    match talk
    case InPool(cfg, events) =>
      var t := PooledProtocol.Follow(cfg, events);
      if t.Run? && t.at.Holding? then Some(t.at.o) else None
    case OnOwnHost(want, demands, seen) =>
      var p := Dedicated.Follow(want, demands, seen);
      if p.Holding? then Some(p.o) else None
    case Routing(looked) =>
      var p := Reconcile.Follow(looked);
      if p.Routed? then Some(p.o) else None
  }

  ghost predicate Next(s: State, a: Action, s': State) {
    match a
    case Lease(g) =>
      && (forall h :: h in s.grants && h.tenant == g.tenant && h.session == g.session ==> h.epoch < g.epoch)
      && s' == s.(grants := s.grants + {g})
    case Open(r, talk) => Fresh(talk) && s' == s.(talks := s.talks[r := talk])
    case Pooled(r, e) =>
      && r in s.talks && s.talks[r].InPool? && HonestPooled(s.grants, e)
      && s' == s.(talks := s.talks[r := s.talks[r].(events := s.talks[r].events + [e])],
                  refusals := s.refusals + if e.Attach? then Blamed(e.request, e.reply) else {})
    case Own(r, e) =>
      && r in s.talks && s.talks[r].OnOwnHost? && HonestOwn(s.grants, e)
      && s' == s.(talks := s.talks[r := s.talks[r].(seen := s.talks[r].seen + [e])],
                  refusals := s.refusals + if e.Attach? then Blamed(e.request, e.reply) else {})
    case Route(r, e) =>
      && r in s.talks && s.talks[r].Routing? && HonestRoute(s.grants, e)
      && s' == s.(talks := s.talks[r := s.talks[r].(looked := s.talks[r].looked + [e])])
    case Bind(r, o) => r in s.talks && Held(s.talks[r]) == Some(o) && s' == s.(binds := s.binds + {BindRequestFor(o)})
  }

  ghost predicate Run(states: seq<State>, actions: seq<Action>) {
    && |states| == |actions| + 1 && states[0] == State({}, map[], {}, {})
    && forall i :: 0 <= i < |actions| ==> Next(states[i], actions[i], states[i + 1])
  }

  // ------------------------------------------------------------------- invariant

  /** Every observation a placement carries was granted. */
  ghost predicate Sourced(grants: set<Grant>, talk: Talk) {
    match talk
    case InPool(cfg, events) => Known(grants, Held(talk))
    case OnOwnHost(want, demands, seen) =>
      var p := Dedicated.Follow(want, demands, seen);
      (p.Looked? || p.Known? || p.Unowned? ==> Known(grants, p.found)) && Known(grants, Held(talk))
    case Routing(looked) => Known(grants, Held(talk))
  }

  /** An epoch of a session names one residency. */
  ghost predicate Exclusive(grants: set<Grant>) {
    forall g, h ::
      (g in grants && h in grants && g.tenant == h.tenant && g.session == h.session && g.epoch == h.epoch) ==> g == h
  }

  ghost predicate Inv(s: State) {
    && Exclusive(s.grants)
    && (forall r :: r in s.talks ==> Sourced(s.grants, s.talks[r]))
    && (forall b :: b in s.binds ==> Named(b) in s.grants)
    && (forall b :: b in s.refusals ==> Elsewhere(s.grants, b))
  }

  lemma {:induction false} PooledSourced(grants: set<Grant>, cfg: PooledProtocol.Config,
                                         events: seq<PooledProtocol.Event>, e: PooledProtocol.Event)
    requires HonestPooled(grants, e)
    ensures Sourced(grants, InPool(cfg, events + [e]))
  {
    PooledProtocol.Followed(cfg, events, e);
    HoldsFromEvent(cfg, PooledProtocol.Follow(cfg, events), e);
    hide PooledProtocol.After, PooledProtocol.Follow;
  }

  /** A pooled placement ends with what its last event brought. */
  lemma {:induction false} HoldsFromEvent(cfg: PooledProtocol.Config, t: PooledProtocol.Track, e: PooledProtocol.Event)
    ensures var next := PooledProtocol.After(cfg, t, e);
      next.Run? && next.at.Holding? ==>
        if next.at.attached then e.Attach? && e.reply == Attached(next.at.o)
        else e.ReadOwner? && e.owner == Some(next.at.o)
  {}

  lemma {:induction false} OwnSourced(grants: set<Grant>, want: Dedicated.Wanted, demands: seq<Delivery.Kind>,
                                      seen: seq<Dedicated.Event>, e: Dedicated.Event)
    requires Sourced(grants, OnOwnHost(want, demands, seen)) && HonestOwn(grants, e)
    ensures Sourced(grants, OnOwnHost(want, demands, seen + [e]))
  {
    Dedicated.Followed(want, demands, seen, e);
    hide Dedicated.Follow, AttachRequestFor, ReusableOwner;
  }

  lemma {:induction false} RouteSourced(grants: set<Grant>, looked: seq<Reconcile.Event>, e: Reconcile.Event)
    requires HonestRoute(grants, e)
    ensures Sourced(grants, Routing(looked + [e]))
  {
    Reconcile.Followed(looked, e);
    RoutedByRead(Reconcile.Follow(looked), e);
    hide Reconcile.After, Reconcile.Follow;
  }

  /** A session is routed to the owner just read. */
  lemma {:induction false} RoutedByRead(p: Reconcile.Phase, e: Reconcile.Event)
    ensures var next := Reconcile.After(p, e); next.Routed? ==> e.SawOwner? && e.owner == Some(next.o)
  {}

  /** One talk moves on, honestly; what its last answer blames is blamed rightly. */
  lemma {:induction false} TalkMoves(s: State, r: Replica, talk: Talk, blamed: set<Grant>, s': State)
    requires Inv(s) && s' == s.(talks := s.talks[r := talk], refusals := s.refusals + blamed)
    requires Sourced(s.grants, talk) && forall b :: b in blamed ==> Elsewhere(s.grants, b)
    ensures Inv(s')
  {
    hide Sourced, Elsewhere, Exclusive;
  }

  lemma {:induction false} FreshSourced(grants: set<Grant>, talk: Talk)
    requires Fresh(talk)
    ensures Sourced(grants, talk)
  {
    match talk {
      case InPool(cfg, events) => assert PooledProtocol.Follow(cfg, events).Begin?;
      case OnOwnHost(want, demands, seen) => assert Dedicated.Follow(want, demands, seen).Begin?;
      case Routing(looked) => assert Reconcile.Follow(looked).Free?;
    }
  }

  lemma {:induction false} InvStep(s: State, a: Action, s': State)
    requires Inv(s) && Next(s, a, s')
    ensures Inv(s')
  {
    hide Inv, Sourced, Elsewhere;
    match a {
      case Lease(g) => LeaseKeeps(s, g, s');
      case Open(r, talk) =>
        FreshSourced(s.grants, talk);
        assert s.refusals + {} == s.refusals;
        TalkMoves(s, r, talk, {}, s');
      case Pooled(r, e) =>
        var talk := s.talks[r];
        PooledSourced(s.grants, talk.cfg, talk.events, e);
        TalkMoves(s, r, talk.(events := talk.events + [e]), if e.Attach? then Blamed(e.request, e.reply) else {}, s');
      case Own(r, e) =>
        var talk := s.talks[r];
        IsSourced(s, r);
        OwnSourced(s.grants, talk.want, talk.demands, talk.seen, e);
        TalkMoves(s, r, talk.(seen := talk.seen + [e]), if e.Attach? then Blamed(e.request, e.reply) else {}, s');
      case Route(r, e) =>
        RouteSourced(s.grants, s.talks[r].looked, e);
        assert s.refusals + {} == s.refusals;
        TalkMoves(s, r, s.talks[r].(looked := s.talks[r].looked + [e]), {}, s');
      case Bind(r, o) => BindKeeps(s, r, o, s');
    }
  }

  lemma {:induction false} IsSourced(s: State, r: Replica)
    requires Inv(s) && r in s.talks
    ensures Sourced(s.grants, s.talks[r])
  {}

  lemma {:induction false} BindKeeps(s: State, r: Replica, o: Observation, s': State)
    requires Inv(s) && Next(s, Bind(r, o), s')
    ensures Inv(s')
  {
    assert Sourced(s.grants, s.talks[r]);
    assert Named(BindRequestFor(o)) == GrantOf(o);
    hide Sourced, Elsewhere, Exclusive, Held;
  }

  lemma LeaseKeeps(s: State, g: Grant, s': State)
    requires Inv(s) && Next(s, Lease(g), s')
    ensures Inv(s')
  {
    forall r | r in s.talks
      ensures Sourced(s'.grants, s.talks[r])
    {
      assert Sourced(s.grants, s.talks[r]);
    }
    forall b | b in s.refusals
      ensures Elsewhere(s'.grants, b)
    {
      assert Elsewhere(s.grants, b);
    }
  }

  lemma {:induction false} InvAlong(states: seq<State>, actions: seq<Action>, i: nat)
    requires Run(states, actions) && i < |states|
    ensures Inv(states[i])
  {
    if i > 0 {
      InvAlong(states, actions, i - 1);
      InvStep(states[i - 1], actions[i - 1], states[i]);
    }
  }

  // -------------------------------------------------------------------- theorems

  /** Every bind names a residency that its Host was granted for that session. */
  lemma BindsWereGranted(states: seq<State>, actions: seq<Action>, i: nat, b: BindRequest)
    requires Run(states, actions) && i < |states| && b in states[i].binds
    ensures Named(b) in states[i].grants
  {
    InvAlong(states, actions, i);
  }

  /** No bind, before or after, pairs a Host that refused with the epoch its refusal named. */
  lemma RefusalNeverBound(states: seq<State>, actions: seq<Action>, i: nat, b: BindRequest)
    requires Run(states, actions) && i < |states| && b in states[i].binds
    ensures Named(b) !in states[i].refusals
  {
    InvAlong(states, actions, i);
    assert Named(b) in states[i].refusals ==> Elsewhere(states[i].grants, Named(b));
  }

  lemma {:induction false} RefusalsGrow(states: seq<State>, actions: seq<Action>, i: nat, j: nat)
    requires Run(states, actions) && i <= j < |states|
    ensures states[i].refusals <= states[j].refusals
    decreases j - i
  {
    if i < j {
      RefusalsGrow(states, actions, i, j - 1);
      assert Next(states[j - 1], actions[j - 1], states[j]);
      hide Held, Blamed, Fresh;
    }
  }

  /** The attach this step puts to a Host, and its answer. */
  ghost predicate Attaches(a: Action, q: AttachRequest, reply: AttachReply) {
    || (a.Pooled? && a.e.Attach? && a.e.request == q && a.e.reply == reply)
    || (a.Own? && a.d.Attach? && a.d.request == q && a.d.reply == reply)
  }

  /**
   A Host that refuses an attach because another holds the session, and names that
   holder's epoch, is never afterwards bound to under that epoch.
   */
  lemma {:induction false} MismatchNeverBound(states: seq<State>, actions: seq<Action>, i: nat, j: nat,
                                              q: AttachRequest, reply: AttachReply, b: BindRequest)
    requires Run(states, actions) && i < j < |states| && Attaches(actions[i], q, reply) && b in states[j].binds
    requires reply.AttachError? && reply.refusal.Some? && reply.refusal.value.epochMismatch
    ensures !(b.tenant == q.tenant && b.session == q.session && b.host == q.host &&
              b.hostGeneration == q.hostGeneration && b.epoch == reply.refusal.value.currentEpoch)
  {
    assert Next(states[i], actions[i], states[i + 1]);
    var named := Grant(q.tenant, q.session, q.host, q.hostGeneration, reply.refusal.value.currentEpoch);
    assert named in states[i + 1].refusals;
    RefusalsGrow(states, actions, i + 1, j);
    RefusalNeverBound(states, actions, j, b);
  }

  // ----------------------------------------- the methods' own conversations

  /** What the world answers after n things have happened states only residencies granted by then. */
  ghost predicate HonestPool(grants: set<Grant>, world: Pool.World, n: nat) {
    && (world.owner(n).Ok? ==> Known(grants, world.owner(n).value))
    && forall request :: HonestReply(grants, request, world.attach(n, request))
  }

  ghost predicate HonestHost(grants: set<Grant>, world: Dedicated.World, n: nat) {
    && (world.observe.Ok? ==> Known(grants, world.observe.value))
    && (world.owner(n).Ok? ==> Known(grants, world.owner(n).value))
    && forall request :: HonestReply(grants, request, world.attach(n, request))
  }

  ghost predicate HonestDirectory(grants: set<Grant>, world: Reconcile.World, n: nat) {
    world.owner(n).Ok? ==> Known(grants, world.owner(n).value)
  }

  /** A run made one step longer. */
  lemma {:induction false} OneStepMore(states: seq<State>, actions: seq<Action>, a: Action, s: State)
    requires Run(states, actions) && Next(states[|actions|], a, s)
    ensures Run(states + [s], actions + [a])
  {
    hide Next;
    var longer, more := states + [s], actions + [a];
    forall i | 0 <= i < |more|
      ensures Next(longer[i], more[i], longer[i + 1])
    {
      if i < |actions| { assert Next(states[i], actions[i], states[i + 1]); }
    }
  }

  /**
   Whatever a pooled placement says and hears is a step of this system, whenever it
   comes and whatever happened in between, as long as the world is honest then.
   */
  lemma {:induction false} PooledStepAdmitted(states: seq<State>, actions: seq<Action>, r: Replica,
                                              cfg: PooledProtocol.Config, world: Pool.World,
                                              trace: seq<PooledProtocol.Event>, n: nat)
    returns (s: State)
    requires Run(states, actions) && Pool.Told(world, trace) && n < |trace|
    requires r in states[|actions|].talks && states[|actions|].talks[r] == InPool(cfg, trace[..n])
    requires HonestPool(states[|actions|].grants, world, n)
    ensures Run(states + [s], actions + [Action.Pooled(r, trace[n])])
    ensures r in s.talks && s.talks[r] == InPool(cfg, trace[..n + 1]) && s.grants == states[|actions|].grants
  {
    var last, e := states[|actions|], trace[n];
    assert Pool.ToldAt(world, n, e);
    s := last.(talks := last.talks[r := last.talks[r].(events := last.talks[r].events + [e])],
               refusals := last.refusals + if e.Attach? then Blamed(e.request, e.reply) else {});
    assert trace[..n + 1] == trace[..n] + [e];
    hide HonestReply, Run;
    assert HonestPooled(last.grants, e);
    OneStepMore(states, actions, Action.Pooled(r, e), s);
  }

  lemma {:induction false} OwnStepAdmitted(states: seq<State>, actions: seq<Action>, r: Replica,
                                           want: Dedicated.Wanted, demands: seq<Delivery.Kind>,
                                           world: Dedicated.World, trace: seq<Dedicated.Event>, n: nat)
    returns (s: State)
    requires Run(states, actions) && Dedicated.Told(world, trace) && n < |trace|
    requires r in states[|actions|].talks && states[|actions|].talks[r] == OnOwnHost(want, demands, trace[..n])
    requires HonestHost(states[|actions|].grants, world, n)
    ensures Run(states + [s], actions + [Own(r, trace[n])])
    ensures r in s.talks && s.talks[r] == OnOwnHost(want, demands, trace[..n + 1]) &&
      s.grants == states[|actions|].grants
  {
    var last, e := states[|actions|], trace[n];
    assert Dedicated.ToldAt(world, n, e);
    s := last.(talks := last.talks[r := last.talks[r].(seen := last.talks[r].seen + [e])],
               refusals := last.refusals + if e.Attach? then Blamed(e.request, e.reply) else {});
    assert trace[..n + 1] == trace[..n] + [e];
    hide HonestReply, Run;
    assert HonestOwn(last.grants, e);
    OneStepMore(states, actions, Own(r, e), s);
  }

  lemma {:induction false} RouteHonest(grants: set<Grant>, world: Reconcile.World, trace: seq<Reconcile.Event>, n: nat)
    requires Reconcile.Told(world, trace) && !Reconcile.Follow(trace).Bad? && n < |trace|
    requires HonestDirectory(grants, world, n)
    ensures HonestRoute(grants, trace[n])
  {
    Reconcile.PrefixPermitted(trace, n);
    assert Reconcile.ToldAt(world, Reconcile.Follow(trace[..n]), n, trace[n]);
    hide Reconcile.Follow, Reconcile.Told, Reconcile.After;
    Reconcile.OnlyNext(world, Reconcile.Follow(trace[..n]), n, trace[n]);
  }

  lemma {:induction false} RouteStep(s: State, r: Replica, e: Reconcile.Event, looked: seq<Reconcile.Event>, s': State)
    requires r in s.talks && s.talks[r] == Routing(looked) && HonestRoute(s.grants, e)
    requires s' == s.(talks := s.talks[r := Routing(looked + [e])])
    ensures Next(s, Route(r, e), s')
  {
    hide HonestRoute;
  }

  lemma {:induction false} RouteStepAdmitted(states: seq<State>, actions: seq<Action>, r: Replica,
                                             world: Reconcile.World, trace: seq<Reconcile.Event>, n: nat)
    returns (s: State)
    requires Run(states, actions) && Reconcile.Told(world, trace) && n < |trace|
    requires !Reconcile.Follow(trace).Bad?
    requires r in states[|actions|].talks && states[|actions|].talks[r] == Routing(trace[..n])
    requires HonestDirectory(states[|actions|].grants, world, n)
    ensures Run(states + [s], actions + [Route(r, trace[n])])
    ensures r in s.talks && s.talks[r] == Routing(trace[..n + 1]) && s.grants == states[|actions|].grants
  {
    hide Next, HonestRoute, HonestDirectory, Reconcile.Told, Reconcile.Follow;
    var last, e := states[|actions|], trace[n];
    hide Run;
    RouteHonest(last.grants, world, trace, n);
    s := last.(talks := last.talks[r := Routing(trace[..n] + [e])]);
    assert trace[..n + 1] == trace[..n] + [e];
    RouteStep(last, r, e, trace[..n], s);
    OneStepMore(states, actions, Route(r, e), s);
  }

  /** A placement or routing of this system whose conversation is a method's own holds what that method ended with. */
  ghost predicate HeldByMethod(talk: Talk, o: Observation) {
    match talk
    case InPool(cfg, events) =>
      exists world: Pool.World, attached: bool :: Pool.Ends(cfg, world, events, Pool.Hold(o, attached))
    case OnOwnHost(want, demands, seen) =>
      exists world: Dedicated.World, attached: bool ::
        Dedicated.Ends(want, demands, world, seen, Dedicated.Hold(o, attached))
    case Routing(looked) => exists world: Reconcile.World :: Reconcile.Ends(world, looked, Reconcile.WokeOwner(o))
  }

  /**
   End to end: a residency that PlacePooled, PlaceDedicated or ReconcileSession ended
   with, in any run of the system, may be bound to, was granted to its Host, and is
   none that a refusal named.
   */
  lemma {:induction false} MethodBindsGranted(states: seq<State>, actions: seq<Action>, i: nat, r: Replica,
                                              o: Observation)
    requires Run(states, actions) && i < |states| && r in states[i].talks && HeldByMethod(states[i].talks[r], o)
    ensures Held(states[i].talks[r]) == Some(o)
    ensures Named(BindRequestFor(o)) in states[i].grants && Named(BindRequestFor(o)) !in states[i].refusals
  {
    InvAlong(states, actions, i);
    hide Run, PooledProtocol.Follow, Dedicated.Follow, Reconcile.Follow, Pool.Told, Dedicated.Told, Reconcile.Told;
    MethodHolds(states[i].talks[r], o);
    hide HeldByMethod, Held;
    assert Sourced(states[i].grants, states[i].talks[r]);
    assert Named(BindRequestFor(o)) in states[i].refusals ==> Elsewhere(states[i].grants, Named(BindRequestFor(o)));
  }

  lemma {:induction false} MethodHolds(talk: Talk, o: Observation)
    requires HeldByMethod(talk, o)
    ensures Held(talk) == Some(o)
  {
    hide PooledProtocol.Follow, Dedicated.Follow, Reconcile.Follow, Pool.Told, Dedicated.Told, Reconcile.Told;
  }
}
