/**
 What one reconciliation does and comes to, written straight down from what the world
 answers at each point. The monitor and its methods are shown to do just this.
 */
module ReconcileScript {
  import opened Common
  import opened Policy
  import opened Reconcile
  import Dedicated
  import Delivery
  import HostAnswers
  import Pooled

  /** An owner this session's commands may be sent to: live, of this launch, and of the desired incarnation. */
  predicate Serves(row: Row, owner: Option<Observation>, now: Instant) {
    && owner.Some? && var o, r := owner.value, row.record;
    && o.tenant == r.tenant && o.session == r.session && o.agent == r.agent && o.runtime == r.runtime
    && o.placement == r.placement && o.resident && o.accepting && now < o.expires
    && (r.placement.Dedicated? ==> o.hostGeneration == r.generation)
  }

  // -------------------------------------------------------- what is said, in order

  /** The desires written: as far as the first that fails. */
  function Writes(wishes: seq<Reply<Row>>): seq<Event> {
    if wishes == [] || wishes[0].Err? then [] else [Wrote(wishes[0].value)] + Writes(wishes[1..])
  }

  /** The row to place: the one read under the claim, or the last one written. */
  function LastRow(row: Row, wishes: seq<Reply<Row>>): Option<Row>
    decreases |wishes|
  {
    if wishes == [] then Some(row) else if wishes[0].Err? then None else LastRow(wishes[0].value, wishes[1..])
  }

  /** Asked for deletion after its creation. */
  predicate Deleted(row: Row) { row.record.placement.Dedicated? && row.record.generation > 1 && row.bare }

  /** What is done for a row whose desire is settled. */
  function Acts(world: World, row: Row): seq<Event> {
    match row.record.placement
    case Pooled => if world.linked then [PlacePooled] else []
    case Dedicated =>
      if Deleted(row) || !world.controller || !world.intentValid then []
      else [Ensure(row.record.generation)] + if world.ensured then [PlaceDedicated(row.record.generation)] else []
    case Other => []
  }

  function ClaimedWork(world: World): seq<Event> {
    if world.catalog(3).Err? then []
    else
      var row, wishes := world.catalog(3).value, Wishes(world);
      var last := LastRow(row, wishes);
      [Read(row)] + Writes(wishes) + if last.None? then [] else Acts(world, last.value)
  }

  /** A second look, after another's claim. */
  function SecondLook(world: World): seq<Event> {
    if world.catalog(3).Err? then []
    else if world.owner(4).Err? then [Read(world.catalog(3).value)]
    else [Read(world.catalog(3).value), SawOwner(world.owner(4).value, world.now(4))]
  }

  function Script(world: World): seq<Event> {
    if world.catalog(0).Err? then []
    else if world.owner(1).Err? then [Read(world.catalog(0).value)]
    else
      var row, owner, now := world.catalog(0).value, world.owner(1).value, world.now(1);
      var looked := [Read(row), SawOwner(owner, now)];
      if Serves(row, owner, now) then looked
      else
        var asked := looked + [Acquire(world.acquire)];
        match world.acquire
        case ClaimFailed => asked
        case HeldUntil(_) => asked + SecondLook(world)
        case Granted => asked + ClaimedWork(world) + [Release]
  }

  // ------------------------------------------------------------- what it comes to

  /** What a settled row comes to, the owner having been seen before the claim. */
  ghost predicate PlacedAs(world: World, row: Row, owner: Option<Observation>, now: Instant, r: Result) {
    match row.record.placement
    case Pooled =>
      if world.linked then r.FromPool? && exists said :: Pooled.Ends(world.cfg, world.pooled, said, r.pooled)
      else if world.hosts.Err? then r == Fault
      else r.Decided? && Decides(row.record, owner, world.hosts.value, now, r.d)
    case Dedicated =>
      if Deleted(row) then r == SessionReleased
      else if !world.controller then r == NoController
      else if !world.intentValid || !world.ensured then r == Fault
      else
        var want := Dedicated.Wanted(row.record.generation);
        r.FromOwnHost? && exists said :: Dedicated.Ends(want, Demanded(world), world.dedicated, said, r.own)
    case Other => r == Decided(Undecided)
  }

  ghost predicate Comes(world: World, r: Result) {
    if world.catalog(0).Err? || world.owner(1).Err? then r == Fault
    else if Serves(world.catalog(0).value, world.owner(1).value, world.now(1)) then
      r == WokeOwner(world.owner(1).value.value)
    else match world.acquire
      case ClaimFailed => r == Fault
      case HeldUntil(horizon) =>
        if world.catalog(3).Err? || world.owner(4).Err? then r == Fault
        else if Serves(world.catalog(3).value, world.owner(4).value, world.now(4)) then
          r == NamedOwner(world.owner(4).value.value)
        else r == Deferred(horizon)
      case Granted => ClaimedAs(world, world.owner(1).value, world.now(1), r)
  }

  /** What a reconciliation that was granted the claim comes to. */
  ghost predicate ClaimedAs(world: World, owner: Option<Observation>, now: Instant, r: Result) {
    if world.catalog(3).Err? then r == Fault
    else
      var last := LastRow(world.catalog(3).value, Wishes(world));
      if last.None? then r == Fault else PlacedAs(world, last.value, owner, now, r)
  }

  /** A Host of its own is asked for just what the commands to be woken call for. */
  lemma {:induction false} DemandedMeaning(world: World)
    ensures Delivery.GateResponse in Demanded(world) <==> world.cfg.gates
    ensures Delivery.Reference in Demanded(world) <==> world.cfg.references
    ensures Delivery.Principal in Demanded(world) <==> world.cfg.principals
  {
    HostAnswers.DemandsMeaning(world.cfg.gates, world.cfg.references, world.cfg.principals);
  }

  // ------------------------------------------------------- the monitor does this

  lemma {:induction false} SameOwner(row: Row, owner: Option<Observation>, now: Instant)
    ensures Serves(row, owner, now) <==> Routable(row, owner, now)
  {}

  lemma {:induction false} SameRelease(row: Row)
    ensures Deleted(row) <==> Released(row)
  {}

  /** The conversation so far is the one this world calls for, and has come to this phase. */
  ghost predicate Leads(world: World, trace: seq<Event>, p: Phase) {
    Follow(trace) == p && Determined(NextIn(world), trace)
  }

  lemma {:induction false} LeadsOn(world: World, trace: seq<Event>, p: Phase, e: Event)
    requires Leads(world, trace, p) && NextEvent(world, p, |trace|) == Some(e)
    ensures Leads(world, trace + [e], After(p, e))
  {
    Followed(trace, e);
    hide Follow, After, NextEvent;
    var more := trace + [e];
    forall n | 0 <= n < |more| ensures NextIn(world)(more[..n]) == Some(more[n]) {
      if n < |trace| { assert more[..n] == trace[..n]; } else { assert more[..n] == trace; }
    }
  }

  lemma {:induction false} Begins(world: World)
    ensures Leads(world, [], Free(None))
  {}

  /** What this world calls for next is what it answers there, and is permitted. */
  lemma {:induction false} NextTold(world: World, p: Phase, n: nat, e: Event)
    requires NextEvent(world, p, n) == Some(e)
    ensures ToldAt(world, p, n, e) && !After(p, e).Bad?
  {
    hide Routable, IsRelease;
  }

  lemma {:induction false} LeadsTold(world: World, trace: seq<Event>, p: Phase)
    requires Leads(world, trace, p)
    ensures Told(world, trace) && !p.Bad?
  {
    hide Follow, After, NextEvent, ToldAt;
    forall n | 0 <= n < |trace|
      ensures ToldAt(world, Follow(trace[..n]), n, trace[n]) && !After(Follow(trace[..n]), trace[n]).Bad?
    {
      assert NextIn(world)(trace[..n]) == Some(trace[n]);
      NextTold(world, Follow(trace[..n]), n, trace[n]);
    }
    if trace == [] {
      assert Follow([]) == Free(None) by { NothingYet(); }
    } else {
      var n := |trace| - 1;
      Followed(trace[..n], trace[n]);
      assert trace == trace[..n] + [trace[n]];
    }
  }

  lemma {:induction false} NothingYet()
    ensures Follow([]) == Free(None)
  {}

  /** From the row read under the claim to the last one written. */
  lemma {:induction false} WritesLead(world: World, trace: seq<Event>, row: Row, k: nat) returns (q: Phase)
    requires k <= |Wishes(world)| && Leads(world, trace, Claimed(Some(row), k))
    ensures var rest := Wishes(world)[k..];
      && Leads(world, trace + Writes(rest), q) && q.Claimed? && q.row.Some?
      && match LastRow(row, rest)
         case Some(last) => q == Claimed(Some(last), |Wishes(world)|)
         case None => q.writes < |Wishes(world)| && Wishes(world)[q.writes].Err?
    decreases |Wishes(world)| - k
  {
    hide Leads, Follow;
    var wishes := Wishes(world);
    q := Claimed(Some(row), k);
    if k < |wishes| && wishes[k].Ok? {
      var e := Wrote(wishes[k].value);
      LeadsOn(world, trace, q, e);
      q := WritesLead(world, trace + [e], wishes[k].value, k + 1);
      assert wishes[k..][1..] == wishes[k + 1..];
      assert trace + [e] + Writes(wishes[k + 1..]) == trace + ([e] + Writes(wishes[k + 1..]));
    } else {
      assert Writes(wishes[k..]) == [] && trace + [] == trace;
    }
  }

  /** What is done for a settled row, up to where nothing is left but to give the claim back. */
  lemma {:induction false} ActsLead(world: World, trace: seq<Event>, row: Row) returns (q: Phase)
    requires Leads(world, trace, Claimed(Some(row), |Wishes(world)|))
    ensures Leads(world, trace + Acts(world, row), q) && Holds(q)
    ensures Work(world, q, |trace + Acts(world, row)|).None?
    ensures forall owner, now, r :: Closes(world, owner, now, q, r) <==> PlacedAs(world, row, owner, now, r)
  {
    hide Leads, Follow;
    SameRelease(row);
    q := Claimed(Some(row), |Wishes(world)|);
    assert trace + [] == trace;
    if row.record.placement.Pooled? && world.linked {
      LeadsOn(world, trace, q, PlacePooled);
      q := Placed(None);
    } else if row.record.placement.Dedicated? && !Deleted(row) && world.controller && world.intentValid {
      var ensure, place := Ensure(row.record.generation), PlaceDedicated(row.record.generation);
      LeadsOn(world, trace, q, ensure);
      q := Ensured(row.record.generation);
      if world.ensured {
        LeadsOn(world, trace + [ensure], q, place);
        assert trace + [ensure] + [place] == trace + ([ensure] + [place]);
        q := Placed(Some(row.record.generation));
      } else {
        assert [ensure] + [] == [ensure];
      }
    }
  }

  /** From this phase on the claim is given back to just what the script comes to. */
  ghost predicate ClosesSo(world: World, q: Phase) {
    forall owner, now, r :: Closes(world, owner, now, q, r) <==> ClaimedAs(world, owner, now, r)
  }

  /** Everything under the claim. */
  lemma {:induction false} ClaimedLead(world: World, trace: seq<Event>) returns (q: Phase)
    requires Leads(world, trace, Claimed(None, 0)) && |trace| == 3
    ensures Leads(world, trace + ClaimedWork(world), q) && Holds(q)
    ensures Work(world, q, |trace + ClaimedWork(world)|).None?
    ensures ClosesSo(world, q)
  {
    hide Leads, Follow, PlacedAs;
    q := Claimed(None, 0);
    assert trace + [] == trace;
    if world.catalog(3).Ok? {
      var row, wishes := world.catalog(3).value, Wishes(world);
      LeadsOn(world, trace, q, Read(row));
      q := WritesLead(world, trace + [Read(row)], row, 0);
      assert wishes[0..] == wishes;
      var last := LastRow(row, wishes);
      var said := trace + [Read(row)] + Writes(wishes);
      assert said + [] == said && said == trace + ([Read(row)] + Writes(wishes) + []);
      if last.Some? {
        q := ActsLead(world, said, last.value);
        assert said + Acts(world, last.value) == trace + ([Read(row)] + Writes(wishes) + Acts(world, last.value));
      }
    }
  }

  /** The opening, as far as the claim. */
  lemma {:induction false} OpeningLeads(world: World)
    requires world.catalog(0).Ok? && world.owner(1).Ok?
    ensures var row, owner, now := world.catalog(0).value, world.owner(1).value, world.now(1);
      var looked := [Read(row), SawOwner(owner, now)];
      if Serves(row, owner, now) then Leads(world, looked, Routed(owner.value, row))
      else Leads(world, looked + [Acquire(world.acquire)], After(Unrouted(row), Acquire(world.acquire)))
  {
    var row, owner, now := world.catalog(0).value, world.owner(1).value, world.now(1);
    Begins(world);
    SameOwner(row, owner, now);
    hide Leads, Follow, Serves, Routable;
    LeadsOn(world, [], Free(None), Read(row));
    assert [] + [Read(row)] == [Read(row)];
    LeadsOn(world, [Read(row)], Free(Some(row)), SawOwner(owner, now));
    assert [Read(row)] + [SawOwner(owner, now)] == [Read(row), SawOwner(owner, now)];
    if !Serves(row, owner, now) {
      LeadsOn(world, [Read(row), SawOwner(owner, now)], Unrouted(row), Acquire(world.acquire));
    }
  }

  /** The second look after another's claim. */
  lemma {:induction false} SecondLookLeads(world: World, trace: seq<Event>, horizon: Instant) returns (q: Phase)
    requires Leads(world, trace, Deferring(horizon, None)) && |trace| == 3
    ensures Leads(world, trace + SecondLook(world), q)
    ensures q ==
      if world.catalog(3).Err? then Deferring(horizon, None)
      else
        var row := world.catalog(3).value;
        if world.owner(4).Err? then Deferring(horizon, Some(row))
        else if Serves(row, world.owner(4).value, world.now(4)) then Named(world.owner(4).value.value, row)
        else Over
  {
    hide Leads, Follow, Serves, Routable;
    q := Deferring(horizon, None);
    assert trace + [] == trace;
    if world.catalog(3).Ok? {
      var row := world.catalog(3).value;
      LeadsOn(world, trace, q, Read(row));
      q := Deferring(horizon, Some(row));
      if world.owner(4).Ok? {
        var e := SawOwner(world.owner(4).value, world.now(4));
        SameOwner(row, world.owner(4).value, world.now(4));
        LeadsOn(world, trace + [Read(row)], q, e);
        q := After(q, e);
        assert trace + [Read(row)] + [e] == trace + [Read(row), e];
      }
    }
  }

  /** The script is the conversation this world calls for, to its end, and its result what the monitor makes of it. */
  ghost predicate Plays(world: World, p: Phase) {
    && Leads(world, Script(world), p) && NextEvent(world, p, |Script(world)|).None?
    && EndsSo(world, Script(world))
  }

  /** A reconciliation that said this ends as the script comes to. */
  ghost predicate EndsSo(world: World, trace: seq<Event>) {
    forall r :: Ends(world, trace, r) <==> Comes(world, r)
  }

  lemma {:induction false} FirstFails(world: World) returns (p: Phase)
    requires world.catalog(0).Err? || world.owner(1).Err?
    ensures Plays(world, p)
  {
    Begins(world);
    p := Free(None);
    hide Leads, EndsSo, Follow, Told;
    if world.catalog(0).Ok? {
      var row := world.catalog(0).value;
      LeadsOn(world, [], p, Read(row));
      assert [] + [Read(row)] == [Read(row)];
      p := Free(Some(row));
    }
    LeadsTold(world, Script(world), p);
    FailsFirst(world, Script(world), p);
  }

  /** What it comes to, where the first reads fail. */
  lemma {:induction false} FailsFirst(world: World, trace: seq<Event>, p: Phase)
    requires Leads(world, trace, p) && Told(world, trace)
    requires if world.catalog(0).Err? then p == Free(None) && |trace| == 0
             else world.owner(1).Err? && p == Free(Some(world.catalog(0).value)) && |trace| == 1
    ensures EndsSo(world, trace)
  {
    hide Told, Determined, Closes, Serves, Follow, ClaimedAs, NextEvent;
  }

  lemma {:induction false} RoutedPlays(world: World) returns (p: Phase)
    requires world.catalog(0).Ok? && world.owner(1).Ok?
    requires Serves(world.catalog(0).value, world.owner(1).value, world.now(1)) || world.acquire.ClaimFailed?
    ensures Plays(world, p)
  {
    OpeningLeads(world);
    var row, owner, now := world.catalog(0).value, world.owner(1).value, world.now(1);
    hide Leads, Serves, After, Ends, Comes;
    p := if Serves(row, owner, now) then Routed(owner.value, row) else Over;
    if !Serves(row, owner, now) { RefusedIsOver(row); }
    assert Leads(world, Script(world), p);
    LeadsTold(world, Script(world), p);
    RoutedEnds(world, Script(world), p);
  }

  lemma {:induction false} RefusedIsOver(row: Row)
    ensures After(Unrouted(row), Acquire(ClaimFailed)) == Over
  {}

  /** What it comes to, where no claim was held. */
  lemma {:induction false} RoutedEnds(world: World, trace: seq<Event>, p: Phase)
    requires world.catalog(0).Ok? && world.owner(1).Ok? && Leads(world, trace, p) && Told(world, trace)
    requires var row, owner, now := world.catalog(0).value, world.owner(1).value, world.now(1);
      if Serves(row, owner, now) then p == Routed(owner.value, row) else p.Over? && world.acquire.ClaimFailed?
    ensures NextEvent(world, p, |trace|).None?
    ensures EndsSo(world, trace)
  {
    hide Told, Determined, Closes, Serves, Follow;
  }

  lemma {:induction false} HeldPlays(world: World) returns (p: Phase)
    requires world.catalog(0).Ok? && world.owner(1).Ok? && world.acquire.HeldUntil?
    requires !Serves(world.catalog(0).value, world.owner(1).value, world.now(1))
    ensures Plays(world, p)
  {
    OpeningLeads(world);
    var row, owner, now := world.catalog(0).value, world.owner(1).value, world.now(1);
    var asked := [Read(row), SawOwner(owner, now)] + [Acquire(world.acquire)];
    p := SecondLookLeads(world, asked, world.acquire.horizon);
    assert Script(world) == asked + SecondLook(world);
    LeadsTold(world, Script(world), p);
    LookEnds(world, Script(world), p);
    hide Script, Ends, Comes, Leads;
  }

  /** What the second look comes to. */
  lemma {:induction false} LookEnds(world: World, trace: seq<Event>, p: Phase)
    requires world.catalog(0).Ok? && world.owner(1).Ok? && world.acquire.HeldUntil?
    requires !Serves(world.catalog(0).value, world.owner(1).value, world.now(1))
    requires Follow(trace) == p && Told(world, trace) && |trace| == 3 + |SecondLook(world)|
    requires var horizon := world.acquire.horizon;
      p ==
      if world.catalog(3).Err? then Deferring(horizon, None)
      else
        var row := world.catalog(3).value;
        if world.owner(4).Err? then Deferring(horizon, Some(row))
        else if Serves(row, world.owner(4).value, world.now(4)) then Named(world.owner(4).value.value, row)
        else Over
    ensures NextEvent(world, p, |trace|).None?
    ensures EndsSo(world, trace)
  {
    hide Told, Closes, Serves, Follow;
  }

  lemma {:induction false} GrantedPlays(world: World) returns (p: Phase)
    requires world.catalog(0).Ok? && world.owner(1).Ok? && world.acquire.Granted?
    requires !Serves(world.catalog(0).value, world.owner(1).value, world.now(1))
    ensures Plays(world, p)
  {
    GrantedScript(world);
    hide Leads, Serves, EndsSo, ClosesSo, ClaimedWork, After, Work, NextEvent, Follow, Script, Told, Holds;
    OpeningLeads(world);
    var row, owner, now := world.catalog(0).value, world.owner(1).value, world.now(1);
    var asked := [Read(row), SawOwner(owner, now)] + [Acquire(Granted)];
    GrantedIsClaimed(row);
    var q := ClaimedLead(world, asked);
    var said := asked + ClaimedWork(world);
    GivesBack(world, q, |said|);
    LeadsOn(world, said, q, Release);
    p := Over;
    LeadsTold(world, said + [Release], p);
    GrantedEnds(world, said, q);
    NothingAfter(world, |said| + 1);
  }

  lemma {:induction false} GrantedScript(world: World)
    requires world.catalog(0).Ok? && world.owner(1).Ok? && world.acquire.Granted?
    requires !Serves(world.catalog(0).value, world.owner(1).value, world.now(1))
    ensures Script(world) ==
      [Read(world.catalog(0).value), SawOwner(world.owner(1).value, world.now(1))] + [Acquire(Granted)]
      + ClaimedWork(world) + [Release]
  {
    hide ClaimedWork, Serves;
  }

  lemma {:induction false} NothingAfter(world: World, n: nat)
    ensures NextEvent(world, Over, n).None?
  {}

  lemma {:induction false} GrantedIsClaimed(row: Row)
    ensures After(Unrouted(row), Acquire(Granted)) == Claimed(None, 0)
  {}

  lemma {:induction false} GivesBack(world: World, q: Phase, n: nat)
    requires Holds(q) && Work(world, q, n).None?
    ensures NextEvent(world, q, n) == Some(Release) && After(q, Release) == Over
  {}

  /** What it comes to, from what was said before the claim was given back. */
  lemma {:induction false} GrantedEnds(world: World, said: seq<Event>, q: Phase)
    requires world.catalog(0).Ok? && world.owner(1).Ok? && world.acquire.Granted?
    requires !Serves(world.catalog(0).value, world.owner(1).value, world.now(1))
    requires |said| >= 2 && said[1] == SawOwner(world.owner(1).value, world.now(1)) && Leads(world, said, q)
    requires Leads(world, said + [Release], Over) && Told(world, said + [Release])
    requires ClosesSo(world, q)
    ensures EndsSo(world, said + [Release])
  {
    var owner, now, whole := world.owner(1).value, world.now(1), said + [Release];
    assert whole[..|said|] == said && whole[1] == said[1];
    hide Told, Determined, Closes, Serves, Follow, ClaimedAs, NextEvent;
    forall r ensures Ends(world, whole, r) <==> Comes(world, r) {
      assert Closes(world, owner, now, q, r) <==> ClaimedAs(world, owner, now, r);
    }
  }

  lemma {:induction false} ScriptPlays(world: World) returns (p: Phase)
    ensures Plays(world, p)
  {
    hide Plays, Serves;
    if world.catalog(0).Err? || world.owner(1).Err? {
      p := FirstFails(world);
    } else if Serves(world.catalog(0).value, world.owner(1).value, world.now(1)) || world.acquire.ClaimFailed? {
      p := RoutedPlays(world);
    } else if world.acquire.HeldUntil? {
      p := HeldPlays(world);
    } else {
      p := GrantedPlays(world);
    }
  }

  /** A reconciliation ends so, after this conversation, exactly when both are the script's. */
  lemma {:induction false} EndsExactly(world: World, trace: seq<Event>, r: Result)
    ensures Ends(world, trace, r) <==> trace == Script(world) && Comes(world, r)
  {
    var p := ScriptPlays(world);
    if Ends(world, trace, r) {
      EndsThere(world, trace, r);
      ToldInOrder(world, trace);
      hide Script, Comes, Told, NextEvent, Follow, Determined, Closes;
      OnePath(NextIn(world), trace, Script(world));
    }
  }
}
