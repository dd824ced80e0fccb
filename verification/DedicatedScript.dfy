/**
 A dedicated placement's conversation written down as a script, place by place, and
 its ending read off the last thing heard. The monitor permits exactly the script, so
 what a placement asks, of whom, and what each answer leads to is fixed here without it.
 */
module DedicatedScript {
  import opened Common
  import opened Framing
  import opened Policy
  import opened HostAnswers
  import opened Dedicated
  import Delivery

  type Kinds = seq<Delivery.Kind>

  /** The attach comes after four events, and a re-read and a question for each demand, and one more re-read. */
  function AttachAt(demands: Kinds): nat { 5 + 2 * |demands| }

  /** The attach goes to the endpoint found, for the session as it was just read. */
  predicate AskedOf(want: Wanted, ep: Endpoint, r: Record, q: AttachRequest) {
    q.host == ep.host && q.hostGeneration == want.generation && AsksFor(q, r)
  }

  /** What stands at place i. */
  ghost predicate InPlace(want: Wanted, demands: Kinds, trace: seq<Event>, i: nat)
    requires i < |trace|
  {
    var e := trace[i];
    if i == 0 then e.Observed?
    else if i == 1 then e.ReadRecord?
    else if i == 2 then e.ReadOwner?
    else if i == 3 then trace[0].Observed? && if trace[0].found.Some? then e.Rechecked? else e.Discovered?
    else if i > AttachAt(demands) then i == AttachAt(demands) + 1 && e.ReadOwner?
    else if i % 2 == 0 then e.ReadRecord?
    else if i < AttachAt(demands) then e.Inquired? && e.kind == demands[(i - 5) / 2]
    else
      && e.Attach? && trace[3].Discovered? && trace[i - 1].ReadRecord?
      && AskedOf(want, trace[3].endpoint, trace[i - 1].record, e.request)
  }

  /** What was heard at place i does not end the placement. */
  ghost predicate GoesOn(want: Wanted, trace: seq<Event>, i: nat)
    requires i < |trace|
  {
    match trace[i]
    case Observed(_) => true
    case ReadRecord(r) => r.placement.Dedicated? && r.generation == want.generation
    case ReadOwner(owner, now) =>
      i == 2 && trace[1].ReadRecord? && !(owner.Some? && Ours(owner.value, trace[1].record, want, now))
    case Rechecked(_, _) => false
    case Discovered(ep) => ep.valid && ep.generation == want.generation
    case Inquired(_, capability) => capability.Capable?
    case Attach(_, reply, _, _) => reply.AttachError? && reply.refusal.Some? && reply.refusal.value.epochMismatch
  }

  ghost predicate Scripted(want: Wanted, demands: Kinds, trace: seq<Event>) {
    && (forall i :: 0 <= i < |trace| ==> InPlace(want, demands, trace, i))
    && forall i :: 0 <= i < |trace| - 1 ==> GoesOn(want, trace, i)
  }

  /** An accepted attach is of use when the Host names the session, itself, and where it was asked. */
  predicate Fits(want: Wanted, ep: Endpoint, r: Record, e: Event)
    requires e.Attach? && e.reply.Attached?
  {
    var o := e.reply.o;
    && e.valid && ReusableOwner(o, r, e.now)
    && o.host == ep.host && o.hostGeneration == want.generation && o.endpoint == ep.base
  }

  /** What the last event of a conversation that does not go on leaves. */
  ghost function Final(want: Wanted, demands: Kinds, trace: seq<Event>): Phase
    requires Scripted(want, demands, trace) && trace != []
  {
    Places(want, demands, trace);
    var n := |trace|;
    match trace[n - 1]
    case ReadOwner(owner, now) =>
      var r := trace[if n == 3 then 1 else n - 3].record;
      if owner.Some? && Ours(owner.value, r, want, now) then Holding(owner.value, false, r) else Over
    case Rechecked(valid, now) =>
      var o, r := trace[0].found.value, trace[1].record;
      if valid && Ours(o, r, want, now) then Holding(o, false, r) else Over
    case Attach(_, reply, valid, now) =>
      if reply.Attached? && Fits(want, trace[3].endpoint, trace[n - 2].record, trace[n - 1])
      then Holding(reply.o, true, trace[n - 2].record) else Over
    case _ => Over
  }

  /** Where a conversation stands, read off its places. */
  ghost function PhaseAt(want: Wanted, demands: Kinds, trace: seq<Event>): Phase
    requires Scripted(want, demands, trace)
  {
    Places(want, demands, trace);
    var n := |trace|;
    if n == 0 then Begin
    else if !GoesOn(want, trace, n - 1) then Final(want, demands, trace)
    else if n == 1 then Looked(trace[0].found)
    else if n == 2 then Known(trace[0].found, trace[1].record)
    else if n == 3 then Unowned(trace[0].found, trace[1].record)
    else if n > AttachAt(demands) then GoneStale(trace[n - 2].record)
    else
      var ep := trace[3].endpoint;
      if n % 2 == 0 then Reachable(ep.host, ep.base, demands[(n - 4) / 2..])
      else Fresh(ep.host, ep.base, demands[(n - 5) / 2..], trace[n - 1].record)
  }

  /** The kinds of the events, by place. */
  lemma {:induction false} Places(want: Wanted, demands: Kinds, trace: seq<Event>)
    requires Scripted(want, demands, trace)
    ensures |trace| <= AttachAt(demands) + 2
    ensures |trace| > 0 ==> trace[0].Observed?
    ensures |trace| > 1 ==> trace[1].ReadRecord?
    ensures |trace| > 2 ==> trace[2].ReadOwner?
    ensures |trace| > 3 ==> if trace[0].found.Some? then trace[3].Rechecked? else trace[3].Discovered?
    ensures |trace| > 4 ==> trace[3].Discovered?
    ensures forall i :: 4 <= i < |trace| ==> Placed(demands, trace[i], i)
  {
    if |trace| > 0 { assert InPlace(want, demands, trace, 0); }
    if |trace| > 1 { assert InPlace(want, demands, trace, 1); }
    if |trace| > 2 { assert InPlace(want, demands, trace, 2); }
    if |trace| > 3 { assert InPlace(want, demands, trace, 3); }
    if |trace| > 4 { assert GoesOn(want, trace, 3); }
    hide AskedOf;
    assert |trace| > AttachAt(demands) + 2 ==> InPlace(want, demands, trace, AttachAt(demands) + 2);
    forall i | 4 <= i < |trace| ensures Placed(demands, trace[i], i) { assert InPlace(want, demands, trace, i); }
  }

  /** The kind of event from the fifth place on. */
  predicate Placed(demands: Kinds, e: Event, i: nat) {
    if i > AttachAt(demands) then e.ReadOwner?
    else if i == AttachAt(demands) then e.Attach?
    else if i % 2 == 0 then e.ReadRecord? else e.Inquired?
  }

  // ------------------------------------------------- the monitor is the script

  lemma {:induction false} ScriptedMore(want: Wanted, demands: Kinds, trace: seq<Event>, e: Event)
    ensures Scripted(want, demands, trace + [e]) <==>
      && Scripted(want, demands, trace) && (trace != [] ==> GoesOn(want, trace, |trace| - 1))
      && InPlace(want, demands, trace + [e], |trace|)
  {
    var more := trace + [e];
    forall i | 0 <= i < |trace|
      ensures InPlace(want, demands, more, i) == InPlace(want, demands, trace, i)
      ensures GoesOn(want, more, i) == GoesOn(want, trace, i)
    {
      assert more[i] == trace[i];
    }
    hide InPlace, GoesOn;
    if Scripted(want, demands, more) {
      forall i | 0 <= i < |trace| ensures InPlace(want, demands, trace, i) { assert InPlace(want, demands, more, i); }
      forall i | 0 <= i < |trace| ensures GoesOn(want, trace, i) { assert GoesOn(want, more, i); }
    }
  }

  lemma {:induction false} SameRequest(want: Wanted, ep: Endpoint, r: Record, q: AttachRequest)
    ensures AskedOf(want, ep, r, q) <==> q == AttachRequestFor(r, ep.host, want.generation)
  {}

  /** One more event keeps script and monitor together. */
  ghost predicate Alike(want: Wanted, demands: Kinds, trace: seq<Event>, e: Event)
    requires Scripted(want, demands, trace)
  {
    var next := After(want, demands, PhaseAt(want, demands, trace), e);
    && (next.Bad? <==> !InPlace(want, demands, trace + [e], |trace|))
    && (Scripted(want, demands, trace + [e]) ==> PhaseAt(want, demands, trace + [e]) == next)
  }

  /** Before the endpoint is asked anything. */
  lemma {:induction false} EarlyStep(want: Wanted, demands: Kinds, trace: seq<Event>, e: Event)
    requires Scripted(want, demands, trace) && |trace| <= 3 && (trace != [] ==> GoesOn(want, trace, |trace| - 1))
    ensures Alike(want, demands, trace, e)
  {
    Places(want, demands, trace);
    var more := trace + [e];
    assert more[|trace|] == e && forall i :: 0 <= i < |trace| ==> more[i] == trace[i];
    ScriptedMore(want, demands, trace, e);
    hide Scripted, ReusableOwner, AskedOf;
  }

  /** A re-read, before each question and before the attach. */
  lemma {:induction false} RereadStep(want: Wanted, demands: Kinds, trace: seq<Event>, e: Event)
    requires Scripted(want, demands, trace) && 4 <= |trace| <= AttachAt(demands) && |trace| % 2 == 0
    requires GoesOn(want, trace, |trace| - 1)
    ensures Alike(want, demands, trace, e)
  {
    Places(want, demands, trace);
    var more := trace + [e];
    assert more[|trace|] == e && forall i :: 0 <= i < |trace| ==> more[i] == trace[i];
    ScriptedMore(want, demands, trace, e);
    hide Scripted, ReusableOwner, AskedOf;
  }

  /** A question about the next demand. */
  lemma {:induction false} QuestionStep(want: Wanted, demands: Kinds, trace: seq<Event>, e: Event)
    requires Scripted(want, demands, trace) && 4 <= |trace| < AttachAt(demands) && |trace| % 2 == 1
    requires GoesOn(want, trace, |trace| - 1)
    ensures Alike(want, demands, trace, e)
  {
    Places(want, demands, trace);
    var more, n := trace + [e], |trace|;
    assert more[n] == e && forall i :: 0 <= i < n ==> more[i] == trace[i];
    ScriptedMore(want, demands, trace, e);
    var k := (n - 5) / 2;
    assert demands[k..][1..] == demands[k + 1..] && demands[k..][0] == demands[k] && (n + 1 - 4) / 2 == k + 1;
    hide Scripted, ReusableOwner, AskedOf, AttachRequestFor, AfterAttach, Fits, Placed;
  }

  /** The attach, when none is left. */
  lemma {:induction false} AttachStep(want: Wanted, demands: Kinds, trace: seq<Event>, e: Event)
    requires Scripted(want, demands, trace) && |trace| == AttachAt(demands) && GoesOn(want, trace, |trace| - 1)
    ensures Alike(want, demands, trace, e)
  {
    Places(want, demands, trace);
    var more, n := trace + [e], |trace|;
    assert more[n] == e && forall i :: 0 <= i < n ==> more[i] == trace[i];
    ScriptedMore(want, demands, trace, e);
    if e.Attach? { SameRequest(want, trace[3].endpoint, trace[n - 1].record, e.request); }
    hide Scripted, ReusableOwner, AskedOf, AttachRequestFor, Placed;
  }

  /** After the attach: a second look at the registry if it was stale, and nothing otherwise. */
  lemma {:induction false} LastStep(want: Wanted, demands: Kinds, trace: seq<Event>, e: Event)
    requires Scripted(want, demands, trace) && |trace| > 0
    requires !GoesOn(want, trace, |trace| - 1) || |trace| > AttachAt(demands)
    ensures After(want, demands, PhaseAt(want, demands, trace), e).Bad? <==>
      !(GoesOn(want, trace, |trace| - 1) && InPlace(want, demands, trace + [e], |trace|))
    ensures Scripted(want, demands, trace + [e]) ==>
      PhaseAt(want, demands, trace + [e]) == After(want, demands, PhaseAt(want, demands, trace), e)
  {
    Places(want, demands, trace);
    var more, n := trace + [e], |trace|;
    assert more[n] == e && forall i :: 0 <= i < n ==> more[i] == trace[i];
    ScriptedMore(want, demands, trace, e);
    hide Scripted, ReusableOwner, AskedOf;
  }

  lemma {:induction false} ScriptStep(want: Wanted, demands: Kinds, trace: seq<Event>, e: Event)
    requires Scripted(want, demands, trace)
    ensures After(want, demands, PhaseAt(want, demands, trace), e).Bad? <==> !Scripted(want, demands, trace + [e])
    ensures Scripted(want, demands, trace + [e]) ==>
      PhaseAt(want, demands, trace + [e]) == After(want, demands, PhaseAt(want, demands, trace), e)
  {
    ScriptedMore(want, demands, trace, e);
    hide Scripted, After, PhaseAt, InPlace, GoesOn;
    var n := |trace|;
    if n > 0 && (!GoesOn(want, trace, n - 1) || n > AttachAt(demands)) {
      LastStep(want, demands, trace, e);
    } else if n <= 3 {
      EarlyStep(want, demands, trace, e);
    } else if n % 2 == 0 {
      RereadStep(want, demands, trace, e);
    } else if n < AttachAt(demands) {
      QuestionStep(want, demands, trace, e);
    } else {
      AttachStep(want, demands, trace, e);
    }
  }

  /** The monitor permits exactly the scripted conversations, and stands where the script says. */
  lemma {:induction false} ScriptExactly(want: Wanted, demands: Kinds, trace: seq<Event>)
    ensures !Follow(want, demands, trace).Bad? <==> Scripted(want, demands, trace)
    ensures Scripted(want, demands, trace) ==> Follow(want, demands, trace) == PhaseAt(want, demands, trace)
  {
    if trace != [] {
      var front, e := trace[..|trace| - 1], trace[|trace| - 1];
      ScriptExactly(want, demands, front);
      Followed(want, demands, front, e);
      BadStays(want, demands, Follow(want, demands, front), e);
      ScriptedMore(want, demands, front, e);
      hide Scripted, After, PhaseAt, InPlace, GoesOn, Follow;
      assert trace == front + [e];
      if Scripted(want, demands, front) { ScriptStep(want, demands, front, e); }
    }
  }

  // -------------------------------------------------------------- the ending

  /** How a conversation ends, from the last thing heard and what the world would answer next; None if it goes on. */
  ghost function EndingOf(want: Wanted, demands: Kinds, world: World, trace: seq<Event>): Option<Ending>
    requires Scripted(want, demands, trace)
  {
    Places(want, demands, trace);
    var n := |trace|;
    if n == 0 then Unless(world.observe.Ok?)
    else match trace[n - 1]
      case Observed(_) => Unless(world.record(n).Ok?)
      case ReadRecord(r) =>
        if r.placement != Policy.Dedicated || r.generation != want.generation then Some(Superseded)
        else if n == 2 then Unless(world.owner(n).Ok?) else None
      case ReadOwner(owner, now) =>
        var r := trace[if n == 3 then 1 else n - 3].record;
        if owner.Some? && Ours(owner.value, r, want, now) then Some(Hold(owner.value, false))
        else if n > 3 then Some(Fault)
        else if trace[0].found.Some? then None
        else if !world.linked || (world.discovers && world.endpoint == Ok(None)) then Some(Waiting)
        else Unless(world.discovers && world.endpoint.Ok?)
      case Rechecked(valid, now) =>
        var o := trace[0].found.value;
        Some(if valid && Ours(o, trace[1].record, want, now) then Hold(o, false) else Fault)
      case Discovered(ep) => Unless(ep.valid && ep.generation == want.generation && world.record(n).Ok?)
      case Inquired(_, capability) =>
        (match capability
         case Capable => Unless(world.record(n).Ok?)
         case Abort => Some(Fault)
         case _ => Some(Declined(trace[3].endpoint.host)))
      case Attach(_, reply, _, _) =>
        var ep := trace[3].endpoint;
        (match AttachAnswer(reply)
         case Accepted => Some(if Fits(want, ep, trace[n - 2].record, trace[n - 1]) then Hold(reply.o, true) else Fault)
         case Stale => Unless(world.owner(n).Ok?)
         case Unsupported => Some(Fault)
         case Ambiguous => Some(Fault)
         case _ => Some(Declined(ep.host)))
  }

  function Unless(fine: bool): Option<Ending> { if fine then None else Some(Fault) }

  /** The conversation is scripted, and the monitor stands where the script says, here and before the last event. */
  ghost predicate Standing(want: Wanted, demands: Kinds, trace: seq<Event>) {
    && Scripted(want, demands, trace) && Follow(want, demands, trace) == PhaseAt(want, demands, trace)
    && (trace != [] ==>
          && Scripted(want, demands, trace[..|trace| - 1])
          && Follow(want, demands, trace[..|trace| - 1]) == PhaseAt(want, demands, trace[..|trace| - 1]))
  }

  ghost predicate Agree(want: Wanted, demands: Kinds, world: World, trace: seq<Event>, ending: Ending)
    requires Scripted(want, demands, trace)
  {
    Ends(want, demands, world, trace, ending) <==>
    Told(world, trace) && EndingOf(want, demands, world, trace) == Some(ending)
  }

  /** An ending before the endpoint is asked anything. */
  lemma {:induction false} EarlyEnd(want: Wanted, demands: Kinds, world: World, trace: seq<Event>, ending: Ending)
    requires Standing(want, demands, trace) && |trace| <= 4
    ensures Agree(want, demands, world, trace, ending)
  {
    Places(want, demands, trace);
    hide Follow, Told, Scripted, ReusableOwner, AskedOf, Fits;
  }

  lemma {:induction false} LateEnd(want: Wanted, demands: Kinds, world: World, trace: seq<Event>, ending: Ending)
    requires Standing(want, demands, trace) && |trace| > 4
    requires !trace[|trace| - 1].Inquired? && !trace[|trace| - 1].Attach?
    ensures Agree(want, demands, world, trace, ending)
  {
    Places(want, demands, trace);
    hide Follow, Told, Scripted, ReusableOwner, AskedOf, Fits;
  }

  /** The endpoint that is asked is the one found. */
  lemma {:induction false} AskedBefore(want: Wanted, demands: Kinds, trace: seq<Event>)
    requires Standing(want, demands, trace) && |trace| > 4
    requires trace[|trace| - 1].Inquired? || trace[|trace| - 1].Attach?
    ensures var before := Follow(want, demands, trace[..|trace| - 1]);
      trace[3].Discovered? && before.Fresh? && before.host == trace[3].endpoint.host
  {
    var front := trace[..|trace| - 1];
    Places(want, demands, trace);
    Places(want, demands, front);
    assert GoesOn(want, trace, |front| - 1);
    hide Follow, Scripted, ReusableOwner, AskedOf, Fits;
  }

  lemma {:induction false} QuestionEnd(want: Wanted, demands: Kinds, world: World, trace: seq<Event>, ending: Ending)
    requires Standing(want, demands, trace) && |trace| > 4 && trace[|trace| - 1].Inquired?
    ensures Agree(want, demands, world, trace, ending)
  {
    Places(want, demands, trace);
    AskedBefore(want, demands, trace);
    hide Follow, Told, Scripted, Ours, AskedOf, Fits, InPlace;
  }

  lemma {:induction false} AttachEnd(want: Wanted, demands: Kinds, world: World, trace: seq<Event>, ending: Ending)
    requires Standing(want, demands, trace) && |trace| > 4 && trace[|trace| - 1].Attach?
    ensures Agree(want, demands, world, trace, ending)
  {
    Places(want, demands, trace);
    AskedBefore(want, demands, trace);
    hide Follow, Told, Scripted, Ours, AskedOf, Fits, InPlace;
  }

  /**
   A placement ends so, after this conversation, exactly when the conversation is
   scripted, every answer in it is the world's, and the script ends it so.
   */
  lemma {:induction false} EndsExactly(want: Wanted, demands: Kinds, world: World, trace: seq<Event>, ending: Ending)
    ensures Ends(want, demands, world, trace, ending) <==>
      && Told(world, trace) && Scripted(want, demands, trace)
      && EndingOf(want, demands, world, trace) == Some(ending)
  {
    ScriptExactly(want, demands, trace);
    if Scripted(want, demands, trace) {
      if trace != [] {
        ScriptedMore(want, demands, trace[..|trace| - 1], trace[|trace| - 1]);
        assert trace == trace[..|trace| - 1] + [trace[|trace| - 1]];
        ScriptExactly(want, demands, trace[..|trace| - 1]);
      }
      hide Follow, Told, Scripted, PhaseAt, EndingOf;
      if |trace| <= 4 {
        EarlyEnd(want, demands, world, trace, ending);
      } else if trace[|trace| - 1].Inquired? {
        QuestionEnd(want, demands, world, trace, ending);
      } else if trace[|trace| - 1].Attach? {
        AttachEnd(want, demands, world, trace, ending);
      } else {
        LateEnd(want, demands, world, trace, ending);
      }
    }
  }

  /** A residency that counts as attached is the answer to the attach, which was the last thing said. */
  lemma {:induction false} AttachedWasAsked(want: Wanted, demands: Kinds, world: World, trace: seq<Event>,
                                            o: Observation)
    requires Ends(want, demands, world, trace, Hold(o, true))
    ensures trace != [] && trace[|trace| - 1].Attach? && trace[|trace| - 1].reply == Attached(o)
  {
    EndsExactly(want, demands, world, trace, Hold(o, true));
    Places(want, demands, trace);
    hide Scripted, Told, Ends, Ours, Fits;
  }

  /**
   An accepted attach is held exactly when the Host's statement is of this session and
   launch, live, and names the very Host, incarnation and address that were found and
   asked; any other statement is an error.
   */
  lemma {:induction false} AttachedExactly(want: Wanted, demands: Kinds, world: World, trace: seq<Event>,
                                           ending: Ending)
    requires Ends(want, demands, world, trace, ending)
    requires trace != [] && trace[|trace| - 1].Attach? && trace[|trace| - 1].reply.Attached?
    ensures |trace| > 4 && trace[3].Discovered? && trace[|trace| - 2].ReadRecord?
    ensures world.endpoint == Ok(Some(trace[3].endpoint))
    ensures var e, ep, r := trace[|trace| - 1], trace[3].endpoint, trace[|trace| - 2].record;
      var o := e.reply.o;
      && e.request.host == ep.host && e.request.hostGeneration == ep.generation == want.generation
      && ending == if
           && e.valid && o.resident && o.accepting && e.now < o.expires
           && o.tenant == r.tenant && o.session == r.session && o.agent == r.agent && o.runtime == r.runtime
           && o.placement == r.placement
           && o.host == ep.host && o.endpoint == ep.base && o.hostGeneration == ep.generation
         then Hold(o, true) else Fault
  {
    EndsExactly(want, demands, world, trace, ending);
    Places(want, demands, trace);
    var n := |trace|;
    assert InPlace(want, demands, trace, n - 1) && GoesOn(want, trace, 3) && ToldAt(world, 3, trace[3]);
    hide Scripted, Told, Ends;
  }
}
