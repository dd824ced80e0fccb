/**
 A pooled placement's conversation by what may follow what was heard last, and its
 ending read off the last thing heard. The monitor permits exactly these conversations,
 so the order of the candidates, the questions put about each, the waits between rounds
 and what each answer leads to are fixed here without it.
 */
module PooledScript {
  import opened Common
  import opened Framing
  import opened Policy
  import opened HostAnswers
  import opened PooledProtocol
  import opened Pooled
  import Delivery

  /** The Hosts last listed. */
  function Page(trace: seq<Event>): seq<Candidate> {
    if trace == [] then []
    else var e := trace[|trace| - 1]; if e.Listed? then e.hosts else Page(trace[..|trace| - 1])
  }

  /** How many candidates were taken up since. */
  function Tried(trace: seq<Event>): nat {
    if trace == [] then 0
    else
      var e := trace[|trace| - 1];
      if e.Listed? then 0 else Tried(trace[..|trace| - 1]) + if e.Considered? then 1 else 0
  }

  /** How many questions were put about the candidate in hand. */
  function Put(trace: seq<Event>): nat {
    if trace == [] then 0
    else
      var e := trace[|trace| - 1];
      if e.Considered? then 0 else Put(trace[..|trace| - 1]) + if e.Inquired? then 1 else 0
  }

  /** The next candidate is the next admissible one of the page, in its order. */
  predicate NextSeat(r: Record, trace: seq<Event>, e: Event) {
    var seats := Seats(Page(trace), r);
    Tried(trace) < |seats| && e == Considered(seats[Tried(trace)])
  }

  /** The next question about the candidate in hand, or the attach once all were put. */
  predicate NextAsk(cfg: Config, r: Record, c: Candidate, trace: seq<Event>, e: Event) {
    if Put(trace) < |Demands(cfg)| then e.Inquired? && e.c == c && e.kind == Demands(cfg)[Put(trace)]
    else
      && e.Attach? && e.c == c && AsksFor(e.request, r)
      && e.request.host == c.host && e.request.hostGeneration == c.hostGeneration
  }

  /** What may be done or heard next. */
  predicate MayFollow(cfg: Config, trace: seq<Event>, e: Event) {
    if trace == [] then e.ReadRecord?
    else
      && trace[0].ReadRecord?
      && var r := trace[0].record;
      match trace[|trace| - 1]
      case ReadRecord(_) => r.placement.Pooled? && e.ReadOwner?
      case Waited(_) => e.ReadOwner?
      case ReadOwner(owner, now) => !(owner.Some? && ReusableOwner(owner.value, r, now)) && e.Listed?
      case Listed(_) => NextSeat(r, trace, e)
      case Considered(c) => NextAsk(cfg, r, c, trace, e)
      case Inquired(_, c, capability) =>
        if capability.Capable? then NextAsk(cfg, r, c, trace, e) else !capability.Abort? && NextSeat(r, trace, e)
      case Attach(_, _, reply) =>
        (match AttachAnswer(reply)
         case Accepted => false
         case Ambiguous => false
         case Stale => Lists(trace) < cfg.attempts && e == Waited(BackoffAt(cfg.backoff, Lists(trace)))
         case _ => NextSeat(r, trace, e))
  }

  ghost predicate Scripted(cfg: Config, trace: seq<Event>) {
    forall i :: 0 <= i < |trace| ==> MayFollow(cfg, trace[..i], trace[i])
  }

  // ------------------------------------------------- the monitor is the script

  function Drop<T>(s: seq<T>, n: nat): seq<T> { if n <= |s| then s[n..] else [] }

  function RoundOf(trace: seq<Event>): nat { if Lists(trace) == 0 then 0 else Lists(trace) - 1 }

  function SeatsLeft(r: Record, trace: seq<Event>): Phase {
    Trying(RoundOf(trace), Drop(Seats(Page(trace), r), Tried(trace)))
  }

  function InHandOf(cfg: Config, r: Record, c: Candidate, trace: seq<Event>): Phase {
    Vouching(RoundOf(trace), c, Drop(Demands(cfg), Put(trace)), Drop(Seats(Page(trace), r), Tried(trace)))
  }

  function PhaseOf(cfg: Config, r: Record, trace: seq<Event>): Phase
    requires trace != []
  {
    match trace[|trace| - 1]
    case ReadRecord(_) => if r.placement.Pooled? then AtOwner(0) else Moved
    case Waited(_) => AtOwner(Lists(trace))
    case ReadOwner(owner, now) =>
      if owner.Some? && ReusableOwner(owner.value, r, now) then Holding(owner.value, false) else AtList(Lists(trace))
    case Listed(_) => SeatsLeft(r, trace)
    case Considered(c) => InHandOf(cfg, r, c, trace)
    case Inquired(_, c, capability) =>
      (match capability
       case Capable => InHandOf(cfg, r, c, trace)
       case Abort => Broken
       case _ => SeatsLeft(r, trace))
    case Attach(_, _, reply) =>
      (match AttachAnswer(reply)
       case Accepted => Holding(reply.o, true)
       case Ambiguous => Broken
       case Stale => GoneStale(RoundOf(trace))
       case _ => SeatsLeft(r, trace))
  }

  /** Where a conversation stands, read off what was heard. */
  function TrackOf(cfg: Config, trace: seq<Event>): Track {
    if trace == [] then Begin
    else if !trace[0].ReadRecord? then Bad
    else Run(trace[0].record, PhaseOf(cfg, trace[0].record, trace))
  }

  /** The counts stay within what they count. */
  ghost predicate InRange(cfg: Config, trace: seq<Event>) {
    trace != [] && trace[0].ReadRecord? ==>
      && Tried(trace) <= |Seats(Page(trace), trace[0].record)|
      && var e := trace[|trace| - 1];
      && (e.Considered? || e.Inquired? || e.Attach? || e.Listed? ==> Lists(trace) > 0)
      && (e.Considered? || (e.Inquired? && e.capability.Capable?) ==> Put(trace) <= |Demands(cfg)|)
  }

  lemma {:induction false} SameAttach(r: Record, c: Candidate, q: AttachRequest)
    ensures AsksFor(q, r) && q.host == c.host && q.hostGeneration == c.hostGeneration <==>
      q == AttachRequestFor(r, c.host, c.hostGeneration)
  {}

  lemma {:induction false} CountsMore(trace: seq<Event>, e: Event)
    ensures var more := trace + [e];
      && Page(more) == (if e.Listed? then e.hosts else Page(trace))
      && Tried(more) == (if e.Listed? then 0 else Tried(trace) + if e.Considered? then 1 else 0)
      && Put(more) == (if e.Considered? then 0 else Put(trace) + if e.Inquired? then 1 else 0)
      && Lists(more) == Lists(trace) + if e.Listed? then 1 else 0
  {
    assert (trace + [e])[..|trace|] == trace;
  }

  /** One more event keeps script and monitor together. */
  ghost predicate Alike(cfg: Config, trace: seq<Event>, e: Event) {
    && (After(cfg, TrackOf(cfg, trace), e).Bad? <==> !MayFollow(cfg, trace, e))
    && (MayFollow(cfg, trace, e) ==>
          TrackOf(cfg, trace + [e]) == After(cfg, TrackOf(cfg, trace), e) && InRange(cfg, trace + [e]))
  }

  lemma {:induction false} FirstStep(cfg: Config, e: Event)
    ensures Alike(cfg, [], e)
  {
    CountsMore([], e);
    assert ([] + [e])[0] == e;
    hide Seats, ReusableOwner;
  }

  /** After the record, a wait or the registry. */
  lemma {:induction false} ReadStep(cfg: Config, trace: seq<Event>, e: Event)
    requires trace != [] && trace[0].ReadRecord? && InRange(cfg, trace)
    requires var last := trace[|trace| - 1]; last.ReadRecord? || last.Waited? || last.ReadOwner?
    requires trace[|trace| - 1].ReadRecord? ==> |trace| == 1
    ensures Alike(cfg, trace, e)
  {
    CountsMore(trace, e);
    assert |trace| == 1 ==> Lists(trace) == 0 by { assert trace[..0] == []; }
    hide Page, Tried, Put, Lists, Seats, ReusableOwner, BackoffAt, AttachRequestFor, Demands, AsksFor;
  }

  /** Where the next candidate is taken up. */
  lemma {:induction false} SeatStep(cfg: Config, trace: seq<Event>, e: Event)
    requires trace != [] && trace[0].ReadRecord? && InRange(cfg, trace)
    requires PhaseOf(cfg, trace[0].record, trace) == SeatsLeft(trace[0].record, trace)
    ensures Alike(cfg, trace, e)
  {
    CountsMore(trace, e);
    hide Page, Tried, Put, Lists, Seats, ReusableOwner, BackoffAt, AttachRequestFor, Demands, AsksFor;
    var r := trace[0].record;
    var seats := Seats(Page(trace), r);
    if Tried(trace) < |seats| {
      assert seats[Tried(trace)..][0] == seats[Tried(trace)] && seats[Tried(trace)..][1..] == seats[Tried(trace) + 1..];
    }
  }

  /** Where a candidate is asked about or asked. */
  lemma {:induction false} HandStep(cfg: Config, trace: seq<Event>, e: Event)
    requires trace != [] && trace[0].ReadRecord? && InRange(cfg, trace)
    requires trace[|trace| - 1].Considered? || (trace[|trace| - 1].Inquired? && trace[|trace| - 1].capability.Capable?)
    ensures Alike(cfg, trace, e)
  {
    CountsMore(trace, e);
    hide Page, Tried, Put, Lists, Seats, ReusableOwner, BackoffAt, AttachRequestFor, Demands, AsksFor;
    var demands := Demands(cfg);
    if Put(trace) < |demands| {
      assert demands[Put(trace)..][0] == demands[Put(trace)] && demands[Put(trace)..][1..] == demands[Put(trace) + 1..];
    }
    if e.Attach? { SameAttach(trace[0].record, e.c, e.request); }
  }

  /** After a stale registry, or an answer nothing may follow. */
  lemma {:induction false} EndStep(cfg: Config, trace: seq<Event>, e: Event)
    requires trace != [] && trace[0].ReadRecord? && InRange(cfg, trace)
    requires var at := PhaseOf(cfg, trace[0].record, trace); at.GoneStale? || at.Broken? || at.Holding? || at.Moved?
    ensures Alike(cfg, trace, e)
  {
    CountsMore(trace, e);
    hide Page, Tried, Put, Lists, Seats, ReusableOwner, BackoffAt, AttachRequestFor, Demands, AsksFor;
  }

  lemma {:induction false} ScriptStep(cfg: Config, trace: seq<Event>, e: Event)
    requires trace != [] ==> trace[0].ReadRecord? && (trace[|trace| - 1].ReadRecord? ==> |trace| == 1)
    requires InRange(cfg, trace)
    ensures Alike(cfg, trace, e)
  {
    hide Alike, InRange, Page, Tried, Put, Lists, Seats, ReusableOwner, Demands;
    if trace == [] {
      FirstStep(cfg, e);
    } else {
      var last, at := trace[|trace| - 1], PhaseOf(cfg, trace[0].record, trace);
      if last.ReadRecord? || last.Waited? || last.ReadOwner? {
        ReadStep(cfg, trace, e);
      } else if last.Considered? || (last.Inquired? && last.capability.Capable?) {
        HandStep(cfg, trace, e);
      } else if at.GoneStale? || at.Broken? || at.Holding? {
        EndStep(cfg, trace, e);
      } else {
        SeatStep(cfg, trace, e);
      }
    }
  }

  lemma {:induction false} ScriptedMore(cfg: Config, trace: seq<Event>, e: Event)
    ensures Scripted(cfg, trace + [e]) <==> Scripted(cfg, trace) && MayFollow(cfg, trace, e)
  {
    var more := trace + [e];
    hide MayFollow;
    assert more[..|trace|] == trace && more[|trace|] == e;
    forall i | 0 <= i < |trace| ensures MayFollow(cfg, more[..i], more[i]) == MayFollow(cfg, trace[..i], trace[i]) {
      assert more[..i] == trace[..i];
    }
  }

  /** The record is read first, and only then. */
  ghost predicate RecordOnce(trace: seq<Event>) {
    trace != [] ==> trace[0].ReadRecord? && (trace[|trace| - 1].ReadRecord? ==> |trace| == 1)
  }

  lemma {:induction false} OnceMore(cfg: Config, trace: seq<Event>, e: Event)
    requires RecordOnce(trace) && MayFollow(cfg, trace, e)
    ensures RecordOnce(trace + [e])
  {
    hide Seats, ReusableOwner, Demands, AsksFor;
  }

  /** The monitor permits exactly the scripted conversations, and stands where the script says. */
  lemma {:induction false} ScriptExactly(cfg: Config, trace: seq<Event>)
    ensures !Follow(cfg, trace).Bad? <==> Scripted(cfg, trace)
    ensures Scripted(cfg, trace) ==>
      Follow(cfg, trace) == TrackOf(cfg, trace) && InRange(cfg, trace) && RecordOnce(trace)
  {
    if trace != [] {
      hide Scripted, After, TrackOf, InRange, Follow, MayFollow, RecordOnce, Alike;
      var front, e := trace[..|trace| - 1], trace[|trace| - 1];
      assert trace == front + [e];
      ScriptExactly(cfg, front);
      OneMore(cfg, front, e);
    }
  }

  lemma {:induction false} OneMore(cfg: Config, trace: seq<Event>, e: Event)
    requires !Follow(cfg, trace).Bad? <==> Scripted(cfg, trace)
    requires Scripted(cfg, trace) ==>
      Follow(cfg, trace) == TrackOf(cfg, trace) && InRange(cfg, trace) && RecordOnce(trace)
    ensures !Follow(cfg, trace + [e]).Bad? <==> Scripted(cfg, trace + [e])
    ensures Scripted(cfg, trace + [e]) ==>
      && Follow(cfg, trace + [e]) == TrackOf(cfg, trace + [e])
      && InRange(cfg, trace + [e]) && RecordOnce(trace + [e])
  {
    hide Scripted, After, TrackOf, InRange, Follow, MayFollow;
    Followed(cfg, trace, e);
    BadStays(cfg, Follow(cfg, trace), e);
    ScriptedMore(cfg, trace, e);
    if Scripted(cfg, trace) {
      ScriptStep(cfg, trace, e);
      if MayFollow(cfg, trace, e) { OnceMore(cfg, trace, e); }
    }
    hide RecordOnce;
  }

  // -------------------------------------------------------------- the ending

  /** Every seat of the page was tried and none was decisive. */
  function FullIfThrough(r: Record, trace: seq<Event>): Option<Ending> {
    if Tried(trace) < |Seats(Page(trace), r)| then None else Some(Full)
  }

  function Unless(fine: bool): Option<Ending> { if fine then None else Some(Fault) }

  /** How a conversation ends, from the last thing heard and what the world would answer next; None if it goes on. */
  function EndingOf(cfg: Config, world: World, trace: seq<Event>): Option<Ending> {
    var n := |trace|;
    if n == 0 then Unless(world.record.Ok?)
    else if !trace[0].ReadRecord? then None
    else
      var r := trace[0].record;
      match trace[n - 1]
      case ReadRecord(_) => if r.placement.Pooled? then Unless(world.owner(n).Ok?) else Some(Gone)
      case Waited(_) => Unless(world.owner(n).Ok?)
      case ReadOwner(owner, now) =>
        if owner.Some? && ReusableOwner(owner.value, r, now) then Some(Hold(owner.value, false))
        else Unless(world.hosts(n).Ok?)
      case Listed(_) => FullIfThrough(r, trace)
      case Considered(_) => None
      case Inquired(_, _, capability) =>
        (match capability
         case Capable => None
         case Abort => Some(Fault)
         case _ => FullIfThrough(r, trace))
      case Attach(_, _, reply) =>
        (match AttachAnswer(reply)
         case Accepted => Some(Hold(reply.o, true))
         case Ambiguous => Some(Fault)
         case Stale => if Lists(trace) < cfg.attempts then Unless(!world.waitFails(n)) else Some(RegistryStale)
         case _ => FullIfThrough(r, trace))
  }

  /**
   A placement ends so, after this conversation, exactly when the conversation is
   scripted, every answer in it is the world's, and the script ends it so.
   */
  lemma {:induction false} EndsExactly(cfg: Config, world: World, trace: seq<Event>, ending: Ending)
    ensures Ends(cfg, world, trace, ending) <==>
      Told(world, trace) && Scripted(cfg, trace) && EndingOf(cfg, world, trace) == Some(ending)
  {
    ScriptExactly(cfg, trace);
    if Scripted(cfg, trace) {
      hide Follow, Told, Scripted, Page, Tried, Put, Lists, Seats, ReusableOwner, Demands;
    } else {
      hide Follow, Told, Scripted, EndingOf;
    }
  }
}
