/**
 One pass of the gate-deadline sweep: stale deadline intents are retired in the
 order the pages list them, and a gate the record still shows open is counted
 and never touched.
 */
module GateSweep {
  import opened Common
  import opened Rotor
  import opened Paging
  import opened SweepRuns
  import opened Trails

  type Gate = nat
  type Instant = int
  datatype Remnant = Remnant(gate: Gate, revision: nat)

  datatype Code = TooSoonCode | ConflictCode | NotFoundCode | CursorCode | OtherCode
  datatype Field = GateID | GateIntent | OtherField
  datatype RetireReply = Retired | CatalogError(code: Code, field: Field) | OtherFault

  datatype GateDisposition = RetiredNow | TooSoon | Reopened | RaceLost | Absent

  datatype Classified = Known(disposition: GateDisposition) | Fault

  /** Which answers to a retirement each outcome records. */
  predicate Records(d: GateDisposition, reply: RetireReply) {
    match d
    case RetiredNow => reply == Retired
    case TooSoon => reply.CatalogError? && reply.code == TooSoonCode
    case Reopened => reply == CatalogError(ConflictCode, GateID)
    case RaceLost => reply == CatalogError(ConflictCode, GateIntent)
    case Absent => reply == CatalogError(NotFoundCode, GateIntent)
  }

  /** The answers that no outcome records: the pass ends there. */
  predicate IsFault(reply: RetireReply) {
    match reply
    case Retired => false
    case OtherFault => true
    case CatalogError(code, field) =>
      match code
      case TooSoonCode => false
      case ConflictCode => field.OtherField?
      case NotFoundCode => !field.GateIntent?
      case _ => true
  }

  function ClassifyRetirement(reply: RetireReply): (c: Classified)
    ensures c.Fault? <==> IsFault(reply)
    ensures forall d :: c == Known(d) <==> Records(d, reply)
  {
    match reply
    case Retired => Known(RetiredNow)
    case OtherFault => Fault
    case CatalogError(code, field) =>
      if code.TooSoonCode? then Known(TooSoon)
      else if code.ConflictCode? && field.GateID? then Known(Reopened)
      else if code.ConflictCode? && field.GateIntent? then Known(RaceLost)
      else if code.NotFoundCode? && field.GateIntent? then Known(Absent)
      else Fault
  }

  datatype ListReply =
    | Due(remnants: seq<Remnant>, gates: seq<Gate>, examined: nat, unreadable: nat, next: Cursor)
    | ListFailed(code: Code)

  predicate RefusedCursor(reply: ListReply) { reply.ListFailed? && reply.code.CursorCode? }

  datatype Env = Env(list: (nat, nat, Query) -> ListReply, retire: (nat, Remnant) -> RetireReply)

  datatype Call = ListCall(shard: nat, query: Query) | RetireCall(remnant: Remnant)

  type Counts = map<GateDisposition, nat>

  function Count(m: Counts, d: GateDisposition): nat { if d in m then m[d] else 0 }

  function Total(m: Counts): nat {
    Count(m, RetiredNow) + Count(m, TooSoon) + Count(m, Reopened) + Count(m, RaceLost) + Count(m, Absent)
  }

  function Bump(m: Counts, d: GateDisposition): Counts { m[d := Count(m, d) + 1] }

  lemma {:induction false} BumpCounts(m: Counts, d: GateDisposition)
    ensures Count(Bump(m, d), RetiredNow) == Count(m, RetiredNow) + if d == RetiredNow then 1 else 0
  {}

  lemma {:induction false} BumpTotal(m: Counts, d: GateDisposition)
    ensures Total(Bump(m, d)) == Total(m) + 1
  {
    assert forall e :: Count(Bump(m, d), e) == Count(m, e) + if d == e then 1 else 0;
    hide Count;
  }

  // ------------------------------------------------------- what a pass leaves

  function AnswerOf(reply: ListReply): Answer<Remnant> {
    if reply.Due? then Listed(reply.remnants, reply.next) else if RefusedCursor(reply) then Lost else Broke
  }

  /** The store as a pass with this due bound reads it. */
  function ListerOf(env: Env, due: Instant): Lister<Remnant> {
    (n: nat, shard: nat, cursor: Cursor) => AnswerOf(env.list(n, shard, Asking(cursor, due)))
  }

  /** One remnant asked about: the number of the call, and what its answer was recorded as. */
  datatype Retirement = Retirement(remnant: Remnant, call: nat, outcome: GateDisposition)

  /** How a pass ends. */
  datatype Ending = Complete | CursorLost | ListFaulted | RetireFailed(remnant: Remnant)

  function Remnants(settled: seq<Retirement>): (r: seq<Remnant>)
    ensures |r| == |settled| && forall i :: 0 <= i < |settled| ==> r[i] == settled[i].remnant
  {
    if settled == [] then [] else Remnants(settled[..|settled| - 1]) + [settled[|settled| - 1].remnant]
  }

  function CountsOf(settled: seq<Retirement>): Counts {
    if settled == [] then map[] else Bump(CountsOf(settled[..|settled| - 1]), settled[|settled| - 1].outcome)
  }

  lemma CountsMore(settled: seq<Retirement>, x: Retirement)
    ensures CountsOf(settled + [x]) == Bump(CountsOf(settled), x.outcome)
  {
    assert (settled + [x])[..|settled|] == settled;
  }

  /** One recorded disposition for every remnant dealt with. */
  lemma {:induction false} CountsTotal(settled: seq<Retirement>)
    ensures Total(CountsOf(settled)) == |settled|
  {
    if settled != [] {
      CountsTotal(settled[..|settled| - 1]);
      BumpTotal(CountsOf(settled[..|settled| - 1]), settled[|settled| - 1].outcome);
    }
  }

  /** What a series of listings adds up to. */
  datatype Sums = Sums(pages: nat, examined: nat, unreadable: nat, remnants: nat, open: nat)

  function Adds(t: Sums, reply: ListReply): Sums {
    if reply.Due?
    then Sums(t.pages + 1, t.examined + reply.examined, t.unreadable + reply.unreadable, t.remnants + |reply.remnants|,
      t.open + |reply.gates|)
    else t
  }

  function SumsOf(env: Env, due: Instant, shard: nat, listings: seq<Listing<Remnant>>): Sums {
    if listings == [] then Sums(0, 0, 0, 0, 0)
    else
      var last := listings[|listings| - 1];
      Adds(SumsOf(env, due, shard, listings[..|listings| - 1]), env.list(last.number, shard, Asking(last.from, due)))
  }

  lemma SumsMore(env: Env, due: Instant, shard: nat, listings: seq<Listing<Remnant>>, x: Listing<Remnant>)
    ensures SumsOf(env, due, shard, listings + [x]) ==
      Adds(SumsOf(env, due, shard, listings), env.list(x.number, shard, Asking(x.from, due)))
  {
    assert (listings + [x])[..|listings|] == listings;
  }

  /** What each listing adds, counter by counter. */
  lemma SumsStep(env: Env, due: Instant, shard: nat, listings: seq<Listing<Remnant>>, n: nat)
    requires n < |listings|
    ensures var before, after := SumsOf(env, due, shard, listings[..n]), SumsOf(env, due, shard, listings[..n + 1]);
      var reply := env.list(listings[n].number, shard, Asking(listings[n].from, due));
      if reply.ListFailed? then after == before
      else
        && after.pages == before.pages + 1 && after.remnants == before.remnants + |reply.remnants|
        && after.open == before.open + |reply.gates| && after.examined == before.examined + reply.examined
        && after.unreadable == before.unreadable + reply.unreadable
  {
    SumsMore(env, due, shard, listings[..n], listings[n]);
    assert listings[..n + 1] == listings[..n] + [listings[n]];
  }

  /** The remnants counted are the remnants listed. */
  lemma {:induction false} SumsListed(env: Env, due: Instant, shard: nat, listings: seq<Listing<Remnant>>)
    requires forall i :: 0 <= i < |listings| ==>
      listings[i].answer == AnswerOf(env.list(listings[i].number, shard, Asking(listings[i].from, due)))
    ensures SumsOf(env, due, shard, listings).remnants == |RowsOf(listings)|
  {
    if listings != [] { SumsListed(env, due, shard, listings[..|listings| - 1]); }
  }

  /** Each listing was a call of the pass, under its bound from the head and under none from a continuation. */
  ghost predicate Called(calls: seq<Call>, due: Instant, shard: nat, listings: seq<Listing<Remnant>>) {
    forall i :: 0 <= i < |listings| ==>
      listings[i].number < |calls| && calls[listings[i].number] == ListCall(shard, Asking(listings[i].from, due))
  }

  /** A remnant is recorded as the store's own answer to its retirement is classified. */
  ghost predicate Justified(env: Env, calls: seq<Call>, x: Retirement) {
    && x.call < |calls| && calls[x.call] == RetireCall(x.remnant)
    && Records(x.outcome, env.retire(x.call, x.remnant))
  }

  ghost predicate AllJustified(env: Env, calls: seq<Call>, settled: seq<Retirement>) {
    forall i :: 0 <= i < |settled| ==> Justified(env, calls, settled[i])
  }

  lemma JustifiedStill(env: Env, calls: seq<Call>, settled: seq<Retirement>, more: seq<Call>)
    requires AllJustified(env, calls, settled) && calls <= more
    ensures AllJustified(env, more, settled)
  {
    forall i | 0 <= i < |settled| ensures Justified(env, more, settled[i]) { assert Justified(env, calls, settled[i]); }
  }

  /** The retirement that ended a pass was answered with something it has no word for. */
  ghost predicate Faulted(env: Env, calls: seq<Call>, r: Remnant) {
    exists n :: 0 <= n < |calls| && calls[n] == RetireCall(r) && IsFault(env.retire(n, r))
  }

  /** The retirements among the calls, in order. */
  ghost function Asked(calls: seq<Call>): seq<Remnant> {
    if calls == [] then []
    else
      var front, last := Asked(calls[..|calls| - 1]), calls[|calls| - 1];
      if last.RetireCall? then front + [last.remnant] else front
  }

  lemma AskedMore(calls: seq<Call>, call: Call)
    ensures Asked(calls + [call]) == if call.RetireCall? then Asked(calls) + [call.remnant] else Asked(calls)
  {
    assert (calls + [call])[..|calls|] == calls;
  }

  /** Each remnant recorded was asked about once, in order, and so was the one that failed; nothing else was. */
  ghost predicate OnlyListed(calls: seq<Call>, settled: seq<Retirement>, failed: seq<Remnant>) {
    Asked(calls) == Remnants(settled) + failed
  }

  lemma {:induction false} OneMoreRetired(env: Env, calls: seq<Call>, settled: seq<Retirement>, x: Retirement)
    requires AllJustified(env, calls, settled) && Justified(env, calls, x) && OnlyListed(calls, settled, [x.remnant])
    ensures AllJustified(env, calls, settled + [x]) && OnlyListed(calls, settled + [x], [])
    ensures Remnants(settled + [x]) == Remnants(settled) + [x.remnant]
  {
    hide Justified, Asked;
    assert Remnants(settled + [x]) == Remnants(settled) + [x.remnant] == Remnants(settled + [x]) + [];
  }

  /** What a pass has done, as values. */
  datatype Account = Account(
    env: Env, now: Instant, maxPages: nat, trail: Trail<Remnant>, calls: seq<Call>, settled: seq<Retirement>)

  function EndOf(ending: Ending): End {
    match ending
    case Complete => Whole
    case CursorLost => Forgotten
    case ListFaulted => Unlisted
    case RetireFailed(_) => Cut
  }

  function Failed(ending: Ending): seq<Remnant> { if ending.RetireFailed? then [ending.remnant] else [] }

  /** A whole pass: what was listed, what each remnant came to, and why it ended where it did. */
  ghost predicate Accounts(a: Account, ending: Ending, kept: Cursor) {
    && a.trail.list == ListerOf(a.env, a.now) && a.trail.due == a.now
    && Called(a.calls, a.now, a.trail.shard, a.trail.listings)
    && Toured(a.trail, Remnants(a.settled), a.maxPages, EndOf(ending), kept)
    && AllJustified(a.env, a.calls, a.settled) && OnlyListed(a.calls, a.settled, Failed(ending))
    && (ending.RetireFailed? ==>
          ending.remnant == RowsOf(a.trail.listings)[|a.settled|] && Faulted(a.env, a.calls, ending.remnant))
  }

  /** Why a pass stopped, and the position it keeps, in the words of the store's last answer. */
  lemma {:induction false} EndedBy(a: Account, ending: Ending, kept: Cursor)
    requires Accounts(a, ending, kept)
    ensures a.trail.listings != []
    ensures var x := a.trail.listings[|a.trail.listings| - 1];
      var reply := a.env.list(x.number, a.trail.shard, Asking(x.from, a.now));
      && (ending.CursorLost? <==> reply == ListFailed(CursorCode))
      && (ending.ListFaulted? <==> reply.ListFailed? && reply.code != CursorCode)
      && match ending
         case Complete => reply.Due? && kept == reply.next && (kept != HEAD ==> |a.trail.listings| == a.maxPages)
         case CursorLost => kept == HEAD
         case ListFaulted => kept == x.from
         case RetireFailed(r) => reply.Due? && r in reply.remnants && kept == x.from
  {
    EndedAs(a.trail, Remnants(a.settled), a.maxPages, EndOf(ending), kept);
    if ending.RetireFailed? { CutOnLast(a.trail, Remnants(a.settled), a.maxPages, kept); }
    hide RowsOf, Called, AllJustified, OnlyListed, Faulted, Toured;
  }

  /**
   The counters account for every remnant listed, except exactly when a retirement's
   answer had no classification: then that remnant and those after it on its page have
   no disposition.
   */
  lemma {:induction false} EveryRemnantCounted(a: Account, ending: Ending, kept: Cursor)
    requires Accounts(a, ending, kept)
    ensures var listed := SumsOf(a.env, a.now, a.trail.shard, a.trail.listings).remnants;
      && Total(CountsOf(a.settled)) <= listed && (Total(CountsOf(a.settled)) == listed <==> !ending.RetireFailed?)
  {
    AnsweredSo(a, ending, kept);
    SumsListed(a.env, a.now, a.trail.shard, a.trail.listings);
    CountsTotal(a.settled);
    EndedAs(a.trail, Remnants(a.settled), a.maxPages, EndOf(ending), kept);
    hide AllJustified, OnlyListed, Traced, RowsOf, Total, Called, Faulted;
  }

  lemma {:induction false} AnsweredSo(a: Account, ending: Ending, kept: Cursor)
    requires Accounts(a, ending, kept)
    ensures forall i :: 0 <= i < |a.trail.listings| ==>
      var x := a.trail.listings[i];
      x.answer == AnswerOf(a.env.list(x.number, a.trail.shard, Asking(x.from, a.now)))
  {
    forall i | 0 <= i < |a.trail.listings|
      ensures var x := a.trail.listings[i];
        x.answer == AnswerOf(a.env.list(x.number, a.trail.shard, Asking(x.from, a.now)))
    {
      assert TracedAt(a.trail, i);
      hide AllJustified, OnlyListed, RowsOf, Called, Faulted, AnswerOf, EndsAt;
    }
  }

  // ------------------------------------------------------------------ one pass

  /** GateSweepResult, updated in place. */
  class Pass {
    const env: Env
    const now: Instant
    const maxPages: nat
    var pages: nat
    var examined: nat
    var unreadable: nat
    var remnants: nat
    var openPastDeadline: nat
    var retired: nat
    var queries: nat
    var exhausted: bool
    var truncated: bool
    var dispositions: Counts
    ghost var calls: seq<Call>
    ghost var listings: seq<Listing<Remnant>>
    ghost var settled: seq<Retirement>
    ghost var dealt: seq<Page<Remnant>>

    constructor (env: Env, now: Instant, maxPages: nat)
      ensures this.env == env && this.now == now && this.maxPages == maxPages && Valid([])
      ensures (forall shard :: Summed(shard)) && calls == [] && listings == [] && settled == [] && dealt == [] &&
        !exhausted && !truncated
    {
      this.env, this.now, this.maxPages := env, now, maxPages;
      pages, examined, unreadable, remnants, openPastDeadline, retired, queries := 0, 0, 0, 0, 0, 0, 0;
      exhausted, truncated, dispositions, calls, listings, settled, dealt := false, false, map[], [], [], [], [];
    }

    ghost predicate Valid(failed: seq<Remnant>)
      reads this`queries, this`calls, this`settled, this`retired, this`dispositions
    {
      && queries == |calls| && dispositions == CountsOf(settled) && retired == Count(dispositions, RetiredNow)
      && AllJustified(env, calls, settled) && OnlyListed(calls, settled, failed)
    }

    ghost predicate Summed(shard: nat)
      reads this`pages, this`examined, this`unreadable, this`remnants, this`openPastDeadline, this`listings
    {
      SumsOf(env, now, shard, listings) == Sums(pages, examined, unreadable, remnants, openPastDeadline)
    }

    ghost function TrailOf(shard: nat, start: Cursor): Trail<Remnant>
      reads this`listings, this`dealt
    {
      Trail(ListerOf(env, now), now, shard, start, listings, dealt)
    }

    ghost function Abs(shard: nat, start: Cursor): Account
      reads this
    {
      Account(env, now, maxPages, TrailOf(shard, start), calls, settled)
    }

    /** What stands between two pages: the trail, its calls and its sums, with every remnant of it dealt with. */
    ghost predicate Going(shard: nat, start: Cursor)
      reads this
    {
      && Valid([]) && Summed(shard) && Called(calls, now, shard, listings)
      && Midway(TrailOf(shard, start), Remnants(settled))
    }

    /** retire: the store validates; this classifies, and ends the pass on an answer it has no word for. */
    method Retire(remnant: Remnant) returns (ending: Ending)
      requires Valid([])
      modifies this`queries, this`calls, this`dispositions, this`retired, this`settled
      ensures ending == Complete || ending == RetireFailed(remnant)
      ensures Valid(Failed(ending)) && calls == old(calls) + [RetireCall(remnant)]
      ensures Remnants(settled) == old(Remnants(settled)) + if ending.Complete? then [remnant] else []
      ensures ending.RetireFailed? ==> Faulted(env, calls, remnant)
      ensures ending.Complete? <==> ClassifyRetirement(env.retire(old(queries), remnant)).Known?
    {
      var number := queries;
      var reply := env.retire(number, remnant);
      AskedMore(calls, RetireCall(remnant));
      assert Remnants(settled) + [] == Remnants(settled);
      queries, calls := queries + 1, calls + [RetireCall(remnant)];
      assert calls[number] == RetireCall(remnant);
      JustifiedStill(env, old(calls), settled, calls);
      match ClassifyRetirement(reply) {
        case Fault => ending := RetireFailed(remnant);
        case Known(d) =>
          Record(Retirement(remnant, number, d), d);
          ending := Complete;
      }
    }

    method Record(ghost x: Retirement, d: GateDisposition)
      requires x.outcome == d && Justified(env, calls, x) && queries == |calls|
      requires dispositions == CountsOf(settled) && retired == Count(dispositions, RetiredNow)
      requires AllJustified(env, calls, settled) && OnlyListed(calls, settled, [x.remnant])
      modifies this`dispositions, this`retired, this`settled
      ensures Valid([]) && Remnants(settled) == old(Remnants(settled)) + [x.remnant]
    {
      CountsMore(settled, x);
      OneMoreRetired(env, calls, settled, x);
      BumpCounts(dispositions, d);
      hide AllJustified, OnlyListed, CountsOf, Bump, Count, Remnants;
      dispositions := Bump(dispositions, d);
      if d == RetiredNow { retired := retired + 1; }
      settled := settled + [x];
    }

    method RetireAll(rows: seq<Remnant>) returns (ending: Ending)
      requires Valid([])
      modifies this`queries, this`calls, this`dispositions, this`retired, this`settled
      ensures Valid(Failed(ending)) && old(calls) <= calls
      ensures ending.Complete? ==> Remnants(settled) == old(Remnants(settled)) + rows
      ensures !ending.Complete? ==>
        && |old(settled)| <= |settled| < |old(settled)| + |rows|
        && Remnants(settled) == old(Remnants(settled)) + rows[..|settled| - |old(settled)|]
        && ending == RetireFailed(rows[|settled| - |old(settled)|]) && Faulted(env, calls, ending.remnant)
    {
      hide Valid, Faulted;
      ghost var before := Remnants(settled);
      for i := 0 to |rows|
        invariant Valid([]) && old(calls) <= calls && Remnants(settled) == before + rows[..i]
      {
        ending := Retire(rows[i]);
        if !ending.Complete? {
          assert before + rows[..i] + [] == before + rows[..i];
          return;
        }
        assert rows[..i + 1] == rows[..i] + [rows[i]];
      }
      assert rows[..|rows|] == rows;
      ending := Complete;
    }

    /** One listing, asked of the store. */
    method Fetch(shard: nat, cursor: Cursor) returns (reply: ListReply)
      requires Valid([])
      modifies this`queries, this`calls
      ensures Valid([]) && calls == old(calls) + [ListCall(shard, Asking(cursor, now))] && old(queries) == |old(calls)|
      ensures reply == env.list(old(queries), shard, Asking(cursor, now))
    {
      var query := Query(cursor, None);
      if cursor == HEAD { query := query.(bound := Some(now)); }
      reply := env.list(queries, shard, query);
      AskedMore(calls, ListCall(shard, query));
      queries, calls := queries + 1, calls + [ListCall(shard, query)];
      JustifiedStill(env, old(calls), settled, calls);
    }

    /** And counted: a gate the record still shows open is counted here, and touched nowhere. */
    method Enlist(shard: nat, ghost x: Listing<Remnant>, reply: ListReply)
      requires Summed(shard) && reply == env.list(x.number, shard, Asking(x.from, now))
      modifies this`listings, this`pages, this`examined, this`unreadable, this`remnants, this`openPastDeadline
      ensures Summed(shard) && listings == old(listings) + [x]
    {
      SumsMore(env, now, shard, listings, x);
      hide SumsOf;
      listings := listings + [x];
      match reply {
        case Due(rows, gates, seen, bad, _) =>
          pages, examined, unreadable := pages + 1, examined + seen, unreadable + bad;
          remnants, openPastDeadline := remnants + |rows|, openPastDeadline + |gates|;
        case _ =>
      }
    }

    lemma {:induction false} Recorded(failed: seq<Remnant>)
      requires Valid(failed)
      ensures AllJustified(env, calls, settled) && OnlyListed(calls, settled, failed)
    {}

    /** The remnants of the page just listed. */
    method RetirePage(ghost shard: nat, ghost start: Cursor, ghost x: Listing<Remnant>, rows: seq<Remnant>)
      returns (ending: Ending)
      requires Valid([]) && Summed(shard) && Called(calls, now, shard, listings)
      requires Within(TrailOf(shard, start), x) && x.answer.Listed? && x.answer.rows == rows && |listings| <= maxPages
      requires RowsOf(listings) == Remnants(settled) + rows && RowsOf(listings[..|dealt|]) == Remnants(settled)
      modifies this
      ensures Valid(Failed(ending)) && Summed(shard) && truncated == old(truncated) && exhausted == old(exhausted)
      ensures listings == old(listings)
      ensures ending.Complete? ==> Going(shard, start) && NextFrom(TrailOf(shard, start)) == x.answer.next
      ensures !ending.Complete? ==> Accounts(Abs(shard, start), ending, x.from)
    {
      hide Valid, Summed, Faulted, Midway, Within, Toured, RowsOf, AllJustified, OnlyListed, Remnants;
      ending := RetireAll(rows);
      Recorded(Failed(ending));
      if !ending.Complete? {
        PageFailed(TrailOf(shard, start), Remnants(settled), maxPages, x, Cut, x.from);
      } else {
        PageDealt(TrailOf(shard, start), Remnants(settled), x);
        ghost var t := TrailOf(shard, start);
        dealt := dealt + [DealtPage(now, x)];
        assert TrailOf(shard, start) == t.(dealt := t.dealt + [DealtPage(now, x)]);
      }
    }

    /** One page: counted, then its remnants retired, then the position moved. */
    method OnePage(shard: nat, ghost start: Cursor, cursor: Cursor) returns (ending: Ending, following: Cursor)
      requires Going(shard, start) && cursor == NextFrom(TrailOf(shard, start))
      requires (listings != [] ==> cursor != HEAD) && |listings| < maxPages
      modifies this
      ensures Valid(Failed(ending)) && Summed(shard) && truncated == old(truncated) && exhausted == old(exhausted)
      ensures |listings| == |old(listings)| + 1
      ensures ending.Complete? ==> Going(shard, start) && following == NextFrom(TrailOf(shard, start))
      ensures !ending.Complete? ==> Accounts(Abs(shard, start), ending, following)
    {
      hide Valid, Summed, Faulted, Midway, Within, Toured, RowsOf, AllJustified, OnlyListed, Remnants, NextFrom;
      ghost var t := TrailOf(shard, start);
      var reply := Fetch(shard, cursor);
      ghost var x := Listing(|old(calls)|, cursor, AnswerOf(reply));
      ListedNext(t, Remnants(settled), x);
      Enlist(shard, x, reply);
      assert TrailOf(shard, start) == t.(listings := t.listings + [x]);
      Recorded([]);
      match reply {
        case ListFailed(_) =>
          if RefusedCursor(reply) {
            PageFailed(TrailOf(shard, start), Remnants(settled), maxPages, x, Forgotten, HEAD);
            return CursorLost, HEAD;
          }
          PageFailed(TrailOf(shard, start), Remnants(settled), maxPages, x, Unlisted, cursor);
          return ListFaulted, cursor;
        case Due(rows, _, _, _, next) =>
          ending := RetirePage(shard, start, x, rows);
          following := if ending.Complete? then next else cursor;
      }
    }

    lemma {:induction false} Opening(shard: nat, start: Cursor)
      requires Valid([]) && Summed(shard) && listings == [] && settled == [] && dealt == []
      ensures Going(shard, start) && NextFrom(TrailOf(shard, start)) == start
    {
      NothingYet(ListerOf(env, now), now, shard, start);
    }

    lemma {:induction false} AllDealt(shard: nat, start: Cursor)
      requires Going(shard, start) && listings != [] && |listings| <= maxPages
      requires NextFrom(TrailOf(shard, start)) == HEAD || |listings| == maxPages
      ensures Accounts(Abs(shard, start), Complete, NextFrom(TrailOf(shard, start)))
      ensures Valid([]) && Summed(shard)
    {
      hide Midway, Toured, AllJustified, OnlyListed, Summed;
      Finished(TrailOf(shard, start), Remnants(settled), maxPages);
    }

    /** page: at most maxPages pages, and the position to keep. */
    method Page(shard: nat, start: Cursor) returns (ending: Ending, next: Cursor)
      requires Valid([]) && Summed(shard) && maxPages >= 1
      requires listings == [] && settled == [] && dealt == [] && !truncated && !exhausted
      modifies this
      ensures Valid(Failed(ending)) && Summed(shard) && Accounts(Abs(shard, start), ending, next)
      ensures truncated == (ending.Complete? && next != HEAD) && exhausted == (ending.Complete? && next == HEAD)
    {
      Opening(shard, start);
      hide Valid, Summed, Going, Accounts, NextFrom;
      next := start;
      for i := 0 to maxPages
        invariant Going(shard, start) && next == NextFrom(TrailOf(shard, start)) && |listings| == i
        invariant !truncated && !exhausted && (i > 0 ==> next != HEAD)
      {
        ending, next := OnePage(shard, start, next);
        if !ending.Complete? { return; }
        if next == HEAD {
          AllDealt(shard, start);
          End(true, shard, start, next);
          return;
        }
      }
      AllDealt(shard, start);
      End(false, shard, start, next);
      ending := Complete;
    }

    method End(reachedEnd: bool, ghost shard: nat, ghost start: Cursor, ghost next: Cursor)
      requires Valid([]) && Summed(shard) && Accounts(Abs(shard, start), Complete, next)
      modifies this`exhausted, this`truncated
      ensures Valid([]) && Summed(shard) && Accounts(Abs(shard, start), Complete, next)
      ensures exhausted == (old(exhausted) || reachedEnd) && truncated == (old(truncated) || !reachedEnd)
    {
      hide Valid, Summed, Accounts;
      ghost var a := Abs(shard, start);
      if reachedEnd { exhausted := true; } else { truncated := true; }
      assert Abs(shard, start) == a;
    }
  }

  /** Every remnant listed has its disposition, except exactly where the store failed one. */
  ghost predicate Accounted(pass: Pass, ending: Ending)
    reads pass
  {
    && Total(pass.dispositions) <= pass.remnants
    && (Total(pass.dispositions) == pass.remnants <==> !ending.RetireFailed?)
  }

  /** GateSweeper.Sweep, after authorization. */
  method Sweep(rotor: GateRotor, shards: int, env: Env, now: Instant, maxPages: nat)
    returns (pass: Pass?, ending: Ending, kept: Cursor)
    requires maxPages >= 1
    modifies rotor
    ensures shards < MIN_CONTROL_SHARDS ==> pass == null && rotor.Abs() == old(rotor.Abs())
    ensures shards >= MIN_CONTROL_SHARDS ==>
      && pass != null && fresh(pass) && pass.env == env && pass.now == now && pass.maxPages == maxPages
      && pass.Valid(Failed(ending)) && Accounted(pass, ending)
      && var choice := Begin(old(rotor.Abs()), shards);
      && pass.Summed(choice.shard) && Accounts(pass.Abs(choice.shard, choice.cursor), ending, kept)
      && pass.truncated == (ending.Complete? && kept != HEAD) && pass.exhausted == (ending.Complete? && kept == HEAD)
      && rotor.Abs() == AfterPass(old(rotor.Abs()), Rotor.Pass(shards, kept))
  {
    hide Accounts;
    ending, kept := Complete, HEAD;
    var choice := rotor.BeginPass(shards);
    if choice.Refused? { return null, ending, kept; }
    pass := new Pass(env, now, maxPages);
    ending, kept := pass.Page(choice.shard, choice.cursor);
    EveryRemnantCounted(pass.Abs(choice.shard, choice.cursor), ending, kept);
    rotor.Commit(choice.shard, kept);
  }

  // ---------------------------------------------------------- runs of passes

  /** One pass of a sweeper: the count it saw and, unless that refused it, what it did. */
  datatype Done = Done(shards: int, account: Account, ending: Ending, kept: Cursor)

  function TripOf(d: Done): Trip<Remnant> {
    Trip(d.shards, d.account.trail, Remnants(d.account.settled), d.account.maxPages, EndOf(d.ending), d.kept)
  }

  function Trips(run: seq<Done>): (r: seq<Trip<Remnant>>)
    ensures |r| == |run| && forall i :: 0 <= i < |run| ==> r[i] == TripOf(run[i])
  {
    if run == [] then [] else Trips(run[..|run| - 1]) + [TripOf(run[|run| - 1])]
  }

  /** Each pass that was not refused has its account. */
  ghost predicate Told(run: seq<Done>) {
    forall j :: 0 <= j < |run| && run[j].shards >= MIN_CONTROL_SHARDS ==>
      Accounts(run[j].account, run[j].ending, run[j].kept)
  }

  /** Each pass is one that Sweep may have made from where the rotor then stood. */
  ghost predicate Swept(start: Position, run: seq<Done>) { Made(start, Trips(run)) && Told(run) }

  /** Pass j put a remnant of this rank to the store for retirement, and recorded its answer. */
  ghost predicate RetiredAt(run: seq<Done>, rank: Remnant -> Rank, r: Rank, j: nat, i: nat) {
    && j < |run| && i < |run[j].account.settled| && rank(run[j].account.settled[i].remnant) == r
    && Justified(run[j].account.env, run[j].account.calls, run[j].account.settled[i])
  }

  lemma {:induction false} DoneRetired(run: seq<Done>, rank: Remnant -> Rank, r: Rank, j: nat, i: nat)
    requires j < |run| && Accounts(run[j].account, run[j].ending, run[j].kept)
    requires i < |TripOf(run[j]).done| && rank(TripOf(run[j]).done[i]) == r
    ensures RetiredAt(run, rank, r, j, i)
  {
    hide Toured, Justified, OnlyListed;
  }

  /**
   No remnant is skipped. Over any run of passes, in a stretch that began at the
   shard's head and was neither refused nor cut off by a shrinking count, faults and
   all: every remnant that stays in the view until it is listed, and that the kept
   position is past, has been put to the store for retirement and its answer recorded.
   */
  lemma {:induction false} EveryRemnantRetired(start: Position, run: seq<Done>, shard: nat, a: nat, b: nat,
                                               o: Order<Remnant>, views: seq<View>, r: Rank)
    returns (j: nat, i: nat)
    requires a <= b <= |run| && Swept(start, run) && Unbroken(start, Tours(Trips(run)), shard, a, b)
    requires |views| == |PagesOf(start, Tours(Trips(run)), shard, a, b)|
    requires OneCycle(o.meaning, Reads(o, PagesOf(start, Tours(Trips(run)), shard, a, b), views))
    requires Stays(Reads(o, PagesOf(start, Tours(Trips(run)), shard, a, b), views), r)
    requires r <= Reached(o.meaning, Reads(o, PagesOf(start, Tours(Trips(run)), shard, a, b), views))
    ensures a <= j < b && Over(start, Tours(Trips(run)), j, shard) && RetiredAt(run, o.rank, r, j, i)
  {
    hide At, Passes, Unbroken, PagesOf, OneCycle, Stays, Reached, Made, Accounts;
    j, i := EveryRowDone(start, Trips(run), shard, a, b, o, views, r);
    OverRan(start, Trips(run), shard, j);
    DoneRetired(run, o.rank, r, j, i);
  }

  /** A pass from a up to c asked about a remnant of this rank. */
  ghost predicate RetiredBetween(run: seq<Done>, a: nat, c: nat, rank: Remnant -> Rank, r: Rank) {
    exists j: nat, i: nat :: a <= j < c && RetiredAt(run, rank, r, j, i)
  }

  lemma {:induction false} DoneThenRetired(start: Position, run: seq<Done>, shard: nat, a: nat, c: nat,
                                           rank: Remnant -> Rank, r: Rank)
    requires a <= c <= |run| && Swept(start, run) && DoneBy(start, Trips(run), shard, a, c, rank, r)
    ensures RetiredBetween(run, a, c, rank, r)
  {
    hide Made, Over, Accounts, RetiredAt;
    var j: nat, i: nat :| DoneAt(start, Trips(run), shard, a, c, rank, r, j, i);
    OverRan(start, Trips(run), shard, j);
    DoneRetired(run, rank, r, j, i);
  }

  /**
   No remnant waits for ever. Of whole passes at a constant count, over a store that
   fills its pages, one is back at the shard's head within as many rounds as the
   remnants in view can fill and one more; by then every remnant that was due when the
   stretch began, and that stays in the view until it is listed, was asked about.
   */
  lemma {:induction false} EveryRemnantRetiredInTime(start: Position, run: seq<Done>, shard: nat, a: nat, b: nat,
                                                     n: nat, maxPages: nat, limit: nat, o: Order<Remnant>,
                                                     views: seq<View>, all: set<Rank>)
    returns (c: nat)
    requires Swept(start, run) && LongEnough(start, Trips(run), shard, a, b, n, maxPages, limit, o, views, all)
    ensures a < c <= b && FirstBack(start, Tours(Trips(run)), shard, a, c)
    ensures forall r :: DueInView(o, PagesOf(start, Tours(Trips(run)), shard, a, b), views, r) ==>
      RetiredBetween(run, a, c, o.rank, r)
  {
    hide Made, LongEnough, FirstBack, DueInView, PagesOf, Told, DoneBy, RetiredBetween, Over;
    LongRun(start, Trips(run), shard, a, b, n, maxPages, limit, o, views, all);
    c := EveryRowInTime(start, Trips(run), shard, a, b, n, maxPages, limit, o, views, all);
    forall r | DueInView(o, PagesOf(start, Tours(Trips(run)), shard, a, b), views, r)
      ensures RetiredBetween(run, a, c, o.rank, r)
    {
      DoneThenRetired(start, run, shard, a, c, o.rank, r);
    }
  }

  /** One turn of the sweeper: the count and the clock it reads, and what the store answers it. */
  datatype Turn = Turn(shards: int, env: Env, now: Instant)

  /** The pass is the one this turn made. */
  ghost predicate MadeIn(turn: Turn, maxPages: nat, d: Done) {
    && d.shards == turn.shards && d.account.env == turn.env && d.account.now == turn.now
    && d.account.maxPages == maxPages && (d.shards >= MIN_CONTROL_SHARDS ==> Accounts(d.account, d.ending, d.kept))
  }

  function Untouched(turn: Turn, maxPages: nat): Account {
    Account(turn.env, turn.now, maxPages, Trail(ListerOf(turn.env, turn.now), turn.now, 0, HEAD, [], []), [], [])
  }

  lemma {:induction false} PassBegins(at: Position, d: Done)
    requires d.shards >= MIN_CONTROL_SHARDS ==>
      && Accounts(d.account, d.ending, d.kept) && d.account.trail.shard == Begin(at, d.shards).shard
      && d.account.trail.start == Begin(at, d.shards).cursor
    ensures Begins(at, TripOf(d))
  {
    hide Toured;
  }

  /** runOnce: whatever the pass ends in, the next one is made from where it left the rotor. */
  method OneTurn(rotor: GateRotor, turn: Turn, maxPages: nat) returns (ghost d: Done)
    requires maxPages >= 1
    modifies rotor
    ensures MadeIn(turn, maxPages, d) && Begins(old(rotor.Abs()), TripOf(d))
    ensures rotor.Abs() == AfterPass(old(rotor.Abs()), Rotor.Pass(d.shards, d.kept))
  {
    hide Accounts, Accounted, Begins, Begin, AfterPass, TripOf;
    ghost var at := rotor.Abs();
    var pass, ending, kept := Sweep(rotor, turn.shards, turn.env, turn.now, maxPages);
    d := Done(turn.shards, Untouched(turn, maxPages), ending, kept);
    if pass != null {
      ghost var choice := Begin(at, turn.shards);
      ChosenOne(at, turn.shards);
      d := d.(account := pass.Abs(choice.shard, choice.cursor));
    } else {
      RefusedOne(at, turn.shards, kept);
    }
    PassBegins(at, d);
  }

  lemma {:induction false} RunOfOneMore(start: Position, run: seq<Done>, at: Position, d: Done)
    requires RunsTo(start, Trips(run), at) && Begins(at, TripOf(d))
    ensures RunsTo(start, Trips(run + [d]), AfterPass(at, Rotor.Pass(d.shards, d.kept)))
  {
    hide RunsTo, Begins, AfterPass;
    assert Trips(run + [d]) == Trips(run) + [TripOf(d)];
    RunMore(start, Trips(run), at, TripOf(d));
  }

  /** runSweep: turn after turn, whatever each pass ends in. */
  method SweepOn(rotor: GateRotor, turns: seq<Turn>, maxPages: nat) returns (ghost run: seq<Done>)
    requires maxPages >= 1
    modifies rotor
    ensures Swept(old(rotor.Abs()), run) && RunsTo(old(rotor.Abs()), Trips(run), rotor.Abs())
    ensures |run| == |turns| && forall i :: 0 <= i < |turns| ==> MadeIn(turns[i], maxPages, run[i])
  {
    hide RunsTo, AfterPass, Begins, TripOf, Accounts;
    run := [];
    ghost var start := rotor.Abs();
    RunBegins<Remnant>(start);
    for i := 0 to |turns|
      invariant RunsTo(start, Trips(run), rotor.Abs()) && |run| == i
      invariant forall j :: 0 <= j < i ==> MadeIn(turns[j], maxPages, run[j])
    {
      ghost var at := rotor.Abs();
      ghost var d := OneTurn(rotor, turns[i], maxPages);
      RunOfOneMore(start, run, at, d);
      run := run + [d];
    }
    RunMade(start, Trips(run), rotor.Abs());
  }
}
