/**
 What the placement sweep misses, exactly, and what any run of it does not miss. A
 pass groups rows over several pages before it places any of them, yet keeps its
 position page by page: so a pass that fails late has moved past rows it never handed
 over, unlike the sweeps that settle a page before they read the next.
 */
module PendingRuns {
  import opened Settlement
  import opened Rotor
  import opened Paging
  import opened SweepRuns
  import opened Trails
  import opened PendingWork
  import opened PendingSweep

  /** What one pass reads from. */
  type Reader = PendingSweep.Lister

  // ------------------------------------------------------- the pages of a pass

  /** The position page k is read from, if every page before it led on. */
  function CursorAt(list: Reader, shard: nat, start: Cursor, k: nat): Cursor {
    if k == 0 then start
    else
      var reply := list(k - 1, shard, CursorAt(list, shard, start, k - 1));
      if reply.Rows? then reply.next else HEAD
  }

  /** The store's answer to the read of page k. */
  function ReplyAt(list: Reader, shard: nat, start: Cursor, k: nat): ListReply {
    list(k, shard, CursorAt(list, shard, start, k))
  }

  /** Every page before page k led on to another, so a pass whose bound allows it reads page k. */
  ghost predicate Reaches(list: Reader, shard: nat, start: Cursor, k: nat) {
    forall i :: 0 <= i < k ==> LeadsOn(ReplyAt(list, shard, start, i))
  }

  predicate LeadsOn(reply: ListReply) { reply.Rows? && reply.next != HEAD }

  /** Page k is read and lists the row. */
  ghost predicate Lists(list: Reader, shard: nat, start: Cursor, k: nat, row: Row) {
    && Reaches(list, shard, start, k)
    && var reply := ReplyAt(list, shard, start, k); reply.Rows? && row in reply.commands
  }

  // ------------------------------------------------------- a pass as a trail

  function AnswerOf(reply: ListReply): Answer<Row> {
    match reply
    case Rows(rows, _, _, next) => Listed(rows, next)
    case CursorRefused => Lost
    case ListFault => Broke
  }

  function ListerOf(list: Reader): Trails.Lister<Row> { (n: nat, shard: nat, c: Cursor) => AnswerOf(list(n, shard, c)) }

  /** The listings of a bounded read. */
  function Listings(list: Reader, shard: nat, cursor: Cursor, n: nat, budget: nat): seq<Listing<Row>>
    decreases budget
  {
    if budget == 0 then []
    else
      var reply := list(n, shard, cursor);
      var first := [Listing(n, cursor, AnswerOf(reply))];
      if LeadsOn(reply) then first + Listings(list, shard, reply.next, n + 1, budget - 1) else first
  }

  /** The pages among them. */
  function PagesAmong<T>(due: Instant, listings: seq<Listing<T>>): (r: seq<Page<T>>)
    ensures |r| <= |listings|
  {
    if listings == [] || !listings[0].answer.Listed? then []
    else [DealtPage(due, listings[0])] + PagesAmong(due, listings[1..])
  }

  function EndOf(w: Walked): End { if w.ok then Whole else if w.refused then Forgotten else Unlisted }

  function TrailOf(list: Reader, due: Instant, shard: nat, cursor: Cursor, n: nat, budget: nat): Trail<Row> {
    var listings := Listings(list, shard, cursor, n, budget);
    Trail(ListerOf(list), due, shard, cursor, listings, PagesAmong(due, listings))
  }

  /** One listing before the rest. */
  function Before<T>(x: Listing<T>, t: Trail<T>): Trail<T>
    requires x.answer.Listed?
  {
    t.(start := x.from, listings := [x] + t.listings, dealt := [DealtPage(t.due, x)] + t.dealt)
  }

  lemma {:induction false} RowsBefore<T>(x: Listing<T>, rest: seq<Listing<T>>)
    requires x.answer.Listed?
    ensures RowsOf([x] + rest) == x.answer.rows + RowsOf(rest)
  {
    if rest == [] {
      assert [x] + rest == [x] && RowsOf([x]) == x.answer.rows;
    } else {
      var front := rest[..|rest| - 1];
      RowsBefore(x, front);
      assert ([x] + rest)[..|rest|] == [x] + front;
    }
  }

  lemma {:induction false} TracedBefore<T>(x: Listing<T>, t: Trail<T>)
    requires Traced(t) && x.answer.Listed? && x.answer.next == t.start && t.start != HEAD
    requires x.answer == t.list(x.number, t.shard, x.from)
    ensures Traced(Before(x, t))
  {
    var u := Before(x, t);
    forall i | 0 <= i < |u.listings|
      ensures TracedAt(u, i)
    {
      if i > 0 {
        assert TracedAt(t, i - 1) && u.listings[i] == t.listings[i - 1];
      }
    }
    forall i | 0 <= i < |u.dealt|
      ensures u.listings[i].answer.Listed? && u.dealt[i] == DealtPage(u.due, u.listings[i])
    {
      if i > 0 { assert u.listings[i] == t.listings[i - 1] && u.dealt[i] == t.dealt[i - 1]; }
    }
  }

  lemma {:induction false} SameEnd<T>(x: Listing<T>, t: Trail<T>, done: seq<T>, maxPages: nat, end: End, kept: Cursor)
    requires x.answer.Listed? && t.listings != [] && EndsAt(t, done, maxPages, end, kept) && !end.Cut?
    ensures EndsAt(Before(x, t), x.answer.rows + done, maxPages + 1, end, kept)
  {
    RowsBefore(x, t.listings);
    hide RowsOf, DealtPage;
    assert Before(x, t).listings[|t.listings|] == t.listings[|t.listings| - 1];
  }

  lemma {:induction false} TouredBefore<T>(x: Listing<T>, t: Trail<T>, done: seq<T>, maxPages: nat, end: End,
                                           kept: Cursor)
    requires Toured(t, done, maxPages, end, kept) && !end.Cut? && x.answer.Listed? && x.answer.next == t.start &&
      t.start != HEAD
    requires x.answer == t.list(x.number, t.shard, x.from)
    ensures Toured(Before(x, t), x.answer.rows + done, maxPages + 1, end, kept)
  {
    TracedBefore(x, t);
    SameEnd(x, t, done, maxPages, end, kept);
    RowsBefore(x, t.listings);
    RowsBefore(x, t.listings[..|t.dealt|]);
    assert |t.dealt| <= |t.listings|;
    hide RowsOf, Traced, EndsAt, DealtPage;
    var u := Before(x, t);
    assert u.listings[..|u.dealt|] == [x] + t.listings[..|t.dealt|];
  }

  lemma {:induction false} OnePageTrail(list: Reader, due: Instant, shard: nat, cursor: Cursor, n: nat, budget: nat)
    requires budget >= 1 && (budget == 1 || !LeadsOn(list(n, shard, cursor)))
    ensures var w := Walk(list, shard, cursor, n, budget);
      Toured(TrailOf(list, due, shard, cursor, n, budget), w.rows, budget, EndOf(w), w.next)
  {
    var t := TrailOf(list, due, shard, cursor, n, budget);
    var x := Listing(n, cursor, AnswerOf(list(n, shard, cursor)));
    assert Listings(list, shard, cursor, n, budget) == [x];
    assert t.listings == [x] && [x][..0] == [] && [x][..1] == [x] && [x][1..] == [];
    RowsMore([], x);
    assert [] + [x] == [x];
    var w := Walk(list, shard, cursor, n, budget);
    if x.answer.Listed? {
      var rest := Walk(list, shard, x.answer.next, n + 1, 0);
      assert x.answer.rows + rest.rows == x.answer.rows && [] + x.answer.rows == x.answer.rows;
    }
    assert w.rows == RowsOf([x]);
    hide RowsOf, Walk;
    assert TracedAt(t, 0);
  }

  /** A bounded read is a trail whose every page is dealt with whole. */
  lemma {:induction false} WalkToured(list: Reader, due: Instant, shard: nat, cursor: Cursor, n: nat, budget: nat)
    requires budget >= 1
    ensures var w := Walk(list, shard, cursor, n, budget);
      Toured(TrailOf(list, due, shard, cursor, n, budget), w.rows, budget, EndOf(w), w.next)
    decreases budget
  {
    hide Toured;
    var reply := list(n, shard, cursor);
    if budget == 1 || !LeadsOn(reply) {
      OnePageTrail(list, due, shard, cursor, n, budget);
    } else {
      WalkToured(list, due, shard, reply.next, n + 1, budget - 1);
      var x := Listing(n, cursor, AnswerOf(reply));
      var t := TrailOf(list, due, shard, reply.next, n + 1, budget - 1);
      var rest := Walk(list, shard, reply.next, n + 1, budget - 1);
      assert ([x] + t.listings)[1..] == t.listings;
      assert TrailOf(list, due, shard, cursor, n, budget) == Before(x, t);
      TouredBefore(x, t, rest.rows, budget - 1, EndOf(rest), rest.next);
    }
  }

  lemma {:induction false} NumberedBy(list: Reader, shard: nat, cursor: Cursor, n: nat, budget: nat, i: nat)
    requires i < |Listings(list, shard, cursor, n, budget)|
    ensures Listings(list, shard, cursor, n, budget)[i].number == n + i
    decreases budget
  {
    if i > 0 { NumberedBy(list, shard, list(n, shard, cursor).next, n + 1, budget - 1, i - 1); }
  }

  lemma {:induction false} TracedListing(list: Reader, shard: nat, start: Cursor, maxPages: nat, k: nat)
    requires maxPages >= 1 && k < |Listings(list, shard, start, 0, maxPages)|
    ensures TracedAt(TrailOf(list, 0, shard, start, 0, maxPages), k) && k < maxPages
  {
    WalkToured(list, 0, shard, start, 0, maxPages);
    hide Walk, Listings, RowsOf, EndsAt, TracedAt;
  }

  lemma {:induction false} ReachesMore(list: Reader, shard: nat, start: Cursor, k: nat)
    requires Reaches(list, shard, start, k) && LeadsOn(ReplyAt(list, shard, start, k))
    ensures Reaches(list, shard, start, k + 1)
  {}

  /** Listing k of the trail is page k of the pass. */
  lemma {:induction false} ListingAt(list: Reader, shard: nat, start: Cursor, maxPages: nat, k: nat)
    requires maxPages >= 1 && k < |Listings(list, shard, start, 0, maxPages)|
    ensures Reaches(list, shard, start, k) && k < maxPages
    ensures Listings(list, shard, start, 0, maxPages)[k] ==
            Listing(k, CursorAt(list, shard, start, k), AnswerOf(ReplyAt(list, shard, start, k)))
  {
    TracedListing(list, shard, start, maxPages, k);
    NumberedBy(list, shard, start, 0, maxPages, k);
    hide Listings;
    if k > 0 {
      ListingAt(list, shard, start, maxPages, k - 1);
      ReachesMore(list, shard, start, k - 1);
    }
    hide Reaches;
  }

  lemma {:induction false} Led(list: Reader, shard: nat, start: Cursor, k: nat, i: nat)
    requires Reaches(list, shard, start, k) && i < k
    ensures LeadsOn(ReplyAt(list, shard, start, i))
  {}

  /** A pass reads page k exactly when its bound allows it and every page before led on. */
  lemma {:induction false} ReadsExactly(list: Reader, shard: nat, start: Cursor, maxPages: nat, k: nat)
    requires maxPages >= 1
    ensures k < |Listings(list, shard, start, 0, maxPages)| <==> k < maxPages && Reaches(list, shard, start, k)
  {
    WalkToured(list, 0, shard, start, 0, maxPages);
    var t := TrailOf(list, 0, shard, start, 0, maxPages);
    var last := |t.listings| - 1;
    if k <= last {
      ListingAt(list, shard, start, maxPages, k);
    } else if k < maxPages && Reaches(list, shard, start, k) {
      ListingAt(list, shard, start, maxPages, last);
      Led(list, shard, start, k, last);
      hide Walk, Listings, RowsOf, Reaches;
      assert false;
    }
  }

  // ------------------------------------------------------- what a pass misses

  lemma {:induction false} RowOnPage<T>(listings: seq<Listing<T>>, row: T) returns (p: nat)
    requires row in RowsOf(listings)
    ensures p < |listings| && listings[p].answer.Listed? && row in listings[p].answer.rows
  {
    var n := |listings| - 1;
    if listings[n].answer.Listed? && row in listings[n].answer.rows {
      p := n;
    } else {
      p := RowOnPage(listings[..n], row);
    }
  }

  lemma {:induction false} WalkRows(list: Reader, shard: nat, start: Cursor, maxPages: nat)
    requires maxPages >= 1
    ensures Walk(list, shard, start, 0, maxPages).rows == RowsOf(Listings(list, shard, start, 0, maxPages))
  {
    WalkToured(list, 0, shard, start, 0, maxPages);
    hide Walk, Listings, RowsOf, Traced, ListerOf, PagesAmong;
  }

  lemma {:induction false} ReadIsListed(list: Reader, shard: nat, start: Cursor, maxPages: nat, row: Row)
    returns (k: nat)
    requires maxPages >= 1 && row in Walk(list, shard, start, 0, maxPages).rows
    ensures k < maxPages && Lists(list, shard, start, k, row)
  {
    WalkRows(list, shard, start, maxPages);
    hide Walk, Listings, RowsOf, Reaches;
    k := RowOnPage(Listings(list, shard, start, 0, maxPages), row);
    ListingAt(list, shard, start, maxPages, k);
  }

  lemma {:induction false} ListedIsRead(list: Reader, shard: nat, start: Cursor, maxPages: nat, k: nat, row: Row)
    requires k < maxPages && Lists(list, shard, start, k, row)
    ensures row in Walk(list, shard, start, 0, maxPages).rows
  {
    WalkRows(list, shard, start, maxPages);
    hide Walk, Listings, RowsOf, Reaches;
    var listings := Listings(list, shard, start, 0, maxPages);
    ReadsExactly(list, shard, start, maxPages, k);
    ListingAt(list, shard, start, maxPages, k);
    var q :| 0 <= q < |listings[k].answer.rows| && listings[k].answer.rows[q] == row;
    var i := RowListed(listings, k, q);
    assert RowsOf(listings)[i] == row;
  }

  /** The rows of a read are those its pages list. */
  lemma {:induction false} RowsListed(list: Reader, shard: nat, start: Cursor, maxPages: nat, row: Row)
    requires maxPages >= 1
    ensures row in Walk(list, shard, start, 0, maxPages).rows <==>
      exists k :: 0 <= k < maxPages && Lists(list, shard, start, k, row)
  {
    hide Walk, Lists;
    if row in Walk(list, shard, start, 0, maxPages).rows {
      var k := ReadIsListed(list, shard, start, maxPages, row);
    }
    if k: nat :| k < maxPages && Lists(list, shard, start, k, row) {
      ListedIsRead(list, shard, start, maxPages, k, row);
    }
  }

  lemma {:induction false} FaultIsLast<T>(t: Trail<T>, k: nat)
    requires Traced(t) && k < |t.listings| - 1
    ensures t.listings[k].answer.Listed?
  {
    assert TracedAt(t, k + 1);
  }

  /** Every page the pass reads is answered with rows: none faults and none is refused. */
  ghost predicate AllRead(list: Reader, shard: nat, start: Cursor, maxPages: nat) {
    forall k: nat :: k < maxPages && Reaches(list, shard, start, k) ==> ReplyAt(list, shard, start, k).Rows?
  }

  /** Page k is read and the store answers with a fault. */
  ghost predicate Faults(list: Reader, shard: nat, start: Cursor, k: nat) {
    Reaches(list, shard, start, k) && ReplyAt(list, shard, start, k).ListFault?
  }

  /** The last page read says how the read ended, and those before it were answered with rows. */
  lemma {:induction false} LastPage(list: Reader, shard: nat, start: Cursor, maxPages: nat) returns (last: nat)
    requires maxPages >= 1
    ensures last < maxPages && Reaches(list, shard, start, last)
    ensures var w, reply := Walk(list, shard, start, 0, maxPages), ReplyAt(list, shard, start, last);
      && (w.ok <==> reply.Rows?) && (!w.ok && !w.refused <==> reply.ListFault?)
    ensures forall k: nat :: k < maxPages && Reaches(list, shard, start, k) ==>
      k == last || (k < last && ReplyAt(list, shard, start, k).Rows?)
  {
    WalkToured(list, 0, shard, start, 0, maxPages);
    WalkJoins(list, shard, start, 0, maxPages);
    var t := TrailOf(list, 0, shard, start, 0, maxPages);
    last := |t.listings| - 1;
    ListingAt(list, shard, start, maxPages, last);
    hide Walk, Listings, RowsOf, Reaches, ReplyAt;
    forall k: nat | k < maxPages && Reaches(list, shard, start, k)
      ensures k == last || (k < last && ReplyAt(list, shard, start, k).Rows?)
    {
      ReadsExactly(list, shard, start, maxPages, k);
      ListingAt(list, shard, start, maxPages, k);
      if k < last { FaultIsLast(t, k); }
    }
  }

  /** A read ends well exactly when every page it reads is answered with rows, and in a fault exactly when one is. */
  lemma {:induction false} EndsExactly(list: Reader, shard: nat, start: Cursor, maxPages: nat)
    requires maxPages >= 1
    ensures var w := Walk(list, shard, start, 0, maxPages);
      && (w.ok <==> AllRead(list, shard, start, maxPages))
      && (!w.ok && !w.refused <==> exists k :: 0 <= k < maxPages && Faults(list, shard, start, k))
  {
    var last := LastPage(list, shard, start, maxPages);
    hide Walk, Reaches, ReplyAt;
    assert ReplyAt(list, shard, start, last).ListFault? ==> Faults(list, shard, start, last);
  }

  /** A page faults after one that listed the row. */
  ghost predicate FaultedAfter(list: Reader, shard: nat, start: Cursor, maxPages: nat, row: Row) {
    exists j, k :: 0 <= j < k < maxPages && Lists(list, shard, start, j, row) && Faults(list, shard, start, k)
  }

  /** None of the requests is for the row's session. */
  ghost predicate Unasked(asked: seq<Request>, row: Row) { forall n :: 0 <= n < |asked| ==> asked[n].key != row.key }

  /** Placement answers that the context has ended, at or before which no request is for the session. */
  ghost predicate EndsBefore(place: Placer, owed: seq<Request>, key: Key) {
    exists n :: 0 <= n < |owed| && EndsAtRequest(place, owed, key, n)
  }

  ghost predicate EndsAtRequest(place: Placer, owed: seq<Request>, key: Key, n: nat)
    requires n < |owed|
  {
    place(n, owed[n]) == PlaceFailed(true) && forall m :: 0 <= m <= n ==> owed[m].key != key
  }

  /** A page lists the row and every page is read well, but the context ends before its session's turn. */
  ghost predicate EndedBefore(list: Reader, place: Placer, shard: nat, start: Cursor, now: Instant, maxPages: nat,
                              row: Row) {
    && AllRead(list, shard, start, maxPages)
    && (exists k :: 0 <= k < maxPages && Lists(list, shard, start, k, row))
    && EndsBefore(place, OwedFor(Walk(list, shard, start, 0, maxPages).rows, now), row.key)
  }

  lemma {:induction false} StopsBy(place: Placer, owed: seq<Request>, n: nat)
    requires n < |owed| && place(n, owed[n]) == PlaceFailed(true)
    ensures |Through(place, owed)| <= n + 1 && Stopped(place, Through(place, owed))
  {
    var front := owed[..|owed| - 1];
    ThroughIsPrefix(place, front);
    if n < |front| {
      StopsBy(place, front, n);
    } else if !Stopped(place, Through(place, front)) {
      assert Through(place, owed) == front + [owed[n]];
    }
  }

  /** What the placer answers, and what was asked of it, say the same. */
  lemma {:induction false} StoppedExactly(place: Placer, owed: seq<Request>, row: Row)
    ensures var asked := Through(place, owed);
      EndsBefore(place, owed, row.key) <==> Stopped(place, asked) && Unasked(asked, row)
  {
    var asked := Through(place, owed);
    ThroughIsPrefix(place, owed);
    hide Through;
    if EndsBefore(place, owed, row.key) {
      var n: nat :| n < |owed| && EndsAtRequest(place, owed, row.key, n);
      StopsBy(place, owed, n);
      assert forall m :: 0 <= m < |asked| ==> asked[m] == owed[m];
    }
    if Stopped(place, asked) && Unasked(asked, row) {
      assert forall m :: 0 <= m < |asked| ==> asked[m] == owed[m];
      assert EndsAtRequest(place, owed, row.key, |asked| - 1);
    }
  }

  /** The row was listed on a page that lies behind the position this pass keeps. */
  ghost predicate LeftBehind(list: Reader, shard: nat, start: Cursor, maxPages: nat, row: Row) {
    var w := Walk(list, shard, start, 0, maxPages);
    && Chained(start, w.steps, w.next)
    && exists k :: 0 <= k < maxPages && Lists(list, shard, start, k, row)
                   && Step(CursorAt(list, shard, start, k), ReplyAt(list, shard, start, k).next) in w.steps
  }

  lemma {:induction false} StepAt(list: Reader, shard: nat, cursor: Cursor, n: nat, budget: nat, k: nat)
    requires k < |Listings(list, shard, cursor, n, budget)| &&
      Listings(list, shard, cursor, n, budget)[k].answer.Listed?
    ensures var x := Listings(list, shard, cursor, n, budget)[k];
      Step(x.from, x.answer.next) in Walk(list, shard, cursor, n, budget).steps
    decreases budget
  {
    if k > 0 { StepAt(list, shard, list(n, shard, cursor).next, n + 1, budget - 1, k - 1); }
  }

  /** A refused position is dropped, so nothing is behind it. */
  lemma {:induction false} RefusedUnchained(list: Reader, shard: nat, cursor: Cursor, n: nat, budget: nat)
    ensures var w := Walk(list, shard, cursor, n, budget);
      w.refused && w.steps != [] ==> !Chained(cursor, w.steps, w.next)
    decreases budget
  {
    if budget > 0 && LeadsOn(list(n, shard, cursor)) {
      var next := list(n, shard, cursor).next;
      RefusedUnchained(list, shard, next, n + 1, budget - 1);
      WalkJoins(list, shard, next, n + 1, budget - 1);
      var rest := Walk(list, shard, next, n + 1, budget - 1);
      assert ([Step(cursor, next)] + rest.steps)[1..] == rest.steps;
    }
  }

  /** What lies behind the kept position is what was read, unless the position was refused. */
  lemma {:induction false} BehindExactly(list: Reader, shard: nat, start: Cursor, maxPages: nat, row: Row)
    requires maxPages >= 1
    ensures var w := Walk(list, shard, start, 0, maxPages);
      LeftBehind(list, shard, start, maxPages, row) <==> !w.refused && row in w.rows
  {
    var w := Walk(list, shard, start, 0, maxPages);
    WalkJoins(list, shard, start, 0, maxPages);
    RefusedUnchained(list, shard, start, 0, maxPages);
    RowsListed(list, shard, start, maxPages, row);
    hide Walk, Reaches, Chained, Listings;
    if !w.refused && row in w.rows {
      var k :| 0 <= k < maxPages && Lists(list, shard, start, k, row);
      ReadsExactly(list, shard, start, maxPages, k);
      ListingAt(list, shard, start, maxPages, k);
      StepAt(list, shard, start, 0, maxPages, k);
    }
  }

  lemma {:induction false} NoneAsked(row: Row, now: Instant)
    ensures !Delivered([], row, now)
  {}

  /** A row that was read well is undelivered exactly when the context ended before its session's turn. */
  lemma {:induction false} MissedByPlacing(place: Placer, rows: seq<Row>, now: Instant, i: nat)
    requires i < |rows| && Resident(Seen(rows[i], now))
    ensures var owed := OwedFor(rows, now); var asked := Through(place, owed);
      !Delivered(asked, rows[i], now) <==> Stopped(place, asked) && Unasked(asked, rows[i])
  {
    var owed := OwedFor(rows, now);
    var asked := Through(place, owed);
    ThroughIsPrefix(place, owed);
    EveryRowHandedOver(rows, now, i);
    hide Through, Stopped, OwedFor, Holds, Resident;
    if n :| 0 <= n < |asked| && asked[n].key == rows[i].key {
      assert asked[n] == owed[n];
      OwedHolds(rows, now, i, asked[n]);
      assert Delivered(asked, rows[i], now);
    }
  }

  /**
   Exactly what a pass leaves behind undelivered. A row that gives its session a
   reason to be resident lies behind the position the pass keeps and is in no
   request to placement, if and only if a later page of the same pass faulted, or
   the pass's context ended before the session's turn. A refused position, a fault
   on the first page, and a placement that fails for its own session lose nothing.
   */
  lemma {:induction false} MissesExactly(list: Reader, place: Placer, shard: nat, start: Cursor, now: Instant,
                                         maxPages: nat, row: Row)
    requires maxPages >= 1 && Resident(Seen(row, now))
    ensures var asked := AskedBy(place, Walk(list, shard, start, 0, maxPages), now);
      LeftBehind(list, shard, start, maxPages, row) && !Delivered(asked, row, now) <==>
      FaultedAfter(list, shard, start, maxPages, row) || EndedBefore(list, place, shard, start, now, maxPages, row)
  {
    var w := Walk(list, shard, start, 0, maxPages);
    BehindExactly(list, shard, start, maxPages, row);
    WalkJoins(list, shard, start, 0, maxPages);
    FaultMisses(list, shard, start, maxPages, row);
    EndsExactly(list, shard, start, maxPages);
    RowsListed(list, shard, start, maxPages, row);
    hide Walk, LeftBehind, FaultedAfter, OwedFor, Resident, Delivered, Lists, AllRead, EndsBefore;
    NoneAsked(row, now);
    if w.ok && row in w.rows {
      var i :| 0 <= i < |w.rows| && w.rows[i] == row;
      MissedByPlacing(place, w.rows, now, i);
      StoppedExactly(place, OwedFor(w.rows, now), row);
    }
  }

  /** A page faults after one that listed the row, just when the read fails having read the row. */
  lemma {:induction false} FaultMisses(list: Reader, shard: nat, start: Cursor, maxPages: nat, row: Row)
    requires maxPages >= 1
    ensures var w := Walk(list, shard, start, 0, maxPages);
      FaultedAfter(list, shard, start, maxPages, row) <==> !w.ok && !w.refused && row in w.rows
  {
    EndsExactly(list, shard, start, maxPages);
    RowsListed(list, shard, start, maxPages, row);
    var w := Walk(list, shard, start, 0, maxPages);
    hide Walk;
    if !w.ok && !w.refused && row in w.rows {
      var j: nat :| j < maxPages && Lists(list, shard, start, j, row);
      var k: nat :| k < maxPages && Faults(list, shard, start, k);
      if k < j { Led(list, shard, start, j, k); }
    }
  }

  /** And it happens: a second page that faults loses the first page's create for this cycle. */
  lemma {:induction false} FaultLosesSomething(row: Row, place: Placer, now: Instant)
    requires Resident(Seen(row, now))
    ensures exists list: Reader ::
      LeftBehind(list, 0, HEAD, 2, row) && !Delivered(AskedBy(place, Walk(list, 0, HEAD, 0, 2), now), row, now)
  {
    var list: Reader := (n, shard, c) => if c == HEAD then Rows([row], 1, 0, "c") else ListFault;
    assert CursorAt(list, 0, HEAD, 1) == "c";
    assert Lists(list, 0, HEAD, 0, row) && Faults(list, 0, HEAD, 1);
    MissesExactly(list, place, 0, HEAD, now, 2, row);
  }

  // ----------------------------------------------------------- runs of passes

  /** One pass of the sweeper: the count it saw, where the rotor sent it, its clock, and what answered it. */
  datatype Done = Done(shards: int, shard: nat, began: Cursor, store: Store, place: Placer, now: Instant, horizon: int,
                       maxPages: nat)

  function ReaderOf(d: Done): Reader { Bounded(d.store, d.now + d.horizon) }

  function WalkOf(d: Done): Walked { Walk(ReaderOf(d), d.shard, d.began, 0, d.maxPages) }

  ghost function AskedIn(d: Done): seq<Request> { AskedBy(d.place, WalkOf(d), d.now) }

  function TripOf(d: Done): Trip<Row> {
    var w := WalkOf(d);
    Trip(d.shards, TrailOf(ReaderOf(d), d.now + d.horizon, d.shard, d.began, 0, d.maxPages), w.rows, d.maxPages,
         EndOf(w), w.next)
  }

  function Trips(run: seq<Done>): (r: seq<Trip<Row>>)
    ensures |r| == |run| && forall i :: 0 <= i < |run| ==> r[i] == TripOf(run[i])
  {
    if run == [] then [] else Trips(run[..|run| - 1]) + [TripOf(run[|run| - 1])]
  }

  /** No page of the pass faulted and its context did not end. */
  ghost predicate FaultFree(d: Done) { WalkOf(d).ok && !Stopped(d.place, AskedIn(d)) }

  lemma {:induction false} FaultFreeDelivers(d: Done, i: nat)
    requires FaultFree(d) && i < |WalkOf(d).rows| && Resident(Seen(WalkOf(d).rows[i], d.now))
    ensures Delivered(AskedIn(d), WalkOf(d).rows[i], d.now)
  {
    hide Walk, Resident, OwedFor, Through, Stopped;
    MissedByPlacing(d.place, WalkOf(d).rows, d.now, i);
  }

  ghost predicate AllFaultFree(start: Position, run: seq<Done>, shard: nat, a: nat, b: nat)
    requires a <= b <= |run|
  {
    forall j :: a <= j < b && Over(start, Tours(Trips(run)), j, shard) ==> FaultFree(run[j])
  }

  /** Pass j read a row of this rank, and handed it to placement if it gave its session a reason to be resident. */
  ghost predicate PlacedAt(run: seq<Done>, rank: Row -> Rank, r: Rank, j: nat, i: nat) {
    && j < |run| && i < |WalkOf(run[j]).rows| && rank(WalkOf(run[j]).rows[i]) == r
    && var row := WalkOf(run[j]).rows[i];
    Resident(Seen(row, run[j].now)) ==> Delivered(AskedIn(run[j]), row, run[j].now)
  }

  lemma {:induction false} DonePlaced(run: seq<Done>, rank: Row -> Rank, r: Rank, j: nat, i: nat)
    requires j < |run| && FaultFree(run[j]) && i < |TripOf(run[j]).done| && rank(TripOf(run[j]).done[i]) == r
    ensures PlacedAt(run, rank, r, j, i)
  {
    hide Walk, Resident, FaultFree, Delivered, AskedIn, TrailOf;
    if Resident(Seen(WalkOf(run[j]).rows[i], run[j].now)) { FaultFreeDelivers(run[j], i); }
  }

  /**
   No row is skipped by fault-free passes. In a stretch that began at the shard's
   head and was neither refused nor cut off by a shrinking count, and whose passes
   over the shard were fault-free: every row that stays in the view until it is listed,
   and that the kept position is past, was read by some pass, which handed it to
   placement with all it needs if it gave its session a reason to be resident.
   */
  lemma {:induction false} EveryRowPlaced(start: Position, run: seq<Done>, shard: nat, a: nat, b: nat, o: Order<Row>,
                                          views: seq<View>, r: Rank)
    returns (j: nat, i: nat)
    requires a <= b <= |run| && Made(start, Trips(run)) && Unbroken(start, Tours(Trips(run)), shard, a, b)
    requires AllFaultFree(start, run, shard, a, b)
    requires |views| == |PagesOf(start, Tours(Trips(run)), shard, a, b)|
    requires OneCycle(o.meaning, Reads(o, PagesOf(start, Tours(Trips(run)), shard, a, b), views))
    requires Stays(Reads(o, PagesOf(start, Tours(Trips(run)), shard, a, b), views), r)
    requires r <= Reached(o.meaning, Reads(o, PagesOf(start, Tours(Trips(run)), shard, a, b), views))
    ensures a <= j < b && Over(start, Tours(Trips(run)), j, shard) && PlacedAt(run, o.rank, r, j, i)
  {
    hide At, Passes, Unbroken, PagesOf, OneCycle, Stays, Reached, Toured, Made, Walk, FaultFree, PlacedAt, TripOf;
    j, i := EveryRowDone(start, Trips(run), shard, a, b, o, views, r);
    DonePlaced(run, o.rank, r, j, i);
  }

  ghost predicate PlacedBetween(run: seq<Done>, a: nat, c: nat, rank: Row -> Rank, r: Rank) {
    exists j: nat, i: nat :: a <= j < c && PlacedAt(run, rank, r, j, i)
  }

  lemma {:induction false} DoneThenPlaced(start: Position, run: seq<Done>, shard: nat, a: nat, c: nat, b: nat,
                                          rank: Row -> Rank, r: Rank)
    requires a <= c <= b <= |run| && AllFaultFree(start, run, shard, a, b)
    requires DoneBy(start, Trips(run), shard, a, c, rank, r)
    ensures PlacedBetween(run, a, c, rank, r)
  {
    hide Over, PlacedAt, FaultFree, TripOf;
    var j: nat, i: nat :| DoneAt(start, Trips(run), shard, a, c, rank, r, j, i);
    DonePlaced(run, rank, r, j, i);
  }

  /**
   No row waits for ever. Of whole, fault-free passes at a constant count, over a store
   that fills its pages, one is back at the shard's head within as many rounds as the
   rows in view can fill and one more; by then every row inside the horizon when the
   stretch began, and that stays in the view until it is listed, was handed over.
   */
  lemma {:induction false} EveryRowPlacedInTime(start: Position, run: seq<Done>, shard: nat, a: nat, b: nat, n: nat,
                                                maxPages: nat, limit: nat, o: Order<Row>, views: seq<View>,
                                                all: set<Rank>)
    returns (c: nat)
    requires Made(start, Trips(run)) && LongEnough(start, Trips(run), shard, a, b, n, maxPages, limit, o, views, all)
    requires a <= b <= |run| && AllFaultFree(start, run, shard, a, b)
    ensures a < c <= b && FirstBack(start, Tours(Trips(run)), shard, a, c)
    ensures forall r :: DueInView(o, PagesOf(start, Tours(Trips(run)), shard, a, b), views, r) ==>
      PlacedBetween(run, a, c, o.rank, r)
  {
    hide Made, LongEnough, FirstBack, DueInView, PagesOf, AllFaultFree, DoneBy, PlacedBetween, Over;
    c := EveryRowInTime(start, Trips(run), shard, a, b, n, maxPages, limit, o, views, all);
    forall r | DueInView(o, PagesOf(start, Tours(Trips(run)), shard, a, b), views, r)
      ensures PlacedBetween(run, a, c, o.rank, r)
    {
      DoneThenPlaced(start, run, shard, a, c, b, o.rank, r);
    }
  }

  /** One turn of the sweeper: the count and the clock it reads, and what store and placement answer it. */
  datatype Turn = Turn(shards: int, store: Store, place: Placer, now: Instant)

  /** The pass is the one this turn made, and asked placement for this. */
  ghost predicate MadeIn(turn: Turn, horizon: int, maxPages: nat, d: Done, asked: seq<Request>) {
    && d.shards == turn.shards && d.store == turn.store && d.place == turn.place && d.now == turn.now
    && d.horizon == horizon && d.maxPages == maxPages
    && asked == if d.shards >= MIN_CONTROL_SHARDS then AskedIn(d) else []
  }

  lemma {:induction false} PassBegins(at: Position, d: Done)
    requires d.maxPages >= 1
    requires d.shards >= MIN_CONTROL_SHARDS ==>
      d.shard == Begin(at, d.shards).shard && d.began == Begin(at, d.shards).cursor
    ensures Begins(at, TripOf(d)) && TripOf(d).shards == d.shards && TripOf(d).kept == WalkOf(d).next
  {
    hide Toured, Walk, Listings;
    WalkToured(ReaderOf(d), d.now + d.horizon, d.shard, d.began, 0, d.maxPages);
  }

  /** runOnce: whatever the pass ends in, the next one is made from where it left the rotor. */
  method OneTurn(rotor: PendingRotor, turn: Turn, horizon: int, maxPages: nat)
    returns (ghost d: Done, asked: seq<Request>)
    requires maxPages >= 1
    modifies rotor
    ensures MadeIn(turn, horizon, maxPages, d, asked) && Begins(old(rotor.Abs()), TripOf(d))
    ensures rotor.Abs() == AfterPass(old(rotor.Abs()), Rotor.Pass(TripOf(d).shards, TripOf(d).kept))
  {
    hide Walk, AskedBy, Begin, AfterPass, Begins, TripOf;
    ghost var at := rotor.Abs();
    var ok, r;
    ghost var w;
    ok, r, w, asked := PendingSweep.Sweep(rotor, turn.shards, turn.store, turn.place, turn.now, horizon, maxPages);
    d := Done(turn.shards, 0, HEAD, turn.store, turn.place, turn.now, horizon, maxPages);
    if turn.shards >= MIN_CONTROL_SHARDS {
      ChosenOne(at, turn.shards);
      d := d.(shard := Begin(at, turn.shards).shard, began := Begin(at, turn.shards).cursor);
    } else {
      RefusedOne(at, turn.shards, WalkOf(d).next);
    }
    PassBegins(at, d);
  }

  lemma {:induction false} RunOfOneMore(start: Position, run: seq<Done>, at: Position, d: Done)
    requires RunsTo(start, Trips(run), at) && Begins(at, TripOf(d))
    ensures RunsTo(start, Trips(run + [d]), AfterPass(at, Rotor.Pass(TripOf(d).shards, TripOf(d).kept)))
  {
    hide RunsTo, Begins, AfterPass, TripOf;
    assert Trips(run + [d]) == Trips(run) + [TripOf(d)];
    RunMore(start, Trips(run), at, TripOf(d));
  }

  /** runSweep: turn after turn, whatever each pass ends in. */
  method SweepOn(rotor: PendingRotor, turns: seq<Turn>, horizon: int, maxPages: nat)
    returns (ghost run: seq<Done>, asks: seq<seq<Request>>)
    requires maxPages >= 1
    modifies rotor
    ensures Made(old(rotor.Abs()), Trips(run)) && RunsTo(old(rotor.Abs()), Trips(run), rotor.Abs())
    ensures |run| == |asks| == |turns|
    ensures forall i :: 0 <= i < |turns| ==> MadeIn(turns[i], horizon, maxPages, run[i], asks[i])
  {
    hide RunsTo, AfterPass, MadeIn, Begins, TripOf;
    run, asks := [], [];
    ghost var start := rotor.Abs();
    RunBegins<Row>(start);
    for i := 0 to |turns|
      invariant RunsTo(start, Trips(run), rotor.Abs()) && |run| == |asks| == i
      invariant forall j :: 0 <= j < i ==> MadeIn(turns[j], horizon, maxPages, run[j], asks[j])
    {
      ghost var at := rotor.Abs();
      ghost var d;
      var asked;
      d, asked := OneTurn(rotor, turns[i], horizon, maxPages);
      RunOfOneMore(start, run, at, d);
      run, asks := run + [d], asks + [asked];
    }
    RunMade(start, Trips(run), rotor.Abs());
  }
}
