/**
 What a bounded pass over one shard's pages leaves behind: its listings, the rows
 dealt with, how it ended and the position it keeps. And, over any run of such
 passes, that no row is skipped and none waits for ever.
 */
module Trails {
  import opened Rotor
  import opened Paging
  import opened SweepRuns

  /** A listing's answer: a page, the continuation refused, or a fault. */
  datatype Answer<T> = Listed(rows: seq<T>, next: Cursor) | Lost | Broke

  /** The store, listing a shard from a position as call number n, under the due bound of one pass. */
  type Lister<T> = (nat, nat, Cursor) -> Answer<T>

  /** One listing: the number of the call, where it read from, and the answer. */
  datatype Listing<T> = Listing(number: nat, from: Cursor, answer: Answer<T>)

  /** A pass so far: its due bound, its listings, and the pages among them that were dealt with whole. */
  datatype Trail<T> = Trail(
    list: Lister<T>, due: int, shard: nat, start: Cursor, listings: seq<Listing<T>>, dealt: seq<Page<T>>)

  /** The rows a series of listings listed. */
  function RowsOf<T>(listings: seq<Listing<T>>): seq<T> {
    if listings == [] then []
    else
      var front, last := RowsOf(listings[..|listings| - 1]), listings[|listings| - 1].answer;
      if last.Listed? then front + last.rows else front
  }

  lemma RowsMore<T>(listings: seq<Listing<T>>, x: Listing<T>)
    ensures RowsOf(listings + [x]) == if x.answer.Listed? then RowsOf(listings) + x.answer.rows else RowsOf(listings)
  {
    assert (listings + [x])[..|listings|] == listings;
  }

  /** Listing number i is the store's own answer, read from where the one before it ended. */
  ghost predicate TracedAt<T>(t: Trail<T>, i: nat)
    requires i < |t.listings|
  {
    var x := t.listings[i];
    && x.answer == t.list(x.number, t.shard, x.from)
    && if i == 0 then x.from == t.start
       else var last := t.listings[i - 1].answer; last.Listed? && last.next != HEAD && x.from == last.next
  }

  function DealtPage<T>(due: int, x: Listing<T>): Page<T>
    requires x.answer.Listed?
  {
    Page(x.from, due, x.answer.rows, x.answer.next)
  }

  /** The listings follow one another, and the pages dealt with whole are the first of them. */
  ghost predicate Traced<T>(t: Trail<T>) {
    && (forall i :: 0 <= i < |t.listings| ==> TracedAt(t, i))
    && |t.dealt| <= |t.listings| <= |t.dealt| + 1
    && forall i :: 0 <= i < |t.dealt| ==>
         t.listings[i].answer.Listed? && t.dealt[i] == DealtPage(t.due, t.listings[i])
  }

  /** Where the next page is read from. */
  function NextFrom<T>(t: Trail<T>): Cursor {
    if t.listings == [] then t.start
    else var last := t.listings[|t.listings| - 1]; if last.answer.Listed? then last.answer.next else last.from
  }

  /** Between two pages: every page listed so far was dealt with whole. */
  ghost predicate Midway<T>(t: Trail<T>, done: seq<T>) {
    Traced(t) && |t.dealt| == |t.listings| && done == RowsOf(t.listings)
  }

  /** Within a page: it was listed, and all before it were dealt with whole. */
  ghost predicate Within<T>(t: Trail<T>, x: Listing<T>) {
    Traced(t) && |t.listings| == |t.dealt| + 1 && t.listings[|t.dealt|] == x
  }

  /**
   How a pass ends: all it read was dealt with, its continuation refused, a listing
   failed, or a row of the last page did.
   */
  datatype End = Whole | Forgotten | Unlisted | Cut

  ghost predicate EndsAt<T>(t: Trail<T>, done: seq<T>, maxPages: nat, end: End, kept: Cursor)
    requires t.listings != []
  {
    var last := t.listings[|t.listings| - 1];
    match end
    case Whole =>
      && |t.dealt| == |t.listings| && done == RowsOf(t.listings) && kept == NextFrom(t)
      && (kept != HEAD ==> |t.listings| == maxPages)
    case Forgotten => |t.dealt| < |t.listings| && last.answer.Lost? && kept == HEAD && done == RowsOf(t.listings)
    case Unlisted => |t.dealt| < |t.listings| && last.answer.Broke? && kept == last.from && done == RowsOf(t.listings)
    case Cut => |t.dealt| < |t.listings| && last.answer.Listed? && kept == last.from && |done| < |RowsOf(t.listings)|
  }

  /** A whole pass: at least one listing and no more than its bound, the rows dealt with in order, and why it ended. */
  ghost predicate Toured<T>(t: Trail<T>, done: seq<T>, maxPages: nat, end: End, kept: Cursor) {
    && t.listings != [] && |t.listings| <= maxPages && Traced(t)
    && RowsOf(t.listings[..|t.dealt|]) <= done <= RowsOf(t.listings)
    && EndsAt(t, done, maxPages, end, kept)
  }

  /** What the last answer of a pass says of its end and of the position it keeps. */
  lemma {:induction false} EndedAs<T>(t: Trail<T>, done: seq<T>, maxPages: nat, end: End, kept: Cursor)
    requires Toured(t, done, maxPages, end, kept)
    ensures var x := t.listings[|t.listings| - 1];
      && x.answer == t.list(x.number, t.shard, x.from)
      && (end.Forgotten? <==> x.answer.Lost?) && (end.Unlisted? <==> x.answer.Broke?)
      && match end
         case Whole => x.answer.Listed? && kept == x.answer.next && (kept != HEAD ==> |t.listings| == maxPages)
         case Forgotten => kept == HEAD
         case _ => kept == x.from
  {
    assert TracedAt(t, |t.listings| - 1);
    hide RowsOf;
  }

  lemma {:induction false} Beyond<T>(front: seq<T>, rows: seq<T>, done: seq<T>)
    requires front <= done && |done| < |front + rows|
    ensures (front + rows)[|done|] in rows
  {
    assert (front + rows)[|done|] == rows[|done| - |front|];
  }

  /** The row a pass was cut short on is of its last page. */
  lemma {:induction false} CutOnLast<T>(t: Trail<T>, done: seq<T>, maxPages: nat, kept: Cursor)
    requires Toured(t, done, maxPages, Cut, kept)
    ensures var last := t.listings[|t.listings| - 1].answer;
      last.Listed? && |done| < |RowsOf(t.listings)| && RowsOf(t.listings)[|done|] in last.rows
  {
    var n := |t.listings| - 1;
    assert |t.dealt| == n;
    hide RowsOf, Traced;
    RowsMore(t.listings[..n], t.listings[n]);
    assert t.listings == t.listings[..n] + [t.listings[n]];
    Beyond(RowsOf(t.listings[..n]), t.listings[n].answer.rows, done);
  }

  // -------------------------------------------------------------------- steps

  lemma {:induction false} ListedNext<T>(t: Trail<T>, done: seq<T>, x: Listing<T>)
    requires Midway(t, done) && (t.listings != [] ==> NextFrom(t) != HEAD)
    requires x.from == NextFrom(t) && x.answer == t.list(x.number, t.shard, x.from)
    ensures Within(t.(listings := t.listings + [x]), x)
    ensures RowsOf(t.listings + [x]) == if x.answer.Listed? then done + x.answer.rows else done
    ensures (t.listings + [x])[..|t.dealt|] == t.listings && RowsOf(t.listings) == done
  {
    RowsMore(t.listings, x);
    hide RowsOf;
    var u := t.(listings := t.listings + [x]);
    forall i | 0 <= i < |u.listings|
      ensures TracedAt(u, i)
    {
      if i < |t.listings| { assert TracedAt(t, i); }
    }
  }

  /** A page whose every row was dealt with is dealt with whole. */
  lemma {:induction false} PageDealt<T>(t: Trail<T>, done: seq<T>, x: Listing<T>)
    requires Within(t, x) && x.answer.Listed? && done == RowsOf(t.listings)
    ensures var u := t.(dealt := t.dealt + [DealtPage(t.due, x)]); Midway(u, done) && NextFrom(u) == x.answer.next
  {
    hide RowsOf;
    var u := t.(dealt := t.dealt + [DealtPage(t.due, x)]);
    forall i | 0 <= i < |u.listings|
      ensures TracedAt(u, i)
    {
      assert TracedAt(t, i);
    }
  }

  lemma {:induction false} PageFailed<T>(t: Trail<T>, done: seq<T>, maxPages: nat, x: Listing<T>, end: End,
                                         kept: Cursor)
    requires Within(t, x) && |t.listings| <= maxPages
    requires RowsOf(t.listings[..|t.dealt|]) <= done <= RowsOf(t.listings)
    requires match end
      case Whole => false
      case Forgotten => x.answer.Lost? && kept == HEAD && done == RowsOf(t.listings)
      case Unlisted => x.answer.Broke? && kept == x.from && done == RowsOf(t.listings)
      case Cut => x.answer.Listed? && kept == x.from && |done| < |RowsOf(t.listings)|
    ensures Toured(t, done, maxPages, end, kept)
  {
    hide RowsOf, TracedAt;
  }

  lemma {:induction false} Finished<T>(t: Trail<T>, done: seq<T>, maxPages: nat)
    requires Midway(t, done) && t.listings != [] && |t.listings| <= maxPages
    requires NextFrom(t) == HEAD || |t.listings| == maxPages
    ensures Toured(t, done, maxPages, Whole, NextFrom(t))
  {
    assert t.listings[..|t.dealt|] == t.listings;
    hide RowsOf, TracedAt;
  }

  lemma NothingYet<T>(list: Lister<T>, due: int, shard: nat, start: Cursor)
    ensures Midway(Trail(list, due, shard, start, [], []), [])
  {}

  // ----------------------------------------------------------- runs of passes

  /** One pass of a sweeper: the count it saw and, unless that refused it, what it left. */
  datatype Trip<T> = Trip(shards: int, trail: Trail<T>, done: seq<T>, maxPages: nat, end: End, kept: Cursor)

  function TourOf<T>(d: Trip<T>): Tour<T> { Tour(d.shards, d.trail.dealt, d.kept, d.end.Forgotten?) }

  function Tours<T>(run: seq<Trip<T>>): (r: seq<Tour<T>>)
    ensures |r| == |run| && forall i :: 0 <= i < |run| ==> r[i] == TourOf(run[i])
  {
    if run == [] then [] else Tours(run[..|run| - 1]) + [TourOf(run[|run| - 1])]
  }

  /** Each pass was made over the shard, and from the position, that the rotor then handed out. */
  ghost predicate Made<T>(start: Position, run: seq<Trip<T>>) {
    forall j :: 0 <= j < |run| && run[j].shards >= MIN_CONTROL_SHARDS ==> MadeAt(start, run, j)
  }

  ghost predicate MadeAt<T>(start: Position, run: seq<Trip<T>>, j: nat)
    requires j < |run| && run[j].shards >= MIN_CONTROL_SHARDS
  {
    var choice := Begin(At(start, Passes(Tours(run)), j), run[j].shards);
    && run[j].trail.shard == choice.shard && run[j].trail.start == choice.cursor
    && Toured(run[j].trail, run[j].done, run[j].maxPages, run[j].end, run[j].kept)
  }

  lemma {:induction false} DealtLinked<T>(t: Trail<T>, i: nat)
    requires Traced(t) && i < |t.dealt|
    ensures t.dealt[i].from == From(t.start, t.dealt, i) && (i < |t.dealt| - 1 ==> t.dealt[i].next != HEAD)
  {
    assert TracedAt(t, i);
    if i < |t.dealt| - 1 { assert TracedAt(t, i + 1); }
  }

  lemma {:induction false} KeptLinked<T>(t: Trail<T>, done: seq<T>, maxPages: nat, end: End, kept: Cursor)
    requires Toured(t, done, maxPages, end, kept) && !end.Forgotten?
    ensures kept == From(t.start, t.dealt, |t.dealt|)
  {
    hide RowsOf;
    assert TracedAt(t, |t.listings| - 1);
  }

  /** A pass walks from where it began to what it keeps. */
  lemma {:induction false} TripWalks<T>(d: Trip<T>)
    requires Toured(d.trail, d.done, d.maxPages, d.end, d.kept)
    ensures Walks(d.trail.start, TourOf(d))
  {
    hide RowsOf;
    forall i | 0 <= i < |d.trail.dealt|
      ensures d.trail.dealt[i].from == From(d.trail.start, d.trail.dealt, i)
      ensures i < |d.trail.dealt| - 1 ==> d.trail.dealt[i].next != HEAD
    {
      DealtLinked(d.trail, i);
    }
    if d.end.Forgotten? {
      assert d.kept == HEAD;
    } else {
      KeptLinked(d.trail, d.done, d.maxPages, d.end, d.kept);
      hide Toured;
      LinkedPages(d.trail.start, d.trail.dealt, d.kept);
    }
  }

  lemma {:induction false} MadeRan<T>(start: Position, run: seq<Trip<T>>)
    requires Made(start, run)
    ensures Ran(start, Tours(run))
  {
    hide Toured, At, Passes;
    forall j | 0 <= j < |run| && run[j].shards >= MIN_CONTROL_SHARDS
      ensures Walks(Begin(At(start, Passes(Tours(run)), j), run[j].shards).cursor, TourOf(run[j]))
    {
      assert MadeAt(start, run, j);
      TripWalks(run[j]);
    }
  }

  lemma {:induction false} RowListed<T>(listings: seq<Listing<T>>, p: nat, q: nat) returns (i: nat)
    requires p < |listings| && listings[p].answer.Listed? && q < |listings[p].answer.rows|
    ensures i < |RowsOf(listings)| && RowsOf(listings)[i] == listings[p].answer.rows[q]
  {
    var front := listings[..|listings| - 1];
    if p < |front| { i := RowListed(front, p, q); } else { i := |RowsOf(front)| + q; }
  }

  /** Every row of a page dealt with whole is among those done. */
  lemma {:induction false} DealtDone<T>(d: Trip<T>, p: nat, q: nat) returns (i: nat)
    requires Toured(d.trail, d.done, d.maxPages, d.end, d.kept) && p < |d.trail.dealt| && q < |d.trail.dealt[p].rows|
    ensures i < |d.done| && d.done[i] == d.trail.dealt[p].rows[q]
  {
    hide EndsAt, TracedAt;
    i := RowListed(d.trail.listings[..|d.trail.dealt|], p, q);
    hide RowsOf;
  }

  lemma {:induction false} OverRan<T>(start: Position, run: seq<Trip<T>>, shard: nat, j: nat)
    requires Made(start, run) && j < |run| && Over(start, Tours(run), j, shard)
    ensures run[j].shards >= MIN_CONTROL_SHARDS && MadeAt(start, run, j)
  {
    hide At, Passes, MadeAt;
  }

  /**
   No row is skipped. Over any run of passes, in a stretch that began at the shard's
   head and was neither refused nor cut off by a shrinking count, faults and all:
   every row that stays in the view until it is listed, and that the kept position is
   past, was done in some pass. Back at the head, that is every row due when the pass
   that began the cycle read its clock.
   */
  lemma {:induction false} EveryRowDone<T>(start: Position, run: seq<Trip<T>>, shard: nat, a: nat, b: nat,
                                           o: Order<T>, views: seq<View>, r: Rank)
    returns (j: nat, i: nat)
    requires a <= b <= |run| && Made(start, run) && Unbroken(start, Tours(run), shard, a, b)
    requires |views| == |PagesOf(start, Tours(run), shard, a, b)|
    requires OneCycle(o.meaning, Reads(o, PagesOf(start, Tours(run), shard, a, b), views))
    requires Stays(Reads(o, PagesOf(start, Tours(run), shard, a, b), views), r)
    requires r <= Reached(o.meaning, Reads(o, PagesOf(start, Tours(run), shard, a, b), views))
    ensures a <= j < b && Over(start, Tours(run), j, shard) && i < |run[j].done| && o.rank(run[j].done[i]) == r
  {
    MadeRan(start, run);
    hide At, Passes, Unbroken, Ran, PagesOf, OneCycle, Stays, Reached, Toured;
    NothingSkipped(start, Tours(run), shard, a, b, o, views, r);
    var p, q;
    j, p, q :|
      (a <= j < b && Over(start, Tours(run), j, shard) && 0 <= p < |Tours(run)[j].pages|
       && 0 <= q < |Tours(run)[j].pages[p].rows| && o.rank(Tours(run)[j].pages[p].rows[q]) == r);
    OverRan(start, run, shard, j);
    i := DealtDone(run[j], p, q);
  }

  /** Every pass over the shard was whole, within one bound. */
  ghost predicate WholePasses<T>(start: Position, run: seq<Trip<T>>, shard: nat, a: nat, b: nat, maxPages: nat)
    requires a <= b <= |run|
  {
    forall j :: a <= j < b && Over(start, Tours(run), j, shard) ==> run[j].end.Whole? && run[j].maxPages == maxPages
  }

  lemma {:induction false} WholeUnhindered<T>(start: Position, run: seq<Trip<T>>, shard: nat, a: nat, b: nat,
                                              maxPages: nat)
    requires a <= b <= |run| && Made(start, run) && WholePasses(start, run, shard, a, b, maxPages)
    ensures Unhindered(start, Tours(run), shard, a, b, maxPages)
  {
    hide At, Passes, Made;
    forall j | a <= j < b && Over(start, Tours(run), j, shard)
      ensures run[j].trail.dealt != [] && (run[j].kept != HEAD ==> |run[j].trail.dealt| == maxPages)
    {
      OverRan(start, run, shard, j);
    }
  }

  /** Whole passes at a constant count over a store that keeps its contract and fills its pages, for long enough. */
  ghost predicate LongEnough<T>(start: Position, run: seq<Trip<T>>, shard: nat, a: nat, b: nat, n: nat, maxPages: nat,
                                limit: nat, o: Order<T>, views: seq<View>, all: set<Rank>) {
    && 1 <= n && shard < n && maxPages >= 1 && limit >= 1
    && b == a + n * RoundsFor(|all|, maxPages, limit) && b <= |run| && Constant(Tours(run), a, b, n)
    && Unbroken(start, Tours(run), shard, a, b) && WholePasses(start, run, shard, a, b, maxPages)
    && |views| == |PagesOf(start, Tours(run), shard, a, b)|
    && var trail := Reads(o, PagesOf(start, Tours(run), shard, a, b), views);
    Answered(o.meaning, trail) && Filled(o.meaning, limit, trail) && Sees(trail, all)
  }

  lemma {:induction false} LongRun<T>(start: Position, run: seq<Trip<T>>, shard: nat, a: nat, b: nat, n: nat,
                                      maxPages: nat, limit: nat, o: Order<T>, views: seq<View>, all: set<Rank>)
    requires LongEnough(start, run, shard, a, b, n, maxPages, limit, o, views, all)
    ensures a <= b <= |run|
  {
    hide Unbroken, Constant, WholePasses, PagesOf, Reads;
  }

  /**
   No row waits for ever. Of such passes, within as many rounds as the rows in view can
   fill and one more, one is back at the shard's head; and by then every row that was
   due when the stretch began, and that stays in the view until it is listed, was done.
   */
  lemma {:induction false} EveryRowInTime<T>(start: Position, run: seq<Trip<T>>, shard: nat, a: nat, b: nat, n: nat,
                                             maxPages: nat, limit: nat, o: Order<T>, views: seq<View>,
                                             all: set<Rank>)
    returns (c: nat)
    requires Made(start, run) && LongEnough(start, run, shard, a, b, n, maxPages, limit, o, views, all)
    ensures a < c <= b && FirstBack(start, Tours(run), shard, a, c)
    ensures PagesOf(start, Tours(run), shard, a, b) != []
    ensures forall r :: DueInView(o, PagesOf(start, Tours(run), shard, a, b), views, r) ==>
      DoneBy(start, run, shard, a, c, o.rank, r)
  {
    hide At, Passes, Made, Unbroken, Over, FirstBack, Constant, PagesOf, Answered, Filled, Sees;
    hide RoundsFor, Unhindered, Ran;
    MadeRan(start, run);
    WholeUnhindered(start, run, shard, a, b, maxPages);
    c := BackAtHeadInTime(start, Tours(run), shard, a, b, n, maxPages, limit, o, views, all);
    BackHasPages(start, Tours(run), shard, a, b, c, maxPages);
    WholeCycle(start, Tours(run), shard, a, c, b, o, views);
    forall r | DueInView(o, PagesOf(start, Tours(run), shard, a, b), views, r)
      ensures DoneBy(start, run, shard, a, c, o.rank, r)
    {
      DoneInCycle(start, run, shard, a, c, b, o, views, r);
    }
  }

  lemma {:induction false} BackHasPages<T>(start: Position, tours: seq<Tour<T>>, shard: nat, a: nat, b: nat, c: nat,
                                           maxPages: nat)
    requires a < c <= b <= |tours| && Unhindered(start, tours, shard, a, b, maxPages)
    requires FirstBack(start, tours, shard, a, c)
    ensures tours[c - 1].pages != []
  {
    hide At, Passes, Over;
  }

  /** A row due when the first of these pages was read, and in the view until it is listed. */
  ghost predicate DueInView<T>(o: Order<T>, pages: seq<Page<T>>, views: seq<View>, r: Rank) {
    pages != [] && |views| == |pages| && r <= o.upTo(pages[0].due) && Stays(Reads(o, pages, views), r)
  }

  /** A row of this rank was done in a pass over the shard. */
  ghost predicate DoneBy<T>(start: Position, run: seq<Trip<T>>, shard: nat, a: nat, c: nat, rank: T -> Rank, r: Rank)
    requires a <= c <= |run|
  {
    exists j: nat, i: nat :: DoneAt(start, run, shard, a, c, rank, r, j, i)
  }

  ghost predicate DoneAt<T>(start: Position, run: seq<Trip<T>>, shard: nat, a: nat, c: nat, rank: T -> Rank, r: Rank,
                            j: nat, i: nat)
    requires a <= c <= |run|
  {
    a <= j < c && Over(start, Tours(run), j, shard) && i < |run[j].done| && rank(run[j].done[i]) == r
  }

  lemma {:induction false} DoneInCycle<T>(start: Position, run: seq<Trip<T>>, shard: nat, a: nat, c: nat, b: nat,
                                          o: Order<T>, views: seq<View>, r: Rank)
    requires a < c <= b <= |run| && Made(start, run) && Unbroken(start, Tours(run), shard, a, c)
    requires var pages, whole := PagesOf(start, Tours(run), shard, a, c), PagesOf(start, Tours(run), shard, a, b);
      && pages != [] && pages <= whole && |views| == |whole| && DueInView(o, whole, views, r)
      && var trail := Reads(o, pages, ViewsBefore(views, pages));
      && trail == Reads(o, whole, views)[..|pages|] && OneCycle(o.meaning, trail)
      && Reached(o.meaning, trail) == trail[0].asked
    ensures DoneBy(start, run, shard, a, c, o.rank, r)
  {
    hide At, Passes, Made, Unbroken, Over, OneCycle, Reached, PagesOf, Stays;
    var pages, whole := PagesOf(start, Tours(run), shard, a, c), PagesOf(start, Tours(run), shard, a, b);
    StaysBefore(Reads(o, whole, views), |pages|, r);
    var j, i := EveryRowDone(start, run, shard, a, c, o, ViewsBefore(views, pages), r);
    assert DoneAt(start, run, shard, a, c, o.rank, r, j, i);
  }

  // -------------------------------------------------------------- runs grow

  lemma {:induction false} PassesMore<T>(run: seq<Trip<T>>, d: Trip<T>)
    ensures Passes(Tours(run + [d])) == Passes(Tours(run)) + [Rotor.Pass(d.shards, d.kept)]
  {
    assert (run + [d])[..|run|] == run;
    var tours := Tours(run);
    assert (tours + [TourOf(d)])[..|tours|] == tours;
  }

  /** The pass may have been made from where the rotor stands. */
  ghost predicate Begins<T>(at: Position, d: Trip<T>) {
    d.shards >= MIN_CONTROL_SHARDS ==>
      && d.trail.shard == Begin(at, d.shards).shard && d.trail.start == Begin(at, d.shards).cursor
      && Toured(d.trail, d.done, d.maxPages, d.end, d.kept)
  }

  /** A run of passes that leaves the rotor there. */
  ghost predicate RunsTo<T>(start: Position, run: seq<Trip<T>>, at: Position) {
    Made(start, run) && at == At(start, Passes(Tours(run)), |run|)
  }

  lemma {:induction false} RunMade<T>(start: Position, run: seq<Trip<T>>, at: Position)
    requires RunsTo(start, run, at)
    ensures Made(start, run)
  {}

  lemma {:induction false} RunBegins<T>(start: Position)
    ensures RunsTo<T>(start, [], start)
  {}

  /** A run made one pass longer. */
  lemma {:induction false} RunMore<T>(start: Position, run: seq<Trip<T>>, at: Position, d: Trip<T>)
    requires RunsTo(start, run, at) && Begins(at, d)
    ensures RunsTo(start, run + [d], AfterPass(at, Rotor.Pass(d.shards, d.kept)))
  {
    PassesMore(run, d);
    hide Toured, Passes, Tours;
    var passes, longer := Passes(Tours(run)), run + [d];
    forall j | 0 <= j < |longer| && longer[j].shards >= MIN_CONTROL_SHARDS
      ensures MadeAt(start, longer, j)
    {
      AtBefore(start, passes, Rotor.Pass(d.shards, d.kept), j);
      if j < |run| { assert MadeAt(start, run, j); }
    }
    AtBefore(start, passes, Rotor.Pass(d.shards, d.kept), |run|);
  }
}
