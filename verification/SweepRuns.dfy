/**
 Any number of passes of one sweeper: the rotor hands each pass a shard and the
 position kept for it, counts change, pages fault and continuations are refused.
 What successive passes over one shard leave behind their position, and how soon
 that position is back at the head.
 */
module SweepRuns {
  import opened Rotor
  import opened Paging

  /**
   One pass: the count it saw, the pages it dealt with whole, what it kept, and whether
   its continuation was refused.
   */
  datatype Tour<T> = Tour(shards: int, pages: seq<Page<T>>, kept: Cursor, refused: bool)

  function Passes<T>(tours: seq<Tour<T>>): (r: seq<Pass>)
    ensures |r| == |tours| && forall i :: 0 <= i < |tours| ==> r[i] == Pass(tours[i].shards, tours[i].kept)
  {
    if tours == [] then []
    else Passes(tours[..|tours| - 1]) + [Pass(tours[|tours| - 1].shards, tours[|tours| - 1].kept)]
  }

  /** The pages dealt with follow one another to the position kept, or the position was refused and dropped. */
  ghost predicate Walks<T>(began: Cursor, tour: Tour<T>) {
    && (if tour.refused then tour.kept == HEAD else Chained(began, PageSteps(tour.pages), tour.kept))
    && forall i :: 0 <= i < |tour.pages| - 1 ==> tour.pages[i].next != HEAD
  }

  /** Every pass that ran walked from the position the rotor handed it. */
  ghost predicate Ran<T>(start: Position, tours: seq<Tour<T>>) {
    forall j :: 0 <= j < |tours| && tours[j].shards >= MIN_CONTROL_SHARDS ==>
      Walks(Begin(At(start, Passes(tours), j), tours[j].shards).cursor, tours[j])
  }

  /** Pass j swept the shard. */
  ghost predicate Over<T>(start: Position, tours: seq<Tour<T>>, j: nat, shard: nat)
    requires j < |tours|
  {
    Swept(start, Passes(tours), j, shard)
  }

  ghost function VisitOf<T>(start: Position, tours: seq<Tour<T>>, j: nat): Visit
    requires j < |tours|
  {
    var at := At(start, Passes(tours), j);
    Visit(KeptAt(at.cursors, ChosenShard(at, tours[j].shards)), PageSteps(tours[j].pages), tours[j].kept)
  }

  /** The passes over a shard from pass a up to pass b. */
  ghost function Visits<T>(start: Position, tours: seq<Tour<T>>, shard: nat, a: nat, b: nat): seq<Visit>
    requires a <= b <= |tours|
    decreases b - a
  {
    if a == b then []
    else
      var earlier := Visits(start, tours, shard, a, b - 1);
      if Over(start, tours, b - 1, shard) then earlier + [VisitOf(start, tours, b - 1)] else earlier
  }

  /** The pages they dealt with. */
  ghost function PagesOf<T>(start: Position, tours: seq<Tour<T>>, shard: nat, a: nat, b: nat): seq<Page<T>>
    requires a <= b <= |tours|
    decreases b - a
  {
    if a == b then []
    else
      var earlier := PagesOf(start, tours, shard, a, b - 1);
      if Over(start, tours, b - 1, shard) then earlier + tours[b - 1].pages else earlier
  }

  /**
   The stretch begins at the head, no pass in it saw a count that excludes the shard, and
   none had its position refused.
   */
  ghost predicate Unbroken<T>(start: Position, tours: seq<Tour<T>>, shard: nat, a: nat, b: nat)
    requires a <= b <= |tours|
  {
    && KeptAt(At(start, Passes(tours), a).cursors, shard) == HEAD
    && forall j :: a <= j < b ==>
       !Shrank(Passes(tours)[j], shard) && (Over(start, tours, j, shard) ==> !tours[j].refused)
  }

  // ---------------------------------------------------------------- no gap

  /** The kept position is the one the last pass over the shard reached. */
  lemma {:induction false} PositionKept<T>(start: Position, tours: seq<Tour<T>>, shard: nat, a: nat, b: nat)
    requires a <= b <= |tours| && Unbroken(start, tours, shard, a, b)
    ensures KeptAt(At(start, Passes(tours), b).cursors, shard) == Kept(Visits(start, tours, shard, a, b), HEAD)
    decreases b - a
  {
    if a < b {
      PositionKept(start, tours, shard, a, b - 1);
      KeptIsLastReached(start, Passes(tours), b - 1, shard);
      KeptIsLastReached(start, Passes(tours), b, shard);
    }
  }

  lemma {:induction false} VisitWalks<T>(start: Position, tours: seq<Tour<T>>, shard: nat, j: nat)
    requires j < |tours| && Ran(start, tours) && Over(start, tours, j, shard) && !tours[j].refused
    ensures var v := VisitOf(start, tours, j);
      Chained(v.began, v.dealt, v.kept) && v.began == KeptAt(At(start, Passes(tours), j).cursors, shard)
  {
    hide At, Passes;
    assert Walks(Begin(At(start, Passes(tours), j), tours[j].shards).cursor, tours[j]);
  }

  lemma {:induction false} UnbrokenBefore<T>(start: Position, tours: seq<Tour<T>>, shard: nat, a: nat, b: nat)
    requires a < b <= |tours| && Unbroken(start, tours, shard, a, b)
    ensures Unbroken(start, tours, shard, a, b - 1)
    ensures Over(start, tours, b - 1, shard) ==> !tours[b - 1].refused
  {
    hide At, Passes, Over;
  }

  lemma {:induction false} PassesResume<T>(start: Position, tours: seq<Tour<T>>, shard: nat, a: nat, b: nat)
    requires a <= b <= |tours| && Ran(start, tours) && Unbroken(start, tours, shard, a, b)
    ensures Resumes(Visits(start, tours, shard, a, b), HEAD)
    decreases b - a
  {
    hide At, Passes, VisitOf, Resumes, Ran, Unbroken, Over;
    if a == b {
      NoVisits();
    } else {
      UnbrokenBefore(start, tours, shard, a, b);
      PassesResume(start, tours, shard, a, b - 1);
      PositionKept(start, tours, shard, a, b - 1);
      if Over(start, tours, b - 1, shard) {
        VisitWalks(start, tours, shard, b - 1);
        OneMore(Visits(start, tours, shard, a, b - 1), VisitOf(start, tours, b - 1));
      }
    }
  }

  lemma NoVisits()
    ensures Resumes([], HEAD)
  {}

  lemma OneMore(earlier: seq<Visit>, visit: Visit)
    requires Resumes(earlier, HEAD) && visit.began == Kept(earlier, HEAD) &&
      Chained(visit.began, visit.dealt, visit.kept)
    ensures Resumes(earlier + [visit], HEAD)
  {
    var all := earlier + [visit];
    forall i | 0 <= i < |all|
      ensures all[i].began == Kept(all[..i], HEAD) && Chained(all[i].began, all[i].dealt, all[i].kept)
    {
      if i < |earlier| { assert all[..i] == earlier[..i]; } else { assert all[..i] == earlier; }
    }
  }

  lemma {:induction false} StepsDealt<T>(start: Position, tours: seq<Tour<T>>, shard: nat, a: nat, b: nat)
    requires a <= b <= |tours|
    ensures Dealt(Visits(start, tours, shard, a, b)) == PageSteps(PagesOf(start, tours, shard, a, b))
    decreases b - a
  {
    hide At, Passes, Over;
    if a < b {
      StepsDealt(start, tours, shard, a, b - 1);
      if Over(start, tours, b - 1, shard) {
        var earlier := Visits(start, tours, shard, a, b - 1);
        assert (earlier + [VisitOf(start, tours, b - 1)])[..|earlier|] == earlier;
      }
    }
  }

  // ----------------------------------------------------------- nothing skipped

  /** How a store orders a shard: what continuations stand for, a row's rank, and the last rank due at an instant. */
  datatype Order<!T> = Order(meaning: Cursor -> Place, rank: T -> Rank, upTo: int -> int)

  /** What a page was read from: the rows of the view by rank, and those of them that could be read. */
  datatype View = View(rows: set<Rank>, readable: set<Rank>)

  function Ranks<T>(rank: T -> Rank, rows: seq<T>): (r: seq<Rank>)
    ensures |r| == |rows| && forall i :: 0 <= i < |rows| ==> r[i] == rank(rows[i])
  {
    if rows == [] then [] else Ranks(rank, rows[..|rows| - 1]) + [rank(rows[|rows| - 1])]
  }

  /** The bound is the one the pass sent: its own reading of the clock. */
  function ReadOf<T>(o: Order<T>, page: Page<T>, v: View): Read {
    Read(page.from, o.upTo(page.due), v.rows, v.readable, Ranks(o.rank, page.rows), page.next)
  }

  function Reads<T>(o: Order<T>, pages: seq<Page<T>>, views: seq<View>): (r: seq<Read>)
    requires |views| == |pages|
    ensures |r| == |pages| && forall i :: 0 <= i < |pages| ==> r[i] == ReadOf(o, pages[i], views[i])
  {
    if pages == [] then []
    else Reads(o, pages[..|pages| - 1], views[..|pages| - 1])
         + [ReadOf(o, pages[|pages| - 1], views[|pages| - 1])]
  }

  /** The store kept its contract for these reads, and none but the last reached the end. */
  ghost predicate OneCycle(meaning: Cursor -> Place, trail: seq<Read>) {
    && trail != [] && Answered(meaning, trail)
    && forall i :: 0 <= i < |trail| - 1 ==> trail[i].next != HEAD
  }

  /** A row of this rank was on a page dealt with in a pass over the shard. */
  ghost predicate DealtWith<T>(start: Position, tours: seq<Tour<T>>, shard: nat, a: nat, b: nat, rank: T -> Rank,
                               r: Rank)
    requires a <= b <= |tours|
  {
    exists j, p, q ::
      (a <= j < b && Over(start, tours, j, shard) && 0 <= p < |tours[j].pages| && 0 <= q < |tours[j].pages[p].rows|
       && rank(tours[j].pages[p].rows[q]) == r)
  }

  lemma {:induction false} PageFrom<T>(start: Position, tours: seq<Tour<T>>, shard: nat, a: nat, b: nat, i: nat)
    returns (j: nat, p: nat)
    requires a <= b <= |tours| && i < |PagesOf(start, tours, shard, a, b)|
    ensures a <= j < b && Over(start, tours, j, shard) && p < |tours[j].pages|
    ensures PagesOf(start, tours, shard, a, b)[i] == tours[j].pages[p]
    decreases b - a
  {
    var earlier := PagesOf(start, tours, shard, a, b - 1);
    if i < |earlier| {
      j, p := PageFrom(start, tours, shard, a, b - 1, i);
    } else {
      j, p := b - 1, i - |earlier|;
    }
  }

  lemma {:induction false} PageAmong<T>(start: Position, tours: seq<Tour<T>>, shard: nat, a: nat, b: nat, j: nat,
                                        p: nat)
    returns (i: nat)
    requires a <= j < b <= |tours| && Over(start, tours, j, shard) && p < |tours[j].pages|
    ensures i < |PagesOf(start, tours, shard, a, b)| && PagesOf(start, tours, shard, a, b)[i] == tours[j].pages[p]
    decreases b - a
  {
    var earlier := PagesOf(start, tours, shard, a, b - 1);
    if j < b - 1 {
      i := PageAmong(start, tours, shard, a, b - 1, j, p);
    } else {
      i := |earlier| + p;
    }
  }

  /** The reads of an unbroken stretch are one cycle of the store's view, up to the position kept. */
  lemma {:induction false} CycleOf<T>(start: Position, tours: seq<Tour<T>>, shard: nat, a: nat, b: nat, o: Order<T>,
                                      views: seq<View>)
    requires a <= b <= |tours| && Ran(start, tours) && Unbroken(start, tours, shard, a, b)
    requires |views| == |PagesOf(start, tours, shard, a, b)|
    requires OneCycle(o.meaning, Reads(o, PagesOf(start, tours, shard, a, b), views))
    ensures Cycle(o.meaning, Reads(o, PagesOf(start, tours, shard, a, b), views))
    ensures var pages := PagesOf(start, tours, shard, a, b);
      KeptAt(At(start, Passes(tours), b).cursors, shard) == pages[|pages| - 1].next
  {
    hide Resumes, Unbroken, Ran, At, Answered, Visits, PagesOf, Chained, Cycle;
    var pages := PagesOf(start, tours, shard, a, b);
    var visits := Visits(start, tours, shard, a, b);
    var trail := Reads(o, pages, views);
    PassesResume(start, tours, shard, a, b);
    PositionKept(start, tours, shard, a, b);
    StepsDealt(start, tours, shard, a, b);
    VisitsChain(visits, HEAD);
    assert StepsOf(trail) == PageSteps(pages);
    ChainedCycle(o.meaning, trail, Kept(visits, HEAD));
  }

  /**
   No skipping, over any run of passes. In a stretch of passes that began at the
   head, some of them faulted, over a view that changes between reads: as long as no
   page but the last reaches the end, the position kept for the shard is where the
   last page dealt with ended, and a row that stays in the view until it is listed has
   been dealt with exactly when that position is past it.
   */
  lemma {:induction false} NothingSkipped<T>(start: Position, tours: seq<Tour<T>>, shard: nat, a: nat, b: nat,
                                             o: Order<T>, views: seq<View>, r: Rank)
    requires a <= b <= |tours| && Ran(start, tours) && Unbroken(start, tours, shard, a, b)
    requires |views| == |PagesOf(start, tours, shard, a, b)|
    requires OneCycle(o.meaning, Reads(o, PagesOf(start, tours, shard, a, b), views))
    requires Stays(Reads(o, PagesOf(start, tours, shard, a, b), views), r)
    ensures var pages := PagesOf(start, tours, shard, a, b);
      KeptAt(At(start, Passes(tours), b).cursors, shard) == pages[|pages| - 1].next
    ensures DealtWith(start, tours, shard, a, b, o.rank, r) <==>
      r <= Reached(o.meaning, Reads(o, PagesOf(start, tours, shard, a, b), views))
  {
    var trail := Reads(o, PagesOf(start, tours, shard, a, b), views);
    hide Unbroken, Ran, At, Passes, Over, Answered, Reached, Stays, Cycle, PagesOf;
    CycleOf(start, tours, shard, a, b, o, views);
    DealtExactlyOnce(o.meaning, trail, r);
    if i :| 0 <= i < |trail| && r in trail[i].rows {
      var q :| 0 <= q < |trail[i].rows| && trail[i].rows[q] == r;
      var j, p := PageFrom(start, tours, shard, a, b, i);
      assert o.rank(tours[j].pages[p].rows[q]) == r;
    }
    if DealtWith(start, tours, shard, a, b, o.rank, r) {
      var j, p, q :|
        (a <= j < b && Over(start, tours, j, shard) && 0 <= p < |tours[j].pages| && 0 <= q < |tours[j].pages[p].rows|
         && o.rank(tours[j].pages[p].rows[q]) == r);
      var i := PageAmong(start, tours, shard, a, b, j, p);
      assert trail[i].rows[q] == r;
    }
  }

  // -------------------------------------------------------------- no starvation

  /** Every pass from a up to b saw the count n. */
  ghost predicate Constant<T>(tours: seq<Tour<T>>, a: nat, b: nat, n: nat)
    requires a <= b <= |tours|
  {
    forall j :: a <= j < b ==> tours[j].shards == n
  }

  lemma {:induction false} VisitsJoin<T>(start: Position, tours: seq<Tour<T>>, shard: nat, a: nat, b: nat, c: nat)
    requires a <= b <= c <= |tours|
    ensures |Visits(start, tours, shard, a, c)| == |Visits(start, tours, shard, a, b)| +
      |Visits(start, tours, shard, b, c)|
    decreases c - b
  {
    hide At, Passes, Over;
    if b < c { VisitsJoin(start, tours, shard, a, b, c - 1); }
  }

  /** How many passes after one that chose `first` the shard comes round. */
  function Distance(first: nat, shard: nat, n: nat): int { if shard >= first then shard - first else shard - first + n }

  lemma {:induction false} RoundSoFar<T>(start: Position, tours: seq<Tour<T>>, shard: nat, a: nat, n: nat, i: nat)
    requires 1 <= n && shard < n && i <= n && a + n <= |tours| && Constant(tours, a, a + n, n)
    ensures |Visits(start, tours, shard, a, a + i)| ==
      if Distance(ChosenShard(At(start, Passes(tours), a), n), shard, n) < i then 1 else 0
    decreases i
  {
    if i > 0 {
      RoundSoFar(start, tours, shard, a, n, i - 1);
      SweptAround(start, Passes(tours), a, n, a + i - 1, shard);
      hide At, Passes, Swept;
    }
  }

  lemma {:induction false} Rounds(n: nat, m: nat)
    requires m > 0
    ensures n * m == n * (m - 1) + n
  {}

  lemma {:induction false} NoneYet<T>(start: Position, tours: seq<Tour<T>>, shard: nat, a: nat)
    requires a <= |tours|
    ensures Visits(start, tours, shard, a, a) == []
  {}

  lemma {:induction false} ConstantWithin<T>(tours: seq<Tour<T>>, a: nat, b: nat, c: nat, n: nat)
    requires a <= b <= c <= |tours| && Constant(tours, a, c, n)
    ensures Constant(tours, a, b, n) && Constant(tours, b, c, n)
  {}

  /** m whole rounds at a constant count visit every shard m times. */
  lemma {:induction false} RoundsVisit<T>(start: Position, tours: seq<Tour<T>>, shard: nat, a: nat, n: nat, m: nat)
    requires 1 <= n && shard < n && a + n * m <= |tours| && Constant(tours, a, a + n * m, n)
    ensures |Visits(start, tours, shard, a, a + n * m)| == m
    decreases m
  {
    hide At, Passes, Visits, Constant;
    if m == 0 {
      NoneYet(start, tours, shard, a);
    } else {
      Rounds(n, m);
      var b := a + n * (m - 1);
      ConstantWithin(tours, a, b, a + n * m, n);
      RoundsVisit(start, tours, shard, a, n, m - 1);
      RoundSoFar(start, tours, shard, b, n, n);
      VisitsJoin(start, tours, shard, a, b, b + n);
    }
  }

  /** Every pass over the shard was read to its bound without coming back to the head. */
  ghost predicate Unfinished<T>(start: Position, tours: seq<Tour<T>>, shard: nat, a: nat, b: nat, maxPages: nat)
    requires a <= b <= |tours|
  {
    forall j :: a <= j < b && Over(start, tours, j, shard) ==> |tours[j].pages| == maxPages && tours[j].kept != HEAD
  }

  lemma {:induction false} PagesCount<T>(start: Position, tours: seq<Tour<T>>, shard: nat, a: nat, b: nat,
                                         maxPages: nat)
    requires a <= b <= |tours| && Unfinished(start, tours, shard, a, b, maxPages)
    ensures |PagesOf(start, tours, shard, a, b)| == |Visits(start, tours, shard, a, b)| * maxPages
    decreases b - a
  {
    hide At, Passes, Over;
    if a < b {
      PagesCount(start, tours, shard, a, b - 1, maxPages);
      Times(|Visits(start, tours, shard, a, b - 1)|, |Visits(start, tours, shard, a, b - 1)|, maxPages);
    }
  }

  lemma LastStep(began: Cursor, steps: seq<Step>, kept: Cursor)
    requires Chained(began, steps, kept) && steps != []
    ensures steps[|steps| - 1].to == kept
  {
    ChainLinks(began, steps, kept, |steps| - 1);
  }

  /** No page of such a stretch ends at the head. */
  lemma {:induction false} OpenEnded<T>(start: Position, tours: seq<Tour<T>>, shard: nat, a: nat, b: nat,
                                        maxPages: nat, i: nat)
    requires a <= b <= |tours| && Ran(start, tours) && Unbroken(start, tours, shard, a, b)
    requires Unfinished(start, tours, shard, a, b, maxPages) && i < |PagesOf(start, tours, shard, a, b)|
    ensures PagesOf(start, tours, shard, a, b)[i].next != HEAD
  {
    hide At, Passes, Over, Ran, PagesOf;
    var j, p := PageFrom(start, tours, shard, a, b, i);
    PageAhead(start, tours, shard, j, p);
  }

  /** A stretch that has not come back to the head has read that many full passes of rows. */
  lemma {:induction false} FullStretch<T>(start: Position, tours: seq<Tour<T>>, shard: nat, a: nat, b: nat,
                                          maxPages: nat, limit: nat, o: Order<T>, views: seq<View>, all: set<Rank>)
    requires a <= b <= |tours| && Ran(start, tours) && Unbroken(start, tours, shard, a, b)
    requires Unfinished(start, tours, shard, a, b, maxPages) && |views| == |PagesOf(start, tours, shard, a, b)|
    requires Answered(o.meaning, Reads(o, PagesOf(start, tours, shard, a, b), views))
    requires Filled(o.meaning, limit, Reads(o, PagesOf(start, tours, shard, a, b), views))
    requires Sees(Reads(o, PagesOf(start, tours, shard, a, b), views), all)
    ensures |Visits(start, tours, shard, a, b)| * maxPages * limit <= |all|
  {
    hide Unbroken, Ran, Unfinished, Answered, Filled, Cycle, Sees, At, Passes, Visits, PagesOf;
    var trail := Reads(o, PagesOf(start, tours, shard, a, b), views);
    PagesCount(start, tours, shard, a, b, maxPages);
    forall i | 0 <= i < |trail| ensures trail[i].next != HEAD { OpenEnded(start, tours, shard, a, b, maxPages, i); }
    if trail == [] {
      NoRounds(limit);
    } else {
      CycleOf(start, tours, shard, a, b, o, views);
      RowsBehind(o.meaning, limit, trail, all, |trail|);
    }
  }

  lemma {:induction false} NoRounds(limit: nat)
    ensures 0 * limit == 0
  {}

  /**
   If m whole rounds of fault-free passes at a constant count have not brought the
   shard's position back to the head, its view holds at least m full passes of rows.
   */
  lemma {:induction false} RoundsFill<T>(start: Position, tours: seq<Tour<T>>, shard: nat, a: nat, b: nat,
                                         n: nat, m: nat, maxPages: nat, limit: nat, o: Order<T>, views: seq<View>,
                                         all: set<Rank>)
    requires 1 <= n && shard < n && b == a + n * m && b <= |tours| && Constant(tours, a, b, n)
    requires Ran(start, tours) && Unbroken(start, tours, shard, a, b)
    requires Unfinished(start, tours, shard, a, b, maxPages) && |views| == |PagesOf(start, tours, shard, a, b)|
    requires Answered(o.meaning, Reads(o, PagesOf(start, tours, shard, a, b), views))
    requires Filled(o.meaning, limit, Reads(o, PagesOf(start, tours, shard, a, b), views))
    requires Sees(Reads(o, PagesOf(start, tours, shard, a, b), views), all)
    ensures m * maxPages * limit <= |all|
  {
    hide Unbroken, Ran, Unfinished, Answered, Filled, Sees, At, Passes, Visits, PagesOf;
    RoundsVisit(start, tours, shard, a, n, m);
    FullStretch(start, tours, shard, a, b, maxPages, limit, o, views, all);
  }

  /** The rounds that k rows can keep a shard from its head: pages of `limit` rows, maxPages of them a pass. */
  function RoundsFor(k: nat, maxPages: nat, limit: nat): nat
    requires maxPages >= 1 && limit >= 1
  {
    Positive(maxPages, limit);
    k / (maxPages * limit) + 1
  }

  lemma {:induction false} Positive(a: nat, b: nat)
    requires a >= 1 && b >= 1
    ensures a * b >= 1
  {}

  lemma {:induction false} TooMany(k: nat, maxPages: nat, limit: nat)
    requires maxPages >= 1 && limit >= 1
    ensures RoundsFor(k, maxPages, limit) * maxPages * limit > k
  {
    Positive(maxPages, limit);
    var pass, q := maxPages * limit, k / (maxPages * limit);
    assert k == pass * q + k % pass;
    Rearrange(q + 1, maxPages, limit);
  }

  lemma {:induction false} Rearrange(m: nat, a: nat, b: nat)
    ensures m * a * b == m * (a * b)
  {}

  /** The first pass over the shard that is back at the head. */
  ghost predicate FirstBack<T>(start: Position, tours: seq<Tour<T>>, shard: nat, a: nat, c: nat)
    requires a < c <= |tours|
  {
    && Over(start, tours, c - 1, shard) && tours[c - 1].kept == HEAD
    && forall j :: a <= j < c - 1 && Over(start, tours, j, shard) ==> tours[j].kept != HEAD
  }

  lemma {:induction false} FindBack<T>(start: Position, tours: seq<Tour<T>>, shard: nat, a: nat, b: nat)
    returns (c: nat)
    requires a <= b <= |tours|
    ensures c == 0 ==> forall j :: a <= j < b && Over(start, tours, j, shard) ==> tours[j].kept != HEAD
    ensures c != 0 ==> a < c <= b && FirstBack(start, tours, shard, a, c)
    decreases b - a
  {
    hide Over;
    if a == b {
      c := 0;
    } else {
      c := FindBack(start, tours, shard, a, b - 1);
      if c == 0 && Over(start, tours, b - 1, shard) && tours[b - 1].kept == HEAD { c := b; }
    }
  }

  /** Every pass over the shard read at least one page and, unless it came back to the head, all its bound allows. */
  ghost predicate Unhindered<T>(start: Position, tours: seq<Tour<T>>, shard: nat, a: nat, b: nat, maxPages: nat)
    requires a <= b <= |tours|
  {
    forall j :: a <= j < b && Over(start, tours, j, shard) ==>
      tours[j].pages != [] && (tours[j].kept != HEAD ==> |tours[j].pages| == maxPages)
  }

  /**
   No starvation. Of passes at a constant count that are neither refused nor faulted,
   and over a store that fills its pages, one is back at the shard's head within as
   many rounds as the rows in view can fill, and one more.
   */
  lemma {:induction false} BackAtHeadInTime<T>(start: Position, tours: seq<Tour<T>>, shard: nat, a: nat, b: nat, n: nat,
                                               maxPages: nat, limit: nat, o: Order<T>, views: seq<View>,
                                               all: set<Rank>)
    returns (c: nat)
    requires 1 <= n && shard < n && maxPages >= 1 && limit >= 1
    requires b == a + n * RoundsFor(|all|, maxPages, limit) && b <= |tours| && Constant(tours, a, b, n)
    requires Ran(start, tours) && Unbroken(start, tours, shard, a, b)
    requires Unhindered(start, tours, shard, a, b, maxPages) && |views| == |PagesOf(start, tours, shard, a, b)|
    requires Answered(o.meaning, Reads(o, PagesOf(start, tours, shard, a, b), views))
    requires Filled(o.meaning, limit, Reads(o, PagesOf(start, tours, shard, a, b), views))
    requires Sees(Reads(o, PagesOf(start, tours, shard, a, b), views), all)
    ensures a < c <= b && FirstBack(start, tours, shard, a, c)
  {
    hide Unbroken, Ran, Answered, Filled, Sees, At, Passes, PagesOf, Constant, RoundsFor, Over, FirstBack;
    c := FindBack(start, tours, shard, a, b);
    if c == 0 {
      RoundsFill(start, tours, shard, a, b, n, RoundsFor(|all|, maxPages, limit), maxPages, limit, o, views, all);
      TooMany(|all|, maxPages, limit);
    }
  }

  // ---------------------------------------------------------- within that time

  lemma {:induction false} PagesBefore<T>(start: Position, tours: seq<Tour<T>>, shard: nat, a: nat, c: nat, b: nat)
    requires a <= c <= b <= |tours|
    ensures PagesOf(start, tours, shard, a, c) <= PagesOf(start, tours, shard, a, b)
    decreases b - c
  {
    hide Over;
    if c < b { PagesBefore(start, tours, shard, a, c, b - 1); }
  }

  lemma {:induction false} StaysBefore(trail: seq<Read>, k: nat, r: Rank)
    requires k <= |trail| && Stays(trail, r)
    ensures Stays(trail[..k], r)
  {
    var pre := trail[..k];
    forall i | 0 <= i < |pre| && Unlisted(pre, i, r)
      ensures r in pre[i].readable
    {
      assert Unlisted(trail, i, r) by {
        forall j | 0 <= j < i ensures r !in trail[j].rows { assert pre[j] == trail[j]; }
      }
    }
  }

  /** The views of a stretch's first pages. */
  function ViewsBefore<T>(views: seq<View>, pages: seq<Page<T>>): seq<View>
    requires |pages| <= |views|
  {
    views[..|pages|]
  }

  lemma {:induction false} OnlyLastBack<T>(start: Position, tours: seq<Tour<T>>, shard: nat, a: nat, c: nat, i: nat)
    requires a < c <= |tours| && Ran(start, tours) && Unbroken(start, tours, shard, a, c)
    requires FirstBack(start, tours, shard, a, c) && tours[c - 1].pages != []
    requires i < |PagesOf(start, tours, shard, a, c)|
    ensures PagesOf(start, tours, shard, a, c)[i].next == HEAD <==> i == |PagesOf(start, tours, shard, a, c)| - 1
  {
    var earlier := PagesOf(start, tours, shard, a, c - 1);
    hide At, Passes, Ran;
    if i < |earlier| {
      var j, p := PageFrom(start, tours, shard, a, c - 1, i);
      PageAhead(start, tours, shard, j, p);
    } else {
      PageAhead(start, tours, shard, c - 1, i - |earlier|);
    }
  }

  /** Of a pass's pages only the last may end at the head, and it does exactly when the pass kept the head. */
  lemma {:induction false} PageAhead<T>(start: Position, tours: seq<Tour<T>>, shard: nat, j: nat, p: nat)
    requires j < |tours| && Ran(start, tours) && Over(start, tours, j, shard)
    requires !tours[j].refused && p < |tours[j].pages|
    ensures tours[j].pages[p].next == HEAD <==> p == |tours[j].pages| - 1 && tours[j].kept == HEAD
  {
    VisitWalks(start, tours, shard, j);
    assert Walks(Begin(At(start, Passes(tours), j), tours[j].shards).cursor, tours[j]);
    hide At, Passes;
    if p == |tours[j].pages| - 1 {
      LastStep(VisitOf(start, tours, j).began, PageSteps(tours[j].pages), tours[j].kept);
    }
  }

  /** The reads up to the first pass that is back at the head are one whole cycle of the store's view. */
  lemma {:induction false} WholeCycle<T>(start: Position, tours: seq<Tour<T>>, shard: nat, a: nat, c: nat, b: nat,
                                         o: Order<T>, views: seq<View>)
    requires a < c <= b <= |tours| && Ran(start, tours) && Unbroken(start, tours, shard, a, b)
    requires FirstBack(start, tours, shard, a, c) && tours[c - 1].pages != []
    requires |views| == |PagesOf(start, tours, shard, a, b)|
    requires Answered(o.meaning, Reads(o, PagesOf(start, tours, shard, a, b), views))
    ensures var pages := PagesOf(start, tours, shard, a, c);
      && pages != [] && pages <= PagesOf(start, tours, shard, a, b) && Unbroken(start, tours, shard, a, c)
      && var trail := Reads(o, pages, ViewsBefore(views, pages));
      && trail == Reads(o, PagesOf(start, tours, shard, a, b), views)[..|pages|] && OneCycle(o.meaning, trail)
      && Reached(o.meaning, trail) == trail[0].asked
  {
    PagesBefore(start, tours, shard, a, c, b);
    UnbrokenUpTo(start, tours, shard, a, c, b);
    LastPages(start, tours, shard, a, c);
    hide Unbroken, Ran, PagesOf, Over, FirstBack, Answered;
    var pages := PagesOf(start, tours, shard, a, c);
    forall i | 0 <= i < |pages| ensures pages[i].next == HEAD <==> i == |pages| - 1 {
      OnlyLastBack(start, tours, shard, a, c, i);
    }
    ReadsBefore(o, pages, PagesOf(start, tours, shard, a, b), views);
  }

  lemma {:induction false} ReadsBefore<T>(o: Order<T>, pages: seq<Page<T>>, more: seq<Page<T>>, views: seq<View>)
    requires pages <= more && |views| == |more|
    ensures Reads(o, pages, ViewsBefore(views, pages)) == Reads(o, more, views)[..|pages|]
    ensures Answered(o.meaning, Reads(o, more, views)) ==>
      Answered(o.meaning, Reads(o, pages, ViewsBefore(views, pages)))
  {
    hide Honest, ReadOf;
    var trail, all := Reads(o, pages, ViewsBefore(views, pages)), Reads(o, more, views);
    assert trail == all[..|pages|];
    assert forall i :: 0 <= i < |trail| ==> trail[i] == all[i];
  }

  lemma {:induction false} LastPages<T>(start: Position, tours: seq<Tour<T>>, shard: nat, a: nat, c: nat)
    requires a < c <= |tours| && Over(start, tours, c - 1, shard) && tours[c - 1].pages != []
    ensures PagesOf(start, tours, shard, a, c) != []
  {
    hide Over;
  }

  lemma {:induction false} UnbrokenUpTo<T>(start: Position, tours: seq<Tour<T>>, shard: nat, a: nat, c: nat, b: nat)
    requires a <= c <= b <= |tours| && Unbroken(start, tours, shard, a, b)
    ensures Unbroken(start, tours, shard, a, c)
  {
    hide At, Passes, Over;
  }
}
