/**
 What the store promises about a deadline-ordered due view, and what a sweep
 that follows its continuations over a changing view can then be held to.
 */
module Paging {
  import opened Common
  import opened Rotor

  /** A read as it is sent: from the head under a due bound, or from a continuation, which carries its own. */
  datatype Query = Query(cursor: Cursor, bound: Option<int>)

  function Asking(cursor: Cursor, due: int): Query { Query(cursor, if cursor == HEAD then Some(due) else None) }

  /** A row's place in deadline order. Rows at or below a bound's rank are due at it. */
  type Rank = nat

  /** Where a continuation stands: after `after`, under the bound its cycle began with. */
  datatype Place = Place(after: int, bound: int)

  /**
   One page read: the position it was read from, the rank of the bound asked for when
   that is the head, the view at that instant with its readable rows, and the answer.
   */
  datatype Read = Read(from: Cursor, asked: int, view: set<Rank>, readable: set<Rank>, rows: seq<Rank>, next: Cursor)

  function Between(view: set<Rank>, after: int, upTo: int): set<Rank> {
    set k | k in view && after < k <= upTo
  }

  /** A page lists every readable row of the stretch it covers, in order, once. */
  ghost predicate Lists(r: Read, after: int, upTo: int) {
    && (forall k :: k in r.rows <==> k in r.readable && after < k <= upTo)
    && (forall i, j :: 0 <= i < j < |r.rows| ==> r.rows[i] < r.rows[j])
  }

  /** Where a read stands: before every row under the bound it asks for, or where its continuation says. */
  function Standing(meaning: Cursor -> Place, r: Read): Place {
    if r.from == HEAD then Place(-1, r.asked) else meaning(r.from)
  }

  /** The store's contract for one page: it covers a stretch from there, up to the bound or to where it leaves off. */
  ghost predicate Honest(meaning: Cursor -> Place, r: Read) {
    var at := Standing(meaning, r);
    && r.readable <= r.view
    && if r.next == HEAD then Lists(r, at.after, at.bound)
       else
         var to := meaning(r.next);
         to.bound == at.bound && at.after <= to.after <= at.bound && Lists(r, at.after, to.after)
  }

  ghost predicate Answered(meaning: Cursor -> Place, trail: seq<Read>) {
    forall i :: 0 <= i < |trail| ==> Honest(meaning, trail[i])
  }

  /** Reads that follow one another from the head, none of them past the end. */
  ghost predicate Cycle(meaning: Cursor -> Place, trail: seq<Read>) {
    && trail != [] && trail[0].from == HEAD
    && (forall i :: 0 <= i < |trail| - 1 ==> trail[i].next != HEAD && trail[i + 1].from == trail[i].next)
    && Answered(meaning, trail)
  }

  /** How far a cycle has got: its whole bound once it is back at the head. */
  function Reached(meaning: Cursor -> Place, trail: seq<Read>): int
    requires trail != []
  {
    if trail[|trail| - 1].next == HEAD then trail[0].asked else meaning(trail[|trail| - 1].next).after
  }

  ghost predicate Unlisted(trail: seq<Read>, i: nat, k: Rank)
    requires i <= |trail|
  {
    forall j :: 0 <= j < i ==> k !in trail[j].rows
  }

  /** A row that is readable in the view at every read until a page lists it. */
  ghost predicate Stays(trail: seq<Read>, k: Rank) {
    forall i :: 0 <= i < |trail| && Unlisted(trail, i, k) ==> k in trail[i].readable
  }

  /** Such cycles exist: two pages of one row each, over a view of two. */
  lemma TwoPages() returns (meaning: Cursor -> Place, trail: seq<Read>)
    ensures Cycle(meaning, trail) && Filled(meaning, 1, trail) && |trail| == 2
    ensures Stays(trail, 1) && Stays(trail, 2) && Reached(meaning, trail) == 2
  {
    meaning := c => Place(1, 2);
    var view: set<Rank> := {1, 2};
    trail := [Read(HEAD, 2, view, view, [1], "after 1"), Read("after 1", 2, view, view, [2], HEAD)];
    assert Between(view, -1, 1) == {1};
    assert Honest(meaning, trail[0]) && Honest(meaning, trail[1]);
  }

  lemma {:induction false} BoundKept(meaning: Cursor -> Place, trail: seq<Read>, i: nat)
    requires Cycle(meaning, trail) && i < |trail|
    ensures Standing(meaning, trail[i]).bound == trail[0].asked && Standing(meaning, trail[i]).after >= -1
    ensures trail[i].next == HEAD ==> i == |trail| - 1
  {
    if i > 0 {
      BoundKept(meaning, trail, i - 1);
      assert Honest(meaning, trail[i - 1]) && trail[i - 1].next != HEAD;
    }
  }

  lemma {:induction false} PlacesGrow(meaning: Cursor -> Place, trail: seq<Read>, i: nat, j: nat)
    requires Cycle(meaning, trail) && i < j < |trail|
    ensures meaning(trail[i].next).after <= Standing(meaning, trail[j]).after
    decreases j - i
  {
    assert trail[j - 1].next != HEAD && trail[j - 1 + 1].from == trail[j - 1].next;
    if i + 1 < j {
      PlacesGrow(meaning, trail, i, j - 1);
      assert Honest(meaning, trail[j - 1]);
    }
  }

  lemma {:induction false} DealtUpTo(meaning: Cursor -> Place, trail: seq<Read>, k: Rank)
    requires Cycle(meaning, trail) && Stays(trail, k) && k <= Reached(meaning, trail)
    ensures exists i :: 0 <= i < |trail| && k in trail[i].rows
    decreases |trail|
  {
    var last := |trail| - 1;
    BoundKept(meaning, trail, last);
    assert Honest(meaning, trail[last]);
    if Standing(meaning, trail[last]).after < k {
      if Unlisted(trail, last, k) { assert k in trail[last].rows; }
    } else {
      var pre := trail[..last];
      assert trail[last - 1].next == trail[last - 1 + 1].from;
      assert pre[last - 1] == trail[last - 1];
      assert Stays(pre, k) by {
        forall i | 0 <= i < |pre| && Unlisted(pre, i, k) ensures k in pre[i].readable {
          assert forall j :: 0 <= j < i ==> trail[j] == pre[j];
        }
      }
      DealtUpTo(meaning, pre, k);
      var i :| 0 <= i < |pre| && k in pre[i].rows;
      assert trail[i] == pre[i];
    }
  }

  /**
   No skipping. A row that stays in the view until it is listed is in the pages dealt
   with exactly when the cycle has got past it; it is then in exactly one of them.
   */
  lemma {:induction false} DealtExactlyOnce(meaning: Cursor -> Place, trail: seq<Read>, k: Rank)
    requires Cycle(meaning, trail) && Stays(trail, k)
    ensures (exists i :: 0 <= i < |trail| && k in trail[i].rows) <==> k <= Reached(meaning, trail)
    ensures forall i, j :: (0 <= i < |trail| && 0 <= j < |trail| && k in trail[i].rows && k in trail[j].rows) ==> i == j
  {
    if k <= Reached(meaning, trail) { DealtUpTo(meaning, trail, k); }
    forall i | 0 <= i < |trail| && k in trail[i].rows ensures k <= Reached(meaning, trail) {
      RowAt(meaning, trail, i, k);
    }
    forall i, j | 0 <= i < |trail| && 0 <= j < |trail| && k in trail[i].rows && k in trail[j].rows ensures i == j {
      RowAt(meaning, trail, i, k);
      RowAt(meaning, trail, j, k);
      if i < j { PlacesGrow(meaning, trail, i, j); }
      if j < i { PlacesGrow(meaning, trail, j, i); }
    }
  }

  lemma {:induction false} RowAt(meaning: Cursor -> Place, trail: seq<Read>, i: nat, k: Rank)
    requires Cycle(meaning, trail) && i < |trail| && k in trail[i].rows
    ensures Standing(meaning, trail[i]).after < k <= Reached(meaning, trail)
    ensures trail[i].next != HEAD ==> k <= meaning(trail[i].next).after
  {
    var last := |trail| - 1;
    assert Honest(meaning, trail[i]);
    BoundKept(meaning, trail, i);
    if i < last {
      PlacesGrow(meaning, trail, i, last);
      assert Honest(meaning, trail[last]);
      BoundKept(meaning, trail, last);
    }
  }

  // ------------------------------------------------------------- pass bounds

  /** Every row any read of the cycle could see. */
  ghost predicate Sees(trail: seq<Read>, all: set<Rank>) {
    forall i :: 0 <= i < |trail| ==> trail[i].view <= all
  }

  /** A page that leaves off before the end covers at least `limit` rows of its view. */
  ghost predicate Fills(meaning: Cursor -> Place, limit: nat, r: Read) {
    r.next != HEAD ==> |Between(r.view, Standing(meaning, r).after, meaning(r.next).after)| >= limit
  }

  /** What only a bound on time needs of the store. */
  ghost predicate Filled(meaning: Cursor -> Place, limit: nat, trail: seq<Read>) {
    forall i :: 0 <= i < |trail| ==> Fills(meaning, limit, trail[i])
  }

  /** A page's stretch adds its rows to those before it. */
  lemma StretchAdds(all: set<Rank>, view: set<Rank>, before: int, after: int)
    requires view <= all && -1 <= before <= after
    ensures |Between(all, -1, before)| + |Between(view, before, after)| <= |Between(all, -1, after)|
  {
    var done, page := Between(all, -1, before), Between(view, before, after);
    assert done !! page && done + page <= Between(all, -1, after);
    SubsetSize(done + page, Between(all, -1, after));
  }

  lemma Times(a: nat, b: nat, limit: nat)
    requires a <= b
    ensures a * limit <= b * limit && (a + 1) * limit == a * limit + limit
  {}

  /** How far n reads have got. */
  function After(meaning: Cursor -> Place, trail: seq<Read>, n: nat): int
    requires n <= |trail|
  {
    if n == 0 then -1 else meaning(trail[n - 1].next).after
  }

  lemma {:induction false} FullPages(meaning: Cursor -> Place, limit: nat, trail: seq<Read>, all: set<Rank>, n: nat)
    requires Cycle(meaning, trail) && Filled(meaning, limit, trail) && Sees(trail, all) && n <= |trail|
    requires forall i :: 0 <= i < n ==> trail[i].next != HEAD
    ensures After(meaning, trail, n) >= -1 && n * limit <= |Between(all, -1, After(meaning, trail, n))|
  {
    if n > 0 {
      FullPages(meaning, limit, trail, all, n - 1);
      var r := trail[n - 1];
      assert Honest(meaning, r) && Fills(meaning, limit, r);
      assert n > 1 ==> trail[n - 2 + 1].from == trail[n - 2].next;
      assert Standing(meaning, r).after == After(meaning, trail, n - 1);
      StretchAdds(all, r.view, After(meaning, trail, n - 1), After(meaning, trail, n));
      Times(n - 1, n, limit);
    }
  }

  lemma {:induction false} RowsBehind(meaning: Cursor -> Place, limit: nat, trail: seq<Read>, all: set<Rank>, full: nat)
    requires Cycle(meaning, trail) && Filled(meaning, limit, trail) && Sees(trail, all) && full <= |trail|
    requires forall i :: 0 <= i < full ==> trail[i].next != HEAD
    ensures full * limit <= |all|
  {
    FullPages(meaning, limit, trail, all, full);
    SubsetSize(Between(all, -1, After(meaning, trail, full)), all);
  }

  /**
   No starvation. A cycle over at most n rows, read maxPages pages a pass with
   every pass but the last full, takes at most n / (maxPages * limit) + 1 passes.
   */
  lemma {:induction false} PassesPerCycle(meaning: Cursor -> Place, limit: nat, trail: seq<Read>, all: set<Rank>,
                                          maxPages: nat, passes: nat)
    requires Cycle(meaning, trail) && Filled(meaning, limit, trail) && Sees(trail, all) && passes >= 1
    requires (passes - 1) * maxPages < |trail|
    ensures (passes - 1) * maxPages * limit <= |all|
  {
    RowsBehind(meaning, limit, trail, all, (passes - 1) * maxPages);
  }

  // ------------------------------------------------------- passes over a shard

  /** The position a fully dealt page was read from and the one it ended at. */
  datatype Step = Step(from: Cursor, to: Cursor)

  /**
   A page whose every row was dealt with: where it was read from, the due bound of the
   pass that read it, its rows, and where it ended.
   */
  datatype Page<T> = Page(from: Cursor, due: int, rows: seq<T>, next: Cursor)

  function PageSteps<T>(pages: seq<Page<T>>): (steps: seq<Step>)
    ensures |steps| == |pages|
    ensures forall i :: 0 <= i < |pages| ==> steps[i] == Step(pages[i].from, pages[i].next)
  {
    if pages == [] then []
    else PageSteps(pages[..|pages| - 1]) + [Step(pages[|pages| - 1].from, pages[|pages| - 1].next)]
  }

  /** Steps that follow one another without a gap. */
  ghost predicate Chained(from: Cursor, steps: seq<Step>, to: Cursor)
    decreases |steps|
  {
    if steps == [] then from == to else steps[0].from == from && Chained(steps[0].to, steps[1..], to)
  }

  lemma {:induction false} ChainJoin(a: Cursor, s: seq<Step>, b: Cursor, t: seq<Step>, c: Cursor)
    requires Chained(a, s, b) && Chained(b, t, c)
    ensures Chained(a, s + t, c)
    decreases |s|
  {
    if s == [] {
      assert s + t == t;
    } else {
      ChainJoin(s[0].to, s[1..], b, t, c);
      assert (s + t)[1..] == s[1..] + t;
    }
  }

  lemma ChainAppend(a: Cursor, s: seq<Step>, b: Cursor, c: Cursor)
    requires Chained(a, s, b)
    ensures Chained(a, s + [Step(b, c)], c)
  {
    assert Chained(b, [Step(b, c)], c) by { assert Chained(c, [Step(b, c)][1..], c); }
    ChainJoin(a, s, b, [Step(b, c)], c);
  }

  /** One pass over a shard: where it began, the pages it dealt with whole, what it kept. */
  datatype Visit = Visit(began: Cursor, dealt: seq<Step>, kept: Cursor)

  function Dealt(visits: seq<Visit>): seq<Step> {
    if visits == [] then [] else Dealt(visits[..|visits| - 1]) + visits[|visits| - 1].dealt
  }

  function Kept(visits: seq<Visit>, start: Cursor): Cursor {
    if visits == [] then start else visits[|visits| - 1].kept
  }

  /** Each pass begins where the one before it stopped. */
  ghost predicate Resumes(visits: seq<Visit>, start: Cursor) {
    forall i :: 0 <= i < |visits| ==>
      visits[i].began == Kept(visits[..i], start) && Chained(visits[i].began, visits[i].dealt, visits[i].kept)
  }

  /** Successive passes over a shard leave no gap between them, faulted or not. */
  lemma {:induction false} VisitsChain(visits: seq<Visit>, start: Cursor)
    requires Resumes(visits, start)
    ensures Chained(start, Dealt(visits), Kept(visits, start))
  {
    if visits != [] {
      var last := |visits| - 1;
      var earlier := visits[..last];
      forall i | 0 <= i < last
        ensures earlier[i].began == Kept(earlier[..i], start) &&
          Chained(earlier[i].began, earlier[i].dealt, earlier[i].kept)
      {
        assert earlier[..i] == visits[..i] && earlier[i] == visits[i];
      }
      VisitsChain(earlier, start);
      ChainJoin(start, Dealt(earlier), visits[last].began, visits[last].dealt, visits[last].kept);
    }
  }

  // ------------------------------------------------------------ main results

  function StepsOf(trail: seq<Read>): (steps: seq<Step>)
    ensures |steps| == |trail|
    ensures forall i :: 0 <= i < |trail| ==> steps[i] == Step(trail[i].from, trail[i].next)
  {
    if trail == [] then [] else [Step(trail[0].from, trail[0].next)] + StepsOf(trail[1..])
  }

  lemma {:induction false} ChainLinks(from: Cursor, steps: seq<Step>, to: Cursor, i: nat)
    requires Chained(from, steps, to) && i < |steps|
    ensures steps[i].from == (if i == 0 then from else steps[i - 1].to)
    ensures i == |steps| - 1 ==> steps[i].to == to
    decreases |steps|
  {
    if i > 0 {
      ChainLinks(steps[0].to, steps[1..], to, i - 1);
    }
  }

  /** Reads whose steps are a chain from the head, and of which none but the last reached the end, are one cycle. */
  lemma {:induction false} ChainedCycle(meaning: Cursor -> Place, trail: seq<Read>, kept: Cursor)
    requires trail != [] && Answered(meaning, trail) && Chained(HEAD, StepsOf(trail), kept)
    requires forall i :: 0 <= i < |trail| - 1 ==> trail[i].next != HEAD
    ensures Cycle(meaning, trail) && kept == trail[|trail| - 1].next
  {
    hide Answered, Chained;
    ChainLinks(HEAD, StepsOf(trail), kept, 0);
    ChainLinks(HEAD, StepsOf(trail), kept, |trail| - 1);
    forall i | 0 <= i < |trail| - 1
      ensures trail[i].next != HEAD && trail[i + 1].from == trail[i].next
    {
      ChainLinks(HEAD, StepsOf(trail), kept, i + 1);
    }
  }

  /** Where page i of pages read one after the other from `start` is read from. */
  function From<T>(start: Cursor, pages: seq<Page<T>>, i: nat): Cursor
    requires i <= |pages|
  {
    if i == 0 then start else pages[i - 1].next
  }

  /** Pages each read from where the one before it ended are a chain. */
  lemma {:induction false} LinkedPages<T>(start: Cursor, pages: seq<Page<T>>, kept: Cursor)
    requires forall i :: 0 <= i < |pages| ==> pages[i].from == From(start, pages, i)
    requires kept == From(start, pages, |pages|)
    ensures Chained(start, PageSteps(pages), kept)
    decreases |pages|
  {
    if pages != [] {
      var front, last := pages[..|pages| - 1], pages[|pages| - 1];
      assert forall i :: 0 <= i <= |front| ==> From(start, front, i) == From(start, pages, i);
      LinkedPages(start, front, last.from);
      ChainAppend(start, PageSteps(front), last.from, last.next);
    }
  }
}
