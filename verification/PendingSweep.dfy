/**
 The placement sweep over open commands: it reads a shard's pages, groups their rows
 by session and hands placement one request for each session that needs a Host.
 */
module PendingSweep {
  import opened Common
  import opened Settlement
  import opened Rotor
  import opened Paging
  import opened PendingWork

  datatype ListReply = Rows(commands: seq<Row>, examined: nat, unreadable: nat, next: Cursor) | CursorRefused
    | ListFault

  /** The store, answering call number n. */
  type Store = (nat, nat, Query) -> ListReply

  /** The store as reads with one due bound see it. */
  type Lister = (nat, nat, Cursor) -> ListReply

  function Bounded(store: Store, due: Instant): Lister {
    (n: nat, shard: nat, cursor: Cursor) => store(n, shard, Asking(cursor, due))
  }

  // ------------------------------------------------------------ reading pages

  /** A bounded read: whether it ended well, the position to keep, the rows and pages read. */
  datatype Walked = Walked(ok: bool, refused: bool, next: Cursor, rows: seq<Row>, steps: seq<Step>, truncated: bool)

  function Prepend(rows: seq<Row>, steps: seq<Step>, w: Walked): Walked {
    w.(rows := rows + w.rows, steps := steps + w.steps)
  }

  /** Pages from a position, `budget` at most, the store answering call number n. */
  function Walk(list: Lister, shard: nat, cursor: Cursor, n: nat, budget: nat): Walked
    decreases budget
  {
    if budget == 0 then Walked(true, false, cursor, [], [], true)
    else match list(n, shard, cursor)
      case CursorRefused => Walked(false, true, HEAD, [], [], false)
      case ListFault => Walked(false, false, cursor, [], [], false)
      case Rows(rows, _, _, next) =>
        if next == HEAD then Walked(true, false, HEAD, rows, [Step(cursor, HEAD)], false)
        else Prepend(rows, [Step(cursor, next)], Walk(list, shard, next, n + 1, budget - 1))
  }

  /** The pages read join up, stop at the kept position, and only a truncated read stops short of the end. */
  lemma {:induction false} WalkJoins(list: Lister, shard: nat, cursor: Cursor, n: nat, budget: nat)
    ensures var w := Walk(list, shard, cursor, n, budget);
      && (w.refused ==> !w.ok && w.next == HEAD)
      && (!w.refused ==> Chained(cursor, w.steps, w.next))
      && |w.steps| <= budget && (w.truncated ==> w.ok && |w.steps| == budget)
      && (budget >= 1 && w.ok ==> w.truncated == (w.next != HEAD))
      && (w.ok && !w.truncated ==> w.steps != [])
    decreases budget
  {
    if budget > 0 {
      match list(n, shard, cursor)
      case Rows(rows, _, _, next) =>
        if next == HEAD {
          assert Chained(HEAD, [Step(cursor, HEAD)][1..], HEAD);
        } else {
          WalkJoins(list, shard, next, n + 1, budget - 1);
          var rest := Walk(list, shard, next, n + 1, budget - 1);
          assert ([Step(cursor, next)] + rest.steps)[1..] == rest.steps;
        }
      case _ =>
    }
  }

  /** One more page on top of those already read. */
  lemma WalkStep(list: Lister, shard: nat, cursor: Cursor, n: nat, budget: nat, rows: seq<Row>, steps: seq<Step>)
    ensures var whole := Prepend(rows, steps, Walk(list, shard, cursor, n, budget));
      if budget == 0 then whole == Walked(true, false, cursor, rows, steps, true)
      else match list(n, shard, cursor)
        case CursorRefused => whole == Walked(false, true, HEAD, rows, steps, false)
        case ListFault => whole == Walked(false, false, cursor, rows, steps, false)
        case Rows(more, _, _, next) =>
          var all, joined := rows + more, steps + [Step(cursor, next)];
          whole == if next == HEAD then Walked(true, false, HEAD, all, joined, false)
                   else Prepend(all, joined, Walk(list, shard, next, n + 1, budget - 1))
  {
    assert rows + [] == rows && steps + [] == steps;
    if budget > 0 && list(n, shard, cursor).Rows? {
      var more, next := list(n, shard, cursor).commands, list(n, shard, cursor).next;
      if next != HEAD {
        var rest := Walk(list, shard, next, n + 1, budget - 1);
        assert rows + (more + rest.rows) == (rows + more) + rest.rows;
        assert steps + ([Step(cursor, next)] + rest.steps) == (steps + [Step(cursor, next)]) + rest.steps;
      }
    }
  }

  /** collectPages: a failed read hands back no session at all. */
  method CollectPages(store: Store, shard: nat, start: Cursor, now: Instant, horizon: int, first: nat, budget: nat)
    returns (inv: Inventory, ok: bool, next: Cursor, pages: nat, truncated: bool)
    ensures var w := Walk(Bounded(store, now + horizon), shard, start, first, budget);
      && ok == w.ok && next == w.next && pages == |w.steps| && truncated == w.truncated
      && inv == if w.ok then Group(Stamp(w.rows, now)) else EMPTY
  {
    hide Walk, Group;
    ghost var list := Bounded(store, now + horizon);
    ghost var w := Walk(list, shard, start, first, budget);
    inv, next, pages := EMPTY, start, 0;
    ghost var rows: seq<Row>, steps: seq<Step> := [], [];
    assert w == Prepend(rows, steps, w);
    assert inv == Group(Stamp(rows, now)) by { GroupNothing(now); }
    for i := 0 to budget
      invariant w == Prepend(rows, steps, Walk(list, shard, next, first + i, budget - i))
      invariant inv == Group(Stamp(rows, now)) && pages == |steps| == i
    {
      WalkStep(list, shard, next, first + i, budget - i, rows, steps);
      var query := Query(next, None);
      if next == HEAD { query := query.(bound := Some(now + horizon)); }
      var reply := store(first + i, shard, query);
      assert query == Asking(next, now + horizon) && reply == list(first + i, shard, next);
      match reply {
        case CursorRefused => return EMPTY, false, HEAD, pages, false;
        case ListFault => return EMPTY, false, next, pages, false;
        case Rows(commands, _, _, following) =>
          pages := pages + 1;
          inv := AbsorbPage(inv, commands, now, Stamp(rows, now));
          StampJoin(rows, commands, now);
          rows, steps := rows + commands, steps + [Step(next, following)];
          next := following;
          if next == HEAD { return inv, true, HEAD, pages, false; }
      }
    }
    WalkStep(list, shard, next, first + budget, 0, rows, steps);
    ok, truncated := true, true;
  }

  lemma GroupNothing(now: Instant)
    ensures Group(Stamp([], now)) == EMPTY
  {}

  lemma StampJoin(a: seq<Row>, b: seq<Row>, now: Instant)
    ensures Stamp(a, now) + Stamp(b, now) == Stamp(a + b, now)
  {}

  // ------------------------------------------------------------------ the sweep

  datatype Outcome = Undecided | ReuseOwner | AttachPooled | ReconcileDedicated | NoCapacity

  datatype PlaceReply =
    | SessionReleased
    | NoController
    | PlaceFailed(contextEnded: bool)
    | Deferred
    | Placed(outcome: Outcome, attached: bool)

  datatype Result = Result(sessions: nat, released: nat, noController: nat, failures: nat, deferred: nat,
                           placed: nat, attached: nat)

  /** The requests a pass owes: one for each session with a reason to be resident, in order. */
  function Owed(order: seq<Key>, sessions: map<Key, Open>): seq<Request>
    requires forall i :: 0 <= i < |order| ==> order[i] in sessions
  {
    if order == [] then []
    else
      var k := order[|order| - 1];
      Owed(order[..|order| - 1], sessions) + if sessions[k].needsHost then [RequestFor(k, sessions[k])] else []
  }

  function Noted(r: Result, reply: PlaceReply): Result {
    var asked := r.(sessions := r.sessions + 1);
    match reply
    case SessionReleased => asked.(released := r.released + 1)
    case NoController => asked.(noController := r.noController + 1)
    case PlaceFailed(_) => asked.(failures := r.failures + 1)
    case Deferred => asked.(deferred := r.deferred + 1)
    case Placed(_, attached) => asked.(placed := r.placed + 1, attached := r.attached + if attached then 1 else 0)
  }

  /** The result of putting these requests to placement, one after the other. */
  function Tally(place: (nat, Request) -> PlaceReply, asked: seq<Request>): Result {
    if asked == [] then Result(0, 0, 0, 0, 0, 0, 0)
    else Noted(Tally(place, asked[..|asked| - 1]), place(|asked| - 1, asked[|asked| - 1]))
  }

  /** Every request is counted under exactly one outcome. */
  lemma {:induction false} TallyAdds(place: (nat, Request) -> PlaceReply, asked: seq<Request>)
    ensures var r := Tally(place, asked);
      r.sessions == |asked| == r.released + r.noController + r.failures + r.deferred + r.placed &&
        r.attached <= r.placed
  {
    if asked != [] { TallyAdds(place, asked[..|asked| - 1]); }
  }

  lemma TallyMore(place: (nat, Request) -> PlaceReply, asked: seq<Request>, request: Request)
    ensures Tally(place, asked + [request]) == Noted(Tally(place, asked), place(|asked|, request))
  {
    assert (asked + [request])[..|asked|] == asked;
  }

  /** What each answer adds, counter by counter. */
  lemma TallyStep(place: (nat, Request) -> PlaceReply, asked: seq<Request>, request: Request)
    ensures var r, s, a := Tally(place, asked), Tally(place, asked + [request]), place(|asked|, request);
      && s.sessions == r.sessions + 1
      && s.released == r.released + (if a.SessionReleased? then 1 else 0)
      && s.noController == r.noController + (if a.NoController? then 1 else 0)
      && s.failures == r.failures + (if a.PlaceFailed? then 1 else 0)
      && s.deferred == r.deferred + (if a.Deferred? then 1 else 0)
      && s.placed == r.placed + (if a.Placed? then 1 else 0)
      && s.attached == r.attached + (if a.Placed? && a.attached then 1 else 0)
  {
    TallyMore(place, asked, request);
  }

  lemma OwedMore(order: seq<Key>, sessions: map<Key, Open>, i: nat)
    requires i < |order| && forall k :: 0 <= k < |order| ==> order[k] in sessions
    ensures Owed(order[..i + 1], sessions) ==
      Owed(order[..i], sessions)
      + if sessions[order[i]].needsHost then [RequestFor(order[i], sessions[order[i]])] else []
  {
    assert order[..i + 1][..i] == order[..i];
  }

  lemma {:induction false} OwedPrefix(order: seq<Key>, sessions: map<Key, Open>, i: nat)
    requires i <= |order| && forall k :: 0 <= k < |order| ==> order[k] in sessions
    ensures Owed(order[..i], sessions) <= Owed(order, sessions)
  {
    if i < |order| {
      OwedPrefix(order[..|order| - 1], sessions, i);
      assert order[..|order| - 1][..i] == order[..i];
    } else {
      assert order[..i] == order;
    }
  }

  type Placer = (nat, Request) -> PlaceReply

  /** The last of these requests met the end of the pass's own context. */
  predicate Stopped(place: Placer, asked: seq<Request>) {
    asked != [] && place(|asked| - 1, asked[|asked| - 1]) == PlaceFailed(true)
  }

  /** The requests put to placement: all that are owed, or those up to the one at which the context ended. */
  function Through(place: Placer, owed: seq<Request>): seq<Request> {
    if owed == [] then []
    else
      var before := Through(place, owed[..|owed| - 1]);
      if Stopped(place, before) then before else before + [owed[|owed| - 1]]
  }

  lemma {:induction false} ThroughIsPrefix(place: Placer, owed: seq<Request>)
    ensures Through(place, owed) <= owed
    ensures !Stopped(place, Through(place, owed)) ==> Through(place, owed) == owed
  {
    hide Stopped;
    if owed != [] {
      var front := owed[..|owed| - 1];
      ThroughIsPrefix(place, front);
      var before := Through(place, front);
      hide Through;
      assert owed == front + [owed[|owed| - 1]];
      assert before <= owed;
    }
  }

  lemma ThroughMore(place: Placer, asked: seq<Request>, request: Request)
    requires Through(place, asked) == asked && !Stopped(place, asked)
    ensures Through(place, asked + [request]) == asked + [request]
  {
    assert (asked + [request])[..|asked|] == asked;
  }

  /** Where the context has ended, nothing more is asked. */
  lemma {:induction false} ThroughStays(place: Placer, asked: seq<Request>, owed: seq<Request>)
    requires asked <= owed && Through(place, asked) == asked && Stopped(place, asked)
    ensures Through(place, owed) == asked
  {
    if asked != owed {
      ThroughStays(place, asked, owed[..|owed| - 1]);
    }
  }

  /** One request put to placement, and its answer counted. */
  method PlaceOne(place: Placer, request: Request, before: Result, ghost asked: seq<Request>)
    returns (r: Result, ended: bool)
    requires before == Tally(place, asked) && before.sessions == |asked|
    ensures r == Tally(place, asked + [request]) && r.sessions == |asked| + 1
    ensures ended == Stopped(place, asked + [request])
  {
    TallyMore(place, asked, request);
    hide Tally;
    var reply := place(before.sessions, request);
    r, ended := before.(sessions := before.sessions + 1), false;
    match reply {
      case SessionReleased => r := r.(released := r.released + 1);
      case NoController => r := r.(noController := r.noController + 1);
      case PlaceFailed(contextEnded) =>
        r := r.(failures := r.failures + 1);
        ended := contextEnded;
      case Deferred => r := r.(deferred := r.deferred + 1);
      case Placed(_, attached) =>
        r := r.(placed := r.placed + 1, attached := r.attached + if attached then 1 else 0);
    }
  }

  /** Sweep's second half: one reconciliation per owed session; one failure stops nothing but itself. */
  method PlaceAll(inv: Inventory, place: Placer) returns (r: Result, ended: bool, asked: seq<Request>)
    requires forall i :: 0 <= i < |inv.order| ==> inv.order[i] in inv.sessions
    ensures asked == Through(place, Owed(inv.order, inv.sessions))
    ensures ended == Stopped(place, asked) && r == Tally(place, asked)
  {
    r, asked := Result(0, 0, 0, 0, 0, 0, 0), [];
    assert Owed(inv.order[..0], inv.sessions) == [] && Tally(place, []) == r && Through(place, asked) == asked;
    hide Tally, Owed, RequestFor, Through;
    for i := 0 to |inv.order|
      invariant asked == Owed(inv.order[..i], inv.sessions) && r == Tally(place, asked) && r.sessions == |asked|
      invariant Through(place, asked) == asked && !Stopped(place, asked)
    {
      OwedMore(inv.order, inv.sessions, i);
      OwedPrefix(inv.order, inv.sessions, i + 1);
      var key := inv.order[i];
      if inv.sessions[key].needsHost {
        var request := RequestFor(key, inv.sessions[key]);
        ThroughMore(place, asked, request);
        r, ended := PlaceOne(place, request, r, asked);
        asked := asked + [request];
        if ended {
          ThroughStays(place, asked, Owed(inv.order, inv.sessions));
          return;
        }
      }
    }
    assert inv.order[..|inv.order|] == inv.order;
    ended := false;
  }

  /** What a pass over rows judged at an instant owes placement. */
  ghost function OwedFor(rows: seq<Row>, now: Instant): seq<Request> {
    var inv := Group(Stamp(rows, now));
    GroupedOrder(Stamp(rows, now));
    Owed(inv.order, inv.sessions)
  }

  /**
   What a pass asks of placement: nothing after a read that failed, and otherwise what it
   owes, until its context ends.
   */
  ghost function AskedBy(place: Placer, w: Walked, now: Instant): seq<Request> {
    if w.ok then Through(place, OwedFor(w.rows, now)) else []
  }

  /** PendingSweeper.Sweep, after authorization. */
  method Sweep(rotor: PendingRotor, shards: int, store: Store, place: Placer, now: Instant, horizon: int, maxPages: nat)
    returns (ok: bool, r: Result, ghost w: Walked, asked: seq<Request>)
    requires maxPages >= 1
    modifies rotor
    ensures shards < MIN_CONTROL_SHARDS ==> !ok && rotor.Abs() == old(rotor.Abs()) && asked == []
    ensures shards >= MIN_CONTROL_SHARDS ==>
      && rotor.Abs() == AfterPass(old(rotor.Abs()), Rotor.Pass(shards, w.next))
      && var choice := Begin(old(rotor.Abs()), shards);
      && w == Walk(Bounded(store, now + horizon), choice.shard, choice.cursor, 0, maxPages)
      && asked == AskedBy(place, w, now) && ok == (w.ok && !Stopped(place, asked))
    ensures forall req :: req in asked ==> ExactFor(req, w.rows, now)
    ensures r == Tally(place, asked)
  {
    hide Walk, Group, Through, Owed;
    r, w, asked := Result(0, 0, 0, 0, 0, 0, 0), Walked(false, false, HEAD, [], [], false), [];
    var choice := rotor.BeginPass(shards);
    if choice.Refused? { return false, r, w, asked; }
    var inv, good, next, pages, truncated;
    inv, good, next, pages, truncated := CollectPages(store, choice.shard, choice.cursor, now, horizon, 0, maxPages);
    w := Walk(Bounded(store, now + horizon), choice.shard, choice.cursor, 0, maxPages);
    rotor.Commit(choice.shard, next);
    if !good { return false, r, w, asked; }
    GroupedOrder(Stamp(w.rows, now));
    var ended;
    r, ended, asked := PlaceAll(inv, place);
    ok := !ended;
    OwedExactly(w.rows, now);
    ThroughIsPrefix(place, OwedFor(w.rows, now));
    hide ExactFor;
    assert forall req :: req in asked ==> req in OwedFor(w.rows, now);
  }

  lemma {:induction false} OwedHas(order: seq<Key>, sessions: map<Key, Open>, i: nat)
    requires forall i :: 0 <= i < |order| ==> order[i] in sessions
    requires i < |order| && sessions[order[i]].needsHost
    ensures RequestFor(order[i], sessions[order[i]]) in Owed(order, sessions)
  {
    if i < |order| - 1 {
      OwedHas(order[..|order| - 1], sessions, i);
    }
  }

  lemma {:induction false} OwedOnly(order: seq<Key>, sessions: map<Key, Open>, req: Request)
    requires forall i :: 0 <= i < |order| ==> order[i] in sessions
    requires req in Owed(order, sessions)
    ensures req.key in sessions && req == RequestFor(req.key, sessions[req.key]) && sessions[req.key].needsHost
  {
    var k := order[|order| - 1];
    if req != RequestFor(k, sessions[k]) || !sessions[k].needsHost { OwedOnly(order[..|order| - 1], sessions, req); }
  }

  /** One of the requests is for this row's session and names all that the row needs. */
  ghost predicate Delivered(asked: seq<Request>, row: Row, now: Instant) {
    exists req :: req in asked && req.key == row.key && Holds(req, Seen(row, now))
  }

  /** One of the session's rows passes the test, judged at this instant, and is of this command. */
  ghost predicate Asks(rows: seq<Row>, now: Instant, k: Key, test: Seen -> bool, c: nat) {
    exists i :: 0 <= i < |rows| && rows[i].key == k && rows[i].command == c && test(Seen(rows[i], now))
  }

  ghost predicate AnyAsks(rows: seq<Row>, now: Instant, k: Key, test: Seen -> bool) {
    exists i :: 0 <= i < |rows| && rows[i].key == k && test(Seen(rows[i], now))
  }

  /** The request names exactly what its session's rows need, each capability for exactly the commands that need it. */
  ghost predicate ExactFor(req: Request, rows: seq<Row>, now: Instant) {
    && (forall c :: c in req.wake <==> Asks(rows, now, req.key, Waking, c))
    && (forall c :: c in req.gates <==> Asks(rows, now, req.key, Gated, c))
    && (forall c :: c in req.references <==> Asks(rows, now, req.key, Referring, c))
    && (forall c :: c in req.principals <==> Asks(rows, now, req.key, Stamped, c))
    && (req.restore <==> AnyAsks(rows, now, req.key, Restoring))
  }

  lemma {:induction false} OwnRows(rows: seq<Row>, now: Instant, k: Key, test: Seen -> bool)
    ensures var own := OfSession(Stamp(rows, now), k);
      && (forall c :: Concerns(own, test, c) <==> Asks(rows, now, k, test, c))
      && ((exists i :: 0 <= i < |own| && test(own[i])) <==> AnyAsks(rows, now, k, test))
  {
    var seen := Stamp(rows, now);
    var own := OfSession(seen, k);
    OfSessionKeys(seen, k);
    hide OfSession;
    forall i | 0 <= i < |own| ensures exists j :: 0 <= j < |rows| && rows[j].key == k && own[i] == Seen(rows[j], now) {
      var j :| 0 <= j < |seen| && seen[j] == own[i];
    }
    forall j | 0 <= j < |rows| && rows[j].key == k ensures exists i :: 0 <= i < |own| && own[i] == Seen(rows[j], now) {
      assert seen[j] in own;
    }
  }

  lemma {:induction false} OwnExactly(rows: seq<Row>, now: Instant, k: Key)
    ensures var own := Fold(OfSession(Stamp(rows, now), k));
      ExactFor(RequestFor(k, own), rows, now) && (own.needsHost <==> AnyAsks(rows, now, k, Resident))
  {
    FoldExactly(k, OfSession(Stamp(rows, now), k));
    OwnRows(rows, now, k, Waking);
    OwnRows(rows, now, k, Gated);
    OwnRows(rows, now, k, Referring);
    OwnRows(rows, now, k, Stamped);
    OwnRows(rows, now, k, Restoring);
    OwnRows(rows, now, k, Resident);
    hide Fold, OfSession, Stamp, Concerns, Asks, AnyAsks, RequestFor;
  }

  lemma {:induction false} OwedKeys(order: seq<Key>, sessions: map<Key, Open>)
    requires forall i :: 0 <= i < |order| ==> order[i] in sessions
    requires Distinct(order)
    ensures forall i :: 0 <= i < |Owed(order, sessions)| ==> Owed(order, sessions)[i].key in order
    ensures forall i, j :: 0 <= i < j < |Owed(order, sessions)| ==>
      Owed(order, sessions)[i].key != Owed(order, sessions)[j].key
  {
    if order != [] {
      var front := order[..|order| - 1];
      OwedKeys(front, sessions);
      assert forall k :: k in front ==> k in order && k != order[|order| - 1];
    }
  }

  /**
   What a pass owes, exactly: one request for every session with a row that gives it a
   reason to be resident and none for any other, holding just what its rows need.
   */
  lemma {:induction false} OwedExactly(rows: seq<Row>, now: Instant)
    ensures forall req :: req in OwedFor(rows, now) ==> ExactFor(req, rows, now)
    ensures forall k ::
      (exists i :: 0 <= i < |OwedFor(rows, now)| && OwedFor(rows, now)[i].key == k) <==>
      AnyAsks(rows, now, k, Resident)
    ensures forall i, j :: 0 <= i < j < |OwedFor(rows, now)| ==> OwedFor(rows, now)[i].key != OwedFor(rows, now)[j].key
  {
    var seen, owed := Stamp(rows, now), OwedFor(rows, now);
    var inv := Group(seen);
    GroupMeaning(seen);
    OwedKeys(inv.order, inv.sessions);
    hide Fold, Owed, Group, ExactFor, AnyAsks, RequestFor;
    forall req | req in owed
      ensures ExactFor(req, rows, now) && AnyAsks(rows, now, req.key, Resident)
    {
      OwedOnly(inv.order, inv.sessions, req);
      OwnExactly(rows, now, req.key);
    }
    forall k | AnyAsks(rows, now, k, Resident)
      ensures exists i :: 0 <= i < |owed| && owed[i].key == k
    {
      SessionOwed(rows, now, k);
    }
  }

  lemma {:induction false} SessionOwed(rows: seq<Row>, now: Instant, k: Key)
    requires AnyAsks(rows, now, k, Resident)
    ensures exists i :: 0 <= i < |OwedFor(rows, now)| && OwedFor(rows, now)[i].key == k
  {
    var i :| 0 <= i < |rows| && rows[i].key == k && Resident(Seen(rows[i], now));
    EveryRowHandedOver(rows, now, i);
    hide OwedFor, Holds;
    var req :| req in OwedFor(rows, now) && req.key == k;
    var n :| 0 <= n < |OwedFor(rows, now)| && OwedFor(rows, now)[n] == req;
  }

  /** Whatever is asked for a row's session names all that the row needs. */
  lemma {:induction false} OwedHolds(rows: seq<Row>, now: Instant, i: nat, req: Request)
    requires i < |rows| && req in OwedFor(rows, now) && req.key == rows[i].key
    ensures Holds(req, Seen(rows[i], now))
  {
    hide Holds, Owed, Fold;
    var seen := Stamp(rows, now);
    GroupedOrder(seen);
    OwedOnly(Group(seen).order, Group(seen).sessions, req);
    GroupedSession(seen, req.key);
    OfSessionKeys(seen, req.key);
    var own := OfSession(seen, req.key);
    assert seen[i] in own;
    var j :| 0 <= j < |own| && own[j] == seen[i];
    FoldHolds(req.key, own, j);
  }

  /**
   What a pass owes covers every row it read that gives its session a reason to be
   resident, in a request that names all that row needs.
   */
  lemma {:induction false} EveryRowHandedOver(rows: seq<Row>, now: Instant, i: nat)
    requires i < |rows| && Resident(Seen(rows[i], now))
    ensures Delivered(OwedFor(rows, now), rows[i], now)
  {
    hide Holds, Fold, Owed;
    var seen := Stamp(rows, now);
    var inv := Group(seen);
    var k := rows[i].key;
    GroupMeaning(seen);
    OfSessionKeys(seen, k);
    var own := OfSession(seen, k);
    assert seen[i] in own;
    var j :| 0 <= j < |own| && own[j] == seen[i];
    FoldHolds(k, own, j);
    var at :| 0 <= at < |inv.order| && inv.order[at] == k;
    OwedHas(inv.order, inv.sessions, at);
  }
}
