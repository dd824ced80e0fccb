/**
 Placement triggered by one admitted command. Whatever it asks placement for, the
 request names all of the session's open work up to that command, so an earlier
 command's capability needs still constrain the Host that is chosen.
 */
module AdmissionFastPath {
  import opened Common
  import opened Settlement
  import opened Rotor
  import opened Paging
  import opened PendingWork
  import opened PendingSweep

  datatype Notice = Notice(key: Key, command: nat, order: nat, deadline: Instant, pending: bool)

  datatype SessionReply = SessionRows(rows: seq<Row>, nextAfter: nat) | SessionFault

  datatype OwnerReply = Unasked | OwnerFault | Reusable | NotReusable

  /** The store, the clock and the directory, each answering its own call number. */
  datatype Env = Env(clock: nat -> Instant, owner: OwnerReply, hasHistory: bool,
                     history: (nat, nat) -> SessionReply, store: Store, horizon: int, shards: nat,
                     pageLimit: nat, maxPages: nat)

  datatype Answer = Unauthorized | Nothing | Failed | Asked(request: Request)

  const MAX_DUE_PAGES: nat := 2

  // ------------------------------------------------------- the session's history

  /**
   The store's acceptance-ordered read: a page holds every command accepted after
   the position and up to the next one, and a page that is not full ends the
   history. `accepted` is the orders of the session's commands.
   */
  ghost predicate HonestPage(env: Env, notice: Notice, accepted: set<nat>, after: nat, rows: seq<Row>, nextAfter: nat) {
    && (forall i :: 0 <= i < |rows| ==> rows[i].key == notice.key && after < rows[i].order <= nextAfter)
    && (forall i :: 0 <= i < |rows| && rows[i].command == notice.command ==> rows[i].order == notice.order)
    && (forall o :: o in accepted && after < o && (o <= nextAfter || |rows| < env.pageLimit) ==> Shows(rows, o))
  }

  ghost predicate Shows(rows: seq<Row>, o: nat) { exists i :: 0 <= i < |rows| && rows[i].order == o }

  ghost predicate HonestHistory(env: Env, notice: Notice, accepted: set<nat>) {
    forall n, after: nat :: n >= 0 && env.history(n, after).SessionRows? ==>
      HonestPage(env, notice, accepted, after, env.history(n, after).rows, env.history(n, after).nextAfter)
  }

  ghost predicate SeenOrder(seen: seq<Seen>, o: nat) { exists i :: 0 <= i < |seen| && seen[i].row.order == o }

  /** Every command accepted no later than `upTo` was read. */
  ghost predicate Covers(seen: seq<Seen>, accepted: set<nat>, upTo: int) {
    forall o :: o in accepted && o <= upTo ==> SeenOrder(seen, o)
  }

  /** Rows of this session only, none after `upTo`. */
  ghost predicate Within(seen: seq<Seen>, notice: Notice, upTo: nat) {
    forall i :: 0 <= i < |seen| ==>
      && seen[i].row.key == notice.key && seen[i].row.order <= upTo
      && (seen[i].row.command == notice.command ==> seen[i].row.order == notice.order)
  }

  lemma SeenGrows(seen: seq<Seen>, more: seq<Seen>, o: nat)
    requires SeenOrder(seen, o) || SeenOrder(more, o)
    ensures SeenOrder(seen + more, o)
  {
    if SeenOrder(seen, o) {
      var i :| 0 <= i < |seen| && seen[i].row.order == o;
      assert (seen + more)[i].row.order == o;
    } else {
      var i :| 0 <= i < |more| && more[i].row.order == o;
      assert (seen + more)[|seen| + i].row.order == o;
    }
  }

  /** Rows judged one by one, each at its own reading of the clock. */
  function Clocked(env: Env, rows: seq<Row>, reading: nat): (r: seq<Seen>)
    ensures |r| == |rows| && forall i :: 0 <= i < |rows| ==> r[i] == Seen(rows[i], env.clock(reading + i))
  {
    if rows == [] then []
    else Clocked(env, rows[..|rows| - 1], reading) + [Seen(rows[|rows| - 1], env.clock(reading + |rows| - 1))]
  }

  method AddRows(env: Env, target: Open, rows: seq<Row>, reading: nat, ghost before: seq<Seen>) returns (r: Open)
    requires target == Fold(before)
    ensures r == Fold(before + Clocked(env, rows, reading))
  {
    hide Add, Fold;
    r := target;
    assert before + Clocked(env, rows[..0], reading) == before;
    for i := 0 to |rows|
      invariant r == Fold(before + Clocked(env, rows[..i], reading))
    {
      var one := Seen(rows[i], env.clock(reading + i));
      ghost var so := before + Clocked(env, rows[..i], reading);
      FoldAppend(so, one);
      assert before + Clocked(env, rows[..i + 1], reading) == so + [one];
      r := Add(r, one);
    }
    assert rows[..|rows|] == rows;
  }

  lemma PageCovers(env: Env, notice: Notice, accepted: set<nat>, after: nat, rows: seq<Row>, nextAfter: nat,
                   seen: seq<Seen>, added: seq<Seen>)
    requires HonestPage(env, notice, accepted, after, rows, nextAfter) && after <= nextAfter
    requires Covers(seen, accepted, after) && Within(seen, notice, after)
    requires |added| == |rows| && forall i :: 0 <= i < |rows| ==> added[i].row == rows[i]
    ensures Covers(seen + added, accepted, nextAfter) && Within(seen + added, notice, nextAfter)
    ensures |rows| < env.pageLimit ==> forall o :: o in accepted ==> SeenOrder(seen + added, o)
  {
    forall o | o in accepted && (o <= nextAfter || |rows| < env.pageLimit) ensures SeenOrder(seen + added, o) {
      if o > after {
        assert Shows(rows, o);
        var i :| 0 <= i < |rows| && rows[i].order == o;
        assert added[i].row.order == o;
      }
      SeenGrows(seen, added, o);
    }
  }

  lemma WakeWasSeen(seen: seq<Seen>, notice: Notice, upTo: nat)
    requires Within(seen, notice, upTo) && notice.command in Fold(seen).wake
    ensures notice.order <= upTo
  {
    FoldMeaning(seen);
    PickOnly(seen, Waking, notice.command);
  }

  datatype HistoryRead = HistoryRead(ok: bool, seen: seq<Seen>, readings: nat)

  /** The session's history as far as it is read: up to the admitted command, maxPages pages at most. */
  function History(env: Env, notice: Notice, n: nat, after: nat, readings: nat, seen: seq<Seen>): HistoryRead
    decreases env.maxPages - n
  {
    if n >= env.maxPages then HistoryRead(true, seen, readings)
    else match env.history(n, after)
      case SessionFault => HistoryRead(false, [], readings)
      case SessionRows(rows, nextAfter) =>
        if |rows| == 0 then HistoryRead(true, seen, readings)
        else if nextAfter <= after then HistoryRead(false, [], readings)
        else
          var more := seen + Clocked(env, rows, readings);
          if (nextAfter >= notice.order && notice.command in Fold(more).wake) || |rows| < env.pageLimit
          then HistoryRead(true, more, readings + |rows|)
          else History(env, notice, n + 1, nextAfter, readings + |rows|, more)
  }

  /** Once the admitted command was read within a covered stretch, everything up to it was. */
  lemma MetWithin(notice: Notice, accepted: set<nat>, seen: seq<Seen>, upTo: nat)
    requires Covers(seen, accepted, upTo) && Within(seen, notice, upTo)
    ensures notice.command in Fold(seen).wake ==> Covers(seen, accepted, notice.order)
  {
    if notice.command in Fold(seen).wake { WakeWasSeen(seen, notice, upTo); }
  }

  /** A history read that meets the admitted command has met everything accepted up to it. */
  lemma {:induction false} HistoryCovers(env: Env, notice: Notice, accepted: set<nat>, n: nat, after: nat,
                                         readings: nat, seen: seq<Seen>)
    requires HonestHistory(env, notice, accepted) && Covers(seen, accepted, after) && Within(seen, notice, after)
    ensures var h := History(env, notice, n, after, readings, seen);
      h.ok && notice.command in Fold(h.seen).wake ==> Covers(h.seen, accepted, notice.order)
    decreases env.maxPages - n
  {
    MetWithin(notice, accepted, seen, after);
    if n < env.maxPages && env.history(n, after).SessionRows? && env.history(n, after).nextAfter > after {
      var rows, nextAfter := env.history(n, after).rows, env.history(n, after).nextAfter;
      var more := seen + Clocked(env, rows, readings);
      assert HonestPage(env, notice, accepted, after, rows, nextAfter);
      PageCovers(env, notice, accepted, after, rows, nextAfter, seen, Clocked(env, rows, readings));
      hide Covers, Within, HonestHistory, HonestPage, Fold, Clocked;
      MetWithin(notice, accepted, more, nextAfter);
      HistoryCovers(env, notice, accepted, n + 1, nextAfter, readings + |rows|, more);
    }
  }

  lemma {:induction false} NoRows()
    ensures Fold([]) == NOTHING
  {}

  /** The session half of collectAdmissionSession. */
  method ReadHistory(env: Env, notice: Notice) returns (ok: bool, target: Open, readings: nat)
    ensures var h := History(env, notice, 0, 0, 1, []);
      ok == h.ok && readings == h.readings && (ok ==> target == Fold(h.seen))
  {
    hide Fold, Clocked;
    ghost var h := History(env, notice, 0, 0, 1, []);
    ghost var seen: seq<Seen> := [];
    assert NOTHING == Fold(seen) by { NoRows(); }
    target, readings := NOTHING, 1;
    var after: nat := 0;
    for n := 0 to env.maxPages
      invariant target == Fold(seen) && h == History(env, notice, n, after, readings, seen)
    {
      var reply := env.history(n, after);
      if reply.SessionFault? { return false, NOTHING, readings; }
      if |reply.rows| == 0 { return true, target, readings; }
      if reply.nextAfter <= after { return false, NOTHING, readings; }
      target := AddRows(env, target, reply.rows, readings, seen);
      seen := seen + Clocked(env, reply.rows, readings);
      readings := readings + |reply.rows|;
      if reply.nextAfter >= notice.order && notice.command in target.wake { return true, target, readings; }
      if |reply.rows| < env.pageLimit { return true, target, readings; }
      after := reply.nextAfter;
    }
    ok := true;
  }

  // ------------------------------------------------------------- the due view

  datatype DueAnswer = DueFault | DueNothing | DueFound(shard: nat, walked: Walked, now: Instant)

  function Own(notice: Notice, walked: Walked, now: Instant): Open {
    Fold(OfSession(Stamp(walked.rows, now), notice.key))
  }

  /** The store's due view as it is read at this instant. */
  function DueList(env: Env, now: Instant): Lister { Bounded(env.store, now + env.horizon) }

  /** The due view, shard by shard from its head, until one lists the session or two pages are spent. */
  function DueSearch(env: Env, notice: Notice, reading: nat, shard: nat, pages: nat): (r: (DueAnswer, nat))
    requires pages <= MAX_DUE_PAGES
    ensures pages <= r.1 <= MAX_DUE_PAGES
    decreases env.shards - shard
  {
    if shard >= env.shards || pages == MAX_DUE_PAGES then (DueNothing, pages)
    else
      var now := env.clock(reading + shard);
      var w := Walk(DueList(env, now), shard, HEAD, pages, MAX_DUE_PAGES - pages);
      WalkJoins(DueList(env, now), shard, HEAD, pages, MAX_DUE_PAGES - pages);
      var read := pages + |w.steps|;
      if !w.ok then (DueFault, read)
      else if notice.key !in Group(Stamp(w.rows, now)).sessions then DueSearch(env, notice, reading, shard + 1, read)
      else if w.truncated || notice.command !in Own(notice, w, now).wake then (DueNothing, read)
      else (DueFound(shard, w, now), read)
  }

  /** What is found is a whole view: read from its head to its end in at most two pages. */
  lemma {:induction false} FoundIsWhole(env: Env, notice: Notice, reading: nat, shard: nat, pages: nat)
    requires pages <= MAX_DUE_PAGES
    ensures var d := DueSearch(env, notice, reading, shard, pages).0;
      d.DueFound? ==>
        && d.shard < env.shards && d.walked.ok && !d.walked.truncated && d.walked.next == HEAD
        && Chained(HEAD, d.walked.steps, HEAD) && 1 <= |d.walked.steps| <= MAX_DUE_PAGES
        && notice.command in Own(notice, d.walked, d.now).wake
    decreases env.shards - shard
  {
    hide Walk, Group, Own;
    if shard < env.shards && pages < MAX_DUE_PAGES {
      var now := env.clock(reading + shard);
      var w := Walk(DueList(env, now), shard, HEAD, pages, MAX_DUE_PAGES - pages);
      WalkJoins(DueList(env, now), shard, HEAD, pages, MAX_DUE_PAGES - pages);
      FoundIsWhole(env, notice, reading, shard + 1, pages + |w.steps|);
    }
  }

  /** collectAdmissionFallback: two due pages in all. */
  method ReadDue(env: Env, notice: Notice, reading: nat) returns (ok: bool, found: Option<Open>, pages: nat)
    ensures var d := DueSearch(env, notice, reading, 0, 0);
      && pages == d.1 <= MAX_DUE_PAGES && ok == !d.0.DueFault?
      && found == if d.0.DueFound? then Some(Own(notice, d.0.walked, d.0.now)) else None
  {
    hide Walk, Group, OfSession, Fold;
    pages := 0;
    ghost var d := DueSearch(env, notice, reading, 0, 0);
    for shard := 0 to env.shards
      invariant pages <= MAX_DUE_PAGES && d == DueSearch(env, notice, reading, shard, pages)
    {
      if MAX_DUE_PAGES - pages == 0 { return true, None, pages; }
      var now := env.clock(reading + shard);
      var inv, good, next, read, truncated :=
        CollectPages(env.store, shard, HEAD, now, env.horizon, pages, MAX_DUE_PAGES - pages);
      WalkJoins(DueList(env, now), shard, HEAD, pages, MAX_DUE_PAGES - pages);
      ghost var w := Walk(DueList(env, now), shard, HEAD, pages, MAX_DUE_PAGES - pages);
      pages := pages + read;
      if !good { return false, None, pages; }
      if notice.key in inv.sessions {
        GroupedSession(Stamp(w.rows, now), notice.key);
        var session := inv.sessions[notice.key];
        if truncated || notice.command !in session.wake { return true, None, pages; }
        return true, Some(session), pages;
      }
    }
    return true, None, pages;
  }

  // ------------------------------------------------------------------ the call

  function Respond(notice: Notice, target: Open): Answer {
    if target.needsHost then Asked(RequestFor(notice.key, target)) else Nothing
  }

  /** The history meets the admitted command. */
  predicate InHistory(env: Env, notice: Notice) {
    env.hasHistory && notice.command in Fold(History(env, notice, 0, 0, 1, []).seen).wake
  }

  function Readings(env: Env, notice: Notice): nat {
    if env.hasHistory then History(env, notice, 0, 0, 1, []).readings else 1
  }

  function DueOf(env: Env, notice: Notice): DueAnswer { DueSearch(env, notice, Readings(env, notice), 0, 0).0 }

  /** What one admission comes to. */
  function AdmissionAnswer(env: Env, authorized: bool, notice: Notice): Answer {
    if !authorized then Unauthorized
    else if !notice.pending || notice.deadline <= env.clock(0) then Nothing
    else if env.owner.OwnerFault? then Failed
    else if env.owner.Reusable? then Nothing
    else if env.hasHistory && !History(env, notice, 0, 0, 1, []).ok then Failed
    else if InHistory(env, notice) then Respond(notice, Fold(History(env, notice, 0, 0, 1, []).seen))
    else match DueOf(env, notice)
      case DueFault => Failed
      case DueNothing => Nothing
      case DueFound(_, walked, now) => Respond(notice, Own(notice, walked, now))
  }

  /** PlaceAdmissionWith. */
  method PlaceAdmission(env: Env, authorized: bool, notice: Notice) returns (answer: Answer)
    ensures answer == AdmissionAnswer(env, authorized, notice)
    ensures answer.Asked? ==> MadeFrom(env, notice, answer.request)
  {
    AskedExactly(env, authorized, notice);
    hide History, DueSearch, Fold, MadeFrom, ReadWell, Met;
    if !authorized { return Unauthorized; }
    if !notice.pending || !(env.clock(0) < notice.deadline) { return Nothing; }
    if env.owner.OwnerFault? { return Failed; }
    if env.owner.Reusable? { return Nothing; }
    var target, readings := NOTHING, 1;
    var met := false;
    if env.hasHistory {
      var ok;
      ok, target, readings := ReadHistory(env, notice);
      if !ok { return Failed; }
      met := notice.command in target.wake;
    }
    if !met {
      var ok, found, pages := ReadDue(env, notice, readings);
      if !ok { return Failed; }
      if found.None? { return Nothing; }
      target := found.value;
    }
    if !target.needsHost { return Nothing; }
    return Asked(RequestFor(notice.key, target));
  }

  // ----------------------------------------------------------------- theorems

  lemma HoldsSeen(notice: Notice, accepted: set<nat>, seen: seq<Seen>, o: nat)
    requires Covers(seen, accepted, notice.order) && o in accepted && o <= notice.order
    ensures exists i :: 0 <= i < |seen| && seen[i].row.order == o && Holds(RequestFor(notice.key, Fold(seen)), seen[i])
  {
    assert SeenOrder(seen, o);
    var i :| 0 <= i < |seen| && seen[i].row.order == o;
    FoldHolds(notice.key, seen, i);
  }

  /**
   Whatever placement is asked for through the history names the admitted command
   and every command of the session accepted no later, with its capability needs
   as it was seen.
   */
  lemma {:induction false} HistoryComplete(env: Env, authorized: bool, notice: Notice, accepted: set<nat>, o: nat)
    requires HonestHistory(env, notice, accepted) && 0 !in accepted && InHistory(env, notice)
    requires AdmissionAnswer(env, authorized, notice).Asked? && o in accepted && o <= notice.order
    ensures var request, seen := AdmissionAnswer(env, authorized, notice).request,
      History(env, notice, 0, 0, 1, []).seen;
      && request.key == notice.key && notice.command in request.wake
      && exists i :: 0 <= i < |seen| && seen[i].row.order == o && Holds(request, seen[i])
  {
    HistoryCovers(env, notice, accepted, 0, 0, 1, []);
    hide History, Fold;
    HoldsSeen(notice, accepted, History(env, notice, 0, 0, 1, []).seen, o);
  }

  /**
   Placement is asked exactly for a notice of pending, live work of a session that has no
   reusable owner, when every read is answered and the command is met; and the request
   holds just what the rows read of the session need. A read that is needed and fails is
   an error, and whatever else stands in the way is left to the sweep.
   */
  lemma {:induction false} AskedExactly(env: Env, authorized: bool, notice: Notice)
    ensures var answer := AdmissionAnswer(env, authorized, notice);
      && (answer.Asked? <==> authorized && Concerned(env, notice) && ReadWell(env, notice) && Met(env, notice))
      && (answer.Failed? <==>
           authorized && Actual(env, notice) &&
           (env.owner.OwnerFault? || (Concerned(env, notice) && !ReadWell(env, notice))))
      && (answer.Unauthorized? <==> !authorized)
      && (answer.Asked? ==> MadeFrom(env, notice, answer.request))
  {
    var h, due := History(env, notice, 0, 0, 1, []), DueOf(env, notice);
    if InHistory(env, notice) {
      HistoryRequest(notice, h.seen);
    } else if due.DueFound? {
      DueRequest(env, notice);
    }
    hide History, DueOf, Fold, Own, Exact, ExactFor, InHistory;
  }

  /** Work still to be done when the notice is taken up. */
  predicate Actual(env: Env, notice: Notice) { notice.pending && env.clock(0) < notice.deadline }

  /** And no owner that could be reused was seen. */
  predicate Concerned(env: Env, notice: Notice) {
    Actual(env, notice) && (env.owner.Unasked? || env.owner.NotReusable?)
  }

  /** The reads that were needed were answered: the history, and the due view if that did not meet the command. */
  ghost predicate ReadWell(env: Env, notice: Notice) {
    && (env.hasHistory ==> History(env, notice, 0, 0, 1, []).ok)
    && (InHistory(env, notice) || !DueOf(env, notice).DueFault?)
  }

  /** The command was met. */
  ghost predicate Met(env: Env, notice: Notice) { InHistory(env, notice) || DueOf(env, notice).DueFound? }

  /** The request holds exactly what the rows need that it was made from. */
  ghost predicate MadeFrom(env: Env, notice: Notice, request: Request) {
    && request.key == notice.key
    && if InHistory(env, notice) then Exact(request, History(env, notice, 0, 0, 1, []).seen)
       else
         var due := DueOf(env, notice);
         due.DueFound? && ExactFor(request, due.walked.rows, due.now)
  }

  lemma {:induction false} HistoryRequest(notice: Notice, seen: seq<Seen>)
    requires notice.command in Fold(seen).wake
    ensures Respond(notice, Fold(seen)).Asked? && Exact(Respond(notice, Fold(seen)).request, seen)
    ensures Respond(notice, Fold(seen)).request.key == notice.key
  {
    WakeNeedsHost(seen, notice.command);
    FoldExactly(notice.key, seen);
    hide Fold, Exact;
  }

  lemma {:induction false} DueRequest(env: Env, notice: Notice)
    requires DueOf(env, notice).DueFound?
    ensures var due := DueOf(env, notice);
      var answer := Respond(notice, Own(notice, due.walked, due.now));
      answer.Asked? && answer.request.key == notice.key && ExactFor(answer.request, due.walked.rows, due.now)
  {
    var due := DueOf(env, notice);
    FoundIsWhole(env, notice, Readings(env, notice), 0, 0);
    OwnExactly(due.walked.rows, due.now, notice.key);
    WakeNeedsHost(OfSession(Stamp(due.walked.rows, due.now), notice.key), notice.command);
    hide DueSearch, Fold, OfSession, Stamp, ExactFor, Readings;
  }

  /** A shard's whole view was read well, and no row of it is the session's. */
  ghost predicate PassedOver(env: Env, notice: Notice, reading: nat, shard: nat) {
    var now := env.clock(reading + shard);
    exists pages: nat :: pages < MAX_DUE_PAGES && NotListed(env, notice, now, shard, pages)
  }

  ghost predicate NotListed(env: Env, notice: Notice, now: Instant, shard: nat, pages: nat)
    requires pages < MAX_DUE_PAGES
  {
    var w := Walk(DueList(env, now), shard, HEAD, pages, MAX_DUE_PAGES - pages);
    w.ok && forall i :: 0 <= i < |w.rows| ==> w.rows[i].key != notice.key
  }

  lemma {:induction false} NotGrouped(env: Env, notice: Notice, now: Instant, shard: nat, pages: nat)
    requires pages < MAX_DUE_PAGES
    ensures var w := Walk(DueList(env, now), shard, HEAD, pages, MAX_DUE_PAGES - pages);
      w.ok && notice.key !in Group(Stamp(w.rows, now)).sessions ==> NotListed(env, notice, now, shard, pages)
  {
    var w := Walk(DueList(env, now), shard, HEAD, pages, MAX_DUE_PAGES - pages);
    var seen := Stamp(w.rows, now);
    GroupedSession(seen, notice.key);
    OfSessionKeys(seen, notice.key);
    hide Walk, Group, OfSession;
    forall i | 0 <= i < |w.rows| && notice.key !in Group(seen).sessions
      ensures w.rows[i].key != notice.key
    {
      assert seen[i].row == w.rows[i];
    }
  }

  /**
   The search takes the shards in their order and none is passed over that lists the
   session; it ends without finding only where the pages are spent, the shards are
   through, or a shard that lists the session was cut short or lacks the command.
   */
  lemma {:induction false} SearchInOrder(env: Env, notice: Notice, reading: nat, shard: nat, pages: nat)
    returns (last: nat)
    requires pages <= MAX_DUE_PAGES && shard <= env.shards
    ensures shard <= last <= env.shards
    ensures forall s :: shard <= s < last ==> PassedOver(env, notice, reading, s)
    ensures var (d, read) := DueSearch(env, notice, reading, shard, pages);
      && (d.DueFound? ==> d.shard == last < env.shards && d.now == env.clock(reading + last))
      && (d.DueNothing? ==>
           last == env.shards || read == MAX_DUE_PAGES || Unfinished(env, notice, env.clock(reading + last), last))
    decreases env.shards - shard
  {
    hide Walk, Group, Own;
    last := shard;
    if shard < env.shards && pages < MAX_DUE_PAGES {
      var now := env.clock(reading + shard);
      var w := Walk(DueList(env, now), shard, HEAD, pages, MAX_DUE_PAGES - pages);
      WalkJoins(DueList(env, now), shard, HEAD, pages, MAX_DUE_PAGES - pages);
      NotGrouped(env, notice, now, shard, pages);
      if w.ok && notice.key !in Group(Stamp(w.rows, now)).sessions {
        assert PassedOver(env, notice, reading, shard);
        last := SearchInOrder(env, notice, reading, shard + 1, pages + |w.steps|);
      } else if w.ok && (w.truncated || notice.command !in Own(notice, w, now).wake) {
        WakesOwn(notice, w, now);
        assert Lacking(env, notice, now, shard, pages);
      }
    }
  }

  lemma {:induction false} WakesOwn(notice: Notice, w: Walked, now: Instant)
    ensures notice.command in Own(notice, w, now).wake <==> Asks(w.rows, now, notice.key, Waking, notice.command)
  {
    OwnExactly(w.rows, now, notice.key);
    hide Fold, OfSession, Stamp, Asks, AnyAsks;
  }

  /** The shard's view was read well but cut short, or shows the session without the command waiting in it. */
  ghost predicate Unfinished(env: Env, notice: Notice, now: Instant, shard: nat) {
    exists pages: nat :: pages < MAX_DUE_PAGES && Lacking(env, notice, now, shard, pages)
  }

  ghost predicate Lacking(env: Env, notice: Notice, now: Instant, shard: nat, pages: nat)
    requires pages < MAX_DUE_PAGES
  {
    var w := Walk(DueList(env, now), shard, HEAD, pages, MAX_DUE_PAGES - pages);
    w.ok && (w.truncated || !Asks(w.rows, now, notice.key, Waking, notice.command))
  }

  /** A session with a command to wake for has a reason to be resident. */
  lemma {:induction false} WakeNeedsHost(rows: seq<Seen>, c: nat)
    requires c in Fold(rows).wake
    ensures Fold(rows).needsHost
  {
    FoldMeaning(rows);
    PickOnly(rows, Waking, c);
    hide Fold, Pick;
    var i :| 0 <= i < |rows| && Waking(rows[i]) && rows[i].row.command == c;
    assert Resident(rows[i]);
  }

  /** Through the due view, the same holds of every row of the session that the whole of that view lists. */
  lemma {:induction false} DueComplete(env: Env, authorized: bool, notice: Notice, i: nat)
    requires AdmissionAnswer(env, authorized, notice).Asked? && !InHistory(env, notice)
    ensures DueOf(env, notice).DueFound? && !DueOf(env, notice).walked.truncated
    ensures var request, d := AdmissionAnswer(env, authorized, notice).request, DueOf(env, notice);
      && request.key == notice.key && notice.command in request.wake
      && (i < |d.walked.rows| && d.walked.rows[i].key == notice.key ==> Holds(request, Seen(d.walked.rows[i], d.now)))
  {
    FoundIsWhole(env, notice, Readings(env, notice), 0, 0);
    hide History, DueSearch;
    var d := DueOf(env, notice);
    if i < |d.walked.rows| && d.walked.rows[i].key == notice.key {
      var all := Stamp(d.walked.rows, d.now);
      OfSessionKeys(all, notice.key);
      var own := OfSession(all, notice.key);
      assert all[i] in own;
      var j :| 0 <= j < |own| && own[j] == all[i];
      FoldHolds(notice.key, own, j);
    }
  }
}
