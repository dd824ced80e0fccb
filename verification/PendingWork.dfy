/**
 Open commands grouped by session: what one pass of the placement sweep, or one
 admission notice, tells placement about a session.
 */
module PendingWork {
  import opened Settlement

  datatype Kind = CreateSession | Input | Interrupt | Restore | GateResponse | OtherKind
  datatype Key = Key(tenant: nat, session: nat)

  /** An inbox row. `carries` is a principal or metadata, `referenced` a body stored by reference. */
  datatype Row = Row(key: Key, command: nat, order: nat, kind: Kind, state: InboxState,
                     deadline: Instant, carries: bool, referenced: bool)

  /** A row and the clock reading it was judged at. */
  datatype Seen = Seen(row: Row, now: Instant)

  datatype Open = Open(wake: seq<nat>, gates: seq<nat>, references: seq<nat>, principals: seq<nat>,
                       needsHost: bool, restore: bool)

  const NOTHING: Open := Open([], [], [], [], false, false)

  function AddTo(list: seq<nat>, wanted: bool, command: nat): seq<nat> { if wanted then list + [command] else list }

  /** openSession.add. */
  function Add(o: Open, s: Seen): Open {
    var r := s.row;
    var live := s.now < r.deadline;
    match r.state
    case Pending =>
      if !live then o
      else Open(o.wake + [r.command],
                AddTo(o.gates, r.kind == GateResponse, r.command),
                AddTo(o.references, r.referenced && (r.kind == CreateSession || r.kind == Input), r.command),
                AddTo(o.principals, r.carries, r.command),
                true, o.restore || r.kind == Restore)
    case Claimed =>
      if !live then o else o.(needsHost := true, principals := AddTo(o.principals, r.carries, r.command))
    case Applying => o.(needsHost := true)
    case _ => o
  }

  function Fold(rows: seq<Seen>): Open {
    if rows == [] then NOTHING else Add(Fold(rows[..|rows| - 1]), rows[|rows| - 1])
  }

  // ------------------------------------------------------ what a fold means

  predicate Live(s: Seen) { s.now < s.row.deadline }
  predicate Waking(s: Seen) { s.row.state.Pending? && Live(s) }
  predicate Gated(s: Seen) { Waking(s) && s.row.kind == GateResponse }
  predicate Referring(s: Seen) { Waking(s) && s.row.referenced && (s.row.kind == CreateSession || s.row.kind == Input) }
  predicate Stamped(s: Seen) { (s.row.state.Pending? || s.row.state.Claimed?) && Live(s) && s.row.carries }
  predicate Restoring(s: Seen) { Waking(s) && s.row.kind == Restore }
  predicate Resident(s: Seen) { s.row.state.Applying? || ((s.row.state.Pending? || s.row.state.Claimed?) && Live(s)) }

  /** The commands of the rows that satisfy a test, in the order they were seen. */
  function Pick(rows: seq<Seen>, test: Seen -> bool): seq<nat> {
    if rows == [] then []
    else Pick(rows[..|rows| - 1], test) + if test(rows[|rows| - 1]) then [rows[|rows| - 1].row.command] else []
  }

  predicate Any(rows: seq<Seen>, test: Seen -> bool) { exists i :: 0 <= i < |rows| && test(rows[i]) }

  /** One fold of add lists exactly the commands each capability concerns, in order. */
  lemma {:induction false} FoldMeaning(rows: seq<Seen>)
    ensures Fold(rows).wake == Pick(rows, Waking) && Fold(rows).gates == Pick(rows, Gated)
    ensures Fold(rows).references == Pick(rows, Referring) && Fold(rows).principals == Pick(rows, Stamped)
    ensures Fold(rows).needsHost == Any(rows, Resident) && Fold(rows).restore == Any(rows, Restoring)
  {
    if rows != [] {
      var n := |rows| - 1;
      FoldMeaning(rows[..n]);
      SomeLast(rows, Resident);
      SomeLast(rows, Restoring);
    }
  }

  lemma SomeLast(rows: seq<Seen>, test: Seen -> bool)
    requires rows != []
    ensures Any(rows, test) <==> Any(rows[..|rows| - 1], test) || test(rows[|rows| - 1])
  {
    var front := rows[..|rows| - 1];
    assert forall i :: 0 <= i < |front| ==> front[i] == rows[i];
  }

  lemma {:induction false} PickHas(rows: seq<Seen>, test: Seen -> bool, i: nat)
    requires i < |rows| && test(rows[i])
    ensures rows[i].row.command in Pick(rows, test)
  {
    if i < |rows| - 1 {
      PickHas(rows[..|rows| - 1], test, i);
    }
  }

  lemma {:induction false} PickOnly(rows: seq<Seen>, test: Seen -> bool, c: nat)
    requires c in Pick(rows, test)
    ensures exists i :: 0 <= i < |rows| && test(rows[i]) && rows[i].row.command == c
  {
    var n := |rows| - 1;
    if !(test(rows[n]) && rows[n].row.command == c) {
      PickOnly(rows[..n], test, c);
      var i :| 0 <= i < n && test(rows[..n][i]) && rows[..n][i].row.command == c;
      assert rows[i] == rows[..n][i];
    }
  }

  // ---------------------------------------------------------------- grouping

  datatype Inventory = Inventory(order: seq<Key>, sessions: map<Key, Open>)

  const EMPTY: Inventory := Inventory([], map[])

  function Absorb(inv: Inventory, s: Seen): Inventory {
    var k := s.row.key;
    if k in inv.sessions then inv.(sessions := inv.sessions[k := Add(inv.sessions[k], s)])
    else Inventory(inv.order + [k], inv.sessions[k := Add(NOTHING, s)])
  }

  function Group(rows: seq<Seen>): Inventory {
    if rows == [] then EMPTY else Absorb(Group(rows[..|rows| - 1]), rows[|rows| - 1])
  }

  /** One session's rows, in order. */
  function OfSession(rows: seq<Seen>, k: Key): seq<Seen> {
    if rows == [] then []
    else OfSession(rows[..|rows| - 1], k) + if rows[|rows| - 1].row.key == k then [rows[|rows| - 1]] else []
  }

  /** The keys of the rows, each where it was first seen. */
  function FirstSeen(rows: seq<Seen>): seq<Key> {
    if rows == [] then []
    else
      var before := FirstSeen(rows[..|rows| - 1]);
      if rows[|rows| - 1].row.key in before then before else before + [rows[|rows| - 1].row.key]
  }

  predicate Distinct<T(==)>(s: seq<T>) { forall i, j :: 0 <= i < j < |s| ==> s[i] != s[j] }

  lemma FoldAppend(rows: seq<Seen>, s: Seen)
    ensures Fold(rows + [s]) == Add(Fold(rows), s)
  {
    assert (rows + [s])[..|rows|] == rows;
  }

  lemma {:induction false} GroupedOrder(rows: seq<Seen>)
    ensures Group(rows).order == FirstSeen(rows) && Distinct(Group(rows).order)
    ensures forall k :: k in Group(rows).sessions <==> k in Group(rows).order
  {
    hide Add;
    if rows != [] {
      GroupedOrder(rows[..|rows| - 1]);
    }
  }

  lemma {:induction false} GroupedSession(rows: seq<Seen>, k: Key)
    ensures k in Group(rows).sessions ==> Group(rows).sessions[k] == Fold(OfSession(rows, k))
    ensures k !in Group(rows).sessions ==> OfSession(rows, k) == []
  {
    if rows != [] {
      var n := |rows| - 1;
      GroupedSession(rows[..n], k);
      FoldAppend(OfSession(rows[..n], k), rows[n]);
      assert Fold([]) == NOTHING;
      assert OfSession(rows, k) == OfSession(rows[..n], k) + if rows[n].row.key == k then [rows[n]] else [];
      hide Add, Fold;
      assert rows[n].row.key != k ==> OfSession(rows, k) == OfSession(rows[..n], k);
    }
  }

  /**
   Grouping is one fold of add per session over that session's own rows, and the
   sessions stand in first-seen order, each once.
   */
  lemma {:induction false} GroupMeaning(rows: seq<Seen>)
    ensures Group(rows).order == FirstSeen(rows) && Distinct(Group(rows).order)
    ensures forall k :: k in Group(rows).sessions <==> k in Group(rows).order
    ensures forall k :: k in Group(rows).sessions ==> Group(rows).sessions[k] == Fold(OfSession(rows, k))
    ensures forall k :: k !in Group(rows).sessions ==> OfSession(rows, k) == []
  {
    GroupedOrder(rows);
    forall k
      ensures k in Group(rows).sessions ==> Group(rows).sessions[k] == Fold(OfSession(rows, k))
      ensures k !in Group(rows).sessions ==> OfSession(rows, k) == []
    {
      GroupedSession(rows, k);
    }
  }

  lemma {:induction false} OfSessionKeys(rows: seq<Seen>, k: Key)
    ensures forall i :: 0 <= i < |OfSession(rows, k)| ==> OfSession(rows, k)[i].row.key == k
    ensures forall i :: 0 <= i < |rows| && rows[i].row.key == k ==> rows[i] in OfSession(rows, k)
    ensures forall i :: 0 <= i < |OfSession(rows, k)| ==> OfSession(rows, k)[i] in rows
  {
    if rows != [] {
      OfSessionKeys(rows[..|rows| - 1], k);
      forall i | 0 <= i < |rows| && rows[i].row.key == k ensures rows[i] in OfSession(rows, k) {
        if i < |rows| - 1 { assert rows[i] == rows[..|rows| - 1][i]; }
      }
    }
  }

  /** Rows judged at one instant. */
  function Stamp(rows: seq<Row>, now: Instant): (r: seq<Seen>)
    ensures |r| == |rows| && forall i :: 0 <= i < |rows| ==> r[i] == Seen(rows[i], now)
  {
    if rows == [] then [] else Stamp(rows[..|rows| - 1], now) + [Seen(rows[|rows| - 1], now)]
  }

  /** Absorbing a page after others is grouping all their rows: page boundaries do not matter. */
  method AbsorbPage(inv: Inventory, rows: seq<Row>, now: Instant, ghost before: seq<Seen>) returns (r: Inventory)
    requires inv == Group(before)
    ensures r == Group(before + Stamp(rows, now))
  {
    r := inv;
    assert before + [] == before;
    for i := 0 to |rows|
      invariant r == Group(before + Stamp(rows[..i], now))
    {
      ghost var so, more := before + Stamp(rows[..i], now), before + Stamp(rows[..i + 1], now);
      assert more == so + [Seen(rows[i], now)];
      assert more[..|more| - 1] == so;
      r := Absorb(r, Seen(rows[i], now));
    }
    assert rows[..|rows|] == rows;
  }

  // ---------------------------------------------------------------- requests

  /** What placement is asked with. */
  datatype Request = Request(key: Key, wake: seq<nat>, gates: seq<nat>, references: seq<nat>,
                             principals: seq<nat>, restore: bool)

  function RequestFor(k: Key, o: Open): Request { Request(k, o.wake, o.gates, o.references, o.principals, o.restore) }

  /** The request holds this row, with every capability it needs of a Host. */
  ghost predicate Holds(req: Request, s: Seen) {
    && (Waking(s) ==> s.row.command in req.wake)
    && (Gated(s) ==> s.row.command in req.gates)
    && (Referring(s) ==> s.row.command in req.references)
    && (Stamped(s) ==> s.row.command in req.principals)
    && (Restoring(s) ==> req.restore)
  }

  /** One of the rows passes the test and is of this command. */
  ghost predicate Concerns(rows: seq<Seen>, test: Seen -> bool, c: nat) {
    exists i :: 0 <= i < |rows| && test(rows[i]) && rows[i].row.command == c
  }

  /** The request names, for each capability, the commands of the rows that need it, and no others. */
  ghost predicate Exact(req: Request, rows: seq<Seen>) {
    && (forall c :: c in req.wake <==> Concerns(rows, Waking, c))
    && (forall c :: c in req.gates <==> Concerns(rows, Gated, c))
    && (forall c :: c in req.references <==> Concerns(rows, Referring, c))
    && (forall c :: c in req.principals <==> Concerns(rows, Stamped, c))
    && (req.restore <==> exists i :: 0 <= i < |rows| && Restoring(rows[i]))
  }

  lemma {:induction false} PickExactly(rows: seq<Seen>, test: Seen -> bool, c: nat)
    ensures c in Pick(rows, test) <==> Concerns(rows, test, c)
  {
    if c in Pick(rows, test) { PickOnly(rows, test, c); }
    if Concerns(rows, test, c) {
      var i :| 0 <= i < |rows| && test(rows[i]) && rows[i].row.command == c;
      PickHas(rows, test, i);
    }
  }

  /** A session's request holds exactly what its rows need: nothing is left out and nothing is added. */
  lemma {:induction false} FoldExactly(k: Key, rows: seq<Seen>)
    ensures Exact(RequestFor(k, Fold(rows)), rows) && RequestFor(k, Fold(rows)).key == k
    ensures Fold(rows).needsHost <==> exists i :: 0 <= i < |rows| && Resident(rows[i])
  {
    FoldMeaning(rows);
    hide Fold, Pick, Concerns;
    forall c
      ensures c in Pick(rows, Waking) <==> Concerns(rows, Waking, c)
      ensures c in Pick(rows, Gated) <==> Concerns(rows, Gated, c)
      ensures c in Pick(rows, Referring) <==> Concerns(rows, Referring, c)
      ensures c in Pick(rows, Stamped) <==> Concerns(rows, Stamped, c)
    {
      PickExactly(rows, Waking, c);
      PickExactly(rows, Gated, c);
      PickExactly(rows, Referring, c);
      PickExactly(rows, Stamped, c);
    }
  }

  lemma {:induction false} FoldHolds(k: Key, rows: seq<Seen>, i: nat)
    requires i < |rows|
    ensures Holds(RequestFor(k, Fold(rows)), rows[i])
    ensures Resident(rows[i]) ==> Fold(rows).needsHost
  {
    FoldMeaning(rows);
    if Waking(rows[i]) { PickHas(rows, Waking, i); }
    if Gated(rows[i]) { PickHas(rows, Gated, i); }
    if Referring(rows[i]) { PickHas(rows, Referring, i); }
    if Stamped(rows[i]) { PickHas(rows, Stamped, i); }
  }
}
