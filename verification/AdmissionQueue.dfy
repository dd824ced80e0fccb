/**
 The coalescing admission queue: producers enqueue committed notices, workers
 take one session at a time, and a one-slot channel wakes a parked worker.
 */
module AdmissionQueue {
  import opened Common

  type Key = nat
  type Worker = nat

  datatype Notice = Notice(key: Key, id: nat, pending: bool)

  datatype Item = Item(notice: Notice, inFlight: bool, dirty: bool)

  datatype Queue = Queue(limit: int, order: seq<Key>, items: map<Key, Item>, ready: bool)

  // ------------------------------------------------------------ critical sections

  function Enqueued(q: Queue, n: Notice): Queue {
    if !n.pending then q
    else if n.key in q.items then
      var item := q.items[n.key];
      q.(items := q.items[n.key := Item(n, item.inFlight, item.dirty || item.inFlight)])
    else if |q.order| >= q.limit then q
    else q.(items := q.items[n.key := Item(n, false, false)], order := q.order + [n.key], ready := true)
  }

  function Taken(q: Queue): Queue
    requires q.order != [] && q.order[0] in q.items
  {
    var k := q.order[0];
    q.(order := q.order[1..], items := q.items[k := q.items[k].(inFlight := true)])
  }

  function Finished(q: Queue, k: Key): Queue {
    if k !in q.items then q
    else if !q.items[k].dirty then q.(items := q.items - {k})
    else q.(items := q.items[k := Item(q.items[k].notice, false, false)], order := q.order + [k], ready := true)
  }

  /** The queue as the source holds it: every field changed in place under the mutex. */
  class Live {
    const limit: int
    var order: seq<Key>
    var items: map<Key, Item>
    var ready: bool

    constructor (limit: int)
      ensures Abs() == Queue(limit, [], map[], false)
    {
      this.limit, order, items, ready := limit, [], map[], false;
    }

    function Abs(): Queue reads this { Queue(limit, order, items, ready) }

    method Signal()
      modifies this`ready
      ensures ready
    {
      if !ready { ready := true; }
    }

    method Enqueue(n: Notice)
      modifies this
      ensures Abs() == Enqueued(old(Abs()), n)
    {
      if !n.pending { return; }
      if n.key in items {
        var item := items[n.key].(notice := n);
        if item.inFlight { item := item.(dirty := true); }
        items := items[n.key := item];
        return;
      }
      if |order| >= limit { return; }
      items := items[n.key := Item(n, false, false)];
      order := order + [n.key];
      Signal();
    }

    /** One turn of next's loop inside the lock. */
    method TryNext() returns (found: bool, n: Notice, k: Key)
      requires order != [] ==> order[0] in items
      modifies this
      ensures found == (old(order) != [])
      ensures !found ==> Abs() == old(Abs())
      ensures found ==> k == old(order)[0] && n == old(items)[k].notice && Abs() == Taken(old(Abs()))
    {
      if |order| > 0 {
        k := order[0];
        order := order[1..];
        n := items[k].notice;
        items := items[k := items[k].(inFlight := true)];
        return true, n, k;
      }
      return false, Notice(0, 0, false), 0;
    }

    method Finish(k: Key)
      modifies this
      ensures Abs() == Finished(old(Abs()), k)
    {
      if k !in items { return; }
      if !items[k].dirty { items := items - {k}; return; }
      items := items[k := Item(items[k].notice, false, false)];
      order := order + [k];
      Signal();
    }
  }

  // ------------------------------------------------------------------- steps

  /** A worker about to look, waiting on the channel, holding a session, or gone. */
  datatype Phase = Looking | Parked | Busy(notice: Notice) | Gone

  /** `latest` is the last notice accepted for each key, whatever became of it. */
  datatype State = State(q: Queue, workers: map<Worker, Phase>, latest: map<Key, Notice>, ended: bool)

  datatype Action =
    | Produce(n: Notice)
    | Look(w: Worker)
    | Wake(w: Worker)
    | Finish(w: Worker)
    | End
    | Leave(w: Worker)

  predicate Accepts(q: Queue, n: Notice) { n.pending && (n.key in q.items || |q.order| < q.limit) }

  ghost predicate Next(s: State, a: Action, t: State) {
    match a
    case Produce(n) =>
      t == s.(q := Enqueued(s.q, n), latest := if Accepts(s.q, n) then s.latest[n.key := n] else s.latest)
    case Look(w) =>
      && w in s.workers && s.workers[w].Looking?
      && if s.q.order == [] then t == s.(workers := s.workers[w := Parked])
         else s.q.order[0] in s.q.items
              && t == s.(q := Taken(s.q), workers := s.workers[w := Busy(s.q.items[s.q.order[0]].notice)])
    case Wake(w) =>
      w in s.workers && s.workers[w].Parked? && s.q.ready &&
        t == s.(q := s.q.(ready := false), workers := s.workers[w := Looking])
    case Finish(w) =>
      && w in s.workers && s.workers[w].Busy?
      && t == s.(q := Finished(s.q, s.workers[w].notice.key), workers := s.workers[w := Looking])
    case End => t == s.(ended := true)
    case Leave(w) =>
      && s.ended && w in s.workers && (s.workers[w].Looking? || s.workers[w].Parked?)
      && t == s.(workers := s.workers[w := Gone])
  }

  ghost predicate Init(s: State) {
    && s.q.order == [] && s.q.items == map[] && s.latest == map[] && !s.ended && s.q.limit >= 0
    && s.workers != map[] && forall w :: w in s.workers ==> s.workers[w] == Looking
  }

  ghost predicate Run(states: seq<State>, actions: seq<Action>) {
    && |states| == |actions| + 1 && Init(states[0])
    && forall i :: 0 <= i < |actions| ==> Next(states[i], actions[i], states[i + 1])
  }

  // --------------------------------------------------------------- invariants

  ghost predicate Holds(s: State, w: Worker, k: Key) {
    w in s.workers && s.workers[w].Busy? && s.workers[w].notice.key == k
  }

  /** `order` is duplicate free and is exactly the tracked keys not in flight. */
  ghost predicate OrderInv(s: State) {
    && (forall i, j :: 0 <= i < j < |s.q.order| ==> s.q.order[i] != s.q.order[j])
    && (forall k :: k in s.q.order <==> k in s.q.items && !s.q.items[k].inFlight)
  }

  /** A key in flight is held by one worker, and a worker's key is in flight. */
  ghost predicate FlightInv(s: State) {
    && (forall k :: k in s.q.items && s.q.items[k].inFlight ==> exists w :: Holds(s, w, k))
    && (forall w, k :: Holds(s, w, k) ==> k in s.q.items && s.q.items[k].inFlight)
    && (forall w, v, k :: Holds(s, w, k) && Holds(s, v, k) ==> w == v)
  }

  /** The tracked notice is the latest accepted; unless dirty, it is the one in hand. */
  ghost predicate NoticeInv(s: State) {
    && (forall k :: k in s.q.items ==>
       s.q.items[k].notice.key == k && k in s.latest && s.latest[k] == s.q.items[k].notice)
    && (forall k :: k in s.q.items && s.q.items[k].dirty ==> s.q.items[k].inFlight)
    && (forall w, k :: Holds(s, w, k) && k in s.q.items && !s.q.items[k].dirty ==>
       s.workers[w].notice == s.q.items[k].notice)
  }

  ghost predicate Active(s: State, w: Worker) { w in s.workers && (s.workers[w].Looking? || s.workers[w].Busy?) }

  /** Work queued, and nobody told. */
  ghost predicate NotAsleep(s: State) {
    s.ended || s.q.order == [] || s.q.ready || exists w :: Active(s, w)
  }

  ghost predicate Inv(s: State) { OrderInv(s) && FlightInv(s) && NoticeInv(s) && NotAsleep(s) }

  lemma ProduceOrder(s: State, n: Notice, t: State)
    requires OrderInv(s) && Next(s, Produce(n), t)
    ensures OrderInv(t)
  {
    if t.q.order != s.q.order {
      assert n.key !in s.q.order;
      assert forall k :: k in t.q.order <==> k in s.q.order || k == n.key;
    }
  }

  /** Which worker holds what does not change, and a new key is not in flight. */
  lemma ProduceFlight(s: State, n: Notice, t: State)
    requires FlightInv(s) && Next(s, Produce(n), t)
    ensures FlightInv(t)
  {
    forall w, k ensures Holds(t, w, k) <==> Holds(s, w, k) {}
    forall k | k in t.q.items && t.q.items[k].inFlight ensures exists w :: Holds(t, w, k) {
      var w :| Holds(s, w, k);
      assert Holds(t, w, k);
    }
  }

  lemma ProduceNotice(s: State, n: Notice, t: State)
    requires OrderInv(s) && FlightInv(s) && NoticeInv(s) && Next(s, Produce(n), t)
    ensures NoticeInv(t)
  {
    forall w, k ensures Holds(t, w, k) <==> Holds(s, w, k) {}
    forall w, k | Holds(t, w, k) && k in t.q.items && !t.q.items[k].dirty
      ensures t.workers[w].notice == t.q.items[k].notice
    {
      assert Holds(s, w, k);
    }
  }

  lemma {:induction false} ProduceKeeps(s: State, n: Notice, t: State)
    requires Inv(s) && Next(s, Produce(n), t)
    ensures Inv(t)
  {
    ProduceOrder(s, n, t);
    ProduceFlight(s, n, t);
    ProduceNotice(s, n, t);
    hide OrderInv, FlightInv, NoticeInv;
    if exists w :: Active(s, w) { var w :| Active(s, w); assert Active(t, w); }
  }

  lemma LookTakes(s: State, w: Worker, t: State)
    requires Inv(s) && Next(s, Look(w), t) && s.q.order != []
    ensures Inv(t)
  {
    var head := s.q.order[0];
    assert t.q.order == s.q.order[1..] && head in s.q.order;
    assert Active(t, w) && Holds(t, w, head);
    assert forall k :: k in s.q.order <==> k == head || k in t.q.order;
    forall v, k ensures Holds(t, v, k) <==> (if v == w then k == head else Holds(s, v, k)) {}
    forall k | k in t.q.items && t.q.items[k].inFlight ensures exists v :: Holds(t, v, k) {
      if k != head {
        var v :| Holds(s, v, k);
        assert Holds(t, v, k);
      }
    }
  }

  lemma FinishKeeps(s: State, w: Worker, t: State)
    requires Inv(s) && Next(s, Finish(w), t)
    ensures Inv(t)
  {
    var key := s.workers[w].notice.key;
    assert Holds(s, w, key) && Active(t, w);
    forall v, k ensures Holds(t, v, k) <==> v != w && Holds(s, v, k) {}
    forall k | k in t.q.items && t.q.items[k].inFlight ensures exists v :: Holds(t, v, k) {
      var v :| Holds(s, v, k);
      assert v != w;
      assert Holds(t, v, k);
    }
  }

  lemma IdleKeeps(s: State, a: Action, t: State)
    requires Inv(s) && Next(s, a, t)
    requires a.Wake? || a.End? || a.Leave? || (a.Look? && s.q.order == [])
    ensures Inv(t)
  {
    forall w, k ensures Holds(t, w, k) <==> Holds(s, w, k) {}
    forall k | k in t.q.items && t.q.items[k].inFlight ensures exists w :: Holds(t, w, k) {
      var w :| Holds(s, w, k);
      assert Holds(t, w, k);
    }
    if a.Wake? { assert Active(t, a.w); }
  }

  lemma InvStep(s: State, a: Action, t: State)
    requires Inv(s) && Next(s, a, t)
    ensures Inv(t)
  {
    match a
    case Produce(n) => ProduceKeeps(s, n, t);
    case Finish(w) => FinishKeeps(s, w, t);
    case Look(w) => if s.q.order != [] { LookTakes(s, w, t); } else { IdleKeeps(s, a, t); }
    case _ => IdleKeeps(s, a, t);
  }

  /** In every reachable state of every interleaving. */
  lemma {:induction false} Reachable(states: seq<State>, actions: seq<Action>, i: nat)
    requires Run(states, actions) && i < |states|
    ensures OrderInv(states[i]) && FlightInv(states[i]) && NoticeInv(states[i]) && NotAsleep(states[i])
  {
    if i > 0 {
      Reachable(states, actions, i - 1);
      InvStep(states[i - 1], actions[i - 1], states[i]);
    }
  }

  /** No accepted notice is lost: a key is forgotten only by the worker holding its latest one. */
  lemma ForgottenOnlyWhenDelivered(states: seq<State>, actions: seq<Action>, i: nat, k: Key)
    requires Run(states, actions) && i < |actions|
    requires k in states[i].q.items && k !in states[i + 1].q.items
    ensures actions[i].Finish? && k in states[i].latest
    ensures states[i].workers[actions[i].w] == Busy(states[i].latest[k])
  {
    Reachable(states, actions, i);
    assert Next(states[i], actions[i], states[i + 1]);
    if actions[i].Finish? {
      var w := actions[i].w;
      assert Holds(states[i], w, states[i].workers[w].notice.key);
    }
  }

  /** A pending notice is dropped exactly when its key is not tracked and the queue is full; any other is tracked. */
  lemma {:induction false} DroppedExactly(states: seq<State>, actions: seq<Action>, i: nat)
    requires Run(states, actions) && i < |actions| && actions[i].Produce?
    ensures var n, q, r := actions[i].n, states[i].q, states[i + 1].q;
      if !n.pending || (n.key !in q.items && |q.order| >= q.limit) then states[i + 1] == states[i]
      else
        && n.key in r.items && r.items[n.key].notice == n && states[i + 1].latest == states[i].latest[n.key := n]
        && r.order == if n.key in q.items then q.order else q.order + [n.key]
  {
    assert Next(states[i], actions[i], states[i + 1]);
  }

  /** A notice for the key was accepted while it was in hand: after step i and before step j. */
  ghost predicate AcceptedSince(states: seq<State>, actions: seq<Action>, k: Key, i: nat, j: nat)
    requires j <= |actions| < |states|
  {
    exists m :: i < m < j && ProducedFor(actions[m], k)
  }

  ghost predicate ProducedFor(a: Action, k: Key) { a.Produce? && a.n.pending && a.n.key == k }

  lemma {:induction false} InHand(states: seq<State>, actions: seq<Action>, w: Worker, k: Key, i: nat, j: nat)
    requires Run(states, actions) && i < j <= |actions| && actions[i] == Look(w)
    requires states[i].q.order != [] && states[i].q.order[0] == k
    requires forall m :: i < m < j ==> actions[m] != Finish(w)
    ensures Holds(states[j], w, k) && k in states[j].q.items && states[j].q.items[k].inFlight
    ensures states[j].q.items[k].dirty <==> AcceptedSince(states, actions, k, i, j)
  {
    Reachable(states, actions, j - 1);
    assert Next(states[j - 1], actions[j - 1], states[j]);
    if j == i + 1 {
      assert k in states[i].q.order;
    } else {
      InHand(states, actions, w, k, i, j - 1);
      var s, a := states[j - 1], actions[j - 1];
      hide Run, OrderInv, NoticeInv, NotAsleep;
      StillInHand(s, a, states[j], w, k);
      hide Next;
      assert AcceptedSince(states, actions, k, i, j) <==>
        AcceptedSince(states, actions, k, i, j - 1) || ProducedFor(a, k);
    }
  }

  lemma {:induction false} StillInHand(s: State, a: Action, t: State, w: Worker, k: Key)
    requires OrderInv(s) && FlightInv(s) && Next(s, a, t) && a != Finish(w)
    requires Holds(s, w, k) && k in s.q.items && s.q.items[k].inFlight
    ensures Holds(t, w, k) && k in t.q.items && t.q.items[k].inFlight
    ensures t.q.items[k].dirty <==> s.q.items[k].dirty || ProducedFor(a, k)
  {
    assert a.Finish? ==> !Holds(s, a.w, k);
    assert s.q.order != [] ==> s.q.order[0] in s.q.order;
  }

  /**
   A worker that finishes a session puts it back at the tail exactly when a notice for it
   was accepted while the worker had it in hand, and forgets it otherwise.
   */
  lemma {:induction false} RequeuedExactly(states: seq<State>, actions: seq<Action>, w: Worker, k: Key, i: nat, j: nat)
    requires Run(states, actions) && i < j < |actions| && actions[i] == Look(w) && actions[j] == Finish(w)
    requires states[i].q.order != [] && states[i].q.order[0] == k
    requires forall m :: i < m < j ==> actions[m] != Finish(w)
    ensures if AcceptedSince(states, actions, k, i, j)
            then states[j + 1].q.order == states[j].q.order + [k] && states[j + 1].q.ready
            else k !in states[j + 1].q.items && states[j + 1].q.order == states[j].q.order
  {
    InHand(states, actions, w, k, i, j);
    Reachable(states, actions, j);
    assert Next(states[j], actions[j], states[j + 1]);
  }

  // ------------------------------------------------------------------- bounds

  ghost function Members(order: seq<Key>): set<Key> { set k | k in order }

  lemma {:induction false} DistinctSize(order: seq<Key>)
    requires forall i, j :: 0 <= i < j < |order| ==> order[i] != order[j]
    ensures |Members(order)| == |order|
  {
    if order != [] {
      var n := |order| - 1;
      DistinctSize(order[..n]);
      assert Members(order) == Members(order[..n]) + {order[n]};
    } else {
      assert Members(order) == {};
    }
  }

  ghost function Flying(s: State): set<Key> { set k | k in s.q.items && s.q.items[k].inFlight }

  lemma FewerKeysThanWorkers(s: State, keys: set<Key>, workers: set<Worker>)
    requires forall k :: k in keys ==> exists w :: w in workers && Holds(s, w, k)
    ensures |keys| <= |workers|
  {
    if keys != {} {
      var k :| k in keys;
      var w :| w in workers && Holds(s, w, k);
      forall j | j in keys - {k} ensures exists v :: v in workers - {w} && Holds(s, v, j) {
        var v :| v in workers && Holds(s, v, j);
        assert v != w;
      }
      FewerKeysThanWorkers(s, keys - {k}, workers - {w});
    }
  }

  lemma FlyingBound(s: State)
    requires FlightInv(s)
    ensures |Flying(s)| <= |s.workers.Keys|
  {
    forall k | k in Flying(s) ensures exists w :: w in s.workers.Keys && Holds(s, w, k) {
      var w :| Holds(s, w, k);
      assert w in s.workers.Keys;
    }
    FewerKeysThanWorkers(s, Flying(s), s.workers.Keys);
  }

  lemma Tracked(s: State)
    requires OrderInv(s)
    ensures |s.q.items.Keys| == |s.q.order| + |Flying(s)|
  {
    DistinctSize(s.q.order);
    assert s.q.items.Keys == Members(s.q.order) + Flying(s);
    assert Members(s.q.order) !! Flying(s);
  }

  /** No step but an accepting enqueue tracks a key it did not already. */
  lemma StepKeys(s: State, a: Action, t: State)
    requires Inv(s) && Next(s, a, t)
    ensures t.q.limit == s.q.limit && t.workers.Keys == s.workers.Keys
    ensures t.q.items.Keys <= s.q.items.Keys ||
      (a.Produce? && |s.q.order| < s.q.limit && t.q.items.Keys == s.q.items.Keys + {a.n.key})
  {
    if a.Finish? { assert Holds(s, a.w, s.workers[a.w].notice.key); }
  }

  /** A finish may requeue past the limit, but at most limit plus one key per worker is ever tracked. */
  lemma {:induction false} TrackedBound(states: seq<State>, actions: seq<Action>, i: nat)
    requires Run(states, actions) && i < |states|
    ensures |states[i].q.items.Keys| <= states[0].q.limit + |states[0].workers.Keys|
    ensures states[i].q.limit == states[0].q.limit && states[i].workers.Keys == states[0].workers.Keys
  {
    if i > 0 {
      TrackedBound(states, actions, i - 1);
      Reachable(states, actions, i - 1);
      var s, a, t := states[i - 1], actions[i - 1], states[i];
      assert Next(s, a, t) && Inv(s);
      StepKeys(s, a, t);
      Tracked(s);
      FlyingBound(s);
      if t.q.items.Keys <= s.q.items.Keys { SubsetSize(t.q.items.Keys, s.q.items.Keys); }
    }
  }

  /** First in, first out: a waiting key moves up only when the head is taken, and nothing passes it. */
  lemma NoOvertaking(states: seq<State>, actions: seq<Action>, i: nat, p: nat)
    requires Run(states, actions) && i < |actions| && p < |states[i].q.order|
    ensures states[i].q.order[p] in states[i].latest
    ensures !actions[i].Look? ==> p < |states[i + 1].q.order| && states[i + 1].q.order[p] == states[i].q.order[p]
    ensures actions[i].Look? && p > 0 ==>
      p - 1 < |states[i + 1].q.order| && states[i + 1].q.order[p - 1] == states[i].q.order[p]
    ensures actions[i].Look? && p == 0 ==> actions[i].w in states[i + 1].workers
    ensures actions[i].Look? && p == 0 ==>
      states[i + 1].workers[actions[i].w] == Busy(states[i].latest[states[i].q.order[0]])
  {
    Reachable(states, actions, i);
    assert Next(states[i], actions[i], states[i + 1]);
    assert states[i].q.order[p] in states[i].q.order;
  }
}
