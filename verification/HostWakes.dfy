/**
 Host wakes detached from their requests: a bounded number run at once, one that
 finds no slot is dropped, and stop refuses later ones and waits for the rest.
 */
module HostWakes {

  datatype Wakes = Wakes(limit: nat, slots: nat, stopped: bool, running: nat)

  function Scheduled(w: Wakes, hasDelivery: bool): Wakes {
    if !hasDelivery || w.stopped || w.slots >= w.limit then w else w.(slots := w.slots + 1, running := w.running + 1)
  }

  /** A wake's return gives its slot back, then leaves the wait group. */
  function SlotFreed(w: Wakes): Wakes
    requires w.slots > 0
  { w.(slots := w.slots - 1) }

  function Returned(w: Wakes): Wakes
    requires w.running > 0
  { w.(running := w.running - 1) }

  function Stopping(w: Wakes): Wakes { w.(stopped := true) }

  class Owner {
    const limit: nat
    const hasDelivery: bool
    var slots: nat
    var stopped: bool
    var running: nat

    constructor (limit: nat, hasDelivery: bool)
      ensures Abs() == Wakes(limit, 0, false, 0) && this.hasDelivery == hasDelivery
    {
      this.limit, this.hasDelivery, slots, stopped, running := limit, hasDelivery, 0, false, 0;
    }

    function Abs(): Wakes reads this { Wakes(limit, slots, stopped, running) }

    method Schedule() returns (started: bool)
      modifies this
      ensures Abs() == Scheduled(old(Abs()), hasDelivery)
      ensures started == (hasDelivery && !old(stopped) && old(slots) < limit)
    {
      if !hasDelivery { return false; }
      if stopped { return false; }
      if slots >= limit { return false; }
      slots := slots + 1;
      running := running + 1;
      started := true;
    }

    /** From here on a wake that asks to start changes nothing; those that run are left to return. */
    method BeginStop()
      modifies this`stopped
      ensures Abs() == Stopping(old(Abs())) && running == old(running)
      ensures forall h :: Scheduled(Abs(), h) == Abs()
    {
      stopped := true;
    }
  }

  datatype Action = Schedule(hasDelivery: bool) | FreeSlot | Return | Stop

  ghost predicate Next(w: Wakes, a: Action, v: Wakes) {
    match a
    case Schedule(hasDelivery) => v == Scheduled(w, hasDelivery)
    case FreeSlot => w.slots > 0 && v == SlotFreed(w)
    case Return => w.running > w.slots && v == Returned(w)
    case Stop => v == Stopping(w)
  }

  ghost predicate Run(ws: seq<Wakes>, actions: seq<Action>) {
    && |ws| == |actions| + 1 && ws[0].slots == 0 && ws[0].running == 0 && !ws[0].stopped
    && forall i :: 0 <= i < |actions| ==> Next(ws[i], actions[i], ws[i + 1])
  }

  /** Deliveries in progress hold a slot each, so at most `limit` run at once. */
  lemma {:induction false} WakesBounded(ws: seq<Wakes>, actions: seq<Action>, i: nat)
    requires Run(ws, actions) && i < |ws|
    ensures ws[i].slots <= ws[i].limit && ws[i].slots <= ws[i].running && ws[i].limit == ws[0].limit
  {
    if i > 0 {
      WakesBounded(ws, actions, i - 1);
      assert Next(ws[i - 1], actions[i - 1], ws[i]);
    }
  }

  /** A stop that saw the wait group empty leaves no wake, now or later. */
  lemma {:induction false} NoWakeAfterStop(ws: seq<Wakes>, actions: seq<Action>, i: nat, j: nat)
    requires Run(ws, actions) && i <= j < |ws| && ws[i].stopped
    ensures ws[j].stopped && ws[j].running <= ws[i].running
    ensures ws[i].running == 0 ==> ws[j].running == 0
    decreases j - i
  {
    if i < j {
      NoWakeAfterStop(ws, actions, i, j - 1);
      assert Next(ws[j - 1], actions[j - 1], ws[j]);
    }
  }

  /** The wakes that start, the slots given back and the wakes that return, among the first n things that happen. */
  ghost function Started(ws: seq<Wakes>, actions: seq<Action>, n: nat): nat
    requires n <= |actions| < |ws|
  {
    if n == 0 then 0
    else
      var w, a := ws[n - 1], actions[n - 1];
      Started(ws, actions, n - 1)
      + if a.Schedule? && a.hasDelivery && !w.stopped && w.slots < w.limit then 1 else 0
  }

  ghost function Count(actions: seq<Action>, n: nat, a: Action): nat
    requires n <= |actions|
  {
    if n == 0 then 0 else Count(actions, n - 1, a) + if actions[n - 1] == a then 1 else 0
  }

  /** No slot and no wake is lost or counted twice: what is held is what started less what was given back. */
  lemma {:induction false} WakesAccounted(ws: seq<Wakes>, actions: seq<Action>, n: nat)
    requires Run(ws, actions) && n <= |actions|
    ensures ws[n].slots + Count(actions, n, FreeSlot) == Started(ws, actions, n)
    ensures ws[n].running + Count(actions, n, Return) == Started(ws, actions, n)
    ensures ws[n].stopped <==> Count(actions, n, Stop) > 0
  {
    if n > 0 {
      WakesAccounted(ws, actions, n - 1);
      assert Next(ws[n - 1], actions[n - 1], ws[n]);
    }
  }
}
