/**
 The admission fence: commands enter and leave the shared service, and a fence
 refuses later ones and signals when those already inside have left.
 */
module AdmissionFence {

  datatype Signal = Unmade | Open | Closed

  /** `closes` counts the times the signal's channel was closed; a second close panics. */
  datatype Gate = Gate(closed: bool, active: int, drained: Signal, closes: nat)

  const OPEN: Gate := Gate(false, 0, Unmade, 0)

  function CloseSignal(g: Gate): Gate { g.(drained := Closed, closes := g.closes + 1) }

  function Fenced(g: Gate): Gate {
    if g.closed then g
    else
      var shut := g.(closed := true, drained := if g.drained.Unmade? then Open else g.drained);
      if g.active == 0 then CloseSignal(shut) else shut
  }

  function Entered(g: Gate): Gate { if g.closed then g else g.(active := g.active + 1) }

  function Left(g: Gate): Gate {
    var out := g.(active := g.active - 1);
    if g.closed && out.active == 0 then CloseSignal(out) else out
  }

  /** The Service's own fields, changed under gateMu. */
  class Service {
    var gateClosed: bool
    var active: int
    var drained: Signal
    ghost var closes: nat

    constructor ()
      ensures Abs() == OPEN
    {
      gateClosed, active, drained, closes := false, 0, Unmade, 0;
    }

    ghost function Abs(): Gate reads this { Gate(gateClosed, active, drained, closes) }

    method FenceAdmissions()
      modifies this
      ensures Abs() == Fenced(old(Abs()))
    {
      if !gateClosed {
        gateClosed := true;
        if drained.Unmade? { drained := Open; }
        if active == 0 { drained, closes := Closed, closes + 1; }
      }
    }

    method BeginAdmission() returns (admitted: bool)
      modifies this
      ensures admitted == !old(gateClosed) && Abs() == Entered(old(Abs()))
    {
      if gateClosed { return false; }
      active := active + 1;
      admitted := true;
    }

    /** The closure BeginAdmission hands out. */
    method EndAdmission()
      modifies this
      ensures Abs() == Left(old(Abs()))
    {
      active := active - 1;
      if gateClosed && active == 0 { drained, closes := Closed, closes + 1; }
    }
  }

  // -------------------------------------------------------------------- runs

  /** Each call either fences, tries to enter, or is the one end of an entry. */
  datatype Action = Fence | Enter | Leave

  /** Ends are owed only by those inside. */
  ghost predicate Next(g: Gate, a: Action, h: Gate) {
    match a
    case Fence => h == Fenced(g)
    case Enter => h == Entered(g)
    case Leave => g.active > 0 && h == Left(g)
  }

  /**
   The signal is closed exactly when the fence is up and nobody is inside, and it
   was closed once.
   */
  ghost predicate Inv(g: Gate) {
    && g.active >= 0
    && (g.drained.Closed? <==> g.closed && g.active == 0)
    && (g.drained.Unmade? ==> !g.closed) && (!g.closed ==> g.drained.Unmade?)
    && g.closes == (if g.drained.Closed? then 1 else 0)
  }

  ghost predicate Run(gates: seq<Gate>, actions: seq<Action>) {
    && |gates| == |actions| + 1 && gates[0] == OPEN
    && forall i :: 0 <= i < |actions| ==> Next(gates[i], actions[i], gates[i + 1])
  }

  lemma InvStep(g: Gate, a: Action, h: Gate)
    requires Inv(g) && Next(g, a, h)
    ensures Inv(h)
  {}

  /** Over every interleaving of fences, entries and exits. */
  lemma {:induction false} DrainSignal(gates: seq<Gate>, actions: seq<Action>, i: nat)
    requires Run(gates, actions) && i < |gates|
    ensures Inv(gates[i])
  {
    if i > 0 {
      DrainSignal(gates, actions, i - 1);
      InvStep(gates[i - 1], actions[i - 1], gates[i]);
    }
  }

  /** Once the signal has closed nobody is inside, and nobody enters again. */
  lemma {:induction false} DrainedForever(gates: seq<Gate>, actions: seq<Action>, i: nat, j: nat)
    requires Run(gates, actions) && i <= j < |gates| && gates[i].drained.Closed?
    ensures gates[j] == gates[i] && gates[j].active == 0 && gates[j].closes == 1
    decreases j - i
  {
    DrainSignal(gates, actions, i);
    if i < j {
      DrainedForever(gates, actions, i, j - 1);
      assert Next(gates[j - 1], actions[j - 1], gates[j]);
    }
  }

  /** The commands let in, among the first n things that happen: those that come before any fence. */
  ghost function LetIn(actions: seq<Action>, n: nat): nat
    requires n <= |actions|
  {
    if n == 0 then 0
    else LetIn(actions, n - 1) + if actions[n - 1].Enter? && Fence !in actions[..n - 1] then 1 else 0
  }

  ghost function LetOut(actions: seq<Action>, n: nat): nat
    requires n <= |actions|
  {
    if n == 0 then 0 else LetOut(actions, n - 1) + if actions[n - 1].Leave? then 1 else 0
  }

  /** Those inside are those let in who have not left, and only those who came before every fence were let in. */
  lemma {:induction false} InsideAccounted(gates: seq<Gate>, actions: seq<Action>, n: nat)
    requires Run(gates, actions) && n <= |actions|
    ensures gates[n].active + LetOut(actions, n) == LetIn(actions, n)
    ensures gates[n].closed <==> Fence in actions[..n]
  {
    if n > 0 {
      InsideAccounted(gates, actions, n - 1);
      assert Next(gates[n - 1], actions[n - 1], gates[n]);
      assert actions[..n] == actions[..n - 1] + [actions[n - 1]];
    }
  }
}
