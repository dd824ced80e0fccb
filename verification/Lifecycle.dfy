/**
 Start, Serve, Quiesce and Stop of one Server, called from any number of
 goroutines, at the granularity of the sections its two mutexes protect.
 */
module Lifecycle {
  import opened AdmissionFence
  import opened HostWakes

  type Thread = nat

  datatype Status = Idle | Serving | Stopped

  /** The ClientLink node: absent, running unpublished, published, shut down. */
  datatype Node = Absent | Built | Published | ShutDown

  /** An attempt made at most once, such as stopRealtime's. */
  datatype Attempt = Unset | Pending | Settled(failed: bool)

  datatype Who = Nobody | Caller(t: Thread) | Quiescer

  /** The goroutine the first Quiesce starts. */
  datatype Quiescing = Unspawned | WantsLock | HasLock | Draining | ShutEnter | Shutting | Joining
    | Finished(failed: bool)

  datatype Shared = Shared(
    status: Status, http: bool, httpClosed: bool, started: bool,
    open: set<Thread>,                   // Serve calls that own a listener still open
    quiescing: bool, quiescer: Quiescing,
    lifecycle: Who,                      // the mutex that serializes Start and Stop
    node: Node, attempt: Attempt, shutter: Who, shutdowns: nat,
    launched: bool, cancelled: bool, sweepsDone: bool,
    gate: Gate, wakes: Wakes,
    torn: Attempt)                       // how the one teardown ended; no branch reads it

  datatype Ending =
    | StartReturned | ServeRefused | ServeReturned | QuiesceReturned
    | StopGaveUp | StopRepeated | TornDown(failed: bool)

  /** Where a call stands. `serve` marks a Start that a Serve is making. */
  datatype Pc =
    | StartLock(serve: bool) | StartCheck(serve: bool) | StartBuild(serve: bool)
    | StartPublish(serve: bool) | StartLaunch(serve: bool)
    | ServeClaim | ServeListen
    | QuiesceEnter(stop: bool) | QuiesceWait(stop: bool)
    | StopLock(failed: bool) | StopMark(failed: bool) | StopHTTP(failed: bool)
    | StopNode(failed: bool) | StopShutting(failed: bool) | StopJoining(failed: bool)
    | StopWakes(failed: bool) | StopWaitWakes(failed: bool)
    | StopCancel(failed: bool) | StopSweeps(failed: bool) | StopRest(failed: bool)
    | Ended(ending: Ending)

  datatype State = State(sh: Shared, pcs: map<Thread, Pc>)

  // ------------------------------------------------------------------ one call

  predicate HoldsLock(pc: Pc) {
    pc.StartCheck? || pc.StartBuild? || pc.StartPublish? || pc.StartLaunch? || pc.StopMark? || TearingDown(pc)
  }

  predicate TearingDown(pc: Pc) {
    pc.StopHTTP? || pc.StopNode? || pc.StopShutting? || pc.StopJoining? || pc.StopWakes? || pc.StopWaitWakes?
    || pc.StopCancel? || pc.StopSweeps? || pc.StopRest?
  }

  predicate InStart(pc: Pc) { pc.StartBuild? || pc.StartPublish? || pc.StartLaunch? }

  /** Past the claim of a Serve, so owning its listener. */
  predicate InServe(pc: Pc) {
    pc.ServeListen? || ((pc.StartLock? || pc.StartCheck? || InStart(pc)) && pc.serve)
  }

  function AfterStart(serve: bool): Pc { if serve then ServeListen else Ended(StartReturned) }

  /** A Serve that returns before net/http has its listener closes it itself. */
  function CloseListener(sh: Shared, t: Thread): Shared { sh.(open := sh.open - {t}) }

  function Unlock(sh: Shared): Shared { sh.(lifecycle := Nobody) }

  /**
   A Start that did not start anything: it gives up the lock, and a Serve that made it
   closes its listener and returns.
   */
  predicate NotStarted(sh: Shared, t: Thread, serve: bool, sh': Shared, pc': Pc) {
    if serve then sh' == CloseListener(Unlock(sh), t) && pc' == Ended(ServeReturned)
    else sh' == Unlock(sh) && pc' == Ended(StartReturned)
  }

  /** Start's checks under the lock. Being started already is no failure of a Serve. */
  predicate StartChecked(sh: Shared, t: Thread, serve: bool, sh': Shared, pc': Pc) {
    if sh.status.Stopped? || sh.quiescing then NotStarted(sh, t, serve, sh', pc')
    else if sh.started then sh' == Unlock(sh) && pc' == AfterStart(serve)
    else sh' == sh.(started := true) && pc' == StartBuild(serve)
  }

  /** One section of one call. `timeout` says its context ended where the section waits, or what it calls failed. */
  ghost predicate Step(sh: Shared, t: Thread, pc: Pc, timeout: bool, sh': Shared, pc': Pc) {
    match pc
    case StartLock(serve) => sh.lifecycle.Nobody? && sh' == sh.(lifecycle := Caller(t)) && pc' == StartCheck(serve)
    case StartCheck(serve) => StartChecked(sh, t, serve, sh', pc')
    case StartBuild(serve) =>
      if timeout then NotStarted(sh, t, serve, sh', pc')
      else sh' == sh.(node := Built) && pc' == StartPublish(serve)
    case StartPublish(serve) => sh' == sh.(node := Published) && pc' == StartLaunch(serve)
    case StartLaunch(serve) => sh' == Unlock(sh.(launched := true)) && pc' == AfterStart(serve)
    case ServeClaim =>
      if !sh.status.Idle? || sh.quiescing then sh' == sh && pc' == Ended(ServeRefused)
      else sh' == sh.(status := Serving, http := true, open := sh.open + {t}) && pc' == StartLock(true)
    case ServeListen => (sh.httpClosed || timeout) && sh' == CloseListener(sh, t) && pc' == Ended(ServeReturned)
    case QuiesceEnter(stop) =>
      && sh' == (if sh.quiescing then sh else sh.(quiescing := true, quiescer := WantsLock))
      && pc' == QuiesceWait(stop)
    case QuiesceWait(stop) =>
      if timeout then
        && sh' == sh
        && pc' == (if !stop then Ended(QuiesceReturned)
                   else if sh.quiescer.Finished? then StopLock(true) else Ended(StopGaveUp))
      else
        && sh.quiescer.Finished? && sh' == sh
        && pc' == (if stop then StopLock(sh.quiescer.failed) else Ended(QuiesceReturned))
    case StopLock(failed) => sh.lifecycle.Nobody? && sh' == sh.(lifecycle := Caller(t)) && pc' == StopMark(failed)
    case StopMark(failed) =>
      if sh.status.Stopped? then sh' == Unlock(sh) && pc' == Ended(StopRepeated)
      else sh' == sh.(status := Stopped, torn := Pending) && pc' == StopHTTP(failed)
    case StopHTTP(failed) => // Shutdown closes the listeners net/http holds by now
      && sh'.open <= sh.open && sh' == sh.(httpClosed := sh.httpClosed || sh.http, open := sh'.open)
      && pc' == StopNode(failed || timeout)
    case StopNode(failed) =>
      if !sh.attempt.Unset? then sh' == sh && pc' == StopJoining(failed)
      else if sh.node.Absent? then sh' == sh && pc' == StopWakes(failed)
      else
        && sh' == sh.(attempt := Pending, shutter := Caller(t), shutdowns := sh.shutdowns + 1)
        && pc' == StopShutting(failed)
    case StopShutting(failed) =>
      && sh' == sh.(attempt := Settled(timeout), node := if timeout then sh.node else ShutDown)
      && pc' == StopWakes(failed || timeout)
    case StopJoining(failed) =>
      if timeout then sh' == sh && pc' == StopWakes(true)
      else sh.attempt.Settled? && sh' == sh && pc' == StopWakes(failed || sh.attempt.failed)
    case StopWakes(failed) => sh' == sh.(wakes := Stopping(sh.wakes)) && pc' == StopWaitWakes(failed)
    case StopWaitWakes(failed) =>
      if timeout then sh' == sh && pc' == StopCancel(true)
      else sh.wakes.running == 0 && sh' == sh && pc' == StopCancel(failed)
    case StopCancel(failed) => sh' == sh.(cancelled := sh.cancelled || sh.launched) && pc' == StopSweeps(failed)
    case StopSweeps(failed) =>
      if timeout then sh' == sh && pc' == StopRest(true)
      else (sh.launched ==> sh.sweepsDone) && sh' == sh && pc' == StopRest(failed)
    case StopRest(failed) =>
      sh' == Unlock(sh.(torn := Settled(failed || timeout))) && pc' == Ended(TornDown(failed || timeout))
    case Ended(_) => false
  }

  /** One section of finishQuiesce. */
  ghost predicate QuiescerStep(sh: Shared, timeout: bool, sh': Shared) {
    match sh.quiescer
    case Unspawned => false
    case WantsLock => sh.lifecycle.Nobody? && sh' == sh.(lifecycle := Quiescer, quiescer := HasLock)
    case HasLock => sh' == Unlock(sh.(gate := Fenced(sh.gate), quiescer := Draining))
    case Draining => sh.gate.drained.Closed? && sh' == sh.(quiescer := ShutEnter)
    case ShutEnter =>
      if !sh.attempt.Unset? then sh' == sh.(quiescer := Joining)
      else if sh.node.Absent? then sh' == sh.(quiescer := Finished(false))
      else sh' == sh.(attempt := Pending, shutter := Quiescer, shutdowns := sh.shutdowns + 1, quiescer := Shutting)
    case Shutting =>
      sh' == sh.(attempt := Settled(timeout), node := if timeout then sh.node else ShutDown,
                 quiescer := Finished(timeout))
    case Joining =>
      if timeout then sh' == sh.(quiescer := Finished(true))
      else sh.attempt.Settled? && sh' == sh.(quiescer := Finished(sh.attempt.failed))
    case Finished(_) => false
  }

  datatype Action =
    | Arrive(t: Thread, pc: Pc)
    | Advance(t: Thread, timeout: bool)
    | AdvanceQuiescer(timeout: bool)
    | Admit | Depart
    | SweepsEnd
    | WakeStep(a: HostWakes.Action)

  predicate Entry(pc: Pc) {
    pc == StartLock(false) || pc == ServeClaim || pc == QuiesceEnter(false) || pc == QuiesceEnter(true)
  }

  ghost predicate Next(s: State, a: Action, s': State) {
    match a
    case Arrive(t, pc) => t !in s.pcs && Entry(pc) && s' == s.(pcs := s.pcs[t := pc])
    case Advance(t, timeout) =>
      && t in s.pcs && t in s'.pcs && s'.pcs == s.pcs[t := s'.pcs[t]]
      && Step(s.sh, t, s.pcs[t], timeout, s'.sh, s'.pcs[t])
    case AdvanceQuiescer(timeout) => s'.pcs == s.pcs && QuiescerStep(s.sh, timeout, s'.sh)
    case Admit => s' == s.(sh := s.sh.(gate := Entered(s.sh.gate)))
    case Depart => s.sh.gate.active > 0 && s' == s.(sh := s.sh.(gate := Left(s.sh.gate)))
    case SweepsEnd => s.sh.launched && s.sh.cancelled && s' == s.(sh := s.sh.(sweepsDone := true))
    case WakeStep(w) =>
      !w.Stop? && HostWakes.Next(s.sh.wakes, w, s'.sh.wakes) && s' == s.(sh := s.sh.(wakes := s'.sh.wakes))
  }

  ghost predicate Init(s: State) {
    exists limit :: s == State(
      Shared(Idle, false, false, false, {}, false, Unspawned, Nobody, Absent, Unset, Nobody, 0, false, false, false,
             OPEN, Wakes(limit, 0, false, 0), Unset), map[])
  }

  ghost predicate Run(states: seq<State>, actions: seq<Action>) {
    && |states| == |actions| + 1 && Init(states[0])
    && forall i :: 0 <= i < |actions| ==> Next(states[i], actions[i], states[i + 1])
  }

  // --------------------------------------------------------------- invariants

  predicate NoNode(sh: Shared) { sh.node.Absent? || sh.node.ShutDown? }
  predicate NoWakes(sh: Shared) { sh.wakes.stopped && sh.wakes.running == 0 }
  predicate NoSweeps(sh: Shared) { sh.launched ==> sh.sweepsDone }
  predicate NoListener(sh: Shared) { sh.http ==> sh.httpClosed }

  /** Nothing this Server started is still running, and nothing can start. */
  predicate Quiet(sh: Shared) {
    sh.status.Stopped? && sh.gate.closed && NoNode(sh) && NoWakes(sh) && NoSweeps(sh) && NoListener(sh)
  }

  /** Later wakes are refused, and the sweeps that were launched are told to end. */
  predicate Halted(sh: Shared) { sh.wakes.stopped && (sh.launched ==> sh.cancelled) }

  ghost predicate GateInv(sh: Shared) {
    && AdmissionFence.Inv(sh.gate)
    && (sh.quiescer.Unspawned? <==> !sh.quiescing)
    && (sh.quiescer.HasLock? <==> sh.lifecycle.Quiescer?)
    && (sh.gate.closed <==> sh.quiescing && !sh.quiescer.WantsLock? && !sh.quiescer.HasLock?)
    && (sh.gate.closed && !sh.quiescer.Draining? ==> sh.gate.drained.Closed?)
  }

  ghost predicate NodeInv(sh: Shared) {
    && (sh.attempt.Unset? <==> sh.shutter.Nobody?) && sh.shutdowns == (if sh.attempt.Unset? then 0 else 1)
    && (!sh.attempt.Unset? ==> sh.gate.drained.Closed? && (sh.node.Published? || sh.node.ShutDown?))
    && (sh.node.ShutDown? <==> sh.attempt == Settled(false))
    && (sh.quiescer.Shutting? ==> sh.attempt.Pending? && sh.shutter.Quiescer?)
    && (!sh.started ==> sh.node.Absent? && !sh.launched)
  }

  /** Sweeps and wakes are stopped by Stop alone, after the fence. */
  ghost predicate StopInv(sh: Shared) {
    && (sh.status.Stopped? ==> sh.gate.closed && sh.quiescer.Finished?)
    && (sh.status.Serving? ==> sh.http)
    && (sh.wakes.stopped || sh.cancelled ==> sh.status.Stopped?)
    && (sh.sweepsDone ==> sh.launched && sh.cancelled)
    && (sh.torn.Unset? <==> !sh.status.Stopped?)
    && (sh.torn.Settled? ==> NoListener(sh) && Halted(sh)) && (sh.torn == Settled(false) ==> Quiet(sh))
  }

  /** What a call knows where it stands. */
  ghost predicate CallInv(sh: Shared, t: Thread, pc: Pc) {
    && (HoldsLock(pc) <==> sh.lifecycle == Caller(t)) && (HoldsLock(pc) && sh.node.Built? ==> pc.StartPublish?)
    && (InStart(pc) ==> sh.started && !sh.gate.closed && !sh.status.Stopped? && !sh.launched)
    && (pc.StartBuild? ==> sh.node.Absent?) && (pc.StartPublish? ==> sh.node.Built?) &&
       (pc.StartLaunch? ==> sh.node.Published?)
    && (pc.StopLock? || pc.StopMark? ==> sh.gate.closed && sh.quiescer.Finished?)
    && (TearingDown(pc) <==> sh.torn.Pending? && sh.lifecycle == Caller(t))
    && TeardownInv(sh, t, pc)
    && (pc == Ended(TornDown(false)) ==> sh.torn == Settled(false))
    && (pc == Ended(StopRepeated) ==> sh.torn.Settled?)
    && (InServe(pc) ==> sh.http) && (t in sh.open ==> InServe(pc))
  }

  /** What each phase of a teardown has established, unless an earlier one failed. */
  ghost predicate TeardownInv(sh: Shared, t: Thread, pc: Pc) {
    && (TearingDown(pc) ==> sh.status.Stopped? && (!pc.StopHTTP? ==> NoListener(sh)))
    && (pc.StopShutting? ==> sh.attempt.Pending? && sh.shutter == Caller(t))
    && (pc.StopWaitWakes? || pc.StopCancel? ==> sh.wakes.stopped)
    && (pc.StopSweeps? || pc.StopRest? ==> Halted(sh))
    && (AfterNode(pc) && !pc.failed ==> NoNode(sh))
    && ((pc.StopCancel? || pc.StopSweeps? || pc.StopRest?) && !pc.failed ==> NoWakes(sh))
    && (pc.StopRest? && !pc.failed ==> NoSweeps(sh))
  }

  predicate AfterNode(pc: Pc) { pc.StopWakes? || pc.StopWaitWakes? || pc.StopCancel? || pc.StopSweeps? || pc.StopRest? }

  /** A node is unpublished, or a teardown under way, only while a call holds the lock. */
  ghost predicate FreeInv(sh: Shared) { !sh.lifecycle.Caller? ==> !sh.node.Built? && !sh.torn.Pending? }

  ghost predicate SharedInv(sh: Shared) { GateInv(sh) && NodeInv(sh) && StopInv(sh) && FreeInv(sh) }

  ghost predicate Inv(s: State) {
    && SharedInv(s.sh) && (s.sh.lifecycle.Caller? ==> s.sh.lifecycle.t in s.pcs) && s.sh.open <= s.pcs.Keys
    && forall t :: t in s.pcs ==> CallInv(s.sh, t, s.pcs[t])
  }

  lemma InitHolds(s: State)
    requires Init(s)
    ensures Inv(s)
  {}

  // -------------------------------------------------- what one step may change

  predicate LockedByOther(sh: Shared, w: Who) { sh.lifecycle.Caller? && sh.lifecycle != w }

  /** What a step by `w` leaves alone, or moves one way only. */
  ghost predicate Frame(sh: Shared, w: Who, sh': Shared) {
    && (LockedByOther(sh, w) ==> sh'.lifecycle == sh.lifecycle && Guarded(sh, sh'))
    && (!LockedByOther(sh, w) ==> !LockedByOther(sh', w))
    && (sh.gate.closed ==> sh'.gate.closed) && (sh.quiescer.Finished? ==> sh'.quiescer == sh.quiescer)
    && (sh.status.Stopped? ==> sh'.status.Stopped? && sh'.http == sh.http) && (sh.http ==> sh'.http) &&
       (sh.httpClosed ==> sh'.httpClosed)
    && (sh.wakes.stopped ==> sh'.wakes.stopped && sh'.wakes.running <= sh.wakes.running)
    && (sh.sweepsDone ==> sh'.sweepsDone) && (sh.cancelled ==> sh'.cancelled)
    && (forall u :: u in sh'.open && u !in sh.open ==> w == Caller(u))
    && (sh.torn.Settled? ==> sh'.torn == sh.torn)
    && (sh.gate.closed ==> sh'.node.Absent? == sh.node.Absent?)
    && (sh'.node == sh.node || !LockedByOther(sh, w) || (sh'.node.ShutDown? && sh.attempt.Pending?))
    && (sh.shutter.Caller? && sh.shutter != w ==> sh'.shutter == sh.shutter && sh'.attempt == sh.attempt)
  }

  /** Fields that only the holder of the lifecycle lock changes. */
  ghost predicate Guarded(sh: Shared, sh': Shared) {
    && sh'.started == sh.started && sh'.launched == sh.launched && sh'.torn == sh.torn
    && sh'.status.Stopped? == sh.status.Stopped? && sh'.gate.closed == sh.gate.closed
  }

  lemma OtherKept(sh: Shared, w: Who, sh': Shared, u: Thread, pc: Pc)
    requires SharedInv(sh) && CallInv(sh, u, pc)
    requires w != Caller(u) && Frame(sh, w, sh') && SharedInv(sh')
    ensures CallInv(sh', u, pc)
  {}

  // ------------------------------------------- a call's own section keeps them

  ghost predicate Kept(sh: Shared, t: Thread, pc: Pc) {
    SharedInv(sh) && CallInv(sh, t, pc)
  }

  lemma {:induction false} StartLockKept(sh: Shared, t: Thread, pc: Pc, timeout: bool, sh': Shared, pc': Pc)
    requires Kept(sh, t, pc) && Step(sh, t, pc, timeout, sh', pc') && pc.StartLock?
    ensures Kept(sh', t, pc') && Frame(sh, Caller(t), sh')
  {}

  lemma {:induction false} StartCheckFrames(sh: Shared, t: Thread, serve: bool, sh': Shared, pc': Pc)
    requires Kept(sh, t, StartCheck(serve)) && StartChecked(sh, t, serve, sh', pc')
    ensures Frame(sh, Caller(t), sh')
  {}

  lemma {:induction false} StartCheckShared(sh: Shared, t: Thread, serve: bool, sh': Shared, pc': Pc)
    requires Kept(sh, t, StartCheck(serve)) && StartChecked(sh, t, serve, sh', pc')
    ensures SharedInv(sh')
  {}

  lemma {:induction false} StartCheckCall(sh: Shared, t: Thread, serve: bool, sh': Shared, pc': Pc)
    requires Kept(sh, t, StartCheck(serve)) && StartChecked(sh, t, serve, sh', pc')
    ensures CallInv(sh', t, pc')
  {}

  lemma {:induction false} StartCheckKept(sh: Shared, t: Thread, serve: bool, sh': Shared, pc': Pc)
    requires Kept(sh, t, StartCheck(serve)) && StartChecked(sh, t, serve, sh', pc')
    ensures Kept(sh', t, pc') && Frame(sh, Caller(t), sh')
  {
    hide Frame, SharedInv, CallInv, StartChecked;
    StartCheckFrames(sh, t, serve, sh', pc');
    StartCheckShared(sh, t, serve, sh', pc');
    StartCheckCall(sh, t, serve, sh', pc');
  }

  lemma {:induction false} StartFrames(sh: Shared, t: Thread, pc: Pc, timeout: bool, sh': Shared, pc': Pc)
    requires Kept(sh, t, pc) && Step(sh, t, pc, timeout, sh', pc') && InStart(pc)
    ensures Frame(sh, Caller(t), sh')
  {}

  lemma {:induction false} StartKept(sh: Shared, t: Thread, pc: Pc, timeout: bool, sh': Shared, pc': Pc)
    requires Kept(sh, t, pc) && Step(sh, t, pc, timeout, sh', pc') && InStart(pc)
    ensures Kept(sh', t, pc') && Frame(sh, Caller(t), sh')
  {
    StartFrames(sh, t, pc, timeout, sh', pc');
    hide Frame;
  }

  lemma {:induction false} ServeKept(sh: Shared, t: Thread, pc: Pc, timeout: bool, sh': Shared, pc': Pc)
    requires Kept(sh, t, pc) && Step(sh, t, pc, timeout, sh', pc')
    requires pc.ServeClaim? || pc.ServeListen?
    ensures Kept(sh', t, pc') && Frame(sh, Caller(t), sh')
  {}

  lemma {:induction false} QuiesceFrames(sh: Shared, t: Thread, pc: Pc, timeout: bool, sh': Shared, pc': Pc)
    requires Kept(sh, t, pc) && Step(sh, t, pc, timeout, sh', pc')
    requires pc.QuiesceEnter? || pc.QuiesceWait?
    ensures Frame(sh, Caller(t), sh')
  {}

  lemma {:induction false} QuiesceKept(sh: Shared, t: Thread, pc: Pc, timeout: bool, sh': Shared, pc': Pc)
    requires Kept(sh, t, pc) && Step(sh, t, pc, timeout, sh', pc')
    requires pc.QuiesceEnter? || pc.QuiesceWait?
    ensures Kept(sh', t, pc') && Frame(sh, Caller(t), sh')
  {
    QuiesceFrames(sh, t, pc, timeout, sh', pc');
    hide Frame;
  }

  lemma {:induction false} StopClaimFrames(sh: Shared, t: Thread, pc: Pc, timeout: bool, sh': Shared, pc': Pc)
    requires Kept(sh, t, pc) && Step(sh, t, pc, timeout, sh', pc')
    requires pc.StopLock? || pc.StopMark?
    ensures Frame(sh, Caller(t), sh')
  {}

  lemma {:induction false} StopClaimKept(sh: Shared, t: Thread, pc: Pc, timeout: bool, sh': Shared, pc': Pc)
    requires Kept(sh, t, pc) && Step(sh, t, pc, timeout, sh', pc')
    requires pc.StopLock? || pc.StopMark?
    ensures Kept(sh', t, pc') && Frame(sh, Caller(t), sh')
  {
    StopClaimFrames(sh, t, pc, timeout, sh', pc');
    hide Frame;
  }

  lemma {:induction false} StopHTTPKept(sh: Shared, t: Thread, pc: Pc, timeout: bool, sh': Shared, pc': Pc)
    requires Kept(sh, t, pc) && Step(sh, t, pc, timeout, sh', pc') && pc.StopHTTP?
    ensures Kept(sh', t, pc') && Frame(sh, Caller(t), sh')
  {}

  lemma {:induction false} StopNodeFrames(sh: Shared, t: Thread, pc: Pc, timeout: bool, sh': Shared, pc': Pc)
    requires Kept(sh, t, pc) && Step(sh, t, pc, timeout, sh', pc')
    requires pc.StopNode?
    ensures Frame(sh, Caller(t), sh')
  {}

  lemma {:induction false} StopNodeKept(sh: Shared, t: Thread, pc: Pc, timeout: bool, sh': Shared, pc': Pc)
    requires Kept(sh, t, pc) && Step(sh, t, pc, timeout, sh', pc')
    requires pc.StopNode?
    ensures Kept(sh', t, pc') && Frame(sh, Caller(t), sh')
  {
    StopNodeFrames(sh, t, pc, timeout, sh', pc');
    hide Frame;
  }

  lemma {:induction false} StopShutFrames(sh: Shared, t: Thread, pc: Pc, timeout: bool, sh': Shared, pc': Pc)
    requires Kept(sh, t, pc) && Step(sh, t, pc, timeout, sh', pc')
    requires pc.StopShutting? || pc.StopJoining?
    ensures Frame(sh, Caller(t), sh')
  {}

  lemma {:induction false} StopShutKept(sh: Shared, t: Thread, pc: Pc, timeout: bool, sh': Shared, pc': Pc)
    requires Kept(sh, t, pc) && Step(sh, t, pc, timeout, sh', pc')
    requires pc.StopShutting? || pc.StopJoining?
    ensures Kept(sh', t, pc') && Frame(sh, Caller(t), sh')
  {
    StopShutFrames(sh, t, pc, timeout, sh', pc');
    hide Frame;
  }

  lemma {:induction false} StopWakesFrames(sh: Shared, t: Thread, pc: Pc, timeout: bool, sh': Shared, pc': Pc)
    requires Kept(sh, t, pc) && Step(sh, t, pc, timeout, sh', pc')
    requires pc.StopWakes? || pc.StopWaitWakes?
    ensures Frame(sh, Caller(t), sh')
  {}

  lemma {:induction false} StopWakesKept(sh: Shared, t: Thread, pc: Pc, timeout: bool, sh': Shared, pc': Pc)
    requires Kept(sh, t, pc) && Step(sh, t, pc, timeout, sh', pc')
    requires pc.StopWakes? || pc.StopWaitWakes?
    ensures Kept(sh', t, pc') && Frame(sh, Caller(t), sh')
  {
    StopWakesFrames(sh, t, pc, timeout, sh', pc');
    hide Frame;
  }

  lemma {:induction false} StopSweepFrames(sh: Shared, t: Thread, pc: Pc, timeout: bool, sh': Shared, pc': Pc)
    requires Kept(sh, t, pc) && Step(sh, t, pc, timeout, sh', pc')
    requires pc.StopCancel? || pc.StopSweeps?
    ensures Frame(sh, Caller(t), sh')
  {}

  lemma {:induction false} StopSweepKept(sh: Shared, t: Thread, pc: Pc, timeout: bool, sh': Shared, pc': Pc)
    requires Kept(sh, t, pc) && Step(sh, t, pc, timeout, sh', pc')
    requires pc.StopCancel? || pc.StopSweeps?
    ensures Kept(sh', t, pc') && Frame(sh, Caller(t), sh')
  {
    StopSweepFrames(sh, t, pc, timeout, sh', pc');
    hide Frame;
  }

  lemma {:induction false} StopRestFrames(sh: Shared, t: Thread, pc: Pc, timeout: bool, sh': Shared, pc': Pc)
    requires Kept(sh, t, pc) && Step(sh, t, pc, timeout, sh', pc')
    requires pc.StopRest?
    ensures Frame(sh, Caller(t), sh')
  {}

  lemma {:induction false} StopRestKept(sh: Shared, t: Thread, pc: Pc, timeout: bool, sh': Shared, pc': Pc)
    requires Kept(sh, t, pc) && Step(sh, t, pc, timeout, sh', pc')
    requires pc.StopRest?
    ensures Kept(sh', t, pc') && Frame(sh, Caller(t), sh')
  {
    StopRestFrames(sh, t, pc, timeout, sh', pc');
    hide Frame;
  }

  lemma {:induction false} OwnKept(sh: Shared, t: Thread, pc: Pc, timeout: bool, sh': Shared, pc': Pc)
    requires Kept(sh, t, pc) && Step(sh, t, pc, timeout, sh', pc')
    ensures Kept(sh', t, pc') && Frame(sh, Caller(t), sh')
  {
    hide Kept, Frame, StartChecked;
    if pc.StartLock? {
      StartLockKept(sh, t, pc, timeout, sh', pc');
    } else if pc.StartCheck? {
      StartCheckKept(sh, t, pc.serve, sh', pc');
    } else if InStart(pc) {
      StartKept(sh, t, pc, timeout, sh', pc');
    } else if pc.StopLock? || pc.StopMark? {
      StopClaimKept(sh, t, pc, timeout, sh', pc');
    } else if pc.StopHTTP? {
      StopHTTPKept(sh, t, pc, timeout, sh', pc');
    } else if pc.StopNode? {
      StopNodeKept(sh, t, pc, timeout, sh', pc');
    } else if pc.StopShutting? || pc.StopJoining? {
      StopShutKept(sh, t, pc, timeout, sh', pc');
    } else if pc.StopWakes? || pc.StopWaitWakes? {
      StopWakesKept(sh, t, pc, timeout, sh', pc');
    } else if pc.StopCancel? || pc.StopSweeps? {
      StopSweepKept(sh, t, pc, timeout, sh', pc');
    } else if pc.StopRest? {
      StopRestKept(sh, t, pc, timeout, sh', pc');
    } else if pc.ServeClaim? || pc.ServeListen? {
      ServeKept(sh, t, pc, timeout, sh', pc');
    } else {
      QuiesceKept(sh, t, pc, timeout, sh', pc');
    }
  }

  ghost predicate QuiescerReady(sh: Shared) {
    SharedInv(sh) && (sh.node.Built? ==> !sh.gate.closed)
  }

  lemma FenceKept(sh: Shared, timeout: bool, sh': Shared)
    requires QuiescerReady(sh) && QuiescerStep(sh, timeout, sh')
    requires sh.quiescer.WantsLock? || sh.quiescer.HasLock? || sh.quiescer.Draining?
    ensures SharedInv(sh') && Frame(sh, Quiescer, sh')
    ensures sh'.status == sh.status && sh'.quiescing == sh.quiescing
  {}

  lemma ShutKept(sh: Shared, timeout: bool, sh': Shared)
    requires QuiescerReady(sh) && QuiescerStep(sh, timeout, sh')
    requires sh.quiescer.ShutEnter? || sh.quiescer.Shutting? || sh.quiescer.Joining?
    ensures SharedInv(sh') && Frame(sh, Quiescer, sh')
    ensures sh'.status == sh.status && sh'.quiescing == sh.quiescing
  {}

  /** Admissions, sweeps returning and wakes. */
  lemma SurroundingsKept(s: State, a: Action, s': State)
    requires SharedInv(s.sh) && Next(s, a, s')
    requires a.Admit? || a.Depart? || a.SweepsEnd? || a.WakeStep?
    ensures SharedInv(s'.sh) && Frame(s.sh, Nobody, s'.sh) && s'.pcs == s.pcs
  {}

  // --------------------------------------------------------------------- runs

  function Actor(a: Action): Who {
    if a.Advance? then Caller(a.t) else if a.AdvanceQuiescer? then Quiescer else Nobody
  }

  lemma {:induction false} AdvanceKeeps(s: State, t: Thread, timeout: bool, s': State)
    requires Inv(s) && Next(s, Advance(t, timeout), s')
    ensures Inv(s') && Frame(s.sh, Caller(t), s'.sh)
  {
    hide Step, CallInv, SharedInv;
    OwnKept(s.sh, t, s.pcs[t], timeout, s'.sh, s'.pcs[t]);
    forall u | u in s'.pcs
      ensures CallInv(s'.sh, u, s'.pcs[u])
    {
      if u != t { OtherKept(s.sh, Caller(t), s'.sh, u, s.pcs[u]); }
    }
  }

  lemma {:induction false} Arrives(s: State, t: Thread, pc: Pc, s': State)
    requires Inv(s) && Next(s, Arrive(t, pc), s')
    ensures Inv(s') && Frame(s.sh, Nobody, s'.sh)
  {}

  lemma {:induction false} QuiescerKeeps(s: State, timeout: bool, s': State)
    requires Inv(s) && Next(s, AdvanceQuiescer(timeout), s')
    ensures Inv(s') && Frame(s.sh, Quiescer, s'.sh)
    ensures s'.sh.status == s.sh.status && s'.sh.quiescing == s.sh.quiescing
  {
    assert QuiescerReady(s.sh) by {
      assert s.sh.lifecycle.Caller? ==> CallInv(s.sh, s.sh.lifecycle.t, s.pcs[s.sh.lifecycle.t]);
    }
    hide SharedInv, CallInv;
    if s.sh.quiescer.WantsLock? || s.sh.quiescer.HasLock? || s.sh.quiescer.Draining? {
      FenceKept(s.sh, timeout, s'.sh);
    } else {
      ShutKept(s.sh, timeout, s'.sh);
    }
    Unmoved(s, Quiescer, s');
  }

  lemma {:induction false} InvStep(s: State, a: Action, s': State)
    requires Inv(s) && Next(s, a, s')
    ensures Inv(s') && Frame(s.sh, Actor(a), s'.sh)
  {
    hide SharedInv, CallInv, Step, Frame;
    match a {
      case Arrive(t, pc) => Arrives(s, t, pc, s');
      case Advance(t, timeout) => AdvanceKeeps(s, t, timeout, s');
      case AdvanceQuiescer(timeout) => QuiescerKeeps(s, timeout, s');
      case _ =>
        SurroundingsKept(s, a, s');
        Unmoved(s, Nobody, s');
    }
  }

  lemma Unmoved(s: State, w: Who, s': State)
    requires Inv(s) && !w.Caller? && Frame(s.sh, w, s'.sh) && s'.pcs == s.pcs
    requires SharedInv(s'.sh)
    ensures Inv(s')
  {
    forall u | u in s'.pcs
      ensures CallInv(s'.sh, u, s'.pcs[u])
    {
      OtherKept(s.sh, w, s'.sh, u, s.pcs[u]);
    }
  }

  /** Every reachable state, whatever calls arrive and however they interleave. */
  lemma {:induction false} InvAlong(states: seq<State>, actions: seq<Action>, i: nat)
    requires Run(states, actions) && i < |states|
    ensures Inv(states[i])
  {
    if i == 0 {
      InitHolds(states[0]);
    } else {
      InvAlong(states, actions, i - 1);
      InvStep(states[i - 1], actions[i - 1], states[i]);
    }
  }

  // ----------------------------------------------------------------- theorems

  /** Start's work and Stop's never overlap, in any call of either. */
  lemma OneAtATime(states: seq<State>, actions: seq<Action>, i: nat, t: Thread, u: Thread)
    requires Run(states, actions) && i < |states| && t in states[i].pcs && u in states[i].pcs
    requires HoldsLock(states[i].pcs[t]) && HoldsLock(states[i].pcs[u])
    ensures t == u
  {
    InvAlong(states, actions, i);
    assert CallInv(states[i].sh, t, states[i].pcs[t]) && CallInv(states[i].sh, u, states[i].pcs[u]);
  }

  /** The node is asked to shut down at most once, by a fenced Server with no command inside. */
  lemma ShutdownOnceAfterDrain(states: seq<State>, actions: seq<Action>, i: nat)
    requires Run(states, actions) && i < |states|
    ensures states[i].sh.shutdowns <= 1 && states[i].sh.gate.closes <= 1
    ensures states[i].sh.shutdowns == 1 ==> states[i].sh.gate.closed && states[i].sh.gate.active == 0
  {
    InvAlong(states, actions, i);
  }

  /** Quiescing stops neither sweep nor wake. */
  lemma QuiesceSparesBackground(states: seq<State>, actions: seq<Action>, i: nat)
    requires Run(states, actions) && i < |states| && !states[i].sh.status.Stopped?
    ensures !states[i].sh.cancelled && !states[i].sh.wakes.stopped && !states[i].sh.sweepsDone
  {
    InvAlong(states, actions, i);
  }

  lemma NoHalfBuiltNode(s: State)
    requires Inv(s) && s.sh.gate.closed
    ensures !s.sh.node.Built?
  {
    assert s.sh.lifecycle.Caller? ==> CallInv(s.sh, s.sh.lifecycle.t, s.pcs[s.sh.lifecycle.t]);
  }

  /** No node is built, published or half built once the fence is up. */
  lemma {:induction false} NoNodeAfterFence(states: seq<State>, actions: seq<Action>, i: nat, j: nat)
    requires Run(states, actions) && i <= j < |states| && states[i].sh.gate.closed
    ensures states[j].sh.gate.closed && !states[j].sh.node.Built?
    ensures states[j].sh.node.Absent? == states[i].sh.node.Absent?
    decreases j - i
  {
    hide Inv, Next;
    if i < j {
      NoNodeAfterFence(states, actions, i, j - 1);
      InvAlong(states, actions, j - 1);
      InvStep(states[j - 1], actions[j - 1], states[j]);
    }
    InvAlong(states, actions, j);
    NoHalfBuiltNode(states[j]);
  }

  /** A teardown's verdict is final. */
  lemma {:induction false} TornForever(states: seq<State>, actions: seq<Action>, i: nat, j: nat)
    requires Run(states, actions) && i <= j < |states| && states[i].sh.torn.Settled?
    ensures states[j].sh.torn == states[i].sh.torn
    decreases j - i
  {
    hide Inv, Next;
    if i < j {
      TornForever(states, actions, i, j - 1);
      InvAlong(states, actions, j - 1);
      InvStep(states[j - 1], actions[j - 1], states[j]);
    }
  }

  /** A Stop that tore the Server down and returned nil left nothing running, then and ever after. */
  lemma StopLeavesNothing(states: seq<State>, actions: seq<Action>, i: nat, j: nat, t: Thread)
    requires Run(states, actions) && i <= j < |states|
    requires t in states[i].pcs && states[i].pcs[t] == Ended(TornDown(false))
    ensures Quiet(states[j].sh)
  {
    InvAlong(states, actions, i);
    assert CallInv(states[i].sh, t, states[i].pcs[t]);
    TornForever(states, actions, i, j);
    InvAlong(states, actions, j);
  }

  /** A repeated Stop returns nil after the teardown has ended, and then promises only what that teardown did. */
  lemma RepeatedStop(states: seq<State>, actions: seq<Action>, i: nat, t: Thread)
    requires Run(states, actions) && i < |states|
    requires t in states[i].pcs && states[i].pcs[t] == Ended(StopRepeated)
    ensures states[i].sh.torn.Settled? && NoListener(states[i].sh)
    ensures !states[i].sh.torn.failed ==> Quiet(states[i].sh)
  {
    InvAlong(states, actions, i);
    assert CallInv(states[i].sh, t, states[i].pcs[t]);
  }

  /** A Serve that returned, past its claim or not, left no listener of its own open. */
  lemma ServeLeavesNoListener(states: seq<State>, actions: seq<Action>, i: nat, t: Thread)
    requires Run(states, actions) && i < |states|
    requires t in states[i].pcs && states[i].pcs[t].Ended?
    ensures t !in states[i].sh.open
  {
    InvAlong(states, actions, i);
    assert CallInv(states[i].sh, t, states[i].pcs[t]);
  }

  /** Once a teardown has ended, even badly, a Serve still accepting is free to return. */
  lemma ServeCanReturn(states: seq<State>, actions: seq<Action>, i: nat, t: Thread)
    requires Run(states, actions) && i < |states| && states[i].sh.torn.Settled?
    requires t in states[i].pcs && states[i].pcs[t].ServeListen?
    ensures Step(states[i].sh, t, states[i].pcs[t], false, CloseListener(states[i].sh, t), Ended(ServeReturned))
  {
    InvAlong(states, actions, i);
    assert CallInv(states[i].sh, t, states[i].pcs[t]);
  }

  // ------------------------------------------------- a repeated Stop can mislead

  ghost predicate Reachable(s: State) {
    exists states, actions :: Run(states, actions) && states[|actions|] == s
  }

  lemma Extend(s: State, a: Action, s': State)
    requires Reachable(s) && Next(s, a, s')
    ensures Reachable(s')
  {
    var states, actions :| Run(states, actions) && states[|actions|] == s;
    var longer, more := states + [s'], actions + [a];
    forall i | 0 <= i < |more|
      ensures Next(longer[i], more[i], longer[i + 1])
    {
      if i < |actions| { assert longer[i] == states[i] && longer[i + 1] == states[i + 1] && more[i] == actions[i]; }
    }
    assert Run(longer, more) && longer[|more|] == s';
  }

  lemma Take(s: State, t: Thread, timeout: bool, sh': Shared, pc': Pc) returns (s': State)
    requires Reachable(s) && t in s.pcs && Step(s.sh, t, s.pcs[t], timeout, sh', pc')
    ensures s' == State(sh', s.pcs[t := pc']) && Reachable(s')
  {
    s' := State(sh', s.pcs[t := pc']);
    Extend(s, Advance(t, timeout), s');
  }

  /** A Server that never started, quiesced with one wake still running. */
  const LINGERING: Shared :=
    Shared(Idle, false, false, false, {}, true, Finished(false), Nobody, Absent, Unset, Nobody, 0, false, false, false,
           Fenced(OPEN), Wakes(1, 1, false, 1), Unset)

  lemma {:induction false} WakeRunning() returns (s: State)
    ensures s == State(LINGERING, map[0 := QuiesceWait(true)]) && Reachable(s)
  {
    hide Reachable;
    var sh := LINGERING.(quiescing := false, quiescer := Unspawned, gate := OPEN, wakes := Wakes(1, 0, false, 0));
    s := State(sh, map[]);
    AtFirst(s);
    sh := sh.(wakes := Wakes(1, 1, false, 1));
    Extend(s, WakeStep(HostWakes.Schedule(true)), State(sh, map[]));
    s := State(sh, map[0 := QuiesceEnter(true)]);
    Extend(State(sh, map[]), Arrive(0, QuiesceEnter(true)), s);
    s := Take(s, 0, false, sh.(quiescing := true, quiescer := WantsLock), QuiesceWait(true));
    s := Quiesced(s);
  }

  lemma AtFirst(s: State)
    requires Init(s)
    ensures Reachable(s)
  {
    var none: seq<Action> := [];
    assert Run([s], none) && [s][|none|] == s;
  }

  lemma {:induction false} Quiesced(s: State) returns (s': State)
    requires Reachable(s) && s.sh.quiescer.WantsLock? && s.sh.lifecycle.Nobody? && s.sh.gate == OPEN
    requires s.sh.attempt.Unset? && s.sh.node.Absent?
    ensures Reachable(s') && s' == s.(sh := s.sh.(gate := Fenced(OPEN), quiescer := Finished(false)))
  {
    hide Reachable;
    var s2 := FencedBy(s);
    var s3 := s.(sh := s2.sh.(quiescer := ShutEnter));
    Extend(s2, AdvanceQuiescer(false), s3);
    s' := s.(sh := s2.sh.(quiescer := Finished(false)));
    Extend(s3, AdvanceQuiescer(false), s');
  }

  lemma {:induction false} FencedBy(s: State) returns (s': State)
    requires Reachable(s) && s.sh.quiescer.WantsLock? && s.sh.lifecycle.Nobody? && s.sh.gate == OPEN
    ensures Reachable(s') && s' == s.(sh := s.sh.(gate := Fenced(OPEN), quiescer := Draining))
  {
    hide Reachable;
    var s1 := s.(sh := s.sh.(lifecycle := Quiescer, quiescer := HasLock));
    Extend(s, AdvanceQuiescer(false), s1);
    s' := s.(sh := s.sh.(gate := Fenced(OPEN), quiescer := Draining));
    Extend(s1, AdvanceQuiescer(false), s');
  }

  lemma {:induction false} UpToWakes() returns (s: State)
    ensures Reachable(s) &&
      s == State(LINGERING.(status := Stopped, lifecycle := Caller(0), torn := Pending), map[0 := StopWakes(false)])
  {
    hide Reachable;
    s := WakeRunning();
    s := Take(s, 0, false, s.sh, StopLock(false));
    s := Take(s, 0, false, s.sh.(lifecycle := Caller(0)), StopMark(false));
    s := Take(s, 0, false, s.sh.(status := Stopped, torn := Pending), StopHTTP(false));
    s := Take(s, 0, false, s.sh, StopNode(false));
    s := Take(s, 0, false, s.sh, StopWakes(false));
    assert s.pcs == map[0 := StopWakes(false)];
  }

  /**
   A Stop whose wait for a wake ran out returns an error, and the next Stop returns nil
   with that wake still running.
   */
  lemma {:induction false} RepeatedStopMisleads() returns (s: State)
    ensures Reachable(s) && 1 in s.pcs && s.pcs[1] == Ended(StopRepeated) && s.sh.wakes.running == 1
    ensures s.sh.torn == Settled(true) && !Quiet(s.sh)
  {
    hide Reachable;
    s := UpToWakes();
    s := Take(s, 0, false, s.sh.(wakes := Stopping(s.sh.wakes)), StopWaitWakes(false));
    s := Take(s, 0, true, s.sh, StopCancel(true));
    s := Take(s, 0, false, s.sh, StopSweeps(true));
    s := Take(s, 0, false, s.sh, StopRest(true));
    s := Take(s, 0, false, Unlock(s.sh.(torn := Settled(true))), Ended(TornDown(true)));
    s := StopAgain(s);
  }

  lemma {:induction false} StopAgain(s: State) returns (s': State)
    requires Reachable(s) && s.sh.status.Stopped? && s.sh.lifecycle.Nobody? && s.sh.quiescing &&
      s.sh.quiescer == Finished(false)
    requires 1 !in s.pcs
    ensures Reachable(s') && s' == State(s.sh, s.pcs[1 := Ended(StopRepeated)])
  {
    hide Reachable;
    s' := s.(pcs := s.pcs[1 := QuiesceEnter(true)]);
    Extend(s, Arrive(1, QuiesceEnter(true)), s');
    s' := Take(s', 1, false, s'.sh, QuiesceWait(true));
    s' := Take(s', 1, false, s'.sh, StopLock(false));
    s' := Take(s', 1, false, s'.sh.(lifecycle := Caller(1)), StopMark(false));
    s' := Take(s', 1, false, Unlock(s'.sh), Ended(StopRepeated));
    assert s'.pcs == s.pcs[1 := Ended(StopRepeated)];
  }

  /** Every repeated Stop of a Server whose teardown ended this way returns with nothing left running. */
  ghost predicate RepeatedStopSound(failed: bool) {
    forall s, t :: Reachable(s) && s.sh.torn == Settled(failed) && t in s.pcs && s.pcs[t] == Ended(StopRepeated) ==>
      Quiet(s.sh)
  }

  /** A nil from a repeated Stop can be relied on exactly when the Stop that tore down returned nil. */
  lemma RepeatedStopExactly(failed: bool)
    ensures RepeatedStopSound(failed) <==> !failed
  {
    var s := RepeatedStopMisleads();
    forall s, t | Reachable(s) && s.sh.torn == Settled(false) && t in s.pcs && s.pcs[t] == Ended(StopRepeated)
      ensures Quiet(s.sh)
    {
      var states, actions :| Run(states, actions) && states[|actions|] == s;
      RepeatedStop(states, actions, |actions|, t);
    }
  }

  // ---------------------------------------------------------- calls and returns

  datatype Kind = StartCall | ServeCall | QuiesceCall | StopCall

  /** Which of the four calls stands here, or returned so. */
  function CallOf(pc: Pc): Kind {
    match pc
    case Ended(ending) =>
      (match ending
       case StartReturned => StartCall
       case ServeRefused => ServeCall
       case ServeReturned => ServeCall
       case QuiesceReturned => QuiesceCall
       case _ => StopCall)
    case ServeClaim => ServeCall
    case ServeListen => ServeCall
    case QuiesceEnter(stop) => if stop then StopCall else QuiesceCall
    case QuiesceWait(stop) => if stop then StopCall else QuiesceCall
    case StartLock(serve) => if serve then ServeCall else StartCall
    case StartCheck(serve) => if serve then ServeCall else StartCall
    case StartBuild(serve) => if serve then ServeCall else StartCall
    case StartPublish(serve) => if serve then ServeCall else StartCall
    case StartLaunch(serve) => if serve then ServeCall else StartCall
    case _ => StopCall
  }

  lemma {:induction false} StartKeepsCall(sh: Shared, t: Thread, pc: Pc, timeout: bool, sh': Shared, pc': Pc)
    requires Step(sh, t, pc, timeout, sh', pc') && CallOf(pc) != StopCall && CallOf(pc) != QuiesceCall
    ensures CallOf(pc') == CallOf(pc)
  {
    hide Stopping, CloseListener, Unlock;
  }

  lemma {:induction false} StopKeepsCall(sh: Shared, t: Thread, pc: Pc, timeout: bool, sh': Shared, pc': Pc)
    requires Step(sh, t, pc, timeout, sh', pc') && (CallOf(pc) == StopCall || CallOf(pc) == QuiesceCall)
    ensures CallOf(pc') == CallOf(pc)
  {
    hide Stopping, CloseListener, Unlock, StartChecked, NotStarted, AfterStart;
  }

  lemma {:induction false} CallKept(sh: Shared, t: Thread, pc: Pc, timeout: bool, sh': Shared, pc': Pc)
    requires Step(sh, t, pc, timeout, sh', pc')
    ensures CallOf(pc') == CallOf(pc) && !pc.Ended?
  {
    NothingReturnsTwice(sh, t, pc, timeout, sh', pc');
    hide Step, CallOf;
    if CallOf(pc) == StopCall || CallOf(pc) == QuiesceCall {
      StopKeepsCall(sh, t, pc, timeout, sh', pc');
    } else {
      StartKeepsCall(sh, t, pc, timeout, sh', pc');
    }
  }

  /** Every call returns as itself, through whatever Start or Quiesce it makes on the way, and returns once. */
  lemma {:induction false} ReturnsAsCalled(states: seq<State>, actions: seq<Action>, t: Thread, i: nat, j: nat)
    requires Run(states, actions) && i <= j < |states| && t in states[i].pcs
    ensures t in states[j].pcs && CallOf(states[j].pcs[t]) == CallOf(states[i].pcs[t])
    ensures states[i].pcs[t].Ended? ==> states[j].pcs[t] == states[i].pcs[t]
    decreases j - i
  {
    if i < j {
      ReturnsAsCalled(states, actions, t, i, j - 1);
      var s, a, s' := states[j - 1], actions[j - 1], states[j];
      assert Next(s, a, s');
      if a.Advance? && a.t == t { CallKept(s.sh, t, s.pcs[t], a.timeout, s'.sh, s'.pcs[t]); }
      hide CallOf, QuiescerStep, Step;
    }
  }

  // ------------------------------------------------------------ one Serve, ever

  /** Nobody is past the claim of a Serve while the Server is idle, and at most one call ever is. */
  ghost predicate ServeInv(s: State) {
    && (s.sh.status.Idle? ==> forall t :: t in s.pcs ==> !InServe(s.pcs[t]))
    && forall t, u :: t in s.pcs && u in s.pcs && InServe(s.pcs[t]) && InServe(s.pcs[u]) ==> t == u
  }

  /** What a section other than the claim of a Serve does to those who serve. */
  ghost predicate ServesNoMore(sh: Shared, pc: Pc, sh': Shared, pc': Pc) {
    && (InServe(pc') ==> InServe(pc)) && (sh'.status.Idle? ==> sh.status.Idle?)
    && (sh.quiescing ==> sh'.quiescing)
  }

  lemma {:induction false} StartServes(sh: Shared, t: Thread, pc: Pc, timeout: bool, sh': Shared, pc': Pc)
    requires Kept(sh, t, pc)
    requires Step(sh, t, pc, timeout, sh', pc') && (pc.StartLock? || pc.StartCheck? || InStart(pc) || pc.ServeListen?)
    ensures ServesNoMore(sh, pc, sh', pc')
  {
    hide Stopping;
  }

  lemma {:induction false} QuiesceServes(sh: Shared, t: Thread, pc: Pc, timeout: bool, sh': Shared, pc': Pc)
    requires Kept(sh, t, pc)
    requires Step(sh, t, pc, timeout, sh', pc') && (pc.QuiesceEnter? || pc.QuiesceWait? || pc.StopLock? || pc.StopMark?)
    ensures ServesNoMore(sh, pc, sh', pc')
  {
    hide StartChecked, AfterStart, NotStarted, CloseListener, Stopping;
  }

  lemma {:induction false} StopServes(sh: Shared, t: Thread, pc: Pc, timeout: bool, sh': Shared, pc': Pc)
    requires Kept(sh, t, pc)
    requires Step(sh, t, pc, timeout, sh', pc')
    requires pc.StopHTTP? || pc.StopNode? || pc.StopShutting? || pc.StopJoining?
    ensures ServesNoMore(sh, pc, sh', pc')
  {
    hide StartChecked, AfterStart, NotStarted, CloseListener, Stopping;
  }

  lemma {:induction false} LateStopServes(sh: Shared, t: Thread, pc: Pc, timeout: bool, sh': Shared, pc': Pc)
    requires Kept(sh, t, pc)
    requires Step(sh, t, pc, timeout, sh', pc')
    requires pc.StopWakes? || pc.StopWaitWakes? || pc.StopCancel? || pc.StopSweeps? || pc.StopRest?
    ensures ServesNoMore(sh, pc, sh', pc')
  {
    hide StartChecked, AfterStart, NotStarted, CloseListener;
  }

  /** A call gets past the claim of a Serve only from an idle Server that is not quiescing, and leaves it serving. */
  lemma {:induction false} ClaimServes(sh: Shared, t: Thread, pc: Pc, timeout: bool, sh': Shared, pc': Pc)
    requires Kept(sh, t, pc)
    requires Step(sh, t, pc, timeout, sh', pc') && pc.ServeClaim?
    ensures InServe(pc') ==> sh.status.Idle? && !sh.quiescing && sh'.status.Serving?
    ensures sh'.quiescing == sh.quiescing && (sh'.status.Idle? ==> !InServe(pc'))
  {
    hide StartChecked, AfterStart, NotStarted, CloseListener, Stopping;
  }

  lemma {:induction false} ServeStep(sh: Shared, t: Thread, pc: Pc, timeout: bool, sh': Shared, pc': Pc)
    requires Kept(sh, t, pc)
    requires Step(sh, t, pc, timeout, sh', pc') && !pc.ServeClaim?
    ensures ServesNoMore(sh, pc, sh', pc')
  {
    if pc.Ended? {
      NothingReturnsTwice(sh, t, pc, timeout, sh', pc');
    } else {
      hide Step, ServesNoMore, Kept;
      if pc.StartLock? || pc.StartCheck? || InStart(pc) || pc.ServeListen? {
        StartServes(sh, t, pc, timeout, sh', pc');
      } else if pc.QuiesceEnter? || pc.QuiesceWait? || pc.StopLock? || pc.StopMark? {
        QuiesceServes(sh, t, pc, timeout, sh', pc');
      } else if pc.StopHTTP? || pc.StopNode? || pc.StopShutting? || pc.StopJoining? {
        StopServes(sh, t, pc, timeout, sh', pc');
      } else {
        LateStopServes(sh, t, pc, timeout, sh', pc');
      }
    }
  }

  lemma {:induction false} NothingReturnsTwice(sh: Shared, t: Thread, pc: Pc, timeout: bool, sh': Shared, pc': Pc)
    requires Step(sh, t, pc, timeout, sh', pc')
    ensures !pc.Ended?
  {}

  /** Whoever serves then served before. */
  ghost predicate NoNewServe(s: State, s': State) {
    forall t :: t in s'.pcs && InServe(s'.pcs[t]) ==> t in s.pcs && InServe(s.pcs[t])
  }

  lemma {:induction false} ServeInvStep(s: State, a: Action, s': State)
    requires Inv(s) && ServeInv(s) && Next(s, a, s')
    ensures ServeInv(s') && (s.sh.quiescing ==> s'.sh.quiescing && NoNewServe(s, s'))
  {
    match a {
      case Advance(t, timeout) =>
        assert Kept(s.sh, t, s.pcs[t]);
        if s.pcs[t].ServeClaim? {
          ClaimServes(s.sh, t, s.pcs[t], timeout, s'.sh, s'.pcs[t]);
        } else {
          ServeStep(s.sh, t, s.pcs[t], timeout, s'.sh, s'.pcs[t]);
        }
      case AdvanceQuiescer(timeout) => QuiescerKeeps(s, timeout, s');
      case _ =>
    }
    hide Step, QuiescerStep, HostWakes.Next;
  }

  /** At most one Serve is ever past its claim, and none gets there once a Quiesce or a Stop has begun. */
  lemma {:induction false} OneServe(states: seq<State>, actions: seq<Action>, i: nat, j: nat)
    requires Run(states, actions) && i <= j < |states|
    ensures ServeInv(states[j])
    ensures states[i].sh.quiescing ==> states[j].sh.quiescing && NoNewServe(states[i], states[j])
    decreases j
  {
    hide Step, QuiescerStep;
    if j > 0 {
      OneServe(states, actions, if i < j then i else j - 1, j - 1);
      assert Next(states[j - 1], actions[j - 1], states[j]);
      InvAlong(states, actions, j - 1);
      hide ServeInv, Inv;
      ServeInvStep(states[j - 1], actions[j - 1], states[j]);
    }
  }

  // --------------------------------------------------------- failures reported

  /** A teardown that has met with a failure, or ended in one. */
  predicate Failing(pc: Pc) { (TearingDown(pc) && pc.failed) || pc == Ended(TornDown(true)) }

  /** Where a call waits on its context, or on something that may fail. */
  predicate MayFail(pc: Pc) {
    pc.StopHTTP? || pc.StopShutting? || pc.StopJoining? || pc.StopWaitWakes? || pc.StopSweeps? || pc.StopRest?
  }

  /** A teardown in which that happens goes on, and reports it. */
  lemma {:induction false} FailureNoted(sh: Shared, t: Thread, pc: Pc, timeout: bool, sh': Shared, pc': Pc)
    requires Step(sh, t, pc, timeout, sh', pc') && TearingDown(pc)
    ensures Failing(pc) || (timeout && MayFail(pc)) ==> Failing(pc')
  {}

  /** A Start whose node could not be built starts nothing and gives the lock back. */
  lemma {:induction false} FailedStart(sh: Shared, t: Thread, pc: Pc, sh': Shared, pc': Pc)
    requires Kept(sh, t, pc)
    requires Step(sh, t, pc, true, sh', pc') && pc.StartBuild?
    ensures pc'.Ended? && sh'.node == sh.node && sh'.lifecycle.Nobody? && sh'.launched == sh.launched
  {
    hide StartChecked, AfterStart, Stopping;
  }

  /** A Quiesce in which the node's shutdown fails, or is not over in time, reports it too. */
  lemma {:induction false} QuiesceFailureNoted(sh: Shared, sh': Shared)
    requires QuiescerReady(sh) && QuiescerStep(sh, true, sh') && (sh.quiescer.Shutting? || sh.quiescer.Joining?)
    ensures sh'.quiescer == Finished(true)
  {}

  /** So a Stop whose teardown failed in any phase does not return nil. */
  lemma {:induction false} FailureReported(states: seq<State>, actions: seq<Action>, t: Thread, i: nat, j: nat)
    requires Run(states, actions) && i <= j < |states| && t in states[i].pcs && Failing(states[i].pcs[t])
    ensures t in states[j].pcs && Failing(states[j].pcs[t])
    decreases j - i
  {
    if i < j {
      FailureReported(states, actions, t, i, j - 1);
      var s, a, s' := states[j - 1], actions[j - 1], states[j];
      assert Next(s, a, s');
      if a.Advance? && a.t == t {
        NothingReturnsTwice(s.sh, t, s.pcs[t], a.timeout, s'.sh, s'.pcs[t]);
        FailureNoted(s.sh, t, s.pcs[t], a.timeout, s'.sh, s'.pcs[t]);
      }
      hide Step, QuiescerStep;
    }
  }

  /** However a teardown ended, no wake starts after it and every sweep that was launched was told to end. */
  lemma {:induction false} TornHalts(states: seq<State>, actions: seq<Action>, i: nat)
    requires Run(states, actions) && i < |states| && states[i].sh.torn.Settled?
    ensures states[i].sh.wakes.stopped && (states[i].sh.launched ==> states[i].sh.cancelled)
  {
    InvAlong(states, actions, i);
    hide GateInv, NodeInv, CallInv, Quiet;
  }
}
