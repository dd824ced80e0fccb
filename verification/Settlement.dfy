/**
 The disposition family's deadline: any number of sweeps turning unapplied
 commands into rejections while Hosts claim, begin applying and complete them.

 A reconciliation claim excludes nobody here, a due page may show any past
 version of a row, and the store is asked for no more than its compare-and-swap.
 */
module Settlement {
  import opened Common

  type Instant = int
  type Command = nat
  type Sweep = nat

  datatype InboxState = Pending | Claimed | Applying | Applied | Rejected | Unknown(code: nat)

  /** `claim` is when the command claim lapses, `attempt` whether a dispatch was authorized. */
  datatype Record = Record(revision: nat, state: InboxState, claim: Option<Instant>, attempt: bool, deadline: Instant)

  datatype Disposition =
    Settleable | RejectedNow | Unexpired | ClaimLive | ApplyingNow | Terminal
    | Evidence | RaceLost | Deferred | Unrecognized

  /** The sweep's safety predicate, arm for arm. */
  function DispositionSettleable(r: Record, now: Instant): Disposition {
    match r.state
    case Applied => Terminal
    case Rejected => Terminal
    case Applying => ApplyingNow
    case Unknown(_) => Unrecognized
    case _ =>
      if r.attempt then ApplyingNow
      else if r.claim.Some? && now < r.claim.value then ClaimLive
      else if now < r.deadline then Unexpired
      else Settleable
  }

  /** No attempt, no live claim, deadline passed, and still open. */
  predicate Abandoned(r: Record, now: Instant) {
    && (r.state.Pending? || r.state.Claimed?) && !r.attempt
    && (r.claim.Some? ==> r.claim.value <= now) && r.deadline <= now
  }

  predicate Unended(r: Record) { r.state.Pending? || r.state.Claimed? }

  predicate ClaimedAt(r: Record, now: Instant) { r.claim.Some? && now < r.claim.value }

  /** Which rows stand so at an instant: what each judgement says of the row. */
  predicate Stands(r: Record, now: Instant, d: Disposition) {
    match d
    case Settleable => Abandoned(r, now)
    case Terminal => r.state.Applied? || r.state.Rejected?
    case ApplyingNow => r.state.Applying? || (Unended(r) && r.attempt)
    case ClaimLive => Unended(r) && !r.attempt && ClaimedAt(r, now)
    case Unexpired => Unended(r) && !r.attempt && !ClaimedAt(r, now) && now < r.deadline
    case Unrecognized => r.state.Unknown?
    case _ => false
  }

  lemma SettleableExactly(r: Record, now: Instant, d: Disposition)
    ensures DispositionSettleable(r, now) == Settleable <==> Abandoned(r, now)
    ensures DispositionSettleable(r, now) == d <==> Stands(r, now, d)
  {}

  // ------------------------------------------------------------------- steps

  /** Every version of every command, oldest first, and each sweep's own reading of the clock. */
  datatype State = State(time: Instant, logs: map<Command, seq<Record>>, passes: map<Sweep, Instant>)

  function Now(s: State, c: Command): Record
    requires c in s.logs && s.logs[c] != []
  {
    s.logs[c][|s.logs[c]| - 1]
  }

  datatype Action =
    | Tick(to: Instant)
    | BeginPass(p: Sweep)                              // reads the clock once
    | Reject(p: Sweep, c: Command, entry: Record)      // a row it judged settleable
    | Refused(p: Sweep, c: Command)                    // any refusal, and any lost answer before the write
    | HostClaim(c: Command, expires: Instant)
    | HostRelease(c: Command)
    | HostBegin(c: Command)
    | HostComplete(c: Command, applied: bool)

  function Put(s: State, c: Command, r: Record): State
    requires c in s.logs
  {
    s.(logs := s.logs[c := s.logs[c] + [r]])
  }

  ghost predicate Known(s: State, c: Command) { c in s.logs && s.logs[c] != [] }

  ghost predicate Next(s: State, a: Action, t: State) {
    match a
    case Tick(to) => s.time <= to && t == s.(time := to)
    case BeginPass(p) => t == s.(passes := s.passes[p := s.time])
    case Reject(p, c, entry) =>
      && p in s.passes && Known(s, c) && entry in s.logs[c]
      && DispositionSettleable(entry, s.passes[p]) == Settleable
      && entry.revision == Now(s, c).revision
      && t == Put(s, c, Now(s, c).(revision := Now(s, c).revision + 1, state := Rejected, claim := None))
    case Refused(p, c) => t == s
    case HostClaim(c, expires) =>
      && Known(s, c) && (Now(s, c).state.Pending? || Now(s, c).state.Claimed?)
      && t == Put(s, c, Now(s, c).(revision := Now(s, c).revision + 1, state := Claimed, claim := Some(expires)))
    case HostRelease(c) =>
      && Known(s, c) && Now(s, c).state.Claimed?
      && t == Put(s, c, Now(s, c).(revision := Now(s, c).revision + 1, state := Pending, claim := None))
    case HostBegin(c) =>
      && Known(s, c) && Now(s, c).state.Claimed? && Now(s, c).claim.Some? && s.time < Now(s, c).claim.value
      && t == Put(s, c, Now(s, c).(revision := Now(s, c).revision + 1, state := Applying, attempt := true))
    case HostComplete(c, applied) =>
      && Known(s, c) && Now(s, c).state.Applying?
      && t == Put(s, c, Now(s, c).(revision := Now(s, c).revision + 1, state := if applied then Applied else Rejected))
  }

  ghost predicate Init(s: State) {
    && s.passes == map[]
    && forall c :: c in s.logs ==>
       |s.logs[c]| == 1 && (s.logs[c][0].state.Applying? || s.logs[c][0].state.Applied? ==> s.logs[c][0].attempt)
  }

  ghost predicate Run(states: seq<State>, actions: seq<Action>) {
    && |states| == |actions| + 1 && Init(states[0])
    && forall i :: 0 <= i < |actions| ==> Next(states[i], actions[i], states[i + 1])
  }

  // --------------------------------------------------------------- invariants

  ghost predicate LogInv(log: seq<Record>) {
    && log != []
    && (forall i, j :: 0 <= i < j < |log| ==> log[i].revision < log[j].revision)
    && (forall i :: 0 <= i < |log| && (log[i].state.Applying? || log[i].state.Applied?) ==> log[i].attempt)
  }

  ghost predicate Inv(s: State) {
    && (forall c :: c in s.logs ==> LogInv(s.logs[c]))
    && (forall p :: p in s.passes ==> s.passes[p] <= s.time)
  }

  lemma PutKeeps(s: State, c: Command, r: Record)
    requires Inv(s) && c in s.logs && r.revision == Now(s, c).revision + 1
    requires r.state.Applying? || r.state.Applied? ==> r.attempt
    ensures Inv(Put(s, c, r))
  {
    var log := s.logs[c] + [r];
    assert LogInv(s.logs[c]);
    forall i, j | 0 <= i < j < |log| ensures log[i].revision < log[j].revision {
      if j == |log| - 1 && i < |log| - 2 {
        assert s.logs[c][i].revision < s.logs[c][|log| - 2].revision;
      }
    }
  }

  lemma InvStep(s: State, a: Action, t: State)
    requires Inv(s) && Next(s, a, t)
    ensures Inv(t)
  {
    if !a.Tick? && !a.BeginPass? && !a.Refused? {
      assert LogInv(s.logs[a.c]);
      PutKeeps(s, a.c, Now(t, a.c));
    }
  }

  lemma {:induction false} InvAlong(states: seq<State>, actions: seq<Action>, i: nat)
    requires Run(states, actions) && i < |states|
    ensures Inv(states[i])
  {
    if i > 0 {
      InvAlong(states, actions, i - 1);
      InvStep(states[i - 1], actions[i - 1], states[i]);
    }
  }

  lemma RevisionNames(log: seq<Record>, entry: Record)
    requires LogInv(log) && entry in log && entry.revision == log[|log| - 1].revision
    ensures entry == log[|log| - 1]
  {
    var i :| 0 <= i < |log| && log[i] == entry;
  }

  // ------------------------------------------------------------- main results

  /**
   At the instant it is written, every rejection a sweep makes is of a command
   nobody was working on and whose deadline had passed.
   */
  lemma RejectsOnlyAbandoned(states: seq<State>, actions: seq<Action>, i: nat)
    requires Run(states, actions) && i < |actions| && actions[i].Reject?
    ensures Known(states[i], actions[i].c)
    ensures Abandoned(Now(states[i], actions[i].c), states[i].time)
    ensures Known(states[i + 1], actions[i].c)
    ensures Now(states[i + 1], actions[i].c).state == Rejected && !Now(states[i + 1], actions[i].c).attempt
  {
    InvAlong(states, actions, i);
    var s, a := states[i], actions[i];
    assert Next(s, a, states[i + 1]);
    assert LogInv(s.logs[a.c]);
    RevisionNames(s.logs[a.c], a.entry);
    SettleableExactly(a.entry, s.passes[a.p], Settleable);
  }

  lemma RejectsOnlyOpen(s: State, a: Action, t: State)
    requires Inv(s) && a.Reject? && Next(s, a, t)
    ensures Now(s, a.c) == a.entry && (a.entry.state.Pending? || a.entry.state.Claimed?)
  {
    assert LogInv(s.logs[a.c]);
    RevisionNames(s.logs[a.c], a.entry);
  }

  lemma TerminalStays(s: State, a: Action, t: State, c: Command)
    requires Inv(s) && Next(s, a, t) && Known(s, c)
    requires Now(s, c).state.Rejected? || Now(s, c).state.Applied?
    ensures Known(t, c) && Now(t, c) == Now(s, c)
  {
    if a.Reject? {
      RejectsOnlyOpen(s, a, t);
    }
  }

  lemma {:induction false} TerminalForever(states: seq<State>, actions: seq<Action>, i: nat, j: nat, c: Command)
    requires Run(states, actions) && i <= j < |states| && Known(states[i], c)
    requires Now(states[i], c).state.Rejected? || Now(states[i], c).state.Applied?
    ensures Known(states[j], c) && Now(states[j], c) == Now(states[i], c)
    decreases j - i
  {
    if i < j {
      TerminalForever(states, actions, i, j - 1, c);
      InvAlong(states, actions, j - 1);
      TerminalStays(states[j - 1], actions[j - 1], states[j], c);
    }
  }

  /** A command a sweep rejected is never claimed, applied or given an attempt afterwards. */
  lemma RejectedNeverApplied(states: seq<State>, actions: seq<Action>, i: nat, j: nat)
    requires Run(states, actions) && i < |actions| && actions[i].Reject? && i < j < |states|
    ensures Known(states[j], actions[i].c)
    ensures Now(states[j], actions[i].c).state == Rejected && !Now(states[j], actions[i].c).attempt
  {
    RejectsOnlyAbandoned(states, actions, i);
    TerminalForever(states, actions, i + 1, j, actions[i].c);
  }

  lemma {:induction false} AttemptForever(states: seq<State>, actions: seq<Action>, i: nat, j: nat, c: Command)
    requires Run(states, actions) && i <= j < |states| && Known(states[i], c) && Now(states[i], c).attempt
    ensures Known(states[j], c) && Now(states[j], c).attempt
    decreases j - i
  {
    if i < j {
      AttemptForever(states, actions, i, j - 1, c);
      assert Next(states[j - 1], actions[j - 1], states[j]);
    }
  }

  /** Once an attempt exists, no sweep rejects the command: its ending is the Host's. */
  lemma AttemptIsNeverRejected(states: seq<State>, actions: seq<Action>, i: nat, j: nat)
    requires Run(states, actions) && i <= j < |actions| && actions[j].Reject?
    requires Known(states[i], actions[j].c)
    ensures !Now(states[i], actions[j].c).attempt
  {
    RejectsOnlyAbandoned(states, actions, j);
    if Now(states[i], actions[j].c).attempt {
      AttemptForever(states, actions, i, j, actions[j].c);
    }
  }

  /** However many sweeps race, one command is rejected at most once. */
  lemma RejectedOnce(states: seq<State>, actions: seq<Action>, i: nat, j: nat)
    requires Run(states, actions) && i < |actions| && j < |actions| && actions[i].Reject? && actions[j].Reject?
    requires actions[i].c == actions[j].c
    ensures i == j
  {
    var a, b := if i < j then i else j, if i < j then j else i;
    if a < b {
      RejectedNeverApplied(states, actions, a, b);
      RejectsOnlyAbandoned(states, actions, b);
    }
  }
}
