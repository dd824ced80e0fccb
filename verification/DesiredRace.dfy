/**
 Every interleaving of replicas that ensure and revive desired state with each
 other, with other desire writers (a release among them) and with writes that
 move the record's revision for reasons of their own.
 */
module DesiredRace {
  import opened Common
  import opened Framing
  import opened Desired

  type Process = nat

  /** `log` is every version the record has had, oldest first; the last one is current. */
  datatype State = State(log: seq<Record>, locals: map<Process, Local>)

  datatype World = World(req: Request, tasks: map<Process, Task>)

  function Current(s: State): Record
    requires s.log != []
  {
    s.log[|s.log| - 1]
  }

  datatype Action =
    | Read(p: Process)
    | Work(p: Process)                     // decide, and write when the decision says so
    | WorkLost(p: Process)                 // the same write, with its answer lost
    | Break(p: Process)                    // a store fault before anything was written
    | OtherDesire(key: Bytes, intent: Intent)
    | OtherWrite                           // moves the revision, not the desire

  function Keep(s: State, record: Record): State
    requires s.log != []
  {
    if record == Current(s) then s else s.(log := s.log + [record])
  }

  /** The process's next step is a call of the store. */
  predicate Calling(w: World, p: Process, local: Local) {
    local.Fresh? || local.Rereading? ||
      (local.Holding? && p in w.tasks && Decide(w.req, w.tasks[p], local.entry).Write?)
  }

  ghost predicate Next(w: World, s: State, a: Action, t: State) {
    && s.log != []
    && var now := Current(s);
    match a
    case Read(p) =>
      && p in s.locals && (s.locals[p].Fresh? || s.locals[p].Rereading?)
      && t == s.(locals := s.locals[p := Holding(if s.locals[p].Fresh? then 0 else 1, now)])
    case Work(p) =>
      && p in s.locals && s.locals[p].Holding? && p in w.tasks
      && var h := s.locals[p];
      (match Decide(w.req, w.tasks[p], h.entry)
       case Finish => t == s.(locals := s.locals[p := Done(h.entry, h.attempt)])
       case Refuse => t == s.(locals := s.locals[p := Failed])
       case Write(key, intent) =>
         var (reply, record) := Update(now, h.entry.revision, key, intent);
         t == Keep(s, record).(locals := s.locals[p := AfterWrite(h.attempt, reply)]))
    case WorkLost(p) =>
      && p in s.locals && s.locals[p].Holding? && p in w.tasks
      && Decide(w.req, w.tasks[p], s.locals[p].entry).Write?
      && var v := Decide(w.req, w.tasks[p], s.locals[p].entry);
      t == Keep(s, Update(now, s.locals[p].entry.revision, v.key, v.intent).1).(locals := s.locals[p := Failed])
    case Break(p) => p in s.locals && Calling(w, p, s.locals[p]) && t == s.(locals := s.locals[p := Failed])
    case OtherDesire(key, intent) =>
      && !Derived(key)
      && t == Keep(s, Record(now.revision + 1, now.generation + 1, key, intent, now.initial))
    case OtherWrite => t == Keep(s, now.(revision := now.revision + 1))
  }

  ghost predicate Init(w: World, s: State) {
    && |s.log| == 1 && KeyImpliesContent(w.req, s.log[0])
    && s.locals.Keys == w.tasks.Keys && forall p :: p in s.locals ==> s.locals[p] == Fresh
  }

  ghost predicate Run(w: World, states: seq<State>, actions: seq<Action>) {
    && |states| == |actions| + 1 && Init(w, states[0])
    && forall i :: 0 <= i < |actions| ==> Next(w, states[i], actions[i], states[i + 1])
  }

  // --------------------------------------------------------------- invariants

  /** A current key always implies its content. */
  ghost predicate KeyImpliesContent(req: Request, r: Record) {
    && (forall d :: r.key == DesiredKey(req, d) ==> r.intent == d)
    && (forall d, g: nat :: r.key == ReviveKey(req, d, g) ==> r.intent == d && r.generation == g + 1)
  }

  /** A later version: a higher revision, no lower generation, and the same desire under the same generation. */
  predicate Later(x: Record, y: Record) {
    && x.revision < y.revision && x.generation <= y.generation && x.initial == y.initial
    && (x.generation == y.generation ==> x.intent == y.intent && x.key == y.key)
  }

  lemma {:induction false} LaterStill(x: Record, y: Record, z: Record)
    requires (x == y || Later(x, y)) && Later(y, z)
    ensures Later(x, z)
  {}

  ghost predicate LogInv(w: World, log: seq<Record>) {
    && log != []
    && (forall i :: 0 <= i < |log| ==> KeyImpliesContent(w.req, log[i]))
    && (forall i, j :: 0 <= i < j < |log| ==> Later(log[i], log[j]))
  }

  ghost predicate LocalInv(w: World, log: seq<Record>, task: Task, local: Local) {
    match local
    case Holding(attempt, entry) => attempt < ATTEMPTS && entry in log
    case Done(result, writes) =>
      result in log && writes <= ATTEMPTS && Fulfils(task, result)
    case _ => true
  }

  ghost predicate Inv(w: World, s: State) {
    && LogInv(w, s.log) && s.locals.Keys == w.tasks.Keys
    && forall p :: p in s.locals ==> LocalInv(w, s.log, w.tasks[p], s.locals[p])
  }

  /** One version is one record: a compare-and-swap that passes acted on what it read. */
  lemma RevisionNames(w: World, s: State, entry: Record)
    requires LogInv(w, s.log) && entry in s.log && entry.revision == Current(s).revision
    ensures entry == Current(s)
  {
    var i :| 0 <= i < |s.log| && s.log[i] == entry;
  }

  lemma KeyOfEnsure(req: Request, d: Intent, r: Record)
    requires r.key == DesiredKey(req, d) && r.intent == d
    ensures KeyImpliesContent(req, r)
  {
    forall d' | r.key == DesiredKey(req, d') ensures r.intent == d' {
      DesiredKeyNames(req, d, req, d');
    }
    forall d', g: nat ensures r.key != ReviveKey(req, d', g) {
      KeysApart(req, d, d', g);
    }
  }

  lemma KeyOfRevive(req: Request, d: Intent, g: nat, r: Record)
    requires r.key == ReviveKey(req, d, g) && r.intent == d && r.generation == g + 1
    ensures KeyImpliesContent(req, r)
  {
    forall d' ensures r.key != DesiredKey(req, d') {
      KeysApart(req, d', d, g);
    }
    forall d', g': nat | r.key == ReviveKey(req, d', g') ensures r.intent == d' && r.generation == g' + 1 {
      ReviveKeyNames(req, d, g, req, d', g');
    }
  }

  /** A creation's own key, or any other writer's, satisfies it. */
  lemma KeyOfOther(req: Request, r: Record)
    requires !Derived(r.key)
    ensures KeyImpliesContent(req, r)
  {
    forall d ensures r.key != DesiredKey(req, d) {
      KeysApart(req, d, d, 0);
    }
    forall d, g: nat ensures r.key != ReviveKey(req, d, g) {
      KeysApart(req, d, d, g);
    }
  }

  /** A decided write leaves a record whose key implies its content. */
  lemma DecidedKey(w: World, s: State, task: Task, entry: Record)
    requires LogInv(w, s.log) && entry in s.log
    requires Decide(w.req, task, entry).Write?
    ensures var v := Decide(w.req, task, entry);
            KeyImpliesContent(w.req, Update(Current(s), entry.revision, v.key, v.intent).1)
  {
    var v := Decide(w.req, task, entry);
    var now := Current(s);
    if now.key != v.key && now.revision == entry.revision {
      RevisionNames(w, s, entry);
      var next := Update(now, entry.revision, v.key, v.intent).1;
      match task
      case Ensure(d) => KeyOfEnsure(w.req, d, next);
      case Revive => KeyOfRevive(w.req, v.intent, entry.generation, next);
    }
  }

  /** The log is kept by appending a newer version. */
  lemma {:induction false} KeepLog(w: World, s: State, record: Record)
    requires LogInv(w, s.log) && KeyImpliesContent(w.req, record)
    requires record == Current(s) || Later(Current(s), record)
    ensures LogInv(w, Keep(s, record).log) && record in Keep(s, record).log
    ensures forall r :: r in s.log ==> r in Keep(s, record).log
  {
    hide KeyImpliesContent, Later;
    var log := Keep(s, record).log;
    if record == Current(s) {
      assert record == s.log[|s.log| - 1];
    } else {
      forall i | 0 <= i < |s.log|
        ensures Later(s.log[i], record)
      {
        LaterStill(s.log[i], Current(s), record);
      }
      assert log[|s.log|] == record;
    }
  }

  /** What a settled write's answer carries. */
  lemma {:induction false} AnswerCarries(w: World, s: State, task: Task, entry: Record)
    requires LogInv(w, s.log) && entry in s.log
    requires Decide(w.req, task, entry).Write?
    ensures var v := Decide(w.req, task, entry);
            var reply := Update(Current(s), entry.revision, v.key, v.intent).0;
            reply.Updated? ==> Fulfils(task, reply.entry)
  {
    assert KeyImpliesContent(w.req, Current(s));
    var v := Decide(w.req, task, entry);
    var reply := Update(Current(s), entry.revision, v.key, v.intent).0;
    if reply.Updated? {
      assert reply.entry.intent == v.intent;
      hide LogInv, KeyImpliesContent;
      WriteFulfils(w.req, task, entry, reply.entry);
    }
  }

  lemma {:induction false} UpdateShape(now: Record, expected: nat, key: Bytes, intent: Intent)
    ensures var (reply, record) := Update(now, expected, key, intent);
      (reply.Updated? ==> reply.entry == record) && (record == now || Later(now, record))
  {}

  lemma LocalsKept(w: World, s: State, t: State, p: Process, local: Local)
    requires Inv(w, s) && p in s.locals && t.locals == s.locals[p := local]
    requires LogInv(w, t.log) && forall r :: r in s.log ==> r in t.log
    requires LocalInv(w, t.log, w.tasks[p], local)
    ensures Inv(w, t)
  {
    forall q | q in t.locals ensures LocalInv(w, t.log, w.tasks[q], t.locals[q]) {
      if q != p { assert LocalInv(w, s.log, w.tasks[q], s.locals[q]); }
    }
  }

  /** A decided write keeps the log, and leaves the writer's answer in it. */
  lemma {:induction false} WriteKeeps(w: World, s: State, task: Task, h: Local)
    requires LogInv(w, s.log) && h.Holding? && LocalInv(w, s.log, task, h)
    requires Decide(w.req, task, h.entry).Write?
    ensures var v := Decide(w.req, task, h.entry);
            var (reply, record) := Update(Current(s), h.entry.revision, v.key, v.intent);
            var log := Keep(s, record).log;
            && LogInv(w, log) && (forall r :: r in s.log ==> r in log)
            && LocalInv(w, log, task, AfterWrite(h.attempt, reply))
  {
    var v := Decide(w.req, task, h.entry);
    var (reply, record) := Update(Current(s), h.entry.revision, v.key, v.intent);
    DecidedKey(w, s, task, h.entry);
    AnswerCarries(w, s, task, h.entry);
    UpdateShape(Current(s), h.entry.revision, v.key, v.intent);
    hide LogInv, KeyImpliesContent, Decide, Update, Fulfils, Later;
    KeepLog(w, s, record);
  }

  lemma {:induction false} InvWrite(w: World, s: State, p: Process, t: State, lost: bool)
    requires Inv(w, s) && Next(w, s, if lost then WorkLost(p) else Work(p), t)
    requires Decide(w.req, w.tasks[p], s.locals[p].entry).Write?
    ensures Inv(w, t)
  {
    hide Update, Decide, AfterWrite, LogInv, Fulfils;
    assert LocalInv(w, s.log, w.tasks[p], s.locals[p]);
    WriteKeeps(w, s, w.tasks[p], s.locals[p]);
    if lost { LostKeeps(w, Keep(s, t.log[|t.log| - 1]).log, w.tasks[p]); }
    hide LocalInv, Inv;
    LocalsKept(w, s, t, p, t.locals[p]);
  }

  lemma {:induction false} LostKeeps(w: World, log: seq<Record>, task: Task)
    ensures LocalInv(w, log, task, Failed)
  {}

  lemma InvOther(w: World, s: State, a: Action, t: State)
    requires Inv(w, s) && Next(w, s, a, t) && (a.OtherDesire? || a.OtherWrite?)
    ensures Inv(w, t)
  {
    var now := Current(s);
    var record := if a.OtherDesire? then Record(now.revision + 1, now.generation + 1, a.key, a.intent, now.initial)
                  else now.(revision := now.revision + 1);
    assert KeyImpliesContent(w.req, record) by {
      if a.OtherDesire? { KeyOfOther(w.req, record); } else { assert KeyImpliesContent(w.req, now); }
    }
    KeepLog(w, s, record);
    OthersKept(w, s, t);
  }

  lemma InvQuiet(w: World, s: State, a: Action, t: State)
    requires Inv(w, s) && Next(w, s, a, t) && !a.OtherDesire? && !a.OtherWrite?
    requires a.Work? || a.WorkLost? ==> !Decide(w.req, w.tasks[a.p], s.locals[a.p].entry).Write?
    ensures Inv(w, t)
  {
    assert LocalInv(w, s.log, w.tasks[a.p], s.locals[a.p]);
    LocalsKept(w, s, t, a.p, t.locals[a.p]);
  }

  lemma InvStep(w: World, s: State, a: Action, t: State)
    requires Inv(w, s) && Next(w, s, a, t)
    ensures Inv(w, t)
  {
    if a.OtherDesire? || a.OtherWrite? {
      InvOther(w, s, a, t);
    } else if (a.Work? || a.WorkLost?) && Decide(w.req, w.tasks[a.p], s.locals[a.p].entry).Write? {
      InvWrite(w, s, a.p, t, a.WorkLost?);
    } else {
      InvQuiet(w, s, a, t);
    }
  }

  lemma OthersKept(w: World, s: State, t: State)
    requires Inv(w, s) && t.locals == s.locals && LogInv(w, t.log) && forall r :: r in s.log ==> r in t.log
    ensures Inv(w, t)
  {
    forall q | q in t.locals ensures LocalInv(w, t.log, w.tasks[q], t.locals[q]) {
      assert LocalInv(w, s.log, w.tasks[q], s.locals[q]);
    }
  }

  lemma {:induction false} InvAlong(w: World, states: seq<State>, actions: seq<Action>, i: nat)
    requires Run(w, states, actions) && i < |states|
    ensures Inv(w, states[i])
  {
    if i > 0 {
      InvAlong(w, states, actions, i - 1);
      InvStep(w, states[i - 1], actions[i - 1], states[i]);
    }
  }

  // ------------------------------------------------------------- main results

  /**
   However the writers interleave, every ensure that succeeds returns a version
   of the record carrying its intent, and every revive that succeeds returns one
   that is not released.
   */
  lemma SuccessCarriesIntent(w: World, states: seq<State>, actions: seq<Action>, i: nat, p: Process)
    requires Run(w, states, actions) && i < |states|
    requires p in states[i].locals && states[i].locals[p].Done?
    ensures p in w.tasks && states[i].locals[p].result in states[i].log && states[i].locals[p].writes <= 2
    ensures w.tasks[p].Ensure? ==> states[i].locals[p].result.intent == w.tasks[p].intent
    ensures w.tasks[p].Revive? ==> !Released(states[i].locals[p].result)
  {
    InvAlong(w, states, actions, i);
    assert LocalInv(w, states[i].log, w.tasks[p], states[i].locals[p]);
  }

  /** Every process wants one intent, and nobody else writes desire. */
  ghost predicate OneIntent(w: World, actions: seq<Action>, d: Intent) {
    && (forall p :: p in w.tasks ==> w.tasks[p] == Ensure(d))
    && (forall i :: 0 <= i < |actions| ==> !actions[i].OtherDesire?)
  }

  /** Either nothing was applied, or the one intent was applied once. */
  ghost predicate Once(w: World, first: Record, d: Intent, log: seq<Record>) {
    forall i :: 0 <= i < |log| ==>
      || (log[i].generation == first.generation && log[i].intent == first.intent)
      || (first.intent != d && log[i].generation == first.generation + 1 && log[i].intent == d &&
         log[i].key == DesiredKey(w.req, d))
  }

  lemma OnceStep(w: World, first: Record, d: Intent, s: State, a: Action, t: State)
    requires Inv(w, s) && Next(w, s, a, t) && Once(w, first, d, s.log)
    requires OneIntent(w, [a], d)
    ensures Once(w, first, d, t.log)
  {
    assert a == [a][0];
    if (a.Work? || a.WorkLost?) && Decide(w.req, w.tasks[a.p], s.locals[a.p].entry).Write? {
      var entry := s.locals[a.p].entry;
      assert LocalInv(w, s.log, w.tasks[a.p], s.locals[a.p]);
      if entry.revision == Current(s).revision { RevisionNames(w, s, entry); }
    }
  }

  lemma {:induction false} OnceAlong(w: World, d: Intent, states: seq<State>, actions: seq<Action>, i: nat)
    requires Run(w, states, actions) && OneIntent(w, actions, d) && i < |states|
    ensures Once(w, states[0].log[0], d, states[i].log)
  {
    if i > 0 {
      OnceAlong(w, d, states, actions, i - 1);
      InvAlong(w, states, actions, i - 1);
      assert OneIntent(w, [actions[i - 1]], d);
      OnceStep(w, states[0].log[0], d, states[i - 1], actions[i - 1], states[i]);
    }
  }

  /** Any number of replicas ensuring one intent raise the generation by at most one. */
  lemma AppliedOnce(w: World, d: Intent, states: seq<State>, actions: seq<Action>, i: nat)
    requires Run(w, states, actions) && OneIntent(w, actions, d) && i < |states|
    ensures states[i].log != []
    ensures states[0].log[0].generation <= Current(states[i]).generation <= states[0].log[0].generation + 1
    ensures Current(states[i]).generation == states[0].log[0].generation ==>
              Current(states[i]).intent == states[0].log[0].intent
    ensures Current(states[i]).generation > states[0].log[0].generation ==> Current(states[i]).intent == d
    ensures states[0].log[0].intent == d ==> Current(states[i]).generation == states[0].log[0].generation
  {
    InvAlong(w, states, actions, i);
    OnceAlong(w, d, states, actions, i);
    assert |states[i].log| > 0;
  }

  /** Re-expressing `before`'s release gives `after`. */
  ghost predicate Revival(req: Request, before: Record, after: Record) {
    && Released(before) && LaunchTemplate(before).Some?
    && after.intent == before.intent.(workload := LaunchTemplate(before).value)
    && after.generation == before.generation + 1 && !Released(after)
    && after.key == ReviveKey(req, after.intent, before.generation)
  }

  lemma ReviveStep(w: World, s: State, a: Action, t: State)
    requires Inv(w, s) && Next(w, s, a, t) && t.log != []
    requires (a.Work? || a.WorkLost?) && w.tasks[a.p].Revive?
    ensures t.log != s.log ==> Revival(w.req, Current(s), Current(t)) && s.locals[a.p].entry == Current(s)
  {
    assert LocalInv(w, s.log, w.tasks[a.p], s.locals[a.p]);
    var entry := s.locals[a.p].entry;
    if Decide(w.req, w.tasks[a.p], entry).Write? && entry.revision == Current(s).revision {
      RevisionNames(w, s, entry);
    }
  }

  ghost predicate RevivesAt(w: World, states: seq<State>, actions: seq<Action>, i: nat)
    requires |states| == |actions| + 1 && i < |actions|
  {
    && (actions[i].Work? || actions[i].WorkLost?) && actions[i].p in w.tasks && w.tasks[actions[i].p].Revive?
    && states[i + 1].log != states[i].log
  }

  /**
   A revive that changes the record changes a release it had itself read, into
   the template the session was created with, one generation up. So a non-empty
   workload is never overwritten.
   */
  lemma {:induction false} RevivesOnlyReleases(w: World, states: seq<State>, actions: seq<Action>, i: nat)
    requires Run(w, states, actions) && i < |actions| && RevivesAt(w, states, actions, i)
    ensures states[i].log != [] && states[i + 1].log != []
    ensures Revival(w.req, Current(states[i]), Current(states[i + 1]))
    ensures states[i].locals[actions[i].p].entry == Current(states[i])
  {
    InvAlong(w, states, actions, i);
    InvAlong(w, states, actions, i + 1);
    var s, a, t := states[i], actions[i], states[i + 1];
    assert Next(w, s, a, t);
    hide Run;
    ReviveStep(w, s, a, t);
  }

  lemma {:induction false} LogGrows(w: World, s: State, a: Action, t: State)
    requires Next(w, s, a, t)
    ensures s.log != [] && s.log <= t.log
  {
    hide Decide, Update, AfterWrite;
  }

  lemma {:induction false} LogsGrow(w: World, states: seq<State>, actions: seq<Action>, i: nat, j: nat)
    requires Run(w, states, actions) && i <= j < |states|
    ensures states[i].log <= states[j].log
    decreases j - i
  {
    hide Next;
    if i < j {
      LogsGrow(w, states, actions, i, j - 1);
      LogGrows(w, states[j - 1], actions[j - 1], states[j]);
    }
  }

  lemma {:induction false} LaterGenerations(w: World, earlier: State, later: State)
    requires LogInv(w, earlier.log) && LogInv(w, later.log) && earlier.log <= later.log
    ensures Current(earlier).generation <= Current(later).generation
  {
    assert later.log[|earlier.log| - 1] == Current(earlier);
  }

  lemma {:induction false} GenerationsGrow(w: World, states: seq<State>, actions: seq<Action>, i: nat, j: nat)
    requires Run(w, states, actions) && i <= j < |states|
    ensures states[i].log != [] && states[j].log != []
    ensures states[i].log <= states[j].log && Current(states[i]).generation <= Current(states[j]).generation
  {
    InvAlong(w, states, actions, i);
    InvAlong(w, states, actions, j);
    LogsGrow(w, states, actions, i, j);
    hide Run, LocalInv;
    LaterGenerations(w, states[i], states[j]);
  }

  /** No released generation is revived twice. */
  lemma RevivedOnce(w: World, states: seq<State>, actions: seq<Action>, i: nat, j: nat)
    requires Run(w, states, actions) && i < j < |actions|
    requires RevivesAt(w, states, actions, i) && RevivesAt(w, states, actions, j)
    ensures states[i].log != [] && states[j].log != []
    ensures Current(states[i]).generation < Current(states[j]).generation
  {
    RevivesOnlyReleases(w, states, actions, i);
    GenerationsGrow(w, states, actions, i + 1, j);
  }

  /**
   A reviver that holds the release another one re-expressed at step j, with no
   desire written since, is absorbed: it writes nothing and succeeds with the
   current record.
   */
  lemma {:induction false} RacingReviverAbsorbed(w: World, states: seq<State>, actions: seq<Action>, j: nat, i: nat,
                                                 p: Process)
    requires Run(w, states, actions) && j < i < |actions| && RevivesAt(w, states, actions, j)
    requires actions[i] == Work(p) && p in w.tasks && w.tasks[p].Revive?
    requires p in states[i].locals && states[i].locals[p].Holding?
    requires states[j].log != [] && states[j + 1].log != [] && states[i].log != []
    requires Current(states[i]).generation == Current(states[j + 1]).generation
    requires states[i].locals[p].entry.generation == Current(states[j]).generation
    ensures states[i + 1].log == states[i].log
    ensures states[i + 1].locals[p].Done? && states[i + 1].locals[p].result == Current(states[i])
  {
    var s := states[i];
    var before, after := Current(states[j]), Current(states[j + 1]);
    RevivesOnlyReleases(w, states, actions, j);
    InvAlong(w, states, actions, i);
    assert LocalInv(w, s.log, w.tasks[p], s.locals[p]);
    assert Next(w, s, actions[i], states[i + 1]);
    hide Revival, Next, LogInv, RevivesAt;
    GenerationsGrow(w, states, actions, j, i);
    GenerationsGrow(w, states, actions, j + 1, i);
    hide Run;
    SameDesire(w, states[j], s, s.locals[p].entry);
    SameDesire(w, states[j + 1], s, Current(s));
    Absorbed(w, s, p, states[i + 1], before, after);
  }

  /** What carries an earlier state's generation, in a later one's log, carries its desire. */
  lemma {:induction false} SameDesire(w: World, earlier: State, later: State, r: Record)
    requires LogInv(w, later.log) && earlier.log != [] && earlier.log <= later.log
    requires r in later.log && r.generation == Current(earlier).generation
    ensures r.intent == Current(earlier).intent && r.key == Current(earlier).key &&
      r.initial == Current(earlier).initial
  {
    var e :| 0 <= e < |later.log| && later.log[e] == r;
    var b := |earlier.log| - 1;
    assert later.log[b] == Current(earlier);
    SameGeneration(w, later.log, b, e);
  }

  lemma {:induction false} Absorbed(w: World, s: State, p: Process, t: State, before: Record, after: Record)
    requires Next(w, s, Work(p), t) && w.tasks[p].Revive? && Revival(w.req, before, after)
    requires var entry := s.locals[p].entry;
      entry.generation == before.generation && entry.intent == before.intent && entry.initial == before.initial
    requires Current(s).key == after.key
    ensures t.log == s.log && t.locals[p].Done? && t.locals[p].result == Current(s)
  {
    hide ReviveKey, DesiredKey;
  }

  /** One generation is one intent under one key, in every version that carries it. */
  lemma {:induction false} SameGeneration(w: World, log: seq<Record>, a: nat, b: nat)
    requires LogInv(w, log) && a < |log| && b < |log| && log[a].generation == log[b].generation
    ensures log[a].intent == log[b].intent && log[a].key == log[b].key && log[a].initial == log[b].initial
  {
    assert a < b ==> Later(log[a], log[b]);
    assert b < a ==> Later(log[b], log[a]);
  }

  // ------------------------------------------------------ the methods in the race

  datatype Exchange = Exchange(call: Call, answer: Answer)

  /** What a process has heard so far: the record its call began with, and each call of the store with its answer. */
  datatype Heard = Heard(first: Option<Record>, answers: map<nat, Exchange>)

  function HearStep(w: World, s: State, a: Action, p: Process, heard: Heard): Heard
    requires s.log != []
  {
    if p !in s.locals || p !in w.tasks || a.OtherDesire? || a.OtherWrite? || a.p != p then heard
    else match s.locals[p]
      case Fresh => if a.Read? then heard.(first := Some(Current(s))) else heard
      case Rereading => Hears(heard, 1, ReadCall, if a.Read? then Updated(Current(s)) else Fault)
      case Holding(attempt, entry) =>
        (match Decide(w.req, w.tasks[p], entry)
         case Write(key, intent) =>
           var reply := if a.Work? then Update(Current(s), entry.revision, key, intent).0 else Fault;
           Hears(heard, 2 * attempt, UpdateCall(entry.revision, key, intent), reply)
         case _ => heard)
      case _ => heard
  }

  ghost function HeardBy(w: World, states: seq<State>, actions: seq<Action>, p: Process, i: nat): Heard
    requires Run(w, states, actions) && i <= |actions|
  {
    if i == 0 then Heard(None, map[])
    else
      assert Next(w, states[i - 1], actions[i - 1], states[i]);
      HearStep(w, states[i - 1], actions[i - 1], p, HeardBy(w, states, actions, p, i - 1))
  }

  /** A store that gives the calls this process made the answers it heard, and no other call any answer. */
  function Replay(heard: Heard): Store {
    (n, call) => if n in heard.answers && heard.answers[n].call == call then heard.answers[n].answer else Fault
  }

  ghost predicate Agrees(store: Store, heard: Heard) {
    forall n :: n in heard.answers ==> store(n, heard.answers[n].call) == heard.answers[n].answer
  }

  /** What is left of the loop where a process stands. */
  function Rest(w: World, task: Task, local: Local, store: Store): Local {
    match local
    case Holding(attempt, entry) => if attempt < ATTEMPTS then Loop(w.req, task, attempt, entry, store) else Failed
    case Rereading =>
      (match store(1, ReadCall) case Updated(again) => Loop(w.req, task, 1, again, store) case _ => Failed)
    case other => other
  }

  /** How many calls a process has had answered. */
  function Calls(local: Local): nat {
    match local case Holding(attempt, _) => 2 * attempt case Rereading => 1 case _ => 0
  }

  /** The loop, begun with the record first read, has come to where the process stands. */
  ghost predicate Follows(w: World, task: Task, local: Local, heard: Heard, store: Store) {
    && (local.Fresh? ==> heard == Heard(None, map[]))
    && (local.Holding? || local.Rereading? ==> forall n :: n in heard.answers ==> n < Calls(local))
    && (!local.Fresh? && !local.Failed? ==> heard.first.Some?)
    && (heard.first.Some? && Agrees(store, heard) ==>
          Loop(w.req, task, 0, heard.first.value, store) == Rest(w, task, local, store))
  }

  /** An answer never heard before is consistent with those heard. */
  lemma {:induction false} AgreesBefore(store: Store, heard: Heard, n: nat, call: Call, reply: Answer)
    requires n !in heard.answers && Agrees(store, Hears(heard, n, call, reply))
    ensures Agrees(store, heard) && store(n, call) == reply
  {
    var more := Hears(heard, n, call, reply);
    assert n in more.answers;
    forall k | k in heard.answers
      ensures store(k, heard.answers[k].call) == heard.answers[k].answer
    {
      assert k in more.answers;
    }
  }

  function Hears(heard: Heard, n: nat, call: Call, reply: Answer): Heard {
    heard.(answers := heard.answers[n := Exchange(call, reply)])
  }

  lemma {:induction false} WriteFollows(w: World, task: Task, attempt: nat, entry: Record, heard: Heard, store: Store,
                                        reply: Answer)
    requires attempt < ATTEMPTS && Decide(w.req, task, entry).Write?
    requires Follows(w, task, Holding(attempt, entry), heard, store)
    ensures var v := Decide(w.req, task, entry);
      var call := UpdateCall(entry.revision, v.key, v.intent);
      Follows(w, task, AfterWrite(attempt, reply), Hears(heard, 2 * attempt, call, reply), store)
  {
    hide Decide, Agrees;
    var v := Decide(w.req, task, entry);
    var call := UpdateCall(entry.revision, v.key, v.intent);
    if Agrees(store, Hears(heard, 2 * attempt, call, reply)) { AgreesBefore(store, heard, 2 * attempt, call, reply); }
  }

  lemma {:induction false} RereadFollows(w: World, task: Task, heard: Heard, store: Store, reply: Answer)
    requires Follows(w, task, Rereading, heard, store)
    ensures Follows(w, task, if reply.Updated? then Holding(1, reply.entry) else Failed,
                    Hears(heard, 1, ReadCall, reply), store)
  {
    hide Decide, Agrees, Loop;
    if Agrees(store, Hears(heard, 1, ReadCall, reply)) { AgreesBefore(store, heard, 1, ReadCall, reply); }
  }

  lemma {:induction false} FinishFollows(w: World, task: Task, attempt: nat, entry: Record, heard: Heard, store: Store)
    requires attempt < ATTEMPTS && Follows(w, task, Holding(attempt, entry), heard, store)
    ensures Decide(w.req, task, entry).Finish? ==> Follows(w, task, Done(entry, attempt), heard, store)
    ensures Decide(w.req, task, entry).Refuse? ==> Follows(w, task, Failed, heard, store)
  {
    hide Decide, Agrees;
  }

  lemma {:induction false} FreshFollows(w: World, task: Task, heard: Heard, store: Store, now: Record)
    requires Follows(w, task, Fresh, heard, store)
    ensures Follows(w, task, Holding(0, now), heard.(first := Some(now)), store) &&
      Follows(w, task, Failed, heard, store)
  {
    hide Loop, Agrees;
  }

  lemma {:induction false} OwnStepFollows(w: World, s: State, a: Action, t: State, p: Process, heard: Heard,
                                          store: Store)
    requires Next(w, s, a, t) && p in s.locals && p in w.tasks
    requires !a.OtherDesire? && !a.OtherWrite? && a.p == p
    requires s.locals[p].Holding? ==> s.locals[p].attempt < ATTEMPTS
    requires Follows(w, w.tasks[p], s.locals[p], heard, store)
    ensures Follows(w, w.tasks[p], t.locals[p], HearStep(w, s, a, p, heard), store)
  {
    hide Follows, Decide, Update;
    var task, now := w.tasks[p], Current(s);
    match s.locals[p] {
      case Fresh => FreshFollows(w, task, heard, store, now);
      case Rereading => RereadFollows(w, task, heard, store, if a.Read? then Updated(now) else Fault);
      case Holding(attempt, entry) =>
        var v := Decide(w.req, task, entry);
        if v.Write? {
          var reply := if a.Work? then Update(now, entry.revision, v.key, v.intent).0 else Fault;
          WriteFollows(w, task, attempt, entry, heard, store, reply);
        } else {
          FinishFollows(w, task, attempt, entry, heard, store);
        }
      case _ =>
    }
  }

  lemma {:induction false} StepFollows(w: World, s: State, a: Action, t: State, p: Process, heard: Heard, store: Store)
    requires Inv(w, s) && Next(w, s, a, t) && p in s.locals && p in w.tasks
    requires Follows(w, w.tasks[p], s.locals[p], heard, store)
    ensures p in t.locals && Follows(w, w.tasks[p], t.locals[p], HearStep(w, s, a, p, heard), store)
  {
    if !a.OtherDesire? && !a.OtherWrite? && a.p == p {
      assert LocalInv(w, s.log, w.tasks[p], s.locals[p]);
      hide Follows, LogInv;
      OwnStepFollows(w, s, a, t, p, heard, store);
    } else {
      hide Follows, Update, Decide, AfterWrite;
      assert t.locals[p] == s.locals[p];
    }
  }

  lemma {:induction false} NothingHeard(w: World, task: Task, store: Store)
    ensures Follows(w, task, Fresh, Heard(None, map[]), store)
  {
    hide Loop, Agrees;
  }

  lemma {:induction false} FollowsAlong(w: World, states: seq<State>, actions: seq<Action>, p: Process, i: nat,
                                        store: Store)
    requires Run(w, states, actions) && i <= |actions| && p in w.tasks
    ensures p in states[i].locals &&
      Follows(w, w.tasks[p], states[i].locals[p], HeardBy(w, states, actions, p, i), store)
  {
    hide Follows, Inv, Next, HearStep;
    if i == 0 {
      NothingHeard(w, w.tasks[p], store);
    } else {
      FollowsAlong(w, states, actions, p, i - 1, store);
      InvAlong(w, states, actions, i - 1);
      assert Next(w, states[i - 1], actions[i - 1], states[i]);
      StepFollows(w, states[i - 1], actions[i - 1], states[i], p, HeardBy(w, states, actions, p, i - 1), store);
    }
  }

  /**
   A finished process of any run ended as the method it stands for does, begun with
   the record the process first read and given the answers the store gave it. Those
   answer only the very calls the process made in the run: a method that expected
   another revision or sent another key would hear nothing. So what is proved of every
   run is proved of EnsureDesired and ReviveReleased.
   */
  lemma {:induction false} EndsAsMethod(w: World, states: seq<State>, actions: seq<Action>, p: Process, i: nat)
    requires Run(w, states, actions) && i <= |actions| && p in w.tasks
    requires p in states[i].locals && (states[i].locals[p].Done? || states[i].locals[p].Failed?)
    requires HeardBy(w, states, actions, p, i).first.Some?
    ensures var heard := HeardBy(w, states, actions, p, i);
      states[i].locals[p] == Loop(w.req, w.tasks[p], 0, heard.first.value, Replay(heard))
  {
    var heard := HeardBy(w, states, actions, p, i);
    FollowsAlong(w, states, actions, p, i, Replay(heard));
    hide HeardBy, Loop, Run;
    assert Agrees(Replay(heard), heard);
  }

  /** So a method that succeeds, in any run, returns a version of the record that does what it was asked for. */
  lemma {:induction false} MethodFulfils(w: World, states: seq<State>, actions: seq<Action>, p: Process, i: nat)
    requires Run(w, states, actions) && i <= |actions| && p in w.tasks
    requires p in states[i].locals && (states[i].locals[p].Done? || states[i].locals[p].Failed?)
    requires HeardBy(w, states, actions, p, i).first.Some?
    ensures var heard := HeardBy(w, states, actions, p, i);
      var r := Loop(w.req, w.tasks[p], 0, heard.first.value, Replay(heard));
      r.Done? ==> r.result in states[i].log && Fulfils(w.tasks[p], r.result)
  {
    EndsAsMethod(w, states, actions, p, i);
    hide Loop, HeardBy;
    if states[i].locals[p].Done? { SuccessCarriesIntent(w, states, actions, i, p); }
  }

  /** A process that has begun and not ended can always take its next step, and it is a read or the work of one turn. */
  lemma {:induction false} NeverStuck(w: World, s: State, p: Process)
    requires Inv(w, s) && p in s.locals && !s.locals[p].Done? && !s.locals[p].Failed?
    ensures s.locals[p].Holding? ==> exists t :: Next(w, s, Work(p), t)
    ensures !s.locals[p].Holding? ==> exists t :: Next(w, s, Read(p), t)
  {
    var now := Current(s);
    var local := s.locals[p];
    if local.Holding? {
      var t := match Decide(w.req, w.tasks[p], local.entry)
        case Finish => s.(locals := s.locals[p := Done(local.entry, local.attempt)])
        case Refuse => s.(locals := s.locals[p := Failed])
        case Write(key, intent) =>
          var (reply, record) := Update(now, local.entry.revision, key, intent);
          Keep(s, record).(locals := s.locals[p := AfterWrite(local.attempt, reply)]);
      assert Next(w, s, Work(p), t);
    } else {
      assert Next(w, s, Read(p), s.(locals := s.locals[p := Holding(if local.Fresh? then 0 else 1, now)]));
    }
  }
}
