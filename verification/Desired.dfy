/**
 Desired state, written by any number of replicas that hold no lock: a
 compare-and-swap on the record's revision, guarded by an idempotency key that
 is derived from the intent and that the store checks before the revision.
 */
module Desired {
  import opened Common
  import opened Framing
  import Policy

  // "dedicated"; any other placement is compared only with itself.
  const DEDICATED: Bytes := [100, 101, 100, 105, 99, 97, 116, 101, 100]

  datatype Workload = Workload(version: Bytes, payload: Bytes)
  datatype Intent = Intent(placement: Bytes, runtime: Bytes, workload: Workload)
  datatype Request = Request(tenant: Bytes, session: Bytes)

  /** The catalog record. `initial` is the public create's workload, which no write changes. */
  datatype Record = Record(revision: nat, generation: nat, key: Bytes, intent: Intent, initial: Option<Workload>)

  // -------------------------------------------------------------------- keys

  // "placement-" and "revive-".
  const PLACEMENT_KEY: Bytes := [112, 108, 97, 99, 101, 109, 101, 110, 116, 45]
  const REVIVE_KEY: Bytes := [114, 101, 118, 105, 118, 101, 45]

  function IntentFields(req: Request, d: Intent): seq<Bytes> {
    [req.tenant, req.session, d.placement, d.runtime, d.workload.version, d.workload.payload]
  }

  /** The key naming one intent for one session, over the digest's preimage. */
  function DesiredKey(req: Request, d: Intent): Bytes { PLACEMENT_KEY + Frame(IntentFields(req, d)) }

  /** The key naming the re-expression of one release. */
  function ReviveKey(req: Request, d: Intent, generation: nat): Bytes {
    REVIVE_KEY + Frame(IntentFields(req, d) + [Decimal(generation)])
  }

  lemma DesiredKeyNames(req: Request, d: Intent, req': Request, d': Intent)
    ensures DesiredKey(req, d) == DesiredKey(req', d') <==> req == req' && d == d'
  {
    if DesiredKey(req, d) == DesiredKey(req', d') {
      var f, g := IntentFields(req, d), IntentFields(req', d');
      assert Frame(f) == DesiredKey(req, d)[|PLACEMENT_KEY|..] == DesiredKey(req', d')[|PLACEMENT_KEY|..] == Frame(g);
      FrameInjective(f, g);
      FieldsName(req, d, req', d');
    }
  }

  lemma FieldsName(req: Request, d: Intent, req': Request, d': Intent)
    requires IntentFields(req, d) == IntentFields(req', d')
    ensures req == req' && d == d'
  {
    var f, g := IntentFields(req, d), IntentFields(req', d');
    assert f[0] == g[0] && f[1] == g[1] && f[2] == g[2] && f[3] == g[3] && f[4] == g[4] && f[5] == g[5];
  }

  lemma ReviveKeyNames(req: Request, d: Intent, generation: nat, req': Request, d': Intent, generation': nat)
    ensures ReviveKey(req, d, generation) == ReviveKey(req', d', generation')
       <==> req == req' && d == d' && generation == generation'
  {
    if ReviveKey(req, d, generation) == ReviveKey(req', d', generation') {
      var f, g := IntentFields(req, d) + [Decimal(generation)], IntentFields(req', d') + [Decimal(generation')];
      assert Frame(f) == ReviveKey(req, d, generation)[|REVIVE_KEY|..]
          == ReviveKey(req', d', generation')[|REVIVE_KEY|..] == Frame(g);
      FrameInjective(f, g);
      assert f[6] == Decimal(generation) && g[6] == Decimal(generation');
      DecimalDenotes(generation);
      DecimalDenotes(generation');
      assert IntentFields(req, d) == f[..6] == g[..6] == IntentFields(req', d');
      FieldsName(req, d, req', d');
    }
  }

  /** A key one of the two derivations could have made. Every other writer's key is its own. */
  predicate Derived(key: Bytes) { PLACEMENT_KEY <= key || REVIVE_KEY <= key }

  lemma KeysApart(req: Request, d: Intent, d': Intent, generation: nat)
    ensures Derived(DesiredKey(req, d)) && Derived(ReviveKey(req, d', generation))
    ensures DesiredKey(req, d) != ReviveKey(req, d', generation)
  {
    assert DesiredKey(req, d)[0] == 112 && ReviveKey(req, d', generation)[0] == 114;
  }

  // --------------------------------------------------------------- decisions

  predicate Released(r: Record) {
    Policy.IsRelease(r.intent.placement == DEDICATED, r.generation, r.intent.workload == Workload([], []))
  }

  function LaunchTemplate(r: Record): Option<Workload> {
    if r.initial.Some? && r.initial.value.version != [] && r.initial.value.payload != [] then r.initial else None
  }

  datatype Task = Ensure(intent: Intent) | Revive

  datatype Verdict = Finish | Refuse | Write(key: Bytes, intent: Intent)

  /** What one loop iteration does with the record it holds. */
  function Decide(req: Request, task: Task, entry: Record): Verdict {
    match task
    case Ensure(d) => if entry.intent == d then Finish else Write(DesiredKey(req, d), d)
    case Revive =>
      if !Released(entry) then Finish
      else match LaunchTemplate(entry)
        case None => Refuse
        case Some(template) =>
          var d := Intent(entry.intent.placement, entry.intent.runtime, template);
          Write(ReviveKey(req, d, entry.generation), d)
  }

  datatype Answer = Updated(entry: Record) | Conflict | Fault

  /** Where a call's local state stands between two store calls. */
  datatype Local =
    | Fresh
    | Holding(attempt: nat, entry: Record)
    | Rereading
    | Done(result: Record, writes: nat)
    | Failed

  const ATTEMPTS: nat := 2

  function AfterWrite(attempt: nat, reply: Answer): Local {
    match reply
    case Updated(entry) => Done(entry, attempt + 1)
    case Conflict => if attempt + 1 == ATTEMPTS then Failed else Rereading
    case Fault => Failed
  }

  // ------------------------------------------------------------ the two loops

  datatype Call = UpdateCall(expected: nat, key: Bytes, intent: Intent) | ReadCall

  /** A store, answering call number n. */
  type Store = (nat, Call) -> Answer

  /** What a write comes to at the store: the key first, then the revision. */
  function Update(record: Record, expected: nat, key: Bytes, intent: Intent): (Answer, Record) {
    if record.key == key then (Updated(record), record)
    else if record.revision == expected then
      var next := Record(record.revision + 1, record.generation + 1, key, intent, record.initial);
      (Updated(next), next)
    else (Conflict, record)
  }

  /** The loop's meaning over a store that answers call number n as it likes. */
  function Loop(req: Request, task: Task, attempt: nat, entry: Record, store: Store): Local
    requires attempt < ATTEMPTS
    decreases ATTEMPTS - attempt
  {
    match Decide(req, task, entry)
    case Finish => Done(entry, attempt)
    case Refuse => Failed
    case Write(key, intent) =>
      match AfterWrite(attempt, store(2 * attempt, UpdateCall(entry.revision, key, intent)))
      case Rereading =>
        (match store(2 * attempt + 1, ReadCall)
         case Updated(again) => Loop(req, task, attempt + 1, again, store)
         case _ => Failed)
      case other => other
  }

  /**
   The store answers a write only with a record that carries what was written: the key it
   compares names the content.
   */
  ghost predicate Carries(store: Store) {
    forall n: nat, call: Call :: call.UpdateCall? && store(n, call).Updated? ==>
      store(n, call).entry.intent == call.intent
  }

  /** What a task is for. */
  predicate Fulfils(task: Task, r: Record) { match task case Ensure(d) => r.intent == d case Revive => !Released(r) }

  lemma {:induction false} WriteFulfils(req: Request, task: Task, entry: Record, result: Record)
    requires Decide(req, task, entry).Write? && result.intent == Decide(req, task, entry).intent
    ensures Fulfils(task, result)
  {}

  /** A loop that ends well has done its task, in two writes at most, and in none if nothing was to be done. */
  lemma {:induction false} LoopFulfils(req: Request, task: Task, attempt: nat, entry: Record, store: Store)
    requires attempt < ATTEMPTS
    ensures var r := Loop(req, task, attempt, entry, store);
      && (r.Done? || r.Failed?)
      && (Fulfils(task, entry) ==> r == Done(entry, attempt))
      && (r.Done? ==>
         attempt <= r.writes <= ATTEMPTS && (r.writes == attempt ==> r.result == entry && Fulfils(task, entry)))
      && (r.Done? && Carries(store) ==> Fulfils(task, r.result))
    decreases ATTEMPTS - attempt
  {
    hide DesiredKey, ReviveKey;
    match Decide(req, task, entry) {
      case Write(key, intent) =>
        var reply := store(2 * attempt, UpdateCall(entry.revision, key, intent));
        if reply.Updated? {
          if Carries(store) { WriteFulfils(req, task, entry, reply.entry); }
        } else if reply.Conflict? && attempt + 1 < ATTEMPTS && store(2 * attempt + 1, ReadCall).Updated? {
          LoopFulfils(req, task, attempt + 1, store(2 * attempt + 1, ReadCall).entry, store);
        }
      case _ =>
    }
  }

  // ------------------------------------------------------- with nobody racing

  /** From call number `from` on nobody else writes: the store holds this record until the call itself changes it. */
  ghost predicate Quiet(store: Store, from: nat, now: Record) {
    forall n: nat, call: Call :: n >= from ==>
      store(n, call) == if call.ReadCall? then Updated(now) else Update(now, call.expected, call.key, call.intent).0
  }

  /** The record that follows another by one write of desired state. */
  ghost predicate Succeeds(before: Record, key: Bytes, intent: Intent, after: Record) {
    && after.revision == before.revision + 1 && after.generation == before.generation + 1
    && after.key == key && after.intent == intent && after.initial == before.initial
  }

  /** A write of what was just read goes through, as a replay or as the next version. */
  lemma {:induction false} QuietWrite(req: Request, task: Task, attempt: nat, now: Record, store: Store)
    requires attempt < ATTEMPTS && Quiet(store, 2 * attempt, now) && Decide(req, task, now).Write?
    ensures var v, r := Decide(req, task, now), Loop(req, task, attempt, now, store);
      && r.Done? && r.writes == attempt + 1
      && if now.key == v.key then r.result == now else Succeeds(now, v.key, v.intent, r.result)
  {
    hide Decide;
    var v := Decide(req, task, now);
    var call := UpdateCall(now.revision, v.key, v.intent);
    assert store(2 * attempt, call) == Update(now, call.expected, call.key, call.intent).0;
  }

  /**
   What a call comes to that begins with a record since replaced, when nobody writes
   any more: its first write is a conflict, or the replay of one with its key, and
   after a conflict the record is read again and everything decided anew on it.
   */
  lemma {:induction false} QuietAfterRace(req: Request, task: Task, entry: Record, now: Record, store: Store)
    requires Quiet(store, 0, now) && entry.revision != now.revision && Decide(req, task, entry).Write?
    ensures var v, r := Decide(req, task, now), Loop(req, task, 0, entry, store);
      if now.key == Decide(req, task, entry).key then r == Done(now, 1)
      else match v
        case Finish => r == Done(now, 1)
        case Refuse => r == Failed
        case Write(key, intent) =>
          && r.Done? && r.writes == 2
          && if now.key == key then r.result == now else Succeeds(now, key, intent, r.result)
  {
    if Decide(req, task, now).Write? {
      assert Quiet(store, 2, now);
      QuietWrite(req, task, 1, now, store);
    }
    hide Decide;
    var v := Decide(req, task, entry);
    var call := UpdateCall(entry.revision, v.key, v.intent);
    assert store(0, call) == Update(now, call.expected, call.key, call.intent).0;
    assert store(1, ReadCall) == Updated(now);
    assert 2 * 0 == 0 && 2 * 0 + 1 == 1;
  }

  /** ensureDesired. */
  method EnsureDesired(req: Request, entry: Record, desired: Intent, store: Store) returns (r: Local)
    ensures r == Loop(req, Ensure(desired), 0, entry, store)
    ensures r.Done? || r.Failed?
    ensures entry.intent == desired ==> r == Done(entry, 0)
    ensures r.Done? ==> r.writes <= 2 && (r.writes == 0 <==> entry.intent == desired)
    ensures r.Done? && Carries(store) ==> r.result.intent == desired
    ensures Quiet(store, 0, entry) && entry.intent != desired && entry.key != DesiredKey(req, desired) ==>
      r.Done? && r.writes == 1 && Succeeds(entry, DesiredKey(req, desired), desired, r.result)
  {
    LoopFulfils(req, Ensure(desired), 0, entry, store);
    if Quiet(store, 0, entry) && entry.intent != desired { QuietWrite(req, Ensure(desired), 0, entry, store); }
    var held, writes, attempt := entry, 0, 0;
    while attempt < ATTEMPTS
      invariant attempt < ATTEMPTS && writes == attempt
      invariant Loop(req, Ensure(desired), 0, entry, store) == Loop(req, Ensure(desired), attempt, held, store)
    {
      if held.intent == desired { return Done(held, writes); }
      writes := writes + 1;
      var reply := store(2 * attempt, UpdateCall(held.revision, DesiredKey(req, desired), desired));
      if reply.Updated? { return Done(reply.entry, writes); }
      if !reply.Conflict? || attempt == ATTEMPTS - 1 { return Failed; }
      var again := store(2 * attempt + 1, ReadCall);
      if !again.Updated? { return Failed; }
      held := again.entry;
      attempt := attempt + 1;
    }
    r := Failed;
  }

  /** A desire written after creation for a Host of its own, and naming nothing to put there. */
  ghost predicate Deleted(r: Record) {
    && r.intent.placement == DEDICATED && r.generation >= 2
    && r.intent.workload.version == [] && r.intent.workload.payload == []
  }

  /** The session was created with a workload, version and payload. */
  ghost predicate Relaunchable(r: Record) {
    r.initial.Some? && |r.initial.value.version| > 0 && |r.initial.value.payload| > 0
  }

  /** What a revival comes to: nothing but a deletion is written over, and with its own launch. */
  ghost predicate RevivedAs(req: Request, entry: Record, store: Store, r: Local) {
    && (r.Done? || r.Failed?)
    && (!Deleted(entry) ==> r == Done(entry, 0))
    && (Deleted(entry) && !Relaunchable(entry) ==> r.Failed?)
    && (r.Done? ==> r.writes <= 2 && (r.writes == 0 <==> !Deleted(entry)))
    && (r.Done? && Carries(store) ==> !Deleted(r.result))
    && (Quiet(store, 0, entry) && Deleted(entry) && Relaunchable(entry) ==>
          var desired := Intent(entry.intent.placement, entry.intent.runtime, entry.initial.value);
          var key := ReviveKey(req, desired, entry.generation);
          entry.key != key ==> r.Done? && r.writes == 1 && Succeeds(entry, key, desired, r.result))
  }

  lemma {:induction false} RevivesSo(req: Request, entry: Record, store: Store)
    ensures RevivedAs(req, entry, store, Loop(req, Revive, 0, entry, store))
  {
    LoopFulfils(req, Revive, 0, entry, store);
    if Quiet(store, 0, entry) && Released(entry) && LaunchTemplate(entry).Some? {
      QuietWrite(req, Revive, 0, entry, store);
    }
    hide Quiet, Carries, Succeeds, ReviveKey, DesiredKey;
  }

  /** reviveReleased. */
  method ReviveReleased(req: Request, entry: Record, store: Store) returns (r: Local)
    ensures r == Loop(req, Revive, 0, entry, store)
    ensures RevivedAs(req, entry, store, r)
  {
    RevivesSo(req, entry, store);
    hide RevivedAs, ReviveKey;
    var held, writes, attempt := entry, 0, 0;
    while attempt < ATTEMPTS
      invariant attempt < ATTEMPTS && writes == attempt
      invariant Loop(req, Revive, 0, entry, store) == Loop(req, Revive, attempt, held, store)
    {
      if !Released(held) { return Done(held, writes); }
      var template := LaunchTemplate(held);
      if template.None? { return Failed; }
      var desired := Intent(held.intent.placement, held.intent.runtime, template.value);
      writes := writes + 1;
      var reply := store(2 * attempt, UpdateCall(held.revision, ReviveKey(req, desired, held.generation), desired));
      if reply.Updated? { return Done(reply.entry, writes); }
      if !reply.Conflict? || attempt == ATTEMPTS - 1 { return Failed; }
      var again := store(2 * attempt + 1, ReadCall);
      if !again.Updated? { return Failed; }
      held := again.entry;
      attempt := attempt + 1;
    }
    r := Failed;
  }
}
