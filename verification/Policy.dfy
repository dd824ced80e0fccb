/**
 Where a session should run: its own live owner, the first admissible pooled
 candidate, or a dedicated Host. With the requests and keys a placement sends,
 and the waits between its rounds.
 */
module Policy {
  import opened Common
  import opened Framing

  type HostId = Bytes
  type Instant = int

  datatype Placement = Pooled | Dedicated | Other
  datatype Isolation = CrossTenant | TenantExclusive

  /** The catalog record, as far as placement reads it. */
  datatype Record = Record(
    tenant: Bytes, session: Bytes, agent: Bytes, runtime: Bytes, placement: Placement,
    generation: nat, journal: nat, checkpoint: nat)

  /** A registry entry, or a Host's own statement of a residency. */
  datatype Observation = Observation(
    tenant: Bytes, session: Bytes, agent: Bytes, runtime: Bytes, placement: Placement,
    host: HostId, hostGeneration: nat, epoch: nat, endpoint: Bytes,
    resident: bool, accepting: bool, expires: Instant)

  /** One capacity report. */
  datatype Candidate = Candidate(
    host: HostId, hostGeneration: nat, endpoint: Bytes, agent: Bytes, runtime: Bytes, placement: Placement,
    isolation: Isolation, accepting: bool, capacity: int)

  predicate ReusableOwner(owner: Observation, record: Record, now: Instant) {
    && owner.tenant == record.tenant && owner.session == record.session
    && owner.agent == record.agent && owner.runtime == record.runtime && owner.placement == record.placement
    && owner.resident && owner.accepting && owner.expires > now
  }

  predicate Admissible(c: Candidate, record: Record) {
    && c.agent == record.agent && c.runtime == record.runtime && c.placement == record.placement
    && c.isolation.CrossTenant? && c.accepting && c.capacity > 0
  }

  /** The admissible candidates of a page, in its order. */
  function Seats(hosts: seq<Candidate>, record: Record): seq<Candidate> {
    if hosts == [] then []
    else (if Admissible(hosts[0], record) then [hosts[0]] else []) + Seats(hosts[1..], record)
  }

  /** A seat is a report of the page that serves what the record asks for, to any tenant, and has room. */
  lemma {:induction false} SeatsMeaning(hosts: seq<Candidate>, record: Record, c: Candidate)
    ensures c in Seats(hosts, record) <==>
      && c in hosts && c.agent == record.agent && c.runtime == record.runtime && c.placement == record.placement
      && c.isolation.CrossTenant? && c.accepting && c.capacity > 0
    ensures Seats(hosts, record) == [] <==> forall h :: h in hosts ==> !Admissible(h, record)
  {
    if hosts != [] {
      SeatsMeaning(hosts[1..], record, c);
      assert hosts == [hosts[0]] + hosts[1..];
    }
  }

  /** Every report takes its own place among the seats, or none. */
  lemma {:induction false} SeatsInOrder(hosts: seq<Candidate>, record: Record, i: nat)
    requires i < |hosts|
    ensures Seats(hosts, record) ==
      Seats(hosts[..i], record) + (if Admissible(hosts[i], record) then [hosts[i]] else [])
      + Seats(hosts[i + 1..], record)
  {
    hide Admissible;
    if i == 0 {
      assert hosts[..0] == [];
    } else {
      SeatsInOrder(hosts[1..], record, i - 1);
      assert hosts[..i][1..] == hosts[1..][..i - 1] && hosts[1..][i..] == hosts[i + 1..];
    }
  }

  // ----------------------------------------------------------------- releases

  /** The generation a record is created with. */
  const FIRST_GENERATION: nat := 1

  /** Deletion desire: a dedicated placement naming no workload, written after creation. */
  predicate IsRelease(dedicated: bool, generation: nat, bare: bool) {
    dedicated && generation > FIRST_GENERATION && bare
  }

  // ----------------------------------------------------------------- decision

  datatype Decision = ReuseOwner(owner: Observation) | AttachPooled(target: Candidate) | ReconcileDedicated | NoCapacity
    | Undecided

  /** The live owner first, then what the desired placement says. */
  ghost predicate Decides(record: Record, owner: Option<Observation>, candidates: seq<Candidate>, now: Instant,
                          d: Decision) {
    && (d.ReuseOwner? <==>
         && owner.Some? && var o := owner.value;
         && o.tenant == record.tenant && o.session == record.session && o.agent == record.agent
         && o.runtime == record.runtime && o.placement == record.placement
         && o.resident && o.accepting && now < o.expires)
    && match d
       case ReuseOwner(o) => owner == Some(o)
       case ReconcileDedicated => record.placement.Dedicated?
       case Undecided => record.placement.Other?
       case NoCapacity =>
         record.placement.Pooled? && forall i :: 0 <= i < |candidates| ==> !Admissible(candidates[i], record)
       case AttachPooled(c) =>
         && record.placement.Pooled?
         && exists i :: 0 <= i < |candidates| && candidates[i] == c && Admissible(c, record)
                        && forall j :: 0 <= j < i ==> !Admissible(candidates[j], record)
  }

  /** An absent registration is no observation at all, not an empty one. */
  method Decide(record: Record, owner: Option<Observation>, candidates: seq<Candidate>, now: Instant)
    returns (d: Decision)
    ensures Decides(record, owner, candidates, now, d)
  {
    if owner.Some? && ReusableOwner(owner.value, record, now) { return ReuseOwner(owner.value); }
    match record.placement {
      case Dedicated => return ReconcileDedicated;
      case Other => return Undecided;
      case Pooled =>
        for i := 0 to |candidates|
          invariant forall j :: 0 <= j < i ==> !Admissible(candidates[j], record)
        {
          if Admissible(candidates[i], record) { return AttachPooled(candidates[i]); }
        }
        return NoCapacity;
    }
  }

  // -------------------------------------------------------------------- waits

  const MILLISECOND: nat := 1_000_000
  const DEFAULT_BACKOFF: nat := 200 * MILLISECOND
  const MAX_BACKOFF: nat := 5_000 * MILLISECOND
  const MAX_DURATION: nat := 0x7fff_ffff_ffff_ffff

  function Pow2(n: nat): nat { if n == 0 then 1 else 2 * Pow2(n - 1) }

  lemma {:induction false} Pow2Grows(m: nat, n: nat)
    requires m <= n
    ensures 1 <= Pow2(m) <= Pow2(n)
    decreases n
  {
    if m < n { Pow2Grows(m, n - 1); } else if n > 0 { Pow2Grows(m - 1, n - 1); }
  }

  function Base(configured: nat): nat { if configured == 0 then DEFAULT_BACKOFF else configured }

  /** The wait before re-placement number n: the base doubled for each further one, up to the cap. */
  function BackoffAt(configured: nat, n: nat): nat {
    var d := Base(configured) * Pow2(if n == 0 then 0 else n - 1);
    if d < MAX_BACKOFF then d else MAX_BACKOFF
  }

  lemma Scale(a: nat, b: nat, c: nat)
    requires b <= c
    ensures a * b <= a * c
  {}

  /** No doubling leaves the range of a 64-bit duration, whatever the attempt number. */
  method Backoff(configured: nat, n: nat) returns (d: nat)
    requires configured <= MAX_BACKOFF
    ensures d == BackoffAt(configured, n) && 0 < d <= MAX_BACKOFF
  {
    d := configured;
    if d == 0 { d := DEFAULT_BACKOFF; }
    var i := 1;
    while i < n && d < MAX_BACKOFF
      invariant 1 <= i && (i <= n || i == 1)
      invariant d == Base(configured) * Pow2(i - 1) && 0 < d <= 2 * MAX_BACKOFF <= MAX_DURATION
      decreases n - i
    {
      d := d * 2;
      i := i + 1;
    }
    var doublings := if n == 0 then 0 else n - 1;
    Pow2Grows(i - 1, doublings);
    Scale(Base(configured), Pow2(i - 1), Pow2(doublings));
    if d > MAX_BACKOFF { d := MAX_BACKOFF; }
  }

  // ------------------------------------------------------------- the requests

  datatype Mode = Create | Restore

  function AttachMode(r: Record): Mode { if r.journal == 0 && r.checkpoint == 0 then Create else Restore }

  // "create", "restore", "placement-attach/v1" and "placement-bind/v1".
  const CREATE: Bytes := [99, 114, 101, 97, 116, 101]
  const RESTORE: Bytes := [114, 101, 115, 116, 111, 114, 101]
  const ATTACH_DOMAIN: Bytes := [112, 108, 97, 99, 101, 109, 101, 110, 116, 45, 97, 116, 116, 97, 99, 104, 47, 118, 49]
  const BIND_DOMAIN: Bytes := [112, 108, 97, 99, 101, 109, 101, 110, 116, 45, 98, 105, 110, 100, 47, 118, 49]

  function ModeName(m: Mode): Bytes { if m.Create? then CREATE else RESTORE }

  function AttachFields(r: Record, m: Mode): seq<Bytes> {
    [ATTACH_DOMAIN, r.tenant, r.session, r.agent, r.runtime, ModeName(m), Decimal(r.generation)]
  }

  function AttachKey(r: Record, m: Mode): Bytes { Frame(AttachFields(r, m)) }

  datatype AttachRequest = AttachRequest(
    tenant: Bytes, session: Bytes, host: HostId, hostGeneration: nat, agent: Bytes, runtime: Bytes, mode: Mode,
    key: Bytes)

  /** The host fence is the candidate's; the key names everything but the Host. */
  function AttachRequestFor(r: Record, host: HostId, hostGeneration: nat): AttachRequest {
    AttachRequest(r.tenant, r.session, host, hostGeneration, r.agent, r.runtime, AttachMode(r),
      AttachKey(r, AttachMode(r)))
  }

  /** The attach is for the session as the record has it: created if it has made no progress, restored if it has. */
  predicate AsksFor(q: AttachRequest, r: Record) {
    && q.tenant == r.tenant && q.session == r.session && q.agent == r.agent && q.runtime == r.runtime
    && (q.mode.Create? <==> r.journal == 0 && r.checkpoint == 0)
    && q.key == Frame([ATTACH_DOMAIN, r.tenant, r.session, r.agent, r.runtime,
      if q.mode.Create? then CREATE else RESTORE, Decimal(r.generation)])
  }

  /**
   Two attaches share a key exactly when they place the same intent: same session,
   launch, mode and desired generation.
   */
  lemma AttachKeyNames(r: Record, m: Mode, r': Record, m': Mode)
    ensures AttachKey(r, m) == AttachKey(r', m') <==>
      && r.tenant == r'.tenant && r.session == r'.session && r.agent == r'.agent && r.runtime == r'.runtime
      && m == m' && r.generation == r'.generation
  {
    if AttachKey(r, m) == AttachKey(r', m') {
      var f, g := AttachFields(r, m), AttachFields(r', m');
      FrameInjective(f, g);
      assert f[1] == g[1] && f[2] == g[2] && f[3] == g[3] && f[4] == g[4] && f[5] == g[5] && f[6] == g[6];
      DecimalDenotes(r.generation);
      DecimalDenotes(r'.generation);
      assert |CREATE| != |RESTORE|;
    }
  }

  datatype BindRequest = BindRequest(tenant: Bytes, session: Bytes, host: HostId, hostGeneration: nat, epoch: nat,
    runtime: Bytes, key: Bytes)

  function BindFields(o: Observation): seq<Bytes> {
    [BIND_DOMAIN, o.tenant, o.session, o.host, Decimal(o.hostGeneration), Decimal(o.epoch)]
  }

  function BindRequestFor(o: Observation): BindRequest {
    BindRequest(o.tenant, o.session, o.host, o.hostGeneration, o.epoch, o.runtime, Frame(BindFields(o)))
  }

  /** The bind is to the residency the observation states. */
  predicate BindsTo(b: BindRequest, o: Observation) {
    && b.tenant == o.tenant && b.session == o.session && b.runtime == o.runtime
    && b.host == o.host && b.hostGeneration == o.hostGeneration && b.epoch == o.epoch
    && b.key == Frame([BIND_DOMAIN, o.tenant, o.session, o.host, Decimal(o.hostGeneration), Decimal(o.epoch)])
  }

  /** The unbind takes back that very bind. */
  predicate TakesBack(u: UnbindRequest, b: BindRequest) {
    && u.tenant == b.tenant && u.session == b.session && u.host == b.host && u.hostGeneration == b.hostGeneration
    && u.epoch == b.epoch && u.key == b.key
  }

  /** A bind's key names one residency: the session, the Host's incarnation and its lease epoch. */
  lemma BindKeyNames(o: Observation, p: Observation)
    ensures BindRequestFor(o).key == BindRequestFor(p).key <==>
      o.tenant == p.tenant && o.session == p.session && o.host == p.host && o.hostGeneration == p.hostGeneration &&
        o.epoch == p.epoch
  {
    if BindRequestFor(o).key == BindRequestFor(p).key {
      var f, g := BindFields(o), BindFields(p);
      FrameInjective(f, g);
      assert f[1] == g[1] && f[2] == g[2] && f[3] == g[3] && f[4] == g[4] && f[5] == g[5];
      DecimalDenotes(o.hostGeneration);
      DecimalDenotes(p.hostGeneration);
      DecimalDenotes(o.epoch);
      DecimalDenotes(p.epoch);
    }
  }

  /** No attach's key is a bind's. */
  lemma AttachAndBindKeysApart(r: Record, m: Mode, o: Observation)
    ensures AttachKey(r, m) != BindRequestFor(o).key
  {
    assert |AttachFields(r, m)| == 7 && |BindFields(o)| == 6;
    if AttachKey(r, m) == BindRequestFor(o).key { FrameInjective(AttachFields(r, m), BindFields(o)); }
  }

  datatype UnbindRequest = UnbindRequest(tenant: Bytes, session: Bytes, host: HostId, hostGeneration: nat, epoch: nat,
    key: Bytes)

  function UnbindRequestFor(b: BindRequest): UnbindRequest {
    UnbindRequest(b.tenant, b.session, b.host, b.hostGeneration, b.epoch, b.key)
  }
}
