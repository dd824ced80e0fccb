/**
 One pass of a deadline sweep: pages of due rows, a memoised reconciliation
 claim per session, one settlement per settleable row, and every claim given
 back. The legacy and the disposition sweep share the claimant and the loop and
 differ in the predicate, the refusal table and whether a position is kept.
 */
module DeadlineSweep {
  import opened Common
  import opened Rotor
  import opened Paging
  import opened Settlement
  import opened SweepRuns
  import opened Trails

  type Session = nat

  datatype Family = Legacy | Dispositions

  datatype Entry = Entry(session: Session, command: Command, record: Record)

  /** The legacy predicate has no attempt to read and no arm for an unknown state. */
  function LegacySettleable(r: Record, now: Instant): (d: Disposition)
    ensures d == Settleable <==>
      && !r.state.Applied? && !r.state.Rejected? && !r.state.Applying?
      && (r.claim.Some? ==> r.claim.value <= now) && r.deadline <= now
    ensures d == Terminal <==> r.state.Applied? || r.state.Rejected?
    ensures d == ApplyingNow <==> r.state.Applying?
    ensures d == ClaimLive <==> (Unended(r) || r.state.Unknown?) && ClaimedAt(r, now)
    ensures d == Unexpired <==> (Unended(r) || r.state.Unknown?) && !ClaimedAt(r, now) && now < r.deadline
    ensures d in {Settleable, Terminal, ApplyingNow, ClaimLive, Unexpired}
  {
    if r.state.Applied? || r.state.Rejected? then Terminal
    else if r.state.Applying? then ApplyingNow
    else if r.claim.Some? && now < r.claim.value then ClaimLive
    else if now < r.deadline then Unexpired
    else Settleable
  }

  function Judge(family: Family, r: Record, now: Instant): (d: Disposition)
    ensures family.Dispositions? ==> Stands(r, now, d)
    ensures family.Legacy? && (Unended(r) || r.state.Unknown?) ==> d in {ClaimLive, Unexpired, Settleable}
  {
    SettleableExactly(r, now, DispositionSettleable(r, now));
    if family.Legacy? then LegacySettleable(r, now) else DispositionSettleable(r, now)
  }

  datatype Code =
    StateCode | ClaimHeldCode | ClaimLostCode | ConflictCode | TerminalCode | NotFoundCode | DeletedCode
    | EvidenceCode | OtherCode

  datatype RejectReply = Wrote | AlreadyRejected | SessionAbsent | InboxError(code: Code) | OtherFault

  /** A refusal's disposition, or Settleable for a fault. */
  function Refusal(family: Family, reply: RejectReply): Disposition {
    match reply
    case SessionAbsent => if family.Legacy? then Settleable else Terminal
    case InboxError(code) =>
      (match code
       case StateCode => if family.Legacy? then Settleable else ApplyingNow
       case ClaimLostCode => if family.Legacy? then ApplyingNow else Settleable
       case EvidenceCode => if family.Legacy? then Evidence else Settleable
       case ClaimHeldCode => ClaimLive
       case ConflictCode => RaceLost
       case TerminalCode => Terminal
       case NotFoundCode => Terminal
       case DeletedCode => Terminal
       case OtherCode => Settleable)
    case _ => Settleable
  }

  datatype ListReply =
    | Rows(commands: seq<Entry>, examined: nat, unreadable: nat, next: Cursor)
    | CursorRefused
    | ListFault

  datatype ClaimReply = Granted | HeldElsewhere | ClaimConflict | ClaimFault

  /** The store, answering its call number n as it likes. */
  datatype Env = Env(
    list: (nat, nat, Query) -> ListReply,
    acquire: (nat, Session) -> ClaimReply,
    reject: (nat, Entry) -> RejectReply,
    release: (nat, Session) -> bool)

  datatype Call =
    | ListCall(shard: nat, query: Query)
    | Acquire(session: Session)
    | RejectCall(entry: Entry)
    | Release(session: Session)

  // ------------------------------------------------------------------ counters

  type Counts = map<Disposition, nat>

  function Count(m: Counts, d: Disposition): nat { if d in m then m[d] else 0 }

  function Bump(m: Counts, d: Disposition): Counts { m[d := Count(m, d) + 1] }

  /** Every recorded disposition. */
  function Total(m: Counts): nat {
    Count(m, Settleable) + Count(m, RejectedNow) + Count(m, Unexpired) + Count(m, ClaimLive) + Count(m, ApplyingNow)
    + Count(m, Terminal) + Count(m, Evidence) + Count(m, RaceLost) + Count(m, Deferred) + Count(m, Unrecognized)
  }

  lemma {:induction false} BumpCount(m: Counts, d: Disposition)
    ensures forall e :: Count(Bump(m, d), e) == Count(m, e) + if d == e then 1 else 0
  {}

  lemma {:induction false} BumpTotal(m: Counts, d: Disposition)
    ensures Total(Bump(m, d)) == Total(m) + 1
  {
    BumpCount(m, d);
    hide Count, Bump;
  }

  /** How often a call was made. */
  ghost function Tally(calls: seq<Call>, call: Call): nat {
    if calls == [] then 0
    else Tally(calls[..|calls| - 1], call) + if calls[|calls| - 1] == call then 1 else 0
  }

  lemma TallyAppend(calls: seq<Call>, made: Call)
    ensures forall c :: Tally(calls + [made], c) == Tally(calls, c) + if c == made then 1 else 0
  {
    assert (calls + [made])[..|calls|] == calls;
  }

  ghost function Taken(held: map<Session, bool>): set<Session> { set s | s in held && held[s] }

  const CLAIM_ATTEMPTS: nat := 2

  ghost predicate GrantedIn(env: Env, calls: seq<Call>, s: Session) {
    exists i :: 0 <= i < |calls| && calls[i] == Acquire(s) && env.acquire(i, s).Granted?
  }

  lemma GrantKept(env: Env, calls: seq<Call>, call: Call, s: Session)
    requires GrantedIn(env, calls, s)
    ensures GrantedIn(env, calls + [call], s)
  {
    var i :| 0 <= i < |calls| && calls[i] == Acquire(s) && env.acquire(i, s).Granted?;
    assert (calls + [call])[i] == Acquire(s);
  }

  /** The answers to a rejection that no table names: the pass ends there. */
  predicate IsFault(family: Family, reply: RejectReply) {
    match reply
    case OtherFault => true
    case SessionAbsent => family.Legacy?
    case InboxError(code) =>
      || code.OtherCode?
      || if family.Legacy? then code.StateCode? else code.ClaimLostCode? || code.EvidenceCode?
    case _ => false
  }

  /** Which answers to a rejection each outcome records. */
  predicate Records(family: Family, d: Disposition, reply: RejectReply) {
    match d
    case RejectedNow => reply == Wrote || (reply == AlreadyRejected && family.Legacy?)
    case RaceLost => reply == InboxError(ConflictCode)
    case ClaimLive => reply == InboxError(ClaimHeldCode)
    case ApplyingNow => reply == InboxError(if family.Legacy? then ClaimLostCode else StateCode)
    case Evidence => reply == InboxError(EvidenceCode) && family.Legacy?
    case Terminal =>
      || reply in {InboxError(TerminalCode), InboxError(NotFoundCode), InboxError(DeletedCode)}
      || (reply in {SessionAbsent, AlreadyRejected} && family.Dispositions?)
    case _ => false
  }

  /** What a write's answer is recorded as; Settleable stands for a fault. */
  function Written(family: Family, reply: RejectReply): (d: Disposition)
    ensures d == Settleable <==> IsFault(family, reply)
    ensures d != Settleable ==> Records(family, d, reply)
    ensures forall e :: Records(family, e, reply) ==> e == d
  {
    if reply.Wrote? || (reply.AlreadyRejected? && family.Legacy?) then RejectedNow
    else if reply.AlreadyRejected? then Terminal
    else Refusal(family, reply)
  }

  // ------------------------------------------------------- what a pass leaves

  function AnswerOf(reply: ListReply): Answer<Entry> {
    match reply
    case Rows(commands, _, _, next) => Listed(commands, next)
    case CursorRefused => Lost
    case ListFault => Broke
  }

  /** The store as a pass with this due bound reads it. */
  function ListerOf(env: Env, due: Instant): Lister<Entry> {
    (n: nat, shard: nat, cursor: Cursor) => AnswerOf(env.list(n, shard, Asking(cursor, due)))
  }

  /** One settled row, what was recorded for it, and the call that wrote it, if one did. */
  datatype Settled = Settled(entry: Entry, outcome: Disposition, call: nat)

  /** How a pass ends. */
  datatype Ending = Complete | CursorLost | ListFailed | ClaimFailed(session: Session) | WriteFailed(entry: Entry)

  function Entries(settled: seq<Settled>): (r: seq<Entry>)
    ensures |r| == |settled| && forall i :: 0 <= i < |settled| ==> r[i] == settled[i].entry
  {
    if settled == [] then [] else Entries(settled[..|settled| - 1]) + [settled[|settled| - 1].entry]
  }

  function CountsOf(settled: seq<Settled>): Counts {
    if settled == [] then map[] else Bump(CountsOf(settled[..|settled| - 1]), settled[|settled| - 1].outcome)
  }

  lemma CountsMore(settled: seq<Settled>, x: Settled)
    ensures CountsOf(settled + [x]) == Bump(CountsOf(settled), x.outcome)
  {
    assert (settled + [x])[..|settled|] == settled;
  }

  /** One recorded disposition for every settled row. */
  lemma {:induction false} CountsTotal(settled: seq<Settled>)
    ensures Total(CountsOf(settled)) == |settled|
  {
    if settled != [] {
      CountsTotal(settled[..|settled| - 1]);
      BumpTotal(CountsOf(settled[..|settled| - 1]), settled[|settled| - 1].outcome);
    }
  }

  /** What a series of listings adds up to. */
  datatype Sums = Sums(pages: nat, examined: nat, unreadable: nat, due: nat)

  function Adds(t: Sums, reply: ListReply): Sums {
    if reply.Rows?
    then Sums(t.pages + 1, t.examined + reply.examined, t.unreadable + reply.unreadable, t.due + |reply.commands|)
    else t
  }

  function SumsOf(env: Env, due: Instant, shard: nat, listings: seq<Listing<Entry>>): Sums {
    if listings == [] then Sums(0, 0, 0, 0)
    else
      var last := listings[|listings| - 1];
      Adds(SumsOf(env, due, shard, listings[..|listings| - 1]), env.list(last.number, shard, Asking(last.from, due)))
  }

  lemma SumsMore(env: Env, due: Instant, shard: nat, listings: seq<Listing<Entry>>, x: Listing<Entry>)
    ensures SumsOf(env, due, shard, listings + [x]) ==
      Adds(SumsOf(env, due, shard, listings), env.list(x.number, shard, Asking(x.from, due)))
  {
    assert (listings + [x])[..|listings|] == listings;
  }

  /** What each listing adds, counter by counter. */
  lemma SumsStep(env: Env, due: Instant, shard: nat, listings: seq<Listing<Entry>>, n: nat)
    requires n < |listings|
    ensures var before, after := SumsOf(env, due, shard, listings[..n]), SumsOf(env, due, shard, listings[..n + 1]);
      var reply := env.list(listings[n].number, shard, Asking(listings[n].from, due));
      if !reply.Rows? then after == before
      else
        && after.pages == before.pages + 1 && after.due == before.due + |reply.commands|
        && after.examined == before.examined + reply.examined
        && after.unreadable == before.unreadable + reply.unreadable
  {
    SumsMore(env, due, shard, listings[..n], listings[n]);
    assert listings[..n + 1] == listings[..n] + [listings[n]];
  }

  /** The due rows counted are the rows listed. */
  lemma {:induction false} SumsDue(env: Env, due: Instant, shard: nat, listings: seq<Listing<Entry>>)
    requires forall i :: 0 <= i < |listings| ==>
      listings[i].answer == AnswerOf(env.list(listings[i].number, shard, Asking(listings[i].from, due)))
    ensures SumsOf(env, due, shard, listings).due == |RowsOf(listings)|
  {
    if listings != [] { SumsDue(env, due, shard, listings[..|listings| - 1]); }
  }

  /** Each listing was a call of the pass, under its bound from the head and under none from a continuation. */
  ghost predicate Called(calls: seq<Call>, due: Instant, shard: nat, listings: seq<Listing<Entry>>) {
    forall i :: 0 <= i < |listings| ==>
      listings[i].number < |calls| && calls[listings[i].number] == ListCall(shard, Asking(listings[i].from, due))
  }

  /**
   What a row may be recorded as: what it is judged, when that forbids settling it;
   deferred, when another replica holds its session; or what the one write of it,
   under a claim this pass was granted, was answered.
   */
  ghost predicate Justified(env: Env, family: Family, now: Instant, calls: seq<Call>, held: map<Session, bool>,
                            x: Settled) {
    var judged := Judge(family, x.entry.record, now);
    if judged != Settleable then x.outcome == judged
    else
      && x.entry.session in held
      && if !held[x.entry.session] then x.outcome == Deferred
         else
           && x.call < |calls| && calls[x.call] == RejectCall(x.entry)
           && Records(family, x.outcome, env.reject(x.call, x.entry))
  }

  /** The memo only gains sessions. */
  ghost predicate Extends(held: map<Session, bool>, later: map<Session, bool>) {
    forall s :: s in held ==> s in later && later[s] == held[s]
  }

  lemma JustifiedStill(env: Env, family: Family, now: Instant, calls: seq<Call>, held: map<Session, bool>,
                       more: seq<Call>, later: map<Session, bool>, x: Settled)
    requires Justified(env, family, now, calls, held, x) && calls <= more && Extends(held, later)
    ensures Justified(env, family, now, more, later, x)
  {}

  /** Why a row was not settled: the store failed its session's claim, or its write. */
  ghost predicate Faulted(env: Env, family: Family, now: Instant, calls: seq<Call>, entry: Entry, ending: Ending) {
    && Judge(family, entry.record, now) == Settleable
    && match ending
       case ClaimFailed(s) =>
         s == entry.session && exists n :: 0 <= n < |calls| && calls[n] == Acquire(s) && env.acquire(n, s).ClaimFault?
       case WriteFailed(e) =>
         && e == entry
         && exists n :: 0 <= n < |calls| && calls[n] == RejectCall(e) && IsFault(family, env.reject(n, e))
       case _ => false
  }

  /** What a pass has done, as values. */
  datatype Account = Account(
    env: Env, family: Family, now: Instant, maxPages: nat,
    trail: Trail<Entry>, calls: seq<Call>, held: map<Session, bool>, settled: seq<Settled>)

  function EndOf(ending: Ending): End {
    match ending
    case Complete => Whole
    case CursorLost => Forgotten
    case ListFailed => Unlisted
    case _ => Cut
  }

  /** A whole pass: what was listed, what each row came to, and why it ended where it did. */
  ghost predicate Accounts(a: Account, ending: Ending, kept: Cursor) {
    && a.trail.list == ListerOf(a.env, a.now) && a.trail.due == a.now
    && Called(a.calls, a.now, a.trail.shard, a.trail.listings)
    && Toured(a.trail, Entries(a.settled), a.maxPages, EndOf(ending), kept)
    && (forall i :: 0 <= i < |a.settled| ==> Justified(a.env, a.family, a.now, a.calls, a.held, a.settled[i]))
    && (EndOf(ending).Cut? ==> Faulted(a.env, a.family, a.now, a.calls, RowsOf(a.trail.listings)[|a.settled|], ending))
  }

  /**
   The counters account for every due row, except exactly when a row's claim or write
   failed: then the failed row and those after it on its page have no disposition.
   */
  /** Why a pass stopped, and the position it keeps, in the words of the store's last answer. */
  lemma {:induction false} EndedBy(a: Account, ending: Ending, kept: Cursor)
    requires Accounts(a, ending, kept)
    ensures a.trail.listings != []
    ensures var x := a.trail.listings[|a.trail.listings| - 1];
      var reply := a.env.list(x.number, a.trail.shard, Asking(x.from, a.now));
      && (ending.CursorLost? <==> reply.CursorRefused?) && (ending.ListFailed? <==> reply.ListFault?)
      && match ending
         case Complete => reply.Rows? && kept == reply.next && (kept != HEAD ==> |a.trail.listings| == a.maxPages)
         case CursorLost => kept == HEAD
         case ListFailed => kept == x.from
         case ClaimFailed(s) => reply.Rows? && kept == x.from && exists e :: e in reply.commands && e.session == s
         case WriteFailed(e) => reply.Rows? && kept == x.from && e in reply.commands
  {
    EndedAs(a.trail, Entries(a.settled), a.maxPages, EndOf(ending), kept);
    if EndOf(ending).Cut? { CutOnLast(a.trail, Entries(a.settled), a.maxPages, kept); }
    hide RowsOf, Called, Justified, Toured;
  }

  /**
   A pass ends on a write only when the store answered that row's rejection with something
   no table names; a lost race, a claim or an ending that came between is no such answer.
   */
  lemma {:induction false} WriteFailedExactly(a: Account, e: Entry, kept: Cursor) returns (n: nat)
    requires Accounts(a, WriteFailed(e), kept)
    ensures n < |a.calls| && a.calls[n] == RejectCall(e)
    ensures a.family.Dispositions? ==>
      a.env.reject(n, e) in {OtherFault, InboxError(OtherCode), InboxError(ClaimLostCode), InboxError(EvidenceCode)}
    ensures a.family.Legacy? ==>
      a.env.reject(n, e) in {OtherFault, InboxError(OtherCode), InboxError(StateCode), SessionAbsent}
  {
    n :| 0 <= n < |a.calls| && a.calls[n] == RejectCall(e) && IsFault(a.family, a.env.reject(n, e));
  }

  lemma {:induction false} EveryRowCounted(a: Account, ending: Ending, kept: Cursor)
    requires Accounts(a, ending, kept)
    ensures var due := SumsOf(a.env, a.now, a.trail.shard, a.trail.listings).due;
      && Total(CountsOf(a.settled)) <= due
      && (Total(CountsOf(a.settled)) == due <==> !ending.ClaimFailed? && !ending.WriteFailed?)
  {
    var listings := a.trail.listings;
    forall i | 0 <= i < |listings|
      ensures var x := listings[i];
        x.answer == AnswerOf(a.env.list(x.number, a.trail.shard, Asking(x.from, a.now)))
    {
      assert TracedAt(a.trail, i);
    }
    hide Justified, TracedAt, RowsOf, Total;
    SumsDue(a.env, a.now, a.trail.shard, listings);
    CountsTotal(a.settled);
  }

  // ------------------------------------------------------------------ one pass

  /** SweepResult and the claim memo of one pass, updated in place. */
  class Pass {
    const env: Env
    const family: Family
    const now: Instant
    const maxPages: nat

    var pages: nat
    var examined: nat
    var unreadable: nat
    var due: nat
    var rejected: nat
    var claimed: nat
    var released: nat
    var queries: nat
    var releaseFailures: nat
    var truncated: bool
    var dispositions: Counts
    var held: map<Session, bool>

    ghost var calls: seq<Call>
    ghost var listings: seq<Listing<Entry>>
    ghost var settled: seq<Settled>
    ghost var dealt: seq<Page<Entry>>

    constructor (env: Env, family: Family, now: Instant, maxPages: nat)
      ensures this.env == env && this.family == family && this.now == now && this.maxPages == maxPages
      ensures Valid() && Memoised() && NothingReleased()
      ensures calls == [] && listings == [] && settled == [] && dealt == []
      ensures pages == 0 && examined == 0 && unreadable == 0 && due == 0 && !truncated
    {
      this.env, this.family, this.now, this.maxPages := env, family, now, maxPages;
      pages, examined, unreadable, due, rejected := 0, 0, 0, 0, 0;
      claimed, released, queries, releaseFailures := 0, 0, 0, 0;
      truncated, dispositions, held, calls, listings, settled, dealt := false, map[], map[], [], [], [], [];
      new;
      assert Taken(held) == {};
    }

    /** What every step of a pass keeps. */
    ghost predicate Valid()
      reads this`rejected, this`dispositions, this`settled, this`queries, this`calls, this`claimed, this`held
    { Counted() && Asked() && Licensed() && Vouched() && Recorded() }

    ghost predicate Counted() reads this`rejected, this`dispositions, this`settled {
      dispositions == CountsOf(settled) && rejected == Count(dispositions, RejectedNow)
    }

    ghost predicate Asked() reads this`queries, this`calls, this`claimed, this`held {
      && queries == |calls| && claimed == |Taken(held)|
      && forall s :: Tally(calls, Acquire(s)) <= CLAIM_ATTEMPTS
    }

    /** Only settleable rows of sessions this pass holds are written. */
    ghost predicate Licensed() reads this`calls, this`held {
      forall c :: c in calls && c.RejectCall? ==>
        Judge(family, c.entry.record, now) == Settleable && c.entry.session in held && held[c.entry.session]
    }

    /** A session is held only on the store's own grant. */
    ghost predicate Vouched() reads this`calls, this`held {
      forall s :: s in held && held[s] ==> GrantedIn(env, calls, s)
    }

    ghost predicate Recorded() reads this`calls, this`held, this`settled {
      forall i :: 0 <= i < |settled| ==> Justified(env, family, now, calls, held, settled[i])
    }

    /** A session not in the memo has not been asked for. */
    ghost predicate Memoised() reads this`calls, this`held {
      forall s :: s !in held ==> Tally(calls, Acquire(s)) == 0
    }

    ghost predicate NothingReleased() reads this`released, this`releaseFailures, this`calls {
      released == 0 && releaseFailures == 0 && forall s :: Tally(calls, Release(s)) == 0
    }

    /** One store call, counted before it is made. */
    method Note(call: Call)
      modifies this`queries, this`calls
      ensures queries == old(queries) + 1 && calls == old(calls) + [call]
      ensures forall c :: Tally(calls, c) == old(Tally(calls, c)) + if c == call then 1 else 0
      ensures forall s :: old(GrantedIn(env, calls, s)) ==> GrantedIn(env, calls, s)
      ensures old(Recorded()) ==> Recorded()
    {
      TallyAppend(calls, call);
      forall s | GrantedIn(env, calls, s) ensures GrantedIn(env, calls + [call], s) { GrantKept(env, calls, call, s); }
      KeepRecorded(calls + [call], held);
      queries, calls := queries + 1, calls + [call];
    }

    lemma {:induction false} KeepRecorded(more: seq<Call>, later: map<Session, bool>)
      requires calls <= more && Extends(held, later)
      ensures Recorded() ==> forall i :: 0 <= i < |settled| ==> Justified(env, family, now, more, later, settled[i])
    {
      if Recorded() {
        forall i | 0 <= i < |settled| ensures Justified(env, family, now, more, later, settled[i]) {
          JustifiedStill(env, family, now, calls, held, more, later, settled[i]);
        }
      }
    }

    method Record(entry: Entry, outcome: Disposition, ghost call: nat)
      requires Counted() && Recorded() && Justified(env, family, now, calls, held, Settled(entry, outcome, call))
      modifies this`dispositions, this`rejected, this`settled
      ensures Counted() && Recorded() && settled == old(settled) + [Settled(entry, outcome, call)]
    {
      CountsMore(settled, Settled(entry, outcome, call));
      BumpCount(dispositions, outcome);
      hide Justified;
      if outcome == RejectedNow { rejected := rejected + 1; }
      dispositions := Bump(dispositions, outcome);
      settled := settled + [Settled(entry, outcome, call)];
    }

    /** The memo holds both answers. */
    method Remember(session: Session, taken: bool)
      requires queries == |calls| && claimed == |Taken(held)| && session !in held
      modifies this`held, this`claimed
      ensures held == old(held)[session := taken] && Extends(old(held), held)
      ensures queries == |calls| && claimed == |Taken(held)|
      ensures old(Recorded()) ==> Recorded()
    {
      ghost var before := Taken(held);
      KeepRecorded(calls, held[session := taken]);
      held := held[session := taken];
      if taken { claimed := claimed + 1; }
      assert Taken(held) == before + (if taken then {session} else {});
    }

    /** Up to two acquisitions: the second only after a conflict. */
    method Ask(session: Session) returns (reply: ClaimReply)
      requires Valid() && Memoised() && NothingReleased() && session !in held
      modifies this`queries, this`calls
      ensures Asked() && NothingReleased() && Licensed() && Vouched() && Recorded() && old(calls) <= calls
      ensures forall s :: s != session ==> Tally(calls, Acquire(s)) == old(Tally(calls, Acquire(s)))
      ensures calls != [] && calls[|calls| - 1] == Acquire(session) && reply == env.acquire(|calls| - 1, session)
      ensures reply.ClaimConflict? ==> Tally(calls, Acquire(session)) == CLAIM_ATTEMPTS
    {
      hide Tally, Counted, GrantedIn, Recorded;
      var attempt := 0;
      reply := ClaimConflict;
      while attempt < CLAIM_ATTEMPTS && reply.ClaimConflict?
        invariant attempt <= CLAIM_ATTEMPTS && queries == |calls| && NothingReleased() && old(calls) <= calls
        invariant Tally(calls, Acquire(session)) == attempt
        invariant forall s :: s != session ==> Tally(calls, Acquire(s)) == old(Tally(calls, Acquire(s)))
        invariant Licensed() && Vouched() && Recorded() && (attempt == 0 ==> reply.ClaimConflict?)
        invariant attempt > 0 ==>
          calls != [] && calls[|calls| - 1] == Acquire(session) && reply == env.acquire(|calls| - 1, session)
      {
        reply := env.acquire(queries, session);
        Note(Acquire(session));
        attempt := attempt + 1;
      }
    }

    /** claimant.claim: a session is asked for once a pass, whatever the answer. */
    method Claim(session: Session) returns (ok: bool, taken: bool)
      requires Valid() && Memoised() && NothingReleased()
      modifies this`queries, this`calls, this`held, this`claimed
      ensures Valid() && NothingReleased() && (ok ==> Memoised()) && old(calls) <= calls && Extends(old(held), held)
      ensures ok ==> session in held && taken == held[session]
      ensures old(session in held) ==> ok && held == old(held) && calls == old(calls)
      ensures !ok ==> held == old(held)
      ensures old(session !in held) ==>
        && calls != [] && calls[|calls| - 1] == Acquire(session)
        && ok == !env.acquire(|calls| - 1, session).ClaimFault? &&
           (ok ==> taken == env.acquire(|calls| - 1, session).Granted?)
    {
      hide Tally, Counted, Recorded;
      if session in held { return true, held[session]; }
      var reply := Ask(session);
      if reply.ClaimFault? { return false, false; }
      taken := reply.Granted?;
      Remember(session, taken);
      ok := true;
    }

    /** One row's disposition. */
    method Conclude(entry: Entry, outcome: Disposition, ghost call: nat)
      requires Valid() && Memoised() && NothingReleased()
      requires Justified(env, family, now, calls, held, Settled(entry, outcome, call))
      modifies this`dispositions, this`rejected, this`settled
      ensures Valid() && Memoised() && NothingReleased() && settled == old(settled) + [Settled(entry, outcome, call)]
      ensures Entries(settled) == old(Entries(settled)) + [entry]
    {
      hide Tally, GrantedIn, CountsOf, Justified;
      ghost var before := settled;
      Record(entry, outcome, call);
      assert Entries(settled) == Entries(before) + [entry];
    }

    /** settle: one due row, one recorded disposition, unless the store faults. */
    method Settle(entry: Entry) returns (ending: Ending)
      requires Valid() && Memoised() && NothingReleased()
      modifies this`queries, this`calls, this`held, this`claimed, this`dispositions, this`rejected, this`settled
      ensures Valid() && NothingReleased() && (ending.Complete? ==> Memoised())
      ensures old(calls) <= calls && Extends(old(held), held) && old(settled) <= settled
      ensures Entries(settled) == old(Entries(settled)) + if ending.Complete? then [entry] else []
      ensures !ending.Complete? ==>
        (ending.ClaimFailed? || ending.WriteFailed?) && Faulted(env, family, now, calls, entry, ending)
    {
      var judged := Judge(family, entry.record, now);
      hide Valid, Memoised, NothingReleased, Judge, Entries, GrantedIn;
      if judged != Settleable {
        Conclude(entry, judged, 0);
        return Complete;
      }
      ghost var asked := calls;
      var claimOk, taken := Claim(entry.session);
      if !claimOk { return ClaimFailed(entry.session); }
      if !taken {
        Conclude(entry, Deferred, 0);
        return Complete;
      }
      ending := RejectRow(entry);
    }

    /** The one durable write of a row this pass may settle. */
    method Write(entry: Entry) returns (reply: RejectReply)
      requires Valid() && Memoised() && NothingReleased()
      requires Judge(family, entry.record, now) == Settleable && entry.session in held && held[entry.session]
      modifies this`queries, this`calls
      ensures Valid() && Memoised() && NothingReleased() && old(queries) == |old(calls)|
      ensures calls == old(calls) + [RejectCall(entry)] && reply == env.reject(old(queries), entry)
    {
      hide Tally, GrantedIn, Counted, Recorded;
      reply := env.reject(queries, entry);
      Note(RejectCall(entry));
    }

    /** And what its answer is recorded as. */
    method RejectRow(entry: Entry) returns (ending: Ending)
      requires Valid() && Memoised() && NothingReleased()
      requires Judge(family, entry.record, now) == Settleable && entry.session in held && held[entry.session]
      modifies this`queries, this`calls, this`dispositions, this`rejected, this`settled
      ensures Valid() && NothingReleased() && Memoised() && calls == old(calls) + [RejectCall(entry)]
      ensures var reply := env.reject(old(queries), entry);
        if IsFault(family, reply) then ending == WriteFailed(entry) && settled == old(settled)
        else
          && ending == Complete && |settled| == |old(settled)| + 1
          && var last := settled[|old(settled)|];
          && settled == old(settled) + [Settled(entry, last.outcome, old(queries))]
          && Records(family, last.outcome, reply)
      ensures old(settled) <= settled
      ensures Entries(settled) == old(Entries(settled)) + if ending.Complete? then [entry] else []
      ensures !ending.Complete? ==> Faulted(env, family, now, calls, entry, ending)
    {
      hide Valid, Memoised, NothingReleased, Judge, Entries;
      var reply := Write(entry);
      var outcome :=
        if reply.Wrote? || (reply.AlreadyRejected? && family.Legacy?) then RejectedNow
        else if reply.AlreadyRejected? then Terminal
        else Refusal(family, reply);
      assert calls[|old(calls)|] == RejectCall(entry);
      if outcome == Settleable { return WriteFailed(entry); }
      Conclude(entry, outcome, |old(calls)|);
      ending := Complete;
    }

    /** The rows of a page, in order, up to the first that faults. */
    method SettleAll(rows: seq<Entry>) returns (ending: Ending)
      requires Valid() && Memoised() && NothingReleased()
      modifies this`queries, this`calls, this`held, this`claimed, this`dispositions, this`rejected, this`settled
      ensures Valid() && NothingReleased() && (ending.Complete? ==> Memoised()) && old(calls) <= calls
      ensures ending.Complete? ==> Entries(settled) == old(Entries(settled)) + rows
      ensures !ending.Complete? ==>
        && (ending.ClaimFailed? || ending.WriteFailed?) && |old(settled)| <= |settled| < |old(settled)| + |rows|
        && Entries(settled) == old(Entries(settled)) + rows[..|settled| - |old(settled)|]
        && Faulted(env, family, now, calls, rows[|settled| - |old(settled)|], ending)
    {
      hide Valid, Memoised, NothingReleased, Faulted;
      ghost var before := Entries(settled);
      for i := 0 to |rows|
        invariant Valid() && Memoised() && NothingReleased() && old(calls) <= calls
        invariant Entries(settled) == before + rows[..i]
      {
        ending := Settle(rows[i]);
        if !ending.Complete? {
          assert before + rows[..i] + [] == before + rows[..i];
          return;
        }
        assert rows[..i + 1] == rows[..i] + [rows[i]];
      }
      assert rows[..|rows|] == rows;
      ending := Complete;
    }

    ghost function TrailOf(shard: nat, start: Cursor): Trail<Entry>
      reads this`listings, this`dealt
    {
      Trail(ListerOf(env, now), now, shard, start, listings, dealt)
    }

    ghost function Abs(shard: nat, start: Cursor): Account
      reads this
    {
      Account(env, family, now, maxPages, TrailOf(shard, start), calls, held, settled)
    }

    ghost predicate Summed(shard: nat)
      reads this`pages, this`examined, this`unreadable, this`due, this`listings
    {
      SumsOf(env, now, shard, listings) == Sums(pages, examined, unreadable, due)
    }

    /** What stands between two pages: the trail, its calls and its sums, with every row of it settled. */
    ghost predicate Going(shard: nat, start: Cursor)
      reads this
    {
      && Valid() && NothingReleased() && Summed(shard) && Called(calls, now, shard, listings)
      && Midway(TrailOf(shard, start), Entries(settled))
    }

    /** One listing, asked of the store. */
    method Fetch(shard: nat, cursor: Cursor) returns (reply: ListReply)
      requires Valid() && Memoised() && NothingReleased()
      modifies this`queries, this`calls
      ensures Valid() && Memoised() && NothingReleased()
      ensures calls == old(calls) + [ListCall(shard, Asking(cursor, now))] && old(queries) == |old(calls)|
      ensures reply == env.list(old(queries), shard, Asking(cursor, now))
    {
      hide Tally, GrantedIn, Judge, Counted, Recorded;
      var query := Query(cursor, None);
      if cursor == HEAD { query := query.(bound := Some(now)); }
      reply := env.list(queries, shard, query);
      Note(ListCall(shard, query));
    }

    /** And counted. */
    method Enlist(shard: nat, ghost x: Listing<Entry>, reply: ListReply)
      requires Summed(shard) && reply == env.list(x.number, shard, Asking(x.from, now))
      modifies this`listings, this`pages, this`examined, this`unreadable, this`due
      ensures Summed(shard) && listings == old(listings) + [x]
    {
      SumsMore(env, now, shard, listings, x);
      hide SumsOf;
      listings := listings + [x];
      match reply {
        case Rows(commands, seen, bad, _) =>
          pages, examined, unreadable, due := pages + 1, examined + seen, unreadable + bad, due + |commands|;
        case _ =>
      }
    }

    lemma {:induction false} AllJustified()
      requires Valid()
      ensures forall i :: 0 <= i < |settled| ==> Justified(env, family, now, calls, held, settled[i])
    {}

    /** The rows of the page just listed. */
    method SettlePage(ghost shard: nat, ghost start: Cursor, ghost x: Listing<Entry>, rows: seq<Entry>)
      returns (ending: Ending)
      requires Valid() && Memoised() && NothingReleased() && Summed(shard) && Called(calls, now, shard, listings)
      requires Within(TrailOf(shard, start), x) && x.answer.Listed? && x.answer.rows == rows && |listings| <= maxPages
      requires RowsOf(listings) == Entries(settled) + rows && RowsOf(listings[..|dealt|]) == Entries(settled)
      modifies this
      ensures Valid() && NothingReleased() && Summed(shard) && truncated == old(truncated) && listings == old(listings)
      ensures ending.Complete? ==>
        Memoised() && Going(shard, start) && NextFrom(TrailOf(shard, start)) == x.answer.next
      ensures !ending.Complete? ==> Accounts(Abs(shard, start), ending, x.from)
    {
      hide Valid, Memoised, NothingReleased, Summed, Faulted, Midway, Within, Toured, RowsOf, Justified, Entries;
      ending := SettleAll(rows);
      AllJustified();
      if !ending.Complete? {
        PageFailed(TrailOf(shard, start), Entries(settled), maxPages, x, Cut, x.from);
      } else {
        PageDealt(TrailOf(shard, start), Entries(settled), x);
        ghost var t := TrailOf(shard, start);
        dealt := dealt + [DealtPage(now, x)];
        assert TrailOf(shard, start) == t.(dealt := t.dealt + [DealtPage(now, x)]);
      }
    }

    /** One page: its rows counted, then settled, then the position moved. */
    method OnePage(shard: nat, ghost start: Cursor, cursor: Cursor) returns (ending: Ending, following: Cursor)
      requires Going(shard, start) && Memoised() && cursor == NextFrom(TrailOf(shard, start))
      requires (listings != [] ==> cursor != HEAD) && |listings| < maxPages
      modifies this
      ensures Valid() && NothingReleased() && Summed(shard) && truncated == old(truncated) &&
        |listings| == |old(listings)| + 1
      ensures ending.Complete? ==> Memoised() && Going(shard, start) && following == NextFrom(TrailOf(shard, start))
      ensures !ending.Complete? ==> Accounts(Abs(shard, start), ending, following)
    {
      hide Valid, Memoised, NothingReleased, Summed, Faulted, Midway, Within, Toured, RowsOf, Justified, Entries,
        NextFrom;
      ghost var t := TrailOf(shard, start);
      var reply := Fetch(shard, cursor);
      ghost var x := Listing(|old(calls)|, cursor, AnswerOf(reply));
      ListedNext(t, Entries(settled), x);
      Enlist(shard, x, reply);
      assert TrailOf(shard, start) == t.(listings := t.listings + [x]);
      AllJustified();
      match reply {
        case CursorRefused =>
          PageFailed(TrailOf(shard, start), Entries(settled), maxPages, x, Forgotten, HEAD);
          return CursorLost, HEAD;
        case ListFault =>
          PageFailed(TrailOf(shard, start), Entries(settled), maxPages, x, Unlisted, cursor);
          return ListFailed, cursor;
        case Rows(commands, _, _, next) =>
          ending := SettlePage(shard, start, x, commands);
          following := if ending.Complete? then next else cursor;
      }
    }

    lemma {:induction false} Opening(shard: nat, start: Cursor)
      requires Valid() && NothingReleased() && Summed(shard) && listings == [] && settled == [] && dealt == []
      ensures Going(shard, start) && NextFrom(TrailOf(shard, start)) == start
    {
      NothingYet(ListerOf(env, now), now, shard, start);
    }

    /** page: at most maxPages pages from the cursor, and the position to keep. */
    method Page(shard: nat, start: Cursor) returns (ending: Ending, next: Cursor)
      requires Valid() && Memoised() && NothingReleased() && Summed(shard) && maxPages >= 1
      requires listings == [] && settled == [] && dealt == [] && !truncated
      modifies this
      ensures Valid() && NothingReleased() && Summed(shard)
      ensures Accounts(Abs(shard, start), ending, next)
      ensures truncated == (ending.Complete? && next != HEAD)
    {
      Opening(shard, start);
      hide Valid, Memoised, NothingReleased, Summed, Going, Accounts, NextFrom;
      next := start;
      for i := 0 to maxPages
        invariant Going(shard, start) && Memoised() && next == NextFrom(TrailOf(shard, start))
        invariant |listings| == i && !truncated && (i > 0 ==> next != HEAD)
      {
        ending, next := OnePage(shard, start, next);
        if !ending.Complete? { return; }
        if next == HEAD {
          AllDealt(shard, start);
          return;
        }
      }
      AllDealt(shard, start);
      Truncate(shard, start, next);
      ending := Complete;
    }

    lemma {:induction false} AllDealt(shard: nat, start: Cursor)
      requires Going(shard, start) && listings != [] && |listings| <= maxPages
      requires NextFrom(TrailOf(shard, start)) == HEAD || |listings| == maxPages
      ensures Accounts(Abs(shard, start), Complete, NextFrom(TrailOf(shard, start)))
      ensures Valid() && NothingReleased() && Summed(shard)
    {
      hide Midway, Toured, Justified, NothingReleased, Summed;
      AllJustified();
      Finished(TrailOf(shard, start), Entries(settled), maxPages);
    }

    method Truncate(ghost shard: nat, ghost start: Cursor, ghost next: Cursor)
      requires Valid() && NothingReleased() && Summed(shard) && Accounts(Abs(shard, start), Complete, next)
      modifies this`truncated
      ensures truncated && Valid() && NothingReleased() && Summed(shard) && Accounts(Abs(shard, start), Complete, next)
    {
      hide Valid, NothingReleased, Summed, Accounts;
      ghost var a := Abs(shard, start);
      truncated := true;
      assert Abs(shard, start) == a;
    }

    lemma {:induction false} NothingGiven()
      requires NothingReleased()
      ensures Given({}) && released + releaseFailures == 0
    {}

    lemma {:induction false} ClaimsHeld()
      requires Valid()
      ensures claimed == |Taken(held)|
    {}

    /** Each of these sessions was released once, and no other. */
    ghost predicate Given(gone: set<Session>) reads this`calls {
      forall s :: Tally(calls, Release(s)) == (if s in gone then 1 else 0)
    }

    method ReleaseOne(session: Session, ghost gone: set<Session>)
      requires Valid() && Given(gone) && session !in gone
      modifies this`queries, this`calls, this`released, this`releaseFailures
      ensures Valid() && Given(gone + {session}) && calls == old(calls) + [Release(session)]
      ensures released + releaseFailures == old(released + releaseFailures) + 1
      ensures released == old(released) + if env.release(old(queries), session) then 1 else 0
    {
      hide Tally, GrantedIn, Judge, Counted, Recorded;
      var given := env.release(queries, session);
      Note(Release(session));
      if given { released := released + 1; } else { releaseFailures := releaseFailures + 1; }
    }

    /** One session of the memo: released if this pass took it. */
    method ReleaseNext(session: Session, ghost todo: set<Session>)
      requires Valid() && session in todo && todo <= held.Keys && Given(Taken(held) - todo)
      requires released + releaseFailures == |Taken(held) - todo|
      modifies this`queries, this`calls, this`released, this`releaseFailures
      ensures Valid() && Given(Taken(held) - (todo - {session})) && old(calls) <= calls
      ensures released + releaseFailures == |Taken(held) - (todo - {session})|
    {
      hide Valid, Given, Taken;
      TakenStep(held, todo, session);
      if held[session] { ReleaseOne(session, Taken(held) - todo); }
    }

    /** claimant.release: gives back exactly the claims this pass took, in any order. */
    method ReleaseAll()
      requires Valid() && NothingReleased()
      modifies this`queries, this`calls, this`released, this`releaseFailures
      ensures Valid() && claimed == released + releaseFailures && Given(Taken(held)) && old(calls) <= calls
    {
      hide Valid, Given, Taken, NothingReleased;
      NothingGiven();
      var todo := held.Keys;
      ghost var before := calls;
      NoneTaken(held);
      while todo != {}
        invariant before <= calls && Valid() && Given(Taken(held) - todo) && todo <= held.Keys
        invariant released + releaseFailures == |Taken(held) - todo|
        decreases |todo|
      {
        var session :| session in todo;
        ReleaseNext(session, todo);
        todo := todo - {session};
      }
      assert Taken(held) - todo == Taken(held);
      ClaimsHeld();
    }
  }

  lemma NoneTaken(held: map<Session, bool>)
    ensures Taken(held) - held.Keys == {}
  {}

  lemma TakenStep(held: map<Session, bool>, todo: set<Session>, session: Session)
    requires session in todo && todo <= held.Keys
    ensures session !in Taken(held) - todo
    ensures Taken(held) - (todo - {session}) == (Taken(held) - todo) + if held[session] then {session} else {}
    ensures |Taken(held) - (todo - {session})| == |Taken(held) - todo| + if held[session] then 1 else 0
  {
    assert Taken(held) - (todo - {session}) == (Taken(held) - todo) + if held[session] then {session} else {};
  }

  // --------------------------------------------------------------- whole sweeps

  lemma {:induction false} AccountsStill(a: Account, more: seq<Call>, ending: Ending, kept: Cursor)
    requires Accounts(a, ending, kept) && a.calls <= more
    ensures Accounts(a.(calls := more), ending, kept)
  {
    hide Toured;
    forall i | 0 <= i < |a.settled| ensures Justified(a.env, a.family, a.now, more, a.held, a.settled[i]) {
      JustifiedStill(a.env, a.family, a.now, a.calls, a.held, more, a.held, a.settled[i]);
    }
    hide Justified, Entries, RowsOf;
    if EndOf(ending).Cut? {
      CutShort(a.trail, Entries(a.settled), a.maxPages, kept);
      FaultedStill(a.env, a.family, a.now, a.calls, more, RowsOf(a.trail.listings)[|a.settled|], ending);
    }
  }

  lemma CutShort(t: Trail<Entry>, done: seq<Entry>, maxPages: nat, kept: Cursor)
    requires Toured(t, done, maxPages, Cut, kept)
    ensures |done| < |RowsOf(t.listings)|
  {}

  lemma FaultedStill(env: Env, family: Family, now: Instant, calls: seq<Call>, more: seq<Call>, entry: Entry,
                     ending: Ending)
    requires Faulted(env, family, now, calls, entry, ending) && calls <= more
    ensures Faulted(env, family, now, more, entry, ending)
  {
    match ending
    case ClaimFailed(s) =>
      var n :| 0 <= n < |calls| && calls[n] == Acquire(s) && env.acquire(n, s).ClaimFault?;
      assert more[n] == Acquire(s);
    case WriteFailed(e) =>
      var n :| 0 <= n < |calls| && calls[n] == RejectCall(e) && IsFault(family, env.reject(n, e));
      assert more[n] == RejectCall(e);
    case _ =>
  }

  /** What a whole pass is held to besides its account. */
  ghost predicate Balanced(pass: Pass)
    reads pass
  {
    && pass.queries == |pass.calls| && pass.dispositions == CountsOf(pass.settled)
    && pass.claimed == pass.released + pass.releaseFailures
    && pass.rejected == Count(pass.dispositions, RejectedNow)
    && (forall s :: Tally(pass.calls, Acquire(s)) <= 2)
    && pass.Given(Taken(pass.held)) && pass.Licensed() && pass.Vouched()
  }

  /** Every due row has its disposition, except exactly where the store failed a row. */
  ghost predicate Accounted(pass: Pass, ending: Ending)
    reads pass
  {
    && Total(pass.dispositions) <= pass.due
    && (Total(pass.dispositions) == pass.due <==> !ending.ClaimFailed? && !ending.WriteFailed?)
  }

  /** The page loop, then the releases. */
  method PageAndRelease(pass: Pass, shard: nat, start: Cursor) returns (ending: Ending, next: Cursor)
    requires pass.Valid() && pass.Memoised() && pass.NothingReleased() && pass.Summed(shard) && pass.maxPages >= 1
    requires pass.listings == [] && pass.settled == [] && pass.dealt == [] && !pass.truncated
    modifies pass
    ensures Balanced(pass) && pass.Summed(shard) && Accounts(pass.Abs(shard, start), ending, next)
    ensures pass.truncated == (ending.Complete? && next != HEAD) && Accounted(pass, ending)
  {
    hide Accounts;
    ending, next := pass.Page(shard, start);
    ghost var a := pass.Abs(shard, start);
    pass.ReleaseAll();
    AccountsStill(a, pass.calls, ending, next);
    assert pass.Abs(shard, start) == a.(calls := pass.calls);
    EveryRowCounted(pass.Abs(shard, start), ending, next);
  }

  /** DispositionReconciler.Sweep, after authorization. */
  method SweepDispositions(rotor: AdmissionRotor, shards: int, env: Env, now: Instant, maxPages: nat)
    returns (pass: Pass?, ending: Ending, kept: Cursor)
    requires maxPages >= 1
    modifies rotor
    ensures shards < MIN_CONTROL_SHARDS ==> pass == null && rotor.Abs() == old(rotor.Abs())
    ensures shards >= MIN_CONTROL_SHARDS ==>
      && pass != null && fresh(pass) && Balanced(pass) && Accounted(pass, ending)
      && pass.env == env && pass.family == Dispositions && pass.now == now && pass.maxPages == maxPages
      && var choice := Begin(old(rotor.Abs()), shards);
      && Accounts(pass.Abs(choice.shard, choice.cursor), ending, kept) && pass.Summed(choice.shard)
      && pass.truncated == (ending.Complete? && kept != HEAD)
      && rotor.Abs() == AfterPass(old(rotor.Abs()), Rotor.Pass(shards, kept))
  {
    hide Accounts, Balanced, Accounted;
    ending, kept := Complete, HEAD;
    var choice := rotor.BeginPass(shards);
    if choice.Refused? { return null, ending, kept; }
    pass := new Pass(env, Dispositions, now, maxPages);
    ending, kept := PageAndRelease(pass, choice.shard, choice.cursor);
    rotor.Commit(choice.shard, kept);
  }

  /** Reconciler.Sweep: the rotor turns, every pass reads from the head, no position is kept. */
  method SweepLegacy(rotor: AdmissionRotor, shards: int, env: Env, now: Instant, maxPages: nat)
    returns (pass: Pass?, ending: Ending)
    requires maxPages >= 1
    modifies rotor`next
    ensures shards < MIN_CONTROL_SHARDS ==> pass == null && rotor.next == old(rotor.next)
    ensures shards >= MIN_CONTROL_SHARDS ==>
      && pass != null && fresh(pass) && Balanced(pass) && Accounted(pass, ending)
      && pass.env == env && pass.family == Legacy && pass.now == now && pass.maxPages == maxPages
      && pass.Summed(ChosenShard(old(rotor.Abs()), shards))
      && (exists reached :: Accounts(pass.Abs(ChosenShard(old(rotor.Abs()), shards), HEAD), ending, reached)
                            && pass.truncated == (ending.Complete? && reached != HEAD))
      && rotor.next == AfterBegin(old(rotor.Abs()), shards).next
  {
    hide Accounts, Balanced, Accounted;
    ending := Complete;
    var turned, shard := rotor.Rotate(shards);
    if !turned { return null, ending; }
    pass := new Pass(env, Legacy, now, maxPages);
    var reached;
    ending, reached := PageAndRelease(pass, shard, HEAD);
  }

  // ---------------------------------------------------------- runs of passes

  /** One pass of a sweeper: the count it saw and, unless that refused it, what it did. */
  datatype Done = Done(shards: int, account: Account, ending: Ending, kept: Cursor)

  function TripOf(d: Done): Trip<Entry> {
    Trip(d.shards, d.account.trail, Entries(d.account.settled), d.account.maxPages, EndOf(d.ending), d.kept)
  }

  function Trips(run: seq<Done>): (r: seq<Trip<Entry>>)
    ensures |r| == |run| && forall i :: 0 <= i < |run| ==> r[i] == TripOf(run[i])
  {
    if run == [] then [] else Trips(run[..|run| - 1]) + [TripOf(run[|run| - 1])]
  }

  /** Each pass that was not refused has its account. */
  ghost predicate Told(run: seq<Done>) {
    forall j :: 0 <= j < |run| && run[j].shards >= MIN_CONTROL_SHARDS ==>
      Accounts(run[j].account, run[j].ending, run[j].kept)
  }

  /** Each pass is one that SweepDispositions may have made from where the rotor then stood. */
  ghost predicate Swept(start: Position, run: seq<Done>) { Made(start, Trips(run)) && Told(run) }

  /**
   No due row is skipped. Over any run of passes, in a stretch that began at the
   shard's head and was neither refused nor cut off by a shrinking count, faults and
   all: every row that stays in the view until it is listed, and that the kept position
   is past, has been settled, by its own judgement, a deferral or the answer of its one
   write.
   */
  lemma {:induction false} EveryDueRowSettled(start: Position, run: seq<Done>, shard: nat, a: nat, b: nat,
                                              o: Order<Entry>, views: seq<View>, r: Rank)
    returns (j: nat, i: nat)
    requires a <= b <= |run| && Swept(start, run) && Unbroken(start, Tours(Trips(run)), shard, a, b)
    requires |views| == |PagesOf(start, Tours(Trips(run)), shard, a, b)|
    requires OneCycle(o.meaning, Reads(o, PagesOf(start, Tours(Trips(run)), shard, a, b), views))
    requires Stays(Reads(o, PagesOf(start, Tours(Trips(run)), shard, a, b), views), r)
    requires r <= Reached(o.meaning, Reads(o, PagesOf(start, Tours(Trips(run)), shard, a, b), views))
    ensures a <= j < b && Over(start, Tours(Trips(run)), j, shard) && SettledAt(run, o.rank, r, j, i)
  {
    hide At, Passes, Unbroken, PagesOf, OneCycle, Stays, Reached, Made, Accounts;
    j, i := EveryRowDone(start, Trips(run), shard, a, b, o, views, r);
    OverRan(start, Trips(run), shard, j);
    DoneSettled(run, o.rank, r, j, i);
  }

  /** Pass j recorded a disposition, one the store's answers justify, for a row of this rank. */
  ghost predicate SettledAt(run: seq<Done>, rank: Entry -> Rank, r: Rank, j: nat, i: nat) {
    && j < |run| && i < |run[j].account.settled| && rank(run[j].account.settled[i].entry) == r
    && var d := run[j].account; Justified(d.env, d.family, d.now, d.calls, d.held, d.settled[i])
  }

  lemma {:induction false} DoneSettled(run: seq<Done>, rank: Entry -> Rank, r: Rank, j: nat, i: nat)
    requires j < |run| && Accounts(run[j].account, run[j].ending, run[j].kept)
    requires i < |TripOf(run[j]).done| && rank(TripOf(run[j]).done[i]) == r
    ensures SettledAt(run, rank, r, j, i)
  {
    hide Toured, Justified;
  }

  /**
   No due row waits for ever. Of whole passes at a constant count, over a store that
   fills its pages, one is back at the shard's head within as many rounds as the rows
   in view can fill and one more; by then every row that was due when the stretch began,
   and that stays in the view until it is listed, is settled.
   */
  lemma {:induction false} EveryDueRowSettledInTime(start: Position, run: seq<Done>, shard: nat, a: nat, b: nat, n: nat,
                                                    maxPages: nat, limit: nat, o: Order<Entry>, views: seq<View>,
                                                    all: set<Rank>)
    returns (c: nat)
    requires Swept(start, run) && LongEnough(start, Trips(run), shard, a, b, n, maxPages, limit, o, views, all)
    ensures a < c <= b && FirstBack(start, Tours(Trips(run)), shard, a, c)
    ensures forall r :: DueInView(o, PagesOf(start, Tours(Trips(run)), shard, a, b), views, r) ==>
      SettledBetween(run, a, c, o.rank, r)
  {
    hide Made, LongEnough, FirstBack, DueInView, PagesOf, Told, DoneBy, SettledBetween, Over;
    LongRun(start, Trips(run), shard, a, b, n, maxPages, limit, o, views, all);
    c := EveryRowInTime(start, Trips(run), shard, a, b, n, maxPages, limit, o, views, all);
    forall r | DueInView(o, PagesOf(start, Tours(Trips(run)), shard, a, b), views, r)
      ensures SettledBetween(run, a, c, o.rank, r)
    {
      DoneThenSettled(start, run, shard, a, c, o.rank, r);
    }
  }

  /** A pass from a up to c settled a row of this rank. */
  ghost predicate SettledBetween(run: seq<Done>, a: nat, c: nat, rank: Entry -> Rank, r: Rank) {
    exists j: nat, i: nat :: a <= j < c && SettledAt(run, rank, r, j, i)
  }

  lemma {:induction false} DoneThenSettled(start: Position, run: seq<Done>, shard: nat, a: nat, c: nat,
                                           rank: Entry -> Rank, r: Rank)
    requires a <= c <= |run| && Swept(start, run) && DoneBy(start, Trips(run), shard, a, c, rank, r)
    ensures SettledBetween(run, a, c, rank, r)
  {
    hide Made, Over, Accounts, SettledAt;
    var j: nat, i: nat :| DoneAt(start, Trips(run), shard, a, c, rank, r, j, i);
    OverRan(start, Trips(run), shard, j);
    DoneSettled(run, rank, r, j, i);
  }

  /** One turn of the sweeper: the count and the clock it reads, and what the store answers it. */
  datatype Turn = Turn(shards: int, env: Env, now: Instant)

  /** The pass is the one this turn made. */
  ghost predicate MadeIn(turn: Turn, maxPages: nat, d: Done) {
    && d.shards == turn.shards && d.account.env == turn.env && d.account.now == turn.now
    && d.account.maxPages == maxPages && d.account.family == Dispositions
    && (d.shards >= MIN_CONTROL_SHARDS ==> Accounts(d.account, d.ending, d.kept))
  }

  function Untouched(turn: Turn, maxPages: nat): Account {
    Account(turn.env, Dispositions, turn.now, maxPages,
            Trail(ListerOf(turn.env, turn.now), turn.now, 0, HEAD, [], []), [], map[], [])
  }

  lemma {:induction false} PassBegins(at: Position, d: Done)
    requires d.shards >= MIN_CONTROL_SHARDS ==>
      && Accounts(d.account, d.ending, d.kept) && d.account.trail.shard == Begin(at, d.shards).shard
      && d.account.trail.start == Begin(at, d.shards).cursor
    ensures Begins(at, TripOf(d))
  {
    hide Toured;
  }

  /** runOnce: whatever the pass ends in, the next one is made from where it left the rotor. */
  method OneTurn(rotor: AdmissionRotor, turn: Turn, maxPages: nat) returns (ghost d: Done)
    requires maxPages >= 1
    modifies rotor
    ensures MadeIn(turn, maxPages, d) && Begins(old(rotor.Abs()), TripOf(d))
    ensures rotor.Abs() == AfterPass(old(rotor.Abs()), Rotor.Pass(d.shards, d.kept))
  {
    hide Accounts, Balanced, Accounted, Begins, Begin, AfterPass, TripOf;
    ghost var at := rotor.Abs();
    var pass, ending, kept := SweepDispositions(rotor, turn.shards, turn.env, turn.now, maxPages);
    d := Done(turn.shards, Untouched(turn, maxPages), ending, kept);
    if pass != null {
      ghost var choice := Begin(at, turn.shards);
      ChosenOne(at, turn.shards);
      d := d.(account := pass.Abs(choice.shard, choice.cursor));
    } else {
      RefusedOne(at, turn.shards, kept);
    }
    PassBegins(at, d);
  }

  lemma {:induction false} RunOfOneMore(start: Position, run: seq<Done>, at: Position, d: Done)
    requires RunsTo(start, Trips(run), at) && Begins(at, TripOf(d))
    ensures RunsTo(start, Trips(run + [d]), AfterPass(at, Rotor.Pass(d.shards, d.kept)))
  {
    hide RunsTo, Begins, AfterPass;
    assert Trips(run + [d]) == Trips(run) + [TripOf(d)];
    RunMore(start, Trips(run), at, TripOf(d));
  }

  /** runSweep: turn after turn, whatever each pass ends in. */
  method SweepOn(rotor: AdmissionRotor, turns: seq<Turn>, maxPages: nat) returns (ghost run: seq<Done>)
    requires maxPages >= 1
    modifies rotor
    ensures Swept(old(rotor.Abs()), run) && RunsTo(old(rotor.Abs()), Trips(run), rotor.Abs())
    ensures |run| == |turns| && forall i :: 0 <= i < |turns| ==> MadeIn(turns[i], maxPages, run[i])
  {
    hide RunsTo, AfterPass, Begins, TripOf, Accounts;
    run := [];
    ghost var start := rotor.Abs();
    RunBegins<Entry>(start);
    for i := 0 to |turns|
      invariant RunsTo(start, Trips(run), rotor.Abs()) && |run| == i
      invariant forall j :: 0 <= j < i ==> MadeIn(turns[j], maxPages, run[j])
    {
      ghost var at := rotor.Abs();
      ghost var d := OneTurn(rotor, turns[i], maxPages);
      RunOfOneMore(start, run, at, d);
      run := run + [d];
    }
    RunMade(start, Trips(run), rotor.Abs());
  }
}
