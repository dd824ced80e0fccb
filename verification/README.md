# Factory control plane: a verified model

Factory is a multi-replica front end for agent sessions. Any number of replicas share one store, hold no lock on it, and
race Hosts that claim and apply the same commands. This project models the code that has to be right under that racing,
and proves what it promises over every run.

* **Placement.** Short reconciliation claims and the names they are taken under (`Holders`, `AttachExclusion`), desired
  state written by compare-and-swap under a derived idempotency key (`Desired`, `DesiredRace`), the decision where a
  session runs (`Policy`), the order in which a placement may talk to the catalog, the registry and the Hosts
  (`Reconcile`, `PooledProtocol`, `Pooled`, `Dedicated`, `HostAnswers`), the same conversations written down as scripts
  without those monitors (`ReconcileScript`, `PooledScript`, `DedicatedScript`), binding and waking (`Delivery`), and
  where the epoch of a bind comes from (`Provenance`).
* **Sweeps.** The shard rotor that is written three times (`Rotor`), the cursor chains that leave no row behind
  (`Paging`), what any run of bounded passes leaves behind (`SweepRuns`, `Trails`), the deadline and gate sweeps with
  their accounting (`DeadlineSweep`, `GateSweep`), the settlement race with Hosts (`Settlement`), the pending sweep, its
  grouping and exactly what it misses (`PendingWork`, `PendingSweep`, `PendingRuns`), and the admission fast path
  (`AdmissionFastPath`).
* **In-process concurrency.** The coalescing admission queue (`AdmissionQueue`), the admission fence (`AdmissionFence`),
  Host wakes (`HostWakes`) and Start, Serve, Quiesce and Stop (`Lifecycle`).
* **Bytes and budgets.** Length-prefixed framings (`Framing`), journal cursors (`JournalCursor`), verified object pages
  (`Objects`) and the shared cleanup budget (`Directory`). `Common` holds the option and reply
  types and the one argument that a determined run is unique.

How the model is built:

* What another process, the store, a Host or a clock answers is a function of the number of calls already made, and
  every theorem holds for all such functions. Interleavings are runs of `State`, `Action` and `Next`; each has an inductive
  invariant `Inv`, its preservation `InvStep`, and `InvAlong` for every reachable state.
* Protocols inside one call are monitors: a function folds the events of the call, in order, into a phase, and an event
  that is not permitted leads to `Bad`. The methods are proved never to reach `Bad` and to hear, at every point, what
  the world answers there (`Told`); `OneRun` says that this leaves nothing open, and `EndsExactly` that it is exactly
  what the script says, ending and all. The theorems are about every sequence that is not `Bad`.
* SHA-256 is idealised. A key's digest is its preimage; where only some inputs matter, the absence of a collision
  between them is a named hypothesis. There is one monotone clock.
* Of SessionStore and the Hosts only what the code states it relies on is assumed: the key is compared before the
  revision, the current holder's acquire extends its claim, nobody else can release it, the due view is deadline ordered
  and a continuation carries its own bound, and a Host lease is exclusive. A page may be shorter than its limit. Only the
  time bounds (`Paging.PassesPerCycle` and the results named `InTime`) also assume, as `Paging.Filled`, that a page that
  stops before the end of the view has passed at least the limit's worth of rows.

Where the source does not do what its prose suggests, the code is followed and the difference is proved:

* A repeated `Stop` returns nil after a teardown that failed, so a nil from it is trustworthy exactly when the first
  `Stop` returned nil (`Lifecycle.RepeatedStopExactly`).
* A pending sweep keeps its position page by page but places nothing before its last page is read. So a fault on a later
  page, or a context that ends while sessions are placed, leaves rows behind the kept position that were never handed
  over; nothing else does (`PendingRuns.MissesExactly`).
* The wake counters of one bind leave out a command whose referenced body the Host was not seen to take
  (`Delivery.CountersAccount`).
* `unwrapJournalCursor` accepts texts that `wrapJournalCursor` never writes, because the base64 decoder is not strict
  (`JournalCursor.CanonicalText`).
* Two attaches of one session can be outstanding together exactly when a pass may outlive its claim or a worker that
  attaches shares its holder with another worker, a sweep included (`AttachExclusion.ExclusiveExactly`).

## Model

| member | source | states |
|---|---|---|
| `Holders.SuffixNamesRole` | compose.go:246-253 | Distinct worker roles have distinct holder suffixes. |
| `Holders.LastSlashSplits` | compose.go:825-831 | The last slash of a scoped holder separates the replica id from the role, so neither half can be mistaken. |
| `Holders.SameHolderExactly` | compose.go:808-831 | Exactly which pairs of workers claim under one name: same role and same id, once a long id is replaced by its digest, or a plain id that is another worker's id and suffix. |
| `Holders.DistinctExactlyWhenSeparated` | compose.go:808-831 | A fleet's holders are pairwise distinct if and only if no replica's id is another's or some worker's scoped holder, and no two workers of one scoped role scope the same id. |
| `Holders.ApartExactlyWhenSeparated` | compose.go:808-831 | The same, for the workers that attach against all others: two sweeps may share a holder. |
| `Holders.PlainIdsSeparate` | compose.go:808-831 | Ids that are each replica's own, without a slash and short enough for every suffix are separated, whatever the digest. |
| `AttachExclusion.AcquireKeeps` | internal/placement/reconciler.go:467-480 | A granted acquire takes no unlapsed claim of another worker that attaches, so such a claim stays its worker's own until its horizon. |
| `AttachExclusion.ReleaseKeeps` | internal/placement/reconciler.go:374-383 | A release, lost or not, gives back only the releasing holder's claim. |
| `AttachExclusion.SweepKeeps` | internal/admission/reconciler.go:531-612 | A disposition or command sweep, which claims and gives back without ever attaching, extends and gives back no attaching worker's claim. |
| `AttachExclusion.InvAlong` | internal/placement/reconciler.go:350-383 | In every run of any fleet, sweeps included and claims lapsing at any time, the claim and deadline invariant holds. |
| `AttachExclusion.Validate` | options.go:425-468 | The limits are accepted exactly when every check passes, the pass bound being ten seconds where none is set. |
| `AttachExclusion.SoundIsExclusive` | serve.go:448-453 | With a pass shorter than its claim, and no attaching worker's holder shared with any other worker, no two attaches of one session are ever outstanding. |
| `AttachExclusion.AcceptedLimitsAreExclusive` | options.go:425-468 | Every configuration the limits accept, over separated replica ids, has that exclusion. |
| `AttachExclusion.PlainDeploymentIsExclusive` | options.go:425-468 | And so has every one over ids that a deployer can check one by one. |
| `AttachExclusion.LapseOverlaps` | options.go:457-459 | If a pass may outlive its claim, any two attaching workers can overlap. |
| `AttachExclusion.SharedOverlaps` | compose.go:246-253 | Two attaching workers that share a holder can overlap. |
| `AttachExclusion.SweepOverlaps` | compose.go:183-189 | If a sweep shares an attaching worker's holder, it extends the claim mid-attach and gives it back, and a third worker attaches beside the first. |
| `AttachExclusion.ExclusiveExactly` | serve.go:311-329 | With at least two attaching workers: exclusion in every run if and only if the pass bound is below the claim's and no attaching worker shares its holder with another worker, in terms of their ids. |
| `AttachExclusion.LimitsExactly` | options.go:457-468 | The last of those checks is the one exclusion needs: over separated ids, exclusion in every run if and only if the pass bound in force is shorter than the claim. |
| `Desired.DesiredKeyNames` | internal/placement/reconciler.go:721-741 | Two desired-state keys are equal if and only if session and intent are. |
| `Desired.ReviveKeyNames` | internal/placement/reconciler.go:676-686 | Two revive keys are equal if and only if session, intent and released generation are. |
| `Desired.KeysApart` | internal/placement/reconciler.go:676-741 | No desired-state key is a revive key. |
| `Desired.LoopFulfils` | internal/placement/reconciler.go:531-630 | Over any store: a record that already does what was asked is returned unwritten; success takes at most two writes, none only then; and if the store answers a write with what was written, success has done what was asked. |
| `Desired.QuietWrite` | internal/placement/reconciler.go:531-630 | With nobody racing a write of what was just read goes through: the replay of its own key, or the next version with this key and intent. |
| `Desired.QuietAfterRace` | internal/placement/reconciler.go:531-630 | A call that begins with a record since replaced: what it comes to in every case, when nobody writes any more. |
| `Desired.EnsureDesired` | internal/placement/reconciler.go:531-566 | An intent already carried costs no write, a success at most two, and over a store that answers a write with what was written it carries the intent. With nobody racing, any other entry is replaced by its successor in one write: next revision, next generation, this intent under its key. |
| `Desired.ReviveReleased` | internal/placement/reconciler.go:586-630 | Only a release is written over; one without a launch template fails; and over a store that answers a write with what was written a success is not a release. With nobody racing, a release is replaced by its successor in one write, carrying its launch template. |
| `DesiredRace.RevisionNames` | internal/placement/reconciler.go:512-530 | A compare-and-swap that passes acted on the record it had read. |
| `DesiredRace.InvAlong` | internal/placement/reconciler.go:531-630 | Over all interleavings of ensurers, revivers and other writers, with lost answers: a current key implies its content, revisions rise, generations never fall, and one generation is one desire. |
| `DesiredRace.SuccessCarriesIntent` | internal/placement/reconciler.go:531-566 | Every ensure that succeeds returns a version carrying its intent; every revive that succeeds returns one that is not released. |
| `DesiredRace.AppliedOnce` | internal/placement/reconciler.go:531-566 | Any number of replicas ensuring one intent raise the generation by at most one. |
| `DesiredRace.RevivesOnlyReleases` | internal/placement/reconciler.go:586-648 | A revive that changes the record replaces a release it had read, with the creation's template, one generation up. |
| `DesiredRace.GenerationsGrow` | internal/placement/reconciler.go:586-630 | The record's history only grows, and its generation never falls. |
| `DesiredRace.RevivedOnce` | internal/placement/reconciler.go:586-630 | No released generation is revived twice. |
| `DesiredRace.RacingReviverAbsorbed` | internal/placement/reconciler.go:586-630 | A second reviver of one release writes nothing and succeeds with the current record. |
| `DesiredRace.EndsAsMethod` | internal/placement/reconciler.go:531-630 | Every finished process of every run ended as EnsureDesired or ReviveReleased does, given the store's answers to the very calls the process made, each with its expected revision, key and intent, and no answer to any other call. |
| `DesiredRace.MethodFulfils` | internal/placement/reconciler.go:531-630 | So in every run those methods, when they succeed, return a version of the record that carries the intent, or is not a release. |
| `DesiredRace.NeverStuck` | internal/placement/reconciler.go:531-630 | A process that has not ended can always take its next read or turn. |
| `Policy.SeatsMeaning` | internal/placement/policy.go:196-202 | A candidate is a seat exactly when it is on the page, serves the record's agent, runtime and placement to any tenant, accepts sessions and has room. |
| `Policy.SeatsInOrder` | internal/placement/policy.go:196-202 | Every report of the page takes its own place among the seats, or none. |
| `Policy.Decide` | internal/placement/policy.go:141-168 | The owner is reused exactly when it is of this session and launch, resident, accepting and unexpired; otherwise dedicated, the first admissible candidate or no capacity, as the placement says. |
| `Policy.Backoff` | internal/placement/attach.go:381-390 | The wait is the base doubled n-1 times, capped at five seconds, with every intermediate within a 64-bit duration. |
| `Policy.AttachKeyNames` | internal/placement/attach.go:992-1001 | Two attach keys are equal if and only if session, launch, mode and desired generation are; the Host is not named. |
| `Policy.BindKeyNames` | internal/placement/attach.go:1005-1022 | Two bind keys are equal if and only if session, Host incarnation and lease epoch are. |
| `Policy.AttachAndBindKeysApart` | internal/placement/attach.go:992-1022 | No attach's key is a bind's. |
| `HostAnswers.ClassifyCapability` | internal/placement/attach.go:669-682 | Which answer each reply is, with an unaddressable error before an unreachable one, and an error of neither kind an abort. |
| `HostAnswers.AttachAnswer` | internal/placement/attach.go:786-810 | Which of the eight answers each reply is, each exactly when; an error of several kinds has the first in the source's order, and one of no known kind is ambiguous. |
| `HostAnswers.DemandsMeaning` | internal/placement/attach.go:518-571 | Each capability is demanded exactly when commands call for it, once, gate responses before references before principals. |
| `PooledProtocol.PrefixPermitted` | internal/placement/attach.go:464-616 | Every prefix of a permitted pooled conversation is permitted. |
| `PooledProtocol.NothingAfterDecisiveAnswer` | internal/placement/attach.go:571-604 | Nothing at all follows an accepted or an ambiguous attach. |
| `PooledProtocol.StaleMeansReread` | internal/placement/attach.go:488-503 | After an epoch mismatch come the wait and a new registry read before any other Host is asked. |
| `PooledProtocol.ListedOnlyUnowned` | internal/placement/attach.go:495-510 | Hosts are listed only right after the registry named no reusable owner. |
| `PooledProtocol.AttachVouched` | internal/placement/attach.go:518-571 | Each attach comes directly after every demanded capability was confirmed for that candidate in its own turn; what is demanded is what the commands call for. |
| `PooledProtocol.OnlyAdmissible` | internal/placement/attach.go:513-517 | Every candidate still to be tried, or being tried, is admissible for the record. |
| `PooledProtocol.AttachAdmissible` | internal/placement/attach.go:968-981 | Every attach goes to an admissible candidate and names its Host and incarnation, with the session, agent and runtime of the record first read, and asks to create exactly when that record has no journal progress and no checkpoint. |
| `PooledProtocol.RoundsBounded` | internal/placement/attach.go:486-615 | A placement lists Hosts at most as often as it has attempts. |
| `PooledProtocol.EveryCandidateListedOnce` | internal/placement/attach.go:513-606 | Counted for each Host, over all rounds: the times it was taken up are the times it stands on the six lists together, and the one still in hand or whose answer ended the call. |
| `Pooled.Inquire` | internal/placement/attach.go:643-682 | The world's answer at this point moves on to the next question, to the next candidate with the right list extended, or ends the call. |
| `Pooled.AskToAttach` | internal/placement/attach.go:571-605 | The attach is the protocol's own, and the world's answer to it, of eight kinds, has its one effect on the conversation and the lists. |
| `Pooled.TryCandidate` | internal/placement/attach.go:518-605 | One candidate's whole turn keeps to the protocol and hears only what the world answers. |
| `Pooled.TryPage` | internal/placement/attach.go:512-606 | Without a decisive or stale answer every admissible candidate of the page is tried, in order. |
| `Pooled.Round` | internal/placement/attach.go:495-610 | One round ends the call, for the cause its ending names, or leaves a stale registry. |
| `Pooled.PlacePooled` | internal/placement/attach.go:464-616 | Every run is permitted, hears at each point what the world answers there, ends where its result says and, in an error, for the failed read, failed wait or decisive answer that caused it; its lists are exactly those of the conversation. |
| `Pooled.OneRun` | internal/placement/attach.go:464-616 | A world's answers leave nothing open: there is one such conversation and one such ending. |
| `PooledScript.ScriptExactly` | internal/placement/attach.go:464-616 | The permitted conversations are exactly those in which each event may follow what was heard last: seats in the page's order, questions in theirs, one attach each, waits that double between rounds. |
| `PooledScript.EndsExactly` | internal/placement/attach.go:464-616 | A placement ends so after a conversation if and only if it is scripted, is what the world answered, and the last answer leads to that ending, all five endings. |
| `Pooled.Place` | internal/placement/attach.go:829-843 | A residency held is handed over, bound once if it was attached or has commands to wake, and woken with exact counters; without one nothing is called. |
| `Pooled.BoundResidency` | internal/placement/attach.go:821-843 | The residency bound is the accepted attach's own statement or the owner last read, as the world answered it, never taken from a refusal. |
| `Dedicated.RemembersAlways` | internal/placement/attach.go:147-324 | What a dedicated placement acts on is what it last read, and what it holds is of the wanted generation. |
| `Dedicated.AttachFresh` | internal/placement/attach.go:196-286 | Every dedicated attach is immediately preceded by a catalog read showing the intent, names its generation, and carries that record's session, agent and runtime, to be created exactly when the record has no progress. |
| `Dedicated.OneAttach` | internal/placement/attach.go:285-323 | At most a second registry read follows an attach; there is never another attach. |
| `Dedicated.AttachVouched` | internal/placement/attach.go:204-284 | Every demanded capability was confirmed before the attach. |
| `Dedicated.HoldFenced` | internal/placement/attach.go:161-305 | A residency held, and the bind made from it, carries the intent's generation, for a desire read in this call. |
| `Dedicated.Confirm` | internal/placement/attach.go:204-230 | A capability the world confirms is followed by a re-read; anything else ends the call, for that cause. |
| `Dedicated.AskToAttach` | internal/placement/attach.go:285-323 | What the world's answer to the attach means for a Host built for one session: held only if the Host names itself, this incarnation and the address asked; one more registry read; declined; or an error. |
| `Dedicated.PlaceDedicated` | internal/placement/attach.go:147-324 | Every run is permitted, hears at each point what the world answers there, and ends held, superseded, declined by that Host, waiting or in an error, each exactly for its cause. |
| `Dedicated.OneRun` | internal/placement/attach.go:147-324 | A world's answers leave nothing open: there is one such conversation and one such ending. |
| `DedicatedScript.ScriptExactly` | internal/placement/attach.go:147-324 | The permitted conversations are exactly those with the right event in each place: observation, record, registry, then the observed route or the endpoint, a re-read before each question and before the attach. |
| `DedicatedScript.EndsExactly` | internal/placement/attach.go:147-324 | A placement ends so after a conversation if and only if it is scripted, is what the world answered, and the last answer leads to that ending. |
| `DedicatedScript.AttachedWasAsked` | internal/placement/attach.go:285-296 | A residency counts as attached only as the accepted answer to the attach, the last thing said. |
| `DedicatedScript.AttachedExactly` | internal/placement/attach.go:285-296 | An accepted attach is held if and only if the Host's statement is valid, live, of this session and launch, and names the Host, incarnation and address of the endpoint that was discovered; otherwise it is an error. |
| `Reconcile.WorkOnlyUnderClaim` | internal/placement/reconciler.go:367-458 | Desires are written, workloads ensured and placements begun only under a granted claim. |
| `Reconcile.RoutedUnclaimed` | internal/placement/reconciler.go:350-365 | An owned session is routed to having read only its record and its owner: no claim is taken. |
| `Reconcile.ClaimGivenBack` | internal/placement/reconciler.go:374-383 | A granted claim is given back on every path, as the last thing done. |
| `Reconcile.EnsuresSeenDesire` | internal/placement/reconciler.go:385-450 | A workload is ensured for the generation last read or written under the claim, never for an earlier read, never for a release. |
| `Reconcile.PlacesWhatWasEnsured` | internal/placement/reconciler.go:444-456 | A dedicated placement follows directly on its own generation's workload. |
| `Reconcile.PlaceOwnHost` | internal/placement/reconciler.go:434-456 | A release is reported by name and nothing is ensured for it; without a controller that is said; otherwise the workload of this generation is ensured and its placement's own ending returned. |
| `Reconcile.DeferToHolder` | internal/placement/reconciler.go:490-510 | A replica that lost the claim reads record and owner again, as the world then answers, and names an owner of the current desire or the holder's horizon, and does nothing else. |
| `Reconcile.ReconcileSession` | internal/placement/reconciler.go:350-459 | Every run keeps the claim discipline, hears what the world answers, does under the claim exactly what the world leaves to do, and returns what that came to: a placement's own ending, a decision, a release, or an error with its cause. |
| `Reconcile.Reconcile` | internal/placement/reconciler.go:350-459 | And a residency it woke or placed is handed over: bound and its wake delivered; an owner only named is not. |
| `Reconcile.OneRun` | internal/placement/reconciler.go:350-459 | A world's answers leave nothing open: there is one such conversation and one such result. |
| `ReconcileScript.EndsExactly` | internal/placement/reconciler.go:350-459 | A reconciliation ends so after a conversation if and only if both are the script's, which says from the world's answers alone what is read, claimed, written, ensured and placed, and what it comes to. |
| `ReconcileScript.DemandedMeaning` | internal/placement/attach.go:204-284 | A Host of its own is asked for exactly the capabilities the commands call for. |
| `Delivery.MissingMeaning` | internal/placement/attach.go:882-912 | A command is sent exactly when the Host was seen to have everything it needs, and is otherwise withheld for the first need, in the order they are asked about, that was not confirmed. |
| `Delivery.RaisesMeaning` | internal/placement/attach.go:882-912 | A capability is asked about for a command exactly when the command needs it and everything it needs that comes before was confirmed. |
| `Delivery.FailuresCount` | internal/placement/attach.go:912-919 | The failures counted are the deliveries that failed. |
| `Delivery.EveryCommandOnce` | internal/placement/attach.go:882-919 | Every command of a wake is sent or withheld for exactly one reason. |
| `Delivery.CountersAccount` | internal/placement/attach.go:882-919 | The counters add up to the wake if and only if no command with a referenced body met a Host not seen to take one. |
| `Delivery.ReferenceUncounted` | internal/placement/attach.go:882-891 | A command that no counter counts. |
| `Delivery.Clear` | internal/placement/attach.go:882-912 | One command's questions: only what it needs, in order, none twice, up to the first that fails. |
| `Delivery.DeliverAll` | internal/placement/attach.go:867-919 | Exactly the sendable commands go out, in order; each capability is asked about at most once and only if some command raises it; the counters are exact. |
| `Delivery.BindAndDeliver` | internal/placement/attach.go:858-926 | One bind, to the observation's own address and naming its session, runtime, Host, incarnation and epoch; a failed bind sends nothing; then the wake, and an unbind of that very bind if the route was not there before. |
| `Delivery.HandOver` | internal/placement/attach.go:829-843 | A residency attached is always bound to; one found only with links and a wake. |
| `Provenance.InvAlong` | internal/placement/attach.go:821-843 | Over any number of replicas, sessions and Hosts, every observation a placement or a routing carries was granted. |
| `Provenance.BindsWereGranted` | internal/placement/attach.go:858-866 | Every bind of every run, of a pooled or dedicated placement or the wake of an owned session, names a Host, generation and epoch that were granted for that session. |
| `Provenance.RefusalNeverBound` | internal/placement/attach.go:786-798 | No bind ever pairs a Host that refused with the epoch its refusal named. |
| `Provenance.MismatchNeverBound` | internal/placement/attach.go:786-798 | In the words of the conversation: a Host that answers an attach with another's epoch is never afterwards bound to under that epoch. |
| `Provenance.PooledStepAdmitted` | internal/placement/attach.go:464-616 | Whatever PlacePooled says and hears in an honest world is a step of this system, whatever happened in between. |
| `Provenance.OwnStepAdmitted` | internal/placement/attach.go:147-324 | Likewise for PlaceDedicated. |
| `Provenance.RouteStepAdmitted` | internal/placement/reconciler.go:350-365 | And for ReconcileSession. |
| `Provenance.MethodBindsGranted` | internal/placement/attach.go:821-866 | End to end: in every run, the residency one of those methods ended with was granted to its Host, and is none that a refusal named. |
| `Settlement.SettleableExactly` | internal/admission/dispositions.go:272-292 | A row is settleable if and only if it has no attempt, no live claim, a passed deadline and no ending; and each other judgement stands for exactly one class of rows. |
| `Settlement.RejectsOnlyAbandoned` | internal/admission/dispositions.go:205-253 | At the instant of the write, every rejection is of such a row, whatever the sweep had read. |
| `Settlement.RejectsOnlyOpen` | internal/admission/dispositions.go:205-253 | A rejection replaces exactly the pending or claimed record that was read. |
| `Settlement.TerminalForever` | internal/admission/dispositions.go:205-253 | A settled command never changes again. |
| `Settlement.RejectedNeverApplied` | internal/admission/dispositions.go:134-253 | A rejected command is never claimed, applied or given an attempt afterwards, even if claims exclude nobody. |
| `Settlement.AttemptIsNeverRejected` | internal/admission/dispositions.go:272-292 | Once an attempt exists no sweep rejects the command. |
| `Settlement.RejectedOnce` | internal/admission/dispositions.go:205-253 | However many sweeps race, a command is rejected at most once. |
| `Rotor.AdmissionRotor.Rotate` | internal/admission/reconciler.go:339-354 | The rotor chooses a shard below the current count and moves to the one after it. |
| `Rotor.AdmissionRotor.BeginPass` | internal/admission/reconciler.go:364-377 | The first rotor refines the one abstract rotor when a pass begins. |
| `Rotor.AdmissionRotor.Commit` | internal/admission/reconciler.go:381-392 | And when it keeps a position. |
| `Rotor.PendingRotor.BeginPass` | internal/placement/pending.go:507-525 | The second rotor refines the same. |
| `Rotor.PendingRotor.Commit` | internal/placement/pending.go:529-537 | And when it keeps a position. |
| `Rotor.GateRotor.BeginPass` | internal/reconcile/gates.go:319-348 | The third rotor refines the same. |
| `Rotor.GateRotor.Commit` | internal/reconcile/gates.go:353-361 | And when it keeps a position. |
| `Rotor.DropMissing` | internal/admission/reconciler.go:364-377 | The deletion loop, in any order, keeps exactly the positions of shards that exist. |
| `Rotor.ChosenExists` | internal/admission/reconciler.go:339-354 | Under any changing count, a pass is refused exactly below the minimum and sweeps an existing shard otherwise. |
| `Rotor.FairRound` | internal/admission/reconciler.go:339-392 | From any state, n consecutive passes at a constant count n sweep every shard exactly once. |
| `Rotor.KeptIsLastReached` | internal/admission/reconciler.go:364-392 | The kept position of a shard is the one its last pass reached, unless the count has since dropped to it or below. |
| `Rotor.HandedOutWasReached` | internal/admission/reconciler.go:364-392 | A handed-out position was reached by the last pass over that shard with no count at or below it since. |
| `Paging.DealtExactlyOnce` | internal/admission/dispositions.go:153-196 | A row that stays in the view until a page lists it is dealt with in exactly one page if and only if the cycle has got past it, however short the pages. |
| `Paging.TwoPages` | internal/admission/dispositions.go:153-160 | A view, a bound and continuations that keep the store's contract, pages filled. |
| `Paging.PassesPerCycle` | internal/admission/dispositions.go:161-196 | Over a store that fills its pages, a cycle over n rows takes at most n / (pages per pass * page size) + 1 passes. |
| `SweepRuns.NothingSkipped` | internal/admission/dispositions.go:161-196 | Over any run of passes, counts changing and passes faulting: in a stretch that began at a shard's head and was neither refused nor cut off by a shrinking count, a row that stays in the view until it is listed was on a page dealt with whole if and only if the kept position is past it. |
| `SweepRuns.BackAtHeadInTime` | internal/admission/dispositions.go:161-196 | Over a store that fills its pages, of whole passes at a constant count one keeps the head within k / (pages per pass * page size) + 1 rounds of the k rows in view. |
| `Trails.EveryRowDone` | internal/admission/dispositions.go:161-196 | Over any run of passes that list, deal and stop as these sweeps do, every row that stays in the view until it is listed and that the kept position is past was done in some pass. |
| `Trails.EveryRowInTime` | internal/admission/dispositions.go:161-196 | Over whole passes at a constant count and a store that fills its pages, within that many rounds one pass keeps the head, and by then every row due when the stretch began that stays in view until listed was done. |
| `DeadlineSweep.Pass.Claim` | internal/admission/reconciler.go:531-591 | A session is asked for once a pass, at most twice after a conflict; both answers are remembered. |
| `DeadlineSweep.Pass.RejectRow` | internal/admission/dispositions.go:224-253 | One write, of a settleable row of a session this pass was granted; an answer no table names ends the pass there, and any other is recorded as the outcome it stands for. |
| `DeadlineSweep.Written` | internal/admission/dispositions.go:305-325 | Which answers to a rejection each outcome records, and which are faults, exactly, for either sweep. |
| `DeadlineSweep.Pass.Settle` | internal/admission/dispositions.go:205-253 | One due row has one recorded disposition unless the store faults: its own judgement, deferred, or what the write answered. |
| `DeadlineSweep.Pass.Page` | internal/admission/dispositions.go:161-196 | At least one and at most the configured pages, each the store's own answer from where the last ended; the rows recorded are the rows listed, in order, each as its judgement, the claim or the write answered; it stops early only for a refused cursor, a failed listing, claim or write, and keeps the position that goes with it. |
| `DeadlineSweep.Pass.ReleaseAll` | internal/admission/reconciler.go:598-612 | Claims taken equal releases plus release failures, and a deferred session is never released. |
| `DeadlineSweep.EveryRowCounted` | internal/admission/dispositions.go:134-196 | The dispositions counted never exceed the due rows listed, and equal them if and only if neither a claim nor a write failed. |
| `DeadlineSweep.WriteFailedExactly` | internal/admission/dispositions.go:243-253 | A pass ends on a write only if the store answered that row's rejection with something no table names: a conflict, a claim, an attempt or an ending is none of these. |
| `DeadlineSweep.EndedBy` | internal/admission/dispositions.go:161-196 | Why a pass stopped and the position it keeps, exactly, from the store's last answer. |
| `DeadlineSweep.SumsStep` | internal/admission/dispositions.go:170-180 | What each page adds to each counter. |
| `DeadlineSweep.SweepDispositions` | internal/admission/dispositions.go:134-148 | A whole sweep: that account of its pages, counters that are exactly their sums and together the due rows unless a claim or write failed, claims balanced and writes only under a granted one, and the rotor moved as the abstract one. |
| `DeadlineSweep.SweepOn` | serve.go:432-453 | Pass after pass, whatever each ends in, is a run of sweeps, each from where the rotor then stood, and leaves the rotor where that run does. |
| `DeadlineSweep.EveryDueRowSettled` | internal/admission/dispositions.go:134-253 | Over any run of sweeps, faults and all: every row that stays in the view until it is listed and that the kept position is past has a recorded disposition that the store's answers justify. |
| `DeadlineSweep.EveryDueRowSettledInTime` | internal/admission/dispositions.go:134-253 | Over whole sweeps at a constant count and a store that fills its pages, every row due when the stretch began that stays in view until listed has such a disposition within k / (pages per pass * page size) + 1 rounds of the k rows in view. |
| `DeadlineSweep.LegacySettleable` | internal/admission/reconciler.go:641-654 | Each legacy judgement stands for exactly one class of rows; settleable is without an ending, an application, a live claim or time left. |
| `DeadlineSweep.SweepLegacy` | internal/admission/reconciler.go:307-323 | The same account, sums and totals for the legacy sweep, which reads every pass from the head. |
| `GateSweep.Pass.Retire` | internal/reconcile/gates.go:433-482 | One remnant is asked about once and recorded once, unless the answer has no classification. |
| `GateSweep.ClassifyRetirement` | internal/reconcile/gates.go:491-512 | Which answers to a retirement each outcome records, and which are faults, exactly. |
| `GateSweep.Pass.Page` | internal/reconcile/gates.go:365-418 | At least one and at most the configured pages, each the store's own answer; every listed remnant asked about once, in order, and recorded as the store answered; why it stopped, and the position that goes with it. |
| `GateSweep.EveryRemnantCounted` | internal/reconcile/gates.go:365-482 | The dispositions counted never exceed the remnants listed, and equal them if and only if no retirement failed. |
| `GateSweep.EndedBy` | internal/reconcile/gates.go:365-418 | Why a pass stopped and the position it keeps, exactly, from the store's last answer. |
| `GateSweep.SumsStep` | internal/reconcile/gates.go:365-418 | What each page adds to each counter. |
| `GateSweep.Sweep` | internal/reconcile/gates.go:295-307 | A whole sweep: that account of its pages, nothing asked but what was listed, counters that are exactly their sums and together the remnants unless a retirement failed, and the rotor moved as the abstract one. |
| `GateSweep.SweepOn` | serve.go:432-453 | Pass after pass, whatever each ends in, is a run of sweeps, each from where the rotor then stood, and leaves the rotor where that run does. |
| `GateSweep.EveryRemnantRetired` | internal/reconcile/gates.go:295-482 | Over any run of sweeps, faults and all: every remnant that stays in the view until it is listed and that the kept position is past was put to the store and its answer recorded. |
| `GateSweep.EveryRemnantRetiredInTime` | internal/reconcile/gates.go:295-482 | Over whole sweeps at a constant count and a store that fills its pages, every remnant due when the stretch began that stays in view until listed was so put within k / (pages per pass * page size) + 1 rounds of the k remnants in view. |
| `PendingWork.FoldMeaning` | internal/placement/pending.go:408-440 | Folding rows gives, per capability, exactly the commands it concerns, in order, and the reasons for residency. |
| `PendingWork.GroupMeaning` | internal/placement/pending.go:454-494 | Grouping is one fold per session over that session's own rows, sessions in first-seen order, each once. |
| `PendingWork.AbsorbPage` | internal/placement/pending.go:474-490 | Absorbing page after page is grouping all rows at once: page boundaries do not matter. |
| `PendingWork.FoldHolds` | internal/placement/pending.go:408-440 | A folded request names every pending row with all its capability needs. |
| `PendingWork.FoldExactly` | internal/placement/pending.go:408-440 | A folded request names, for each capability, exactly the commands of the rows that need it, and asks to restore exactly when a row does. |
| `PendingSweep.WalkJoins` | internal/placement/pending.go:454-494 | The pages read join up, end at the kept position, and stop short of the end only when truncated. |
| `PendingSweep.CollectPages` | internal/placement/pending.go:454-494 | The loop reads those pages and groups their rows; a failed read hands back no session. |
| `PendingSweep.TallyAdds` | internal/placement/pending.go:241-288 | Every request put to placement is counted under exactly one outcome. |
| `PendingSweep.TallyStep` | internal/placement/pending.go:241-288 | What each answer adds to each counter. |
| `PendingSweep.PlaceAll` | internal/placement/pending.go:241-288 | One reconciliation per owed session, in order, up to the one at which the context ended; the counters are exactly those of the answers. |
| `PendingSweep.Sweep` | internal/placement/pending.go:226-288 | A whole pass: the rotor moves as the abstract one, nothing is asked after a failed read, and otherwise exactly what is owed until the context ends, each request holding just what the rows read of its session need. |
| `PendingSweep.EveryRowHandedOver` | internal/placement/pending.go:226-288 | What a pass owes covers every row it read that gives its session a reason to be resident, with all it needs. |
| `PendingSweep.OwedExactly` | internal/placement/pending.go:226-288 | A pass owes one request for every session with a row that needs it resident, and none for any other; each asks to restore exactly when a live pending row does, and names a command under a capability exactly when a row needs it. |
| `PendingSweep.OwedHolds` | internal/placement/pending.go:226-288 | And whatever is asked for a row's session names all that the row needs. |
| `PendingRuns.ReadsExactly` | internal/placement/pending.go:454-494 | A pass reads page k if and only if its bound allows it and the store's answer to every page before led on. |
| `PendingRuns.EndsExactly` | internal/placement/pending.go:454-494 | A read ends well if and only if the store answers every page that is read with rows, and in a fault if and only if it answers one with a fault. |
| `PendingRuns.MissesExactly` | internal/placement/pending.go:226-288 | Over every store and placer, and by their answers alone: a row with a reason to be resident lies behind the kept position and is in no request if and only if a page after one that lists it faults, or every page is answered and placement answers that the context has ended to a request at or before which none is for the row's session. |
| `PendingRuns.SweepOn` | serve.go:432-453 | Pass after pass, whatever each ends in, is a run of the sweep over the shards and positions the rotor hands out, and asks placement for exactly what each pass owes. |
| `PendingRuns.EveryRowPlaced` | internal/placement/pending.go:226-288 | Over any run of passes whose passes over the shard were fault-free, every row that stays in the view until it is listed and that the kept position is past was read, and handed to placement if it gave its session a reason to be resident. |
| `PendingRuns.EveryRowPlacedInTime` | internal/placement/pending.go:226-288 | Over whole, fault-free passes at a constant count and a store that fills its pages, every row inside the horizon when the stretch began that stays in view until listed was so handed over within k / (pages per pass * page size) + 1 rounds of the k rows in view. |
| `PendingRuns.FaultLosesSomething` | internal/placement/pending.go:236-240 | A store over which that happens. |
| `AdmissionFastPath.PageCovers` | internal/placement/pending.go:350-381 | A page read after another covers every accepted command up to where it ends. |
| `AdmissionFastPath.HistoryCovers` | internal/placement/pending.go:350-381 | A history read that meets the admitted command has met every command accepted up to it. |
| `AdmissionFastPath.ReadHistory` | internal/placement/pending.go:350-380 | The page loop reads exactly that history and folds its rows, each at its own clock reading. |
| `AdmissionFastPath.FoundIsWhole` | internal/placement/pending.go:383-406 | What the fallback finds is one shard's whole due view, from its head to its end, in at most two pages, and lists the admitted command. |
| `AdmissionFastPath.SearchInOrder` | internal/placement/pending.go:383-406 | The shards are searched in order, none that lists the session is passed over, and nothing is found only where pages or shards run out or the view that lists the session is cut short or lacks the command. |
| `AdmissionFastPath.ReadDue` | internal/placement/pending.go:383-406 | The shard loop is that search, and reads at most two due pages in all. |
| `AdmissionFastPath.PlaceAdmission` | internal/placement/pending.go:303-348 | Placement is asked exactly when the specification of one admission says so, with a request that holds just what the rows it was made from need. |
| `AdmissionFastPath.AskedExactly` | internal/placement/pending.go:303-348 | Placement is asked if and only if the notice is authorized, pending and live, no reusable owner was seen, every needed read was answered and the command was met; when it is an error; and that the request is exactly what the history, or the due view, calls for. |
| `AdmissionFastPath.HistoryComplete` | internal/placement/pending.go:303-381 | A request made from the history holds the admitted command and every one accepted no later, with its capability needs as seen. |
| `AdmissionFastPath.DueComplete` | internal/placement/pending.go:303-406 | A request made from the due view holds every row of the session that the whole of that view lists. |
| `AdmissionQueue.Live.Enqueue` | admission_queue.go:43-63 | Coalesces a tracked key, drops a new one at the limit, and otherwise appends it and signals. |
| `AdmissionQueue.Live.TryNext` | admission_queue.go:65-87 | Takes the head with its latest notice. |
| `AdmissionQueue.Live.Finish` | admission_queue.go:89-104 | Requeues a key that changed in flight, or forgets it. |
| `AdmissionQueue.Reachable` | admission_queue.go:36-104 | In every interleaving of producers and workers: the order is exactly the tracked keys not in flight, each once; one worker per key; dirty implies in flight; a non-empty order never has every worker parked without a token. |
| `AdmissionQueue.ForgottenOnlyWhenDelivered` | admission_queue.go:89-104 | A key is forgotten only by the worker holding its latest accepted notice. |
| `AdmissionQueue.DroppedExactly` | admission_queue.go:43-63 | A pending notice is dropped exactly when its key is not tracked and the queue is full. |
| `AdmissionQueue.RequeuedExactly` | admission_queue.go:65-104 | In every run a finished key goes back to the tail exactly when a notice for it was accepted while it was in hand, and is forgotten otherwise. |
| `AdmissionQueue.TrackedBound` | admission_queue.go:89-104 | At most the limit plus one key per worker is ever tracked. |
| `AdmissionQueue.NoOvertaking` | admission_queue.go:65-87 | A waiting key is never passed by another. |
| `AdmissionFence.Service.FenceAdmissions` | internal/admission/service.go:266-280 | Closes the gate once, and the signal with it if nobody is inside. |
| `AdmissionFence.Service.BeginAdmission` | internal/admission/service.go:294-309 | Admits exactly while the gate is open. |
| `AdmissionFence.Service.EndAdmission` | internal/admission/service.go:302-308 | The last to leave a closed gate closes the signal. |
| `AdmissionFence.DrainSignal` | internal/admission/service.go:266-309 | In every interleaving the signal is closed if and only if the fence is up and nobody is inside, and it was closed once. |
| `AdmissionFence.DrainedForever` | internal/admission/service.go:284-292 | Once drained, nobody enters again. |
| `AdmissionFence.InsideAccounted` | internal/admission/service.go:266-309 | Those inside are those let in who have not left, and only those before every fence were let in. |
| `HostWakes.Owner.Schedule` | internal/httpapi/wake.go:113-130 | A wake starts exactly with a seam, an unstopped owner and a free slot. |
| `HostWakes.Owner.BeginStop` | internal/httpapi/wake.go:161-165 | After it no wake starts, and those that run still do. |
| `HostWakes.WakesBounded` | internal/httpapi/wake.go:113-157 | At most the limit of deliveries run at once. |
| `HostWakes.NoWakeAfterStop` | internal/httpapi/wake.go:161-178 | After a stop that saw none running, none ever runs. |
| `HostWakes.WakesAccounted` | internal/httpapi/wake.go:113-178 | Slots held and wakes running are what started less what was given back. |
| `Lifecycle.InvAlong` | serve.go:172-636 | Over any number of concurrent Start, Serve, Quiesce and Stop calls, failed Starts and timeouts included, the lifecycle invariant holds. |
| `Lifecycle.OneAtATime` | serve.go:258-271 | Start's work and Stop's never overlap. |
| `Lifecycle.ShutdownOnceAfterDrain` | compose.go:774-806 | The node is shut down at most once, and only with the gate fenced and no command inside; the drain signal closes at most once. |
| `Lifecycle.QuiesceSparesBackground` | serve.go:578-609 | Until a Stop, no sweep is cancelled and no wake refused. |
| `Lifecycle.NoNodeAfterFence` | serve.go:611-636 | No node is built, half built or published once the fence is up. |
| `Lifecycle.TornForever` | serve.go:474-576 | The outcome of the one teardown never changes. |
| `Lifecycle.StopLeavesNothing` | serve.go:474-576 | A Stop that tore down and returned nil leaves no node, sweep, wake or HTTP server running, then or later. |
| `Lifecycle.RepeatedStop` | serve.go:500-504 | A repeated Stop returns after the teardown ended, and leaves nothing running if that returned nil. |
| `Lifecycle.RepeatedStopMisleads` | serve.go:500-504 | A run in which a repeated Stop returns nil with a wake still running. |
| `Lifecycle.RepeatedStopExactly` | serve.go:500-504 | A repeated Stop's nil means nothing is left running if and only if the teardown returned nil. |
| `Lifecycle.ServeLeavesNoListener` | serve.go:172-232 | No Serve that has returned left its listener open. |
| `Lifecycle.ServeCanReturn` | serve.go:220-231 | After a teardown, even a failed one, no Serve is stuck accepting. |
| `Lifecycle.ReturnsAsCalled` | serve.go:172-636 | Every call returns as itself, whatever Start or Quiesce it makes on the way, and once. |
| `Lifecycle.OneServe` | serve.go:172-232 | At most one Serve is ever past its claim, and none gets there once a Quiesce or a Stop has begun. |
| `Lifecycle.FailureReported` | serve.go:505-576 | A teardown in which any phase failed, or ran out of time, goes on to its end and does not return nil. |
| `Lifecycle.FailedStart` | serve.go:258-330 | A Start whose node could not be built starts nothing and gives the lock back. |
| `Lifecycle.QuiesceFailureNoted` | serve.go:611-636 | A Quiesce in which the node's shutdown fails, or is not over in time, reports it. |
| `Lifecycle.TornHalts` | serve.go:540-576 | However a teardown ended, no wake starts after it and every launched sweep was told to end. |
| `Framing.FramedPreimage` | internal/placement/attach.go:1040-1048 | The hasher is fed the decimal-length framing of the fields. |
| `Framing.FrameInjective` | internal/placement/reconciler.go:733-741 | No two field lists share a decimal-length framing. |
| `Framing.WidePreimage` | journal.go:215-225 | The hasher is fed the eight-byte-length framing of the fields. |
| `Framing.WideFrameInjective` | journal.go:215-225 | No two field lists share an eight-byte-length framing. |
| `JournalCursor.DecodeEncode` | journal.go:231-258 | Unpadded base64url decodes what it encodes (section 5 of RFC 4648). |
| `JournalCursor.CanonicalText` | journal.go:242-258 | Re-encoding a decoded text returns it if and only if it has no line break and its unused bits are clear. |
| `JournalCursor.FeedScope` | journal.go:215-225 | The scope digest's input is the framing of tenant, session and binding. |
| `JournalCursor.ScopePreimageInjective` | journal.go:215-225 | One preimage is one scope. |
| `JournalCursor.UnwrapWrapped` | journal.go:231-258 | A cursor unwraps, under its own scope, to the inner token. |
| `JournalCursor.WrapRefusedExactly` | journal.go:231-240 | Wrapping is refused if and only if the inner token is too long to carry. |
| `JournalCursor.OneScopePerToken` | journal.go:242-258 | Any non-empty token, however made, opens under at most one scope. |
| `JournalCursor.WrappedRefusedElsewhere` | journal.go:242-258 | A wrapped cursor is refused under every other scope. |
| `Objects.RangeAnswered` | internal/httpapi/objects.go:244-287 | A well-formed single range is answered 400, 416, 413 or served, in that precedence, over all 64-bit values. |
| `Objects.WholeAnswered` | internal/httpapi/objects.go:244-253 | Without a Range header the whole object is served exactly when it fits a page. |
| `Objects.OtherRangesRefused` | internal/httpapi/objects.go:244-287 | Every other Range header is malformed. |
| `Objects.RangeRoundTrip` | internal/httpapi/objects.go:244-287 | A range a client spells out is served as itself if and only if it lies in the object and fits a page. |
| `Objects.ServedFits` | internal/httpapi/objects.go:244-287 | What is served lies in the object and in a page. |
| `Objects.Validate` | internal/httpapi/objects.go:49-54 | The limits are accepted exactly for a page of at most 1 MiB and a verification bound between it and 64 MiB. |
| `Objects.CopyOverlap` | internal/httpapi/objects.go:342-347 | The copy fills exactly the part of the page that the bytes read so far determine, in bounds and without wrap. |
| `Objects.VerifiedPage` | internal/httpapi/objects.go:292-365 | For every way a provider chunks its bytes: success if and only if the stream behaves to its end and delivers exactly the described size and digest, and then with exactly the named slice. |
| `Objects.ServePage` | internal/httpapi/objects.go:199-240 | The route's refusals and its page, over all headers, metadata and streams. |
| `Objects.PageOfObject` | internal/httpapi/objects.go:289-365 | A page served is a page of the object, whichever provider served it. |
| `Objects.PagesJoin` | internal/httpapi/objects.go:242-287 | Pages of consecutive ranges join into the object. |
| `Directory.SharesEven` | internal/routing/directory.go:134-137 | The shares spend the whole budget and no two differ by more than one page. |
| `Directory.SpentWithinBudget` | internal/routing/directory.go:121-151 | Any number of attempts stays within the budget; all of them spend it exactly. |
| `Directory.Validate` | internal/routing/directory.go:57-74 | The limits are accepted exactly when every check passes. |
| `Directory.Candidates` | internal/routing/directory.go:115-151 | Every query is for the caller's own position; each cleanup gets its share and resumes where the last stopped; the page returned is the last one read, clean or out of attempts. |

## Left out

- The HTTP routes, headers, error envelopes, read handlers and UI mounting: one-branch mappings.
- HostLink, ClientLink and live-tail transport, and how their errors are made: only the classified answers enter the model.
- SessionStore internals, and SHA-256, HMAC and base64 as library code: contracts and small models stand in for them.
- Identity parsing, origin and CSRF configuration, authorizers, and option checks other than the reconcile, directory, object and backoff limits.
- Logging, warning suppression, the startup capability probe and the jitter drawn around a nominal wait.
- The legacy create path, deprecated resolvers and the placement controller.
- Authorization, which comes before every sweep and adds one refusing branch.
- `MinControlShards` is a constant of the sessionstore module and is taken as one.
- Aliasing between the order and the map of a grouped inventory: sessions are values, so update through a shared reference is not captured.
- The admission rotor's two lock holds per pass: they are one step, as one sweep owns the rotor.
- Pooled.PlacePooled: does not model the refusal codes carried in the Refused list, only the Hosts in it.
- Dedicated.PlaceDedicated: does not model the Result's lists, each of which holds at most the one Host.
- Reconcile.ReconcileSession: takes the row a desired-state write came to as the world's answer, and does not model the write count it adds up; Desired and DesiredRace say what both can be.
- Reconcile.Reconcile: does not order the bind's calls among the claim's own events; the source binds before it gives the claim back.
- Lifecycle.StopLeavesNothing: does not model the routing table, live tails and link pool that Stop closes last; their errors only make the Stop fail.
- Objects.ServePage: does not model the authorization and resolver steps before the metadata is read, nor which status an unreadable stream is given.
