# picante, verified

picante is an incremental query engine. Inputs are written and removed; derived queries are
computed by user functions, remembered in cells, and reused as long as a check over the recorded
dependencies says that nothing they read has changed. A recompute that gives an equal value keeps
its old `changed_at` (early cutoff), so the check can succeed although something below was
recomputed. Around the cells sit a dependency graph that announces what a write may affect, a
registry that makes one task compute and others wait, a bounded cache shared by snapshots of one
database, a cache file with a size limit, and a write-ahead log.

The main results:

* **The cache is invisible.** `Engine.Database.Get` gives, for every reachable state of one view,
  exactly what evaluating the query from scratch on the current inputs gives: value, failure or
  cycle, whichever of the fast path, revalidation, recomputation and poisoning was taken. A cycle that is
  reported is one of actual reads on the current inputs: the keys it lists are distinct, each reads the
  next, the last reads the requested key, which is among them, and the query that failed leads there
  (`Cells.FailsBy`), also when the failure was remembered in a poisoned cell.
  `Runs.Run` says so for whole runs of set, remove, get, touch, dropping any cells, saving, losing
  any derived records and loading into a fresh database, and moving to a snapshot: the replies are
  those of a reference that has no cache at all, and no `changed_at` goes back between any two moments
  of a run. The invariant behind it is `Cells.Backdated`.
* **No needless work.** Every operation says which bodies it ran (`Worked`): each at most once in a
  revision, none for a query already verified, and a query that held a value only with cause: one of its
  stored dependencies cannot be looked up, or is up to date and changed after the query did. `changed_at`
  moves to the current revision exactly for those whose value differs or that held none, so what a
  recompute does not change is no cause for others. The events sent are these, in this order.
* **Invalidation misses nothing.** In a view whose cells were never dropped, also after a save and a
  load that lost none, every query verified at the previous revision whose from-scratch value changes
  by a write is among the announced ones. Over a whole run: whatever a caller read successfully since the
  last write, and the next write changes, is announced by the events of that write
  (`Announcements.RunAnnounced`).
* **A truncated file never answers wrongly.** A database saved under any size limit and loaded from the
  bytes holds part of the inputs, all of them as soon as it holds any cell, and answers every further run
  as the reference does from the inputs it holds (`Persist.Reopen`, `Persist.RunAcrossFile`). The order
  in which records are dropped is what makes this true. Without a limit no cell of a stored kind is lost.
  For any bytes at all, `Persist.ReadCache` says which sections are accepted, which one is refused first and
  why, and which records were loaded by then.
* **The shared cache is right as long as every adoption is safe.** Over all runs in which views of any
  families are created, snapshotted, written to, compute, publish, adopt and put back, and records are
  evicted: every view stays in the engine's invariant and every record is right for the revision it is
  labelled with (`Sharing.SafeRunIsRight`).
* **Recovery.** A base that lost any derived records and a log appended to any number of times, with
  its buffer gone and its file cut at any byte, give a database that answers every further run as the
  reference does from the inputs of the whole entries, or an error that is raised exactly if the file
  does not end cleanly; if all was written, those are the inputs of the last append
  (`Recovery.RunWithCrash`).
* **Protocols.** Over all interleavings: one live guard per in-flight key, agreement of leader and
  followers, no lost wakeup, and progress: once an entry is settled and notified, a follower has what was
  settled after at most three steps of its own, whatever other tasks do in between, and a leader can
  always finish. A snapshot shares its scope with its live view until it is written to; a private cache scope is nobody else's, and two views with one scope
  and one revision hold the same inputs, so what one computes there is right for the other there.
* **Bounded structures.** The lazily cleaned shared cache is a list ordered by latest put; a cache
  file whose fixed part fits is always cut to size in the first round, largest records first, derived
  before inputs before interned; path search finds exactly the simple paths of at most 999 edges.

Where the code and its documentation differ the model follows the code: a dependency is compared
with the cell's own `changed_at` (`crates/picante/src/ingredient/derived.rs:798`), although
`docs/spec/picante.md:641` speaks of `verified_at`. The invariant `Cells.CellsSound` is stated for either
limit (`Cells.Test`), and all engine operations keep it for either: reuse by the documented test would be
sound too. What is needed for the code's own test is the weaker of the two (`Cells.SoundByChanged`).

Two claims are false of the code in general, and both have their exact condition here.

* *A record of another view that passes the adoption test (`derived.rs:432-482`) is right for the
  adopter.* The record's label is the `verified_at` it carries, and adopting puts the record back under
  the adopter's own revision (`derived.rs:461-473`). While every adoption so far was safe, a kind of record,
  by the age of its label and the kind of its dependencies, is always right to adopt if and only if it
  read nothing, or is of the adopter's own revision, or is earlier and read inputs only
  (`SharedKinds.KindIsSafe`). One unsafe adoption is enough to spoil this, because it relabels a wrong
  record: the next view finds it current, or earlier, and after a single one only records that read
  nothing are always right (`SharedKinds.KindIsSafeAfterOneUnsafe`). A run: revision 1 with a first value,
  two snapshots, the parent writes a second value and publishes at revision 2; the first snapshot adopts
  this record and puts it back as of revision 1; the second snapshot takes it as its own. The states that
  show each other kind wrong are reached step by step from the start.
  `AdoptionRuns.OlderSnapshotAdoptsLaterRecord` and `AdoptionRuns.BackdatedDepHidesChange` get to two of
  them by running the engine.
* *Taking over a right result keeps later answers right.* What the adopter sees in its cells decides: the
  dependencies are clear if each derived one held here is verified or changed after the result did, and
  the readers are clear if each reader held here is verified or changed before the result did. For two
  sound views that have been through the same inputs, a result that is verified in one and taken over by
  the other can never mislead a later revalidation if and only if both are clear
  (`TakingOver.ClearIsExact`); for each of the three other cases there is a pair of views in which a
  revalidation passes on a wrong value, at once or after one more write. Clear results keep the engine's
  invariant and so all later answers right (`Engine.Database.Install`); whether that invariant is kept is
  exactly `Cells.Installable`, which a caller cannot check.
  `AdoptionRuns.EqualRevisionAdoptionBreaks` and `AdoptionRuns.OlderChangeMisleadsReader` are runs of the
  engine in which a right record of the adopter's own revision is stored and misleads it.

This is why an adoption is called safe in `Sharing` when its kind is safe, the result is not from a later
`changed_at` than the present, and dependencies and readers are clear: a safe kind makes the value right,
and the rest keeps the adopter right afterwards.

How the model reads: a query body is a deterministic function from its key and the answers it has
read so far to "read this next", "return" or "fail"; an error of a derived read ends the body.
`Semantics.Evaluate` runs bodies with no cache and is the reference everything is measured by.
Classes (`Runtime`, `Database`, `Search`, `Cache`, `CacheFile`, `WalWriter`, `WalReader`) mirror the
objects the code mutates; the in-flight registry and the families of views are transition systems.
Automatic induction is switched off in the lemmas (`{:induction false}`): their proofs are written out.

| file | module | contents |
|---|---|---|
| Keys.dfy | Keys | keys, revisions, option and result |
| Semantics.dfy | Semantics | naive evaluation and its stack-free meaning |
| Runtime.dfy | RuntimeState | revision counter, dependency graph, invalidation walk |
| Chains.dfy | Chains | chains of reads and reported cycles |
| Cells.dfy | Cells | cells, input entries, the invariants, frames |
| Database.dfy | Engine | one view: access, revalidation, recomputation, writes, save, load, snapshot |
| Runs.dfy | Runs | whole runs against the cacheless reference |
| InFlight.dfy | InFlight | leader and follower protocol |
| Progress.dfy | Progress | leaders can finish and followers get results |
| Family.dfy | Family | databases, snapshots and cache scopes |
| Announcements.dfy | Announcements | what a subscriber hears over whole runs |
| Adoption.dfy | Adoption | when a published result is right for another view |
| Sharing.dfy | Sharing | the shared cache among all views as a transition system |
| SharedKinds.dfy | SharedKinds | which kinds of records are always right to adopt |
| TakingOver.dfy | TakingOver | which right results keep later answers right |
| Copies.dfy | Copies | a small program for concrete runs |
| AdoptionRuns.dfy | AdoptionRuns | runs of the engine in which taking over a result goes wrong |
| SharedCache.dfy | SharedCache | the bounded cache with its order queue |
| PathSearch.dfy | PathSearch | path search in the dependency graph |
| Postcard.dfy | Postcard | varints, byte strings and sequences of the Postcard wire format |
| CacheFile.dfy | CacheFile | the cache file and its size limit |
| Records.dfy | Records | the records of a cache file and the file as bytes |
| Layouts.dfy | Layouts | concrete bytes of each kind of record |
| Persist.dfy | Persist | saving under a limit and loading from bytes |
| Wal.dfy | Wal | log entries, frames, writer and reader |
| Replay.dfy | Replay | appending changes and replaying them |
| Recovery.dfy | Recovery | base snapshot plus log, and a run with a crash |

## Model

| member | source | states |
|---|---|---|
| Semantics.EvaluateIsScratch | crates/picante/src/ingredient/derived.rs:248-253 | naive evaluation with a stack of busy keys, which reports a cycle when a key needs itself, agrees with the stack-free meaning: the outcome at some finite depth, or a cycle if there is none |
| Semantics.TraceDecides | crates/picante/src/ingredient/derived.rs:613-640 | the reads answered so far determine the next action of a body, which settles the outcome or names a key that settles strictly earlier |
| Semantics.TraceCarriesOver | crates/picante/src/ingredient/derived.rs:771-804 | a recorded read sequence is the one a fresh evaluation makes on any other inputs that answer these reads the same way |
| RuntimeState.Runtime.UpdateQueryDeps | crates/picante/src/runtime.rs:195-229 | replaces the dependencies of one query and keeps the reverse map the exact transpose without empty sets, duplicates in the list included |
| RuntimeState.TransposeIsUnique | crates/picante/src/runtime.rs:195-229 | the forward map alone determines what the reverse map holds |
| RuntimeState.Runtime.ClearDependencyGraph | crates/picante/src/runtime.rs:244-247 | both maps are empty and still each other's transpose |
| RuntimeState.WalkDependents | crates/picante/src/runtime.rs:276-307 | on any graph, cyclic ones included, ends with every key reachable from the source along reverse edges exactly once, the source never, and nothing else |
| RuntimeState.ClosedHoldsWalks | crates/picante/src/runtime.rs:276-307 | a set closed under reverse edges contains the end of every walk that starts in it |
| RuntimeState.Runtime.PropagateInvalidation | crates/picante/src/runtime.rs:276-307 | sends one invalidation event per reachable key, in walk order, with the revision and the source |
| RuntimeState.Runtime.NotifyInputSet | crates/picante/src/runtime.rs:164-176 | sends the input event first and then the invalidations |
| RuntimeState.Runtime.BumpRevision | crates/picante/src/runtime.rs:144-152 | the revision grows by one and is announced |
| Cells.InputsRecordedAfterWrite | crates/picante/src/ingredient/input.rs:415-429 | after a write every input still answers the same at all revisions from its `changed_at` on |
| Cells.SoundAfterVerify | crates/picante/src/ingredient/derived.rs:645-671 | storing a freshly verified value keeps the backdating invariant, with a new `changed_at` or the old one |
| Cells.SoundIffInstallable | crates/picante/src/ingredient/derived.rs:442-455 | storing a right value that was not evaluated here keeps the backdating invariant if and only if the derived dependencies held here that pass the test have their present values and every reader of the query that it passes for read this value; this is about the invariant, not about later answers |
| Cells.ClearIsInstallable | crates/picante/src/ingredient/derived.rs:442-455 | it is enough that every derived dependency held here is verified or changed after the result, and every reader verified or changed before it, by the code's own comparison |
| Cells.SoundByChanged | crates/picante/src/ingredient/derived.rs:797-800 | the invariant of the documented test implies that of the code's test, which compares with the cell's own `changed_at` |
| Cells.ChangedAtNeverDecreases | crates/picante/src/ingredient/derived.rs:647-657 | a query that holds values at two moments did not change earlier at the later one |
| Cells.UnchangedDepAnswersTheSame | crates/picante/src/ingredient/derived.rs:792-803 | a dependency that has not changed since the cell was verified answers as it did then, whatever was recomputed in between |
| Cells.SoundAfterDrop | crates/picante/src/ingredient/derived.rs:656-656 | any subset of the cells keeps the invariant, also under any continuation of the inputs' history |
| Cells.CycleIsReal | crates/picante/src/frame.rs:123-133 | a requested key that is on the stack has no outcome from scratch: the reported cycle is real |
| Cells.ReportIsReal | crates/picante/src/ingredient/derived.rs:248-253 | the requested key and the keys on the stack are a cycle of actual reads, and the requested key fails by it |
| Cells.FailsByRead | crates/picante/src/ingredient/derived.rs:618-640 | the failure of a read is that of the key which reads, with the same cycle, which the reader leads to |
| Chains.CycleNeverSettles | crates/picante/src/frame.rs:123-133 | on a reported cycle, and on any way that leads there, no key has an outcome from scratch |
| Chains.ReadDecides | crates/picante/src/ingredient/derived.rs:613-640 | a key that a fresh evaluation reads settles strictly earlier, or its failure is the outcome |
| Cells.ReverifySound | crates/picante/src/ingredient/derived.rs:361-394 | moving only `verified_at` keeps the invariant and the value is the from-scratch one |
| Engine.Database.Access | crates/picante/src/ingredient/derived.rs:245-335 | within one view, answers with the from-scratch outcome of the current inputs, a cycle being one of actual reads that the key leads to; restores the frame stack except for the recorded read, runs no body for a key settled at this revision, and terminates on cyclic queries |
| Engine.Database.AccessStale | crates/picante/src/ingredient/derived.rs:344-395 | a ready cell of an earlier revision is reused, or recomputed because a stored dependency changed after it did or cannot be looked up, with the from-scratch outcome either way |
| Engine.StoppedIsCause | crates/picante/src/ingredient/derived.rs:787-801 | a refused revalidation has found a stored dependency that is unregistered, or up to date and changed after the cell did |
| Engine.CauseTransitive | crates/picante/src/ingredient/derived.rs:787-801 | each body run of two pieces of work in one revision still has its cause at the end of both |
| Engine.Database.TryRevalidate | crates/picante/src/ingredient/derived.rs:771-804 | the dependencies touched are the first reads of a fresh evaluation; an error is what that evaluation gives; success means all unchanged and the stored value derived anew; refusal means the last one touched changed or the next cannot be looked up |
| Engine.Database.CheckDep | crates/picante/src/ingredient/derived.rs:787-801 | one stored dependency: touched only after all earlier ones were unchanged, and compared with the cell's own `changed_at` |
| Engine.Database.Touch | crates/picante/src/ingredient/derived.rs:971-990 | brings a derived dependency up to date and gives the revision it last changed at, or its from-scratch error |
| Engine.Database.Recompute | crates/picante/src/ingredient/derived.rs:397-422 | marks the cell running, runs the body once under a frame and stores its outcome; the nested work, its own run and its event are accounted for |
| Engine.Database.Finish | crates/picante/src/ingredient/derived.rs:641-734 | an equal value keeps its `changed_at`, any other value changed now, a failure poisons the cell for this revision |
| Engine.Database.Install | crates/picante/src/ingredient/derived.rs:442-455 | stores a result of another view, adopted or followed; the view stays in the engine's invariant if and only if the result is installable, which it is if dependencies and readers are clear |
| Engine.Database.RunBody | crates/picante/src/ingredient/derived.rs:616-640 | reads through the cache make the same trace as reads from scratch, and the recorded dependencies are exactly this trace |
| Engine.Database.FinishReady | crates/picante/src/ingredient/derived.rs:659-708 | cell, dependency graph and change event agree, and the event is sent exactly if `changed_at` is the current revision |
| Engine.Database.Get | crates/picante/src/ingredient/derived.rs:996-1018 | succeeds with v exactly when naive evaluation gives v and fails exactly as it fails, a cycle being one of actual reads that the query leads to; each body that ran had cause and ran once, and the events sent are those of early cutoff |
| Engine.Database.TouchQuery | crates/picante/src/ingredient/derived.rs:971-990 | succeeds exactly when naive evaluation does, and gives the `changed_at` of a cell holding that value; fails by the same failure, a cycle being one of actual reads |
| Engine.Database.Set | crates/picante/src/ingredient/input.rs:385-433 | an equal value changes nothing and sends nothing; otherwise revision, entry and events are as stated, and every verified query whose from-scratch value changes is announced |
| Engine.Database.Remove | crates/picante/src/ingredient/input.rs:439-488 | the same for removal, which leaves an entry without a value |
| Engine.Database.ReadInput | crates/picante/src/ingredient/input.rs:494-518 | a missing or removed entry reads as absent, and the read is recorded in the innermost frame |
| Engine.Database.Save | crates/picante/src/ingredient/derived.rs:811-848 | lists every input entry, tombstones included, and every ready cell, each once |
| Engine.Database.Load | crates/picante/src/persist.rs:378-426 | from all input records and any part of the derived ones: the invariants hold, the graph holds exactly the loaded dependencies, and no input differs |
| Engine.LoadedUntruncated | crates/picante/src/ingredient/derived.rs:944-965 | a loaded database announces every change again if and only if the derived dependencies of its verified cells were loaded and verified with them |
| Engine.AllReadyStayTogether | crates/picante/src/ingredient/derived.rs:811-866 | which they are when no ready cell was lost |
| Engine.Database.Snapshot | crates/picante-macros/src/db.rs:558-580 | a snapshot has the inputs, the ready cells and the revision of its parent, and the invariants |
| Engine.Database.Drop | crates/picante/src/ingredient/derived.rs:932-937 | dropping any set of cells keeps every invariant |
| Engine.RestoreGraph | crates/picante/src/ingredient/derived.rs:944-965 | adds the dependencies of exactly the ready cells |
| Engine.ChangesAreAnnounced | crates/picante/src/runtime.rs:276-307 | whatever the walk over the reverse edges of the written input misses evaluates as before |
| Engine.SteadyIsUnchanged | crates/picante/src/ingredient/derived.rs:659-674 | a set of verified queries whose reads stay within it or within unwritten inputs keeps its from-scratch values |
| Engine.NextReadIsStored | crates/picante/src/ingredient/derived.rs:783-801 | while the answers agree, the next read of a fresh evaluation is the next stored dependency |
| Runs.Run | crates/picante/src/ingredient/derived.rs:996-1018 | for every sequence of set, remove, get, touch, dropping cells, saving and loading with lost derived records, and moving to a snapshot, on one view at a time, the replies are those of the cacheless reference |
| Runs.RunOn | crates/picante/src/ingredient/derived.rs:647-657 | the same from any reachable state; and from its start to its end no `changed_at` goes back, of an input or of a query that holds a value at both, whatever was dropped, poisoned, reloaded or recomputed in between; a run that drops and loses nothing goes on announcing every change |
| Announcements.RunAnnounced | crates/picante/src/runtime.rs:276-307 | over any run of sets, removes, gets, touches and loads that lose nothing: a query that was read successfully, and whose from-scratch value the next write changes, is among the invalidations sent by that write |
| Announcements.AnnouncesReads | crates/picante/src/runtime.rs:276-307 | what a write announces covers every query that is verified because it was read since the write before |
| Runs.ReferenceExtend | crates/picante/src/ingredient/input.rs:385-488 | the reference is determined step by step: one more operation adds its reply on the inputs so far |
| Runs.Reload | crates/picante/src/persist.rs:378-426 | saving, losing any derived records and loading keeps inputs, revision and exactly the cells not lost; if none was lost, later writes announce changes as before |
| Runs.InputsNeverOlder | crates/picante/src/ingredient/input.rs:385-488 | no operation makes an input's `changed_at` smaller |
| InFlight.StepKeepsInv | crates/picante/src/inflight.rs:240-300 | every step of every task keeps the protocol invariant |
| InFlight.OneGuardPerKey | crates/picante/src/inflight.rs:281-300 | in every reachable state two live guards for one key are the same guard: computes for one key never overlap |
| InFlight.RegistryMatchesGuards | crates/picante/src/inflight.rs:249-276 | a live guard's entry is registered under its key, and a terminal entry still registered is about to be removed by its own guard |
| InFlight.FollowersAgree | crates/picante/src/ingredient/derived.rs:511-574 | what any two followers see of one entry, at any moments, is the same value, dependencies and `changed_at`, or the same failure |
| InFlight.ObservedIsSettled | crates/picante/src/inflight.rs:198-225 | what a follower sees is what the leader settled the entry to |
| InFlight.RunEvolves | crates/picante/src/inflight.rs:198-221 | an entry leaves its running state once and never changes again |
| InFlight.NoLostWakeup | crates/picante/src/ingredient/derived.rs:511-518 | a follower asleep on an entry has a leader that still computes or has yet to notify, or else it can wake, however the leader ended |
| Progress.FollowerGetsResult | crates/picante/src/ingredient/derived.rs:511-574 | in every reachable state, once an entry is terminal and its leader is not about to notify, each task that follows it gets what was settled by at most three steps of its own |
| Progress.FollowerNeverStarves | crates/picante/src/ingredient/derived.rs:511-574 | under any interleaving each step a follower takes brings it one nearer, steps of others take nothing from it, and until it has the result it has a step it can take |
| Progress.LeaderCanFinish | crates/picante/src/inflight.rs:198-276 | a leading task can settle with any outcome, notify and unregister, which leaves its key free and the entry with this outcome and one notification |
| InFlight.CancelledKeyIsFree | crates/picante/src/inflight.rs:267-276 | once a guard is gone its key leads to a new entry, never to the old one |
| Family.StepKeepsInv | crates/picante/src/runtime.rs:73-125 | creating, snapshotting, writing and each atomic step of marking a runtime divergent keep the invariant, under any interleaving |
| Family.PrivateScopeIsPrivate | crates/picante/src/runtime.rs:101-125 | a private scope is assigned at most once and is never another view's id or scope |
| Family.SameScopeSamePast | crates/picante/src/runtime.rs:73-105 | views of one scope, at any two moments, had the same inputs at every revision both have been through |
| Family.SameScopeAndRevisionSameInputs | crates/picante/src/runtime.rs:101-105 | equal scope and equal revision mean equal inputs, in every reachable state |
| Family.WhoShares | crates/picante/src/runtime.rs:73-105 | two views share a scope if and only if they are of one family and neither has a private scope |
| Family.SnapshotShares | crates/picante-macros/src/db.rs:558-580 | a snapshot starts with the past of its live view and shares its scope until it is written to or marked |
| Family.NewDatabaseIsAlone | crates/picante/src/runtime.rs:73-88 | a new database shares its scope with no view there is |
| Family.DivergedIsAlone | crates/picante/src/runtime.rs:107-125 | once a snapshot was marked, by whichever caller, it shares its scope with nobody |
| Family.WrittenSnapshotIsAlone | crates/picante/src/ingredient/input.rs:415-419 | once written to, a snapshot shares its scope with nobody |
| Family.PastGrows | crates/picante/src/runtime.rs:73-88 | a view keeps its family and never loses or rewrites an earlier revision |
| Adoption.AdoptedDerives | crates/picante/src/ingredient/derived.rs:432-482 | a record derived on the inputs of its label that passes the test is a derivation on the adopter's present inputs if it has no dependencies, is of the adopter's revision, or is earlier with only inputs as dependencies |
| Adoption.AdoptedIsCorrect | crates/picante/src/ingredient/derived.rs:432-482 | and so for records published by another view under the same scope, at any two moments of any run of the families |
| Sharing.SafeStepKeepsInv | crates/picante/src/ingredient/derived.rs:432-482 | creating, snapshotting and writing to views, sound engine work, publishing, safe adoption with its put under the adopter's revision, and eviction each keep every view sound and every record right for its label |
| Sharing.SafeRunIsRight | crates/picante/src/ingredient/derived.rs:432-482 | so it is in every state of a run in which all adoptions were safe |
| Sharing.SafeKindIsRight | crates/picante/src/ingredient/derived.rs:435-440 | in such a state a record of a safe kind that passes the test is what the adopter would compute from scratch |
| SharedKinds.KindIsSafe | crates/picante/src/ingredient/derived.rs:432-440 | while all adoptions were safe, a kind is always right to adopt if and only if it read nothing, is of the adopter's revision, or is earlier and read inputs only; the other kinds are wrong in states reached by such runs |
| SharedKinds.KindIsSafeAfterOneUnsafe | crates/picante/src/ingredient/derived.rs:461-473 | after one adoption that was not safe, and its put under the adopter's revision, a kind is always right if and only if it read nothing |
| TakingOver.SoundIsNeverMisled | crates/picante/src/ingredient/derived.rs:771-804 | in a sound view no revalidation passes on a wrong value, now or at a later moment |
| TakingOver.ClearIsExact | crates/picante/src/ingredient/derived.rs:442-455 | by what is seen in the adopter's cells, a right result can never mislead a later revalidation if and only if its derived dependencies held here and its readers held here are clear |
| Adoption.FollowedIsCorrect | crates/picante/src/ingredient/derived.rs:486-596 | what a follower finds in an entry of its in-flight key is what the leader settled; settled rightly for the leader's view at the key's revision, a value is derived and right, and a failure is the failure, for the follower's view at that revision |
| Adoption.LeaderSettlesRightly | crates/picante/src/ingredient/derived.rs:676-727 | what a view puts into an entry from a cell settled at its revision is right for its own inputs |
| Adoption.PublishedCellIsDerived | crates/picante/src/ingredient/derived.rs:676-700 | what a view publishes is derived on its own inputs of that revision |
| AdoptionRuns.OlderSnapshotAdoptsLaterRecord | crates/picante/src/ingredient/derived.rs:435-440 | a run of two views of one family: the parent publishes at a later revision, the older snapshot does not hold the query, and the test passes on the record although its value is wrong there; directly from an input or through a query |
| AdoptionRuns.BackdatedDepHidesChange | crates/picante/src/ingredient/derived.rs:435-440 | a run in which an input goes to another value and back: the live view passes the test on a record a snapshot published in between, whose value is wrong by then |
| AdoptionRuns.EqualRevisionAdoptionBreaks | crates/picante/src/ingredient/derived.rs:435-455 | a run in which a record of the adopter's own revision, right at that revision, is stored over an old dependency; from the state it leaves, one more write makes the revalidation of the stored cell pass on a wrong value, and the engine's invariant is lost |
| AdoptionRuns.OlderChangeMisleadsReader | crates/picante/src/ingredient/derived.rs:435-455 | a run in which a right record, unchanged since before a reader was computed from another value, is stored; the revalidation of the reader passes at once on a wrong value |
| SharedCache.Cache.Put | crates/picante/src/inflight.rs:90-127 | the queue with stale pairs refines a list: evict from the front down to the limit, then move the key to the back; no other record is changed |
| SharedCache.Cache.Get | crates/picante/src/inflight.rs:77-88 | finds exactly the keys of the list, with the record of their latest put |
| SharedCache.Evict | crates/picante/src/inflight.rs:108-124 | popping from the front of the queue removes the oldest live keys only, and stale pairs remove nothing |
| SharedCache.LiveIsTable | crates/picante/src/inflight.rs:90-127 | the live pairs of the queue are exactly the records held, each once |
| SharedCache.HoldsMostRecent | crates/picante/src/inflight.rs:90-127 | for a fixed limit the list holds the most recently put distinct keys, at least the limit if there are as many, and at most one more |
| SharedCache.PutEach | crates/picante/src/inflight.rs:90-127 | any sequence of puts on an empty cache leaves these keys with the records of their last puts |
| PathSearch.FindPaths | crates/picante/src/debug.rs:161-168 | exactly the paths from start to end without a repeated node and with at most 999 edges, each once if no dependency list has duplicates |
| PathSearch.Search.Explore | crates/picante/src/debug.rs:170-209 | adds exactly the extensions of the shared path that avoid the visited nodes, and leaves path and visited set as they were |
| Postcard.VarintRoundTrip | crates/picante/src/wal.rs:162-178 | decoding an encoded integer gives it back, and what follows it (Postcard wire format specification, section on varint encoded integers) |
| Postcard.VarintDigits | crates/picante/src/wal.rs:162-178 | the bytes of an integer are its base-128 digits, lowest first, no more than needed, and marked in the high bit except the last (Postcard wire format specification, section on varint encoded integers) |
| Postcard.VarintMonotone | crates/picante/src/persist.rs:520-545 | a larger count or length never has a shorter prefix |
| CacheFile.CacheFile.ShrinkToFit | crates/picante/src/persist.rs:476-559 | a file that fits is untouched; an error comes exactly if what is not records reaches the limit; otherwise the first check succeeds, so later rounds and the final error are unreachable, and the record dropped last had to go |
| CacheFile.CacheFile.DropOneRecord | crates/picante/src/persist.rs:561-587 | pops the last record of the first section of the class whose last record is longest; false exactly if the class has no records |
| CacheFile.PoppedBytes | crates/picante/src/persist.rs:582-586 | the running byte count stays exact, so it never saturates |
| CacheFile.DropKeeps | crates/picante/src/persist.rs:505-513 | no shorter record of a class goes before a longer one; inputs go only when no derived record is left, interned values only when neither is |
| CacheFile.OverheadShrinks | crates/picante/src/persist.rs:515-545 | counts and length prefixes never take more after records were dropped |
| CacheFile.SortKeeps | crates/picante/src/persist.rs:499-502 | the sort by length is a stable permutation and keeps all sizes |
| CacheFile.SectionsSize | crates/picante/src/persist.rs:483-489 | an encoded file is its records plus a fixed part that the code's subtraction finds exactly |
| CacheFile.DerivedLeftMeansInputsWhole | crates/picante/src/persist.rs:505-513 | as long as one derived record is kept, every input and interned record is kept |
| Postcard.EachRoundTrip | crates/picante/src/persist.rs:458-474 | a counted sequence of items that can each be told from what follows reads back whole |
| Records.InputRoundTrip | crates/picante/src/ingredient/input.rs:165-232 | decoding an encoded input record gives key, value or tombstone, and `changed_at` back |
| Records.DerivedRoundTrip | crates/picante/src/ingredient/derived.rs:1069-1162 | decoding an encoded cell gives key, value, both revisions and the dependencies in order back |
| Records.FileRoundTrip | crates/picante/src/persist.rs:458-474 | decoding an encoded file gives version, revision and all sections back |
| Layouts.InputBytes | crates/picante/src/ingredient/input.rs:604-609 | a written and a removed input as bytes: key, optional value, `changed_at` |
| Layouts.DerivedBytes | crates/picante/src/ingredient/derived.rs:1619-1632 | a cell as bytes: key, value, `verified_at`, `changed_at`, dependencies by kind and key |
| Layouts.SectionBytes | crates/picante/src/persist.rs:79-101 | a section as bytes, with the number of each section type |
| Layouts.FileBytes | crates/picante/src/persist.rs:67-75 | a file as bytes: version, revision, sections |
| Layouts.EntryBytes | crates/picante/src/wal.rs:69-96 | log entries as bytes: revision, kind, the number of the operation, key and value |
| Persist.FindDuplicateKind | crates/picante/src/persist.rs:445-456 | names the first kind id that occurs again, if any does |
| Persist.SaveCache | crates/picante/src/persist.rs:174-229 | the bytes written are a file of one section per ingredient, with its id, name and type and exactly one record for each input entry or ready cell of its kind, or its interned records; a limit drops just what `CacheFile.DropKeeps` says, other records than derived ones only if no derived one is left; the first repeated kind, or a rest without records that reaches the limit, is the error |
| Persist.SectionsAreHeld | crates/picante/src/persist.rs:188-213 | the sections collected hold what the database holds, no record missing, made up or repeated |
| Persist.ReadCache | crates/picante/src/persist.rs:323-416 | for any bytes: refused with nothing touched for the first repeated kind, size, decoding or version; complete if and only if every section of a known kind has that ingredient's name and type and its records decode, and otherwise refused for the first section that fails by its first failing test, name before type before records, with the revision left alone; loaded are exactly the records before that |
| Persist.LoadSectionsMeans | crates/picante/src/persist.rs:388-416 | going through the sections one by one stops at the first refused section, with its error and with the records up to there in order |
| Persist.SavedSectionsLoad | crates/picante/src/persist.rs:388-416 | the sections of a saved file, truncated or not, are never refused, make up no record and overlook none of the inputs they hold |
| Persist.ShrunkIsKept | crates/picante/src/persist.rs:505-513 | what shrinking leaves is a part of each section, and all of every input and interned section if a derived record is left |
| Persist.ConstantIsRecorded | crates/picante/src/persist.rs:378-426 | without cells any part of the inputs is a sound state by itself |
| Persist.Reopen | crates/picante/src/persist.rs:174-426 | saving under a limit and loading gives a database in the engine's invariant, with part of the inputs, all of them if there was no limit or if it holds any cell; without a limit every ready cell is there again if all kinds are stored, and later writes announce changes as before |
| Persist.UncutListsEveryReady | crates/picante/src/persist.rs:388-416 | the sections of a file that needed no cut hold the record of every ready cell of a stored kind |
| Persist.RunAcrossFile | crates/picante/src/persist.rs:174-426 | a run that goes on in the reopened database is answered as the reference does from the inputs that were kept |
| Wal.EntryRoundTrip | crates/picante/src/wal.rs:55-96 | decoding an encoded entry gives it back |
| Wal.WalWriter.Append | crates/picante/src/wal.rs:210-242 | file and buffer together grow by the frame of the entry and are the log of all entries, and fewer than the threshold are waiting |
| Wal.FrameBytes | crates/picante/src/wal.rs:219-231 | a frame is four length bytes, lowest first, and the payload |
| Wal.WalWriter.Flush | crates/picante/src/wal.rs:245-253 | afterwards the file is the log of all entries, byte for byte |
| Wal.OpenWal | crates/picante/src/wal.rs:290-368 | accepts a file exactly by magic, header length, header and version, in this order, with the error of the first that fails |
| Wal.HeaderReadsBack | crates/picante/src/wal.rs:162-188 | the header the writer puts in front is accepted and gives the base revision, and reading goes on right behind it |
| Wal.HeaderIsRead | crates/picante/src/wal.rs:290-368 | behind the magic bytes, any four bytes that give a length within the limit, lowest first, and that many bytes are the header |
| Wal.EmptyLogBytes | crates/picante/src/wal.rs:162-188 | the bytes of an empty log, which open |
| Wal.CutHeaderIsRefused | crates/picante/src/wal.rs:301-347 | a file that ends anywhere within its header is refused as too short |
| Wal.FileAndBuffer | crates/picante/src/wal.rs:210-253 | file and buffer together are the log of all entries, and what is not in the file is fewer entries than the threshold |
| Wal.WalReader.NextEntry | crates/picante/src/wal.rs:378-424 | one frame by the reader's rules: end of file within a length is the end of the log, anything else missing or undecodable an error |
| Wal.FrameIsRead | crates/picante/src/wal.rs:378-424 | any four bytes that give a length within the limit, lowest first, and that many bytes behind them: exactly these are the payload, and reading goes on behind them |
| Wal.CutLogReads | crates/picante/src/wal.rs:378-447 | from a log cut anywhere after its header, exactly the entries whose frames are whole are read, then the end or an error, depending on the bytes left over |
| Wal.WholeLogReads | crates/picante/src/wal.rs:378-447 | a whole log reads back as the entries written, in order |
| Wal.WholeFramesIs | crates/picante/src/wal.rs:378-424 | how many frames are whole is determined by the cut alone |
| Wal.OnlyFittingFramesReadBack | crates/picante/src/wal.rs:219-231 | a frame is read back if and only if its payload has at most 100,000,000 bytes; longer ones are written all the same |
| Replay.IncrementalRecords | crates/picante/src/ingredient/input.rs:117-140 | each entry changed after the base revision once, tombstones included, in any order |
| Replay.AppendToWal | crates/picante/src/persist.rs:606-637 | appends exactly the changes since the base revision of all given ingredients; for distinct kinds each key once, and the count is the number of keys that changed |
| Replay.ReplayWal | crates/picante/src/persist.rs:645-732 | for any bytes: which error, which entries were applied before it, the revision set and the count; a base revision other than the current one changes nothing |
| Recovery.AppendRestores | crates/picante/src/persist.rs:606-732 | after any earlier appends, one more makes the log restore values, tombstones, `changed_at` and revision exactly |
| Recovery.ReplayedLast | crates/picante/src/ingredient/input.rs:142-157 | the last entry of a key decides, however many superseded ones came before |
| Recovery.LogFollowsOp | crates/picante/src/ingredient/input.rs:385-488 | every set and remove keeps the relation of live inputs, base and log |
| Recovery.NothingWrittenSince | crates/picante/src/persist.rs:606-637 | if nothing was written since the last append, what that append saw is the present |
| Recovery.ReplayKeepsInputsRecorded | crates/picante/src/persist.rs:687-722 | inputs that have grown from the base satisfy the engine's invariant together with the base's history, whatever the inputs were in between |
| Recovery.ReplayGrows | crates/picante/src/persist.rs:687-722 | replaying any part of a log from its start gives a store that has grown from the base: what did not change since is as it was |
| Recovery.CutDiskReads | crates/picante/src/wal.rs:290-447 | from a file cut at any byte, header included, exactly the whole entries are read, and an error is raised exactly if it does not end cleanly |
| Recovery.FlushedSurvive | crates/picante/src/wal.rs:245-253 | no cut beyond the flushed bytes loses a flushed entry |
| Recovery.RecoveredInputs | crates/picante/src/persist.rs:687-722 | a replay without an error gives inputs in the engine's invariant; one with an error does if and only if it applied nothing, since it leaves the revision of the base |
| Recovery.Recover | crates/picante/src/persist.rs:645-732 | loading a base with lost derived records and replaying a log cut anywhere applies exactly the whole entries of known kinds; the database is in the engine's invariant if and only if there was no error or nothing was applied |
| Recovery.RunWithCrash | crates/picante/src/persist.rs:606-732 | after a save, writes, appends and a crash that loses the buffer and cuts the file at any byte, what is recovered answers every further run as the cacheless reference does from the inputs of the whole entries, or the error is raised; with nothing lost, from the inputs of the last append |
| Recovery.RunUntilCrash | crates/picante/src/persist.rs:606-637 | the appended log restores the inputs of the last append, what is on disk is a beginning of it, and fewer entries than the flush threshold are missing from the flushed bytes |

## Left out

- SharedKinds.KindIsSafe: speaks of kinds of records; a single record of an unsafe kind may still be right.
- TakingOver.ClearIsExact: speaks of what is seen in the cells; a single result that is not clear may still be harmless. The two views have been through the same inputs, and cells may be lost from either, as by `Engine.Database.Drop`; whether two views of one family that lose none get to unclear readers is not claimed either way.
- Sharing.SafeRunIsRight: of an engine it uses only that it keeps sound cells sound; a view publishes any verified cell at any time, where the code publishes after a compute. A step is one operation: writes between a test and its put are not covered, nor which records the size limit evicts (see SharedCache). Nothing is said of a view after it adopted unsafely, beyond the next adoption of what it put back.
- Engine.Database.Access: runs one top-level operation at a time, so the retry loop, adoption from the shared cache and following an in-flight leader are not branches of it: with them its contract is false, as the runs in AdoptionRuns show. Storing such a result is `Engine.Database.Install`, what becomes of it is in Sharing and TakingOver, and the protocols around it are in SharedCache, InFlight, Family and Adoption. Progress of cells left running by a dropped task is not claimed.
- Runs.Run: a run moves from one view to another but has only one at a time, for the same reason.
- Engine.Database.Write: bumping the revision and writing the entry are one step; the code does the first before the second, and with a query in between the old value can be recorded at the new revision.
- Engine.Database.Install: the put into the shared cache that follows in the code is the step `Adopt` of Sharing.
- Engine.Database.Set: the announcement covers queries that were verified, not poisoned ones, in views whose cells were never dropped; a snapshot starts with an empty graph and is not covered. Marking a snapshot divergent is part of Family, not of the class.
- Engine.ChangesAreAnnounced: requires that stored dependencies and graph edges agree, which dropping cells, loads that lost a verified dependency, and snapshots give up.
- Semantics.Evaluate: query keys are a finite set and a body makes at most `maxReads` reads; bodies are deterministic and fail on an error of a derived read. It does not say which cycle is reported when there are several, as that depends on what is cached; that the one reported is real is `Cells.FailsBy`.
- Family.StepKeepsInv: a snapshot is taken of the live view in one step, and a write on a snapshot marks it divergent within its step; separate callers of the marking are interleaved step by step.
- SharedCache.Cache.Put: one step; the code inserts into the map outside the queue lock.
- CacheFile.CacheFile.ShrinkToFit: stops at the first check after dropping, because the rest is proved unreachable; the limits on records per section and on record size are not modelled.
- Wal.WalWriter.Append: the file grows only on a flush; a buffered writer may write part of its buffer earlier, so a crash is modelled as leaving any beginning of file and buffer together.
- Wal.OpenWal: the decoder, like that of cache files, accepts over-long and over-wide integers that the original may refuse; files written by the writer contain none.
- Wal.DecodeEntry, Wal.DecodeHeader, Records.DecodeFile: bytes left over after a decoded item are ignored.
- Recovery.RunWithCrash: the log has input ingredients only (replay of derived entries is not modelled: cells that are not ready are skipped, so an older base record can come back), every entry fits the reader's limit and the base revision is below 2^64. A crash leaves a beginning of what was written; a file damaged in the middle is covered by `Replay.ReplayWal` for any bytes. Nothing is claimed of a program that goes on after a replay error.
- Revisions and identifiers are unbounded; the 64-bit counters of the original are not modelled to wrap, except the 32-bit length field of a log frame.
- Keys and values are byte strings, encoded with their length; encoding of typed keys and values by reflection is taken to be injective, and values are compared by their encodings.
- Persist.ReadCache: gives what a load puts into the ingredients and how it ends, without the ingredients themselves. Interned records are kept as bytes and not interpreted, and the policy for corrupt files is left to the caller.
- Interned tables, batch export of single records, cache compaction, files, renames and directories, channel capacities, tracing, DOT output and statistics.
- `leaf_queries`, whose body (`crates/picante/src/debug.rs:142-152`) does not do what its comment says, and `root_queries`.
- The macro crate, apart from the snapshot template cited above.
