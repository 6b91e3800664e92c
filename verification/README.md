# Mutandae control plane: verified model

A Dafny model of the lifecycle control plane for machine identities and of the
algorithmic code beside it, with proofs. `dafny verify dfyconfig.toml` checks
everything.

The project is built in layers.

- **Vocabulary.** `text`, `sorting`, `numbered` and `protocol` hold string order and
  decimal identifiers, sorting, lists filed under an owner and numbered from a
  counter, and the protocol's records and state machine.
- **Sections.** `sections` says what each lock-protected section of a store operation
  does to the store as a value. The class `Lifecycle.Store` (`store`) changes maps and
  counters in place and is proved against these functions; `machine` takes them as
  the atomic steps of any number of calls in flight.
- **Sequential results.** `operations` composes the sections into whole operations
  and proves what every run keeps; `outcomes` states the whole store each operation
  leaves; `persistence` and `restart` say what snapshots preserve and
  what runs with failing saves and restarts keep, `thousandth` when a plain store
  stops surviving a restart in order. `Lifecycle.Store` is tied to both: every method
  leaves what `operations` says and saves what `restart` says. When it succeeds, which
  error each input gives and what it answers is said of each method in terms of its
  inputs alone.
- **Interleaved results.** `sequential` shows that the machine run without
  interruption is the operations. `invariants`, `audit`, `interleaving`, `conservation`,
  `deletion` and `purge` prove the audit shape, event conservation, the outcome of
  racing Deletes, when retirement holds and what a Delete purges for every
  interleaving; `saving` adds the saves and what the repository then holds.
- **Fan-out.** `redis_repository` has the listeners and their one-slot channels,
  `watcher` the cluster of stores reloading from one repository, `audit_sink` the
  audit fan-out.
- **Lease and sweeper.** `lease` models the expiring key with its three commands and
  a fleet of sweepers, `sweeper` the candidate selection, `workers` the worker pool.
- **Beside the core.** `duration`, `duration_grammar`, `duration_format` and
  `duration_numbers`; `series_key` and `metrics`; `aws`; `reclaim`; `limiter`;
  `sessions` and `session_table`.

What adapters, vaults, Redis, IAM and the file system answer are parameters, so the
results hold for all answers, failures included. A remote call can fail before or
after it took effect. Clock readings are parameters too; only where a lemma says so
are they assumed not to go back.

Two invariants are kept apart. The base invariant, records keyed by id and never
renewing, numbers distinct and below their counters, is kept by everything, a restore
included. That lists are in the order of their numbers and that runs have their three
adjacent events is kept by every operation but not by a restore past event 999.

Three places where the code and its own documentation disagree, the code being
followed: the printer's comment gives 6h as `P0DT6H` but it prints `PT6H`; the
comment says its output is always parseable, which fails exactly for durations
strictly between 0 and 1 ms (`DurationFormat.RoundTripExact`); and fractions are
accepted in every unit, not only in seconds.

Properties the code does not have are stated with the input that breaks them and
with the exact condition under which they hold, one a caller can check beforehand:
string order of identifiers past 999 (`Text.IdOrderExact`,
`Persistence.OrderSurvivesExactly`, `ThousandthEvent.ReadsSurvivable`), retirement
under interleaving (`Deletion.RetirementHolds`, `Deletion.RetirementUndone`), "only
retired identities can be deleted" (`Purging.PurgedWasRetired`,
`Purging.PurgesActive`), that what was saved stays saved while Provisions save
without the lock (`Saving.SavedUnlessProvisioning`), that a local change reaches the
repository (`Watchers.ChangeReachesRepository`), parseability of printed durations,
ownership of session clients (`Sessions.OwnershipExact`, `Sessions.CollisionLeaks`).

## Model

| member | source | states |
|---|---|---|
| Lifecycle.Store.AddEvent | internal/lifecycle/lifecycle.go:177-196 | the next number, filed under the identity and offered to the sink, nothing else changed |
| Lifecycle.Store.NewStore | internal/lifecycle/lifecycle.go:91-142 | a stored snapshot is restored, and if it was taken of a sound store the new one satisfies the invariant; otherwise everything discovered is adopted in order up to the first non-conforming identity, and saved; each failure has its own error, a watcher that cannot start included |
| Lifecycle.AdoptAllOk | internal/lifecycle/lifecycle.go:158-175 | discovery builds a store that satisfies the base invariant, in order and with the audit shape |
| Lifecycle.FoundConforms | pkg/protocol/validation.go:28-57 | which discovered identities conform: complete, with a known or unreported health and a readable renewal period |
| Lifecycle.AdoptsExactly | internal/lifecycle/lifecycle.go:158-175 | discovery succeeds exactly if everything found conforms, and otherwise with a conformance error |
| Lifecycle.AdoptedExactly | internal/lifecycle/lifecycle.go:158-175 | under each id or name the last record found, active, and healthy unless reported otherwise |
| Lifecycle.Store.List | internal/lifecycle/lifecycle.go:211-229 | every record exactly once, retired ones only on request, ordered by expiry and then name |
| Lifecycle.Store.Get | internal/lifecycle/lifecycle.go:232-237 | the record under an id, or none |
| Lifecycle.Store.RegisterLocked | internal/lifecycle/lifecycle.go:356-427 | success exactly for a complete request and a free id, each error by its input, every field of the record, its event in list and sink, nothing changed on an error |
| Lifecycle.Store.Register | internal/lifecycle/lifecycle.go:356-402 | the same with its save: success if and only if that is stored and announced, the answer the record and its events |
| Lifecycle.Store.Provision | internal/lifecycle/lifecycle.go:277-351 | success and each error by its input, the provider's refusal included; the stored record is answered, with the native copy's reference, else the cluster copy's, else none |
| Lifecycle.Store.RotateLocked | internal/lifecycle/lifecycle.go:495-600 | the imperative locked section equals the atomic section of the interleaved model, state and outcome; it starts exactly on an active identity outside a dry run and otherwise changes nothing; each refusal by its input |
| Lifecycle.Store.Rotate | internal/lifecycle/lifecycle.go:495-636 | each answer by its input: a renewal is answered if and only if the rotation started, the provider gave a view and the save succeeded, and then with the stored record, the last run and the events; what is saved; the invariants are kept in every branch |
| Lifecycle.Store.RetireLocked | internal/lifecycle/lifecycle.go:641-691 | the imperative locked section equals the atomic section; each refusal by its input; the stored record field by field and its event in list and sink; otherwise nothing changes |
| Lifecycle.Store.Retire | internal/lifecycle/lifecycle.go:641-707 | each answer by its input; the repository receives the state before the revocations; a failed save is an error and skips them |
| Lifecycle.Store.DeleteLocked | internal/lifecycle/lifecycle.go:744-758 | not-found when the record is gone; otherwise the purge, the audit snapshot taken before it with the deletion event last, and no other identity touched |
| Lifecycle.Store.Delete | internal/lifecycle/lifecycle.go:718-770 | each answer by its input; the response carries every event the purge removed, the revocations and the deletion event last |
| Lifecycle.Store.Use | internal/lifecycle/lifecycle.go:813-888 | success if and only if the identity is stored and not retired, a vault serves the read and the save succeeds; each error by its input; the event of a read, and nothing changed without one |
| Lifecycle.Store.ReadSecret | internal/lifecycle/lifecycle.go:821-851 | the cluster vault answers only where the native one is absent or unsupported, never for an outage |
| Lifecycle.Store.Deliver | internal/lifecycle/lifecycle.go:320-342 | both deliveries audited independently, references written back to the record |
| Lifecycle.Store.PersistLocked | internal/lifecycle/persistence.go:51-59 | the repository then holds the state's snapshot unless Set failed; an unannounced save is stored and still an error |
| Lifecycle.Store.RestoreLocked | internal/lifecycle/persistence.go:34-49 | maps, counters and list orders after the three restore loops |
| Lifecycle.Store.ReloadOnce | internal/lifecycle/persistence.go:72-82 | one round of the reload loop takes the waiting item, restores what it loaded and keeps the store when loading fails; it ends on a drained closed channel; restoring a snapshot of any sound store keeps the invariant |
| Lifecycle.Store.DoneMirrors | internal/lifecycle/lifecycle.go:343-345 | what every operation promises of store and repository is one step of the runs in `restart`, so what is proved of runs holds of the object |
| Protocol.LeadsExactly | pkg/protocol/transitions.go:6-29 | the changes any number of allowed transitions can make: retirement is final, nothing else is |
| Protocol.TransitionsExactly | pkg/protocol/transitions.go:6-29 | the table of allowed transitions, entry by entry |
| Protocol.UrgencyMonotone | internal/lifecycle/urgency.go:20-31 | as time passes an identity only gets more urgent |
| Protocol.UrgencyExactly | internal/lifecycle/urgency.go:9-31 | when an identity is overdue, expiring within 30 days, healthy or retired |
| Operations.OpKeeps | internal/lifecycle/lifecycle.go:356-770 | every operation, whatever adapter and vaults answer, keeps the base invariant, and the order and audit shape of the lists where they held |
| Operations.OpRecords | internal/lifecycle/lifecycle.go:277-770 | an operation writes at most one record and only a successful Delete removes one |
| Operations.OpIsLegal | internal/lifecycle/lifecycle.go:356-770 | one operation changes a record only along the state machine, except a Provision that reuses the id; removal if and only if a confirmed Delete meets a retired record; whatever the lists look like |
| Operations.LifecycleSafety | internal/lifecycle/lifecycle.go:356-770 | the same at every point of every sequential run, whatever the lists looked like at its start |
| Operations.RetiredAbsorbing | pkg/protocol/transitions.go:18-18 | over a whole run retired stays retired while nothing deletes or re-provisions the id |
| Operations.RotationWritesAreTransitions | internal/lifecycle/lifecycle.go:507-583 | both writes inside a rotation are allowed transitions |
| Outcomes.ProvisionStore | internal/lifecycle/lifecycle.go:277-342 | the whole store after creation, adoption, deliveries and write-back: one active, healthy record with the references of the vaults that took the secret, and its events in order, failed deliveries among them |
| Outcomes.RotationStore | internal/lifecycle/lifecycle.go:507-622 | the whole store after a rotation the provider carries out: its view with governance's id, state, health and expiry, one finished run with the evidence, three events with their actors, the deliveries |
| Outcomes.FailedRotationStore | internal/lifecycle/lifecycle.go:560-577 | the whole store after one it refuses: the identity as it was, active and flagged, a failed run with the message, three events |
| Outcomes.RetirementStore | internal/lifecycle/lifecycle.go:677-699 | the whole store after a retirement: the provider's view, retired and flagged, its event and the revocations |
| Outcomes.DeletionStore | internal/lifecycle/lifecycle.go:730-758 | the whole store after a deletion, with what the sink keeps |
| Outcomes.DeletionEvidence | internal/lifecycle/lifecycle.go:751-755 | the events it returns: all that was filed, the revocations, the deletion last |
| Outcomes.VaultReferences | internal/lifecycle/lifecycle.go:892-928 | both vaults' references side by side with url, secret and version where given, every other key kept |
| StoreInvariants.RotateEffect | internal/lifecycle/lifecycle.go:499-600 | a started rotation leaves one finished run, its three adjacent events and an active record |
| Audit.ShapeIsGlobal | internal/lifecycle/lifecycle.go:177-196 | any event naming a stored run, in whatever list, is one of that run's three |
| Interleaving.StepKeeps | internal/lifecycle/lifecycle.go:315-342 | every atomic section of every operation keeps the base invariant and what the pending calls rely on |
| SequentialRuns.SequentialRun | internal/lifecycle/lifecycle.go:277-888 | an operation whose sections nothing interrupts leaves the store as the whole operation does, and no call behind |
| SequentialRuns.OpensOnly | internal/lifecycle/lifecycle.go:813-820 | in every interleaving a read starts only on a record that is not retired, a deletion only on a confirmed, retired one, a revocation after retirement only from an active one |
| Interleaving.ExecuteKeepsTrails | internal/lifecycle/lifecycle.go:177-196 | every interleaving keeps list order and the audit shape where they held |
| Interleaving.RotationAuditShape | internal/lifecycle/lifecycle.go:499-600 | in every reachable state of every interleaving every stored run is succeeded or failed and its events are exactly requested, started and the matching terminal one, adjacent, with increasing numbers |
| Conservation.EventConservation | internal/lifecycle/lifecycle.go:177-196 | in every interleaving the sink sees the next numbers without a gap, each list is what it inherited plus its events since its last Delete, and stored plus purged events equal the counter |
| Saving.RestartUnderInterleaving | internal/lifecycle/lifecycle.go:343-345 | in every interleaving without Provisions, saves failing as they may, once no Rotate has its save to come and the last attempted save was stored, a restart brings back records and runs exactly and the events up to order and the revocations since that save |
| Saving.SavedUnlessProvisioning | internal/lifecycle/lifecycle.go:343-345 | with nothing else in flight, every interleaving that comes to rest has everything saved but revocations, if and only if no Provision has its unlocked save still to come |
| Deletion.SingleWinner | internal/lifecycle/lifecycle.go:718-770 | any number of racing Deletes, while no call in flight may write an earlier copy back: nobody finished and the record stands, or the first to finish removed it and all later ones got not-found |
| Deletion.RevivalExact | internal/lifecycle/lifecycle.go:619-622 | the steps that make a retired record active: a Provision of its id, or the write-back of an earlier copy |
| Deletion.RetirementHolds | internal/lifecycle/lifecycle.go:601-622 | over every interleaving without a creation a retired record stays retired until it is removed, if and only if no call in flight may write back a copy taken before the retirement |
| Deletion.RetirementUndone | internal/lifecycle/lifecycle.go:601-622 | from every sound state with the identity active there is an interleaving that leaves such a call, retires the identity and revives it without a creation |
| Purging.PurgedWasRetired | internal/lifecycle/lifecycle.go:718-758 | a Delete purges only retired records, in every interleaving without a creation, if and only if no call in flight at its check may write back an earlier copy |
| Purging.PurgesActive | internal/lifecycle/lifecycle.go:744-758 | from every sound state with a Delete past its check, a Provision in between makes it purge an active record |
| Text.IdsInjective | internal/lifecycle/lifecycle.go:180-180 | numbered identifiers never collide |
| Text.TrimmedExactly | pkg/protocol/duration.go:21-21 | trimming takes all white space off both ends and nothing else |
| Text.SpacesExactly | pkg/protocol/duration.go:21-21 | which characters are white space |
| Text.IdsExactly | internal/lifecycle/lifecycle.go:180-180 | identifiers are the prefix and the number in at least three digits |
| Text.IdOrderExact | internal/lifecycle/persistence.go:23-23 | exactly when the string order of two `%03d` identifiers is their numeric order |
| Text.IdOrderUpTo999 | internal/lifecycle/persistence.go:23-23 | it is up to 999 |
| Text.IdOrderBreaksAt1000 | internal/lifecycle/persistence.go:29-29 | and no further |
| Sorting.SortUnique | internal/lifecycle/persistence.go:17-29 | sorting by distinct keys hides the order the map was walked in |
| Numbered.FiledAppend | internal/lifecycle/lifecycle.go:177-190 | appending the next numbers keeps every list increasing and all numbers distinct |
| Numbered.FiledOnce | internal/lifecycle/lifecycle.go:180-180 | a number occurs at one place of one list |
| Persistence.TakeSnapshot | internal/lifecycle/persistence.go:12-32 | whatever order the maps are walked in, the result is the state's snapshot |
| Persistence.SnapshotUnique | internal/lifecycle/persistence.go:12-32 | a state has one snapshot |
| Persistence.SnapshotRoundTrip | internal/lifecycle/persistence.go:12-49 | restore after snapshot gives everything back up to list order, and exactly if and only if every list is in the string order of its identifiers |
| Persistence.OrderSurvivesExactly | internal/lifecycle/persistence.go:17-29 | for lists in the order of their numbers: if and only if the numbers sort as text as they do as numbers |
| Persistence.RestoredIsSound | internal/lifecycle/persistence.go:34-49 | a restored store satisfies the base invariant, has the same snapshot, and restoring it again changes nothing |
| Persistence.SnapshotExactUpTo999 | internal/lifecycle/persistence.go:12-49 | exact while both counters are at most 999 |
| Persistence.SnapshotOrderLostAt1000 | internal/lifecycle/persistence.go:23-23 | an identity with events 999 and 1000 does not come back in order |
| ThousandthEvent.ReadsSurvivable | internal/lifecycle/persistence.go:12-49 | a store that adopts one identity and serves reads of its credential comes back from a restart as it was if and only if there were at most 997 |
| Numbered.GroupIsProjection | internal/lifecycle/persistence.go:41-46 | regrouping a flat list gives each owner its own records in list order |
| Restart.RestartAgreement | internal/lifecycle/lifecycle.go:626-629 | after an operation whose Set succeeded the repository has the store, or after Retire the store before at most two revocation events |
| Restart.RestartAfterRun | internal/lifecycle/lifecycle.go:689-705 | over every run of operations, any of whose saves may fail, and of restarts: if the last attempted save was stored, a restart loses at most two trailing revocation events of one identity and list order |
| Restart.SafeAcrossRestarts | internal/lifecycle/lifecycle.go:91-142 | at every point of every such run records are keyed by id and never renewing, and the next operation changes them only along the state machine |
| Restart.EarlyReturn | internal/lifecycle/lifecycle.go:499-526 | an operation that returns before its save changes nothing |
| RedisRepository.Repository.Changes | internal/lifecycle/redis_repository.go:100-113 | a new listed open channel, or an error once closed |
| RedisRepository.Repository.RemoveListener | internal/lifecycle/redis_repository.go:115-120 | the channel is unlisted and closed, other listeners keep their items |
| RedisRepository.Repository.ConsumeOne | internal/lifecycle/redis_repository.go:122-143 | after one message every listed channel has an item waiting; no send reaches a closed channel |
| RedisRepository.Repository.Close | internal/lifecycle/redis_repository.go:145-166 | every open channel is closed exactly once, none listed any more |
| Watchers.Convergence | internal/lifecycle/redis_repository.go:86-143 | in every reachable state of any number of stores, a quiet one without own changes holds what was last Set, unless the last announcement reached it before it was listening |
| Watchers.ListenersConverge | internal/lifecycle/redis_repository.go:86-143 | a store that was listening at the start, when quiet and without own changes, holds what was last Set, without exception |
| Watchers.SelfStabilizing | internal/lifecycle/persistence.go:72-82 | from any state whatever, announcements missed earlier included, one Set followed by fault-free steps converges again |
| Watchers.ListenersHeal | internal/lifecycle/redis_repository.go:86-143 | and then every store that was listening at that Set holds what was last Set once it is quiet and without own changes |
| Watchers.Propagation | internal/lifecycle/persistence.go:61-86 | a quiet listening store does take over an announced save |
| Watchers.LostPublishIsNotSeen | internal/lifecycle/redis_repository.go:94-96 | a stored but unannounced save leaves quiet stores behind |
| Watchers.StartupRace | internal/lifecycle/lifecycle.go:105-111 | a save announced between a store's restore and its listening is missed |
| Watchers.ChangeReachesRepository | internal/lifecycle/persistence.go:51-82 | a change made in memory reaches the repository with the store's next save, whatever happens in between without another save, if and only if no reload with another state had loaded, was loading or was announced when it was made |
| Watchers.AnySaveOvertakes | internal/lifecycle/persistence.go:61-86 | a save by another process between the change and the store's own save can always overtake it |
| Lease.LeaseManager.TryAcquire | internal/lifecycle/lease.go:65-74 | acquires exactly an absent or expired key; a lost reply is an error although the key may be held |
| Lease.LeaseManager.Renew | internal/lifecycle/lease.go:76-88 | extends only a lease still held by this instance |
| Lease.LeaseManager.Release | internal/lifecycle/lease.go:90-102 | removes only a lease still held by this instance |
| Lease.Handover | internal/lifecycle/lease.go:65-126 | over whole runs, an instance takes the lease only after every other holder released it or let a full time-to-live pass |
| Lease.OthersNeverTouch | internal/lifecycle/lease.go:114-126 | nobody but the holder changes a live key |
| Lease.OneTimelyLeader | internal/lifecycle/worker.go:151-223 | in every reachable state at most one leader flag is younger than its time-to-live |
| Lease.LateLeaderOverlaps | internal/lifecycle/worker.go:169-185 | a leader that lets it pass keeps its flag while another instance leads |
| Sweep.Sweeper.SelectCandidates | internal/lifecycle/worker.go:225-256 | of identities listed once, exactly the active and expired ones without an attempt later than now or less than a quarter of the interval ago; all others counted as skipped; the candidates' attempts remembered and no others |
| Sweep.Accounting | internal/lifecycle/worker.go:236-256 | considered plus skipped is the listed inventory |
| Sweep.CandidatesDistinct | internal/lifecycle/worker.go:236-254 | no identity is selected twice in a sweep |
| Sweep.CandidatesExact | internal/lifecycle/worker.go:236-254 | the same for any window |
| Sweep.Spacing | internal/lifecycle/worker.go:229-252 | over any sweeps, clock and inventories two attempts at one identity are at least max(interval/4, 1ns) apart |
| Workers.SweepAccounting | internal/lifecycle/worker.go:262-311 | every interleaving of the pool ends with rotated plus failures plus dropped equal to sent, and equal to considered if never canceled |
| Workers.SweepSafety | internal/lifecycle/worker.go:270-284 | no candidate is rotated twice and overlapping sweeps together respect the limiter |
| Workers.Progress | internal/lifecycle/worker.go:262-308 | every step of the pool lowers a measure |
| Workers.NeverStuck | internal/lifecycle/worker.go:262-308 | until all workers returned a step is possible, unless other sweeps hold the whole limiter |
| AuditSinks.FileAuditSink.Append | internal/lifecycle/audit_sink.go:78-107 | one line per accepted event; an unsynced line stays in the file |
| AuditSinks.MultiAuditSink.Append | internal/lifecycle/audit_sink.go:156-168 | every child is offered the event whatever its siblings do; only a closed fan-out errors |
| AuditSinks.MultiAuditSink.SameSequence | internal/lifecycle/audit_sink.go:156-168 | children configured once have all been offered the same sequence |
| AuditSinks.MultiAuditSink.Close | internal/lifecycle/audit_sink.go:170-187 | no event is offered afterwards |
| Duration.ParseISO8601Duration | pkg/protocol/duration.go:20-91 | the imperative scanner equals its specification on every text |
| DurationGrammar.AcceptsExactly | pkg/protocol/duration.go:20-91 | for any number reader, accepted texts are exactly the sentences of the grammar |
| DurationGrammar.DerivationParses | pkg/protocol/duration.go:65-91 | the result is the sum of the components, wrapped to int64 |
| DurationGrammar.SumInRange | pkg/protocol/duration.go:42-42 | and the sum itself when it fits |
| DurationGrammar.YearsRejected | pkg/protocol/duration.go:93-108 | no float makes a year component readable |
| DurationGrammar.MalformedNumberRead | pkg/protocol/duration.go:35-37 | "1.2.9" is read as 1.2 |
| DurationNumbers.ReadsExactly | pkg/protocol/duration.go:35-37 | a token of a known unit is read if and only if it starts with a digit or with a point and a digit and is not too large for the float |
| DurationNumbers.DigitsRead | pkg/protocol/duration.go:35-42 | digits are read as that many units |
| DurationNumbers.UnitsExactly | pkg/protocol/duration.go:93-108 | what each unit is worth in nanoseconds |
| DurationNumbers.DecimalRead | pkg/protocol/duration.go:35-42 | a token that spells digits and digits after a point is their integer product with the unit over the power of ten, cut to whole nanoseconds; a second point and what follows is left unread |
| DurationNumbers.SpellsOnce | pkg/protocol/duration.go:35-37 | a token that starts as a number spells exactly one |
| DurationNumbers.AcceptedTexts | pkg/protocol/duration.go:20-91 | the accepted texts without reference to the reader: components whose number starts with a digit or with a point and a digit, clock units after one or more `T`, one component at least, no number too large for the float |
| DurationNumbers.AcceptedValue | pkg/protocol/duration.go:20-91 | every accepted text, fractions and malformed tails included, has as its value the sum of the numbers its components spell times their units, wrapped to int64 |
| DurationNumbers.RfcAccepted | pkg/protocol/duration.go:20-91 | every year- and month-free duration of RFC 3339 Appendix A that fits an int64 is accepted as the sum of its counts times their units |
| DurationNumbers.LaxerThanRfc | pkg/protocol/duration.go:65-79 | units out of order are accepted too, as the sum |
| DurationFormat.FormatISO8601Duration | pkg/protocol/duration.go:114-152 | the builder equals its specification |
| DurationFormat.FormatExactly | pkg/protocol/duration.go:114-152 | for every days, hours, minutes, seconds and milliseconds, the text: the components that are not zero in order, the designator where needed |
| DurationFormat.ProductFits | pkg/protocol/duration.go:93-108 | every printed count times its unit needs at most 53 significant bits |
| DurationFormat.RoundTripWholeSeconds | pkg/protocol/duration.go:20-152 | every whole-second duration survives print and parse with float64 arithmetic |
| DurationFormat.RoundTripExact | pkg/protocol/duration.go:110-152 | in exact arithmetic whole milliseconds survive, and the text is parseable if and only if the duration is not strictly between 0 and 1 ms |
| DurationFormat.PrintedIsTrimmed | pkg/protocol/duration.go:21-21 | trimming leaves a printed text alone |
| DurationFormat.ParsePrinted | pkg/protocol/duration.go:20-152 | so the round trips hold of the whole parser |
| SeriesKeys.FormatLabels | internal/web/metrics.go:350-372 | the loop's text does not depend on the order the map is walked in |
| SeriesKeys.MakeSeriesKey | internal/web/metrics.go:346-348 | the key is the name followed by that text |
| SeriesKeys.EscapedPlain | internal/web/metrics.go:366-366 | only quote, backslash and newline are changed |
| SeriesKeys.KeyLine | internal/web/metrics.go:346-372 | a key is one line, whatever the label values |
| SeriesKeys.KeyRoundTrip | internal/web/metrics.go:346-372 | the key of a well-formed name and label set can be read back |
| SeriesKeys.KeysInjective | internal/web/metrics.go:346-372 | well-formed pairs share a key only if they are equal |
| SeriesKeys.BraceInNameCollides | internal/web/metrics.go:346-348 | a brace in a name makes two series one |
| SeriesKeys.OpeningInLabelCollides | internal/web/metrics.go:361-369 | so does an equals sign with a quote after it in a label name |
| MetricsRegistry.Metrics.IncCounter | internal/web/metrics.go:76-89 | this series goes up by one and no other changes; every counter stays the number of calls of its series |
| MetricsRegistry.Metrics.ObserveDuration | internal/web/metrics.go:94-116 | count, sum and each of the six buckets of this series take in the value, a negative one as zero; every histogram stays the summary of its observations |
| MetricsRegistry.HistogramSeries.Add | internal/web/metrics.go:109-115 | each bucket the value fits, the count and the sum |
| MetricsRegistry.CounterExact | internal/web/metrics.go:76-89 | with well-formed calls a counter is the number of calls for exactly that name and label set |
| MetricsRegistry.HistogramCumulative | internal/web/metrics.go:109-115 | buckets are cumulative and bounded by the count |
| AwsRotation.FindKey | internal/provider/aws.go:580-587 | a listed key with that id, if the id is not empty |
| AwsRotation.OldestNonCurrent | internal/provider/aws.go:589-610 | the first of the oldest keys that are not current |
| AwsRotation.AWSAdapter.Current | internal/provider/aws.go:353-358 | the recorded key if still listed, otherwise a newest one |
| AwsRotation.AWSAdapter.MakeRoom | internal/provider/aws.go:360-367 | at the ceiling one non-current key is deleted, the current one stays |
| AwsRotation.AWSAdapter.Swap | internal/provider/aws.go:369-379 | the new key exists before the current one is deleted, never above the ceiling |
| AwsRotation.AWSAdapter.Rotate | internal/provider/aws.go:337-393 | the exact sequence of key sets, whichever call fails and whether or not it took effect: one or two keys throughout, and always the current or the new one; each error by its input; success if and only if the needed calls succeed, and then exactly the new key is left, reported and buffered |
| AwsRotation.AWSAdapter.ConsumeOneTimeSecret | internal/provider/aws.go:177-184 | the secret is handed out once |
| Reclaim.Server.ActiveDemo | internal/web/server.go:831-839 | the provider's active demo identities, each once |
| Reclaim.Server.ReclaimDemo | internal/web/server.go:803-829 | terminates; only the oldest are retired and no other record changes whatever Retire answers; min(initial, limit-1) are left if every Retire succeeds |
| Limiter.CompactInPlace | internal/lifecycle/integration.go:409-414 | filtering a slice into its own storage keeps exactly the later attempts |
| Limiter.KeptInOrder | internal/lifecycle/integration.go:409-414 | filtering goes attempt by attempt, so order is kept |
| Limiter.ConnectionLimiter.AllowConnection | internal/lifecycle/integration.go:405-422 | accepted if and only if fewer than the maximum of the remembered attempts are from the last hour; those are kept, with this one if accepted; other keys are untouched |
| Limiter.NeverMoreThanMax | internal/lifecycle/integration.go:405-422 | for non-decreasing times no half-open hour holds more than the maximum of accepted attempts |
| Limiter.AcceptsUnlessFull | internal/lifecycle/integration.go:415-421 | and an attempt is refused only if the maximum was accepted in the hour before it |
| Limiter.ClockGoingBack | internal/lifecycle/integration.go:408-412 | with a clock that goes back one can hold one more |
| Sessions.HandedOutLive | internal/lifecycle/integration.go:219-238 | a session is handed out if and only if it is present, not expired and its token matches |
| Sessions.TableSafety | internal/lifecycle/integration.go:111-238 | in every interleaving at most the maximum of sessions, no client closed twice, none of the table's clients closed |
| Sessions.UnclosedAreTabled | internal/lifecycle/integration.go:111-238 | with nothing in flight the unclosed clients are those in the table or replaced by a colliding id |
| Sessions.OwnershipExact | internal/lifecycle/integration.go:143-151 | they are exactly those in the table if and only if no id ever collided |
| Sessions.CollisionLeaks | internal/lifecycle/integration.go:143-151 | two connects that draw one id leave the first client open and out of the table for ever |
| SessionTable.IntegrationManager.Add | internal/lifecycle/integration.go:143-151 | stored, or refused at the maximum with its client closed |
| SessionTable.IntegrationManager.ExpireSessions | internal/lifecycle/integration.go:192-207 | exactly the expired sessions leave, each client closed once |
| SessionTable.IntegrationManager.Disconnect | internal/lifecycle/integration.go:209-217 | exactly that session leaves and only its client is closed |
| SessionTable.IntegrationManager.SessionFor | internal/lifecycle/integration.go:219-238 | the lookup of the specification; only an expired session leaves and is closed |
| SessionTable.IntegrationManager.Close | internal/lifecycle/integration.go:155-172 | the table is empty and every client closed once |

## Left out

- Interleaving.RotationAuditShape: holds with the store's reload loop off and from lists that are in order at the start; a reload replaces all maps and may discard a run another call has just written, and a restore past 999 may part a run's events (`Persistence.SnapshotOrderLostAt1000`).
- Conservation.EventConservation: as above, with the reload loop off.
- Saving.RestartUnderInterleaving: with the reload loop off; a Provision's unlocked walk over the maps is one step, where the program can also read them half changed.
- Saving.SavedUnlessProvisioning: as above.
- Restart.RestartAfterRun: sequential runs of one store; after a save whose Set failed it holds again from the next save that is stored.
- Lease.OneTimelyLeader: instance identifiers are distinct, one clock is shared with Redis, and a leader's flag is set at the moment its command takes effect; a key expires at its deadline, where Redis keeps it one more millisecond.
- Limiter.NeverMoreThanMax: non-decreasing times; `Limiter.ClockGoingBack` shows why.
- DurationNumbers.DecimalRead: fractions in exact arithmetic; what float64 rounding does to them is not modelled.
- DurationNumbers.AcceptedValue: as above, and with every component within an int64 by itself; beyond that the conversion is the platform's.
- DurationNumbers.RfcAccepted: under float64 rounding for counts and products of at most 53 significant bits, in exact arithmetic without that condition.
- DurationFormat.RoundTripWholeSeconds: a float is any rounding that keeps integers of at most 53 significant bits; what it does to fractions is not modelled, and conversion of an out-of-range float to int64 is a parameter.
- Watchers.Convergence: snapshots are opaque values, so a store is compared with the snapshot it would restore; unsaved local changes and an announcement dropped before listening are excepted in the statement, and `Watchers.StartupRace` shows the latter is needed.
- MetricsRegistry.Metrics.ObserveDuration: seconds and sums are real numbers, without NaN and rounding; counters are unbounded instead of doubles and 64-bit integers.
- AwsRotation.AWSAdapter.Rotate: no other writer, and IAM's own guarantee that a user has at most two keys and a new key a fresh id; the listing is complete.
- AuditSinks.FileAuditSink.Append: a write either leaves the whole line or nothing; partial lines are not modelled.
- Sweep.Sweeper.SelectCandidates: time differences are unbounded, where the program's saturate.
- Worker pool, reload loop, lease loop and in-flight store calls are state machines over values, one step per lock section or channel operation; goroutine scheduling and memory effects inside a section are not modelled.
- Metadata maps are values; the program's copies share one map, so a write-back can also touch the copy taken earlier.
- Event summaries, details and correlation ids; display names, namespaces, ownership contacts and other record fields no branch reads.
- Dry-run plans beyond the fact that they change nothing; the newest-first views of events and runs.
- Provision's clean-up Retire of a non-conforming identity, whose answer the program ignores.
- Tick jitter, logging, and the ticker factory's nil case.
- Redaction of audit text, JSON and snapshot versions, the file's permissions.
- Provider scope patterns, which are a boolean parameter; SigV4, XML and all network code.
- Azure and GCP adapters, simulators, OIDC, HTTP handlers, the token-bucket limiter: their results would be easy or depend on library code.
- The metrics exposition text beyond label sets, and the runtime gauges.
- The constant-time comparison of tokens, which is equality here.
