# Statehouse, verified

Statehouse turns unordered device readings into device activity, cycles with energy figures, whole-house
electricity and a house state. This project models that core in Dafny and proves what it promises over every
input, every run and, where the program is concurrent, every interleaving of its atomic steps.

Instants and durations are `int` nanoseconds, with 0 for Go's zero time; `float64` is `real`; a body that runs
under one mutex is one atomic step.

## How it is laid out

| file | subject |
|---|---|
| `Common`, `Order`, `Text`, `Model` | options, Go's division, string order, text operations, the exchanged values |
| `Energy` | the trapezoid integrator, the resettable counter, the choice between them |
| `Hysteresis` | when a two-sided, time-windowed switch flips, as a property of the whole signal history |
| `Device`, `DeviceTheory`, `DeviceConservation` | one device as a function of its history, and the theorems about every history |
| `Sustained`, `CycleFigures` | when a cycle starts and finishes in terms of the configured thresholds and windows alone, and what its energy figures mean |
| `Runtime` | the program's `Runtime` class, each method proved to do what `Device` says |
| `Entry`, `EntryTheory`, `Availability` | one store entry: ingest, what its record means after a run of readings, availability debounce |
| `Identity`, `DisplayNames` | the identity index as a value, its consistency, what a lookup and a discovery find, and when the display half forgets a device |
| `Snapshots`, `Store`, `Engine` | any number of separate entries, the store class that keeps them so, and isolation of the records handed out over whole runs of engine calls |
| `Upgrade` | what becomes of a phantom's cycle when its stable key turns up |
| `Electricity`, `ElectricityTheory`, `WholeHouse`, `Interleavings` | the aggregate and its meaning, the critical section, and the concurrent protocol around it |
| `Origin`, `OriginTheory`, `OriginEntries` | the origin allowlist, its guarantees, and which entries it accepts |
| `Publisher`, `PublisherCalls` | the bounded publish queue as a protocol of producers, worker, Start and Close, and what becomes of each call |
| `Signals`, `House`, `HouseTheory` | the signal store's high-water mark, the house derivation that uses it, and its meaning |
| `ActivityLog` | the activity ring buffer |

The program's objects are classes with the program's fields. Their few fields are tied by `Valid()` to a ghost
history or to a function of one, so a theorem about histories is a theorem about the program: for example
`Runtime.OnReading` is proved equal to `Device.OnReading`, and `CyclesFollowTheSchedule` then says of every run
that one remembered candidate is enough to decide each cycle as the whole history would.

## Where code and comments disagree

The model follows the code.

- `internal/state/engine.go:183-191` says a phantom's pre-seeded activity and cycle are purged on upgrade. Only the
  public record is cleared. When the upgrade brings another class the machine is new and the purge lasts; otherwise the
  machine goes on, and the next reading shows its old cycle again unless it starts a new one (`UpgradeThenRead` is the
  exact condition, `PhantomCycleReturns` a run from the empty store).
- `internal/mqtt/publisher.go:205-209` says the synchronous fallback is never reached in production. It is reached
  by any publish after Close has released the lock, and then overtakes jobs queued earlier (`FallbackAfterClose`,
  `BypassOvertakesTheRest`).
- `internal/state/engine.go:166` replaces a runtime's profile on reload, but the machine keeps the thresholds it was
  built with; only the strategy takes effect (`DeviceEntry.Adopt`).
- The display index is sound but not complete. A discovery makes it forget another device exactly when that device goes
  by a name the discovery drops: the one the rediscovered device had, or, on a change of name, that old name under its
  new scheme (`CompleteIff`). The first way needs two devices sharing a name (`DisplayIndexForgets`); the second deletes
  a key the rediscovered device was never filed under (`CrossingForgets`).
- House mode is `unknown` when the quiet time exactly equals `EmptyAfter` or `SleepingAfter` (`ModeIsUnknownIff`).
- Occupancy can rise although nothing happens: a signal that has expired but is not yet pruned lets an already unknown
  or empty house become occupied or unknown when the prune raises the mark (`LatePruneRevives`), exactly when it expired
  inside a window the house has otherwise left (`PruneRaisesIff`).
- `IngestReading` brings a device online without an availability event; `SetAvailability` and `Tick` report theirs.

## Model

| member | source | states |
|---|---|---|
| Energy.Integrator.Update | internal/energy/integration.go:28-57 | the running total and clamp count are the trapezoid sum and the clamped intervals of the whole sample history, for timestamps in any order |
| Energy.Integrator.Reset | internal/energy/integration.go:67-75 | the history starts over |
| Energy.KWhSplits | internal/energy/integration.go:28-57 | energy is additive over any cut at a shared sample: nothing lost, nothing counted twice |
| Energy.PairEncloses | internal/energy/integration.go:28-57 | two samples enclose the trapezoid under them, and nothing when time stands still, runs back or leaves too wide a gap; with KWhSplits this fixes every history's energy |
| Energy.GapsAreCounted | internal/energy/integration.go:38-46 | the clamp count is the number of intervals wider than the gap |
| Energy.LineIsExact | internal/energy/integration.go:28-57 | for power on a straight line the sum is the exact energy, however often it was sampled |
| Energy.KWhGrows | internal/energy/integration.go:28-57 | with non-negative power the total never falls |
| Energy.KWhBounded | internal/energy/integration.go:28-57 | power within P over ordered samples integrates to at most P times the elapsed time, in either direction |
| Energy.KWhAdds | internal/state/engine_electricity.go:55-57 | integrators fed in lockstep with powers that add up hold energies that add up |
| Energy.Counter.SetBaseline | internal/energy/counter.go:14-20 | a session of counter values begins with the given value |
| Energy.Counter.Update | internal/energy/counter.go:22-33 | baseline and latest are the lowest and last value of the session, resets included |
| Energy.Counter.Delta | internal/energy/counter.go:35-45 | the answer is the session's last value above its lowest, zero without one |
| Energy.Counter.RebaselineAtLatest | internal/energy/counter.go:55-62 | the session restarts at the latest value seen |
| Energy.MinOfIsLeast | internal/energy/counter.go:22-33 | the tracked baseline is attained in the session and below all of it |
| Energy.SelectionIsHonest | internal/energy/strategy.go:23-46 | the selected energy is one of the two offered and is labelled as such; a positive one is never passed over for zero (each strategy's priority is CycleSelects) |
| Hysteresis.SwitchesAreTheSchedule | internal/device/statemachine.go:392-453 | the one-candidate switch flips at exactly the indices the history's schedule defines: the first signal whose unbroken run since the last flip began at least the window earlier |
| Hysteresis.ScheduleUnique | internal/device/statemachine.go:392-453 | a signal history has only one such schedule |
| Hysteresis.StepDecides | internal/device/statemachine.go:392-453 | one step flips exactly when the flip is due by the history, whatever order timestamps come in |
| DeviceTheory.Lifecycle | internal/device/statemachine.go:108-390 | over all runs: in a cycle exactly when the record is active, each class inside its own transition graph, the low counter 0..2 and zero outside finished_recently, reports matching the transition made |
| DeviceTheory.FirstEdgeStarts | internal/device/statemachine.go:392-453 | the first cycle event of a run is a start |
| DeviceTheory.EdgesAlternate | internal/device/statemachine.go:392-453 | cycle starts and finishes strictly alternate |
| DeviceTheory.ReportsChain | internal/state/engine.go:392-400 | each reported change leaves from where the previous event arrived, beginning with unknown |
| DeviceTheory.CyclesFollowTheSchedule | internal/device/statemachine.go:243-453 | a cycle starts (finishes) exactly at the schedule's odd (even) switches over the whole reading history, and the stored candidate is the first timestamp of the current run |
| Sustained.CyclesAreSustained | internal/device/statemachine.go:243-453 | in terms of the configured fields and the readings alone: outside a cycle, one starts exactly when the reading ends an unbroken run, since the last start or finish, at or above the active threshold that began at least activeSustainedFor before; inside, one finishes likewise with the idle threshold and inactiveSustainedFor; compressorAboveW takes over for compressors when set, and ON/OFF devices go by the text |
| Sustained.NoWindowNoDelay | internal/device/statemachine.go:38-43 | with no window configured, or none above zero, the first such reading does it |
| Sustained.ActivityMeans | internal/device/statemachine.go:179-390 | the activity after any history, read off its last start or finish; before the first it is unknown exactly until a reading tells otherwise |
| CycleFigures.CycleSelects | internal/energy/strategy.go:23-46 | after any reading in any run the record selects by the strategy last set: counter first takes the counter's delta whenever it is positive and the integrated energy otherwise, integration first the other way round, unset the larger, each with its label, both-zero cases included; the duration is that up to the reading in whole seconds |
| CycleFigures.CycleCountsItsSpan | internal/device/statemachine.go:455-511 | the record begins at the latest start, and its counter delta is the last above the least of the value heard last at the start and those its own readings carried |
| DeviceTheory.CycleEnergyIsItsSpan | internal/device/statemachine.go:455-511 | a finished cycle's integrated energy is the trapezoid sum over exactly the readings from its start to its finish, whose times it carries |
| DeviceConservation.CycleEnergyIsBounded | internal/device/statemachine.go:455-511 | with ordered, non-negative watts of at most P it is at most P times the cycle's length |
| DeviceConservation.IntegratedIsConserved | internal/device/statemachine.go:492-511 | all cycles together, the current one included, never claim more than the integrator measured |
| DeviceConservation.ReportedIsConserved | internal/energy/counter.go:35-62 | with a counter that never runs backwards, the deltas of all cycles together, the current one included, never exceed its advance |
| DeviceConservation.FinishedIsFrozen | internal/device/statemachine.go:481-531 | a finished cycle's times, duration and energy figures stay until another cycle starts, through readings, seeds, ticks, reprofiling and flags |
| DeviceConservation.DecayIsExact | internal/device/statemachine.go:203-240 | finished_recently lasts exactly until the third consecutive power reading below idle or the first tick 30 minutes after the finish, readings without power neither counting nor breaking the run |
| DeviceRuntime.Runtime.constructor | internal/device/statemachine.go:92-99 | a new runtime is valid and its state is the initial one |
| DeviceRuntime.Runtime.MaybeBegin | internal/device/statemachine.go:392-423 | outside a cycle, fires and remembers exactly as one hysteresis step on the rising side; inside, does nothing |
| DeviceRuntime.Runtime.MaybeEnd | internal/device/statemachine.go:425-453 | inside a cycle, fires and remembers exactly as one hysteresis step on the falling side; outside, does nothing |
| DeviceRuntime.Runtime.StartCycle | internal/device/statemachine.go:455-472 | a fresh active record, the counter rebaselined and the integrator snapshot equal to the history so far |
| DeviceRuntime.Runtime.FinishCycle | internal/device/statemachine.go:481-490 | the record is closed at the instant with its duration and current energy |
| DeviceRuntime.Runtime.RefreshCycleEnergy | internal/device/statemachine.go:492-511 | the record's energy is that of the history since its start, its duration that of an active cycle |
| DeviceRuntime.Runtime.StepShortBurst | internal/device/statemachine.go:179-199 | does what the history machine does on the reading's signal |
| DeviceRuntime.Runtime.StepCycle | internal/device/statemachine.go:203-240 | the same for cycle devices, with the decay of finished_recently |
| DeviceRuntime.Runtime.StepContinuous | internal/device/statemachine.go:243-300 | the same for compressors, whose own branches amount to the shared hysteresis |
| DeviceRuntime.Runtime.ContinuousUp | internal/device/statemachine.go:243-300 | a resting compressor's branch is the shared hysteresis on the rising side |
| DeviceRuntime.Runtime.ContinuousDown | internal/device/statemachine.go:243-300 | a running compressor's branch is the shared hysteresis on the falling side |
| DeviceRuntime.Runtime.StepMedia | internal/device/statemachine.go:303-330 | the same for media devices |
| DeviceRuntime.Runtime.StepBinary | internal/device/statemachine.go:332-390 | the same for ON/OFF devices; any other text changes nothing |
| DeviceRuntime.Runtime.OnReading | internal/device/statemachine.go:108-176 | new state and outcome are those of the history machine, for every class and reading |
| DeviceRuntime.Runtime.SeedCounter | internal/device/statemachine.go:474-479 | the counter session restarts unless a cycle is active |
| DeviceRuntime.Runtime.Tick | internal/device/statemachine.go:535-549 | state and outcome are those of the history machine; the record object is not replaced |
| DeviceRuntime.Runtime.MarkDivergence | internal/device/statemachine.go:515-523 | only the divergence flag and percentage change |
| DeviceRuntime.Runtime.MarkStaleCounter | internal/device/statemachine.go:525-531 | only the stale-counter flag changes |
| DeviceRuntime.Runtime.IntegrationGapsClamped | internal/device/statemachine.go:554-556 | the answer is the number of intervals refused since the latest cycle start |
| Entry.ObserveMax | internal/model/state.go:113-120 | a strictly greater value makes a new extreme, anything else keeps the object |
| Entry.ObserveMin | internal/model/state.go:126-133 | a strictly smaller value makes a new extreme, anything else keeps the object |
| Entry.MaxSeenIsFirstMaximum | internal/model/state.go:105-120 | the ratchet ends at the largest observation, credited to its first occurrence |
| Entry.Observed | internal/state/engine.go:241-259 | the lifetime block is a fresh copy holding the new extremes |
| EntryTheory.MeasuredMeans | internal/state/engine.go:231-335 | over any run of readings each measurement shown is the last one carried, and lastSeen the last reading's time |
| EntryTheory.PeakedMeans | internal/state/engine.go:234-259 | over any run of readings each lifetime extreme is the most extreme value carried, credited to the first reading that carried it |
| EntryTheory.WarningsMean | internal/state/engine.go:354-389 | exactly a cycle whose two figures differ by at least the configured percentage of the larger is marked divergent, with that percentage, and exactly one whose counter stood still through real activity is marked so; nothing else changes |
| EntryTheory.OnlyFinishedIsFlagged | internal/state/engine.go:354-389 | the energy warnings touch the machine exactly when the reading finished a cycle |
| EntryTheory.DescriptionMeans | internal/state/store.go:74-103 | a new description replaces what it says and keeps what it leaves empty; the id stays |
| EntryTheory.Feed | internal/state/engine.go:217-390 | a run of readings on one entry: the record shows what all of them together determine, its activity is the machine's, and the machine is one the run theorems speak of |
| EntryTheory.FeedNew | internal/state/engine.go:119-390 | from a device just discovered the readings alone decide what the record shows |
| Entry.DeviceEntry.Ingest | internal/state/engine.go:217-390 | the locked body: online, measurements, extremes, machine step, copied cycle and energy warnings, all as functions of the old entry |
| Entry.DeviceEntry.WarnAboutEnergy | internal/state/engine.go:349-389 | exactly a finished cycle that diverges, or whose counter stood still, is flagged, on machine and record alike |
| Entry.DeviceEntry.SetAvailability | internal/state/engine.go:457-491 | the debounce state machine, and the change to report |
| Entry.DeviceEntry.Tick | internal/state/engine.go:594-615 | a pending offline matures, the machine ticks, a changed activity is published |
| Entry.DeviceEntry.Adopt | internal/state/engine.go:158-167 | another class gets a new machine; the same class keeps its machine and thresholds under the new strategy |
| AvailabilityTheory.LinkDescribesHistory | internal/state/engine.go:448-501 | after any run, the availability and its timestamp are what the events since the last sign of life determine |
| AvailabilityTheory.OfflineIsEarned | internal/state/engine.go:448-501 | with a clock that does not run backwards, a device is offline at t only after an unanswered offline report at least the debounce before t |
| AvailabilityTheory.OfflineIsPrompt | internal/state/engine.go:592-601 | the first tick or offline report that late makes it offline |
| AvailabilityTheory.OnlyLifeEndsOffline | internal/state/engine.go:219-224 | only a reading or an online report leaves offline |
| AvailabilityTheory.NoDebounceNoDelay | internal/state/engine.go:457-491 | without a debounce the first offline report since the last sign of life is enough |
| Snapshots.Apply | internal/state/engine.go:217-390 | a reading, report or tick takes the entry's machine where the history machine goes and its availability where the debounce does, keeps it valid and lets it write only what it owned or made |
| Snapshots.ApplyAmong | internal/state/engine.go:217-390 | among any number of separate entries it does that to one, and writes nothing of the others and no record ever shown |
| Snapshots.StaysSeparate | internal/state/engine.go:217-390 | so the entries stay valid and pairwise apart |
| Snapshots.ReadCleared | internal/state/engine.go:336-390 | a reading on a cleared record shows the machine's old cycle again exactly if the class has cycles, the machine holds one and the reading starts no other |
| Engine.WithEntry | internal/state/store.go:301-309 | the operation takes the entry stored under the id, and no other, to its next status; the whole store stays valid and every record handed out as it was |
| Engine.Receive | internal/state/engine.go:201-217 | the contact is discovered, with its availability kept and its machine under the new profile, and the operation is done on exactly what was found; the store stays valid and every record handed out as it was |
| Engine.Tick | internal/state/engine.go:577-615 | in any order, every stored device matures and ticks exactly once; the store stays valid and every record handed out as it was |
| Engine.ReloadConfig | internal/state/engine.go:550-562 | in any order, every known device is discovered again: consistency is carried over, and if each device holds its own name the index stays as it is and every device follows its new profile, availability kept |
| Engine.Discover | internal/state/engine.go:119-195 | the index is that of the value-level discovery; the device found or made follows the resolved profile with its availability kept, and where any other device stands is unchanged |
| Engine.MeetsItself | internal/state/engine.go:550-562 | in a consistent index in which each device holds its own name, a stored identity discovered again resolves to itself and changes nothing |
| Engine.RunCarries | internal/state/engine.go:119-195 | any run of keyed calls carries the index's consistency over |
| Engine.Perform | internal/state/engine.go:119-615 | one call of any kind: the index is what that call makes of it, and a received operation, a tick or a reload has had its effect on the device, or on any stored device, while every record handed out reads as before |
| Engine.Replay | internal/state/store.go:185-226 | after any run of discoveries, readings, reports, ticks and reloads on a store of any size, everything reachable from a record handed out before reads as it did, the store is valid, and its index is what the calls make of it one by one, so consistent |
| Engine.Get | internal/state/store.go:185-193 | what a caller is handed is a record of the store, so the run theorem applies to it |
| Upgrade.UpgradeThenRead | internal/state/engine.go:119-195 | after a phantom's upgrade the cycle from before is shown again exactly if the class is unchanged and has cycles, the machine holds one and the reading starts no other |
| Upgrade.PhantomCycleReturns | internal/state/engine.go:183-191 | a run from the empty store in which a phantom gets its stable key and the next reading shows the cycle begun before |
| IdentityIndex.UpsertKeepsIff | internal/state/store.go:64-143 | an upsert keeps the index consistent exactly when it takes no other device's stable key |
| IdentityIndex.RenameKeepsIff | internal/state/store.go:167-182 | a rename keeps it consistent exactly when it leaves no entry under the old name behind |
| IdentityIndex.DeriveID | internal/state/engine.go:842-854 | a derived id is never empty |
| IdentityIndex.ChooseID | internal/state/engine.go:119-130 | the id settled on is never empty, as long as the index holds no empty id |
| IdentityIndex.DiscoverKeeps | internal/state/engine.go:119-195 | a discovery keeps the index consistent and the identity then finds its own id |
| IdentityIndex.RunIsConsistent | internal/state/engine.go:119-195 | every sequential run of discoveries, reloads included, leaves every index entry truthful and the stable keys in bijection with the devices |
| IdentityIndex.ConsistentIndexResolves | internal/state/store.go:148-162 | in a consistent index every stored identity finds its own id and neither index outgrows the devices |
| DisplayNames.LookupMeans | internal/state/store.go:148-162 | in a consistent and complete index a lookup answers the device that owns the stable key; else, whatever the stable key, one that goes by the name; and nobody exactly if there is neither |
| DisplayNames.NameFindsItsDevice | internal/state/engine.go:119-195 | a contact with a new stable key but a known name is taken for a device of that name, which gets the stable key, and no id is added |
| DisplayNames.KeyFindsItsDevice | internal/state/engine.go:119-195 | a contact with a known stable key is taken for its owner, whatever its name, which goes by the new name from then on, and no id is added |
| DisplayNames.OnlyStrangersAreAdded | internal/state/engine.go:119-130 | an id is added only for a contact with neither a known stable key nor a known name, and it is the one it asks for: configured, else its name, else its key with the prefix |
| DisplayNames.OnlyPhantomsGo | internal/state/store.go:120-143 | a device known by its name alone is dropped, record and key, exactly when another device is filed under the name it holds; no other is ever dropped or changed |
| IdentityIndex.DiscoverIsIdempotent | internal/state/engine.go:114-119 | repeating a discovery changes nothing and answers the same id |
| DisplayNames.CompleteIff | internal/state/store.go:117-143 | a discovery leaves every named device findable by name exactly when no other device goes by a key it deletes |
| DisplayNames.RunIsComplete | internal/state/engine.go:119-195 | over every run in which no discovery does that, every named device stays findable |
| DisplayNames.DisplayIndexForgets | internal/state/store.go:117-119 | a run in which two devices share a name and, when one moves on, the other is no longer found by it |
| DisplayNames.CrossingForgets | internal/state/store.go:167-182 | a run in which a device changing scheme and name deletes a key it was never filed under, and another device is forgotten |
| DisplayNames.DisplayAnswersAreTrue | internal/state/store.go:156-160 | what the display index answers is stored under that very name |
| IdentityIndex.JoinIsInjective | internal/state/store.go:122 | joined with a colon-free scheme, a key text determines scheme and name |
| StateStore.Store.LookupID | internal/state/store.go:148-162 | stable key first, then display name, else the empty id; what that means for the devices is LookupMeans |
| StateStore.Store.Upsert | internal/state/store.go:64-143 | the store's index becomes the value-level upsert of the old one; the stored record is overlaid, its machine and entry kept, and no other entry is touched |
| StateStore.Store.Rename | internal/state/store.go:167-182 | the store's index becomes the value-level rename of the old one |
| StateStore.Store.Tombstone | internal/state/store.go:132-139 | a phantom loses its record and own key, any other device nothing |
| StateStore.Store.EnsureDiscovered | internal/state/engine.go:119-195 | the whole store stays valid: entries valid, pairwise apart, what is added fresh; the index is that of the value-level discovery under the chosen id; a new device gets a new machine, a known one keeps its own unless its class changed, and only a phantom's upgrade clears what was shown |
| Order.AscendingIsUnique | internal/state/electricity.go:132 | a sorted list without repetition is determined by its elements |
| Order.BelowComesFirst | internal/state/electricity.go:108-112 | the order of ids is that of the first character in which they differ, a prefix first |
| Electricity.AggregateElectricity | internal/state/electricity.go:108-134 | for any iteration order: gross is the least-id meter's power, monitored the sum over fresh plugs, stale the other plugs sorted |
| Electricity.AggregateIsUnique | internal/state/electricity.go:90-134 | that description admits one aggregate only |
| ElectricityTheory.StaleMeans | internal/state/electricity.go:84-134 | the stale list names exactly the plugs that are offline, never seen or last seen longer ago than their limit: the override's seconds if there is one, else 3600 s for a UPS and 900 s for any other |
| ElectricityTheory.GrossMeans | internal/state/electricity.go:95-119 | gross is seen exactly if some meter reports power, and is the power of the one whose id comes first |
| ElectricityTheory.PowerCounts | internal/state/electricity.go:113-134 | changing the power of a plug that is not stale changes monitored power watt for watt and takes it from the unmonitored; changing that of a stale plug, or of any other device but a meter, moves nothing |
| ElectricityTheory.NothingMonitored | internal/state/electricity.go:113-134 | with no plug that counts nothing is monitored |
| WholeHouse.Ledger.Apply | internal/state/engine_electricity.go:49-107 | a reading no newer than the last applied one changes nothing; any other extends the history, and the summary is the one the history determines |
| WholeHouse.Ledger.Recompute | internal/state/engine_electricity.go:36-107 | on a map without a meter nothing happens; otherwise the aggregate of that map is applied |
| WholeHouse.SummaryMeans | internal/state/engine_electricity.go:49-100 | a summary shows the recompute it came from, coverage as monitored over gross, and session energies that each grew by what lies between the last two recomputes |
| WholeHouse.TotalsMean | internal/state/engine_electricity.go:58-71 | each period total is the one last carried by a meter reading, if any was |
| WholeHouse.RecordsAreApplied | internal/state/engine_electricity.go:49-57 | exactly the recomputes later than every earlier one are applied, in their order |
| WholeHouse.SummaryBalances | internal/state/engine_electricity.go:55-87 | gross is monitored plus unmonitored, in power and in session energy |
| WholeHouse.SessionIsBounded | internal/state/engine_electricity.go:16-31 | gross power within P gives a session total within P times the time between first and last applied recompute |
| Interleavings.StoredIsApplied | internal/state/engine_electricity.go:101-107 | in every interleaving the stored summary is the integrators' own outside the lock and lags by exactly the one being stored inside it |
| Interleavings.RunBalances | internal/state/engine_electricity.go:36-107 | in every interleaving the stored summary balances |
| Interleavings.RunIsBounded | internal/state/engine_electricity.go:49-57 | in every interleaving applied times strictly rise and no energy is counted twice |
| Interleavings.StepForward | internal/state/store.go:325-351 | only storing a newer summary changes the stored one; replacing the house keeps it |
| Interleavings.RunForward | internal/state/store.go:317-351 | over every continuation ComputedAt never regresses and the summary is never lost |
| Interleavings.PlugsKeepTotals | internal/state/engine_electricity.go:58-71 | a plug's recompute leaves the meter's period totals as stored |
| Interleavings.IngestAlone | internal/state/engine_electricity.go:36-107 | an ingest that nobody disturbs stores its devices and, with a meter among them and a time later than the last applied one, exactly its recompute |
| Interleavings.HouseAlone | internal/state/store.go:317-351 | a house recompute that nobody disturbs stores its dimensions and keeps the electricity |
| Origin.ValidatePort | internal/origin/origin.go:388-404 | accepted exactly when it is the decimal text of a number in 1-65535 |
| Origin.ValidateHost | internal/origin/origin.go:343-384 | the canonical host or the error, label by label and character by character |
| Origin.CompileRule | internal/origin/origin.go:194-262 | the rule an entry stands for, or the error refusing it |
| Origin.Compile | internal/origin/origin.go:97-121 | the whole list compiled, or the first refused entry's error |
| Origin.Allow | internal/origin/origin.go:144-175 | the serialised canonical origin if some rule matches it, otherwise nothing |
| OriginTheory.CanonicalHost | internal/origin/origin.go:332-384 | a canonical host is its own canonical form, in the host alphabet and within 253 characters |
| OriginTheory.SplitUndoesSerialise | internal/origin/origin.go:268-330 | splitting undoes serialising for every scheme, canonical host and port |
| OriginTheory.AllowedIsFixed | internal/origin/origin.go:144-175 | what Allow answers, under any list, is itself allowed and answered unchanged |
| OriginTheory.AllowedIsSafeText | internal/origin/origin.go:127-150 | under any list the answer is the lone wildcard or bounded lower-case origin text, whatever the request carried: its bytes are never echoed |
| OriginTheory.WildcardAnswersAll | internal/origin/origin.go:144-150 | an accepted list with an entry that trims to the lone wildcard gives every request naming an origin the same answer, the wildcard |
| OriginTheory.SuffixIsSubdomain | internal/origin/origin.go:184-190 | the suffix test means proper subdomain by labels: any depth, never the apex, never a look-alike |
| OriginTheory.RuleMeans | internal/origin/origin.go:177-262 | a compiled entry matches exactly what its own text asks for: a wildcard the proper subdomains of what follows the star, a hostname of at least two labels, any other entry its one host |
| OriginTheory.PolicyMeans | internal/origin/origin.go:97-175 | an accepted list answers an origin exactly when the text of one of its entries admits it |
| OriginTheory.ExactAdmitsItself | internal/origin/origin.go:97-121 | every entry without a wildcard in an accepted list admits its own trimmed text |
| OriginTheory.OrderIsImmaterial | internal/origin/origin.go:97-121 | permuting or repeating entries changes neither acceptance nor any verdict |
| OriginEntries.HostMeans | internal/origin/origin.go:332-384 | a name is accepted, as it stands, exactly if it has at most 253 characters and each label is a name of at most 63; a bracketed text exactly if it is an IPv6 address, in its canonical spelling |
| OriginEntries.PortMeans | internal/origin/origin.go:388-404 | a port is exactly the decimal text of a number from 1 to 65535 |
| OriginEntries.ForbiddenIsRefused | internal/origin/origin.go:268-330 | a path, a query, a fragment or user information after the scheme makes it no origin, as an entry or in a request |
| OriginEntries.ExactIsAccepted | internal/origin/origin.go:194-262 | the text of an origin, with any port its rule may stand for, is an accepted entry, and its rule is that origin |
| OriginEntries.WildIsAccepted | internal/origin/origin.go:205-262 | a star and a dot before a name of at least two labels that is no address is an accepted entry, with that name as the suffix |
| OriginEntries.ListIsAccepted | internal/origin/origin.go:97-121 | a list is accepted exactly if each of its entries is |
| OriginEntries.CaseIsImmaterial | internal/origin/origin.go:144-175 | requests that differ in the case of letters only get the same verdict |
| OriginEntries.EntryCaseIsImmaterial | internal/origin/origin.go:194-262 | entries that differ in the case of letters only compile to the same rule |
| Text.JoinUndoesSplit | internal/origin/origin.go:369 | joining a host's labels gives the host back |
| Text.LabelsHaveNoDots | internal/origin/origin.go:369 | no label holds a dot, so the labels are the host cut at every dot |
| Text.TrimMeans | internal/origin/origin.go:195 | exactly the blanks on either side of an entry go |
| Text.DecimalOfValue | internal/origin/origin.go:392-399 | digits without a leading zero are the decimal text of their value |
| Publisher.RunIsSafe | internal/mqtt/publisher.go:69-115 | in every interleaving: no send on a closed channel, the queue within capacity, every attempt accounted for, queued jobs handed over in order, and all of them once Close returns |
| Publisher.ClosedDrains | internal/mqtt/publisher.go:98-115 | once the channel is closed the worker alone drains it and releases the waiters |
| Publisher.BypassOvertakesTheRest | internal/mqtt/publisher.go:203-216 | a job bypasses the queue only while none is set, and then overtakes exactly what is in hand or queued, so nothing exactly if all that was queued has been handed over |
| Publisher.FallbackAfterClose | internal/mqtt/publisher.go:203-216 | a run in which a publish after Close reaches the client before a job queued earlier |
| PublisherCalls.RefusedOnlyWhenFull | internal/mqtt/publisher.go:217-229 | at the select a job is queued if there is room at all, and refused only by a full queue |
| PublisherCalls.PublishReturns | internal/mqtt/publisher.go:203-229 | once the lock is free a publish returns by its own steps alone: queued if there is room, counted as dropped if the queue is full, handed over directly if there is no queue |
| PublisherCalls.CloseReturns | internal/mqtt/publisher.go:98-115 | once the lock is free Close returns by its own steps and the worker's, and by then every job queued is with the client |
| PublisherCalls.EveryCallIsAnswered | internal/mqtt/publisher.go:192-230 | in every interleaving each publish call is with the client, in hand, queued, dropped or about to be, or still under way: none is lost and none counted twice |
| PublisherCalls.NothingDroppedBelowCapacity | internal/mqtt/publisher.go:217-229 | as long as no more calls were made than the queue holds, nothing is dropped |
| Signals.SignalStore.Upsert | internal/state/signal_store.go:30-37 | the signal is filed and the mark rises to its start |
| Signals.SignalStore.ClearAt | internal/state/signal_store.go:42-49 | the signal goes and the mark rises to the event time |
| Signals.SignalStore.Prune | internal/state/signal_store.go:54-65 | in any order: exactly the expired signals go and the mark is the greatest of its old value and their expiries |
| Signals.SignalStore.Active | internal/state/signal_store.go:68-78 | the live signals, each once, in some order |
| Signals.MarkBoundsAll | internal/state/signal_store.go:13-17 | over every run the mark never falls and bounds the start of every signal ever asserted |
| Signals.HeldMeans | internal/state/signal_store.go:30-65 | over every run the store holds exactly the signals asserted and not replaced, cleared or pruned since |
| Signals.ActiveMeans | internal/state/signal_store.go:68-78 | of those, the live ones are exactly the ones whose time has not passed |
| Signals.MarkMeans | internal/state/signal_store.go:30-65 | over every run the mark is the latest instant any assertion, clearing or expiry has left |
| House.DeriveHouseState | internal/state/house.go:59-242 | for any order of devices and signals: the facts gathered are the declared ones, and each value of each dimension is taken exactly in its declared case |
| House.HouseIsUnique | internal/state/house.go:116-228 | the declared cases admit one house only |
| House.OrderIsImmaterial | internal/state/house.go:230-241 | the same devices and signals in any order give the same house |
| HouseTheory.FactsMean | internal/state/house.go:59-114 | the facts in terms of the devices and signals: none exactly without any, occupied by a signal or a telling device at work, the active devices and their count, and the latest trace of activity |
| HouseTheory.OccupancyMeans | internal/state/house.go:116-142 | occupied while something that tells is busy and until quietAfter past the latest activity, unknown from there until emptyAfter past it, and empty from then on |
| HouseTheory.BustleMeans | internal/state/house.go:147-161 | at rest with nothing active, quiet with one, lively with two or three, busy with four or more |
| HouseTheory.ModeMeans | internal/state/house.go:169-228 | each mode exactly when it is chosen; night and day differ by the hour only in a house at rest |
| House.MarkStandsForSignals | internal/state/house.go:100-114 | for every reachable signal store the most recent activity is the later of the devices' and the mark |
| House.RecentNeverFalls | internal/state/house.go:108-114 | asserting, clearing or pruning never moves the most recent activity backwards |
| House.OccupancyOnlyDeclines | internal/state/house.go:116-142 | with nothing active and nothing new, occupancy only moves from occupied through unknown to empty |
| House.LatePruneRevives | internal/state/signal_store.go:51-65 | pruning a signal late makes an unknown house occupied |
| House.PruneRaisesIff | internal/state/house.go:116-142 | a prune raises the occupancy exactly when nothing is active and a signal it removes expired inside a window that the most recent activity has left |
| House.PruneMovesRecentIff | internal/state/signal_store.go:51-65 | a prune moves the most recent activity exactly when a signal it removes expired later, and then to the latest expiry |
| House.ModeIsUnknownIff | internal/state/house.go:180-228 | exactly when the mode is undecided, exact equality with a window included |
| House.Record.SetHouse | internal/state/store.go:325-351 | electricity is kept, unchanged dimensions keep their time, and a change is reported exactly when some state differs |
| HouseTheory.DimensionMeans | internal/state/store.go:325-351 | after any run of updates a dimension holds the last state and the time of the last change |
| ActivityLog.Ring.Append | internal/state/activity_log.go:24-32 | the record joins the end of the log, the ring holding its last 50 |
| ActivityLog.Ring.Update | internal/state/activity_log.go:36-46 | only the newest held record with the id changes, by the given function |
| ActivityLog.UpdateMeans | internal/state/activity_log.go:36-46 | an update changes the newest of the last fifty records to carry the id, and no other |
| ActivityLog.AnswerMeans | internal/state/activity_log.go:49-61 | record by record, a request is answered with the log read backwards, as many as asked for, fifty or all, whichever is least |
| ActivityLog.Ring.Recent | internal/state/activity_log.go:49-61 | the log's last records newest first, as many as asked for and held, all held when the limit is not positive |
| ActivityLog.Serve | internal/state/activity_log.go:24-61 | after any run of appends and updates on a new ring, a request gets the reversed tail of the plain log those operations make |

## Left out

- Floating-point rounding, NaN and infinities: powers and energies are reals, so `ObserveMax` and `ObserveMin` do not show their non-finite checks.
- Saturation of very long durations: durations are unbounded integers, and elapsed seconds are truncated exactly.
- Replay: engine calls follow one another; readers holding a record while a call runs are not modelled, since no call writes to it.
- Upsert: takes a record under its own id, as its one caller gives it.
- Concurrent discovery: lookup and upsert are separate critical sections, so the index theorems are about sequential runs.
- The resolver (name hints, threshold merging, configured ids): its answers are parameters.
- Fields of the latest measurements other than power, energy, temperature and humidity: each is copied into a fresh cell in the same way.
- SetAvailability: takes an online or an offline report; any other value does nothing in the program.
- OnReading: `activeSince` and the logged summaries are carried by the program but decide nothing, and have no history counterpart.
- Runtime steps: the three threshold behaviours share their begin-or-end prologue as one method `Cross`, and the decay of finished_recently is a method of its own.
- SplitUndoesSerialise: `net.ParseIP` is a function of which only the RFC 5952 spelling of its IPv6 answers is assumed; input is ASCII, so non-ASCII case folding and spaces are outside the model.
- Publisher: Start is called once and has returned before Close is called; the client's publish call and JSON encoding are single steps that do not fail.
- DeriveHouseState: confidence values and the local hour are left out; whether it is night is a parameter.
- Interleavings: the map copy, aggregation and derivation read consistent values, as their locks provide; canonical event emission is left out.
- House record times: the clock value given to `setHouse` is a parameter.
- History files, HTTP handlers, configuration loading, MQTT and Influx clients, adapters and timestamp sanitising: input and output around the core.
