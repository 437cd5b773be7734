# DNS service: a verified model

The service turns a DNS configuration into running `dnsmasq` and `ddclient` processes, and reads
their files back to report an operational state.  This project models the parts of it that are hard
to get right and proves what they promise.  `dafny verify dfyconfig.toml` checks all of it.

| files | what they model |
|---|---|
| `VrfLoop`, `VrfProtocol`, `VrfGuarantees`, `VrfClients`, `VrfExistence` | the process that may only run while its VRF exists: the run loop, the protocol of callers, notifications and loop over channels of capacity one, what every interleaving keeps, which callers are served, and when a VRF creation can be lost |
| `DynamicFiles`, `DynamicValues`, `DynamicConfig`, `DynamicGuarantees`, `DynamicInstances` | dynamic DNS: the reconciler of interfaces, processes and files, what ddclient finds in the files, and several instances over the directories they share |
| `ForwardingData`, `ForwardingConfig`, `ForwardingGuarantees`, `ForwardingObject`, `ForwardingProcess` | a forwarding instance: the reconciler of file watchers, main file and process, and the process under the calls of `Set`, of the watchers' handlers, of state reads and of resets at once |
| `LeaseFiles`, `LeaseWatch`, `LeaseGuarantees`, `LeaseHistory` | the DHCP and system watchers: event loop, leases, the name server files derived from them, and which step wrote a file over every run |
| `Instances`, `InstanceGuarantees` | the top level: one object per routing instance |
| `Text`, `KeyValues`, `DnsmasqFiles`, `DnsmasqValues`, `DnsmasqReader` | the dnsmasq files: what the templates print, what dnsmasq finds there key by key, and what the recursive reader makes of them and of any line |
| `Provenance`, `EndToEnd`, `OperationalState` | the five-source merge of name servers; write, read and merge composed; and the whole instance, from runs of `Set`s and watchers to the merged state |
| `Statistics`, `DnsmasqLog`, `ResolvFiles` | the log and resolv.conf parsers, whole logs of any lines, and resolv.conf read back both ways |

How it is modelled:

- Concurrent code is a step system: a run is any sequence of enabled events, so `select` and the
  scheduler may choose anything.  Sequential code that changes fields is a class; each method is
  proved equal to a function, or to a relation where Go's map order is free, and the guarantees are
  lemmas over all runs of that function or relation.
- Processes, watchers and instance objects are numbered as they are made, so "each its own" and
  "never used again" are statements about numbers and call logs.
- What the outside decides (which error a process answers, how an update ends, which message
  `select` takes, what a lease holds, the date, the names a glob matches) is a parameter or an event.
- Closing a closed channel and indexing past a slice are explicit outcomes (`panicked`, `Panic`, `Panicked`).

Places where a promise one might expect does not hold, each with its exact condition or a run that shows it:

- a VRF creation can be lost exactly when the notification of an earlier removal is still unconsumed (`CreationLostExactly`);
- a call can be left waiting for ever exactly when something is called after Stop, and Stop can panic exactly when it is called twice (`UnansweredExactly`, `PanicExactly`);
- a watcher's handler, a state read or a reset can call a forwarding process after `Set` stopped it, and exactly then a call can be left waiting for ever (`InstanceServedExactly`); a state read or reset of a listed instance does so exactly when it is listed without forwarding, which is an ordinary configuration (`ReadReachesStopped`, `ReadOfUnconfigured`);
- a forwarding object configured again after its delete closes a watcher twice, exactly if it turns from resolv.conf's servers to its own (`ReusePanicsExactly`) or is deleted again (`SecondDeletePanics`), or has `Set` call its process after Stop (`LinearUnlessReused`); this happens exactly when a routing instance stays listed while its forwarding container is removed and added (`ForwardingBreaksWhenRevived`);
- after an update whose restart fails, the stored configuration is not the one in force, and after one whose environment file or restart fails not the one in the main file; this lasts exactly until an update with another configuration than the stored one succeeds, so setting the stored one again does not help (`AppliedExactly`, `MainFileExactly`, `FailedUpdateSticks`);
- a new forwarding object ignores an empty configuration (`IncrementalEqualsRebuild`);
- an interface with no name and no services is not written where there was none of no name (`StepFiles`); the schema keeps such an interface out, since every interface has at least one service (`min-elements` in yang/vyatta-service-dns-v1.yang, lines 268-269);
- a removed lease keeps its servers until the next `Set` (`FileExactly`, `RemovedLeaseCanHappen`); a handler of a stopped watcher can bring back the file of an interface no longer configured, and nothing else can (`LateHandlerRestoresFile`), or leave the servers of an older lease in the file of one that is (`CoherentUnlessLate`, `StaleLeaseCanHappen`);
- when an interface moves from one dynamic DNS instance to another in one `Set`, its files are lost exactly if the map order has it added before it is dropped (`SharedFilesExactly`);
- a name server whose value is empty reads back as `#` (`StaticLineRoundTrip`), a lease without servers as one empty server (`LeaseLineRoundTrip`), and the statistics of an address that starts with a colon, such as `::1`, are kept under another address (`ServerLogRoundTrip`).

## Model

| member | source | states |
|---|---|---|
| VrfLoop.RunLoop.constructor | internal/process/process.go:176-180 | the loop starts with what the existence check found and no action remembered |
| VrfLoop.RunLoop.Run | internal/process/process.go:176-204 | for any messages selected: belief and remembered action are what the messages say, the process was called exactly where they ask for it and in that order, and each accepted call got its one reply |
| VrfLoop.HandleFollows | internal/process/process.go:182-203 | one more message keeps the loop in step with the declarative meaning of all messages |
| VrfLoop.FactMeaning | internal/process/process.go:179-189 | the loop believes in the VRF exactly if an add is followed by no delete, or the VRF was there at first and no delete came |
| VrfLoop.NoCallWhileAbsent | internal/process/process.go:182-197 | every call of the process is made while the last consumed VRF fact says the VRF exists |
| VrfLoop.SeenMeansCarriedOut | internal/process/process.go:184-197 | while the VRF is believed to exist the last accepted action has been executed since its acceptance |
| VrfLoop.StopIsFinal | internal/process/process.go:148-157 | once Stop is the last accepted action every further call is Stop |
| VrfLoop.CallsExactly | internal/process/process.go:182-197 | a call is made exactly on an add, of the action accepted last, if any, even while the VRF is known to exist, and for an action accepted while it is |
| VrfLoop.RepliesExactly | internal/process/process.go:191-199 | the reply is what the process answered if the VRF was known to exist, and nil if the action was only remembered |
| VrfProtocol.InitInv | internal/process/process.go:107-142 | a new process satisfies the protocol invariant |
| VrfProtocol.StepInv | internal/process/process.go:107-220 | every event keeps it: channels hold at most one value, calls and replies are those of the consumed messages, and calls made are blocked, buffered or answered, each once |
| VrfProtocol.RunInv | internal/process/process.go:107-220 | so every run keeps it |
| VrfGuarantees.TraceRefinement | internal/process/process.go:176-204 | in every run the call log is the one the consumed messages ask for, with no call while the VRF is absent |
| VrfGuarantees.StopIsFinalInRun | internal/process/process.go:148-157 | in every run, once Stop is accepted and nothing after it, further calls are Stop, whatever notifications are buffered or blocked |
| VrfGuarantees.TakesInOrder | internal/process/process.go:190-199 | the loop takes the call that waited longest and answers it with what the process answered, or nil |
| VrfGuarantees.WithoutChecker | internal/process/process.go:214-219 | without a checker the loop believes in the VRF only once it was told of it |
| VrfGuarantees.NotifiedNoMore | internal/process/process.go:148-152 | once the subscriptions are cancelled nothing is notified any more, whichever VRFs are created or removed: both channels only shrink |
| VrfGuarantees.StopCancels | internal/process/process.go:148-153 | in every run, once Stop was called the subscriptions are cancelled |
| VrfGuarantees.OnlyCallsAreMade | internal/process/process.go:148-157 | with both channels empty then, the belief is the last there will be, and the process is called only for accepted calls, with their own actions |
| VrfGuarantees.EachIterationRemovesOne | internal/process/process.go:182-203 | each iteration consumes exactly one pending message |
| VrfGuarantees.NextIteration | internal/process/process.go:182-203 | before the loop has returned, whenever something is pending it can step |
| VrfGuarantees.Drain | internal/process/process.go:117-120 | with no new input everything pending is consumed after exactly as many iterations as there are messages |
| VrfGuarantees.NothingPendingNothingWaits | internal/process/process.go:143-174 | then no sender is blocked and every call has its reply |
| VrfGuarantees.OneReplyEach | internal/process/process.go:191-199 | every call has at most one reply on its own channel, nil if deferred and the process's answer otherwise, exactly one once accepted |
| VrfClients.DisciplinedCallsAllAnswered | internal/process/process.go:143-174 | if nothing is called once Stop was called, whatever is outstanding then, `done` is closed once and only after every call was answered |
| VrfClients.UnansweredExactly | internal/process/process.go:143-204 | from the start, for any number of callers at once: some interleaving of these calls leaves one waiting for ever if and only if one comes after a Stop |
| VrfClients.LateCallUnanswered | internal/process/process.go:148-157 | such a run from the start, in which every call is made only when all before it are answered |
| VrfClients.UnansweredForever | internal/process/process.go:200-201 | a call waiting when the loop has returned waits for ever |
| VrfClients.PanicExactly | internal/process/process.go:148-157 | from the start, some interleaving closes `done` twice if and only if Stop is called twice |
| VrfClients.TwoStopsPanic | internal/process/process.go:148-157 | a run from the start in which it does |
| VrfClients.CallEndangeredExactly | internal/process/process.go:143-204 | after any disciplined run, a further call can end unanswered or in a panic with no call after it if and only if Stop was called before it |
| VrfClients.PlannedCallsServed | internal/process/process.go:143-204 | callers whose calls have Stop only last are all answered, in every interleaving, and nothing panics |
| VrfGuarantees.NoReplyAfterExit | internal/process/process.go:200-201 | after the loop has returned no reply is ever sent |
| VrfExistence.CreationAnnounced | internal/process/process.go:122-139 | creating the VRF is never missed: the existence check sees it or a notification is sent |
| VrfExistence.NoLostCreation | internal/process/process.go:122-139 | a VRF created with no delete unconsumed, and not removed again, is believed in once everything is drained, and the last accepted action has been executed |
| VrfExistence.NoMissedVrf | internal/process/process.go:176-180 | the same for a VRF there from the start |
| VrfExistence.BeliefIsTrueAtRest | internal/process/process.go:118-119 | when changes wait for notifications to be consumed, belief equals existence, both ways, whenever none is on its way |
| VrfExistence.InitTruthful | internal/process/process.go:107-142 | a new process with a checker starts in such a state |
| VrfExistence.CreationLostExactly | internal/process/process.go:117-139 | over every run from the start: a creation of the VRF before shutdown can be lost if and only if a removal's notification is unconsumed when it happens, whatever else is buffered or blocked |
| VrfExistence.CreationLostBehindDelete | internal/process/process.go:182-189 | from every start there is a run to where a creation can be lost |
| DynamicFiles.PathsApart | internal/dynamic/config.go:19-26 | files of different interfaces, and of different kinds, have different paths |
| DynamicFiles.ProcessPathsApart | internal/dynamic/config.go:19-26 | so have the process and cache files |
| DynamicInstances.DefaultPaths | internal/dynamic/config.go:161-168 | where the four files of an interface are by default |
| DynamicValues.ConfSays | internal/dynamic/config.go:28-51 | what ddclient finds in an interface's file: its process and cache file and its name, and every host of every service, in order, with the protocol mapped from the service's name, a server exactly if there is one, and the service's own login and password |
| DynamicValues.SettingsSaid | internal/dynamic/config.go:28-33 | and the settings every file has |
| DynamicValues.EnvSays | internal/dynamic/config.go:52-57 | the environment file names the instance's VRF and the interface's configuration file |
| DynamicValues.SetSays | internal/dynamic/config.go:281-340 | after a `Set` every interface it added or changed has so its own accounts in its own file, and its instance's VRF |
| DynamicValues.UnitsApart | internal/dynamic/config.go:20 | different interfaces have different units |
| DynamicConfig.LastOfName | internal/dynamic/config.go:192-202 | of several interfaces with one name the last counts |
| DynamicConfig.Config.Set | internal/dynamic/config.go:188-218 | one `Set` in any map order: which processes run, which are made, stopped and reloaded, and every file afterwards |
| DynamicConfig.Config.GetInactive | internal/dynamic/config.go:227-239 | the interfaces to stop, with their processes |
| DynamicConfig.Config.StopInactive | internal/dynamic/config.go:220-225 | each is stopped once and its files removed, nothing else changes |
| DynamicConfig.Config.StopInterface | internal/dynamic/config.go:241-263 | one stop, four files removed |
| DynamicConfig.Config.UpdateActive | internal/dynamic/config.go:281-298 | kept interfaces keep their process, new ones get their own; those that differ are written and reloaded once |
| DynamicConfig.Config.UpdateInterface | internal/dynamic/config.go:300-340 | both files written, one reload |
| DynamicGuarantees.StepLinear | internal/dynamic/config.go:188-298 | a `Set` keeps: running names are the configured ones, each process is its own, and none runs that was stopped |
| DynamicGuarantees.RunLinear | internal/dynamic/config.go:188-298 | over any run, with deletes anywhere, each process is stopped at most once and never called after |
| DynamicGuarantees.ReaddedIsFresh | internal/dynamic/config.go:281-298 | an interface added again gets a process never called before |
| DynamicGuarantees.StepFiles | internal/dynamic/config.go:241-340 | a `Set` leaves exactly the files of the configuration it sets if and only if this has no interface equal to the zero value, or there was one of no name before |
| DynamicGuarantees.StepProcessFiles | internal/dynamic/config.go:248-262 | an interface's process and cache files are removed with it, or with the configuration, and otherwise left alone |
| DynamicGuarantees.DeleteCleans | internal/dynamic/config.go:342-351 | with the configuration everything in the run and cache directories goes |
| DynamicGuarantees.StepOtherFiles | internal/dynamic/config.go:241-340 | a file of no interface is left alone |
| DynamicGuarantees.IncrementalEqualsRebuild | internal/dynamic/config.go:188-340 | any two runs ending in one configuration end with the same running names and files, dates aside |
| DynamicGuarantees.SetCalls | internal/dynamic/config.go:220-298 | each `Set` reloads once exactly the interfaces added or changed and stops once exactly those removed |
| DynamicGuarantees.StopsFirst | internal/dynamic/config.go:204-208 | whatever is removed is stopped before anything is reloaded, and nothing else is called |
| DynamicGuarantees.EachClientStopsLast | internal/dynamic/config.go:241-246 | the calls made of one process have Stop only at the end |
| DynamicGuarantees.ProcessesServed | internal/dynamic/config.go:188-298 | so every VRF-dependent process of dynamic DNS answers all its calls, over any run and any interleaving |
| DynamicInstances.SharedFilesExactly | config.go:154-190 | several instances over one set of directories: one top-level `Set`, in the order its turns are taken, leaves exactly the files of the configurations it sets if and only if no interface is added by one instance before another drops it |
| DynamicInstances.DefaultSeparate | internal/dynamic/config.go:161-168 | with the default directories, removing an instance's run and cache directories spares every configuration and environment file |
| ForwardingObject.Config.constructor | internal/forwarding/config.go:226-276 | a new object: the empty configuration, no watcher, no call |
| ForwardingObject.Config.StopWatcher | internal/forwarding/config.go:462-467 | closes the watcher, panicking on a second close, and leaves nil alone |
| ForwardingObject.Config.SetDhcpInterfaces | internal/forwarding/dhcp.go:52-64 | the old watcher is closed, a new one started exactly for a non-empty list |
| ForwardingObject.Config.SetSystemServers | internal/forwarding/system.go:47-58 | the old watcher is closed, a new one started exactly if asked for |
| ForwardingObject.Config.UpdateConfiguration | internal/forwarding/config.go:300-354 | the whole new state of an update, for each way it can end |
| ForwardingObject.Config.DeleteConfiguration | internal/forwarding/config.go:370-399 | the whole new state of a delete, which keeps the closed watchers' fields |
| ForwardingObject.Config.SetConfig | internal/forwarding/config.go:282-298 | nothing for an equal configuration, else update or delete, stored unless it failed; and after it, unless something was configured again after a delete, no watcher was closed twice, the open ones are those called for, and Stop is `Set`'s last call |
| ForwardingGuarantees.WatcherOwnership | internal/forwarding/config.go:332-347 | over every run with no update after a delete, whatever fails: no watcher is closed twice, the open ones are exactly one of each kind the last applied configuration calls for, and none after the delete |
| ForwardingGuarantees.NeverBothOnResolv | internal/forwarding/config.go:332-347 | the reload watcher and the system watcher on resolv.conf are never open together |
| ForwardingGuarantees.LinearUnlessReused | internal/forwarding/config.go:370-376 | no close panics and `Set` itself calls nothing after its Stop exactly when no update reaches the watchers after a delete |
| ForwardingGuarantees.ReusePanicsExactly | internal/forwarding/config.go:332-399 | configured again after its delete an instance panics if and only if it then takes its servers from the configuration and before did not; otherwise the stopped process is restarted and the hosts file watched no more |
| ForwardingGuarantees.SecondDeletePanics | internal/forwarding/config.go:370-399 | and deleting it a second time always panics |
| ForwardingProcess.InstanceServedExactly | internal/forwarding/config.go:263-272 | with anybody else calling anything but Stop on the one process at any time beside `Set`: nothing panics, and a call can be left waiting for ever if and only if something other than `Set` calls after `Set`'s Stop |
| ForwardingProcess.OneMoreCall | internal/forwarding/rpc.go:17-25 | while nobody has called after Stop, one more call from elsewhere can end so if and only if `Set` has called Stop |
| ForwardingProcess.LateCallLeftWaiting | internal/fswatcher/fswatcher.go:151-153 | after any run ending in a delete, one late call, a handler's, a reset's or a state read's, can wait for ever, by a run from the start |
| ForwardingGuarantees.SuccessInStep | internal/forwarding/config.go:282-330 | while updates succeed the configuration stored is the last one given, the main file is its rendering once anything was applied, and there is none after a delete |
| ForwardingGuarantees.IncrementalEqualsRebuild | internal/forwarding/config.go:282-347 | if the last update that wrote anything succeeded, whatever failed before, the object agrees with one update from scratch on configuration, main file and open watchers, exactly unless the stored configuration is the empty one and something was written |
| ForwardingGuarantees.AppliedExactly | internal/forwarding/config.go:284-297 | over every run without a delete: the open watchers are those of the last update to reach them, whose configuration is the stored one if and only if it ended in success |
| ForwardingGuarantees.MainFileExactly | internal/forwarding/config.go:306-330 | the main file is the rendering of the last update to reach it, whose configuration is the stored one if and only if neither environment file nor restart failed |
| ForwardingGuarantees.FailedUpdateSticks | internal/forwarding/config.go:284-297 | after such a failure, going back leaves the main file, and after a failed restart the watchers, as the failed update made them |
| LeaseFiles.ReadLease | internal/forwarding/dhcp.go:169-186 | the name servers of the marked lines of a lease, unquoted, in order |
| LeaseFiles.ReadSystem | internal/forwarding/system.go:139-153 | the name servers of the marked lines of resolv.conf, in order |
| LeaseFiles.SystemLineHasTwoFields | internal/forwarding/system.go:142-144 | the reader never indexes past a marked line's fields |
| LeaseFiles.MarkAnywhere | internal/forwarding/system.go:139-153 | a line with the mark gives its second word, whatever its first |
| LeaseFiles.FilesApart | internal/forwarding/config.go:238-239 | different interfaces have different lease and derived files |
| LeaseFiles.LeaseLineRoundTrip | internal/forwarding/dhcp.go:171-178 | a lease line reads back as its servers exactly when it has any |
| LeaseFiles.LeaseRoundTrip | internal/forwarding/dhcp.go:169-186 | a whole lease gives the servers its marked line names |
| LeaseFiles.LeasesAppend | internal/forwarding/dhcp.go:169-186 | several marked lines give all their servers, in order |
| LeaseFiles.KeyAnywhere | internal/forwarding/dhcp.go:169-186 | a line with the key anywhere gives everything after its first `=` or space, in pieces without quotes |
| LeaseFiles.LeaseToServers | internal/forwarding/dhcp.go:155-186 | lease, derived file and dnsmasq reader composed give the lease's servers |
| LeaseWatch.HandledAlone | internal/fswatcher/fswatcher.go:62-110 | a closing is handled exactly when the event announces nothing else but attributes |
| LeaseWatch.FileMapMeans | internal/forwarding/dhcp.go:91-97 | every name is found under its watched file, and no other |
| LeaseWatch.LastTurnWins | internal/fswatcher/fswatcher.go:132-148 | after any events a derived file is that of the last closing handled for it |
| LeaseWatch.UnhandledKept | internal/fswatcher/fswatcher.go:132-148 | files nothing was handled for are as they were |
| LeaseWatch.RestartForEachClosing | internal/forwarding/dhcp.go:124-138 | dnsmasq is restarted once for each closing of a watched file whose lease is there, and for nothing else |
| LeaseWatch.Reconciler.RemoveConfFiles | internal/forwarding/dhcp.go:43-50 | exactly the files of the old interfaces are removed (the system file always, internal/forwarding/system.go:40-45) |
| LeaseWatch.Reconciler.ReadExisting | internal/forwarding/dhcp.go:98-105 | the files of the leases there are, in any order |
| LeaseWatch.Reconciler.SetNames | internal/forwarding/dhcp.go:52-64 | the files after `Set`: removed, then derived from the leases there are |
| LeaseWatch.Reconciler.HandleCloseWrite | internal/forwarding/dhcp.go:132-146 | a watched lease that can be opened is derived anew and dnsmasq restarted, otherwise nothing changes |
| LeaseWatch.Reconciler.Run | internal/fswatcher/fswatcher.go:113-149 | the event loop over the events it is handed: the files, and one restart for each file written |
| LeaseGuarantees.StepInv | internal/fswatcher/fswatcher.go:113-153 | every step of leases, event loop and `Set` keeps the files coherent, no lease change being excluded |
| LeaseGuarantees.DerivedFilesCoherent | internal/forwarding/dhcp.go:91-145 | in every run without late writes no file is left of an interface not configured, and once a lease's closings are handled its file is the rendering of what is in the lease |
| LeaseGuarantees.SetAt | internal/forwarding/dhcp.go:43-64 | `Set` leaves a derived file exactly for each configured interface with a lease |
| LeaseGuarantees.SettledEqualsRebuild | internal/forwarding/dhcp.go:52-145 | whatever leases are written, renewed and removed, a settled file is the one deriving anew would give, and there is one exactly for a configured name with a lease |
| LeaseGuarantees.LoopSettles | internal/fswatcher/fswatcher.go:132-148 | left alone the loop settles in at most two steps an event |
| LeaseGuarantees.EventuallyCoherent | internal/forwarding/dhcp.go:132-146 | and then every announced lease is reflected |
| LeaseGuarantees.LeasesReadBack | internal/forwarding/dhcp.go:76-186 | leases, resolv.conf, both watchers and the conf-dir reader composed: the files matched, interfaces' and the system one, read file by file as the servers in the leases and those marked in resolv.conf |
| LeaseGuarantees.DefaultsShareDir | internal/forwarding/config.go:236-239 | the default files of the two watchers are different ones |
| LeaseGuarantees.DefaultPaths | internal/forwarding/config.go:236-239 | and where they are |
| LeaseHistory.FileExactly | internal/forwarding/dhcp.go:43-146 | over every run from any state, late writes included: a file has a text if and only if the last step to write or remove it, a `Set` or a handler, wrote that text, or no step did and it had it before |
| LeaseHistory.RestartForEachHandler | internal/forwarding/dhcp.go:124-130 | over every run dnsmasq is restarted once by every handler that writes, a stopped watcher's too |
| LeaseHistory.RemovedLeaseCanHappen | internal/fswatcher/fswatcher.go:86-93 | from every start with a lease there is a run that ends with the file, every event handled, and no lease |
| LeaseHistory.LateHandlerRestoresFile | internal/fswatcher/fswatcher.go:151-153 | over every run from the start: a name not configured has a file if and only if a handler of a stopped watcher wrote it and no later `Set` removed it |
| LeaseHistory.LateHandlerCanHappen | internal/forwarding/dhcp.go:52-64 | from any new object and any lease there is a run to where such a write is due |
| LeaseHistory.LaterLeaseCanHappen | internal/fswatcher/fswatcher.go:132-153 | there is one too in which the lease is written only after the `Set` that removed its interface, and its file comes back |
| LeaseHistory.CoherentUnlessLate | internal/forwarding/dhcp.go:91-146 | over every run from the start, late writes included: the file of a settled name with a lease is the rendering of that lease, or the last write to it was a late one |
| LeaseHistory.StaleLeaseCanHappen | internal/fswatcher/fswatcher.go:151-153 | from every start there is a run that leaves a configured, settled name with the rendering of an older lease |
| Instances.Config.WantedInstances | config.go:108-116 | the configuration for each instance, the last of one name counting |
| Instances.Config.Sync | config.go:107-144 | one `Set` in any map order: instances, objects and what each object was given (the same again for dynamic DNS, lines 154-190) |
| InstanceGuarantees.NamesListed | config.go:108-116 | there is an instance for each name in the configuration, and for the default if configured |
| InstanceGuarantees.SetReaches | config.go:107-144 | one `Set`, from whatever there was: the objects are those of the names configured, the default included, and each was last given what the configuration says of its name, its last entry or the default |
| InstanceGuarantees.SetReachesEach | config.go:107-144 | so with different names each instance was given its own configuration, the default its own |
| InstanceGuarantees.EachItsOwn | config.go:108-116 | with different names each instance gets its own configuration |
| InstanceGuarantees.Reconciled | config.go:117-144 | after every `Set` of a run: one object for each instance, kept instances keep theirs, new ones get one never used |
| InstanceGuarantees.DroppedOnce | config.go:118-123 | a dropped object gets exactly one deleting `Set` and is never used again |
| InstanceGuarantees.ReusedExactlyWhenRevived | config.go:113-143 | an object is configured after its delete exactly when an instance stays listed without the service and then with it |
| InstanceGuarantees.DeleteIsLast | config.go:107-144 | if every instance listed has the service no object gets a `Set` after its delete |
| InstanceGuarantees.ForwardingLinear | config.go:107-144 | without such a revival no forwarding object closes a watcher twice or has its `Set` call the process after Stop, however updates end |
| InstanceGuarantees.ForwardingServedExactly | config.go:107-144 | and a call of an object's process can be left waiting for ever if and only if something other than its `Set` calls after `Set`'s Stop |
| InstanceGuarantees.StoppedExactlyWithoutService | config.go:113-143 | without a revival, the process of an instance in the map has been stopped if and only if the instance is listed without forwarding |
| InstanceGuarantees.ReadReachesStopped | state.go:46-68 | so a state read or reset of it can end in a call left waiting for ever if and only if it is listed without forwarding |
| InstanceGuarantees.ReadOfUnconfigured | internal/forwarding/state.go:116-122 | the run: a first configuration with one routing instance without forwarding, then one state read |
| InstanceGuarantees.ForwardingBreaksWhenRevived | config.go:113-143 | and when updates succeed some object does exactly if there is one |
| Provenance.NoPlainServer | internal/forwarding/state.go:190-199 | servers dnsmasq does not name are in use exactly if it has none without a domain |
| Provenance.KnownServers | internal/forwarding/state.go:201-264 | for every known address a record of its own, with the verdict of the declarative specification, and no other |
| Provenance.ApplyDnsmasq | internal/forwarding/state.go:236-264 | the dnsmasq servers mark, extend and add records as the specification says |
| Provenance.StateData.ReadProvenance | internal/forwarding/state.go:177-288 | the merged list: state-file entries first and in order, each known server after them once, in any order |
| Provenance.MergeConserves | internal/forwarding/state.go:266-287 | counters and ports unchanged, addresses exactly those of state file, resolv.conf and dnsmasq, distinct if they were |
| Provenance.AddedServer | internal/forwarding/state.go:201-287 | a server the state file did not have is listed once, on port 53, with no queries, and is in resolv.conf or dnsmasq's files |
| Provenance.Verdict | internal/forwarding/state.go:188-264 | every known entry's provenance, use, domains and override-only flag, by the specification |
| Provenance.UnknownUntouched | internal/forwarding/state.go:266-279 | an entry nobody knows stays as the state file had it |
| DnsmasqFiles.StaticLineRoundTrip | internal/forwarding/config.go:29-31 | a static name server survives writing and reading exactly when it is one non-empty word |
| DnsmasqFiles.OverrideLineRoundTrip | internal/forwarding/config.go:32-34 | a domain override exactly when both parts are words without slashes |
| DnsmasqFiles.MainFileRoundTrip | internal/forwarding/state.go:484-529 | the main file of a readable configuration at readable paths reads as the static servers, the overrides, and what the conf-dir holds |
| DnsmasqFiles.DepthDoesNotMatter | internal/forwarding/state.go:508-521 | a reading that ends within some depth of included files is the same at every greater depth |
| DnsmasqValues.ListensOn | internal/forwarding/config.go:25-27 | the main file has dnsmasq listen on exactly the interfaces configured, in order |
| DnsmasqValues.CacheSizeSaid | internal/forwarding/config.go:28 | it has one cache size, the one configured |
| DnsmasqValues.LogSaid | internal/forwarding/config.go:22 | one log, the state file |
| DnsmasqValues.HostsSaid | internal/forwarding/config.go:39 | one hosts file |
| DnsmasqValues.ResolvSaid | internal/forwarding/config.go:35-37 | a resolv file exactly if there are DHCP interfaces, name servers or the system's |
| DnsmasqValues.ConfDirSaid | internal/forwarding/config.go:40 | one directory of further files, with its extensions |
| DnsmasqValues.PacketSizeSaid | internal/forwarding/config.go:23-24 | the packet size, and neither polling nor hosts |
| DnsmasqValues.ServersSaid | internal/forwarding/config.go:29-34 | every name server and then every override, in order, each with where it is from |
| DnsmasqValues.NoOtherKey | internal/forwarding/config.go:19-41 | and no other key |
| DnsmasqValues.DhcpFileSays | internal/forwarding/dhcp.go:19-25 | an interface's file has its servers, each with the interface, and is empty exactly if there are none |
| DnsmasqValues.SystemFileSays | internal/forwarding/system.go:17-23 | and the system file the system's |
| DnsmasqValues.ServerLineExactly | internal/forwarding/state.go:494-500 | what any line with `server=` is read as, word by word, and exactly when it panics |
| DnsmasqValues.NoCommentPanics | internal/forwarding/state.go:496 | a server without a comment panics, and the reading of its file with it |
| DnsmasqValues.ConfDirLineExactly | internal/forwarding/state.go:501-507 | what any line with `conf-dir=` is read as; one with both is a server line |
| DnsmasqValues.OnePattern | internal/forwarding/state.go:505-521 | the files read are those matching directory, slash and pattern, in order |
| DnsmasqReader.ReadText | internal/forwarding/state.go:484-529 | the reader's loop computes the meaning of a file |
| DnsmasqReader.ReadConfDir | internal/forwarding/state.go:501-507 | and its loop over patterns |
| DnsmasqReader.ReadMatches | internal/forwarding/state.go:508-521 | and over the files a pattern matches |
| EndToEnd.GeneratedRoundTrip | internal/forwarding/system.go:132-137 | a generated DHCP or system file reads as its servers and names no further file |
| EndToEnd.ConfDirRoundTrip | internal/forwarding/state.go:501-521 | with generated files the recursive reader ends one level down and returns main file, then files in glob order |
| EndToEnd.EmptyConfDirRoundTrip | internal/forwarding/config.go:19-41 | with an empty conf-dir exactly the configured servers come back, in order |
| EndToEnd.DomainsReadBack | internal/forwarding/config.go:32-34 | every server has exactly its configured domains, in order |
| EndToEnd.PlainReadBack | internal/forwarding/state.go:190-199 | a server for every domain is read exactly if the configuration or the conf-dir has one |
| EndToEnd.WriteReadMerge | internal/forwarding/config.go:401-419 | write, read, merge: configured servers are configuration, in use and not for overrides only; override servers have exactly their domains; others are in use exactly if no file has a plain server |
| EndToEnd.ConfiguredListed | internal/forwarding/state.go:266-287 | every configured server is in the merged list |
| OperationalState.StateOfLastWritten | internal/forwarding/state.go:162-168 | after any run of `Set`s without a delete and any settled runs of the watchers, the merged state shows the configuration last written: its name servers and the leased ones are configuration, in use and not for overrides only, overrides have exactly their domains, others are in use exactly if no file has a plain server; and it is the stored configuration exactly if its update succeeded |
| OperationalState.StateIsRead | internal/forwarding/state.go:484-529 | then the reader ends one level down without a panic |
| Statistics.ParseUint | internal/forwarding/state.go:327-346 | a number too large for the width gives the largest, anything else that is no number gives 0, and the result always fits the width |
| Statistics.DecimalRoundTrip | internal/forwarding/state.go:327-331 | a printed number is read back, or as the largest of the width |
| Statistics.ParsedExactly | internal/forwarding/state.go:327-346 | what any digits with anything after them are read as: their number, the largest of the width if it is too large, 0 if it fits and something follows |
| Statistics.Stats.ReadCacheStats | internal/forwarding/state.go:318-354 | the cache figures line by line, a line without a pair of entries giving only the size |
| Statistics.Stats.ReadQueryStats | internal/forwarding/state.go:356-380 | the query figures line by line |
| Statistics.Stats.ReadNameserverStats | internal/forwarding/state.go:382-429 | the servers line by line |
| Statistics.Stats.ReadStateData | internal/forwarding/state.go:290-316 | all three over one log |
| Statistics.ServersOfConcatenation | internal/forwarding/state.go:382-429 | the servers of two logs are those of the first and then of the second |
| Statistics.LaterCacheWins | internal/forwarding/state.go:318-354 | the last whole cache line decides, whatever went before |
| Statistics.LaterQueriesWin | internal/forwarding/state.go:356-380 | so does the last query line |
| Statistics.CacheLogRoundTrip | internal/forwarding/state.go:320-350 | what dnsmasq logs of its cache is read back |
| Statistics.CacheSizeAlone | internal/forwarding/state.go:331-337 | a cache line whose entries are no pair gives only the size |
| Statistics.QueryLogRoundTrip | internal/forwarding/state.go:358-377 | and of its queries |
| Statistics.ServerLogRoundTrip | internal/forwarding/state.go:385-424 | and of a server, exactly if its address has no `#`, as one of the system in use for every domain; the address exactly when it does not start with a colon |
| DnsmasqLog.NoCacheLine | internal/forwarding/state.go:320 | a line without `cache size` leaves the cache figures as they are, wherever it stands |
| DnsmasqLog.NoQueryLine | internal/forwarding/state.go:358 | one without `queries forwarded` the query figures |
| DnsmasqLog.NoServerLine | internal/forwarding/state.go:386 | and one without `server` the servers |
| DnsmasqLog.LogReads | internal/forwarding/state.go:290-316 | a log that mixes cache, query and server lines with any others is read as exactly what it reports: the figures of the last cache line and of the last query line, and every server in order |
| DnsmasqLog.OneCacheEntry | internal/forwarding/state.go:318-354 | so with one cache line, wherever it stands, the figures are its own |
| Statistics.ReadResolvNs | internal/forwarding/state.go:431-444 | the name servers of a resolv.conf, or the panic |
| Statistics.PanicsExactly | internal/forwarding/state.go:431-438 | it panics exactly on a line that starts with `nameserver` and has no blank |
| Statistics.KeywordLine | internal/forwarding/state.go:431-438 | a line that starts with `nameserver`, even within a longer word, gives its second word |
| ResolvFiles.ResolvRoundTrip | internal/forwarding/state.go:431-444 | of a resolv.conf, with any other lines among them, the state reader gives every name server, in order |
| ResolvFiles.SystemRoundTrip | internal/forwarding/system.go:139-153 | and the system watcher exactly those the system component marked, in order |
| ResolvFiles.SystemToServers | internal/forwarding/system.go:90-153 | resolv.conf, derived file and dnsmasq reader composed give the marked servers |
| Text.FieldsOfSpaced | vendor/github.com/msoap/byline/byline.go:203-215 | the fields of a line are its words, whatever the gaps between them |
| Text.WordsAndGaps | vendor/github.com/msoap/byline/byline.go:203-215 | and every line is made of words and gaps |

## Left out

- systemd, D-Bus, fsnotify and the VRF subscriber: foreign; a process is a log of calls with arbitrary answers, a watcher a queue of events.
- State.Get and its signal, truncation and timeout; the globbing of dhclient and ppp resolv files: their contents are inputs of the merge.
- The top-level state, RPC, cache file, logging and command wiring: they would only add easy members.
- Failing file operations, except a failing start of an update (`DirsFail`, `EnvFail`), a failing restart, and a file that cannot be opened by a reader or a handler.
- The environment file of a forwarding instance; the directories made and removed; files of the conf-dir beside the derived ones when it is removed.
- Blocked channel senders are served in the order they came, as the Go runtime does.
- `reflect.DeepEqual` tells a nil slice from an empty one; the model's sequences do not.
- How dnsmasq and ddclient parse their files: they are foreign; the readers of `KeyValues` and `DynamicValues` stand for them, line by line.
- A derived file is written in one step; between opening and writing it is empty.
- DnsmasqLog.LogReads: the words before a report are none of those looked for, as in every log dnsmasq writes.
- DynamicValues.ConfSays: names, logins, passwords and paths have no line ends, as the templates escape nothing.
- Lines are matched without their end, which none of the patterns contains.
- DnsmasqReader.ReadText: reads to a depth given as fuel, since a file that names its own directory would be read without end; the depth does not matter once the reading ends (`DepthDoesNotMatter`), and one level is enough for generated files.
- DnsmasqFiles.MainFileRoundTrip: names are words and paths and interface names free of line ends and of the markers `server=` and `conf-dir=`, as a line with one is read as such; `StaticLineRoundTrip` and `OverrideLineRoundTrip` are exact.
- VrfExistence.CreationLostExactly: speaks of creations before shutdown begins, as Stop cancels the subscriptions.
- LeaseGuarantees.DerivedFilesCoherent: is about runs in which no stopped watcher's handler writes, and starts with no derived file left from before; `LeaseHistory` is about all runs.
- DynamicGuarantees.IncrementalEqualsRebuild: is about one instance in its own directories; `SharedFilesExactly` is about instances that share them, for configuration and environment files.  The process and cache files of all instances go when one of them is deleted, as they share those directories.
- LeaseGuarantees.SettledEqualsRebuild: supposes that removing a file is not announced as a closing of it.
- VrfExistence.BeliefIsTrueAtRest: for environments in which a notification is consumed before the next change, as the notifications of adds and deletes have no common order.
- The YANG model's uniqueness of keys and values (sections 7.7 and 7.8.2 of RFC 6020) is used only by `EachItsOwn`; elsewhere repeated names are handled as the code does.
