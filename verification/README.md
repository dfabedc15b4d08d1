# myrun, modelled and proved in Dafny

`myrun` is a Linux container runtime whose protocols, allocators, compilers and
codecs are all its own. This project models the parts with an algorithm in them and
proves what they promise, for every input, every interleaving and every failure.

* **Launching** (`Launch`, `LaunchSafety`, `LaunchTheorems`, `Rollback`). The parent
  and init are one state machine. Any step may fail, either process may be killed
  between any two steps, and other containers may change whatever is not ours at any
  time. An inductive invariant over all runs gives the order of the two processes, the
  absence of deadlock, a bound on the number of steps, and what a failed launch leaves.
* **Addresses** (`Ipv4`, `Ipam`, `IpamConcurrent`). CIDR arithmetic, the allocator and
  its lease file, and any number of processes sharing that file, which refine an atomic
  allocator.
* **Codecs** (`Bytes`, `Utf8`, `Json`, `JsonRoundTrip`, `JsonGrammar`, `JsonParser`, `Ipc`,
  `JsonText`, `ExitRelay`, `Netlink`, `Toml`, `TomlValue`, `Env`, `Config`, `HandOver`,
  `StateFile`). JSON (RFC 8259), the frames of the sync channel, netlink attributes
  (section 2.2 of RFC 3549), TOML arrays, `config.json` on its way from the command line
  tool to init, and `state.json`.
* **Seccomp** (`Seccomp`). A classic BPF interpreter, and the filter compiler proved
  against the decision it is meant to take.
* **Lifecycle and gc** (`Lifecycle`, `Gc`). The verbs of a container as atomic steps, and
  what a garbage collection makes of a host.
* **Calendar** (`Calendar`), **command line** (`Cli`, `CliGrammar`) and **packet filter
  rules** (`Nat`, `NatCleanup`, `NatPackets`): how arguments and rules are read and
  found again, and what lines of arguments and published ports mean.

Code that changes things step by step is modelled by methods with loops and by classes
whose methods are proved equal to specification functions (`Ipc.Reader`,
`Ipam.LeaseStore`, `Netlink.MsgBuilder`, `JsonParser.Parser`, `Rollback.Rollback`,
`Lifecycle.Container`, `Gc.Host`, `NatCleanup.Firewall`, `Env.Settings`); the lemmas are
about those functions. `Text` and `Wrappers` hold what the others share.

## Where the code does less than one might expect

Each of these is a property that fails on some inputs; the lemma named says exactly when
it holds.

* The rules of published ports are registered for undo only after the whole publish
  loop, so a failure inside the loop leaves rules behind:
  `LaunchTheorems.LeaksExactlyInPublishLoop`, and `PublishLoopLeaks` for runs that do it.
* When `clone3` is not usable the child starts outside the cgroup although the parent
  believes it is inside; a failure before its undo is registered leaves it alive. It
  never gets GO: `LaunchTheorems.CloneWindowLeaks`. The one step that can fail there is an
  injected fault (`after_clone`).
* The undo of the process kills init alone. Outside the cgroup, a container without its
  own pid namespace leaves its workload running when the launch fails after the fork:
  `LaunchTheorems.WorkloadLeaks`. These two are all: `SurvivorsAreOutside` bounds them over
  every run, `ProcessesLeakExactly` says which processes a failure leaves.
* `send` casts the length to 32 bits before it compares it with the limit, so some
  oversized payloads are accepted: `Ipc.AcceptedFrameArrives`, `OversizedPayloadIsAccepted`.
* Netlink attribute lengths wrap at 16 bits: `Netlink.LeafSurvivesIffItFits`.
* `kill` on a paused container thaws it before it signals and saves only afterwards, so a
  failing signal leaves a running container recorded as paused: `Lifecycle.KeptUnlessTorn`,
  `TornByASignal`, `KillCanTear`.
* A process that creates, launches or supervises a container keeps one record in memory
  and saves it several times without looking at the file. Saved over what others have done
  since, it changes finish and start times and brings removed records back
  (`Lifecycle.MovesUnlessOverwritten`, `FinishTimeCanChange`, `DeletedRecordCanReturn`,
  `StoppedCanStartAgain`). A shim's save right after the launch even makes a container run
  that is stopping, stopped or deleted, or records a frozen one as running
  (`FollowsUnlessReverted`, `StoppedCanBecomeRunning`, `StoppingCanBecomeRunning`,
  `DeletedCanBecomeRunning`, `FrozenCanBeRecordedRunning`).
* Whole-valued floats are printed as integers and come back as such:
  `JsonRoundTrip.FloatRoundTrip`.
* Resource limits of 2^63 and above turn negative in `config.json` and are read as no
  limit, times in `state.json` likewise, and of two labels with one key only one survives:
  `Config.ConfigurationSurvives`, `StateFile.StateSurvives`.
* A rule's tag is searched for as text: where the listing does not quote it, an id that is
  a prefix of another would match that one's rules too: `NatCleanup.MentionsOwner`. Ids of
  one length, such as generated ones, are never confused.
* A character beyond the first plane that a hand-written file gives as two coded
  surrogates is read as two replacement characters: `JsonGrammar.SurrogatesAreLost`;
  `ReadExactlyAsSpelled` says what every spelling reads as.
* `wifsignaled` lacks the sign extension of the C macro, so `from_raw` always yields a
  code or a signal and its third branch is never taken: `ExitRelay.ExitStatusSurvives`.

## Model

| member | source | states |
|---|---|---|
| `LaunchSafety.StepKeepsInv` | src/runtime/supervisor.rs:77-219 | every step of parent, init, workload, kernel and other containers keeps the invariant tying the two program counters, the channel contents, the undo stack and the host |
| `LaunchSafety.EveryRunKeepsInv` | src/runtime/supervisor.rs:77-219 | the invariant holds after every run of events from every initial host |
| `LaunchSafety.OwedCovers` | src/runtime/network.rs:88-146 | the undo stack of a launch at a given step releases exactly the resources acquired by then |
| `LaunchSafety.AcquiredIs` | src/runtime/network.rs:88-146 | what each step adds to this container's share of the host, and that other containers' share is unchanged |
| `LaunchSafety.ReleasedIs` | src/runtime/network.rs:230-255 | releasing resources removes exactly those of this container and nobody else's |
| `LaunchSafety.OthersAreLeftAlone` | src/runtime/supervisor.rs:86-213 | no step of a launch or of its unwinding changes another container's cgroup, interface, lease or rules |
| `LaunchTheorems.MountsOnlyAfterHostSetup` | src/runtime/init.rs:85-122 | init mounts only after it has read GO, which follows the network setup and netstate.json; while the parent is still going, lease, interface and all wanted rules are in place |
| `LaunchTheorems.RunningMeansForked` | src/runtime/supervisor.rs:204-211 | Running is recorded only after the workload was forked |
| `LaunchTheorems.CommittedHasEverything` | src/runtime/supervisor.rs:189-219 | a committed launch has the cgroup its limits ask for, its lease, interface and rules, and an empty undo stack |
| `LaunchTheorems.LimitsNeedACgroup` | src/runtime/supervisor.rs:88-104 | in every reachable state a container with limits that is past the first step has a cgroup: without one the launch goes on only if no limit was asked for |
| `LaunchTheorems.InsideExactly` | src/runtime/supervisor.rs:128-171 | over every run, init is in the cgroup if and only if the kernel took the descriptor at the clone, or there was a cgroup but no descriptor and the parent has added the pid |
| `LaunchTheorems.ExitMeansEnded` | src/runtime/init.rs:44-50 | EXIT on the channel comes after READY and STARTED, from an init that is gone and whose workload has ended |
| `LaunchTheorems.OrphanNeverRuns` | src/sys/process.rs:145-160 | if the parent dies, an init that survives was not yet armed with the parent-death signal and never mounts or forks; with a pid namespace no workload survives |
| `LaunchTheorems.NeverBothBlocked` | src/runtime/ipc.rs:220-236 | no reachable state has parent and init both waiting on empty queues |
| `LaunchTheorems.SomeoneCanMove` | src/runtime/supervisor.rs:147-213 | in every reachable unfinished state some step other than a crash or fault is possible |
| `LaunchTheorems.RankDecreases` | src/runtime/supervisor.rs:147-213 | every step of the launch decreases one measure and no step of others increases it |
| `LaunchTheorems.EveryLaunchEnds` | src/runtime/supervisor.rs:77-219 | parent, init and workload together take at most 56 + 2n steps for n wanted rules, whatever fails |
| `LaunchTheorems.FailureLeavesOnly` | src/runtime/supervisor.rs:86-213 | after unwinding, per resource whose undo worked: gone, or there before and never acquired; rules only of a failed publish loop; nothing alive inside the cgroup, nor with a pid namespace except in the clone window |
| `LaunchTheorems.SurvivorsAreOutside` | src/runtime/supervisor.rs:141-169 | in every reachable failed state with all undos working, a live process is outside the cgroup and is init in the clone window, or a workload without pid namespace after GO whose init is dead |
| `LaunchTheorems.ProcessesLeakExactly` | src/runtime/supervisor.rs:155-163 | from the moment of failure, unwinding leaves a process if and only if it is outside the cgroup and is init at the clone window or a workload without pid namespace; in the clone window the processes stay as they were |
| `LaunchTheorems.LeaksExactlyInPublishLoop` | src/runtime/network.rs:137-147 | from a clean host with working undos a failed launch leaves a cgroup, lease, interface or rule if and only if it failed after at least one rule of the publish loop, and then exactly those rules |
| `LaunchTheorems.PublishLoopLeaks` | src/runtime/network.rs:137-147 | for every bridged container and every inner point of the loop a run with that leak exists |
| `LaunchTheorems.CloneWindowLeaks` | src/sys/process.rs:176-192 | a run exists in which a failure right after the fallback clone leaves init alive |
| `LaunchTheorems.WorkloadLeaks` | src/runtime/init.rs:186-232 | for every container without pid namespace, bridged or not, a run exists that fails to save the record and leaves the workload running, init dead and all undos working |
| `LaunchTheorems.OtherContainersUntouched` | src/runtime/supervisor.rs:77-219 | a whole launch, failed or not, leaves all other containers' resources as they were |
| `LaunchTheorems.UnwindingIsRollback` | src/rollback.rs:62-77 | popping undos one event at a time ends where the undo stack's unwind ends, however each of them goes, a half-done rule cleanup included |
| `Rollback.EveryActionRunsOnceInReverse` | src/rollback.rs:62-77 | every registered action runs exactly once, in reverse order, whatever fails |
| `Rollback.LaterIsUndoneFirst` | src/rollback.rs:62-77 | unwinding a concatenation unwinds the later part first, failures listed in that order |
| `Rollback.Rollback.Push` | src/rollback.rs:38-44 | the action becomes the last one registered |
| `Rollback.Rollback.Commit` | src/rollback.rs:47-50 | nothing is left to undo |
| `Rollback.Rollback.Unwind` | src/rollback.rs:62-77 | the loop computes the specified unwinding, with exactly the failed actions reported, and empties the stack |
| `Rollback.Rollback.Drop` | src/rollback.rs:83-90 | going out of scope unwinds everything not committed and nothing that was |
| `Ipv4.Ipv4RoundTrip` | src/sys/netlink.rs:669-686 | parsing a formatted address gives it back |
| `Ipv4.CidrRoundTrip` | src/sys/netlink.rs:688-704 | a written subnet reads as its address and prefix if the prefix is at most 32, and is refused otherwise |
| `Ipv4.CidrIsAddressAndPrefix` | src/sys/netlink.rs:688-704 | a text is read as an address and prefix if and only if it is that address, the first slash and that prefix up to 32; a text without a slash is refused |
| `Ipv4.SubnetIsABlock` | src/config.rs:998-1005 | an address is in a subnet if and only if it lies between its masked base and its broadcast address, which is a 32-bit address |
| `Ipv4.UsableRangeIsExact` | src/runtime/ipam.rs:122-141 | for every prefix up to 30 the usable range is the subnet without network and broadcast address, and its low end is the default gateway |
| `Ipam.LoadAfterStore` | src/runtime/ipam.rs:34-76 | loading the written lease file gives the leases back |
| `Ipam.StoredIsReadable` | src/runtime/ipam.rs:87-113 | the written lease file is valid UTF-8, so the next process can read it |
| `Ipam.AllocateKeepsConsistency` | src/runtime/ipam.rs:144-228 | allocation keeps ids and addresses pairwise distinct |
| `Ipam.ReleaseKeepsConsistency` | src/runtime/ipam.rs:231-240 | release keeps ids and addresses pairwise distinct |
| `Ipam.CollectKeepsConsistency` | src/runtime/ipam.rs:258-268 | collection keeps ids and addresses pairwise distinct |
| `Ipam.OthersKeepTheirLease` | src/runtime/ipam.rs:231-240 | releasing one id leaves every other holder's address |
| `Ipam.LeaseStore.LoadFile` | src/runtime/ipam.rs:87-108 | a missing file or a text that does not parse counts as no leases, any other text gives its contents; a failing read or bytes that are not UTF-8 are an error |
| `Ipam.LeaseStore.StoreFile` | src/runtime/ipam.rs:110-113 | the file afterwards holds the new leases, or is unchanged on failure |
| `Ipam.LeaseStore.FindFree` | src/runtime/ipam.rs:199-215 | the search finds the least free address that is not the gateway, and fails if and only if there is none |
| `Ipam.LeaseStore.Allocate` | src/runtime/ipam.rs:144-228 | a held lease is returned unchanged, a requested address is granted if it is free and not the gateway, an automatic one is the least available; a failed call changes nothing |
| `Ipam.FreshLeaseIsInTheSubnet` | src/runtime/ipam.rs:144-228 | on the subnet written a.b.c.d/n a container without a lease gets the least host address of that subnet that is free and not the gateway, with prefix n; it gets none only if n is beyond 30 or every such address is taken |
| `Ipam.FirstLeaseFollowsTheGateway` | src/runtime/ipam.rs:199-215 | the first container of a subnet with the default gateway gets the second address after the base |
| `Ipam.AnotherSubnetStartsAfresh` | src/runtime/ipam.rs:154-169 | after a change of subnet no old lease counts, and the next grant drops them all |
| `Ipam.LeaseStore.Release` | src/runtime/ipam.rs:231-240 | exactly the leases of the id are gone, the others keep their order |
| `Ipam.LeaseStore.Collect` | src/runtime/ipam.rs:258-268 | exactly the leases of live ids are kept, and the number removed is returned |
| `IpamConcurrent.StepKeepsInv` | src/runtime/ipam.rs:110-118 | every system call of every process keeps: consistent file, lock held by whoever is inside, loaded data up to date |
| `IpamConcurrent.StepRefines` | src/sys/mod.rs:216-246 | every system call is a step of the atomic allocator or invisible to it |
| `IpamConcurrent.EveryRunIsAtomic` | src/util/mod.rs:48-72 | every interleaving with crashes maps to a run of atomic allocate, release and gc |
| `IpamConcurrent.NoSharedAddress` | src/runtime/ipam.rs:144-268 | in every state of every run, two leases with one address or one id are the same lease |
| `JsonRoundTrip.StringRoundTrip` | src/util/json.rs:191-209 | every string, control characters and all, is read back from its escaped form, whatever follows |
| `JsonRoundTrip.IntRoundTrip` | src/util/json.rs:415-448 | every 64-bit integer is read back, given a delimiter |
| `JsonRoundTrip.FloatRoundTrip` | src/util/json.rs:142-148 | a printed finite float is read back as that float if and only if its text is not a 64-bit integer, else as that integer |
| `JsonRoundTrip.ValueRoundTrip` | src/util/json.rs:126-188 | parsing a printed value whose floats do not look like integers, compact or indented, at any depth, gives the value and consumes exactly its text |
| `JsonRoundTrip.PrintedTreeParses` | src/util/json.rs:215-230 | parsing the print of such a tree gives exactly that tree |
| `JsonText.PrintIsText` | src/util/json.rs:126-209 | the print of such a tree is valid UTF-8, whatever strings it holds |
| `JsonGrammar.DocIsRead` | src/util/json.rs:259-448 | every spelling of a value, with any white space, escapes in any form and case, fractions and exponents, is read as what it spells and consumed exactly |
| `JsonGrammar.ReadExactlyAsSpelled` | src/util/json.rs:215-230 | a text parses to a value if and only if it is a spelling of that value between white space |
| `JsonGrammar.GlyphIsRead` | src/util/json.rs:351-413 | a character as itself, after a backslash or by its number in either case is read as that character |
| `JsonGrammar.NumberIsRead` | src/util/json.rs:415-448 | a numeral is the integer it writes if it has neither fraction nor exponent and fits 64 bits, else a float |
| `JsonGrammar.SurrogatesAreLost` | src/util/json.rs:377-387 | two coded surrogates are read as two replacement characters, for every pair |
| `JsonParser.Parser.Value` | src/util/json.rs:259-288 | the cursor parser follows the grammar on every input and stays within it |
| `JsonParser.Parser.Object` | src/util/json.rs:290-324 | as specified by the grammar for objects |
| `JsonParser.Parser.Array` | src/util/json.rs:326-349 | as specified by the grammar for arrays |
| `JsonParser.Parser.String` | src/util/json.rs:351-413 | as specified by the grammar for strings |
| `JsonParser.Parser.Number` | src/util/json.rs:415-448 | as specified by the grammar for numbers |
| `JsonParser.ParseText` | src/util/json.rs:215-230 | the parser computes the grammar's parse of the whole input |
| `JsonParser.Writer.EscapeInto` | src/util/json.rs:191-209 | appends the specified escape of the string |
| `JsonParser.Writer.Write` | src/util/json.rs:126-188 | appends the specified print of the tree |
| `JsonParser.PrintThenParse` | src/util/json.rs:114-124 | writing a tree whose floats do not look like integers and parsing the text returns the tree |
| `Utf8.DecodeEncode` | src/util/json.rs:395-410 | decoding the UTF-8 bytes of any character gives the character |
| `Utf8.EncodeDecode` | src/util/json.rs:395-410 | bytes that decode to a character are the encoding of it, so overlong and other forms are refused |
| `Ipc.AcceptedFrameArrives` | src/runtime/ipc.rs:162-172 | a frame that send accepts is received whole if and only if its payload is within the limit |
| `Ipc.OversizedPayloadIsAccepted` | src/runtime/ipc.rs:162-172 | a payload of 2^32 bytes passes the check and arrives as an empty frame |
| `Ipc.OverlongFrameIsRefused` | src/runtime/ipc.rs:192-207 | a frame that announces more than the limit is an error and ends the stream, whatever follows its header |
| `Ipc.CutStream` | src/runtime/ipc.rs:192-213 | a stream cut anywhere yields a prefix of the frames, then a clean end at a boundary and an error inside a frame |
| `Ipc.WholeStream` | src/runtime/ipc.rs:192-213 | an uncut stream yields exactly the frames sent, then a clean end |
| `Ipc.Reader.ReadExact` | src/runtime/ipc.rs:131-159 | over any split into short reads and interruptions, returns exactly the next n bytes, the clean end, or an error |
| `Ipc.Reader.Recv` | src/runtime/ipc.rs:192-213 | returns the next frame of the stream as specified, however it arrives |
| `Ipc.Reader.Drain` | src/runtime/ipc.rs:192-213 | receiving until the end returns all frames of the stream and how it ended |
| `Ipc.Writer.WriteAll` | src/runtime/ipc.rs:106-128 | over any split into short writes, all bytes are written in order, or a prefix on failure |
| `Ipc.Writer.Send` | src/runtime/ipc.rs:162-172 | writes the frame, or refuses it untouched, or a prefix of it on failure |
| `ExitRelay.RelayIsExact` | src/runtime/ipc.rs:184-189 | the relayed status is the sent one if and only if its code is not negative and its signal positive |
| `ExitRelay.ExitStatusSurvives` | src/sys/process.rs:367-393 | every wait status decoded by init is what the parent records, with a code below 256 |
| `ExitRelay.WaitStatusIsRead` | src/sys/process.rs:367-393 | the number the kernel makes of an exit with a code below 256, or of a death by a signal, core dumped or not, is read as just that, with the shell's exit code: the code, or 128 and the signal |
| `ExitRelay.EndIsRecorded` | src/runtime/supervisor.rs:247-290 | however the workload ended, after any earlier frames, the parent records that end and its exit code |
| `ExitRelay.LostFrameKeepsTheCode` | src/runtime/init.rs:44-50 | without an EXIT frame the exit code the parent takes from init's own end is still the workload's |
| `ExitRelay.WaitForExit` | src/runtime/supervisor.rs:247-290 | the loop records the last EXIT frame, else the waited status, independent of fragmentation |
| `StateFile.NetworkStateSurvives` | src/runtime/state.rs:121-178 | the network part of state.json is read back as it was written |
| `StateFile.StateSurvives` | src/runtime/state.rs:305-396 | a state read from its own document is the same but for detach, if and only if its times are below 2^63 and its configuration survives |
| `StateFile.ExitIsLoaded` | src/runtime/state.rs:319-330 | every saved state is loaded from the bytes of state.json, with the exit code and signal it had |
| `StateFile.StateIsLoaded` | src/runtime/state.rs:510-526 | all of it comes back but for detach, if and only if its times are below 2^63 and its configuration survives |
| `Netlink.ForestRoundTrip` | src/sys/netlink.rs:156-224 | every forest of leaf and nested attributes that fits comes back with types and payloads at every depth |
| `Netlink.EncodeAllAligned` | src/sys/netlink.rs:127-164 | attribute boundaries are 4-aligned |
| `Netlink.LeafSurvivesIffItFits` | src/sys/netlink.rs:156-164 | a leaf comes back if and only if its length fits 16 bits |
| `Netlink.ParseLoop` | src/sys/netlink.rs:205-224 | on arbitrary bytes the loop stays in bounds, ends and computes the specified list |
| `Netlink.MsgBuilder.AppendAttr` | src/sys/netlink.rs:156-164 | appends the padded attribute |
| `Netlink.MsgBuilder.BeginNested` | src/sys/netlink.rs:178-183 | appends an open header and returns where it is |
| `Netlink.MsgBuilder.EndNested` | src/sys/netlink.rs:185-188 | patches the length to the real extent and nothing else |
| `Netlink.MsgBuilder.Build` | src/sys/netlink.rs:138-196 | the calls for a forest append its encoding |
| `Netlink.MsgBuilder.Finish` | src/sys/netlink.rs:190-196 | patches total length and sequence number and nothing else |
| `Netlink.CreateVeth` | src/sys/netlink.rs:378-396 | the veth request holds both interface names where the kernel looks for them, three nests deep |
| `Toml.JoinAfterSplit` | src/util/toml.rs:362-386 | joining the split parts with commas gives the text back, whatever it is |
| `Toml.SplitAfterJoin` | src/util/toml.rs:362-386 | splitting the join of closed chunks gives the chunks |
| `Toml.SplitIsTheCut` | src/util/toml.rs:362-386 | the parts are the only way to cut the text into closed chunks and a cut-free rest |
| `Toml.SplitTopLevel` | src/util/toml.rs:362-386 | the scanning loop computes that cut |
| `TomlValue.BasicRoundTrip` | src/util/toml.rs:298-360 | an escaped string is read back |
| `TomlValue.TextIsNeutral` | src/util/toml.rs:362-386 | a written value is one closed chunk at every bracket depth |
| `TomlValue.ValueRoundTrip` | src/util/toml.rs:218-261 | every nested array of integers, booleans and both kinds of string is read back, whatever the spacing and with or without a trailing comma |
| `TomlValue.ParseBasicString` | src/util/toml.rs:298-360 | the loop computes the specified string on every input |
| `TomlValue.ParseText` | src/util/toml.rs:218-261 | the recursive parser with its element loop computes the specified value on every input |
| `Env.RefoldIsIdentity` | src/config.rs:792-801 | an environment made by any settings over the defaults, set over the defaults again, is itself, entry by entry |
| `Env.LastSettingWins` | src/config.rs:803-809 | looking up a key gives what was said about it last, by the defaults or since |
| `Env.SetAllConcat` | src/config.rs:792-801 | setting some entries and then more is setting all of them in order |
| `Env.EnvironmentIsHandedOver` | src/config.rs:686-692 | the environment init reads from config.json is the one the tool had |
| `Env.Settings.SetEnv` | src/config.rs:792-801 | removes the entries for the key, keeps the order of the rest, appends the new one |
| `Env.Settings.SetEach` | src/config.rs:686-692 | applies the settings in order |
| `Config.BuiltInOrder` | src/util/json.rs:27-37 | setting distinct keys one by one gives an object with those members in that order |
| `Config.ResourcesSurvive` | src/config.rs:233-278 | limits, fractional processors included, survive the file if and only if each size is below 2^63 |
| `Config.NetworkSurvives` | src/config.rs:326-400 | network settings, ports included, survive |
| `Config.SecuritySurvives` | src/config.rs:460-515 | security settings, user and seccomp mode included, survive |
| `Config.NamespacesSurvive` | src/config.rs:585-607 | namespace choices survive |
| `Config.MountsSurvive` | src/config.rs:178-185 | mounts survive |
| `Config.UserSurvives` | src/config.rs:516-535 | a user and group survive their text form |
| `Config.LabelsSurvive` | src/config.rs:783-788 | labels survive if and only if no key is given twice |
| `Config.ConfigurationSurvives` | src/config.rs:667-790 | a configuration read from its own document is the same but for detach, if and only if limits are below 2^63 and label keys distinct |
| `Config.SilentDocument` | src/config.rs:626-652 | a document with none of the fields, whatever else it holds, is read as the default configuration |
| `Config.SilentNetwork` | src/config.rs:345-415 | a network section that is silent about its fields leaves the defaults |
| `Config.SilentSecurity` | src/config.rs:460-515 | a security section that is silent about its fields leaves the defaults |
| `Config.SilentResources` | src/config.rs:250-278 | a resources section that is silent about its fields sets no limit |
| `Config.SilentNamespaces` | src/config.rs:597-607 | a namespaces section that is silent about its fields keeps all of them |
| `Config.SaidOtherwise` | src/config.rs:676-708 | a command in one word is read like a list of one, workdir like cwd, and a map of variables like its entries at the end of the list; other fields and the order of fields do not matter |
| `Config.DocumentParses` | src/runtime/init.rs:59-63 | the bytes of config.json are parsed to the document that was written |
| `HandOver.ToolEnvWasSet` | src/config.rs:843 | defaults, file, flags and the final host name make an environment that is settings over the defaults |
| `HandOver.ToolConfigurationIsHandedOver` | src/runtime/init.rs:59-63 | what init reads is what the tool made of defaults, file and flags, but for detach, if and only if limits are below 2^63 and label keys distinct |
| `Seccomp.Assemble` | src/sys/seccomp.rs:199-257 | for every deny list the program is refused if and only if it is too long, is otherwise well formed for the kernel, and decides as intended on every architecture and number |
| `Seccomp.BuildFilter` | src/sys/seccomp.rs:199-257 | the same for the tables of each mode, which always fit |
| `Seccomp.AssembledIsAccepted` | src/sys/seccomp.rs:199-257 | every jump is forward, in range and fits 8 bits, and every path ends in a return |
| `Seccomp.FilterDecides` | src/sys/seccomp.rs:199-257 | running the program kills a foreign architecture or x32 number, denies exactly the listed numbers and allows the rest |
| `Seccomp.NumbersExactly` | src/sys/seccomp.rs:155-169 | for every table and list, a number is compared with if and only if the first entry of some listed name has it in the column of the architecture |
| `Seccomp.MountIsDenied` | src/sys/seccomp.rs:63-182 | mount, number 165 on x86_64 and 40 on aarch64, fails with EPERM in the default mode, kills in the strict one and is allowed unconfined |
| `Seccomp.StricterAllowsLess` | src/sys/seccomp.rs:172-182 | whatever Strict allows, Default allows, and whatever Default allows, Unconfined allows |
| `Calendar.DayNumberCountsDays` | src/util/mod.rs:100-131 | the reference day number grows by one from each valid date to the next |
| `Calendar.CivilIsTheCalendar` | src/util/mod.rs:109-131 | for every integer second count the result is a valid date and time whose day number and time of day give the input back |
| `Calendar.CivilIsMonotone` | src/util/mod.rs:109-131 | later instants never give an earlier date, and the same date exactly on the same day |
| `Lifecycle.ReachesExactly` | src/runtime/state.rs:74-90 | which statuses are connected by paths of the transition table |
| `Lifecycle.TransitionExactly` | src/runtime/state.rs:74-90 | a transition works if and only if the table enters the new status from the old one or they are the same; it keeps exit code and init |
| `Lifecycle.LivePathsPassThroughRunning` | src/runtime/state.rs:74-90 | every path of the table from a status that is not live to one that is goes through created and running |
| `Lifecycle.ReconciledIsTruthful` | src/runtime/state.rs:582-603 | a verb goes by a record that is live only while its init is alive; correcting it changes the status to stopped, sets a missing finish time and nothing else |
| `Lifecycle.RefusedChangesNothing` | src/runtime/lifecycle.rs:63-257 | a verb the status does not admit does no more than reconcile, and nothing to a live container: pause only running, unpause only paused, kill only live, delete without force only not live |
| `Lifecycle.WorkingVerbTakesEffect` | src/runtime/lifecycle.rs:63-257 | what each verb that works has done to record, freezer and processes, and that nothing else changed |
| `Lifecycle.AcceptedVerbWorks` | src/runtime/lifecycle.rs:63-257 | with nothing failing, a verb the status admits works, pause and unpause if and only if there is a cgroup |
| `Lifecycle.RemovedExactly` | src/runtime/lifecycle.rs:233-257 | a step removes the record if and only if it is a delete that works, a failed foreground launch or a retiring supervisor asked to; a container that was running was forced, and its init is dead |
| `Lifecycle.StepKeepsSane` | src/runtime/lifecycle.rs:31-257 | every step keeps times and status in step, on file and in every copy in memory |
| `Lifecycle.CommandMoves` | src/runtime/lifecycle.rs:63-257 | a verb that loads before it saves moves the status along the table and changes no time that was set |
| `Lifecycle.FollowsUnlessReverted` | src/runtime/shim.rs:107-121 | a step moves the stored status along the table if and only if no process saves its copy as created over a record past that, or as running over one stopping or stopped |
| `Lifecycle.MovesUnlessOverwritten` | src/runtime/supervisor.rs:287-290 | a step also keeps set times, and makes no record appear but a new one, if and only if besides that no process saves its copy over a removed record, one of another launch or one finished at another time |
| `Lifecycle.LifeFollowsTheTable` | src/runtime/state.rs:74-90 | over every history without such a reversal the stored status moves along paths of the table until the record is removed |
| `Lifecycle.SetTimesStay` | src/runtime/state.rs:220-261 | over every history without overwriting, set times never change |
| `Lifecycle.StoppedIsFinal` | src/runtime/state.rs:220-261 | over every history without such a reversal a stopped record stays stopped, with a finish time not before its start time, until it is removed |
| `Lifecycle.EveryInitIsAttended` | src/runtime/supervisor.rs:138-147 | in every history that begins without an init, each init that is alive has the process that launched it, holding it as running: none outlives its supervisor |
| `Lifecycle.FinishTimeCanChange` | src/runtime/supervisor.rs:287-289 | a history in which reconcile and then the supervisor set different finish times |
| `Lifecycle.DeletedRecordCanReturn` | src/runtime/state.rs:523-526 | a history in which the supervisor's save brings a deleted record back |
| `Lifecycle.StoppedCanBecomeRunning` | src/runtime/shim.rs:120-121 | a history in which the shim's save after the launch turns a stopped record running |
| `Lifecycle.StoppingCanBecomeRunning` | src/runtime/shim.rs:120-121 | a history in which that save turns a stopping record running |
| `Lifecycle.FrozenCanBeRecordedRunning` | src/runtime/shim.rs:120-121 | a history in which that save records a frozen container as running, after which unpause does nothing |
| `Lifecycle.DeletedCanBecomeRunning` | src/runtime/shim.rs:120-121 | a history in which that save brings a deleted record back as running |
| `Lifecycle.StoppedCanStartAgain` | src/main.rs:255-262 | a history in which a second process launches a stopped container with the created record it had read |
| `Lifecycle.KeptUnlessTorn` | src/runtime/lifecycle.rs:63-96 | a verb keeps "paused exactly if frozen" if and only if its freezer write and its save did not part ways |
| `Lifecycle.PausedMeansFrozen` | src/runtime/lifecycle.rs:195-230 | in every history of whole steps, paused is recorded exactly while the cgroup is frozen |
| `Lifecycle.TornByASignal` | src/runtime/lifecycle.rs:63-96 | when all writes work, only a kill of a paused container whose signal fails breaks it, or a shim's save after the launch when the container is frozen by then |
| `Lifecycle.KillCanTear` | src/runtime/lifecycle.rs:63-96 | a history that ends with such a kill, a thawed container recorded as paused |
| `Lifecycle.Container.LoadReconciled` | src/runtime/state.rs:582-603 | a live status without a live init becomes stopped, anything else is untouched |
| `Lifecycle.Container.Pause` | src/runtime/lifecycle.rs:195-212 | works if and only if the container is running, has a cgroup and both writes work; success means recorded paused and frozen, otherwise as specified by failure point |
| `Lifecycle.Container.Unpause` | src/runtime/lifecycle.rs:214-230 | works if and only if the container is paused, has a cgroup and both writes work; success means recorded running and thawed, otherwise as specified by failure point |
| `Lifecycle.Container.Kill` | src/runtime/lifecycle.rs:63-96 | works if and only if the container is live and signal and save work; thaws, signals, then saves, with the state at every failure point |
| `Lifecycle.Container.Stop` | src/runtime/lifecycle.rs:101-120 | thaws and records stopping, or finds the container not live |
| `Lifecycle.Container.Teardown` | src/runtime/supervisor.rs:295-327 | with all operations working nothing is alive, frozen or recorded live |
| `Lifecycle.Container.CreateRecord` | src/runtime/supervisor.rs:49-51 | writes a new record and keeps it in memory |
| `Lifecycle.Container.FinishRecord` | src/runtime/supervisor.rs:53-55 | marks the record in memory as created and saves it |
| `Lifecycle.Container.RecordLaunch` | src/runtime/supervisor.rs:208-210 | marks the record in memory as running with its new init and saves it |
| `Lifecycle.Container.AnnounceShim` | src/runtime/shim.rs:120-121 | saves the copy in memory over whatever is on file; a shim that cannot ends, and init with it |
| `Lifecycle.Container.WaitForExit` | src/runtime/supervisor.rs:287-290 | records exit and stop in the supervisor's own copy and saves that |
| `Lifecycle.Container.RetireSupervisor` | src/runtime/shim.rs:141-148 | tears down by the supervisor's copy, saves it, and removes the record if asked to |
| `Lifecycle.Container.Delete` | src/runtime/lifecycle.rs:233-257 | works only with force or on a container that is not live once reconciled; success removes the record, and with force and nothing failing it always succeeds, init dead and cgroup gone |
| `Gc.CollectedIsTruthful` | src/runtime/supervisor.rs:331-393 | afterwards every live status has a live init, every lease, interface of ours and empty cgroup belongs to a live container, and containers found dead have no rules left |
| `Gc.CollectedKeepsTheLiving` | src/runtime/supervisor.rs:331-393 | live containers keep lease, cgroup and interface, all but the lost keep their rules, no other record changes, nothing appears |
| `Gc.TidyIsUnchanged` | src/runtime/supervisor.rs:331-393 | gc changes nothing if and only if there is nothing to collect |
| `Gc.CollectingTwiceIsOnce` | src/runtime/supervisor.rs:331-393 | a second gc, at any later time, changes nothing |
| `Gc.Host.SweepAll` | src/runtime/supervisor.rs:335-347 | the loop stops and tears down exactly the lost containers and lists exactly the live ones |
| `Gc.Host.CollectCgroups` | src/runtime/cgroup.rs:416-443 | the loop removes exactly the empty cgroups of nobody alive |
| `Gc.Host.CollectLeases` | src/runtime/ipam.rs:258-268 | does what collecting leases is specified to do, and counts them |
| `Gc.Host.CollectLinks` | src/runtime/network.rs:277-285 | removes exactly our interfaces of nobody alive |
| `Gc.Host.Collect` | src/runtime/supervisor.rs:331-393 | the whole run computes the specified host, and reports nothing if and only if it changed nothing |
| `Nat.SplitRoundTrip` | src/runtime/nat.rs:402-421 | splitting a listed rule gives its arguments back, whichever of them are quoted |
| `Nat.SplitRule` | src/runtime/nat.rs:402-421 | the splitting loop computes the specified words |
| `Nat.MentionsExactly` | src/runtime/nat.rs:375-398 | searching the listed text finds exactly the rules with a comment option followed by the tag, or by a longer bare word that begins with it |
| `NatCleanup.MentionsOwner` | src/runtime/nat.rs:375-398 | a tagged rule is taken for one of an id if and only if the ids are equal or, unquoted, that id is a prefix of the owner's; never for another id of the same length |
| `NatCleanup.DeletingTaggedLeavesUntagged` | src/runtime/nat.rs:425-443 | deleting the found rules one by one leaves all others in order |
| `NatCleanup.PublishTwiceIsOnce` | src/runtime/nat.rs:88-95 | repeating a publish adds nothing |
| `NatCleanup.CleanupLeavesNoTag` | src/runtime/nat.rs:425-443 | no rule mentioning the id is left and the others keep their order |
| `NatCleanup.CleanupUndoesPublish` | src/runtime/nat.rs:296-443 | after any number of publishes, cleanup gives back the rules that were there and do not mention the id, with the shared jumps |
| `NatPackets.PublishRedirects` | src/runtime/nat.rs:296-329 | after a publish a packet no earlier rule decides meets the forwarding rule if and only if it is for the host port and protocol; all others are decided as before |
| `NatPackets.ForwardRedirects` | src/runtime/nat.rs:299-329 | that rule sends the packet to the container's address and port and leaves the rest of it alone |
| `NatPackets.PublishMasquerades` | src/runtime/nat.rs:330-349 | a packet of the container to its own published port, and no other, meets the masquerading rule |
| `NatPackets.PublishAccepts` | src/runtime/nat.rs:350-369 | a packet leaving by the bridge for the container's address and port, and no other, meets the accepting rule |
| `NatPackets.HooksComeFirst` | src/runtime/nat.rs:135-150 | where our jumps were missing, every incoming, outgoing and forwarded packet now goes to our chains first |
| `NatPackets.PublishedPortArrives` | src/runtime/nat.rs:296-372 | a packet for the host port that no earlier rule of our chains decides is sent to the container's port and let through |
| `NatCleanup.TaggedRules` | src/runtime/nat.rs:375-398 | the loop over the listing returns the arguments of the tagged rules |
| `NatCleanup.Firewall.PublishPort` | src/runtime/nat.rs:296-372 | adds the three rules of a mapping where missing |
| `NatCleanup.Firewall.CleanUp` | src/runtime/nat.rs:425-443 | computes the specified tables and counts the rules removed |
| `Cli.ParsePass` | src/cli.rs:287-439 | the loop's result is the base-independent reading of the tokens, applied to the base |
| `Cli.ParseRun` | src/cli.rs:273-285 | both passes together give the meaning of the arguments, on every argument list |
| `Cli.BeginningThen` | src/cli.rs:287-439 | reading a list is reading its beginning and then the rest |
| `Cli.ConfigMayStandAnywhere` | src/cli.rs:261-285 | moving the config option, in one word or two, past other arguments, before the command and any end of flags, changes nothing |
| `Cli.CommandIsNotRead` | src/cli.rs:299-307 | tokens from the second positional argument on are handed over unread |
| `Cli.NothingIsAFlagAfterEnd` | src/cli.rs:299-313 | after the end-of-flags marker no token is a flag |
| `CliGrammar.MarkerEndsFlags` | src/cli.rs:299-313 | after any beginning with at most one positional argument, the marker makes all that follows positional |
| `Cli.LastFlagWins` | src/cli.rs:308-408 | scalars are the last flag's value or the base's, lists grow, environment settings apply in order |
| `Cli.WhoDecides` | src/cli.rs:273-439 | in terms of the reading: every scalar is the last flag's value, else the file's, else the default, and a root none of them gives is the first positional argument; the command is the rest of the positional arguments or the file's; lists and environment are the file's and then the flags' |
| `CliGrammar.KnownFlags` | src/cli.rs:308-408 | the flags that are read are exactly those listed, each for its field and kind |
| `CliGrammar.ArgIsRead` | src/cli.rs:119-125 | every argument, its value in the next word or after an equals sign, is read as what it asks for |
| `CliGrammar.LineIsRead` | src/cli.rs:287-408 | every command line, with a marker, a command or neither at its end, is read as what its arguments ask for together |
| `CliGrammar.AcceptedExactly` | src/cli.rs:287-408 | a list of tokens is accepted if and only if it is such a line |
| `CliGrammar.LineMeans` | src/cli.rs:273-439 | the meaning of a line in terms of its written arguments: file, scalars, lists, environment, root, command and detaching; it fails if and only if the last file named does not load |
| `CliGrammar.FlagDecides` | src/cli.rs:308-408 | a flag that gives a field a value, in two words or one, decides it if no later one is for that field |

## Left out

- Error texts, log lines, help, tables, `stats` and time formatting: user interface.
- The kernel itself: clone, mounts, capabilities, sealed executables, sockets and `iptables` are steps that work or fail; the shared bridge device and its rules are not part of the launch model.
- LaunchSafety.OthersAreLeftAlone: interface names, which are 32-bit hashes of ids, are taken to be distinct, the lease file to stay on one subnet while a launch runs, and a rule to have one owner; where the listing leaves tags bare, cleanup also takes the rules of ids this one is a prefix of, which `NatCleanup.MentionsOwner` states.
- Floating point arithmetic: a float is the text it is printed with; sizes, ports and mounts given in words are read by function parameters.
- TomlValue.ValueRoundTrip: decimal integers only; `\u` escapes and other number forms are parameters; comments, tables and joining of physical lines are not modelled.
- Byte order: the native order of netlink and of the frames is taken to be little endian.
- Interleaving inside a verb: each verb that loads, changes and saves the record is one atomic step, and so is each save of a process that keeps its record in memory.
- Timeouts and polling in `stop`, `wait` and gc: the passage of time is a step like any other.
- Gc.Host.Collect: every kernel operation works and no launch is under way.
- Ipam.LeaseStore.Allocate: an explicitly requested address is checked neither against the subnet nor against the usable range, as in the source, which checks the subnet when it validates the configuration; range claims are for automatic picks.
- Cli.ParseRun: option values are kept as text and checked by a parameter; the other subcommands and global options are not modelled.
- NatCleanup.CleanupUndoesPublish: arguments contain no white space or quotes, as ids, ports, addresses and interface names do not, and the listing prints options bare.
- NatPackets.PublishedPortArrives: that a redirected packet leaves by the bridge is the kernel's routing; rules of others may use any option, answered by the packet itself.
