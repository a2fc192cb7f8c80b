# A verified model of the distributed control layer

The repository controls many device processes that share a Redis registry. Each process takes an
instance number, reads link records, wires its sockets to those of its peers, and walks the FairMQ
device state machine; a web controller publishes commands to all of them and shows a summary of
their states. This project models that behaviour in Dafny 4.11 and proves what it promises. Run
`dafny verify dfyconfig.toml` to check everything.

| file | what it models |
|---|---|
| `Text.dfy`, `Splitting.dfy` | lexicographic order, sorting, ranks, decimal texts, splitting and joining |
| `Wiring.dfy`, `Links.dfy`, `Records.dfy` | link records, the link table, the peer list and socket count of one device |
| `Resolution.dfy`, `Topology.dfy` | which address a connecting channel takes, and the whole topology that results |
| `Addresses.dfy`, `ChannelConfig.dfy` | publishing and reading back sub-socket addresses, the FairMQ address entries |
| `Registry.dfy` | what all devices write together, and the sockets that result end to end |
| `Rendezvous.dfy`, `Assembly.dfy` | the waiting for each other in Bound, for any topology |
| `Lifecycle.dfy` | what an instance leaves in the registry over any number of cycles |
| `DeviceStates.dfy`, `DeviceControl.dfy` | commands, the state queue, start-up and shutdown against a device that moves by itself |
| `InstanceIndex.dfy` | allocation of instance numbers under a lock, with expiring presence |
| `Barrier.dfy`, `Summary.dfy` | the controller's publish-and-wait sequences and its state summary |
| `HttpSession.dfy` | the pipelining of an HTTP session |
| `Metrics.dfy`, `Parameters.dfy` | metric rounds on a Redis pipeline, layered parameters and their parsing |

Loops and objects that change state are methods and classes; each is proved against a
specification (a function or a complete relation), and the promises are lemmas about that
specification. What happens outside a process (other processes, the device's own moves, time,
network completions) is a non-deterministic choice or an event of a transition system, so the
results hold for every interleaving.

Some promises turned out to hold only under a condition. They are stated as equivalences:

* Every sub-socket is configured with the address its partner has bound if and only if the partner
  has at most ten (`Registry.PartneredIffUpToTen`, `Addresses.PublishedExactlyUpToTen`).
* A re-initialised channel has the peers of the current link records if and only if no removed link
  still leads to an instance, because the link table is never emptied
  (`Lifecycle.FoundIsCurrentIff`, `Lifecycle.RemovedLinkStays`).
* Nothing is left in the registry after reset cycles if and only if every bound mark of a channel
  without peers is followed by a pass that registers the channel
  (`Lifecycle.TopologyConfig.Cycles`).
* In a state past its wait an instance finds all addresses of a channel if and only if the binder has
  published them by then. If the binder has not been reset since the last state of the wait, it has;
  if it has been reset and not started again, it has not (`Rendezvous.AddressesPresentIff`,
  `Rendezvous.ResetLosesAddresses`).
* A search for addresses that starts from the text "unspecified" instead of an empty one gives every
  sub-socket its own partner's address if and only if the channel has at most one peer; otherwise
  each address is one place too late (`Registry.ConfiguredIffFromEmpty`).
* The rendezvous is sure to complete if and only if no services wait for each other in a circle and
  the instances a service waits for go on to the same state
  (`Assembly.CompletesIffServicesAcyclic`).
* The second half of a departure can be followed by a run that shares an instance number, its other
  departures being harmless, if and only if a live process holds the departed number by then
  (`InstanceIndex.LeaveEndSharesIff`); a run from the start in which two live processes come to
  share a number is given (`InstanceIndex.InterruptedDepartureShares`).
* A run start costs each awaited device at most one transition if and only if the command is RUN
  and the ready flag is set; START is published without waiting (`Barrier.GuardedIff`). A group in
  which some devices are DeviceReady and others are past it is never let through
  (`Barrier.MixtureNeverPasses`).
* Pipelined requests are all answered at the end of the stream if and only if at most one response
  is left (`HttpSession.AnsweredAtEndOfStreamIff`), because the sending side is shut down at once.
* A metrics round is flushed if and only if every channel seen is counted or typed
  (`Metrics.FlushedIff`); one untyped channel blocks all (`Metrics.UntypedBlocks`). A round that
  spans a state change other than Ready holds the figures of every channel if and only if each
  channel counted before the change reports again after it (`Metrics.RoundAfterChangeIff`).
* A list parameter survives printing and parsing if and only if it has two tokens or more and no
  empty one inside, a map if and only if it has two entries or more
  (`Parameters.ListSurvivesIff`, `Parameters.MapSurvivesIff`).
* INIT DEVICE follows the rule of the forward commands from every settled state but
  InitializingDevice (`DeviceStates.InitDeviceException`), and a start-up state name the code does
  not know, "initializingdevice" among them, takes the device to Running
  (`DeviceStates.StartupReaches`).

Assumptions about the outside: presences and link records do not change while instances wire
themselves; services are not linked to themselves; service names and ids are free of the key
separator; no addresses are preset on automatic channels; Redis commands and pipelines execute atomically and in
order; FairMQ's state machine has the transitions that the comments in
plugins/DaqServicePlugin.cxx list, with Error reachable from every state; a write begun on a socket
whose sending side is shut down fails.

## Model

| member | source | states |
|---|---|---|
| `Wiring.CountPeers` | plugins/TopologyConfig.cxx:630-658 | The peer list is sorted, free of repetition and holds exactly the instances behind the channel's links; an automatic channel has one sub-socket per peer |
| `Wiring.KeyInjective` | plugins/TopologyConfig.cxx:646-651 | Channel keys of different channels or instances differ |
| `Resolution.ResolveConnectAddress` | plugins/TopologyConfig.cxx:1012-1085 | An address of its own is left alone; otherwise the loop with its 1:1, 1:m, n:1 and n:m branches, started from the empty text or from "unspecified", gives exactly the relational answer, including where it asserts or indexes out of range |
| `Topology.CountedPeers` | plugins/TopologyConfig.cxx:619-658 | What a device counts from its own records is the topology's peer list of that channel |
| `Topology.ExactlyOneClaim` | plugins/TopologyConfig.cxx:1012-1085 | Sub-sockets of both sides are in bijection: each is claimed by exactly one sub-socket, and claims it back |
| `Topology.AutomaticWiring` | plugins/TopologyConfig.cxx:1023-1083 | With automatic sub-channels all four branches take one address per peer at my rank in its list, for any N and M, appended to the start text when there are several; no assertion or index fails |
| `Topology.LastPeerWins` | plugins/TopologyConfig.cxx:1066-1069 | A single-socket channel facing many-socket peers keeps the last peer's address only |
| `Topology.PairedByRank` | plugins/TopologyConfig.cxx:1042-1065 | With single sockets the connecting instance of rank r takes the binding instance of rank r; a lone one is taken by all; without partner the address stays what it was at the start |
| `Topology.NumberedIsValid` | plugins/DaqServicePlugin.cxx:917 | Ids as the allocator makes them satisfy what the wiring asks of ids |
| `Topology.SamePermutation` | plugins/TopologyConfig.cxx:657-658 | Both lists, sorted as texts, carry the same permutation of the instance numbers |
| `Topology.PairedByNumber` | plugins/TopologyConfig.cxx:1023-1065 | Instance n is paired with the peer of number n, for any set of numbers |
| `Addresses.WriteAddress` | plugins/TopologyConfig.cxx:1269-1295 | Each published hash carries the address of the last property that its prefix matches; indices are tried until none matches |
| `Addresses.ReadPeerAddress` | plugins/TopologyConfig.cxx:895-940 | The hashes' addresses in the order of their sorted keys, each with the binder's host in place of a wildcard |
| `Addresses.WildcardHost` | plugins/TopologyConfig.cxx:52-64 | The host of a TCP address that listens everywhere is replaced and its port kept; other transports are not touched |
| `Addresses.PublishedExactlyUpToTen` | plugins/TopologyConfig.cxx:1272-1284 | Reading back gives the bound addresses at their indices if and only if there are at most ten; beyond, the address of sub-socket 1 never appears |
| `ChannelConfig.Entries` | plugins/TopologyConfig.cxx:68-97 | Number and prefix of the address entries: max(1, numSockets) for an unset address, max(k, numSockets) for a list of k, which it begins with |
| `ChannelConfig.ToChannelConfig` | plugins/TopologyConfig.cxx:68-97 | The loops build the text of exactly these entries |
| `ChannelConfig.OptionsReadBack` | plugins/TopologyConfig.cxx:99-113 | Splitting the option text at its commas gives one address option per entry |
| `ChannelConfig.UdsAddress` | plugins/TopologyConfig.cxx:662-667 | The generated local-socket list has one entry per sub-socket of the channel |
| `ChannelConfig.SubSocketReads` | plugins/TopologyConfig.cxx:984-1085 | On a registered store, the entry for sub-socket j of a connecting channel is what is read at the position of the one sub-socket that claims it; it stands in place j, or one later behind an unset entry when the search of several peers starts from "unspecified" |
| `Registry.PublishedIsRegistered` | plugins/TopologyConfig.cxx:630-671 | What the devices write (counted peers and sockets, published addresses) is the registry that the wiring results start from |
| `Registry.SubSocketConfigured` | plugins/TopologyConfig.cxx:984-1110 | With at most ten sub-sockets per partner and an empty start text, or one peer, sub-socket j is configured with the very address bound by the one sub-socket that claims it |
| `Registry.ConfiguredIffFromEmpty` | plugins/TopologyConfig.cxx:1013-1085 | With at most ten sub-sockets per partner, all sub-sockets of a connecting channel get their own partner's address if and only if the search starts from an empty text or the channel has at most one peer |
| `Registry.PartneredIffUpToTen` | plugins/TopologyConfig.cxx:1012-1085 | For distinct addresses, every sub-socket that claims one of a binding instance gets the address bound there if and only if there are at most ten |
| `Registry.PairedWithBound` | plugins/TopologyConfig.cxx:1042-1065 | With single sockets, instance n connects to the address that instance n has bound |
| `Links.ReadsBack` | plugins/TopologyConfig.cxx:816-867 | Reading inverts the link key format; my own end comes first |
| `Links.EitherOrder` | plugins/TopologyConfig.cxx:816-867 | A link written in either order gives one device the same record, and the two services see it from opposite sides |
| `Links.MergeLinks` | plugins/TopologyConfig.cxx:607-617 | One table entry for each distinct record, old or new; no link twice, and none ever taken out |
| `Records.TableIsWiringIff` | plugins/TopologyConfig.cxx:607-617 | Whatever order and repetition the records have, the table is the topology's wiring seen from this service if and only if the links kept from earlier cycles still belong to it |
| `Lifecycle.TopologyConfig.WriteChannel` | plugins/TopologyConfig.cxx:1327-1368 | A channel without peers writes and registers nothing; otherwise the hash is set and the list is pushed to |
| `Lifecycle.TopologyConfig.Initialize` | plugins/TopologyConfig.cxx:563-693 | From an unused state, peer lists and socket counts are those of the instances and the link table, not doubled, and those of the current records exactly without stale links; registered keys are exactly the written ones |
| `Lifecycle.FoundIsCurrentIff` | plugins/TopologyConfig.cxx:607-658 | A channel's peers, and their number, are those of the current records if and only if no removed link of the channel still leads to a service with an instance |
| `Lifecycle.RemovedLinkStays` | plugins/TopologyConfig.cxx:961-971 | Two cycles: a link record removed in between still gives its peer to the second one |
| `Lifecycle.TopologyConfig.WriteBindAddress` | plugins/TopologyConfig.cxx:1309-1322 | The bound mark is written for every binding channel, registered or not; its sub-socket keys are all registered |
| `Lifecycle.TopologyConfig.Reset` | plugins/TopologyConfig.cxx:961-971 | Removes exactly the registered keys |
| `Lifecycle.TopologyConfig.Cycle` | plugins/TopologyConfig.cxx:745-776 | One pass, with or without Bound: the keys of channels with peers go, the bound marks of binding channels without peers stay |
| `Lifecycle.TopologyConfig.Cycles` | plugins/TopologyConfig.cxx:745-776 | Any number of passes, each with its own registry, reset before or after Bound, cancelled or not: nothing is left if and only if every bound mark of a peerless channel is followed by a pass that registers the channel |
| `Lifecycle.SameRegistryLeavesIff` | plugins/TopologyConfig.cxx:745-776 | With one registry for all passes: nothing is left if and only if none got to Bound or every binding channel has a peer |
| `Rendezvous.SocketsBeforeBound` | plugins/TopologyConfig.cxx:1269-1300 | Every socket hash of a channel is queued before its bound mark |
| `Rendezvous.BoundHasAddresses` | plugins/TopologyConfig.cxx:1269-1300 | In every reachable state, resets included, a channel that is bound has all its addresses in the registry |
| `Rendezvous.AddressesPresentIff` | plugins/TopologyConfig.cxx:1127-1181 | In every run, with cancellations, resets and restarts: the channel was bound in the last state in which the instance still waited for it; all addresses are there now if the binder has not been reset since that state and, unless it was started again, only then; in all runs exactly when the binder has published them by now |
| `Rendezvous.ResetLosesAddresses` | plugins/TopologyConfig.cxx:1117-1124 | A run in which the binder is reset between the wait and the look-up leaves no address to find |
| `Rendezvous.SomebodyMoves` | plugins/TopologyConfig.cxx:1127-1259 | In an acyclic topology whose peers go on to the same state, some instance can step until all are DeviceReady |
| `Rendezvous.AllReachDeviceReady` | plugins/TopologyConfig.cxx:752-765 | Then every run is bounded by a measure, and one that cannot go on has all instances DeviceReady |
| `Rendezvous.CircleNeverReady` | plugins/TopologyConfig.cxx:1184-1259 | Instances that wait in a circle are not ready in any state of any run |
| `Rendezvous.AlwaysCompletesIff` | plugins/TopologyConfig.cxx:752-765 | The rendezvous completes in every maximal run if and only if no instances wait in a circle and each instance's peers go on to one and the same state |
| `Assembly.NeededIsBound` | plugins/TopologyConfig.cxx:1127-1181 | Every channel waited for is bound by an existing instance |
| `Assembly.CompletesIffServicesAcyclic` | plugins/TopologyConfig.cxx:1184-1259 | For a given set of links it always completes if and only if no services wait for each other in a circle and the instances a service waits for go on to the same state |
| `DeviceStates.BackThroughReset` | plugins/DaqServicePlugin.cxx:258-270 | Each path back to InitializingDevice ends with ResettingDevice, Idle |
| `DeviceStates.ForwardOutcome` | plugins/DaqServicePlugin.cxx:334-558 | A forward command leaves a settled device at the maximum of its state and the command's target |
| `DeviceStates.ForwardCommandsReachMaximum` | plugins/DaqServicePlugin.cxx:334-558 | The same for any list of forward commands |
| `DeviceStates.BackwardOutcome` | plugins/DaqServicePlugin.cxx:334-558 | STOP, RESET TASK, RESET DEVICE and RESET take a device down to Ready, DeviceReady and Idle from every settled state above, and do nothing elsewhere |
| `DeviceStates.OnlyTheHighestMatters` | plugins/DaqServicePlugin.cxx:334-558 | Order and repetition of forward commands do not matter: CONNECT, INIT TASK, RUN is RUN |
| `DeviceStates.InitDeviceException` | plugins/DaqServicePlugin.cxx:386-391 | INIT DEVICE follows the rule if and only if the state is not InitializingDevice |
| `DeviceStates.StartupReaches` | plugins/DaqServicePlugin.cxx:789-817 | The startup sequence reaches the named state; it reaches Running exactly for texts that name none of the earlier ones |
| `DeviceControl.Control.WaitFor` | plugins/DaqServicePlugin.cxx:572-640 | The wait drops entries up to the first one of the target; it gives up exactly when the device rests without it |
| `DeviceControl.Control.Change` | plugins/DaqServicePlugin.cxx:561-651 | The wait stops at an entry that came after the device was looked at; unless a run ended by itself, the entry at the position of the request is the requested state and it has been taken; unless the device has failed, what is left in the queue is nothing or one Ready; it gives up only on taking the error, which the thread sees as an exception |
| `DeviceControl.Control.MultiCommand` | plugins/DaqServicePlugin.cxx:334-558 | Under every interleaving the queue is empty or holds one leftover Ready once a notification has been taken, the start-up Idle entry only before that, or the device has failed; without failure and self-ended run the device settles in the command's outcome |
| `DeviceControl.Control.RunStartupSequence` | plugins/DaqServicePlugin.cxx:789-817 | The transitions up to the named state, with the same guarantees: after the first one the start-up Idle entry is gone |
| `DeviceControl.Control.SubscribeToDaqCommand` | plugins/DaqServicePlugin.cxx:980-1058 | Commands are carried out in order until one asks to exit |
| `DeviceControl.Control.RunShutdownSequence` | plugins/DaqServicePlugin.cxx:820-856 | From every state and under every interleaving the device ends in Exiting or Error, and the wait is never entered with nothing to come |
| `DeviceControl.Requesting` | plugins/DaqServicePlugin.cxx:827-852 | Last popped state and queue stay a path down to the exit, and a settled device always has something to answer |
| `DeviceControl.Waited` | plugins/DaqServicePlugin.cxx:561-651 | Where the wait stops and what it leaves, for every way the device may have moved: nothing, or the Ready of a run that ended by itself |
| `InstanceIndex.Redis.Clean` | plugins/DaqServicePlugin.cxx:896-909 | Removes exactly the fields of processes without presence, and reports an own one |
| `InstanceIndex.Redis.SetId` | plugins/DaqServicePlugin.cxx:882-926 | The index is the first free one after cleaning, found within the cleaned table's size plus one tries; with an own uuid found the id is not a number |
| `InstanceIndex.GivenIsFree` | plugins/DaqServicePlugin.cxx:896-925 | The index given is held by no live process, and each smaller one by a process of valid presence |
| `InstanceIndex.SmallestFree` | plugins/DaqServicePlugin.cxx:912-925 | While each valid presence belongs to the process in the hash, the index is the smallest one without valid presence |
| `InstanceIndex.VisibleKeptIff` | plugins/DaqServicePlugin.cxx:1061-1083 | A step keeps every valid presence in the hash if and only if it is not the end of a departure whose number has a valid presence again |
| `InstanceIndex.LeaveEndSharesIff` | plugins/DaqServicePlugin.cxx:1061-1083 | After the second deletion of a departure some continuation, whose own departures take no number from a live process, ends with two live processes of one number if and only if a live process holds the departed number at the deletion |
| `InstanceIndex.NeverShared` | plugins/DaqServicePlugin.cxx:871-952 | In every run in which no departure ends while a live process holds its number, two live processes never share a number |
| `InstanceIndex.UniqueWithOneStepDepartures` | plugins/DaqServicePlugin.cxx:1061-1083 | In every run whose departures nothing interrupts, live processes have different numbers and the next number given is the smallest one without valid presence |
| `InstanceIndex.JoinsFill` | plugins/DaqServicePlugin.cxx:912-925 | N joins without departures give exactly the numbers below N |
| `InstanceIndex.InterruptedDepartureShares` | plugins/DaqServicePlugin.cxx:1066-1075 | A run in which another process takes the number between the two deletions ends with two live processes of one number |
| `Barrier.WebGui.Wait` | controller/WebGui.cxx:658-708 | The wait passes at the first look that shows all states of the group equal to one target |
| `Barrier.WebGui.WaitAll` | controller/WebGui.cxx:712-730 | One wait after the other for the groups of the selection |
| `Barrier.WebGui.RedisPublishDaqCommand` | controller/WebGui.cxx:397-495 | Publications and waits follow the plan; they stop short only inside a wait |
| `Barrier.SelectedAreAwaited` | controller/WebGui.cxx:712-730 | Every device that acts on a message is looked at by one of the waits |
| `Barrier.OneTransitionLeft` | controller/WebGui.cxx:447-477 | From the publication of a guarded command on, in every execution, each selected device in sight needs at most one transition for it, or has failed |
| `Barrier.GuardedIff` | controller/WebGui.cxx:463-487 | This holds of run starts if and only if the command is RUN and the ready flag is set |
| `Barrier.MixtureNeverPasses` | controller/WebGui.cxx:699-706 | A wait on a group with devices in DeviceReady and devices past it never ends |
| `Summary.PollState` | controller/WebGui.cxx:217-288 | The table holds exactly the keys found, with states and dates; counts lose no instance of a known state; the date is the latest |
| `Summary.SumIsCounted` | controller/WebGui.cxx:271-281 | The counts of a service add up to its instances with a known state |
| `Summary.Compare` | controller/WebGui.cxx:520-550 | Size and inclusion decide equality: the flags are up exactly when services, or services and instances, differ |
| `Summary.Sender.SendStateSummary` | controller/WebGui.cxx:517-552 | The flags compare with the summary before, which is then replaced |
| `Summary.Sender.Serve` | controller/WebGui.cxx:517-552 | A client that refreshes its names on the instance flag only has the right names after every summary |
| `HttpSession.Pipelining` | controller/http_session.cxx:15-107 | In every run: responses in request order (section 9.3.2 of RFC 9112), at most eight queued, reading or full but not both, writing exactly when not empty, a completed write never finds the queue empty |
| `HttpSession.NothingAfterClose` | controller/http_session.cxx:88-107 | After a closing response or a failed write nothing is written again, and fewer than eight more requests are read |
| `HttpSession.AnsweredAtEndOfStreamIff` | controller/http_session.cxx:55-63 | At the end of the stream all requests can still be answered if and only if at most one response is left |
| `HttpSession.HalfClosedTooEarly` | controller/http_session.cxx:55-63 | A run from the start: two requests, then the end of the stream; the second one cannot be answered any more |
| `HttpSession.Connection.Push` | controller/http_session.h:43-72 | A response is queued, and written at once if it is alone |
| `HttpSession.Connection.QueueOnWrite` | controller/http_session.cxx:15-23 | The front is removed, the next one started, and a full queue reported |
| `HttpSession.Connection.OnRead` | controller/http_session.cxx:55-84 | Keeps the session's invariant and takes exactly the specified step |
| `HttpSession.Connection.OnWrite` | controller/http_session.cxx:88-107 | The same for a completed write |
| `Metrics.NothingLost` | plugins/MetricsPlugin.cxx:798-850 | Between state changes the executed commands followed by the queued ones are all commands of the reports, in order |
| `Metrics.SumsAreTotals` | plugins/MetricsPlugin.cxx:764-768 | Each sum is the total of its channel's reports since Ready |
| `Metrics.QueuedFigures` | plugins/MetricsPlugin.cxx:787-837 | A report queues its own figures with its channel's totals since Ready, inputs unless push or pub, outputs unless pull or sub |
| `Metrics.FlushedIff` | plugins/MetricsPlugin.cxx:839-851 | When no new channel appears, the pipeline is executed if and only if every channel seen is counted or reports with a known type |
| `Metrics.UntypedBlocks` | plugins/MetricsPlugin.cxx:782-787 | A channel without a known socket type stops all execution until the next state change |
| `Metrics.RoundIsWhole` | plugins/MetricsPlugin.cxx:839-851 | A round of reports alone is executed with an entry of every channel seen, and of no other |
| `Metrics.RoundAfterChangeIff` | plugins/MetricsPlugin.cxx:307-325 | A state change other than Ready discards the queued entries and keeps the counts: the round completed next holds an entry of every channel seen if and only if each channel counted before reports again, typed, after the change |
| `Metrics.MetricsPlugin.CountAll` | plugins/MetricsPlugin.cxx:843-846 | The sum of the counts is the number of counted channels |
| `Metrics.MetricsPlugin.SendSocketMetrics` | plugins/MetricsPlugin.cxx:764-851 | Takes exactly the specified step and keeps the invariant |
| `Metrics.MetricsPlugin.StateChange` | plugins/MetricsPlugin.cxx:300-340 | What is queued is discarded, the state is written; Ready clears sums and round |
| `Parameters.ListSurvivesIff` | plugins/ParameterConfigPlugin.cxx:414-426 | A printed list is read back if and only if it has at least two tokens and none inside is empty |
| `Parameters.MapSurvivesIff` | plugins/ParameterConfigPlugin.cxx:430-454 | A map printed in any order is read back if and only if it has at least two entries |
| `Parameters.GroupIff` | plugins/ParameterConfigPlugin.cxx:240-253 | An id has a group exactly when it is a name, a hyphen and digits, and the group is that name's key |
| `Parameters.GroupOfService` | plugins/ParameterConfigPlugin.cxx:240-253 | The instances of a service share its group key, also for hyphenated names, and no other service does |
| `Parameters.ParameterConfigPlugin.Parse` | plugins/ParameterConfigPlugin.cxx:168-182 | Sets exactly the property that the name and the text determine |
| `Parameters.ParameterConfigPlugin.ToMap` | plugins/ParameterConfigPlugin.cxx:430-454 | The first entry of a key stays, pieces without two tokens are skipped |
| `Parameters.ParameterConfigPlugin.ReadHash` | plugins/ParameterConfigPlugin.cxx:185-196 | All fields are set, whatever order they come in; other properties stay |
| `Parameters.ParameterConfigPlugin.ReadParameters` | plugins/ParameterConfigPlugin.cxx:215-257 | The group's layer, then the instance's, over what was there |
| `Parameters.InstanceOverridesGroup` | plugins/ParameterConfigPlugin.cxx:256-257 | A field has the instance's value, else the group's, else its old one |

## Left out

- Self-links within one service, and services whose name is a prefix of another's: the code's filtering of them does not support the wiring results.
- Links.MergeLinks: does not keep the option texts of links; the code joins them on every reading, and nothing reads them.
- Addresses.ReadPeerAddress: every hash listed has an address and the binder's host is known; the retries for a missing address, which end with an empty text, are not modelled, nor are services whose name begins like a channel key and the other fields of a hash.
- ConfigConnect and its retries: regular expressions and polling.
- IsUdsAvailable: which hosts share local sockets is a host lookup; the list that is generated is modelled.
- Rendezvous.AlwaysCompletesIff: every instance is told to connect, and stays in the state it is told to go on to; a run that ends by itself, from Running to Ready, is not a step of the rendezvous.
- Registry keys in Lifecycle are constructors, not texts; that the texts differ is `Wiring.KeyInjective`.
- The cancel flags' timing: a cancellation may strike an instance at any point after its publication.
- DeviceControl: the start and stop times and the thread handover written beside some transitions; between the first state read and the emptying of the queue in RunShutdownSequence the device does not move.
- DeviceControl.Control.WaitFor: gives up where FairMQ's queue throws its device-error exception; the release of the device control that follows is not modelled.
- InstanceIndex: the lock is exclusive for a whole allocation; its acquisition, extension and loss are not modelled, nor is the controller's own deletion of index fields when a presence key expires.
- Barrier: pre-run and post-run commands, run numbers, unknown command texts and malformed messages; all devices are subscribed before the run of the model begins.
- Summary: state names are numbers already; what FairMQ does with an unknown name is not part of this model.
- HttpSession: parsing, timeouts, the file handler (it gives one response to each request) and the WebSocket that takes over after an upgrade.
- Metrics: reading the log line, rounding of the message counts, process figures; the twelve pipeline commands of one direction are one entry.
- Parameters: sub-keys found by scanning, sets, sorted sets and typed conversions, which are kept as texts with a kind; the key separator is configured.
- Expiry times other than the presence key's.
- Telemetry, time utilities, command line tools, web pages and examples: input and output only.
