# Verification model of open-balena-vpn

A Dafny model of the parts of open-balena-vpn where state, concurrency or arithmetic decide whether
it is correct, with proofs over every input and every run. `dafny verify dfyconfig.toml` checks it.

| file | models |
|---|---|
| Reporter.dfy, ReporterProgress.dfy, ReporterCode.dfy | the device-state reporter of src/utils/clients.ts: its steps and invariant, what its runs achieve, the code as an object |
| ClientApi.dfy | the reference-counting endpoints of src/api.ts on top of the reporter |
| LineSplitter.dfy, Management.dfy, ManagementRoundTrip.dfy, ManagementCode.dfy | the OpenVPN management stream of src/utils/openvpn.ts: line buffer, events, printer, the object with swapped listeners |
| Subnets.dfy | src/utils/netmask.ts, the mask rule of src/utils/config.ts, the instance lookup and the address plan |
| LearnAddress.dfy | the traffic-shaping script openvpn/scripts/learn-address.sh |
| Bandwidth.dfy | byte accounting in src/vpn-worker.ts |
| Shutdown.dfy | draining and leaving, src/vpn-worker.ts and src/init-primary.ts |
| Tunnel.dfy | request parsing and routing in src/proxy-worker.ts |
| Text.dfy, Sequences.dfy | the string and sequence operations these use |

## How the code is read

Code that changes state step by step is a class (or a method with a loop) whose contracts equate its
new state with a function of the old one; the invariants and theorems are lemmas about those
functions, over all sequences of steps.

- Between two awaits JavaScript is not interrupted. A call of `setConnected` therefore includes the
  round it starts up to the first await, and the end of a round includes the start of the next one.
- The remote side of the reporter is a table written by the requests. A request succeeds, fails
  without effect, or takes effect although its answer is lost; in the last case it takes effect
  before the failure is noticed. Its initial contents are arbitrary.
- Assumed of code that is not part of this model: `netmask` clears host bits and keeps 32 bits,
  `eventemitter3` calls the listeners subscribed when `emit` was called, `tc` filter deletes match
  device and IP and succeed and class ids are read as hexadecimal numbers of at most 16 bits, the
  metric counters add what they are given, a pause lasts as long as asked (Node raises one below a
  millisecond to a millisecond), and `node-tunnel` hands `connect` the host and port of the
  rewritten url.

## Findings

- Agreement between service and remote table fails after a lost answer when the target then reverts
  to the confirmed state (`LostAnswerBreaksAgreement`). `IdleAgreement` and `EndToEnd` say exactly
  when: some request that took effect changed the device, its answer was lost, and no later request
  for the device took effect.
- A connect from a new worker is swallowed if and only if it repeats the value in flight for the
  device and a request for the device succeeds before the next snapshot (`InFlightReportSwallowed`,
  with `SecondWorkerNeverSent` as a run); a device that is not in flight is always reported
  (`WorkerChangeIsSent`).
- An environment value that holds a `=` arrives cut at it
  (`BlockLines`); `ValuesKeptIff` says that exactly the values without `=` arrive whole.
- `split` of a /0 network never ends; of any other network it does (`SplitEndsIff`).
- A client that takes over a client id behind every drain that has reached its place is not killed
  (`ReusedIdEscapes`). `ReportCoversCache` says exactly which clients a report misses: those and no
  others.
- From the ten-thousandth IP on the shaping script hands out class ids that tc refuses;
  `RulesAreExact` says that up to there no command fails and from there some do.

## Model

| member | source | states |
|---|---|---|
| `Reporter.Reachable` | src/utils/clients.ts:56-180 | in every reachable state, over all interleavings: no lost update (an unconfirmed target is pending or in flight), every looked-up uuid is tracked, pending work implies a running round, unsettled requests are bounded and disjoint, and an in-flight uuid keeps the sent target or is pending again |
| `Reporter.RemoteFollows` | src/utils/clients.ts:87-111 | along every run the remote value of a device differs from the confirmed one exactly when some step of the run lost the answer to a request that changed it and no later request for it took effect |
| `Reporter.RoundStarts` | src/utils/clients.ts:117-151 | a round sends exactly the pending devices whose state is unconfirmed, each once, with its target as the value, in disjoint bounded requests |
| `Reporter.RoundKeepsOrder` | src/utils/clients.ts:124-151 | the requests of a round are a partition of the snapshot in order: disconnects first, and within each kind the order in which the devices became pending |
| `Reporter.ChunksPartition` | src/utils/clients.ts:48-54 | the pieces keep order, lose nothing, are non-empty and full except possibly the last |
| `Reporter.SuccessKeepsInv` | src/utils/clients.ts:92-104 | a successful request keeps the invariant, although it confirms the sent value with the newest worker |
| `Reporter.FailureKeepsInv` | src/utils/clients.ts:105-111 | a failed request keeps the invariant by making its uuids pending again |
| `Reporter.FailureKeepsOrder` | src/utils/clients.ts:107-110 | the devices of a failed request go back behind those that became pending since, in the order in which they were sent |
| `Reporter.TargetKeepsInv` | src/utils/clients.ts:160-179 | an event keeps the invariant at any moment of a round |
| `Reporter.TargetIsLast` | src/utils/clients.ts:167-176 | along every run exactly the devices with an event are tracked, each with the value and the worker of its last event as the target |
| `ReporterProgress.IdleAgreement` | src/utils/clients.ts:117-158 | between rounds every target is confirmed, and the remote value equals the target if and only if no step of the run lost the answer to a change of the device without a later request for it taking effect |
| `ReporterProgress.LostAnswerBreaksAgreement` | src/utils/clients.ts:133-138 | for every device a run with one lost answer ends idle with a "connected" target and a "disconnected" remote value |
| `ReporterProgress.Convergence` | src/utils/clients.ts:117-158 | without new events a continuation is bounded in length by the failures still to come, can go on exactly until the loop stops, then has every device confirmed; it closes at most the running round, one more, and one per failure |
| `ReporterProgress.WorkerChangeIsSent` | src/utils/clients.ts:133-146 | a report from another worker for a device not in flight is sent, at once or by the next snapshot, whatever settles in between |
| `ReporterProgress.InFlightReportSwallowed` | src/utils/clients.ts:93-146 | a report from a new worker for a device in flight, with any steps before the next snapshot: the snapshot sends it if and only if it does not both repeat the value in flight and see a request for the device succeed |
| `ReporterProgress.SecondWorkerNeverSent` | src/utils/clients.ts:96-99 | a run in which the second worker's connect is confirmed without being sent |
| `ReporterProgress.UntrackedUntouched` | src/utils/clients.ts:71-104 | the remote value of a device the process was not told about is never written |
| `ReporterCode.Chunk` | src/utils/clients.ts:48-54 | the loop returns an order-preserving partition into bounded pieces |
| `ReporterCode.DeviceReporter.Snapshot` | src/utils/clients.ts:124-145 | the loop over the pending set selects the due connects and disconnects |
| `ReporterCode.DeviceReporter.ReportUpdates` | src/utils/clients.ts:60-85 | one request per chunk is posted |
| `ReporterCode.DeviceReporter.UpdateLoop` | src/utils/clients.ts:117-151 | the code up to its await is the round-starting step |
| `ReporterCode.DeviceReporter.SetConnected` | src/utils/clients.ts:160-179 | keeps the invariant and is the event step |
| `ReporterCode.DeviceReporter.RequestSucceeded` | src/utils/clients.ts:92-104 | keeps the invariant and is the success step |
| `ReporterCode.DeviceReporter.RequestFailed` | src/utils/clients.ts:105-111 | keeps the invariant and is the failure step |
| `ReporterCode.DeviceReporter.RoundOver` | src/utils/clients.ts:152-157 | keeps the invariant and is the end-of-round step |
| `ClientApi.EndToEnd` | src/api.ts:100-184 | for every interleaving of posts, rounds, successes, failures and lost answers: when idle, the remote value of a device is "connected" exactly when connects minus disconnects is at least one, if and only if no answer to a change of it was lost without a later request for it; other devices have a balance of at most zero and were not written |
| `ClientApi.EndToEndLossless` | src/api.ts:100-184 | without lost answers the agreement is unconditional |
| `ClientApi.OrderIndependence` | src/api.ts:110-123 | two runs with the same posts in any order, and any reporter steps in between, end with equal counts, gauge and connected targets |
| `ClientApi.RefIsBalance` | src/api.ts:110-111 | the count of a uuid is its connects minus its disconnects |
| `ClientApi.GaugeCountsOnline` | src/api.ts:113-117 | at every moment the online gauge is the number of uuids with a count of at least one |
| `ClientApi.TotalCountsConnects` | src/api.ts:117 | the running total is the number of connects |
| `ClientApi.TargetsFollowCounts` | src/api.ts:119-123 | at every moment a target is "connected" exactly for the uuids with a count of at least one |
| `ClientApi.TargetWorkerIsLast` | src/api.ts:107-184 | at every moment the target worker of a device is the worker of its last post that was passed on: a connect when connects minus disconnects was not negative, a disconnect when it was one |
| `ClientApiCode.ApiServer.PostClient` | src/api.ts:100-124 | status and new state of a POST, with and without a common name |
| `ClientApiCode.ApiServer.DeleteClient` | src/api.ts:158-184 | status and new state of a DELETE; 200 exactly when the count was one |
| `LineSplitter.ChunkingIndependence` | src/utils/openvpn.ts:150-156 | lines and leftover depend only on the stream, wherever it is cut, also between CR and LF |
| `LineSplitter.SameStreamSameLines` | src/utils/openvpn.ts:150-156 | two ways of cutting the same stream give the same lines and leftover |
| `LineSplitter.SplitPrinted` | src/utils/openvpn.ts:151 | cutting printed lines gives them back and leaves the buffer empty |
| `LineSplitter.SplitIsCut` | src/utils/openvpn.ts:151 | every text is its lines with LF or CRLF between them, where no line holds an LF and none before a lone LF ends in CR |
| `LineSplitter.SplitFindsCut` | src/utils/openvpn.ts:151 | there is only one such way to read a text, with any mixture of line ends, and the cut finds it |
| `Text.TrimExact` | src/utils/openvpn.ts:154 | trimming removes exactly the surrounding white space |
| `Text.ParseNumeral` | src/utils/openvpn.ts:256 | `parseInt` reads white space, a sign and digits at the front and ignores what follows |
| `Text.ParseIntIff` | src/utils/openvpn.ts:268-270 | `parseInt` gives a number if and only if the text begins with one |
| `Management.SegmentsCover` | src/utils/openvpn.ts:226-298 | the block segmentation assigns every line to exactly one segment, in order |
| `Management.ParserRefinesSegments` | src/utils/openvpn.ts:226-298 | for every line sequence the handler-swapping parser has the mode, the outputs and the lines seen by the idle handler of the declarative segmentation |
| `Management.CloseThenIdle` | src/utils/openvpn.ts:287-295 | a line that ends a block is handled as if the parser had been idle, after the block was emitted; the end marker is consumed |
| `Management.FeedCutShort` | src/utils/openvpn.ts:287-295 | a block cut short by another line is emitted with what it collected, before that line is handled |
| `ManagementRoundTrip.StreamRoundTrip` | src/utils/openvpn.ts:150-298 | any list of client events, log messages and byte counts, printed in the text of the protocol with either line end and cut anywhere, is emitted exactly and in order, each log under the name of its level, except that an environment value ends at its first `=`; the buffer is empty and no block open |
| `ManagementRoundTrip.DeliverIsReceive` | src/utils/openvpn.ts:150-156 | chunks delivered one by one leave the buffer, mode and outputs of all their lines fed at once |
| `ManagementRoundTrip.CollectExact` | src/utils/openvpn.ts:280-286 | with distinct keys the emitted environment holds exactly the given keys, each with its value up to the first `=` |
| `ManagementRoundTrip.ValuesKeptIff` | src/utils/openvpn.ts:284-286 | an environment arrives as it was sent if and only if no value holds a `=` |
| `ManagementRoundTrip.BlockLines` | src/utils/openvpn.ts:281-295 | inside a block, in literal text: an environment line adds its pair, a second `=` cuts the value, a line without `=` adds an undefined value, the end marker emits the block |
| `ManagementRoundTrip.HeaderOpens` | src/utils/openvpn.ts:240-259 | a printed header opens a block with its kind, client id and arguments |
| `ManagementRoundTrip.HeaderLiterals` | src/utils/openvpn.ts:236-259 | the four headers in literal text open a block of their kind with the client id and the arguments |
| `ManagementRoundTrip.IgnoredIff` | src/utils/openvpn.ts:226-273 | an idle parser passes over exactly the lines that begin with none of the six known texts |
| `ManagementRoundTrip.MessageParses` | src/utils/openvpn.ts:227-235 | a log line gives its level and its whole message, commas included |
| `ManagementRoundTrip.LogLevels` | src/utils/openvpn.ts:79-86 | in literal text: D, I, n, W, N, F and the empty level are debug, info, notice, warning, error, emerg and notice; every other level has no name |
| `ManagementRoundTrip.ShortLogs` | src/utils/openvpn.ts:229-235 | a log line without a level is a notice and one without a message has an empty one |
| `ManagementRoundTrip.BytesParse` | src/utils/openvpn.ts:263-271 | a byte-count line gives its three numbers |
| `ManagementCode.FindKind` | src/utils/openvpn.ts:241-247 | the loop finds the first event name the text starts with |
| `ManagementCode.VpnManager.HandleData` | src/utils/openvpn.ts:226-273 | the idle handler is the idle step and leaves exactly one parser handler subscribed |
| `ManagementCode.VpnManager.HandleBlock` | src/utils/openvpn.ts:281-296 | the block closure is the block step and re-dispatches once exactly when the line is neither ENV nor the end marker |
| `ManagementCode.VpnManager.Dispatch` | src/utils/openvpn.ts:154 | emitting a line is one parser step; re-dispatching nests at most once |
| `ManagementCode.VpnManager.EmitLines` | src/utils/openvpn.ts:153-155 | the loop feeds the trimmed lines to the parser in order |
| `ManagementCode.VpnManager.OnData` | src/utils/openvpn.ts:150-156 | a chunk is one delivery: its complete lines, trimmed, go to the parser and the rest is kept |
| `Subnets.Split` | src/utils/netmask.ts:37-53 | both errors; otherwise the loop ends, also at the top of the 32-bit space, and returns the 2^(m-p) consecutive blocks of the parent |
| `Subnets.PartitionIsExact` | src/utils/netmask.ts:37-53 | the blocks are aligned, pairwise disjoint, and their union is the parent |
| `Subnets.SplitEndsIff` | src/utils/netmask.ts:46-52 | the loop ends if and only if the parent is not /0 |
| `Subnets.NextPiece` | src/utils/netmask.ts:56-61 | `next` is the following block, wrapping at the end of the address space |
| `Subnets.BlockAddresses` | src/utils/netmask.ts:26-35 | first, second, third, last and broadcast address of a block, without wrap |
| `Subnets.ContainsIff` | src/utils/netmask.ts:48 | a block contains another if and only if it contains all its addresses |
| `Subnets.DefaultSizing` | src/utils/config.ts:136-144 | the default mask is the least one that is at least 16 and gives at least one subnet per instance |
| `Subnets.EveryInstanceHasSubnet` | src/vpn-worker.ts:40-43 | with the default mask at most 29 every id in 1..count has a subnet |
| `Subnets.GetInstanceSubnet` | src/vpn-worker.ts:40-43 | every error case, the subnet of each valid id, and nothing beyond the last |
| `Subnets.SubnetPlan` | src/utils/openvpn.ts:165-195 | without a configured gateway the gateway is base plus one, the peer base plus two, the pool base plus three up to base plus size minus two; so each address strictly between base and broadcast has exactly one use |
| `Subnets.AddressPlan` | src/vpn-worker.ts:188-195 | across all instances no address has two uses |
| `LearnAddress.RulesAreExact` | openvpn/scripts/learn-address.sh:92-174 | after every sequence of runs class ids are distinct and counted by last_classid, and the rules are exactly one class, filter and policer, with its device and rates, per limit asked for whose class id tc can express; no tc command failed, and no limit is missing, if and only if at most 9999 IPs were ever given one |
| `LearnAddress.CallAsks` | openvpn/scripts/learn-address.sh:14-58 | what one more call asks for, from its words: nothing unless it has two rates, enough words and a device; then an add or update asks for a limit for the fourth word on the device named, download rate first, and a delete for none; the exit code follows |
| `LearnAddress.CallPrepares` | openvpn/scripts/learn-address.sh:176-183 | a rejected call changes nothing; an accepted one prepares the device it names, whatever its action |
| `LearnAddress.AddInstalls` | openvpn/scripts/learn-address.sh:92-142 | after `down up add ip cn dev`, whatever ran before, the rules of the IP are one class with rate `down`, one filter and one policer with rate `up`, all on `dev`, if the class id is at most 9999 |
| `LearnAddress.DeleteRemoves` | openvpn/scripts/learn-address.sh:144-174 | after a delete there is no rule and no device file for the IP |
| `LearnAddress.DeviceIsLast` | openvpn/scripts/learn-address.sh:33-46 | the device is the argument of highest index that starts with tun or tap or is lo, and the environment's if there is none |
| `LearnAddress.GivenHaveClasses` | openvpn/scripts/learn-address.sh:100-112 | exactly the IPs that were ever given a limit have a class id |
| `LearnAddress.ClassIsPermanent` | openvpn/scripts/learn-address.sh:100-112 | the class id of an IP never changes and last_classid never decreases |
| `LearnAddress.EnableKeeps` | openvpn/scripts/learn-address.sh:92-142 | enabling an IP keeps state and rules consistent, also when it was shaped on another device |
| `LearnAddress.DisableKeeps` | openvpn/scripts/learn-address.sh:144-174 | disabling removes exactly the rules of the IP and leaves everything else consistent |
| `LearnAddress.RateIff` | openvpn/scripts/learn-address.sh:54-58 | the rate check accepts exactly a number followed by kbit, mbit or gbit |
| `LearnAddressCode.FindDeviceArgument` | openvpn/scripts/learn-address.sh:33-46 | the loop finds the last argument that looks like a device, or the environment's |
| `LearnAddressCode.Shaper.BwlimitEnable` | openvpn/scripts/learn-address.sh:92-142 | new files and rules of an add or update |
| `LearnAddressCode.Shaper.BwlimitDisable` | openvpn/scripts/learn-address.sh:144-174 | new files and rules of a delete |
| `LearnAddressCode.Shaper.Script` | openvpn/scripts/learn-address.sh:14-197 | one run, after which files and rules again agree with the limits asked for; it exits with 0 exactly for an accepted add, update or delete |
| `Bandwidth.BytesConserved` | src/vpn-worker.ts:73-105 | over every run each byte counter is the sum over sessions of the last count reported in the session; unknown clients add nothing |
| `Bandwidth.CacheHoldsOpenSessions` | src/vpn-worker.ts:217-229 | the cache holds exactly the open sessions and their last counts |
| `Bandwidth.CacheRemembersSession` | src/vpn-worker.ts:102-104 | an entry carries the name of its session and the time of its client's last event |
| `Bandwidth.MessageExact` | src/vpn-worker.ts:86-101 | an event sends a message if and only if it is a report for an open session, at least a clock second after the client's last event, with a parent process; the message has the name of the session and, in each direction, eight times the bytes gained over the seconds elapsed |
| `Bandwidth.BitsConserved` | src/vpn-worker.ts:89-104 | eight times the counter is the sum of rate times elapsed time over the messages plus eight times the bytes of silent reports |
| `Bandwidth.SentBitsBounded` | src/vpn-worker.ts:92-101 | with counts that do not decrease within a session the bits sent never exceed eight times the session total, with equality if and only if no byte-carrying report falls in the clock second of its client's event before |
| `Bandwidth.Accountant.WriteBandwidthMetrics` | src/vpn-worker.ts:73-105 | handles a report and keeps both counters equal to the session totals of the events handled |
| `Bandwidth.Accountant.ClientEstablished` | src/vpn-worker.ts:217-229 | handles a new session and keeps both counters equal to the session totals |
| `Shutdown.PrimaryLeavesAfterAll` | src/init-primary.ts:105-126 | the primary has left if and only if every id in 1..count was told to it, and then each of them sent a report at a moment when its cache was covered in the sense of `ReportCoversCache` |
| `Shutdown.PrimaryLeaves` | src/init-primary.ts:105-126 | once every id has reported and no report is waiting, the primary has left |
| `Shutdown.MailIsReported` | src/vpn-worker.ts:165-174 | an id is waiting or was told to the primary if and only if that worker has sent a report |
| `Shutdown.RestartForgets` | src/init-primary.ts:157-174 | a worker that is forked again starts without clients and drains, and what it reported before still counts |
| `Shutdown.ReportCoversCache` | src/vpn-worker.ts:145-174 | at every report, for any number of concurrent drains: a client in the cache was killed after it was last set if and only if it did not take over a place that every drain which reached it had already passed; if it did, the reporting drain itself had passed the place; a client whose id was new when it was set was killed after that, also when it was added while draining |
| `Shutdown.KilledIffPassed` | src/vpn-worker.ts:145-159 | at every moment a client in the cache was killed since it was last set if and only if a drain that had not passed its place then has passed it since |
| `Shutdown.CacheExact` | src/vpn-worker.ts:217-229 | the cache from the history: the client last set for every id ever set, in the order in which the ids were first set |
| `Shutdown.DrainReports` | src/vpn-worker.ts:145-174 | a drain left alone kills the clients it has not visited, one by one in cache order, and reports exactly after the last |
| `Shutdown.EnoughIsAll` | src/init-primary.ts:111-126 | distinct worker ids reach the instance count exactly when all of them are there |
| `Shutdown.ReusedIdEscapes` | src/vpn-worker.ts:145-159 | in every state where a drain is about to report, a client that takes over any id of the cache is not killed before the report |
| `Shutdown.PauseFitsIff` | src/vpn-worker.ts:138-141 | the pauses of n turns fit the timeout if and only if n is at most the counted clients or even the maximum pause fits |
| `Shutdown.DrainInTime` | src/vpn-worker.ts:138-160 | the pauses of a drain that reports took at most the timeout if and only if no client with a new id was set since it was begun, or even the longest pause for every client fits |
| `Shutdown.DrainCounts` | src/vpn-worker.ts:126-160 | a drain counts the clients in the cache at the moment it was begun, at any later time; with none it is over at once |
| `Shutdown.BeginCounts` | src/vpn-worker.ts:126-151 | a drain that begins kills the first client at once |
| `Shutdown.CacheGrows` | src/vpn-worker.ts:217-229 | the cache never shrinks and keeps its size exactly while no new id is set |
| `ShutdownCode.DrainingWorker.ClientEstablished` | src/vpn-worker.ts:217-229 | a new id goes to the end of the iteration order, a known one keeps its place |
| `ShutdownCode.DrainingWorker.DrainTurn` | src/vpn-worker.ts:145-174 | one turn kills the next client or sends the report; a report is sent with the cache covered |
| `ShutdownCode.DrainingWorker.Advance` | src/vpn-worker.ts:145-174 | the next client is killed even if one of its name was killed before, or the report is sent |
| `ShutdownCode.DrainingWorker.DrainConnections` | src/vpn-worker.ts:126-145 | a drain counts the clients in the cache and takes its first turn; it reports at once exactly when there are none |
| `ShutdownCode.Primary.OnDrain` | src/init-primary.ts:105-126 | a message adds its id once and decides to leave |
| `Tunnel.ParseComplete` | src/proxy-worker.ts:189-211 | everything the host name expression matches is accepted with its groups, port 80 by default |
| `Tunnel.ParseSound` | src/proxy-worker.ts:194-199 | everything accepted is matched by the expression |
| `Tunnel.RewriteRoundTrip` | src/proxy-worker.ts:234 | the rewritten url is the `.vpn` name of the target, and the parser inverts it for every hex uuid and port |
| `Tunnel.ForwardRoundTrip` | src/proxy-worker.ts:265 | the forwarded line has the three words CONNECT, the `.balena` name with port, and HTTP/1.0, and the parser of the other instance inverts it |
| `Tunnel.ServeKeepsTarget` | src/proxy-worker.ts:112-161 | an instance connects or forwards only the target asked for, only after access and connection were confirmed, and never forwards to itself |
| `Tunnel.RefusalStatus` | src/proxy-worker.ts:213-251 | 400 if and only if there is no url, 403 if and only if the expression does not match, 407 without access, 503 for a device that is not connected, 500 for a failed query or a request that can be neither connected nor forwarded |
| `Tunnel.LocalDeviceReached` | src/proxy-worker.ts:121-145 | an admitted request is connected here if and only if the device is here, or shows up after the pause while the registry names this instance or cannot be asked |
| `Tunnel.RemoteDeviceReached` | src/proxy-worker.ts:146-161 | an admitted request for a device on another instance is forwarded there and connected with its uuid and port |
| `Tunnel.ForwardedAtMostOnce` | src/proxy-worker.ts:118-161 | with a steady registry whose address reaches the registered instance a request is forwarded at most once and keeps uuid and port; every instance on the way checked access |

## Left out

- Convergence: bounds the number of steps, not their time; the one-second pause and the request timeout are steps without duration.
- BytesConserved: takes counts as integers and lets a counter go down when a report does; a metrics library that rejects negative increments is not modelled.
- RulesAreExact: starts from an empty state directory and no rules, and takes the runs one after the other; two runs at once may read the same last_classid.
- StreamRoundTrip: works on characters; a chunk that ends inside a multi-byte character is not modelled.
- OnData: environment keys and log levels that name members of JavaScript's object prototype are ordinary keys here.
- SetConnected: worker ids are integers; a path segment that is not a number becomes NaN in the source, which is unequal to itself and would be reported on every snapshot.
- DefaultSizing: `Math.log2` is exact here.
- RewriteRoundTrip: numbers are exact; the source's lose digits above 2^53.
- ForwardedAtMostOnce: the `Forwarded` header is only a condition that refuses, since it is not written on the forwarded connection.
- A request that fails in the reporter's view and takes effect only later, after a newer request for the same device.
- The answer of the other instance's proxy (status line parsing in src/proxy-worker.ts), sockets and DNS.
- Serve: the request object and the sockets that the source updates are values here.
- `killOrphan` and the start of the OpenVPN process.
- Authentication and access caching, service registration, metrics endpoints, the primary's bitrate histograms, HAProxy commands, logging.
- Dotted-decimal text of addresses: addresses are numbers.
