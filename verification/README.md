# Management gateway, verified model

This project models the stateful core of a device management gateway and proves what it promises over
whole runs. Its parts follow the program:

* **Batch jobs** (`JobTable`, `JobStore`, `Management`, `BatchProtocol`, `BatchProperties`, `BatchOutcomes`, `BatchWorker`):
  the job rows and their transactions, the batch service as interleaved atomic steps (a store transaction or a block
  under the service lock is one step; reopening the store and a crash are steps too), and the service's own code refined
  to those steps.
* **Audited route table** (`RouteAudit`, `RouteReplay`, `RouteProperties`, `RouteRequests`, `DeviceRoutes`): a request does
  exactly what it asks, and its audit record commits with it, so the log replays to the table.
* **Credential profiles** (`Profiles`, `ProfileRows`, `ProfileSaving`, `ProfileStore`, `ProfilePatches`, `ProfileUpdates`,
  `ProfileLaws`, `ProfileTables`): patch, split, merge and resolve; whole-run invariants, and what each save writes.
* **Telnet** (`TelnetCodec`, `TelnetClient`): the option negotiator of RFC 854 and RFC 855 and the reads built on it.
* **Tunnels** (`Streams`, `Texts`, `Socks5`, `Socks5Peer`, `Socks5Agreement`, `HttpConnect`, `HttpPeer`, `HttpAgreement`):
  both ends of SOCKS5 (RFC 1928, RFC 1929) and HTTP CONNECT (section 9.3.6 of RFC 9110, section 2 of RFC 7617), and
  what the two ends agree on.
* **Connection tests** (`ProfileValidation`, `ProfileAcceptance`, `ProfileCrashes`, `ProfileFaults`, `StoredProfileTests`,
  `ValidatedHandshakes`, `Deadline`, `DnsSlots`): profile validation, exactly what it accepts and where it raises an error
  that is not its own, which stored profiles pass it, and what it buys the encoders; the deadline that owns resources;
  and the resolver slots.
* **Signed values** (`Base64`, `SignedValue`): unpadded base64url and the cookie signature over it.

`Wrappers` and `Bytes` hold shared types.

Code that changes state step by step is a class or a method with loops, proved against a specification function;
the promises are lemmas about those functions and about runs of steps. Faults the program meets from outside (a
failing transaction, a time-out, a failed send, a tester's answer, a fresh identifier) are parameters or
nondeterministic choices. Libraries are parameters with the few laws a result needs, stated where they are used:
JSON, HMAC, UTF-8, address and number parsing, key parsing, redaction.

`dafny verify dfyconfig.toml` checks everything.

## Findings

Places where the code does less than one might read into it, each with the lemmas that say so.

* Leaving the deadline's context waits for the timer thread only briefly, so it can return while a resource the timer
  has taken is still open (`Deadline.ExitMayLeaveOpen`); `Deadline.ClosedExactlyOnceAfterExit` gives the exact condition.
* A lookup thread that cannot be started loses its resolver slot for good (`DnsSlots.OneFailureLosesASlot`,
  `DnsSlots.ExhaustedForever`).
* The empty byte string has no decodable encoding (`Base64.DecodeEncode`), and a signature's last character may carry
  stray bits that the decoder ignores (`Base64.SecondText`): wherever the MAC does not fill its last
  group a second value is accepted for the signed one (`SignedValue.SecondValueAccepted`), and
  `SignedValue.AcceptedUpToTrailingBits` says exactly which.
* Validation accepts IPv6 literals with a dotted tail, which the loopback HTTP proxy's pattern rejects
  (`ValidatedHandshakes.MappedAddressPassesAndFails`).
* If writing a failure is itself refused while its job is active, the job stays active after shutdown
  (`BatchProperties.LostFailureStaysActive`) and blocks every creation until the store is opened again
  (`BatchProperties.LostBlocksCreation`); `BatchProperties.ShutdownLeavesNothingActive` says that nothing else does.
* Validation can raise something other than its own error: on a list where a protocol, a connector type or a method
  belongs, and on an integer time limit beyond any float (`ProfileCrashes.UnhashableProtocolCrashes`,
  `ProfileCrashes.UnhashableMethodCrashes`, `ProfileCrashes.HugeLimitCrashes`). `ProfileCrashes.CrashesExactly` gives the
  exact condition; no stored connection meets it (`StoredProfileTests.StoredProfilesNeverCrash`).

## Model

| member | source | states |
|---|---|---|
| JobTable.DistinctBySize | app/dal/db/store.py:608-611 | comparing the length of the selected identifiers with the size of their set is exactly a test for duplicates |
| JobTable.Pigeonhole | app/dal/db/store.py:636-677 | distinct results drawn from the snapshot never outnumber it, and the counts agree exactly when every snapshot identifier is among them |
| JobTable.CompleteExactlyWhenAllReported | app/dal/db/store.py:689-690 | the count test for completion holds if and only if every snapshot connection has exactly one result and nothing else has any |
| JobTable.SoundMeetsSchema | app/dal/db/storage.py:90-108 | the progress, status and active-slot constraints of the table can never reject a reachable row set |
| JobTable.CreatedSound | app/dal/db/store.py:608-624 | a creation succeeds exactly for 1 to 1000 distinct known devices, a new identifier and no active job; the new job is queued, empty and holds each selected device with its profile, and every other row is the same before and after |
| JobTable.RecordedExactly | app/dal/db/store.py:640-676 | a submission is recorded if and only if the job is active, the connection is in its snapshot without a result yet, duration and success are valid and a simulation flag matches; all earlier results stay and the new one says what was submitted and the endpoint of its snapshot profile |
| JobTable.WithResultSound | app/dal/db/store.py:636-677 | recording appends one result for the submitted connection to one row, keeps its status, and every other row is the same before and after |
| JobTable.WithStatusSound | app/dal/db/store.py:679-697 | exactly the allowed transitions succeed, completion only with all results; one row gets status and error, keeps its results, and every other row is the same |
| JobTable.ReopenedSound | app/dal/db/store.py:154-157 | opening the store turns exactly the active rows into failed ones with the restart error and no slot, and leaves every other row equal |
| JobTable.EveryRunSound | app/dal/db/store.py:608-697 | over any sequence of store calls and reopenings the table stays sound, snapshots are immutable, results grow and terminal jobs freeze |
| JobStore.JobStore.constructor | app/dal/db/store.py:154-157 | a store opened over sound rows holds no active job |
| JobStore.JobStore.CreateJob | app/dal/db/store.py:608-624 | the transaction yields exactly the new table or one of its errors with the old table, keeps the invariant, and never trips the schema |
| JobStore.JobStore.GetJobConnections | app/dal/db/store.py:630-634 | returns the immutable snapshot of an existing job |
| JobStore.JobStore.Lookup | app/dal/db/store.py:643-647 | the profile dictionary built from the snapshot finds an identifier exactly when the snapshot has it, with its own profile |
| JobStore.JobStore.AppendResult | app/dal/db/store.py:640-676 | the checks on one submission succeed if and only if it is a first, valid result for a snapshot member of an active job, and the row keeps every earlier result and gains the cleaned one |
| JobStore.JobStore.RecordJobResult | app/dal/db/store.py:636-677 | one result is appended to an active job or the error path is taken with the old table; the invariant is kept and the schema never trips |
| JobStore.JobStore.SetJobStatus | app/dal/db/store.py:679-697 | the transition table, the completion test and the slot, or an error with the old table |
| JobStore.JobStore.Successors | app/dal/db/store.py:684-688 | the table of allowed transitions |
| Management.SubmissionIsValid | app/bl/services/management.py:77-118 | what safe_test submits succeeds exactly when the tester said True with a usable reply, and carries the tester's duration if it is a finite number that is not negative, and otherwise the measured one |
| Management.TestItemIsRecorded | app/bl/services/management.py:77-151 | whatever a tester returns or raises, what safe_test makes of it passes every check of record_job_result for the next item, and the stored result reports device, success, simulation and duration as they are |
| BatchProtocol.NextKeepsInv | app/bl/services/batches.py:38-88 | every atomic step of start, the worker, shutdown, a reopening or a crash keeps the protocol invariant (lock holder, queue and worker never overlap; results are a prefix of the snapshot; every active job has an owner) |
| BatchProtocol.RunKeepsInv | app/bl/services/batches.py:38-122 | the invariant holds in every state of every interleaving, and job rows only evolve |
| BatchProperties.OneActiveJobInOrder | app/bl/services/batches.py:38-88 | in every interleaving at most one job is queued or running, result identifiers are a prefix of the snapshot in order, and completed means all of them |
| BatchProperties.TerminalJobsFreeze | app/dal/db/store.py:679-697 | in every continuation of every interleaving a terminal job keeps status and results, snapshots never change and results only grow |
| BatchProperties.ExportsAgree | app/bl/services/batches.py:90-104 | exactly an ended job can be exported, with its status, results and true counts, and every later export shows the same |
| BatchProperties.ShutdownLeavesNothingActive | app/bl/services/batches.py:118-122 | submit never meets a shut-down executor; once shutdown has returned the active jobs are exactly those whose failure could not be written (so none is active if and only if no failure was lost, and without storage faults none was); every other job is failed or completed with all results; a job failed by shutdown has strictly fewer results than its total |
| BatchProperties.LostBlocksCreation | app/dal/db/store.py:612-624 | while a failure is lost every creation is refused as a conflict, in every continuation without a reopening |
| BatchProperties.LostFailureStaysActive | app/bl/services/batches.py:61-65 | a run in which the failure cannot be written and the job is still active after shutdown |
| BatchProperties.WorkMakesProgress | app/bl/services/batches.py:67-88 | every worker step with work left strictly decreases a bound on the remaining work, whatever fails |
| BatchProperties.ClosedServiceDrains | app/bl/services/batches.py:118-122 | a closing service rests after a number of worker steps known in advance, under any interference but a crash |
| BatchProperties.StopAllowsOneMoreResult | app/bl/services/batches.py:72-86 | once the stop flag is set each job gains at most the one result whose test was already under way |
| BatchOutcomes.QuietStep | app/bl/services/batches.py:38-88 | every step without storage faults, shutdown or reopening keeps that results stop before the first device no enabled provider can test, that a job completes only without such a device and fails only at it |
| BatchOutcomes.JobsEndAsTheirSnapshotsSay | app/bl/services/batches.py:67-88 | whichever providers are enabled, whatever testers return or raise and however the inventory is edited: every terminal job is completed if and only if all devices of its snapshot can be tested, and otherwise failed, with exactly the results before the first that cannot |
| BatchOutcomes.EveryJobEnds | app/bl/services/management.py:134-141 | in every such interleaving each job that exists once the lock is free has ended so as soon as the worker has had a known number of steps |
| BatchOutcomes.FailureIsolation | app/bl/services/batches.py:67-88 | with working storage, no shutdown or reopening, and the provider each connection needs (none for network devices, so the default configuration is included), no job ever fails, and an idle service has only completed jobs, whatever the testers do |
| BatchOutcomes.EveryJobEndsCompleted | app/bl/services/batches.py:67-88 | in every such interleaving, however callers and editors interfere, each job that exists once the lock is free is completed with one result per device, in snapshot order, as soon as the worker has had a known number of steps |
| BatchWorker.BatchService.RunJob | app/bl/services/batches.py:67-88 | the worker code is a run of protocol steps that ends resting; what a waiting job meets (storage of each transaction, shutdowns, replies) decides its end: one truthful result for each item before the first that stops the loop, then completed, or failed with the cause; without faults and shutdown it ends as its snapshot decides |
| BatchWorker.SmoothJobEnds | app/bl/services/batches.py:67-88 | a script without faults and shutdown stops the loop exactly at the first device no enabled provider can test, and the job is completed if and only if there is none |
| BatchWorker.NextReported | app/bl/services/batches.py:74-85 | the next test of a running job is stored with a truthful result and nothing else of the job changes |
| BatchWorker.BatchService.ProcessItem | app/bl/services/batches.py:71-85 | one turn of the loop is a run of protocol steps to the next item or to the failure branch, and its effect on the table is that of its stop check, test and record |
| BatchWorker.BatchService.TestAndRecord | app/bl/services/batches.py:75-84 | test and record of one item as protocol steps |
| BatchWorker.BatchService.Start | app/bl/services/batches.py:38-56 | start under its lock is a run of protocol steps; it succeeds if and only if the service is open and idle, the devices are distinct, readable, known and testable, no job is active, and storage and executor accept it; the new job holds exactly those devices |
| BatchWorker.BatchService.CheckDevices | app/bl/services/batches.py:46-48 | the checking loop passes exactly when every device can be read, is known and has its provider |
| BatchWorker.BatchService.CreateAndSchedule | app/bl/services/batches.py:49-56 | a checked selection becomes a queued job, or a failed one when the executor refuses it, exactly when it can be created |
| BatchWorker.BatchService.Schedule | app/bl/services/batches.py:49-56 | the job is queued and becomes the current future, or is marked failed when the executor refuses it |
| BatchWorker.BatchService.Fail | app/bl/services/batches.py:61-65 | a failure is written if the store allows it and otherwise dropped |
| BatchWorker.BatchService.Shutdown | app/bl/services/batches.py:118-122 | both flags are set together before the executor is shut |
| RouteReplay.SeedRowsKeep | app/dal/db/store.py:489-507 | seeding keeps every existing row and unique destinations and adds rows of its own device only |
| RouteReplay.SeedRowsAreSeeds | app/dal/db/store.py:489-507 | what a first initialisation inserts is exactly the two documented seed routes, field by field, under two distinct identifiers |
| RouteReplay.SeededOk | app/dal/db/store.py:489-507 | a first initialisation touches one device, whose replay starts from what was inserted |
| RouteReplay.FaithfulKeeps | app/dal/db/store.py:557-598 | a table change whose record replays to the same change keeps the replay invariant of every device |
| RouteReplay.WriteFaithful | app/dal/db/store.py:524-545 | creating or updating a route writes a record whose replay gives the new view and whose before-state is the old route |
| RouteReplay.DeleteFaithful | app/dal/db/store.py:547-555 | deleting a route writes a record whose replay removes it and whose before-state is the deleted route |
| RouteReplay.CreateKeeps | app/dal/db/store.py:557-577 | a successful audited creation, including a first initialisation, keeps the invariant with exactly one succeeded record |
| RouteReplay.UpdateKeeps | app/dal/db/store.py:579-588 | a successful audited update keeps the invariant with exactly one succeeded record and touches no other device |
| RouteReplay.DeleteKeeps | app/dal/db/store.py:590-598 | a successful audited deletion keeps the invariant with exactly one succeeded record and touches no other device |
| RouteProperties.RequestIsAtomic | app/bl/services/device_data.py:64-115 | a request either changes one device with one succeeded record, or changes no table and leaves one failed record exactly when that record is valid and can be written |
| RouteRequests.RequestDoesWhatItAsks | app/dal/db/store.py:509-598 | a request succeeds if and only if access, storage, body, ownership, destinations and audit fields allow it; then the route it names holds exactly what was asked for (or is gone), every other route is as it was, and one record names action, route and both states; otherwise no table changes and the attempt is recorded exactly when it can be |
| RouteRequests.ErrorsTellWhy | app/bl/services/device_data.py:15-115 | each error code exactly when its own reason holds: provider or storage, forbidden path, network device, missing device or route, taken identifier or destination |
| RouteRequests.ValidatedAsRequested | app/dal/db/store.py:462-487 | a body is accepted exactly when every field is acceptable, and gives those fields with canonical addresses |
| RouteRequests.InitializedExactly | app/dal/db/store.py:489-507 | initialisation succeeds exactly for a simulated device whose two seed routes fit, and adds exactly those |
| RouteProperties.ReplayConserves | app/dal/db/store.py:800-803 | the number of routes is the number of seeds plus recorded creations minus recorded deletions, for any chained log |
| RouteProperties.RunKeeps | app/bl/services/device_data.py:60-115 | the replay invariant holds in every state of every run of requests, listings and device changes |
| RouteProperties.AuditReplays | app/dal/db/store.py:489-598 | for every existing initialised device of every reachable store, folding its succeeded records over its two seed routes gives its route table, each before-state is the state just before, and the table holds two routes plus recorded creations minus recorded deletions |
| DeviceRoutes.DeviceRoutes.Initialize | app/dal/db/store.py:489-507 | the seed loop computes exactly the initialised working copy or its first error |
| DeviceRoutes.DeviceRoutes.CreateRouteAudited | app/dal/db/store.py:557-577 | commits exactly the allowed creations, with the requested route and its record together, or rolls both back |
| DeviceRoutes.DeviceRoutes.UpdateRouteAudited | app/dal/db/store.py:579-588 | commits exactly the allowed updates, with the requested route and its record together, or rolls both back |
| DeviceRoutes.DeviceRoutes.DeleteRouteAudited | app/dal/db/store.py:590-598 | commits exactly the allowed deletions, removal and record together, or rolls both back |
| DeviceRoutes.DeviceRoutes.RecordFailure | app/bl/services/device_data.py:44-55 | appends at most one failed record and touches no other table |
| DeviceRoutes.DeviceRoutes.Serve | app/bl/services/device_data.py:64-115 | one request end to end succeeds exactly when it is served, does what it asks, and otherwise changes no table and records the attempt when it can |
| ProfileRows.RoleFromOk | app/dal/db/store.py:307-340 | a saved role holds exactly one kind of credential, nonempty and for keys accepted by the key check |
| ProfileRows.RoleIdentity | app/dal/db/store.py:307-340 | saving an empty patch on a stored role gives back the same row |
| ProfileRows.ConnectorFromOk | app/dal/db/store.py:354-377 | an accepted connector is direct and bare, or a complete endpoint with at most one kind of credential |
| ProfileRows.ConnectorIdentity | app/dal/db/store.py:354-377 | a sound connector passes validation unchanged |
| ProfileSaving.DecodedLogin | app/dal/db/store.py:225-233 | the login columns of a row survive splitting and merging exactly |
| ProfileSaving.CoreFromOk | app/dal/db/store.py:379-399 | name, endpoint, role reference and credentials of an accepted profile are sound |
| ProfileSaving.RoleReferenceExactly | app/dal/db/store.py:384-391 | a role reference is accepted if and only if it names a stored role and the request brings no inline credential; nothing inline is then kept, and everything else is |
| ProfileSaving.RouteFromOk | app/dal/db/store.py:409-424 | an accepted route is a stored proxy and no connector columns, or some sound connector split into its public and secret columns |
| ProfileSaving.ProxyFromOk | app/dal/db/store.py:379-427 | an accepted proxy row is sound |
| ProfileSaving.ProxyIdentity | app/dal/db/store.py:225-233 | saving an empty patch on a stored proxy gives back the same row |
| ProfileSaving.ConnectionFromOk | app/dal/db/store.py:379-427 | an accepted connection row is sound, its connector split into public and secret columns or replaced by a proxy reference |
| ProfileSaving.ConnectionIdentity | app/dal/db/store.py:225-233 | saving an empty patch on a stored connection, connector secrets included, gives back the same row |
| ProfileStore.RunOk | app/dal/db/store.py:429-456 | over any run of saves and deletions every row stays sound |
| ProfileStore.ReachableReferencesResolve | app/dal/db/store.py:443-456 | in every reachable store role and proxy references resolve and role-backed rows hold no credentials of their own |
| ProfileStore.EmptyPatchIsIdentity | app/dal/db/store.py:429-441 | in every reachable store saving an empty patch changes nothing, for all three kinds of row |
| ProfileStore.ResolvedNeverHoldsBoth | app/dal/db/store.py:235-255 | every stored connection resolves, and neither it nor its connector ever holds a password beside a key |
| ProfileStore.WithRoleSound | app/dal/db/store.py:235-239 | a resolved role supplies the user name and exactly one of password and key |
| ProfilePatches.StripExactly | app/dal/db/store.py:200-206 | stripping cuts all white space from both ends and nothing else |
| ProfilePatches.RolePatched | app/dal/db/store.py:307-340 | a role request is accepted if and only if the merged name, user name and one credential of its kind are fit and the request brings none of the other; the row then holds the requested fields over the stored ones |
| ProfilePatches.ConnectorPatched | app/dal/db/store.py:354-377 | a connector of the same type is merged with the stored one and one of another type replaces it; accepted if and only if the result is a fit endpoint with at most one credential; null clears a path and blank secrets are dropped |
| ProfileUpdates.CorePatched | app/dal/db/store.py:379-399 | the shared part of a profile accepts exactly the fit requests and makes of them the requested fields over the stored ones, a role clearing the login |
| ProfileUpdates.ProxyPatched | app/dal/db/store.py:379-404 | the same for a proxy as a whole, on the decoded row |
| ProfileUpdates.ConnectionPatched | app/dal/db/store.py:379-427 | the same for a connection as a whole, its time limit, client type and route included, on the decoded row |
| ProfileLaws.SaveWritesWhatIsAsked | app/dal/db/store.py:429-441 | in every reachable store a save succeeds exactly on the acceptable requests; the row it names, or one new row under the fresh identifier, then holds the requested fields over the stored ones, and no other row of any table changes |
| ProfileLaws.DeleteRemovesWhatIsNamed | app/dal/db/store.py:443-456 | in every reachable store a deletion removes exactly the row it names, is not found without it, and conflicts exactly while a row refers to it |
| ProfileLaws.ResolvesToItsParts | app/dal/db/store.py:235-255 | in every reachable store a connection resolves to its own fields with its role's login, and to its own connector or its saved proxy with the login of that proxy's role |
| ProfileTables.CheckInline | app/dal/db/store.py:342-352 | the field loop leaves exactly the profile without cleared paths, or rejects |
| ProfileTables.GatewayProfiles.Save | app/dal/db/store.py:429-441 | save keeps the store sound, succeeds exactly on the acceptable requests and then writes what is asked for and nothing else, or leaves every table as it was |
| ProfileTables.GatewayProfiles.Delete | app/dal/db/store.py:443-456 | delete keeps the store sound and removes exactly the row it names, refusing referenced and missing rows |
| TelnetCodec.DecodeAppend | app/dal/device/telnet_client.py:89-122 | decoding a concatenation is decoding its parts in turn, for data, refusals and final state |
| TelnetCodec.FragmentationIrrelevant | app/dal/device/telnet_client.py:89-122 | feeding any fragmentation equals one feed of the whole |
| TelnetCodec.RoundTrip | app/dal/device/telnet_client.py:89-136 | any printed list of data, option requests, subnegotiations and commands, in the byte values of RFC 854, decodes to exactly its data and one WONT (252) per DO (253), one DONT (254) per WILL (251), in order |
| TelnetCodec.FragmentedRoundTrip | app/dal/device/telnet_client.py:89-136 | the same in any fragmentation, with the same final state |
| TelnetCodec.EveryWireDecodes | app/dal/device/telnet_client.py:89-136 | every byte string in any fragmentation is such a list and an unfinished item: what comes out is the data of the list and what goes back its answers |
| TelnetCodec.OutputBounded | app/dal/device/telnet_client.py:89-136 | for every input clean bytes plus refusal bytes plus pending bytes never exceed the bytes fed |
| TelnetCodec.RefusalsNeverLoop | app/dal/device/telnet_client.py:124-136 | replies are whole refusals, one per completed DO or WILL, and a peer decoding them reads no data and answers nothing |
| TelnetClient.Negotiator.Feed | app/dal/device/telnet_client.py:89-122 | the byte loop computes the decoder: state, clean bytes, and refusals on the wire unless a send failed |
| TelnetClient.Negotiator.Reply | app/dal/device/telnet_client.py:124-136 | sends 255 252 and the option for 253, 255 254 and the option for 251, and nothing for 252 and 254 |
| TelnetClient.TelnetClient.RecvUntil | app/dal/device/telnet_client.py:185-221 | returned and partial buffers together are exactly the decoding of what was received; a returned buffer holds its marker within the limit; a failed one never does unless it overflowed; reading stops at the first possible moment |
| TelnetClient.TelnetClient.Login | app/dal/device/telnet_client.py:235-257 | a login succeeds only after the three prompts in order, each within the limit, having sent the two answers and the refusals in between, and fails only on a failed send or on a read that ended without its prompt; a rejection is told from a broken dialogue by the partial text |
| TelnetClient.TelnetClient.RunCommand | app/dal/device/telnet_client.py:259-272 | a response is the decoding of everything up to a prompt within the limit; a failed send or a read that ended without a prompt, and nothing else, ends the session |
| Streams.ReceiveExact | app/dal/proxy/connectors.py:292-300 | the same bytes in the same number for every fragmentation, and nothing beyond them; only a time-out can differ |
| Streams.Until | app/dal/proxy/connectors.py:303-309 | the shortest prefix ending in the marker within the limit, or the proof that there is none before the limit or the end |
| Streams.UntilIsTheOnlyPrefix | app/dal/proxy/connectors.py:303-309 | no other prefix can be returned |
| Streams.ReceiveUntil | app/dal/proxy/connectors.py:303-309 | the loop returns that prefix for every fragmentation and consumes nothing beyond it |
| Socks5.Connect | app/dal/proxy/connectors.py:406-417 | on any stream and fragmentation the client sends and consumes exactly what its exchange says |
| Socks5.ConnectLogin | app/dal/proxy/connectors.py:412-417 | the credentials exchange, with the 255-byte check |
| Socks5.ConnectReply | app/dal/proxy/connectors.py:427-438 | the reply header checks and the bound address |
| Socks5.EverySuccessConnects | app/dal/proxy/connectors.py:406-438 | any well-formed success connects the client, which has sent exactly the bytes of RFC 1928 and RFC 1929 for its credentials and destination and consumed exactly the replies |
| Socks5.OnlySuccessConnects | app/dal/proxy/connectors.py:406-438 | the client connects on nothing else |
| Socks5Peer.Handle | demo/emulators/proxy_protocols.py:180-219 | the handler reads, answers and consumes exactly what its exchange says |
| Socks5Peer.HandleUsername | demo/emulators/proxy_protocols.py:188-196 | the credentials of RFC 1929, field by field |
| Socks5Peer.HandleTarget | demo/emulators/proxy_protocols.py:197-205 | the three address kinds, and silence for any other |
| Socks5Agreement.RequestParsed | demo/emulators/proxy_protocols.py:197-206 | the peer decodes exactly the target and port the client encoded and stops at the next byte |
| Socks5Agreement.LoginParsed | demo/emulators/proxy_protocols.py:188-196 | the peer decodes exactly the credentials the client encoded |
| Socks5Agreement.HandshakeAgreement | demo/emulators/proxy_protocols.py:180-219 | for every pair of joined finished runs: the client connects iff the peer relays iff credentials match and the destination is encodable and served; both mean the same destination and stand at the first tunnelled byte |
| Socks5Agreement.HandshakeMet | demo/emulators/proxy_protocols.py:180-219 | for every pair of joined finished runs a table over the two configurations says how either side ends, for what reason, and every byte the peer says |
| Socks5Agreement.MatchingRunsExist | demo/emulators/proxy_protocols.py:180-219 | such a successful pair exists for every matching configuration |
| Texts.JoinSplit | demo/emulators/proxy_protocols.py:230 | splitting text into lines loses nothing |
| Texts.SplitBlock | demo/emulators/proxy_protocols.py:230 | splitting a printed head gives back its lines |
| Texts.DecimalRoundTrip | app/dal/proxy/connectors.py:443 | a printed port reads back as the same number |
| HttpConnect.BasicInjective | app/dal/proxy/connectors.py:445-447 | for colon-free user names the Basic value determines user name and password |
| HttpConnect.BasicAmbiguousWithColon | app/dal/proxy/connectors.py:238-239 | with colons two logins can share one value, which is why validation refuses them |
| HttpConnect.Connect | app/dal/proxy/connectors.py:441-459 | on any stream and fragmentation the client sends and consumes exactly what its exchange says |
| HttpConnect.Judge | app/dal/proxy/connectors.py:450-459 | status line, header lines and status code decide the outcome |
| HttpConnect.StatusLineParsed | app/dal/proxy/connectors.py:451 | a printed status line, with or without a reason phrase, reads back as its code |
| HttpConnect.StatusLineShape | app/dal/proxy/connectors.py:451 | and nothing else reads as a status line |
| HttpConnect.HeaderLineParsed | app/dal/proxy/connectors.py:452-453 | a token, a colon and a text are a header line if and only if the token is nonempty and the text printable |
| HttpConnect.ResponseRead | app/dal/proxy/connectors.py:449-459 | the request is sent as printed in RFC 9110 form, and every well-formed response within the limit is judged by its code alone (407 rejected credentials, 2xx connected, anything else denied) and read to its last byte and no further |
| HttpConnect.OnlySuccessConnects | app/dal/proxy/connectors.py:449-459 | the client connects only on a complete head with a 2xx status line and header lines |
| HttpPeer.Handle | demo/emulators/proxy_protocols.py:228-254 | the handler reads, answers and consumes exactly what its exchange says |
| HttpPeer.ReadHeaders | demo/emulators/proxy_protocols.py:235 | the header dictionary, later lines overwriting earlier ones, or failure on a line without separator |
| HttpPeer.HeadersExactly | demo/emulators/proxy_protocols.py:235 | a dictionary exists exactly when every nonempty line has a separator; a name is in it exactly when a line has it, with what the last such line says |
| HttpAgreement.RequestLineParsed | demo/emulators/proxy_protocols.py:231-234 | the pattern recovers exactly the printed host and port, or rejects a host outside its forms |
| HttpAgreement.HeadersParsed | demo/emulators/proxy_protocols.py:235-238 | the dictionary holds the credentials header exactly when the client has a user name, with exactly its value |
| HttpAgreement.RequestDecided | demo/emulators/proxy_protocols.py:231-254 | the peer decides a printed request as its table says: relayed exactly to the requested destination, or refused for the first reason of host form, credentials, settings and reachability |
| HttpAgreement.HandshakeAgreement | demo/emulators/proxy_protocols.py:228-254 | for every pair of joined finished runs: the client connects iff the peer relays iff the request fits 8192 bytes and the peer serves it; both mean the same destination and stand at the first tunnelled byte |
| HttpAgreement.HandshakeMet | demo/emulators/proxy_protocols.py:228-254 | for every pair of joined finished runs a table over the two configurations says how either side ends, for what reason, and the text the peer says |
| HttpAgreement.MatchingRunsExist | demo/emulators/proxy_protocols.py:228-254 | such a successful pair exists for every served request that fits |
| HttpAgreement.MappedAddressRejected | demo/emulators/proxy_protocols.py:231-234 | an IPv6 literal with a dotted tail never connects through this peer, whatever its settings |
| Deadline.SshFirstSorts | app/dal/proxy/connectors.py:78 | the sort is a permutation with SSH clients first that keeps the order within each class |
| Deadline.SshFirstIsUnique | app/dal/proxy/connectors.py:78 | no other arrangement is one |
| Deadline.NextKeepsInv | app/dal/proxy/connectors.py:58-93 | every atomic step conserves resources: held, about to be closed, or closed |
| Deadline.NeverClosedTwice | app/dal/proxy/connectors.py:58-93 | in every interleaving of owners, timer and exit a resource is closed at most as often as it was handed over |
| Deadline.SshClientsFirst | app/dal/proxy/connectors.py:76-88 | each close call closes SSH clients before anything else, and at most one call has anything to close |
| Deadline.NothingLeftOpen | app/dal/proxy/connectors.py:58-93 | with both closers finished (or the timer cancelled) and no rejecting call under way, everything handed over has been closed exactly once |
| Deadline.ClosedExactlyOnceAfterExit | app/dal/proxy/connectors.py:90-93 | after leaving the context that is so if and only if the timer thread and rejecting calls have nothing left to close |
| Deadline.ExitMayLeaveOpen | app/dal/proxy/connectors.py:90-93 | a run in which the context has been left while the timer thread still has a resource to close |
| Deadline.LateOwnersAreRefused | app/dal/proxy/connectors.py:58-66 | after the first close call a new owner is refused and nothing is retained |
| Deadline.ClosingMakesProgress | app/dal/proxy/connectors.py:72-93 | while there is work after leaving, some closing step does one unit of it |
| Deadline.ClosingEnds | app/dal/proxy/connectors.py:72-93 | leaving the context can always end, after that many closing steps, with everything closed exactly once |
| Deadline.SharedDeadline.Own | app/dal/proxy/connectors.py:58-66 | one call is the step that keeps the resource, or the steps that refuse and close it, and mirrors the state they lead to |
| Deadline.SharedDeadline.Close | app/dal/proxy/connectors.py:72-88 | one call is the step that takes everything followed by one closing step for each resource, SSH clients first, and leaves its closer finished |
| Deadline.SharedDeadline.Expire | app/dal/proxy/connectors.py:68-70 | the timer thread is its firing step followed by one close call, keeping the invariant of the interleavings |
| Deadline.SharedDeadline.Exit | app/dal/proxy/connectors.py:90-93 | leaving the context is its cancelling step followed by one close call, keeping the invariant of the interleavings |
| Deadline.Sorted | app/dal/proxy/connectors.py:78 | the loop computes the sort |
| DnsSlots.SlotsBalance | app/dal/proxy/connectors.py:243-271 | in every interleaving free, held and lost slots make eight, and free plus held alone make eight if and only if no thread failed to start |
| DnsSlots.ReleaseStaysBounded | app/dal/proxy/connectors.py:261-262 | the bounded semaphore is never released beyond its bound |
| DnsSlots.AcquiresExactly | app/dal/proxy/connectors.py:252-253 | a queued caller gets a slot exactly while fewer than eight are held or lost |
| DnsSlots.LookupReturnsSlot | app/dal/proxy/connectors.py:256-262 | a started lookup gives its slot back after posting its answer, whether or not its caller still waits |
| DnsSlots.ExhaustedForever | app/dal/proxy/connectors.py:252-264 | eight failed thread starts leave no slot in any continuation |
| DnsSlots.OneFailureLosesASlot | app/dal/proxy/connectors.py:252-264 | a run with one failed start that loses a slot |
| ProfileAcceptance.LoginExactly | app/dal/proxy/connectors.py:165-188 | a login passes if and only if its fields are bounded and it is one key where SSH is spoken, or a password; optional logins are whole or absent |
| ProfileAcceptance.CheckAuthFields | app/dal/proxy/connectors.py:165-188 | the loop and the checks accept exactly those logins |
| ProfileAcceptance.ValidatedExactly | app/dal/proxy/connectors.py:191-240 | validation succeeds exactly on the acceptable profiles, stated over the profile alone and without an order, and hands on copies: each dials its own host (its loopback form in demo mode) at the number its port denotes, 22, 830 or 23 by protocol where the device has none |
| ProfileAcceptance.ValidateProfile | app/dal/proxy/connectors.py:191-240 | filling copies of both dictionaries step by step accepts exactly those profiles and yields exactly those copies, addresses and ports included |
| ProfileCrashes.CrashesExactly | app/dal/proxy/connectors.py:191-240 | validation raises anything but its own error if and only if an unhashable kind or method, or an integer time limit beyond any float, is reached with everything before it acceptable |
| ProfileCrashes.UnhashableProtocolCrashes | app/dal/proxy/connectors.py:196 | a profile with a list for its protocol, in every mode and under every library |
| ProfileCrashes.HugeLimitCrashes | app/dal/proxy/connectors.py:220 | a profile whose only fault is a time limit of 2 to the 1024 |
| ProfileCrashes.UnhashableMethodCrashes | app/dal/proxy/connectors.py:165-188 | a profile whose only fault is a list for its authentication type |
| ProfileFaults.FaultsExactly | app/dal/proxy/connectors.py:165-240 | every rejection says which check failed: unsupported kind or method, demo policy or validation error, each with its exact condition over the profile |
| StoredProfileTests.StoredProfilesNeverCrash | app/dal/proxy/connectors.py:191-240 | no connection that any run of saves can leave in the store makes validation raise anything but a connector error, in demo mode or not |
| StoredProfileTests.StoredConnectionAccepted | app/dal/proxy/connectors.py:191-240 | a stored connection passes validation if and only if its hosts are usable, a shell tunnel serves Telnet, the demo rules hold in demo mode, each login is bounded and of a kind its protocol can use, and an HTTP user name has no colon |
| ValidatedHandshakes.ValidatedEndpoints | app/dal/proxy/connectors.py:191-240 | in demo mode or not, every dialled host has a form the encoders accept and every port is from 1 to 65535 |
| ValidatedHandshakes.ValidatedKinds | app/dal/proxy/connectors.py:191-224 | a validated profile names a known protocol and connector, a shell tunnel serves Telnet only, a saved proxy is never dialled directly, and the time limit is from 1 to 30 seconds |
| ValidatedHandshakes.DemoDialsLoopback | app/dal/proxy/connectors.py:225-232 | in demo mode device and proxy are dialled at literal loopback addresses only |
| ValidatedHandshakes.TelnetLinesAreLines | app/bl/services/connection_tests.py:51-58 | validated Telnet credentials are nonempty and cannot break out of their line |
| ValidatedHandshakes.ValidatedSocksHandshake | app/dal/proxy/connectors.py:406-438 | a validated profile never fails over its destination: the SOCKS5 handshake succeeds exactly when credentials match, including the 255-byte limit, and the peer is willing |
| ValidatedHandshakes.ValidatedHttpHandshake | app/dal/proxy/connectors.py:441-459 | on a validated profile the HTTP handshake succeeds exactly when the request fits, the host form is known, the credentials match and the peer is willing |
| ValidatedHandshakes.ValidatedHttpLogin | app/dal/proxy/connectors.py:238-239 | with a colon-free peer user name the credentials match exactly when none are wanted or user name and password are the same |
| ValidatedHandshakes.MappedAddressPassesAndFails | app/dal/proxy/connectors.py:116-124 | under libraries that obey the laws validation accepts an IPv6 literal with a dotted tail, and the loopback proxy never connects it |
| Base64.QuadIsTheGroup | app/bl/services/auth.py:28-29 | the four sextets are the same 24-bit number as the three bytes |
| Base64.TripleIsTheGroup | app/bl/services/auth.py:32-35 | the three bytes are the same 24-bit number as the four sextets |
| Base64.DigitsOfTheAlphabet | app/bl/services/auth.py:28-29 | the digits are those of the two alphabets of RFC 4648 |
| Base64.FromTo | app/bl/services/auth.py:28-35 | decoding the sextets of any byte string gives it back, whatever the length of its last group |
| Base64.ToFrom | app/bl/services/auth.py:32-35 | encoding decoded sextets gives them back exactly when the unused low bits are zero |
| Base64.SameNumber | app/bl/services/auth.py:28-29 | the sextets of any byte string write the same number as its bytes, but for the zero bits that fill the last group |
| Base64.DecodeEncode | app/bl/services/auth.py:28-35 | every nonempty byte string survives; the empty one, and only it, cannot be decoded again |
| Base64.EncodeDecode | app/bl/services/auth.py:32-35 | a text that decodes is the canonical encoding but for stray bits of its last character |
| Base64.SecondText | app/bl/services/auth.py:32-35 | a byte string that does not fill its last group has a second text that decodes to it |
| Base64.PaddedInjective | app/dal/proxy/connectors.py:447 | the padded standard encoding loses nothing |
| Base64.PaddedLength | app/bl/services/auth.py:28-29 | padding completes the last group |
| Texts.LastIndex | app/bl/services/auth.py:54 | the last occurrence, where rsplit cuts |
| SignedValue.UnsignSign | app/bl/services/auth.py:45-58 | what was signed is returned; under another secret exactly when the MACs agree |
| SignedValue.UnsignAcceptsExactly | app/bl/services/auth.py:51-58 | a value is accepted if and only if it is a payload text and a text of the MAC of exactly that payload text |
| SignedValue.AcceptedUpToTrailingBits | app/bl/services/auth.py:51-58 | an accepted value equals the canonical signed value but for the stray bits of its last character |
| SignedValue.SecondValueAccepted | app/bl/services/auth.py:51-58 | whenever the MAC does not fill its last group (32 bytes do not) some value other than the signed one is accepted for the same payload |
| SignedValue.ForeignSignatureRefused | app/bl/services/auth.py:54-58 | without the matching MAC no payload is decoded |

## Left out

- Redaction: the regular expressions that scrub texts, and the scrubbed name, host, stage and detail texts of results; route texts are compared after an arbitrary scrubbing function.
- Error texts: a job's error is one constructor for each literal the program writes, and freezing covers status and results only, because a repeated status call may rewrite the text.
- JobStore.JobStore.Commit: a storage fault strikes when a transaction begins and rolls everything back; a fault at commit time has the same effect and is not a separate case.
- BatchWorker.BatchService.RunJob: in the code as a method the only concurrent interference is a shutdown setting its flags; all other interleavings are in the protocol steps, of which the method is one run.
- BatchWorker.BatchService.Start: requires the caller to hold the lock and passes in whether the last future is done; the lock itself and the other interleavings are in the protocol steps.
- Batch submission: an executor that refuses a job is modelled as not having queued it.
- Public views, the configuration mapping, list_transactions with its paging and filters, and CSV and JSON rendering: dispatch and formatting.
- Audit metadata: one validity bit stands for the checks on actor, correlation identifier and request fields.
- Column length limits of the database and the migration of older databases.
- SSH key parsing: a fixed predicate on key text and passphrase.
- Telnet connect and reconnect, and read_prompt with its patterns: the session models start on an open socket; pattern matching depends on fragmentation and is not claimed.
- NETCONF and SSH handshakes, the interactive shell and its quoting, and the emulator of NETCONF framing.
- Socks5.Connect: host names are modelled by their one-byte encoding, so a name that cannot be encoded is a name with a byte above 127.
- Socks5Peer.Handle: the strict UTF-8 decoding of credentials is a predicate on bytes; texts are compared by their encodings.
- ProfileAcceptance.ValidateProfile: number and address parsing and the rule for demo trust files are parameters; a text whose UTF-8 encoding fails (a lone surrogate) is not modelled.
- Deadline.SharedDeadline.Close: as a method one call runs without other threads between its steps, whose interleavings are in the model it mirrors; also the shutdown of a socket before its close, and exceptions either raises, which the code swallows; one close call is one journal entry.
- DnsSlots.SlotsBalance: the resolver's answer and the choice among addresses.
- ProfileLaws.SaveWritesWhatIsAsked: of the error codes of a refused save only the missing row's is stated; which of several other errors is reported first is not.
- Discovery and key caches, token verification, and the mapping from a session cookie to a user.
- FastAPI routing, schemas, the browser interface, the demo bootstrap and the legacy controllers.
