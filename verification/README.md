# Verified models of Kubernetes components

Dafny models of the parts of this repository whose correctness is hardest to see by reading, with proofs of what
they are for. Each file is one component:

- `TreeCache.dfy`, `KubeDns.dfy`, `KubeDnsRuns.dfy`, `KubeDnsAnswers.dfy`, `KubeDnsQueries.dfy`, `KubeDnsEndpoints.dfy`:
  the record tree of kube-dns as a heap of mutable nodes, proved to refine a flat map from (path, key) to record; the
  server state around it, driven by service and endpoint events; what holds after every run of such events; and the
  answers to queries, from the text of a name on: services, ports, endpoints, pods, and federated services.
- `Expectations.dfy`, `PodRanking.dfy`: the counters and UID sets by which a controller decides when it may sync, as
  a machine whose atomic steps interleave; and the order in which pods are picked for deletion.
- `Cloner.dfy`: the reflective deep copy, over an explicit heap of pointers, slices, maps, interfaces and structs.
- `TimeoutWriter.dfy`: the writer that a request handler and a timeout race for.
- `RequestInfo.dfy`, `SelfLinks.dfy`: the request path parser, and the self links it has to undo.
- `FieldSelectors.dfy`, `FieldSelectorTexts.dfy`: parsing, printing, transforming and matching field selectors, and what
  selector texts mean.
- `ResourceConfig.dfy`: which API versions and resources are served, after merging overrides held in unordered maps.
- `Mungedocs.dfy`, `MungedocsFiles.dfy`: rewriting generated blocks of a document, the analytics munger, and what its
  runs leave in a file.
- `Keyring.dfy`: the index of registry credentials.
- `Fieldpath.dfy`: the ceiling of a double-precision quotient.
- `Text.dfy`, `Sorting.dfy`, `Wrappers.dfy`: Go's `strings` and `sort` operations that these rely on, and optional
  values.

Code that updates objects in place is modelled by classes and arrays, and each method is proved against a function of
the old state; run properties are then proved about that function, for all runs. Code that only computes is modelled
by functions. Where Go visits a map in an order of its own choosing, the model either picks elements arbitrarily or
takes the order as an argument and quantifies over it. Lock-protected bodies are single steps; code that takes several
locks, or none, is several steps.

`dafny verify dfyconfig.toml` checks the whole project.

## Findings

Properties that the code does not have on all inputs are stated with the exact condition under which it does:

- The outcome of merging API overrides is the same in every iteration order exactly when no two keys disagree about
  one version or resource, or the overrides are refused in every order anyway (`OrderIsImmaterialIff`). Distinct keys
  can disagree: `api/v1` and `/v1` name the same version (`AliasesMakeOrderMatter`).
- On lines in memory the analytics munger is idempotent exactly for file names whose own lines fade away between its
  marks; every name without a line break is one, and a name that opens a code fence is not (`SecondRunChangesNothing`,
  `FencedNameDoesNotVanish`). Through a file, where code fences are read anew, a second run finds nothing to change
  exactly when the lines that the first one kept close their fences and, so read, have neither marks nor stray links
  outside them (`NextRunIsQuietIff`). Unless a fence is dropped with a block, that is when the document closes its
  fences (`QuietIffFencesClose`); after an open one every run adds a block (`UnclosedFenceIsNotQuiet`).
- The self link of a root-scoped object leads back to it exactly when its resource is neither a special verb nor
  `namespaces`, path cleaning leaves its parts alone, and the template's placeholder is not shadowed. That of a
  namespaced object does exactly when its API segments are normal and its resource is not `status` or `finalize`, or by
  one coincidence (`RootRoundTrip`, `NamespacedRoundTrip`, `DotVersionIsLost`).
- A leaf of a field selector survives being printed and parsed exactly when neither text holds a comma and, for `=`,
  neither holds `=` and the field does not end in `!`; for `!=`, neither holds `!=` (`LeafSurvivesIffPrintable`,
  `SomeLeavesAreLost`).
- A controller's count of deletions and its outstanding UIDs agree all along a run exactly when creations are never
  expected of a controller that is still waiting for deletions, unless its UIDs have just been set and its counters are
  about to be, or its counters are being dropped (`BalancedIffHarmless`, `ClobberingLeavesUids`). Setting
  new expectations only over fulfilled ones is enough and not necessary (`DisciplineIsEnough`,
  `DisciplineIsNotNecessary`).
- Whatever happens to the count of deletions meanwhile, `Fulfilled` gives an answer that was true at some instant of
  its two loads exactly when the count of creations was positive at the first load or is not at the last
  (`FulfilledIsLinearizableIff`, `RaisingBreaksTheAnswer`). In every interleaving that does not reset the counters it
  is such an answer (`ReaderIsLinearizable`).
- A deep copy shares with its source exactly the cells that the source leaks through structs with unexported fields and
  through map keys (`SharesExactlyTheLeaks`).
- A headless service's endpoints are all listed exactly when no two IPs share a name (`EndpointsAreListed`,
  `SharedHostnameHidesAnEndpoint`), and a port's name gives the number of the last port so called
  (`PortNameIsAnswered`).
- The name of a service leads back to its path exactly when the domain is not made of dots only
  (`ServiceNameLeadsToPath`).
- A query for the name of an endpoint (`host.service.namespace.svc.domain`) is read as a federated query for a service
  `host` exactly when the service's namespace is called like a federation and all labels are valid
  (`EndpointNameIsFederatedIff`). Otherwise it is answered with the endpoint's IP (`EndpointNameIsAnswered`).
- A timeout status follows a flush, which has already sent a header, exactly when the handler had flushed and otherwise
  been quiet (`LateStatusIff`, `FlushThenTimeout`). Two timeouts would send two statuses
  (`TwoTimeoutsSendTwoStatuses`); the handler fires one.
- The double-precision ceiling is exact for a numerator, whatever the positive divisor and whichever way ties are
  rounded, exactly when the numerator is at most 2^53 (`ExactUpToPrecision`). For a numerator past 2^54,
  or past 2^53 and not a double itself, some divisor goes wrong under every tie rule (`WrongWhicheverWay`).

## Model

| member | source | states |
|---|---|---|
| `TreeCaches.TreeCache.GetSubCache` | pkg/dns/treecache.go:80-89 | finds the node at a path, and none exactly when the tree has no such path |
| `TreeCaches.TreeCache.EnsureChildNode` | pkg/dns/treecache.go:196-207 | the path exists afterwards, the heap is still an unshared tree, and no record appears, moves or goes |
| `TreeCaches.TreeCache.SetEntry` | pkg/dns/treecache.go:60-78 | changes exactly one binding of the flat map, to the record stamped with its etcd key; tree shape kept |
| `TreeCaches.TreeCache.GetEntry` | pkg/dns/treecache.go:99-106 | is the lookup of (path, key) in the flat map |
| `TreeCaches.TreeCache.DeleteEntry` | pkg/dns/treecache.go:173-183 | removes exactly one binding, and tells whether it was there |
| `TreeCaches.TreeCache.DeletePath` | pkg/dns/treecache.go:160-171 | removes exactly the bindings at or below the path, and nothing for the empty path; tree shape kept |
| `TreeCaches.TreeCache.SetSubCache` | pkg/dns/treecache.go:94-97 | replaces exactly the bindings below path and key by those of the given tree, moved there; tree shape kept |
| `TreeCaches.TreeCache.GetValuesForPathWithWildcards` | pkg/dns/treecache.go:108-158 | the records at exactly the places that answer the query on the flat map, each place once |
| `TreeCaches.Descend` | pkg/dns/treecache.go:133-149 | one inner label takes the nodes matching a stem to the nodes matching the longer stem, each once |
| `TreeCaches.LastName` | pkg/dns/treecache.go:113-131 | a final name gives that entry of each node, and the child so called only where there is no entry |
| `TreeCaches.Grafting.KeepsShape` | pkg/dns/treecache.go:94-97 | hanging one tree into another, disjoint one leaves a tree in which no node has two paths |
| `KubeDnsModel.KubeDNS.NewPortalService` | pkg/dns/dns.go:315-339 | commits the service's whole subtree, reverse record and IP entry, and changes nothing else |
| `KubeDnsModel.KubeDNS.GenerateRecordsForHeadlessService` | pkg/dns/dns.go:341-374 | commits the subtree of all addresses and ports, and nothing if the hostname annotation does not decode |
| `KubeDnsModel.KubeDNS.NewService` | pkg/dns/dns.go:241-254 | leads to the portal commit, the headless commit or none, as the object and the endpoints store say |
| `KubeDnsModel.KubeDNS.HandleEndpointAdd` | pkg/dns/dns.go:271-306 | leads to the headless commit exactly when the stored service exists and has no cluster IP |
| `KubeDnsModel.KubeDNS.RemoveService` | pkg/dns/dns.go:256-265 | removes exactly the service's records, reverse record and IP entry |
| `KubeDnsModel.KubeDNS.ReverseRecord` | pkg/dns/dns.go:582-598 | the reversed form of an address finds the record stored under that address or none, and no other name counts as a reverse name |
| `KubeDnsModel.KubeDNS.GetRecordsForPath` | pkg/dns/dns.go:508-541 | a pod record, the exact entry, or all records answering the wildcard query |
| `KubeDnsModel.KubeDNS.AnyLive` | pkg/dns/dns.go:546-579 | true exactly when some record is headless or its service has endpoints |
| `KubeDnsModel.KubeDNS.Records` | pkg/dns/dns.go:438-506 | a query that is not federated gets its local answer; a federated one gets its own name if a local record is live, else the redirect |
| `KubeDnsModel.KubeDNS.FederatedRecords` | pkg/dns/dns.go:444-506 | the same through the in-place removal and double reversal of the segments |
| `KubeDnsModel.KubeDNS.FederationRecords` | pkg/dns/dns.go:715-754 | the redirect name with zone, region and federation domain, or the error for what is missing |
| `KubeDnsModel.FederatedPath` | pkg/dns/dns.go:614-627 | the local lookup of a federated query is the plain path of the service, never a pod record |
| `KubeDnsModel.FederatedLocalName` | pkg/dns/dns.go:485-496 | the name of that lookup is svc.ns.svc and the domain, with exactly one final dot |
| `KubeDnsModel.RedirectName` | pkg/dns/dns.go:728-753 | what is left of the query without the local domain spells the redirect |
| `KubeDnsModel.ReverseArray` | pkg/dns/dns.go:821-827 | reverses a slice in place and leaves the elements beyond it alone |
| `KubeDnsRuns.RunsStayBelowServices` | pkg/dns/dns.go:315-374 | after every run of events, every record lies at or below the node of some service |
| `KubeDnsRuns.NoEntryAboveServiceDepth` | pkg/dns/dns.go:315-374 | after every run, no node above service depth holds an entry |
| `KubeDnsRuns.RunsLeaveOthers` | pkg/dns/dns.go:241-265 | however many events for other services follow, the records of a service stay as they are |
| `KubeDnsRuns.PortalNameIsAnswered` | pkg/dns/dns.go:315-339 | from the portal event to the next event for that service its plain name is answered by exactly one place, holding the cluster IP |
| `KubeDnsRuns.PortalQueryHasOneAnswer` | pkg/dns/dns.go:438-541 | so a query for its name is not federated and returns exactly one record, whose host is the cluster IP |
| `KubeDnsRuns.RunsStayInStep` | pkg/dns/dns.go:95-102 | after every run the reverse map and the IP map have the same keys, and each reverse record names the service stored under that IP |
| `KubeDnsRuns.PortalIPIsKept` | pkg/dns/dns.go:331-338 | until its IP is taken or removed, a portal service and its reverse record are found under that IP |
| `KubeDnsModel.ExtractIPUndoesReversal` | pkg/dns/dns.go:602-611 | the reversed form of any address plus `.in-addr.arpa.` (section 3.5 of RFC 1035) gives the address back |
| `KubeDnsModel.ReversalUndoesExtractIP` | pkg/dns/dns.go:602-611 | and the reversed form of an extracted address is the name it came from |
| `KubeDnsRuns.ReverseLookupFindsTheService` | pkg/dns/dns.go:582-598 | after every run, looking up the reversed form of any address gives the name of the service stored under it, or not found when there is none |
| `KubeDnsRuns.PortalIPLeadsBack` | pkg/dns/dns.go:331-338 | until its IP is taken or removed, the reversed form of a portal service's IP leads to that service |
| `KubeDnsRuns.ServiceNameLeadsToPath` | pkg/dns/dns.go:817-819 | the service's name, trimmed, split and reversed, is its path, exactly when the domain is not dots only |
| `KubeDnsAnswers.SubtreeIsKept` | pkg/dns/dns.go:369-373 | from an event to the next one for the same service, its subtree holds exactly what that event put there |
| `KubeDnsAnswers.HeadlessNameIsAnswered` | pkg/dns/dns.go:341-374 | over that span the plain name of a headless service is answered by one place per endpoint name, and by no other |
| `KubeDnsAnswers.EndpointsAreListed` | pkg/dns/dns.go:341-374 | every endpoint's IP is listed under its name if and only if no two IPs share a name |
| `KubeDnsAnswers.SharedHostnameHidesAnEndpoint` | pkg/dns/dns.go:354-357 | of two endpoints with one hostname only the second is listed |
| `KubeDnsAnswers.PortNameIsAnswered` | pkg/dns/dns.go:315-330 | over that span the name of every named port of a portal service is answered by exactly one record, with the service's name and the number of the last port so called |
| `KubeDnsAnswers.HeadlessQueryListsEndpoints` | pkg/dns/dns.go:438-541 | a query for the name of a headless service is not federated and returns one record per endpoint name, each with the IP of an endpoint so called, and all endpoints' IPs when no two share a name |
| `KubeDnsAnswers.PortQueryHasOneAnswer` | pkg/dns/dns.go:438-541 | a query for the name of a named port is not federated and returns exactly one record, with the service's name and the number of the last port so called |
| `KubeDnsAnswers.PortNameLeadsToPath` | pkg/dns/dns.go:438-452 | the segments of a port's name, reversed, are the path under which its record is kept |
| `KubeDnsQueries.FederatedNameIff` | pkg/dns/dns.go:677-710 | a name `service.namespace.federation.svc.domain` is a federated query if and only if its labels are valid and the federation is configured |
| `KubeDnsQueries.FederatedPortalIff` | pkg/dns/dns.go:438-505 | from the portal event to the next event for that service, while its IP is its own, a federated query for it gets its local name if and only if the store holds an endpoints object of it with a subset, and otherwise the redirect |
| `KubeDnsQueries.FederatedHeadlessIff` | pkg/dns/dns.go:438-505 | for a headless service none of whose endpoint IPs is a cluster IP, it gets the local name if and only if the service has an address |
| `KubeDnsQueries.PodNameGivesItsIP` | pkg/dns/dns.go:614-636 | a query for a pod's dashed IP is never federated, and is answered with that IP, or with an error if it is none |
| `KubeDnsQueries.WildcardPodsFindNothing` | pkg/dns/dns.go:614-627 | a query with a wildcard below `pod` finds nothing after any run |
| `KubeDnsQueries.AddedPortalIsAnswered` | pkg/dns/dns.go:241-254 | once a service with a cluster IP has been added, whatever follows, its name is answered with that IP |
| `KubeDnsQueries.AddedHeadlessIsAnswered` | pkg/dns/dns.go:410-432 | once a service without one has been added, its name is answered with the stored endpoints |
| `KubeDnsQueries.NewEndpointsAreAnswered` | pkg/dns/dns.go:271-308 | once endpoints of such a service have come in, its name is answered with them |
| `KubeDnsQueries.IgnoredServices` | pkg/dns/dns.go:241-254 | a service event without consequences leaves every later state as it would have been |
| `KubeDnsQueries.IgnoredEndpoints` | pkg/dns/dns.go:271-308 | so does an endpoints event without consequences |
| `KubeDnsQueries.RemovedServiceIsGone` | pkg/dns/dns.go:256-265 | once a service has been removed, a query for its name finds nothing until the next event for it |
| `KubeDnsQueries.RemovedIPIsGone` | pkg/dns/dns.go:256-265 | nor does a reverse lookup of its cluster IP, until another service takes that |
| `KubeDnsQueries.PortNames` | pkg/dns/dns.go:322-330 | protocols are spelled in lower case in the names of ports |
| `KubeDnsEndpoints.HeadlessPortQueryLists` | pkg/dns/dns.go:341-374 | a query for the name of a port of a headless service returns one record for each endpoint name that serves it, whose host is the endpoint's own name and whose number is one that it serves |
| `KubeDnsEndpoints.EndpointNameIsFederatedIff` | pkg/dns/dns.go:677-710 | the name of an endpoint is read as a federated query if and only if its service's namespace is called like a federation and all labels are valid |
| `KubeDnsEndpoints.EndpointNameIsAnswered` | pkg/dns/dns.go:354-384 | a query for an endpoint by its own hostname, or else by the one in the annotation, returns one record: the IP of an endpoint so called, and of this one if names are not shared |
| `KubeDnsEndpoints.RecordName` | pkg/dns/dns.go:310-313 | the key of a record is its labels and the dotted name of its service |
| `KubeDnsEndpoints.PortalRecordInFull` | pkg/dns/dns.go:638-662 | the record of a cluster IP in full: host, port, priority, weight, time to live and key |
| `Expectations.ControllerExpectations.SatisfiedExpectations` | pkg/controller/controller_utils.go:142-166 | holds a controller back exactly when it has unfulfilled expectations that have not expired |
| `Expectations.UIDTrackingControllerExpectations.ExpectDeletions` | pkg/controller/controller_utils.go:296-312 | is the run of its atomic steps: the set of UIDs, then counters of no creations and as many deletions as distinct UIDs |
| `Expectations.UIDTrackingControllerExpectations.DeletionObserved` | pkg/controller/controller_utils.go:315-325 | is the run of check, fetch, lower and forget, and nothing for an unknown UID |
| `Expectations.UIDTrackingControllerExpectations.DeleteExpectations` | pkg/controller/controller_utils.go:329-339 | is the run that looks the counters up, drops them, then the UIDs |
| `Expectations.NextKeepsBounded` | pkg/controller/controller_utils.go:296-339 | every atomic step, in any interleaving, keeps each deletion count within the outstanding UIDs |
| `Expectations.DelNeverExceedsUids` | pkg/controller/controller_utils.go:296-339 | in every interleaved run, when no locked operation is under way, no controller waits for more deletions than it has UIDs |
| `Expectations.DelEqualsUids` | pkg/controller/controller_utils.go:296-339 | in every harmless run, when no locked operation is under way, a controller waits for exactly as many deletions as it has UIDs |
| `Expectations.NextIsBalancedIffHarmless` | pkg/controller/controller_utils.go:176-188 | from a state where the two agree, a step keeps them so if and only if it does not expect creations of a controller still waiting for deletions, unless that controller's counters are about to be set anew or are being dropped |
| `Expectations.BalancedIffHarmless` | pkg/controller/controller_utils.go:176-188 | in every interleaved run, the two agree all along if and only if every step is harmless |
| `Expectations.DisciplineIsEnough` | pkg/controller/controller_utils.go:142-166 | setting new expectations only over fulfilled or missing ones makes every step harmless |
| `Expectations.DisciplineIsNotNecessary` | pkg/controller/controller_utils.go:182-184 | a harmless run that breaks this discipline |
| `Expectations.ClobberingLeavesUids` | pkg/controller/controller_utils.go:182-184 | expecting creations while deletions are outstanding parts the two |
| `Expectations.UIDTrackingControllerExpectations.CreationObserved` | pkg/controller/controller_utils.go:191-211 | is the run of its two steps, fetching counters and lowering what was fetched |
| `Expectations.SightingsCountDown` | pkg/controller/controller_utils.go:191-197 | over any interleaving that does not reset the counters, what is expected goes down by one for each observer that fetched the counters in its course and lowered them |
| `Expectations.ReleasedWhenAllSeen` | pkg/controller/controller_utils.go:142-188 | a controller that expects n creations is fulfilled exactly when n have been observed since |
| `Expectations.ReleasedWhenAllGone` | pkg/controller/controller_utils.go:296-325 | a controller whose deletions of some UIDs have been expected, in any interleaving that does not reset its counters and once nobody holds the lock, is fulfilled if and only if each of these UIDs has been observed since |
| `Expectations.ForgottenUntilExpected` | pkg/controller/controller_utils.go:329-339 | a controller whose expectations are deleted has no counters until it is given new ones, and no UIDs once nobody holds the lock |
| `Expectations.SecondSightingIsIgnored` | pkg/controller/controller_utils.go:315-325 | observing one UID twice is observing it once |
| `Expectations.FulfilledIsLinearizableIff` | pkg/controller/controller_utils.go:238-241 | for any history of the creations count: the answer was true at some instant between the loads, whatever the deletions count does, if and only if the former was positive at the first load or is not at the last |
| `Expectations.ReaderIsLinearizable` | pkg/controller/controller_utils.go:238-241 | in every interleaving without a reset, a reader that loads one counter after i steps and the other after j gives an answer true of the state after some number of steps between |
| `Expectations.FulfilledIsLinearizable` | pkg/controller/controller_utils.go:191-197 | in particular when the counters are only lowered |
| `Expectations.RaisingBreaksTheAnswer` | pkg/controller/controller_utils.go:238-241 | a history in which the answer was true at no instant |
| `PodRanking.GetPodCondition` | pkg/api/resource_helpers.go:97-107 | the loop finds the first condition of the kind, or none |
| `PodRanking.ReadyTimeIsTheJudgedOne` | pkg/controller/controller_utils.go:577-587 | the ready time is read from the condition that readiness was judged on |
| `PodRanking.MaxContainerRestarts` | pkg/controller/controller_utils.go:589-595 | the loop computes the largest restart count, or zero |
| `PodRanking.LessComparesKeys` | pkg/controller/controller_utils.go:534-575 | the six-level comparison is lexicographic comparison of one key per pod |
| `PodRanking.LessIsAStrictWeakOrder` | pkg/controller/controller_utils.go:534-566 | irreflexive, transitive, and ties are transitive, for all pods |
| `PodRanking.PhasesInOrder` | pkg/controller/controller_utils.go:534-548 | of two pods both assigned or both not, one that is neither running nor of unknown phase goes before one of unknown phase, and that before a running one |
| `Cloner.DeepCopy` | pkg/conversion/cloner.go:119-133 | on every acyclic object it terminates, leaves the old heap unchanged, fails exactly when an unsupported kind is met, and else returns a value of the same kind and content at every position, which reaches exactly the leaked cells of the old heap, and each new cell in one way only |
| `Cloner.CopyValue` | pkg/conversion/cloner.go:159-237 | the same for each kind of value, nil and empty kept apart |
| `Cloner.CopySlice` | pkg/conversion/cloner.go:202-214 | byte slices are copied whole, other slices element by element, into a fresh backing array |
| `Cloner.CopyMap` | pkg/conversion/cloner.go:178-190 | a fresh map with the same keys and copied values, whatever the order of iteration |
| `Cloner.CopyFields` | pkg/conversion/cloner.go:215-231 | a struct becomes a struct with the same fields, copied field by field, or handed over whole at its first unexported field |
| `Cloner.UnfoldFrame` | pkg/conversion/cloner.go:159-237 | allocation never changes what an old value unfolds to |
| `Cloner.UnfoldsAlikeIffSameKind` | pkg/conversion/cloner.go:159-237 | two values unfold alike if and only if they are of the same kind at every position: constructor, nil, mark of []byte, lengths, keys, visibility of fields |
| `Cloner.CopiesKeepTheirKind` | pkg/conversion/cloner.go:159-237 | a copy is of the same kind as its source at every position, through every reference |
| `Cloner.LaterCopyIsApart` | pkg/conversion/cloner.go:159-237 | what is copied later shares no new cell with what was copied before, so each new cell of a copy is reached in one way only |
| `Cloner.SharesExactlyTheLeaks` | pkg/conversion/cloner.go:159-237 | a cell can be reached from both source and copy if and only if the source leaks it, through a struct handed over or a map key |
| `Cloner.TransparentCopiesShareNothing` | pkg/conversion/cloner.go:159-237 | with exported fields and reference-free map keys they share nothing |
| `TimeoutWriter.BaseTimeoutWriter.Write` | pkg/apiserver/handlers.go:242-253 | is the machine's write step, which passes the data on, and fails exactly after a timeout or hijack |
| `TimeoutWriter.BaseTimeoutWriter.WriteHeader` | pkg/apiserver/handlers.go:264-272 | is the machine's header step |
| `TimeoutWriter.BaseTimeoutWriter.Timeout` | pkg/apiserver/handlers.go:274-287 | is the machine's timeout step |
| `TimeoutWriter.BaseTimeoutWriter.Hijack` | pkg/apiserver/handlers.go:293-304 | is the machine's hijack step, and succeeds only before a timeout |
| `TimeoutWriter.RunsAreProper` | pkg/apiserver/handlers.go:229-304 | in every interleaving with one timeout: at most one explicit status, no timeout response after a handler header, body or hijack, nothing from the handler but a flush after a timeout or hijack |
| `TimeoutWriter.HandlerIsPassedOn` | pkg/apiserver/handlers.go:242-272 | in every interleaving the handler events are exactly what it sent before the first timeout or successful hijack: the code of the first header call if no write precedes it, then the data of every write in order |
| `TimeoutWriter.FlagsMean` | pkg/apiserver/handlers.go:229-236 | a write is refused exactly from the first timeout or successful hijack on |
| `TimeoutWriter.TimeoutSpeaksIff` | pkg/apiserver/handlers.go:274-287 | with one timeout, the client gets its status and message if and only if it fires on a handler that has neither sent anything nor taken the connection over |
| `TimeoutWriter.ControlsArePassedOn` | pkg/apiserver/handlers.go:255-304 | every flush, every hijack before a timeout with its outcome, and every timeout happen in order |
| `TimeoutWriter.TimedOutRequestsAreAnswered` | pkg/apiserver/handlers.go:185-204 | a request that timed out has been answered by someone, or its connection was hijacked |
| `TimeoutWriter.TwoTimeoutsSendTwoStatuses` | pkg/apiserver/handlers.go:274-287 | the guarantee needs the timeout to be single |
| `TimeoutWriter.LateStatusIff` | pkg/apiserver/handlers.go:255-262 | the timeout status follows a flush if and only if the handler had flushed and otherwise been quiet |
| `TimeoutWriter.FlushThenTimeout` | pkg/apiserver/handlers.go:255-262 | the shortest run in which it does |
| `RequestPaths.GetRequestInfo` | pkg/apiserver/handlers.go:555-657 | the step-by-step parser computes the reading of the whole path, with no index out of range on any path |
| `RequestPaths.PathsThatAddress` | pkg/apiserver/handlers.go:555-657 | a path addresses an object if and only if it starts with the API segments and goes on to name that object |
| `RequestPaths.VerbOfRequest` | pkg/apiserver/handlers.go:591-654 | the verb of every request: the special verb in its path, else the one for its method and for whether an object is named, else the method |
| `RequestPaths.PartsFromResource` | pkg/apiserver/handlers.go:632-645 | what is kept of the path is all of it, and its parts from the resource on |
| `SelfLinks.SplitRooted` | pkg/apiserver/apiserver.go:511-517 | splitting a clean path gives its segments back |
| `SelfLinks.PrefixIsClean` | pkg/apiserver/apiserver.go:155-164 | the installer's prefix spells the cleaned API segments, all of them normal |
| `SelfLinks.JoinOntoRooted` | pkg/apiserver/api_installer.go:365 | joining a relative path onto a clean one cleans the segments of both |
| `SelfLinks.NamespacedLinkSegments` | pkg/apiserver/api_installer.go:417-419 | the segments of the link printed for a namespaced object |
| `SelfLinks.NamespacedRoundTrip` | pkg/apiserver/api_installer.go:828-844 | for all slash-free segments: the link parses back to the object if and only if the API segments are normal and the resource is not `status` or `finalize`, or by the one coincidence spelled out |
| `SelfLinks.RootLinkSegments` | pkg/apiserver/api_installer.go:766 | the segments of the link printed for a root-scoped object: cleaned, with the first placeholder filled in |
| `SelfLinks.RootRoundTrip` | pkg/apiserver/api_installer.go:755-768 | for all slash-free segments: the link parses back to the object if and only if cleaning leaves its parts alone, no part before the name holds the placeholder unless the name is the placeholder, and the resource is neither a special verb nor `namespaces` |
| `SelfLinks.DotVersionIsLost` | pkg/apiserver/apiserver.go:155-164 | a version of two dots makes both kinds of link lead elsewhere |
| `FieldSelectors.EmptyMatchesEverything` | pkg/fields/selector.go:121-134 | a selector is empty if and only if it matches every field set |
| `FieldSelectors.ExactMatchIsRequired` | pkg/fields/selector.go:136-146 | what is reported as an exact match holds in every field set that matches |
| `FieldSelectors.ParseAndTransformSelector` | pkg/fields/selector.go:196-241 | the loop over the sorted parts computes the parse, with its error cases |
| `FieldSelectors.ParseMeans` | pkg/fields/selector.go:196-241 | parsing succeeds exactly when every part does, and the result matches exactly what meets every part, in any order |
| `FieldSelectors.TransformAfterParsing` | pkg/fields/selector.go:196-241 | parsing with a transformation is parsing, then transforming |
| `FieldSelectors.PrintedFormParsesBack` | pkg/fields/selector.go:160-166 | the printed form of any nesting of printable leaves parses, and matches exactly the same field sets |
| `FieldSelectors.LeafSurvivesIffPrintable` | pkg/fields/selector.go:211-241 | printing and parsing a single term keeps what it matches if and only if neither text holds a comma or its operator, and a field compared with `=` does not end in `!` |
| `FieldSelectors.SomeLeavesAreLost` | pkg/fields/selector.go:78-80 | a comma, an equals sign and a final `!` that do not survive |
| `FieldSelectors.SetString` | pkg/fields/fields.go:36-46 | the sorted texts of exactly the entries, one for each, joined; for printable entries it parses to what agrees with the set |
| `FieldSelectors.SelectorFromSet` | pkg/fields/selector.go:168-182 | matches exactly the field sets that agree with the given one |
| `FieldSelectors.PrintedSetParsesBack` | pkg/fields/fields.go:36-46 | a printed set of printable entries parses to what `SelectorFromSet` matches |
| `FieldSelectorTexts.SelectorMeans` | pkg/fields/selector.go:211-241 | for every text and every transformation: it is parsed if and only if each part is blank or reads as a term by the first of `!=`, `==`, `=` that divides it once and the transformation accepts that term; it then matches what each of these terms, moved, asks for |
| `FieldSelectorTexts.TransformMeans` | pkg/fields/selector.go:70-158 | a transformation succeeds if and only if it does on every leaf, and then matches what meets every leaf where it was moved |
| `FieldSelectorTexts.DoubleEqualsMeansEquality` | pkg/fields/selector.go:229-230 | `==` asks for equality |
| `FieldSelectorTexts.AbsentFieldsAreEmpty` | pkg/fields/selector.go:55-57 | a field that is absent reads as empty |
| `FieldSelectorTexts.ExactMatchIff` | pkg/fields/selector.go:136-146 | of a selector that matches anything, an exact match is reported if and only if everything it matches has that value |
| `ResourceConfigs.ResourceConfig.EnableVersions` | pkg/genericapiserver/resource_config.go:76-85 | switches exactly the given versions on and keeps their resource lists |
| `ResourceConfigs.ResourceConfig.DisableVersions` | pkg/genericapiserver/resource_config.go:65-74 | switches exactly the given versions off and keeps their resource lists |
| `ResourceConfigs.ResourceConfig.EnableResources` | pkg/genericapiserver/resource_config.go:99-110 | lists exactly the given resources as enabled, and no longer as disabled |
| `ResourceConfigs.ResourceConfig.DisableResources` | pkg/genericapiserver/resource_config.go:87-97 | lists exactly the given resources as disabled |
| `ResourceConfigs.MergeAPIResourceConfigs` | pkg/genericapiserver/default_storage_factory_builder.go:55-152 | whatever the iteration orders, success and the result are the merge in those orders |
| `ResourceConfigs.VersionPassMeans` | pkg/genericapiserver/default_storage_factory_builder.go:81-114 | with consistent overrides the first loop fails exactly on a bad key and otherwise gives an order-free result |
| `ResourceConfigs.ResourcePassMeans` | pkg/genericapiserver/default_storage_factory_builder.go:116-150 | likewise the second loop, which also refuses resources of disabled versions |
| `ResourceConfigs.OrderDoesNotMatter` | pkg/genericapiserver/default_storage_factory_builder.go:55-152 | with consistent overrides, success and the result are the same in every order |
| `ResourceConfigs.OnlyAcceptableMerges` | pkg/genericapiserver/default_storage_factory_builder.go:55-152 | if any order merges the overrides, every version key and resource key is readable and registered, and resources are set only in enabled versions |
| `ResourceConfigs.AcceptableMerges` | pkg/genericapiserver/default_storage_factory_builder.go:55-152 | such overrides are merged by some order, conflicting or not |
| `ResourceConfigs.OrderIsImmaterialIff` | pkg/genericapiserver/default_storage_factory_builder.go:55-152 | for all overrides, every two orders give one outcome if and only if no two keys disagree or no order merges them |
| `ResourceConfigs.WhatTheMergeEnables` | pkg/genericapiserver/resource_config.go:129-147 | success and `ResourceEnabled` in closed form: a version override beats `api/all` beats the default, and resource overrides apply inside enabled versions |
| `ResourceConfigs.LegacyKeyHasAnAlias` | pkg/api/unversioned/group_version.go:184-200 | `api/v1` and `/v1` name one version |
| `ResourceConfigs.AliasesMakeOrderMatter` | pkg/genericapiserver/default_storage_factory_builder.go:81-114 | overrides that switch it on under one name and off under the other end on or off, as the order has it |
| `ResourceConfigs.KeysName` | pkg/genericapiserver/default_storage_factory_builder.go:81-130 | which version or resource a key of two or three tokens names, `api/v1`, `api/all` and `api/legacy` included |
| `ResourceConfigs.OneVersionOverride` | pkg/genericapiserver/default_storage_factory_builder.go:81-114 | one override of a version, for every value: it is switched on or off and nothing else is touched, or it is an error |
| `ResourceConfigs.OneResourceOverride` | pkg/genericapiserver/default_storage_factory_builder.go:117-150 | one override of a resource, likewise, in a version that is enabled |
| `ResourceConfigs.AllOff` | pkg/genericapiserver/default_storage_factory_builder.go:60-69 | `api/all=false` switches off every registered version that is configured, and no other |
| `Mungedocs.GetMungeLines` | cmd/mungedocs/util.go:248-270 | the loop marks the lines of code fences as the recursive definition does |
| `Mungedocs.RemoveMacroBlock` | cmd/mungedocs/util.go:81-112 | the loop computes what is left without blocks, or the error for marks that do not pair |
| `Mungedocs.UpdateMacroBlock` | cmd/mungedocs/util.go:33-67 | the loop computes the document with each block refilled, or the error |
| `Mungedocs.RemovedMeans` | cmd/mungedocs/util.go:81-112 | removing fails unless the marks outside code fences are begin and end in turn and pair up; then it leaves every preformatted line, and the others that follow an even number of marks |
| `Mungedocs.RefillingMeans` | cmd/mungedocs/util.go:33-67 | outside code fences, refilling fails when removing does, changes nothing outside blocks, and done twice is as done once |
| `Mungedocs.FencesMean` | cmd/mungedocs/util.go:248-270 | three backquotes after white space open a fence unless there are three more on the line, and close one in any case |
| `Mungedocs.OtherLinesAreNoFences` | cmd/mungedocs/util.go:248-270 | no other line opens or closes one |
| `Mungedocs.LooseLinksAreDropped` | cmd/mungedocs/analytics.go:41-50 | outside blocks, a text line is dropped if it is a link of ours without a mark, and otherwise stays where it is |
| `Mungedocs.UpdateAnalytics` | cmd/mungedocs/analytics.go:27-58 | gives the kept lines, a blank line where needed and one filled block, and fails exactly when the marks do not pair |
| `Mungedocs.AppendedBlockIsFilled` | cmd/mungedocs/util.go:126-134 | an empty block appended to lines without marks is the one that gets filled |
| `Mungedocs.SecondRunChangesNothing` | cmd/mungedocs/analytics.go:27-58 | running again on the resulting lines in memory changes nothing, on any document, if and only if the lines that the file name brings along fade away: none preformatted, marks closing and reopening in turn, only stray links outside |
| `Mungedocs.VanishingIsRemoval` | cmd/mungedocs/util.go:81-112 | such lines are exactly those that the next run takes out whole |
| `Mungedocs.OneLineNamesVanish` | cmd/mungedocs/analytics.go:34-35 | every file name without a line break brings such lines |
| `Mungedocs.FencedNameDoesNotVanish` | cmd/mungedocs/util.go:248-270 | a name that opens a code fence does not |
| `Mungedocs.PreformattedTextSurvives` | cmd/mungedocs/util.go:81-112 | the preformatted lines of the result are those of the document, even inside a block, followed by those the file name brings along, which are none for a name without a line break |
| `MungedocsFiles.VisitFile` | cmd/mungedocs/mungedocs.go:100-155 | gives the text left in the file and whether anything was changed or reported |
| `MungedocsFiles.ReadBack` | cmd/mungedocs/util.go:195-246 | lines that are printed are read back as they were |
| `MungedocsFiles.NextRead` | cmd/mungedocs/mungedocs.go:105-147 | whether or not the first run had to write, the next one reads the kept lines, the padding and the block |
| `MungedocsFiles.NextRunIsQuietIff` | cmd/mungedocs/mungedocs.go:100-155 | after a run without error on any text, the next run changes and reports nothing if and only if the kept lines, read on their own, close their fences and have neither marks nor stray links outside them |
| `MungedocsFiles.NeverCatchesUp` | cmd/mungedocs/util.go:248-270 | once a fence is left open, the kept lines and a block never make up the document |
| `MungedocsFiles.QuietIffFencesClose` | cmd/mungedocs/util.go:248-270 | where no fence is dropped with a block, that holds if and only if the document closes its fences |
| `MungedocsFiles.UnclosedFenceIsNotQuiet` | cmd/mungedocs/util.go:248-270 | a document that is one open fence needs another change on the next run |
| `Keyring.BasicDockerKeyring.Add` | pkg/credentialprovider/keyring.go:75-129 | files every entry and rebuilds the index, keeping it strictly descending and in step with the credentials |
| `Keyring.KeysIgnoreApiVersions` | pkg/credentialprovider/keyring.go:91-116 | a leading `/v1` or `/v2` makes no difference to the key |
| `Keyring.IndexMeans` | pkg/credentialprovider/keyring.go:121-128 | the index is strictly descending and holds exactly the given keys |
| `Keyring.RunsStayValid` | pkg/credentialprovider/keyring.go:75-129 | after any additions the index is strictly descending and lists exactly the keys that have credentials |
| `Keyring.AddingFiles` | pkg/credentialprovider/keyring.go:117-118 | adding keeps what was filed and appends each new credential once |
| `Keyring.NoCredentialIsLost` | pkg/credentialprovider/keyring.go:75-129 | after any additions the ring holds under each key exactly the credentials configured for it |
| `Keyring.BasicDockerKeyring.Lookup` | pkg/credentialprovider/keyring.go:239-264 | the loop collects the matching keys' credentials in index order, or falls back to the default registry |
| `Keyring.LongerKeyComesFirst` | pkg/credentialprovider/keyring.go:239-264 | a matching key's credentials precede those of any matching proper prefix |
| `Keyring.FoundMeans` | pkg/credentialprovider/keyring.go:139-161 | whether anything is found, and exactly which credentials, with the default registry only when nothing matches |
| `Keyring.ConfiguredEntryIsFound` | pkg/credentialprovider/keyring.go:75-129 | after any additions, an entry whose key matches an image is found for it: its name, password and address, or its provider alone |
| `Keyring.DefaultRegistryImages` | pkg/credentialprovider/keyring.go:139-161 | which images fall back on the default registry, by their first part |
| `Keyring.SchemesAreOptional` | pkg/credentialprovider/keyring.go:86-90 | a location without a scheme is filed like the same one with `https://` |
| `Fieldpath.RoundingKeepsTheInterval` | pkg/fieldpath/fieldpath.go:114-124 | a double nearest to the quotient lies in the same unit interval, open below and closed above |
| `Fieldpath.LargeDivisor` | pkg/fieldpath/fieldpath.go:114-124 | a divisor too large to be held exactly still leaves the quotient in the first unit interval |
| `Fieldpath.CeilingIsExact` | pkg/fieldpath/fieldpath.go:114-124 | for numerators up to 2^53 and every positive divisor, under any rounding to nearest, the result is the exact integer ceiling |
| `Fieldpath.SharedRounding` | pkg/fieldpath/fieldpath.go:114-124 | from 2^53 on, every number and its successor can convert to one double |
| `Fieldpath.ExactUpToPrecision` | pkg/fieldpath/fieldpath.go:114-124 | a numerator gives the exact ceiling for every divisor and every rounding to nearest if and only if it is at most 2^53 |
| `Fieldpath.WrongWhicheverWay` | pkg/fieldpath/fieldpath.go:114-124 | past 2^53, a numerator that is no double or exceeds 2^54 has a divisor for which no rounding to nearest gives the ceiling |
| `Fieldpath.BoundIsTight` | pkg/fieldpath/fieldpath.go:114-124 | 2^53 + 1 divided by one comes out one short |

## Left out

- Integers are unbounded: the 64-bit wrap-around of the expectation counters is not modelled.
- `RaiseExpectations`, the expiry clock (it is an argument) and the store's key function are not part of the model.
- DNS records are values, not shared pointers, and the slice that holds the domain path is never appended to in place.
- A DNS query is answered against one state; the code lets go of the cache lock between finding the records of a
  federated query and looking whether they are live.
- The hash label of a record, the etcd key of a name, IP parsing, URL parsing and glob matching are function
  parameters; the zone and region lookup is an argument.
- The handler of service updates, the informer loops, and waiting for the Kubernetes service at start-up.
- Records of services whose cluster IP changes, or that become headless without endpoints, are not cleaned up by the
  code, and nothing is claimed about them.
- Lower-casing covers ASCII only; white space in documents is the set that Go's `\s` matches.
- A visit of a document runs the analytics munger alone, and writing the file succeeds.
- The link flag of a document line, which these mungers never read, and making a file name relative to the repository.
- An empty timeout message stands for the encoded default response.
- Of a copied value, the names of Go types and the capacities of slices are not modelled.
- Cyclic objects, on which the deep copy does not return; custom copy functions other than the one for byte slices.
- The deep copy works on an explicit heap value rather than on Dafny objects, because Go's interfaces and reflection
  have no counterpart there.
- Entries of the version configuration map are values; the map itself is updated in place.
- Error messages: a failed operation is told apart by its kind, or by `None`, never by its text. So which of several
  bad override keys is reported is not modelled.
- WrongWhicheverWay: says nothing of the doubles among the numerators between 2^53 and 2^54, for which it depends on the
  tie rule; that of IEEE 754 (ties to even) is not modelled, nor are infinities, which no 64-bit integer converts to.
- Negative resource quantities; the choice of resource and the default divisor in `ExtractContainerResourceValue`.
- Patching, watching, proxying, route registration, content negotiation and authorization in the API server.
- The type converter, generated deep copies, the matching cache, and the other mungers of cmd/mungedocs.
