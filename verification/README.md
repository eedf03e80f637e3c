# CoreNet: a verified model

CoreNet is a small name directory shared between nodes. A node keeps services in
four tiers (runtime registrations, its configuration file, Docker containers,
other nodes), answers DNS, HTTP and API requests from the merged directory, and
pulls the directories of the nodes it is configured to know. This project models
that state in Dafny and proves what it promises over whole runs.

`dafny verify dfyconfig.toml` checks everything.

## Layout

| file | what it holds |
|---|---|
| `Results.dfy`, `Strings.dfy` | option and result types; byte order on strings, sorting, ranging over a map in any order, splitting on dots |
| `Protocol.dfy` | names: normalization, validation, the grammar, DNS's suffix test |
| `Directory.dfy` | the directory as a value: its writers, and `Resolve`, the reference for every reader |
| `DirectoryRuns.dfy` | runs of the writers: soundness, List against Lookup, shadowing, last write, advertising |
| `Registry.dfy` | the `Registry` class, proved against `Directory.dfy` |
| `Docker.dfy`, `Claims.dfy` | one container into a service; how a container list splits into routed names and conflicts |
| `Discovery.dfy` | the `Docker` class and the polling loop |
| `Peering.dfy`, `Peers.dfy` | the peer table and its pulls as functions, and the `Peers` class proved against them |
| `PeerRuns.dfy` | uninterrupted runs: exact remote tier, convergence |
| `Interleaving.dfy` | puller and reload taken apart at their locks: withdrawal safety |
| `Network.dfy` | any number of nodes: nothing is relayed |
| `Config.dfy`, `Daemon.dfy` | Validate, Docker.Equal, Reload |
| `Frontends.dfy` | the decisions of DNS, proxy and API over one directory |

Every class method is proved equal to a function on values, and the theorems are
about those functions. Loops over Go maps pick the next key arbitrarily, so each
result holds for every iteration order. A few bodies start with `hide`, which
only keeps definitions a proof does not need away from the solver.

Assumptions that are parameters: what a fetch or a poll yields, the clock reading
of a pull, `net.SplitHostPort` (as a function from addresses to host and port),
and the node behind each endpoint. Text is ASCII as far as trimming and
lower-casing go.

## Where the code and its documents part

* `docs/specs/specs-0.2.md:395-434` says a name two containers claim is not
  routed. The code only keeps it out of the Docker tier: as soon as another node
  advertises it, it is routed there. `ConflictedNameResolvesIff` gives the exact
  condition; `ConflictedNameCanBeRemote` says where one more advertisement, on
  top of whatever the other nodes provide, sends the name.
* `docs/specs/specs-0.1.md:248-250` promises that the names of a node out of
  reach are gone at once. A reload that drops an endpoint between a pull's unlock and its
  registry write does leave them: `DroppedMidPullLeavesServices`, and only the
  node itself answering some endpoint again removes them: `LeftoversStay`. What
  holds is `WithdrawalSafety`; a run is never seen stale exactly when it has no
  stray write (`NeverStaleIffNoStrayWrite`), as when no reload drops an endpoint
  at that point (`NoStaleServices`).
* Repeated pulls do not always settle on the reachable peers' directories, for
  two reasons. A failing peer that remembers the ID of a reachable one before it
  in the list clears that one's directory on every pass (`ShadowedPeerIsLost`).
  And what a stray write left is out of every pass's reach
  (`LeftoversBlockConvergence`). `TwoPassesConvergeIff` is exact, and
  `InterleavedPassesConverge` carries it to every state of every run;
  `SwappedIDsTakeTwoPasses` is a state in which a single pass is not enough.
* An offline peer can be listed with services: when another endpoint reports the
  same node ID (`SharedIDMisreports`), and for a moment even without one, between
  `markOffline`'s unlock and its registry write (`OfflineBeforeItsClear`).
  `Interleaving.OfflineReport` says of every run exactly when, and which list is
  then counted.
* A pull asks twice, and nothing ties the second answer to the first: when an
  endpoint changes hands in between, one node's services are filed under
  another's ID (`HandoverMisattributes`). Even then nothing is relayed.
* A query with two trailing dots is routed by the proxy and refused by the resolve
  API (`TwoDotsAreRoutedButRefused`, `FrontEndsAgreeIff`). ServeDNS's decision
  refuses it too, though no DNS message can carry such a name.
* SetConfigServices does not validate, so on its own it can list a name that
  cannot be looked up (`UnvalidatedConfigIsListedButNotFound`,
  `ListedIsFoundIffNormal`). Load always validates first.
* A poll interval above 9223372036 seconds wraps around (`PollIntervalExact`),
  possibly to one no ticker accepts, though Validate does (`PollIntervalPositiveIff`), and
  so does a pull interval, for which the default may then take over (`PullIntervalExact`).

## Model

| member | source | states |
|---|---|---|
| Strings.LessTotal | internal/registry/registry.go:269-276 | the order node IDs and names are sorted by is total and antisymmetric |
| Strings.LessIsByteOrder | internal/registry/registry.go:269-276 | and it is the byte order: the first differing character decides, and a proper prefix comes first |
| Strings.SortSorts | internal/discovery/discovery.go:116 | sorting returns an ascending permutation of its input |
| Strings.SortStringsCanonical | internal/discovery/discovery.go:116 | the sorted owners depend on which names there are, counted, and not on their order |
| Strings.StrictUnique | internal/registry/registry.go:232-233 | with distinct names there is only one sorted result, whichever sort produces it |
| Strings.Values | internal/registry/registry.go:228-231 | ranging over a map lists each value once, for any order of the keys |
| Strings.SortedKeys | internal/registry/registry.go:269-276 | collecting and sorting a map's keys yields their one ascending enumeration, for any order of the keys |
| Protocol.ValidIffGrammar | pkg/protocol/protocol.go:131-168 | ValidateName accepts exactly the dot-joined lists of two or more labels ending in "core" |
| Protocol.ValidIffCharacters | pkg/protocol/protocol.go:131-168 | the same off the characters alone: ending in ".core", only a-z, 0-9, hyphen and dot, no hyphen or dot first or after a dot, no hyphen before one, a dot in every 64 characters |
| Protocol.NameFault | pkg/protocol/protocol.go:131-148 | which fault is reported for which names |
| Protocol.LabelFault | pkg/protocol/protocol.go:150-168 | which fault is reported for which labels |
| Protocol.GrammarIsNormal | pkg/protocol/protocol.go:135-137 | the grammar alone implies the normal form, so the explicit check is implied |
| Protocol.LabelsAreUnique | pkg/protocol/protocol.go:138 | a valid name has one list of labels; splitting and joining undo each other on it |
| Protocol.FirstBadLabelIsFirst | pkg/protocol/protocol.go:142-146 | the label reported is the first that is not one, with its own fault |
| Protocol.NormalizesIffSpells | pkg/protocol/protocol.go:123-127 | exactly the spellings of a valid name, letter by letter (either case, one optional dot, any of six blanks around it), normalize to it |
| Protocol.NormalizeTwice | pkg/protocol/protocol.go:125-127 | normalizing again changes nothing exactly when the result ends in neither a dot nor a space |
| Protocol.NormalizeNotIdempotent | pkg/protocol/protocol.go:125-127 | "a.." needs two normalizations |
| Protocol.ValidIsCoreName | internal/dns/dns.go:75-77 | every valid name passes the DNS server's suffix test |
| Protocol.CoreNameIff | internal/dns/dns.go:75-77 | the suffix test passes exactly what ends in ".core" with something before it |
| Protocol.RaggedIsRefused | internal/dns/dns.go:75-77 | a name a second normalization would change passes neither that test nor validation |
| Directories.CollectIsLastWrite | internal/registry/registry.go:114-122 | a tier holds a name exactly when a kept entry has it, and then the last such entry |
| Directories.TierHoldsLastUsable | internal/registry/registry.go:113-130 | a tier holds of each name the address and port of the last entry with a valid name, an address and a port in 1..65535, under the normalized name and the tier's source |
| Directories.ConflictsHoldLast | internal/registry/registry.go:135-159 | of each valid name the last conflict is kept, with its owners |
| Directories.CollectValidated | internal/registry/registry.go:50-60 | a validated configuration is stored one entry per declared service |
| Directories.ResolvesIffKnown | internal/registry/registry.go:184-203 | a name resolves exactly when some tier knows it |
| Directories.WhoAnswers | internal/registry/registry.go:184-203 | exactly which service answers: a registration before the configuration before Docker before the node whose ID is first in byte order |
| Directories.WhoServes | internal/registry/registry.go:239-260 | the same for what a node serves itself |
| Directories.RefusalOf | internal/registry/registry.go:64-90 | which refusal a registration meets, and what is stored without one |
| Directories.KeeperOf | internal/registry/registry.go:94-109 | which refusal a withdrawal meets |
| Directories.ConflictsListed | internal/registry/registry.go:171-181 | the conflict listing is exactly the conflicts, ascending in byte order |
| Directories.ServedIsListed | internal/registry/registry.go:239-260 | the local listing is exactly the local services, ascending in byte order |
| DirectoryRuns.WritersKeepSound | internal/registry/registry.go:50-159 | every writer keeps keys equal to valid names, ports in range, addresses non-empty, sources right, docker and conflicts disjoint, no empty remote tier |
| DirectoryRuns.RunsAreSound | internal/registry/registry.go:50-159 | those hold after every run from an empty registry |
| DirectoryRuns.ListingIsTheResolution | internal/registry/registry.go:205-234 | List is strict in name order and holds exactly the service each name resolves to |
| DirectoryRuns.ListAgreesWithLookup | internal/registry/registry.go:184-234 | after every run a service is listed exactly when Lookup of its name returns it, an unlisted name fails Lookup, and names ascend in byte order |
| DirectoryRuns.ListedIsFoundIffNormal | internal/registry/registry.go:50-60 | without validation List and Lookup agree exactly when every known name is in normal form |
| DirectoryRuns.UnvalidatedConfigIsListedButNotFound | internal/registry/registry.go:50-60 | an unvalidated configuration can list a name Lookup does not find |
| DirectoryRuns.RegistrationIsAShadow | internal/registry/registry.go:64-109 | a registration changes its own name's resolution and no other answer of any run, and removing it gives the directory of the run without it |
| DirectoryRuns.TiersAreTheirLastWrite | internal/registry/registry.go:50-159 | after any run each replaced tier is a function of the last call that wrote it |
| DirectoryRuns.PullOrderIsIrrelevant | internal/registry/registry.go:113-130 | writes for different nodes commute: any permutation gives the same directory and List |
| DirectoryRuns.AdvertisingLosesNothing | internal/registry/registry.go:236-267 | storing a reachable node's advertisement stores exactly its local services, counts them all, and each is in its own List |
| Registries.FirstHitIsLeast | internal/registry/registry.go:197-201 | scanning nodes in ascending order finds the lowest one that has the name |
| Registries.MergeIsResolution | internal/registry/registry.go:211-226 | overwriting from the highest node ID down to the runtime tier gives the resolution of every name |
| Registries.Reverse | internal/registry/registry.go:278-283 | reverses in place |
| Registries.Registry.constructor | internal/registry/registry.go:38-46 | a new registry is empty |
| Registries.Registry.SetConfigServices | internal/registry/registry.go:50-60 | replaces the config tier by the collected list, nothing else |
| Registries.Registry.Add | internal/registry/registry.go:64-90 | the new directory and the answer, for every refusal and for success |
| Registries.Registry.Remove | internal/registry/registry.go:94-109 | the new directory and the answer, for each owner of the name |
| Registries.Registry.SetRemote | internal/registry/registry.go:113-130 | replaces or forgets one node's tier by the filtered list |
| Registries.Registry.SetDocker | internal/registry/registry.go:135-159 | replaces the docker tier and the conflicts, conflicted names taken out |
| Registries.Registry.Conflict | internal/registry/registry.go:162-168 | the conflict of a normalized name |
| Registries.Registry.Conflicts | internal/registry/registry.go:171-181 | every conflict once, in name order |
| Registries.Registry.Lookup | internal/registry/registry.go:184-203 | the first-hit scan returns the declarative resolution |
| Registries.Registry.List | internal/registry/registry.go:207-234 | the overwrite-merge and sort return the resolution of every known name in order |
| Registries.Registry.ListLocal | internal/registry/registry.go:239-260 | the local tiers merged by precedence, in name order |
| Registries.Registry.CountRemote | internal/registry/registry.go:263-267 | how many services one node contributes |
| Registries.Registry.SortedNodeIDs | internal/registry/registry.go:269-276 | the node IDs ascending |
| Containers.AtoiReadsDecimals | internal/discovery/docker.go:136 | a port's decimal digits, signed or not, are read as that port |
| Containers.AtoiIff | internal/discovery/docker.go:136 | a port is read exactly from an optional sign, any zeros and the number's decimal notation, within 64 bits |
| Containers.DecimalNotation | internal/discovery/docker.go:136 | decimal notation, digit by digit |
| Containers.Address | internal/discovery/docker.go:160-180 | the configured network's address, else that of the least-named network that has one, for any order of the networks |
| Containers.ToService | internal/discovery/docker.go:115-151 | the service of a container, or the first reason it has none |
| Containers.ServiceIff | internal/discovery/docker.go:115-151 | a container is a service exactly when its labels give a valid name, "http" and a port in range and it has an address to dial, and then that service |
| Containers.SkipReason | internal/discovery/docker.go:115-151 | which reason is given for which other containers |
| Containers.DialledIff | internal/discovery/docker.go:160-180 | the address is that on the configured network, else that on the first network in byte order that has one |
| Containers.DisplayNameIs | internal/discovery/docker.go:76-84 | owners go by the first name without its slash, else by at most twelve characters of the ID |
| Containers.ServiceOfAcceptable | internal/discovery/docker.go:115-151 | a usable container's service passes every check the registry repeats |
| Containers.OnlyReachableNetworksMatter | internal/discovery/docker.go:160-180 | networks without an address never affect the service |
| Claims.ConvertPartitions | internal/discovery/discovery.go:91-132 | routed services are exactly the names one usable container claims, conflicts exactly those two or more claim; disjoint, complete, strictly sorted |
| Claims.ConvertOverContainers | internal/discovery/discovery.go:91-132 | the same of the containers: routed is the service only one describes, in conflict the name two do, and the owners are what those containers are called, each as often as it occurs |
| Claims.ConvertConserves | internal/discovery/discovery.go:91-132 | usable containers equal routed services plus the owners named in conflicts |
| Claims.ConvertIgnoresOrder | internal/discovery/discovery.go:91-132 | the whole output, owners included, is the same for every permutation of the containers |
| Discovery.ConvertedIsStored | internal/registry/registry.go:135-159 | SetDocker drops nothing convert produced |
| Discovery.PollingRefinesSimple | internal/discovery/discovery.go:68-87 | skipping the writes of repeated failures is unobservable in the directory, over any run with other writers |
| Discovery.DockerTierIsLastPoll | internal/discovery/discovery.go:68-87 | after any run the docker tier and conflicts are convert of the last list, empty if the last poll failed |
| Discovery.MessagesAlternate | internal/discovery/discovery.go:151-166 | over any run of polls the conflict messages about a name, which `Docker.Run` equates with its log, alternate from "not routed", and the last one tells whether it is in conflict |
| Discovery.OutagesAlternate | internal/discovery/discovery.go:68-82 | the outage messages alternate from "unavailable", and the last one tells whether Docker is down |
| Discovery.SkipsAreToldOnce | internal/discovery/discovery.go:134-141 | within one walk over the containers no reason is logged twice running, and the note kept is the last one logged |
| Discovery.NoteIsLastSkip | internal/discovery/discovery.go:134-141 | the note on a container is the reason its last skipped one was skipped for |
| Discovery.UsableIsForgotten | internal/discovery/discovery.go:143-149 | a poll forgets exactly the notes of containers it finds usable |
| Discovery.FirstSkipIsTold | internal/discovery/discovery.go:134-141 | a container without a note is told of as soon as it is skipped |
| Discovery.RunsTellSkipsOnce | internal/discovery/discovery.go:134-149 | nor over any run of polls in which the container never becomes usable |
| Discovery.Docker.constructor | internal/discovery/discovery.go:39-50 | starts available, with nothing noted |
| Discovery.Docker.ReportSkip | internal/discovery/discovery.go:135-141 | notes the reason and logs it unless it is the one noted |
| Discovery.Docker.ForgetSkips | internal/discovery/discovery.go:143-149 | forgets the notes of usable containers, in any order |
| Discovery.Docker.ReportConflicts | internal/discovery/discovery.go:152-166 | logs each name that became a conflict, with its owners, and each that ceased to be one, once, and remembers the current ones |
| Discovery.Docker.Convert | internal/discovery/discovery.go:91-132 | returns the partition of the claims, for any container order and map order, with its effect on notes and log |
| Discovery.Docker.Poll | internal/discovery/discovery.go:68-87 | one step of the polling loop; the log keeps saying of every name and of Docker what is so, and of each new conflict what the directory holds |
| Discovery.Docker.Run | internal/discovery/discovery.go:52-66 | after any run of polls from the start the registry, the notes, the conflict set and every name's and container's lines in the log are those the run theorems speak of |
| Peering.PullCovered | internal/daemon/peers.go:125-183 | a pull leaves no node in the remote tier without an online endpoint |
| Peering.SetEndpointsCovered | internal/daemon/peers.go:73-96 | nor does a reload |
| Peering.DistinctKeepsOrder | internal/daemon/peers.go:77-89 | endpoints are listed in the order they first stand in |
| PeerTable.PeerState.constructor | internal/daemon/peers.go:45-52 | a new endpoint is offline and has told no ID |
| PeerTable.Peers.constructor | internal/daemon/peers.go:55-69 | the table for the configured endpoints, and the interval or its default |
| PeerTable.Peers.SetEndpoints | internal/daemon/peers.go:73-96 | keeps the states of kept endpoints, clears exactly the dropped endpoints' nodes, lists each endpoint once in order |
| PeerTable.Peers.PullAll | internal/daemon/peers.go:115-123 | one pull of each configured endpoint in order |
| PeerTable.Peers.PullOne | internal/daemon/peers.go:125-161 | the new table and remote tier after a pull, for an answer, a refused answer and a failure |
| PeerTable.Peers.TakeOffline | internal/daemon/peers.go:163-183 | marks the endpoint offline and withdraws its node |
| PeerTable.Peers.Nodes | internal/daemon/peers.go:206-229 | one report per endpoint, in order; what is in it is PeerRuns.NodesReport |
| PeerRuns.RunsAreCovered | internal/daemon/peers.go:73-183 | in every state of an uninterrupted run the remote tier names only nodes an online endpoint answers for |
| PeerRuns.RemoteTierIsExact | internal/daemon/peers.go:73-183 | while endpoints hold distinct IDs, an online endpoint's node holds its last list, sanitized, and no other node holds anything |
| PeerRuns.RemoteTierIsLastWord | internal/daemon/peers.go:73-183 | in uninterrupted runs, with no assumption on IDs, each node holds what the last operation to touch it left |
| PeerRuns.LastWordIsAStore | internal/daemon/peers.go:73-183 | which is something exactly when a pull stored a non-empty list under that ID and no later operation touched it |
| PeerRuns.NodesReport | internal/daemon/peers.go:206-229 | after any uninterrupted run every row, online or not, carries the identity, flag, error and time its endpoint's own pulls left, and counts the list last stored under its ID and not touched since |
| PeerRuns.DistinctReport | internal/daemon/peers.go:206-229 | while IDs are distinct an online row counts its own last list, sanitized, and an offline one nothing |
| PeerRuns.OfflineReport | internal/daemon/peers.go:206-229 | between uninterrupted operations, an offline peer that reports services shares its ID with another endpoint that is online; with distinct IDs it reports none |
| PeerRuns.OfflineReportIff | internal/daemon/peers.go:206-229 | after any uninterrupted run an offline peer reports services exactly when some pull stored a list under its ID and nothing touched that node since, and it reports that list's count |
| PeerRuns.SharedIDMisreports | internal/daemon/peers.go:206-229 | with a shared ID an offline peer reports the other endpoint's services |
| PeerRuns.PassLeaves | internal/daemon/peers.go:115-183 | of a node no reachable endpoint reports, a pass clears everything if an endpoint remembers it and touches nothing otherwise |
| PeerRuns.OnePassConvergesIff | internal/daemon/peers.go:115-183 | one pass leaves exactly the reachable peers' directories iff nothing it stores is cleared again before it ends and every node stored before is reported or remembered by an endpoint |
| PeerRuns.TwoPassesConvergeIff | internal/daemon/peers.go:115-183 | two passes, at whatever times, do iff every node stored before is reported or remembered by an endpoint and no failing endpoint remembers the ID, with services, of a reachable one before it |
| PeerRuns.ShadowedPeerIsLost | internal/daemon/peers.go:163-183 | a reachable state in which that condition fails, and no number of passes ever stores the reachable peer's directory |
| PeerRuns.SwappedIDsTakeTwoPasses | internal/daemon/peers.go:143-157 | a reachable state in which two peers have swapped IDs: one pass loses a directory, a second brings it back |
| PeerRuns.ThirdPassIsIdle | internal/daemon/peers.go:115-183 | after two passes another changes nothing but clock readings |
| PeerRuns.PassesConverge | internal/daemon/peers.go:115-183 | from every state of an uninterrupted run: two passes suffice when no failing endpoint remembers a reported ID, one when no endpoint remembers another's |
| Interleaving.StepKeepsInv | internal/daemon/peers.go:73-183 | every step of puller, reload or another writer keeps each remote node accounted for |
| Interleaving.WithdrawalSafety | internal/daemon/peers.go:73-183 | under every interleaving a remote node has an online endpoint, is about to be cleared, or was written by a pull whose endpoint a reload had dropped |
| Interleaving.QuietIsSafeIffOrphansOnline | internal/daemon/peers.go:143-183 | in one state between the puller's writes nothing is stale iff every node written for a dropped endpoint has an online endpoint again |
| Interleaving.StoreIsSafeIff | internal/daemon/peers.go:143-157 | the failing step: a store leaves a stale node iff it is a non-empty list for a dropped endpoint and no other online endpoint has its ID |
| Interleaving.NeverStaleIffNoStrayWrite | internal/daemon/peers.go:73-183 | a run is stale at no moment between the puller's writes iff none of its writes is such a store |
| Interleaving.NoStaleServices | internal/daemon/peers.go:143-183 | in runs without such a reload a node without an online endpoint has no services whenever the puller is between writes |
| Interleaving.DroppedMidPullLeavesServices | internal/daemon/peers.go:143-157 | such a reload does leave a node's whole directory behind with no endpoint configured |
| Interleaving.LeftoversStay | internal/daemon/peers.go:73-183 | a node no endpoint and no pending write knows keeps what it left behind through every run in which no peer answers with its ID |
| Interleaving.InterleavedPassesConverge | internal/daemon/peers.go:115-183 | from every state of every interleaved run, stray writes included: the exact conditions for one pass and for two, and a third changes nothing |
| Interleaving.CleanPassesConverge | internal/daemon/peers.go:115-183 | after runs without a stray write nothing is left over, so two passes suffice when no failing endpoint remembers a reported ID, one when no endpoint remembers another's |
| Interleaving.LeftoversBlockConvergence | internal/daemon/peers.go:143-157 | a reachable state with nothing cleared or shadowed from which no pass converges |
| Interleaving.HeldIffStored | internal/daemon/peers.go:73-183 | whatever the interleaving, a node holds something exactly when some write stored it and none has touched it since, and then that list |
| Interleaving.ReportIsHeld | internal/daemon/peers.go:206-229 | at any moment of any run every row, online or not, is what is known of the endpoint and counts the list stored under its ID and not touched since |
| Interleaving.OfflineReport | internal/daemon/peers.go:206-229 | at any moment of any run an offline peer reports services exactly when a list stored under its ID has not been touched since; then another endpoint with its ID is online, or the puller is about to clear it, or a reload dropped its endpoint in mid-pull |
| Interleaving.OfflineBeforeItsClear | internal/daemon/peers.go:163-179 | with one endpoint and no reload, a peer already offline still reports everything it sent |
| Interleaving.PullIsItsSteps | internal/daemon/peers.go:125-183 | uninterrupted, the steps of a pull amount to the whole pull, whichever request fails |
| Interleaving.FailureWithdraws | internal/daemon/peers.go:125-139 | a failure of either request takes the endpoint offline with its cause, withdraws the node it remembered, and changes nothing else |
| Interleaving.SuccessStores | internal/daemon/peers.go:141-161 | an accepted answer stores the sanitized list, withdraws the node the endpoint was before, and changes nothing else |
| Interleaving.PassIsItsSteps | internal/daemon/peers.go:115-123 | uninterrupted, the steps of a pass from start to finish amount to PullAll |
| Interleaving.LocalWriteIsTheRegistry | internal/registry/registry.go:50-159 | any other writer does to the directory what the registry does, and touches no remote node |
| Interleaving.ReloadIsItsSteps | internal/daemon/peers.go:73-96 | uninterrupted, the steps of a reload amount to SetEndpoints, in whatever order it clears |
| Network.RunIsTraced | internal/daemon/peers.go:125-161 | in any run of any network every directory held or carried is an answer its owner gave |
| Network.NothingIsRelayed | internal/daemon/api.go:40-49 | what b holds under a is exactly the local services of the node that answered b's second request, at that moment, and a is not b; endpoints may change hands at any time |
| Network.EveryEntryIsTheOwners | internal/registry/registry.go:239-260 | each remote entry was in a runtime, config or docker tier of the node that answered, so a service never travels two hops |
| Network.AttributionIsRight | internal/daemon/peers.go:125-161 | while one node answers both requests of each pull, what is held under a is a's own |
| Network.NoRehostIsSteady | internal/daemon/peers.go:125-161 | as it does in every run in which no endpoint changes hands |
| Network.HandoverMisattributes | internal/daemon/peers.go:125-161 | when an endpoint passes from a to c between the two requests, c's services are stored under a's ID |
| Configuration.NoProblemIffRunnable | internal/config/config.go:191-248 | Validate accepts exactly the configurations with an ID, a control path, sound addresses, acceptable services under distinct names, non-negative intervals and sound endpoints |
| Configuration.RunnableIsStored | internal/config/config.go:211-229 | what Validate lets through is stored one entry per declared service |
| Configuration.ProblemIsReal | internal/config/config.go:191-248 | the problem reported is one the configuration has, with the details given |
| Configuration.PollIntervalExact | internal/config/config.go:112-117 | the poll interval is the configured seconds exactly up to the 64-bit nanosecond limit |
| Configuration.PollIntervalPositiveIff | internal/config/config.go:112-117 | when the interval is a positive one, for every number of seconds, and two numbers Validate accepts for which it is negative or zero |
| Configuration.PullIntervalExact | internal/config/config.go:250-256 | the pull interval in effect is the configured seconds exactly up to that limit, always positive, and the default just past it |
| Configuration.Config.Validate | internal/config/config.go:191-248 | reports the first problem, and on success leaves the services normalized in place |
| Configuration.DockerBlockMeans | internal/config/config.go:87-117 | a Docker block is on unless switched off, what is left out is the documented default, and Equal compares exactly that |
| Daemons.SameDockerIsSameMeaning | internal/config/config.go:104-109 | Docker.Equal is equality of meaning, hence an equivalence |
| Daemons.ReloadsKeepFixed | internal/daemon/daemon.go:220-243 | over any run of reloads listen addresses, node ID, pull interval and Docker meaning stay those of startup; services and peers are those last loaded |
| Daemons.ConfigurationIsInForce | internal/daemon/daemon.go:220-243 | after any run with other writers the config tier and the endpoint list are those of the configuration in force |
| Daemons.ReloadLeavesAlone | internal/daemon/daemon.go:220-243 | a reload leaves registrations, Docker's tier, kept endpoints and every node no dropped endpoint remembers as they are, and takes the loaded name only when no restart is needed |
| Daemons.StartsAsConfigured | internal/daemon/daemon.go:46-62 | a node starts with its configured services and nothing else, and its endpoints unpulled |
| Daemons.NodeIsItsParts | internal/daemon/daemon.go:220-243 | over any run the peer table and remote tier are those of the run of its pulls and reloads, and its own tiers those of the run of its writers |
| Daemons.Daemon.constructor | internal/daemon/daemon.go:46-62 | a node starts with its configured services and peers, its pull interval, and a polling object over the same registry, with the Docker block's meaning, exactly when Docker is enabled |
| Daemons.Daemon.Reload | internal/daemon/daemon.go:220-243 | the new configuration, directory and peer table; a failed load changes nothing |
| Daemons.Daemon.Nodes | internal/daemon/daemon.go:276-287 | this node with its local services, then the peers in order |
| Frontends.ServeDNS | internal/dns/dns.go:32-73 | the response code and answers, branch by branch |
| Frontends.Route | internal/daemon/proxy.go:47-63 | the target, or 409 or 404 |
| Frontends.HandleResolve | internal/daemon/api.go:108-125 | the service, or 400, 409 or 404 |
| Frontends.DnsByCase | internal/dns/dns.go:32-73 | FORMERR, REFUSED, NXDOMAIN or NOERROR for every message, and which carry an address |
| Frontends.ProxyByCase | internal/daemon/proxy.go:47-63 | the service of the name normalized twice, else 409 or 404 |
| Frontends.ResolveByCase | internal/daemon/api.go:108-125 | 400 for an unusable name, else the service, 409 or 404 |
| Frontends.HandleServices | internal/daemon/api.go:62-74 | the control socket lists everything with conflicts, the peer listener local services only |
| Frontends.HandleAddService | internal/daemon/api.go:76-92 | the status, the stored service on success, and an unchanged directory on refusal |
| Frontends.HandleRemoveService | internal/daemon/api.go:94-106 | 204 exactly when a registration goes away and the directory changes, 409 exactly when the node serves the name without one, 404 exactly when it does not serve it |
| Frontends.RegistrationStatus | internal/daemon/api.go:76-92 | 409 exactly for a usable service whose name is configured or registered, 201 exactly when the directory changes, 400 otherwise |
| Frontends.RemovalStatus | internal/daemon/api.go:94-106 | what each status means, and that on success the name falls to the lower tiers while no other name's resolution changes |
| Frontends.FrontEndsAgree | internal/dns/dns.go:47-73 | for a valid name, however spelled to each, all serve the same service, or NXDOMAIN with both 409 or both 404 |
| Frontends.FrontEndsAgreeIff | internal/daemon/proxy.go:47-72 | in every reachable state they agree on a query exactly when one normalization was enough or nothing lies behind a second |
| Frontends.TwoDotsAreRoutedButRefused | internal/daemon/proxy.go:67-72 | a query with two trailing dots is routed but refused |
| Frontends.ListedIsAnswered | internal/dns/dns.go:47-73 | no listed name is refused by any front end, however it is spelled |
| Frontends.ConflictedNameResolvesIff | internal/daemon/proxy.go:50-61 | a conflicted name is answered 409 exactly when no other tier knows it, and is advertised only from configuration or registration |
| Frontends.ConflictedNameCanBeRemote | internal/registry/registry.go:197-201 | whatever else is advertised, a list that has a conflicted name routes it: to the advertising node unless a lower ID already provides it |

## Left out

- Sockets, HTTP transport, JSON, timeouts, tickers, shutdown: a fetch or a poll is its outcome, JSON is the identity.
- `httputil.ReverseProxy`, error pages, DNS wire format, and port stripping in `hostName`: the host is taken without its port.
- Unicode case folding and Unicode spaces in NormalizeName: only ASCII letters and spaces are folded and trimmed; labels are counted in characters, which for every accepted name are bytes.
- The wording of errors, log lines and conflict reasons: a reason is the data it is printed from.
- Log lines about peers becoming reachable or unreachable, and the `report` flag that selects them.
- Protocol.ValidateName: on characters outside ASCII which error is reported can differ; acceptance cannot.
- Choosing and reading the configuration file, its defaults and the default node ID: Reload takes what Load returned.
- Pulling peers first added by a reload, when the node started without any: no liveness across reloads is claimed.
- `/v1/resolve` on the peer listener, `/v1/status`, `/v1/nodes/{id}`: the puller calls none of them and the last two only repeat Nodes.
- Protocol.NormalizesIffSpells: only ASCII spellings; Unicode spaces, and characters outside ASCII that Go folds to an ASCII letter, spell names too.
- Protocol.NormalizeTwice: only ASCII spaces count as spaces.
- Discovery.RunsTellSkipsOnce: a container that becomes usable in between is told again, by design of ForgetSkips.
- Command line, systemd-resolved files, table printing.
