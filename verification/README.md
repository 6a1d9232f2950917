# NVSwitch fabric registry: a verified model

This project models the core of a generation-fenced registry for a switched GPU fabric and proves
what that core is for. The registry keeps an immutable snapshot of devices, switches, ports, links and
partitions; every change edits a copy, and one validator decides whether the copy becomes the next
snapshot. On top of it sit a bounded path search, route selection with a later re-check of authority, a
coordinator that fences the evidence of workers that are gone, a framed transport and a checksummed
persistent form.

| files | what they hold |
|---|---|
| `Fabric` | records, snapshots, integrity and limits |
| `Walks`, `Levels`, `Shortlex`, `Search`, `PathSearch`, `Sorting` | walks in a topology, the level-order enumeration and its shortlex order, the search as a relation and as a loop over a frontier, sorting with and without stability |
| `Reach`, `Keys`, `Route`, `Decision`, `RouteLaws` | reachability, canonical keys, ranking and filters, `computeRoute`, its laws |
| `Joining`, `Preference`, `Verdicts` | search, filters, ranking, answers, outcomes and authority stated independently of the functions that compute them: in the fields of devices, switches, ports, links and partitions, and by counting links |
| `RouteExact`, `RouteOrder` | exactly when a route is allowed although the search is cut off before the filters, by counting rivals and by the order of the search |
| `RouteAgreement`, `Selection`, `Ambiguity`, `SourceTies` | determinism; which path is selected, declaratively; which paths may be selected when the source has two links at one port, and when the outcome is determined |
| `Registry`, `RegistryLaws`, `Acceptance`, `FabricRegistry` | the twenty mutators as proposals to one validator, laws of steps and runs, exactly when removals and fencing succeed, the registry object |
| `Mutations`, `Refusals` | for each mutator, in record fields: which tables it leaves when it commits, when it commits, and which error it answers otherwise |
| `Authority`, `Suspension` | which operations advance a generation, permanent revocation, what expiry suspends and revalidation restores |
| `Protocol`, `Fencing`, `Abandonment`, `Coordinator`, `Listing`, `Sets` | the interleaved steps of many connections, safety and replay fencing, what becomes of safety without its hypotheses, the coordinator object, walking a table in some order, sizes of sets |
| `Sessions` | the same of the coordinator: which steps are ignored, what the others leave, and what every committed publication of a run goes back to |
| `Findings`, `RouteFindings`, `TieFindings`, `CoordinatorFindings` | concrete runs from the initial states on which a promise fails |
| `Wire`, `Crc`, `Framing` | little-endian fields, CRC-32 (section 8 of RFC 1952), frames and the incremental reader |
| `Codec`, `Persistence`, `Payload`, `Envelope`, `Store` | records as rows of fields, the field order of each record, the snapshot payload, the sealed form, the encoders and decoders as loops |
| `Formats` | the bytes of frames, files and records written out, which bytes each reader accepts, and its errors for all others |

Conventions. Enumerations are bytes, because the decoders cast whatever byte they read. Integers are
mathematical with explicit widths; a 64-bit increment wraps in `Fabric.Next`. Laws that do not depend on
what a heavy function computes take it as a parameter (`Checksum`, `Mutators`, `Registrar`), and are then
instantiated with the real one. Links, ports and so on are named by their map key; that the key equals the
record's id is part of what every snapshot is proved to satisfy. A mutator's guards and edit are a function to
a proposal (a candidate snapshot, or the error it refuses with); to settle a proposal is to commit it if the
validator passes it and otherwise to leave the state alone, with the matching error. A step performs an operation
by settling its proposal. Each method of the registry object is proved to perform the step of its operation and to
return that step's answer, so the laws of steps and runs hold of the object.

What turned out differently from what the code or its comments promise:

- Removing a switch does not always succeed when no partition lists it: a link whose end kind is neither
  device nor switch passes the validator as a switch end but is not cascaded
  (`Findings.StraySwitchStuck`; the exact condition is `Acceptance.RemoveSwitchExact`).
- Publishing a changed partition does not always advance its generation: existing generation 0 and incoming
  2^64-1 wrap to 0 and pass (`Findings.ChangeWithoutBump`; the exact condition is in `Authority.BumpExact`).
- An eligible route may be missed. Only maxAllowedHops+1 paths are enumerated, before any switch state is looked
  at, so paths that the filters then drop can crowd out one that would pass (`RouteFindings.TruncationStarves`, on a
  snapshot reached from the empty registry). Exactly: `RouteOrder.RoutedInOrder` and `RouteOrder.RoutedByCount`. By
  counting rivals: `RouteExact.RouteNecessary`, `RouteExact.RouteSufficient`, and an equivalence when the bounds hold
  fewer walks than are listed, `RouteExact.RoutedExactly`.
- Route decisions are promised to be deterministic, and they are when no two usable links attach the source to one
  port (`RouteAgreement.Deterministic`): the ranking is a stable sort. The sort of the device edges is not, and it
  compares the device and the port but not the link, so where two links share a port the language leaves the order in
  which they are tried open. Then the outcome may differ (`TieFindings.TieChangesOutcome`), and with a list that fills
  up even whether a route is allowed (`TieFindings.TieBlocksRoute`). Below the path bound everything else a caller sees
  agrees (`RouteAgreement.DecisionsAgree`), and the outcome is determined exactly when no two leading candidates differ
  in nothing but a degraded source link (`Ambiguity.OutcomeDetermined` with `SourceTies.RivalsAtSource`).
- Coordinator safety needs both its hypotheses: `CoordinatorFindings.BothHypothesesNeeded` gives a run from the
  coordinator's start against each. The exact conditions are `Fencing.ReRegistrationExact` and
  `Fencing.RefusedFencingExact`, and `Abandonment.HeldOrAbandoned` says what holds of every run without them.
- Restoring gives back the epoch stored in the snapshot, so a registry whose epoch is no longer its
  snapshot's is not restored exactly (`Envelope.RestoredExactly`). The header comment of
  `restoreFromAndRevalidate` says it advances the epoch; the code does not, and neither does the model.
- A policy that allows 2^64-1 hops never gets a route, because the path bound wraps to zero
  (`RouteLaws.UnlimitedHopsNeverRoute`).
- `deviceReachability` never answers REVALIDATION_REQUIRED (`Reach.RevalidationNeverAnswered`).

## Model

| member | source | states |
|---|---|---|
| `Fabric.CheckIntegrity` | src/topology.cpp:342-376 | reports no violation exactly when every reference in every table resolves, ports are within their switch bound and switch keys match |
| `Walks.Excise` | src/topology.cpp:186-188 | every partial walk has one through distinct switches, no longer, to the same switch: loops can be cut out |
| `Walks.SimpleWalkSuffices` | src/topology.cpp:183-209 | within any depth a usable walk exists if and only if one through distinct switches does |
| `Walks.WalkStaysInside` | src/topology.cpp:342-376 | with integrity, every switch a walk passes exists and is the root of the link by which the walk leaves it |
| `Levels.LevelExact` | src/topology.cpp:141-212 | the frontier's level n is exactly the usable partial walks through n+1 distinct switches |
| `Levels.FoundExact` | src/topology.cpp:141-212 | what is found below level n is exactly the usable simple walks through at most n switches |
| `Levels.FoundInOrder` | src/topology.cpp:141-212 | every walk is found once, shorter walks first |
| `Levels.IndexUnique` | src/topology.cpp:84-99 | the sorted adjacency index of a topology is unique, so the expansion order is deterministic |
| `Shortlex.FoundInShortlex` | src/topology.cpp:84-214 | walks are found in shortlex order: shorter first, then link by link, the first by its place among the seeds and each later one by (port, link) |
| `PathSearch.BuildIndex` | src/topology.cpp:84-99 | the filing and sorting loops build that index |
| `PathSearch.SeedFrontier` | src/topology.cpp:100-138 | the frontier starts with one partial for each usable attachment of the source, in device-edge order, ties in any order |
| `PathSearch.Expand` | src/topology.cpp:146-211 | expanding a partial appends its completed paths and its extensions up to the bounds |
| `PathSearch.DrainFrontier` | src/topology.cpp:141-213 | the frontier loop terminates and returns the level-order enumeration cut at the path bound |
| `PathSearch.EnumeratePaths` | src/topology.cpp:69-214 | the whole search: sound, bounded, duplicate-free, shortest first, and missing a walk only when the list is full of walks no longer |
| `Search.EnumerationExact` | src/topology.cpp:69-214 | the cut level-order enumeration answers the declarative search |
| `Search.SearchComplete` | src/topology.cpp:69-214 | below the path bound the link sequences are exactly the usable walks through distinct switches within the depth, each once |
| `Search.FoundIffConnected` | src/topology.cpp:69-214 | something is found if and only if some usable walk, loops allowed, joins the endpoints within the depth |
| `Joining.WalkMeans` | src/topology.cpp:141-212 | a walk joins two devices if and only if each link and its port are UP or DEGRADED, the first ends at the source, the last at the destination, and each one between goes from the switch reached to the next |
| `Joining.TargetMeans` | src/topology.cpp:141-212 | a search looks for the joining walks through distinct switches, at most as many as its depth |
| `Joining.ReversePortMeans` | src/topology.cpp:190-206 | the inbound port of a later hop is the lowest port of that switch with a link back, whatever its state, and unknown without one |
| `Joining.PathRecords` | src/topology.cpp:146-209 | the path of a walk records each switch with the port it is entered and left by and how, and is DEGRADED exactly when a link carries the degraded mark |
| `Joining.SearchMeans` | src/topology.cpp:69-214 | enumeratePaths lists such recorded paths of such walks, each once, shortest first, at most maxPaths, and misses one only when the list is full of paths no longer; nothing for unusable or equal endpoints or zero bounds |
| `Reach.FindLast` | src/topology.cpp:250-258 | the partition loop finds the greatest-keyed live partition holding the given devices, or that there is none |
| `Reach.DeviceReachability` | src/topology.cpp:219-280 | the answer follows the code's order of endpoint, partition and path checks on some answer of the search |
| `Reach.ReachableExactly` | src/topology.cpp:219-280 | REACHABLE or REACHABLE_DEGRADED if and only if both endpoints are usable, their last live partitions do not differ and a usable walk joins them within depth 16 |
| `Reach.RevalidationNeverAnswered` | src/topology.cpp:237-274 | REVALIDATION_REQUIRED is never answered, since an expired switch already counts as down |
| `Verdicts.GovernedMeans` | src/topology.cpp:250-258 | the partition found is, of those neither stale nor awaiting revalidation that have the devices as members, the one whose name comes last |
| `Verdicts.EndpointAnswers` | src/topology.cpp:219-237 | the answers for devices that are unknown, equal, awaiting revalidation, unsupported or lost |
| `Verdicts.PathAnswers` | src/topology.cpp:237-280 | for all others: blocked when the devices' governing partitions differ; with nothing listed SWITCH_DOWN, PORT_DOWN or NOT_REACHABLE by the states of switches and then of ports; REACHABLE if and only if a listed path has no degraded link, and REACHABLE_DEGRADED if and only if paths are listed and every one has |
| `Verdicts.ReachableMeans` | src/topology.cpp:219-280 | below the path bound, about the fabric alone: REACHABLE if and only if the endpoints are usable, their partitions do not differ and some joining walk within depth 16 has no degraded link; REACHABLE_DEGRADED if and only if there are such walks and each has one |
| `Keys.BuildKey` | src/path.cpp:4-19 | the loop over hops builds the canonical key |
| `Keys.KeyIdentifiesPath` | src/path.cpp:4-19 | two recorded paths have equal keys if and only if endpoints and hops are equal |
| `Keys.KeyExample` | src/path.cpp:4-19 | the key of a two-hop path written out in full, ports, unknown port and exits included |
| `Keys.StrLessMeans` | src/route.cpp:283 | the order on strings looks at the first place where two strings part: one has ended there or has the lesser element |
| `RouteLaws.EnumeratedKeys` | src/path.cpp:4-19 | two paths enumerated on one topology with integrity have equal keys if and only if endpoints and hops are equal |
| `Route.RankingTotal` | src/route.cpp:273-288 | ranking is a total preorder, and two paths tie if and only if their factor vectors and keys are equal |
| `Route.Rank` | src/route.cpp:273-285 | sorting the eligible paths gives a sorted permutation of them that keeps tied paths in the order of enumeration |
| `Route.RankingUnique` | src/route.cpp:273-285 | such a ranking is unique |
| `Route.FrontIsBest` | src/route.cpp:273-291 | the selected path is at least as good as every eligible one |
| `Route.SelectionIgnoresOrder` | src/route.cpp:273-291 | permuting the eligible list changes neither the winner's factor vector nor its key |
| `Preference.FactorScores` | src/route.cpp:64-120 | every factor's score of a recorded path by counting its links: their number, how many are UP, how many carry the degraded mark, whether any does |
| `Preference.BetterMeans` | src/route.cpp:276-284 | one path ranks before another if and only if the first factor that is not indifferent prefers it by those counts, or none decides and its key comes first |
| `Preference.TiedMeans` | src/route.cpp:276-284 | score vectors are equal if and only if every factor is indifferent |
| `Route.EligibleExact` | src/route.cpp:204-250 | the eligible list holds exactly the enumerated paths that pass every filter, with their generations captured |
| `Route.FilterPaths` | src/route.cpp:204-250 | the filter loop computes the eligible list |
| `Joining.EligibleMeans` | src/route.cpp:204-237 | a joining walk's path passes the filters if and only if its switches serve, every recorded entry port is unknown or not awaiting revalidation, and no link is degraded where the policy forbids it |
| `Joining.BoundsMean` | src/route.cpp:182-186 | the depth a policy allows is its hops but at most 16; the paths it lets the search list are one more than its hops, at most 65536, none when that wraps |
| `Joining.AdmissibleMeans` | src/route.cpp:182-237 | the walks a policy admits are those that join the devices within that depth and pass those filters |
| `Joining.AheadMeans` | src/topology.cpp:84-99 | one walk is ahead of another when it is shorter, or leaves by the lower port, or by the same port and the lower link, where they part |
| `Decision.ComputeRoute` | src/route.cpp:124-299 | the decision is what the endpoint gate, partition gate, search, filters and ranking amount to |
| `Decision.AllowedRests` | src/route.cpp:142-291 | an allowed decision rests on a searched, eligible, best-ranked path and the governing partition |
| `Verdicts.EndpointOutcomes` | src/route.cpp:142-151 | endpoints missing, absent, equal or not serving are answered NO_ROUTE or REVALIDATION_REQUIRED, with nothing selected and no partition |
| `Verdicts.PartitionOutcomes` | src/route.cpp:153-175 | where the policy keeps to partitions, some are neither stale nor awaiting revalidation and none of those has both devices, the outcome is STALE_PARTITION when some partition is stale and PARTITION_BLOCKED otherwise |
| `Verdicts.StalePartitionExactly` | src/route.cpp:142-175 | STALE_PARTITION is answered in that case and in no other |
| `Verdicts.PartitionRecorded` | src/route.cpp:176-180 | past both gates the decision names the governing partition and its generation, or that there is none |
| `Verdicts.NothingFound` | src/route.cpp:182-202 | when no walk joins the devices within the policy's bounds: blocked when their partitions differ, NO_ROUTE when only the bounds are in the way, and otherwise SWITCH_DOWN, PORT_DOWN or NO_ROUTE by the states of switches and then of ports |
| `Verdicts.PathsFound` | src/route.cpp:251-299 | when some does: allowed, degraded if and only if the selected path has a degraded link, or nothing selected and STALE_SWITCH if and only if some switch awaits revalidation |
| `Verdicts.AllowedMeans` | src/route.cpp:142-299 | an allowed decision had serving endpoints, was not confined, had a walk to find, and is under the governing partition, which is neither stale nor awaiting revalidation |
| `Verdicts.AuthorityMeans` | src/route.cpp:301-341 | a decision is authoritative if and only if it is an allowed one of the snapshot's epoch, both devices are UP, PRESENT or DEGRADED, its partition stands at its generation and is neither stale nor awaiting revalidation, and each captured switch and port is UP or DEGRADED at its generation |
| `Preference.ScoresMean` | src/route.cpp:289-291 | the reported scores are those of the selected path, one for each factor of the policy, in order |
| `RouteLaws.SelectedMeansAllowed` | src/route.cpp:188-299 | a decision has a selected path if and only if its outcome is an allowed one |
| `RouteLaws.OptimalDespiteTruncation` | src/route.cpp:182-288 | with FEWER_SWITCHES first, the selected path has the fewest switches of all eligible paths within the depth bound, listed or cut off |
| `RouteLaws.UnlimitedHopsNeverRoute` | src/route.cpp:184-187 | with 2^64-1 allowed hops the path bound wraps and nothing is ever allowed |
| `RouteLaws.ExitsUsable` | src/topology.cpp:150-152 | every exit port of an enumerated path exists and is UP or DEGRADED |
| `RouteLaws.FreshAuthority` | src/route.cpp:301-341 | a fresh allowed decision is authoritative on its own snapshot if and only if the epoch matches and its switches and recorded inbound ports are UP or DEGRADED |
| `RouteLaws.RouteAgreesWithReachability` | src/topology.cpp:250-280 | an allowed route is reachable if and only if the endpoints' last live partitions do not differ |
| `RouteLaws.DisjointPartitionsAgree` | src/route.cpp:153-180 | with member-disjoint live partitions and a policy that stays inside one, an allowed route is REACHABLE or REACHABLE_DEGRADED |
| `RouteExact.AllowedByList` | src/route.cpp:182-299 | a decision is allowed if and only if the gates are open and the enumeration it rests on lists a walk that passes the filters |
| `RouteExact.RouteNecessary` | src/route.cpp:182-299 | on every fabric and policy, an allowed route needs open gates, a possible search and an admissible walk with fewer strictly shorter walks than the search lists |
| `RouteExact.RouteSufficient` | src/route.cpp:182-299 | on every fabric and policy, those with fewer inadmissible walks no longer than an admissible one than the search lists make the route allowed |
| `RouteExact.RoutedExactly` | src/route.cpp:142-299 | when the bounds hold fewer walks than the search lists, whatever the states and the policy, a route is allowed if and only if the gates are open, a search is possible and some walk within the bounds passes every filter |
| `RouteExact.FilteredOut` | src/route.cpp:265-271 | when walks exist but nothing is allowed, the outcome is STALE_SWITCH or NO_ROUTE according to whether any switch has expired |
| `RouteExact.AdmissibleWalk` | src/route.cpp:204-237 | without expired ports and under a tolerant policy, a walk passes the filters if and only if all its switches are current |
| `RouteExact.SettledRoutes` | src/route.cpp:142-299 | with every switch current as well, truncation does not matter: a route is allowed if and only if the gates are open, a search is possible and any usable walk joins the endpoints within the depth |
| `RouteExact.ListedEligible` | src/route.cpp:204-237 | on such a fabric every enumerated path passes every filter |
| `RouteOrder.RoutedInOrder` | src/route.cpp:182-299 | on every searchable fabric and under every policy, a route is allowed if and only if the gates are open and an admissible walk is among the first maxPaths of the level order |
| `RouteOrder.OrderUnique` | src/topology.cpp:84-214 | when no two usable links attach the source to one port there is only one level order |
| `RouteOrder.RoutedByRank` | src/route.cpp:182-299 | then the condition is about the fabric alone: the rank of an admissible walk in that order |
| `RouteOrder.RoutedByCount` | src/route.cpp:182-299 | and without the search: the gates are open, a search is possible, and some admissible walk has fewer walks ahead of it, by length and then by (port, link) link by link, than the search lists |
| `RouteFindings.TruncationStarves` | src/route.cpp:182-270 | a concrete snapshot reached from the empty registry with an admissible path on which every decision is NO_ROUTE |
| `RouteAgreement.DecisionUnique` | src/route.cpp:124-299 | one order of the source's links gives one decision, truncated or not |
| `RouteAgreement.Deterministic` | src/route.cpp:124-299 | when no two usable links attach the source to one port, any two decisions on one snapshot, policy, measurement and epoch are equal |
| `RouteAgreement.DecisionsAgree` | src/route.cpp:124-299 | for any source, below the path bound, two such decisions agree on partition, scores, selected key and allowedness, and on the outcome when nothing is allowed or degradation is a factor |
| `Selection.SelectionExact` | src/route.cpp:182-291 | on every fabric and policy with open gates and a possible search, a path is selected if and only if it outranks every other candidate within reach: better, or tied and earlier in the search |
| `Selection.AllowedFrom` | src/route.cpp:182-299 | and a route is allowed if and only if some candidate is within reach |
| `Selection.SelectedExactly` | src/route.cpp:124-299 | with a singly attached source, a path is selected if and only if the gates are open, a search is possible and the path is preferred, by rank and then by length and (port, link), to every other candidate within reach |
| `Preference.CandidateMeans` | src/route.cpp:204-250 | a candidate is the recorded path of an admitted walk, with the generation of every switch and port of it captured as the snapshot has it |
| `Preference.CandidateExists` | src/route.cpp:204-250 | and every admitted walk has one |
| `Preference.CandidatesListed` | src/route.cpp:286-287 | an allowed decision lists as candidates exactly the candidates within reach |
| `Preference.SelectedComesFirst` | src/route.cpp:273-288 | on every fabric and policy the selected path is preferred to every other candidate within reach by the first factor that is not indifferent, or by key, or nothing tells them apart and the search came to it first |
| `Preference.FactorDecides` | src/route.cpp:64-120 | where the factors before it are indifferent, no other candidate within reach has fewer switches, more switches under REDUNDANCY, more active weight, a clean path against a degraded one under DEGRADATION, or fewer degraded links under CONGESTION_EVIDENCE than the selected path |
| `Preference.SelectedWins` | src/route.cpp:124-299 | with a singly attached source, a path is selected if and only if the gates are open, a search is possible and it wins by those preferences against every other candidate within reach |
| `Ambiguity.SelectableExactly` | src/topology.cpp:104-138 | with integrity and below the path bound, the paths that decisions on one snapshot may select are exactly the leading candidates: best, and first by (port, link) of the best with their first link |
| `Ambiguity.OutcomeDetermined` | src/topology.cpp:104-138 | with integrity and below the path bound, all decisions have one outcome if and only if no route would be allowed or all leading candidates agree in being degraded |
| `SourceTies.RivalsAtSource` | src/topology.cpp:104-138 | with integrity, two leading candidates, the first degraded and the second not, are exactly two that leave the source by links of one port, one degraded and one not, and agree on the rest, none of it degraded |
| `TieFindings.TieChangesOutcome` | src/topology.cpp:104-138 | a concrete snapshot reached from the empty registry, no path cut off, on which every decision has a counterpart with another, allowed, outcome |
| `TieFindings.TieBlocksRoute` | src/topology.cpp:104-138 | on the same snapshot, under a policy that lists two paths, every decision has a counterpart that allows a route exactly when it does not |
| `Registry.Degrade` | src/fabric_registry.cpp:333-343 | merging congestion keeps every link, its id and its generation |
| `RegistryLaws.Staged` | src/fabric_registry.cpp:406-414 | staging keeps every key and leaves every record under its own id |
| `RegistryLaws.StagedLast` | src/fabric_registry.cpp:406-414 | the last record staged under a key is the one that stays |
| `RegistryLaws.StagedFrom` | src/fabric_registry.cpp:406-414 | whatever a bulk edit leaves came from the edit or was there before |
| `RegistryLaws.CandidateKeeps` | src/fabric_registry.cpp:79-427 | every mutator's candidate is keyed by id and one wrapping topology generation on, but for fencing an incarnation that owns nothing |
| `RegistryLaws.EntitySpared` | src/fabric_registry.cpp:79-427 | only the removals make a switch, port, link or partition disappear |
| `RegistryLaws.StepWellFormed` | src/fabric_registry.cpp:50-75 | every step keeps integrity, keys and limits, and no shared entity goes back in generation |
| `RegistryLaws.StepHonest` | src/fabric_registry.cpp:38-49 | a committed snapshot is SYNTHETIC exactly when some record is, REAL exactly when some record is and none is synthetic, and takes the next id and the epoch |
| `RegistryLaws.StepAdvances` | src/fabric_registry.cpp:73-75 | a committed step strictly increases the topology generation if and only if it is not a fencing that matched nothing, although the increment wraps |
| `RegistryLaws.RegistryAdvances` | src/fabric_registry.cpp:73-75 | the same in every state the registry reaches from its constructor |
| `RegistryLaws.RunWellFormed` | src/fabric_registry.cpp:50-75 | every snapshot of every run from a well-formed one is well formed |
| `RegistryLaws.RunHonest` | src/fabric_registry.cpp:38-49 | every snapshot a run produced is honest about provenance |
| `RegistryLaws.RunFromStart` | src/fabric_registry.cpp:20-26 | both hold of every run from the empty registry |
| `RegistryLaws.GenGrows` | src/fabric_registry.cpp:59-73 | over any run the generation of a continuously present switch, port, link or partition never decreases |
| `RegistryLaws.SparedThroughout` | src/fabric_registry.cpp:79-427 | an entity no event removes is present in every snapshot of the run |
| `Acceptance.RemoveDeviceExact` | src/fabric_registry.cpp:92-107 | below the last topology generation, succeeds if and only if the device exists and no partition lists it |
| `Acceptance.RemovePortExact` | src/fabric_registry.cpp:190-201 | below the last topology generation, succeeds if and only if the port exists |
| `Acceptance.RemoveSwitchExact` | src/fabric_registry.cpp:121-133 | below the last topology generation, succeeds if and only if the switch exists, no partition lists it and no link rooted elsewhere names it as an end of unknown kind |
| `Acceptance.InvalidateExact` | src/fabric_registry.cpp:359-374 | fencing commits if and only if no generation it has to advance is the last one |
| `Acceptance.ExpireExact` | src/fabric_registry.cpp:375-390 | expiry commits if and only if the topology generation is not the last one |
| `Acceptance.RevalidateExact` | src/fabric_registry.cpp:391-405 | revalidation commits if and only if the topology generation is not the last one |
| `FabricRegistries.EraseWhere` | src/fabric_registry.cpp:97-100 | the erasing loop leaves exactly the records that do not meet the condition |
| `FabricRegistries.NoneDecreased` | src/fabric_registry.cpp:59-72 | the generation loop passes exactly when no shared record goes back |
| `FabricRegistries.Finalize` | src/fabric_registry.cpp:38-49 | the provenance flags settle the candidate's provenance |
| `FabricRegistries.Validate` | src/fabric_registry.cpp:50-75 | accepts exactly the candidates with integrity, within limits and not behind in any generation |
| `FabricRegistries.FabricRegistry.constructor` | src/fabric_registry.cpp:20-26 | the empty snapshot with id 1, next id 2 |
| `FabricRegistries.FabricRegistry.Submit` | src/fabric_registry.cpp:86-90 | a valid candidate becomes the snapshot under the next id and the current epoch; any other leaves the object unchanged |
| `FabricRegistries.FabricRegistry.AddDevice` | src/fabric_registry.cpp:79-91 | performs the step and returns its answer: adding a device |
| `FabricRegistries.FabricRegistry.RemoveDevice` | src/fabric_registry.cpp:92-107 | performs the step and returns its answer: the cascading removal of a device |
| `FabricRegistries.FabricRegistry.AddSwitch` | src/fabric_registry.cpp:108-120 | performs the step and returns its answer: adding a switch |
| `FabricRegistries.FabricRegistry.RemoveSwitch` | src/fabric_registry.cpp:121-133 | performs the step and returns its answer: the cascading removal of a switch |
| `FabricRegistries.FabricRegistry.SetSwitchState` | src/fabric_registry.cpp:134-155 | performs the step and returns its answer: the state change, with a generation advance on failure states |
| `FabricRegistries.FabricRegistry.RestartSwitch` | src/fabric_registry.cpp:156-171 | performs the step and returns its answer: the restart at a generation not below the current one |
| `FabricRegistries.FabricRegistry.AddPort` | src/fabric_registry.cpp:172-189 | performs the step and returns its answer: adding a port, growing the switch's port count |
| `FabricRegistries.FabricRegistry.RemovePort` | src/fabric_registry.cpp:190-201 | performs the step and returns its answer: the cascading removal of a port |
| `FabricRegistries.FabricRegistry.SetPortState` | src/fabric_registry.cpp:202-220 | performs the step and returns its answer: the state change, with a generation advance on failure states |
| `FabricRegistries.FabricRegistry.AddLink` | src/fabric_registry.cpp:221-238 | performs the step and returns its answer: adding a link |
| `FabricRegistries.FabricRegistry.RemoveLink` | src/fabric_registry.cpp:239-249 | performs the step and returns its answer: the removal of a link |
| `FabricRegistries.FabricRegistry.SetLinkState` | src/fabric_registry.cpp:250-267 | performs the step and returns its answer: the state change, with a generation advance on failure states |
| `FabricRegistries.FabricRegistry.PublishPartition` | src/fabric_registry.cpp:268-301 | performs the step and returns its answer: the publication, moving past both generations when membership, fabric or state changed |
| `FabricRegistries.FabricRegistry.RemovePartition` | src/fabric_registry.cpp:302-312 | performs the step and returns its answer: the removal of a partition |
| `FabricRegistries.FabricRegistry.MarkPartitionStale` | src/fabric_registry.cpp:313-326 | performs the step and returns its answer: the change to stale, with a generation advance when it is new |
| `FabricRegistries.FabricRegistry.PublishCongestion` | src/fabric_registry.cpp:335-352 | performs the step and returns its answer: the merge of observed link degradation |
| `FabricRegistries.FabricRegistry.InvalidateForWorker` | src/fabric_registry.cpp:359-374 | performs the step and returns its answer: the fencing of one incarnation |
| `FabricRegistries.FabricRegistry.ExpireDynamicEvidence` | src/fabric_registry.cpp:375-390 | performs the step and returns its answer: the expiry of worker-owned and real evidence |
| `FabricRegistries.FabricRegistry.RevalidateAll` | src/fabric_registry.cpp:391-405 | performs the step and returns its answer: the return of lapsed records to service |
| `FabricRegistries.FabricRegistry.ApplyBulk` | src/fabric_registry.cpp:406-421 | performs the step and returns its answer: the bulk edit as a whole |
| `Mutations.AddDeviceLeaves` | src/fabric_registry.cpp:79-91 | what it commits: the devices are the old ones and the new record under its id, and nothing else has changed |
| `Mutations.RemoveDeviceLeaves` | src/fabric_registry.cpp:92-107 | what it commits: the devices are the old ones without it; a link stays, unchanged, if and only if it does not end at that device; switches, ports and partitions are as before |
| `Mutations.AddSwitchLeaves` | src/fabric_registry.cpp:108-120 | what it commits: the switches are the old ones and the new record, and nothing else has changed |
| `Mutations.RemoveSwitchLeaves` | src/fabric_registry.cpp:121-133 | what it commits: the switches are the old ones without it; a port stays if and only if it is on another switch, a link if and only if it neither is rooted there nor ends there as a switch end; devices and partitions are as before |
| `Mutations.SetSwitchStateLeaves` | src/fabric_registry.cpp:134-155 | what it commits: the named switch is in the given state, one generation on if that is a failure state, and every other record is as before |
| `Mutations.RestartSwitchLeaves` | src/fabric_registry.cpp:156-171 | what it commits: the named switch awaits revalidation at the given generation, and every other record is as before |
| `Mutations.AddPortLeaves` | src/fabric_registry.cpp:172-189 | what it commits: the ports are the old ones and the new record, and its switch has grown to hold the port's index if it did not |
| `Mutations.RemovePortLeaves` | src/fabric_registry.cpp:190-201 | what it commits: the ports are the old ones without it; a link stays if and only if it leaves by another port; the rest is as before |
| `Mutations.SetPortStateLeaves` | src/fabric_registry.cpp:202-220 | what it commits: the named port is in the given state, one generation on if that is a failure state or DISABLED, and every other record is as before |
| `Mutations.AddLinkLeaves` | src/fabric_registry.cpp:221-238 | what it commits: the links are the old ones and the new record, and nothing else has changed |
| `Mutations.RemoveLinkLeaves` | src/fabric_registry.cpp:239-249 | what it commits: the links are the old ones without it, and nothing else has changed |
| `Mutations.SetLinkStateLeaves` | src/fabric_registry.cpp:250-267 | what it commits: the named link has the given state and mark, one generation on if that is a failure state, and every other record is as before |
| `Mutations.PublishPartitionLeaves` | src/fabric_registry.cpp:268-301 | what it commits: the partition is there under its id: a new one at its own generation but at least 1, a known one at the greater of both generations, one more when its members as a multiset, its fabric or its state changed |
| `Mutations.RemovePartitionLeaves` | src/fabric_registry.cpp:302-312 | what it commits: the partitions are the old ones without it, and nothing else has changed |
| `Mutations.MarkPartitionStaleLeaves` | src/fabric_registry.cpp:313-326 | what it commits: the named partition is stale, one generation on if it was not, and every other record is as before |
| `Mutations.PublishCongestionLeaves` | src/fabric_registry.cpp:335-352 | what it commits: each link has the mark of the last known observation of it and is DEGRADED if any observation marked it, and is otherwise as before |
| `Mutations.InvalidateLeaves` | src/fabric_registry.cpp:359-374 | what it commits: the records the incarnation reported await revalidation, one generation on but for devices, and all others are as before |
| `Mutations.ExpireLeaves` | src/fabric_registry.cpp:375-390 | what it commits: the records a worker reported or that are REAL await revalidation at their generation, and all others are as before |
| `Mutations.RevalidateLeaves` | src/fabric_registry.cpp:391-405 | what it commits: the records that were stale or awaiting revalidation are UP, partitions ACTIVE, at their generation, and all others are as before |
| `Mutations.ApplyBulkLeaves` | src/fabric_registry.cpp:406-421 | what it commits: each table has, under every key the edit brings, the last record it brings, and under every other key what it had |
| `Mutations.StepLeaves` | src/fabric_registry.cpp:50-90 | a refused operation leaves everything as it was; a committed one leaves those tables under the next snapshot id, the registry's epoch and one topology generation on, but for a fencing with nothing to fence, labelled SYNTHETIC, REAL or neither by its records |
| `Mutations.LeavesDetermines` | src/fabric_registry.cpp:79-421 | these contracts leave nothing open: at most one set of tables meets each |
| `Refusals.ValidMeans` | src/fabric_registry.cpp:50-75 | a candidate is accepted if and only if every reference resolves, ports are below index 256, counts are within 1024, 256, 65536, 131072 and 256, and no generation is behind |
| `Refusals.AnswersExactly` | src/fabric_registry.cpp:79-421 | each error is answered if and only if its own check is the first to fail, and none if and only if the operation commits |
| `Refusals.AddDeviceExact` | src/fabric_registry.cpp:79-91 | commits if and only if the id is new, there are fewer than 1024 devices and the topology generation is not the last |
| `Refusals.AddSwitchExact` | src/fabric_registry.cpp:108-120 | commits if and only if the id is new, there are fewer than 256 switches and the topology generation is not the last |
| `Refusals.SetSwitchStateExact` | src/fabric_registry.cpp:134-155 | commits if and only if the switch exists and no generation it has to advance is the last |
| `Refusals.RestartSwitchExact` | src/fabric_registry.cpp:156-171 | commits if and only if the switch exists at no greater generation and the topology generation is not the last |
| `Refusals.AddPortExact` | src/fabric_registry.cpp:172-189 | commits if and only if its switch exists, the port is new with index below 256, there are fewer than 65536 and the topology generation is not the last |
| `Refusals.SetPortStateExact` | src/fabric_registry.cpp:202-220 | commits if and only if the port exists and no generation it has to advance is the last |
| `Refusals.AddLinkExact` | src/fabric_registry.cpp:221-238 | commits if and only if root, port and end exist and agree, an end of unknown kind included, the id is new, there are fewer than 131072 and the topology generation is not the last |
| `Refusals.RemoveLinkExact` | src/fabric_registry.cpp:239-249 | commits if and only if the link exists and the topology generation is not the last |
| `Refusals.SetLinkStateExact` | src/fabric_registry.cpp:250-267 | commits if and only if the link exists and no generation it has to advance is the last |
| `Refusals.PublishPartitionExact` | src/fabric_registry.cpp:268-301 | commits if and only if every member and switch exists, there is room, the topology generation is not the last, and the change does not wrap a generation above zero |
| `Refusals.RemovePartitionExact` | src/fabric_registry.cpp:302-312 | commits if and only if the partition exists and the topology generation is not the last |
| `Refusals.MarkPartitionStaleExact` | src/fabric_registry.cpp:313-326 | commits if and only if the partition exists and no generation it has to advance is the last |
| `Refusals.PublishCongestionExact` | src/fabric_registry.cpp:335-352 | commits if and only if the topology generation is not the last |
| `Refusals.ApplyBulkExact` | src/fabric_registry.cpp:406-421 | commits if and only if the tables it leaves hold together, are within the limits and nowhere behind, and the topology generation is not the last |
| `Authority.BumpExact` | src/fabric_registry.cpp:134-421 | a committed step increases the generation of an entity that survives it if and only if it is one of the bumping operations on it; the one changed publication that does not is characterised |
| `Authority.DecisionCaptures` | src/route.cpp:240-250 | an allowed decision captured every switch and port of its path and its partition, at the generations of its own snapshot |
| `Authority.AuthorityNeedsGen` | src/route.cpp:301-341 | authority requires every captured entity at exactly its captured generation |
| `Authority.PermanentRevocation` | src/route.cpp:301-341 | decide, run, bump a traversed switch, port or partition, run on, revalidation included: if the entity is never removed the decision is not authoritative |
| `Suspension.ExpirySuspendsExactly` | src/fabric_registry.cpp:375-390 | a committed expiry leaves authoritative exactly the grounded decisions of the epoch that rest on nothing worker-owned or real |
| `Suspension.RevalidationRestoresExactly` | src/fabric_registry.cpp:391-405 | a committed revalidation makes authoritative exactly the decisions of the epoch whose captured generations stand and whose entities were usable or lapsed |
| `Suspension.SuspensionEnds` | src/fabric_registry.cpp:375-405 | an authoritative decision is authoritative again after expiry and revalidation, unlike after a generation advance |
| `Protocol.RegistryRun` | src/runtime/coordinator.cpp:131-243 | the registry of every coordinator run is a registry run, so all laws of runs hold of it |
| `Protocol.EnrolKeepsBoots` | src/runtime/coordinator.cpp:145-163 | an admitted registration keeps the boot invariant, re-registration included |
| `Protocol.CloseKeepsBoots` | src/runtime/coordinator.cpp:221-222 | a close keeps the boot invariant |
| `Protocol.BootsThroughout` | src/runtime/coordinator.cpp:145-163 | over all interleavings the highest boot never decreases, an active boot equals the highest, and no two live connections hold the same incarnation |
| `Protocol.CoordinatorBoots` | src/runtime/coordinator.cpp:145-163 | the same of every run of the coordinator from its start |
| `Listing.StagedTable` | src/runtime/coordinator.cpp:121-128 | staging the records of a table overlays it, whatever order they were walked in |
| `Coordinators.PublicationOverlays` | src/runtime/coordinator.cpp:121-128 | a publication overlays the snapshot with its records, all marked with the publisher's worker and boot |
| `Coordinators.Coordinator.constructor` | src/runtime/coordinator.cpp:80-80 | an empty registry and empty tables |
| `Coordinators.Coordinator.Accept` | src/runtime/coordinator.cpp:104-114 | performs the accept step: a connection without an incarnation, below the connection limit |
| `Coordinators.Coordinator.Register` | src/runtime/coordinator.cpp:145-163 | performs the registration step |
| `Coordinators.Coordinator.ApplyWorkerTopology` | src/runtime/coordinator.cpp:121-129 | applies a listing of the topology's records, each marked, in one bulk edit |
| `Coordinators.Coordinator.Publish` | src/runtime/coordinator.cpp:164-181 | performs the publication step |
| `Coordinators.Coordinator.PublishBlob` | src/runtime/coordinator.cpp:164-181 | a blob too long or undecodable changes nothing; any other is published as the well-formed topology it decodes to |
| `Coordinators.Coordinator.Close` | src/runtime/coordinator.cpp:221-227 | performs the closing step |
| `Coordinators.Coordinator.Restore` | src/runtime/coordinator.cpp:233-243 | performs the two steps of a restore of a decoded snapshot |
| `Coordinators.Coordinator.RestoreFrom` | src/runtime/coordinator.cpp:230-243 | bytes that do not deserialize leave everything as it was and return the error; any others are restored in the two steps |
| `Sessions.IgnoredChangesNothing` | src/runtime/coordinator.cpp:104-181 | a publication under another epoch or from a connection that does not hold exactly its incarnation, a registration under an old epoch or boot or of the active incarnation, and a connection above the limit leave everything as it was, whatever the registry does |
| `Sessions.StepTaken` | src/runtime/coordinator.cpp:104-243 | what any other step leaves: a registration makes the connection the incarnation and its boot the highest and active one; a publication applies its records, each marked; a close fences the incarnation and retires it only if it was the active one; the steps of a restore |
| `Sessions.TookDetermines` | src/runtime/coordinator.cpp:104-243 | these contracts determine the state a step leaves |
| `Sessions.PublicationLands` | src/runtime/coordinator.cpp:164-181 | a publication that changes the registry commits a snapshot under the message's own epoch that holds every record it ends with, marked, over the old tables |
| `Sessions.PublicationsCurrent` | src/runtime/coordinator.cpp:145-181 | in every run from the start, each such publication carried the epoch of its own snapshot and was made under the incarnation its connection holds, which an earlier admitted registration on that connection put there |
| `Fencing.PublishedOwn` | src/runtime/coordinator.cpp:121-129 | a publication adds unfenced evidence only of its own incarnation |
| `Fencing.FencedGone` | src/fabric_registry.cpp:359-374 | after a fencing no evidence of the incarnation is unfenced and none is added |
| `Fencing.ExpiredGone` | src/fabric_registry.cpp:375-390 | after an expiry no worker-tagged evidence is unfenced |
| `Fencing.FencingCommits` | src/fabric_registry.cpp:359-374 | from a well-formed snapshot whose generations can advance, fencing never fails |
| `Fencing.StepSafe` | src/runtime/coordinator.cpp:131-243 | every step of every connection keeps coordinator safety |
| `Fencing.CoordinatorSafety` | src/runtime/coordinator.cpp:121-243 | over all interleavings in which connections register once and generations stay below the last, outside a restore, every worker-tagged record not awaiting revalidation has a live connection holding exactly its incarnation |
| `Fencing.ReRegistrationExact` | src/runtime/coordinator.cpp:145-163 | from a safe state with the boot invariant, an admitted second registration on a connection keeps safety if and only if the first incarnation left nothing unfenced |
| `Fencing.RefusedFencingExact` | src/runtime/coordinator.cpp:221-222 | a refused fencing keeps safety if and only if there was nothing to fence |
| `Fencing.ReplayFenced` | src/fabric_registry.cpp:406-421 | after a fencing and any run, an edit carrying a still-present fenced entity at or below its pre-fence generation is rejected whole and changes nothing |
| `Fencing.PublicationFenced` | src/runtime/coordinator.cpp:164-181 | the same through the coordinator, for every connection and every interleaving after the close |
| `Abandonment.HeldOrAbandoned` | src/runtime/coordinator.cpp:121-243 | in every run from the start, without hypotheses and outside a restore, every unfenced incarnation is held by a live connection or was given up in that run by a second registration, a refused fencing or a refused expiry |
| `Fencing.RegistryReplayFenced` | src/fabric_registry.cpp:406-421 | `ReplayFenced` of the registry's own mutators |
| `Fencing.CoordinatorReplayFenced` | src/runtime/coordinator.cpp:164-181 | `PublicationFenced` of the coordinator's own steps |
| `Findings.Loaded` | src/fabric_registry.cpp:406-421 | every well-formed fabric is one bulk edit away from the empty registry |
| `Findings.StraySwitchStuck` | src/fabric_registry.cpp:121-133 | a run from the empty registry after which a switch no partition lists cannot be removed |
| `Findings.ChangeWithoutBump` | src/fabric_registry.cpp:268-301 | a run from the empty registry after which a partition change commits and keeps the generation |
| `CoordinatorFindings.ReRegistrationUnsafe` | src/runtime/coordinator.cpp:145-163 | a run from the start, generations low throughout, in which a re-registration leaves unfenced evidence nobody holds |
| `CoordinatorFindings.LastGenerationUnsafe` | src/runtime/coordinator.cpp:221-222 | a run from the start, each connection registering once, in which a close cannot fence evidence at the last generation |
| `CoordinatorFindings.BothHypothesesNeeded` | src/runtime/coordinator.cpp:145-222 | neither hypothesis of coordinator safety can be dropped: one run from the start against each, of the registry's own mutators |
| `CoordinatorFindings.SafeUnderBoth` | src/runtime/coordinator.cpp:121-243 | with both of them, every run from the start is safe outside a restore |
| `Wire.IntegerRoundTrip` | src/wire.cpp:23-56 | an integer that fits its width reads back as itself |
| `Wire.BytesRoundTrip` | src/wire.cpp:23-56 | the bytes of a fixed-width field are determined by the integer they spell |
| `Wire.StringRoundTrip` | src/wire.cpp:35-63 | a string of at most 64 MiB reads back exactly, whatever follows |
| `Wire.ByteWriter.WriteUnsigned` | src/wire.cpp:24-34 | appends the little-endian bytes of the value |
| `Wire.ByteWriter.WriteStr` | src/wire.cpp:35-38 | appends the length and the bytes |
| `Wire.ByteReader.ReadUnsigned` | src/wire.cpp:41-57 | reads the next field or fails without advancing |
| `Wire.ByteReader.ReadStr` | src/wire.cpp:58-63 | reads a prefixed string, or fails when it overruns or exceeds 64 MiB |
| `Wire.ByteReader.ReadBytes` | src/wire.cpp:64-67 | reads exactly n bytes or fails without advancing |
| `Crc.ByteStepInjective` | src/wire.cpp:7-21 | one byte step is injective in the register and in the byte |
| `Crc.SingleByteDetected` | src/wire.cpp:7-21 | changing exactly one byte of a message changes its checksum |
| `Crc.TableStep` | src/wire.cpp:7-21 | one table lookup equals eight bit steps |
| `Crc.ComputeCrc32` | src/wire.cpp:7-21 | the table-driven loop computes bit-at-a-time CRC-32 |
| `Formats.CheckValues` | src/wire.cpp:7-21 | check values that fix the polynomial, the initial register, the final complement and the bit order |
| `Framing.WriteFrame` | src/runtime/transport.cpp:42-55 | the writer lays out header, header checksum, payload and payload checksum |
| `Framing.Examine` | src/runtime/transport.cpp:90-110 | one turn of the reader's checks, in their order |
| `Framing.FrameStream.Feed` | src/runtime/transport.cpp:85-113 | appends the chunk and peels off every complete frame, stopping at the first error |
| `Framing.ChunkingIndependence` | src/runtime/transport.cpp:85-113 | for every byte stream and every split, the frames and the final error are those of one feed |
| `Framing.StreamDelivers` | src/runtime/transport.cpp:42-113 | any chunking of encoded valid frames yields exactly those frames and an empty buffer |
| `Framing.FrameRoundTrip` | src/runtime/transport.cpp:57-83 | decoding an encoded frame returns it, whatever follows |
| `Framing.StreamAgreesWithDecode` | src/runtime/transport.cpp:57-113 | the stream accepts exactly the frames the one-shot decoder accepts |
| `Framing.FrameCorruptionDetected` | src/runtime/transport.cpp:57-83 | changing exactly one byte of an encoded frame makes decoding fail |
| `Formats.DecodeMeans` | src/runtime/transport.cpp:57-83 | decodeFrame accepts exactly the bytes that start with the magic "1FVN", version 1, a type from 1 to 10, a length of at most 16 MiB, all of it there and both checksums right, and gives back that type and payload |
| `Formats.DecodeRefuses` | src/runtime/transport.cpp:57-83 | each of its errors is answered if and only if its own check is the first to fail, in terms of the bytes |
| `Formats.InspectMeans` | src/runtime/transport.cpp:90-107 | the stream waits if and only if the header or an acceptable header's frame is incomplete; its errors by the bytes, neither checksum being looked at before the whole frame is there |
| `Formats.EncodingMeans` | src/runtime/transport.cpp:42-83 | the bytes written for a frame are the only ones with two zero bytes after the type that decode to it |
| `Codec.FieldsRoundTrip` | src/persistence.cpp:24-147 | a row of fields that fit reads back exactly, whatever follows |
| `Codec.TableRoundTrip` | src/persistence.cpp:154-184 | a table written in any order reads back as the table |
| `Codec.ParsedTable` | src/persistence.cpp:170-184 | a decoded table is keyed by its records and no larger than its limit |
| `Persistence.DeviceStored` | src/persistence.cpp:24-49 | a device record within the string bound survives writing and reading |
| `Persistence.SwitchStored` | src/persistence.cpp:50-73 | the same of a switch record |
| `Persistence.PortStored` | src/persistence.cpp:74-98 | the same of a port record |
| `Persistence.LinkStored` | src/persistence.cpp:99-124 | the same of a link record |
| `Persistence.PartitionStored` | src/persistence.cpp:125-147 | the same of a partition record with at most 1024 members and 256 switches |
| `Payload.TopologyRoundTrip` | src/persistence.cpp:151-190 | decoding the encoding of any well-formed bounded topology returns it exactly |
| `Payload.DecodedWellFormed` | src/persistence.cpp:161-190 | whatever bytes the decoder accepts, the result has integrity, matching keys and counts within limits |
| `Envelope.OpensSealed` | src/persistence.cpp:201-260 | a sealed payload opens to itself |
| `Envelope.RegistryRoundTrip` | src/persistence.cpp:201-269 | deserializing a serialized registry gives the same snapshot, its epoch and the next id after its id |
| `Envelope.RunIdsInStep` | src/fabric_registry.cpp:88-88 | in every run the next snapshot id follows the current one |
| `Envelope.RestoredExactly` | src/persistence.cpp:241-269 | a registry is restored exactly, but for its version counter, if and only if its epoch is its snapshot's |
| `Envelope.StoreCorruptionDetected` | src/persistence.cpp:241-260 | changing exactly one byte of a serialized registry makes deserializing fail |
| `Envelope.RunFromBytes` | src/persistence.cpp:241-269 | every snapshot of every run from any accepted bytes is well formed, and honest once mutated |
| `Store.WriteFields` | src/persistence.cpp:24-147 | the writer appends the fields in order |
| `Store.WriteTable` | src/persistence.cpp:154-158 | the writer appends the count and every record once |
| `Store.WritePayload` | src/persistence.cpp:151-159 | the encoder appends the header and the five tables |
| `Store.SerializeRegistry` | src/persistence.cpp:201-213 | the registry's snapshot sealed in magic, version and two checksums |
| `Store.ReadFields` | src/persistence.cpp:33-147 | the reader takes the fields in order or fails with the parse |
| `Store.ReadTable` | src/persistence.cpp:170-184 | the counted loop reads a table, refusing too many records and repeated keys |
| `Store.DecodeTopology` | src/persistence.cpp:161-190 | the decoder computes the parse: all fields, nothing left over, integrity |
| `Store.DeserializeRegistry` | src/persistence.cpp:241-269 | the reader's checks in their order, with their errors |
| `Formats.OpenMeans` | src/persistence.cpp:241-260 | a file opens exactly when it starts with "NVSFFAB1" and version 1, has a payload and both checksums right; the error for a later version is answered if and only if the magic is right and the version is greater |
| `Formats.OpensExactly` | src/persistence.cpp:201-260 | a file opens to a payload if and only if it is that payload sealed |
| `Formats.DeserializeMeans` | src/persistence.cpp:241-269 | reading succeeds if and only if the file is such and its payload decodes, and then gives that snapshot, the next id after its id, its epoch and version 1 |
| `Formats.FieldsExact` | src/persistence.cpp:24-147 | a row of fields is read if and only if it fits and the bytes are exactly those written for it |
| `Formats.ReadExactly` | src/persistence.cpp:24-147 | a record is read exactly from the bytes of a row of fields that fits |
| `Formats.NothingAfter` | src/persistence.cpp:185-186 | accepted bytes are read to the end: with anything after them they are not accepted |
| `Formats.DeviceWritten` | src/persistence.cpp:24-32 | the bytes of a device record, field by field |
| `Formats.SwitchWritten` | src/persistence.cpp:50-56 | the bytes of a switch record, field by field |
| `Formats.PortWritten` | src/persistence.cpp:74-81 | the bytes of a port record, field by field |
| `Formats.LinkWritten` | src/persistence.cpp:99-106 | the bytes of a link record, field by field |
| `Formats.PartitionWritten` | src/persistence.cpp:125-131 | the bytes of a partition record, field by field, its lists counted |
| `Formats.PayloadWritten` | src/persistence.cpp:151-159 | the bytes of a snapshot: header fields, then devices, switches, ports, links and partitions, each table counted |

## Left out

- Sockets, threads, process spawning, file reads and writes, and the size limit on files: bytes and connections are abstract.
- The lock granularity below one message: each REGISTER, PUBLISH and close is one atomic step, and so is the epoch check of a message with its effect; a restore is two steps.
- The payload fields of REGISTER and PUBLISH messages are arguments of the steps rather than parsed from the frame; the topology blob is parsed.
- Operations an administrator makes directly on the coordinator's registry, `stop`, the worker client, HELLO, PING, QUERY_ROUTE and PUBLISH_MEASUREMENT messages and the policy and decision codecs.
- Measurements: the loop that picks the best one is a parameter, factor values are real numbers, factor weights and the minimum-generation summary fields of a path are not kept.
- Wall-clock timestamps, explanation strings and the unused policy fields.
- Health summaries, histories, `recordDecision`, `applyBackendScan`, backends, the CUDA kernel, command-line tools and synthetic scenarios.
- The order in which tables are walked is arbitrary where the code walks sorted maps; every law holds for all orders. Ties in `std::sort` may fall either way, as its contract leaves open; which way one library puts them is not modelled.
- Decision.ComputeRoute: computes reachability and the ranking before the gates that may make them unnecessary; the decision is the same.
- Store.WriteFields: one loop over a record's declared fields stands for the five hand-written sequences of writer calls, and likewise `Store.ReadFields` for the readers.
