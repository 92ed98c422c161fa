# Proofs about the WebSec scanner

This project models the parts of the scanner and of its service whose correctness depends on many steps, and proves
what they promise: the scan queue and its runner, the crawler, the TLS probes, the loader of API specs, the traffic
limiter, ids and paging, the benchmark gate and the verdict of a report. `dafny verify dfyconfig.toml` checks all of it.

Code that the scanner writes as pure expressions is modelled as functions. Code that changes state is modelled as
classes and loops (`ScanService`, `CrawlLoop`, `TlsReply.Socket`, `SpecLoader`, `Limits.ScanLimiter`,
`Verdict.Report`, and the loops in `TlsServerHello`, `TlsRules`, `TlsProbes`, `NodeBudget`, `JsonPointer`, `Ulid` and
`BenchmarkGate`); each of these methods is proved equal to a function, and the theorems are about that function or
about every run of it.

| files | what they cover |
|---|---|
| `Options`, `OrderedKeys` | an option type; listing keys in order, as `ORDER BY id` does |
| `ScanTable`, `ScanLaws`, `RunnerRules`, `PumpOrder`, `PumpEdges`, `ScanService` | the scan tables and what each transaction answers and writes, the greedy `pump`, its order and edge cases, the repository and the runner as objects |
| `ServiceRuns`, `ServiceFates`, `ServicePumps` | the service as a transition system with crashes and restarts: what every state keeps, why each scan ended as it did, and pumps with other steps in between |
| `CrawlRules`, `CrawlGraph`, `CrawlProofs`, `CrawlTheorems`, `CrawlLevels`, `CrawlLedger`, `CrawlRaises`, `CrawlLoop`, `CrawlEdges` | the crawl over an arbitrary site, against reachability and distance in its link graph; why each URL was counted, why the crawl stopped, and when it raises |
| `TlsBytes`, `TlsClientHello`, `TlsProbeHello`, `TlsServerHello`, `TlsReply`, `TlsRules`, `TlsProbes`, `TlsVerdicts` | the hellos byte by byte, the reader over any splitting of the stream, the validated rules, the probe driver and its verdicts |
| `NodeBudget`, `JsonPointer`, `SpecRefs`, `SpecChains`, `SpecLoader` | the expansion budget, JSON pointers, and following `$ref` chains within shared budgets |
| `Limits`, `LimiterLaws` | the limiter, every sequence of calls to it, and exactly when each is granted |
| `Ulid`, `Paging` | ids that sort by time, and keyset paging over them |
| `BenchmarkGate`, `Verdict` | the regression gate of the benchmark; gate, exit code, message and JUnit file |

## Where the code falls short of a promise

The model follows the code. Where a promise of its documentation does not hold for all inputs, the project states when
it holds and gives an input for which it does not.

- A scan that could run is left waiting after a thread could not be started (`PumpEdges.FailedStartStrandsTheNextScan`):
  `pump` keeps counting the scans it failed to start, and nobody pumps again. When an idle runner's pump could start
  nothing, the queue is empty if and only if the queued scans could all run side by side
  (`PumpEdges.WithoutThreadsTheQueueEmptiesIff`).
- `pump` reads the 1000 oldest queued scans, so with queue caps above 1000 a scan that could run can be out of its
  sight (`PumpEdges.LongQueueHidesAScan`). Where one agency may fill the whole queue, and at least two scans may run in
  total and for one agency, a pump whose threads all start is enough in every state if and only if the cap is at most
  1000 (`PumpEdges.PumpIsEnoughIff`). The default cap is 100.
- With redirects the recorded depth of a page need not be the cost of its cheapest route, on which a redirect is free
  (`CrawlEdges.RedirectsHideShorterRoutes`). It is the cost of some route and never more than the fewest steps of any
  (`CrawlLevels.DepthIsBetween`); it is the shortest distance when no fetched page redirected
  (`CrawlTheorems.DepthIsShortest`), as on a site without redirects (`CrawlLevels.PlainSiteIsBreadthFirst`).
- A page or a robots.txt that names a character set Python does not know makes decoding raise LookupError, which leaves
  `crawl()`, although the module's own account is that it returns what it saw: one such page is enough
  (`CrawlRaises.OneBadPageRaises`). The crawl raises if and only if it met such an answer
  (`CrawlRaises.RaisesIffUnknownCharset`), and never on a site that has none (`CrawlRaises.DecodableSiteNeverRaises`).
- The comment on `protocol_hello` says nothing older is offered. Only the TLS 1.3 hello offers exactly one version; an
  older one offers its version as the newest, and the verdict function is what turns a lower answer into a refusal
  (`TlsProbeHello.ProtocolHelloOffers`, `TlsProbes.EnabledWasChosen`).
- A JSON pointer may index an array with leading zeros, which section 4 of RFC 6901 forbids
  (`JsonPointer.LaxOnLeadingZeros`).
- The count of references goes on rising after the limit is reached, without bound
  (`SpecRefs.CounterPassesItsLimit`); the references really followed are the smaller of that count and the limit
  (`SpecRefs.LimitsAlwaysHold`).
- `is_valid` accepts an id with a line break after it, because `$` also matches there (`Ulid.LineBreakIsValid`). A valid
  value without one is an id, and among the valid values it is exactly the ids whose time can be read
  (`Ulid.ValidityIsExact`).
- A ULID keeps 50 bits of the time, not 48: the time is read back exactly when it is below 2^50
  (`Ulid.TimeIsRecovered`).
- The benchmark comparison checks that the keys of two ground truths agree, not their groups, so relabelling alone can
  be reported as a regression (`BenchmarkGate.RelabellingIsReported`, `BenchmarkGate.MovedFalseFindingIsReported`). The
  gate stays exact for every pair of scans if and only if no true finding changed its group and no false one moved to a
  group that has a true finding (`BenchmarkGate.GateIsExactIffHarmless`).

## Model

| member | source | states |
|---|---|---|
| ScanTable.RepeatedKeyQueuesNothing | websec_scanner/service/db.py:463-474 | while a claim on a key is younger than its lifetime, the claim alone decides the answer, replay or conflict, and no scan changes; which scan a claim names is `ServiceRuns.RepeatsGetTheFirstScan` |
| ScanTable.CreateKeepsCaps | websec_scanner/service/db.py:475-480 | no request, whatever its answer, takes the queue over the cap in total or of any agency |
| ScanTable.CreateAdvances | websec_scanner/service/db.py:456-521 | creating a scan keeps the tables consistent, and no other row changes |
| ScanTable.AdvancingKeepsCaps | websec_scanner/service/db.py:568-601 | transactions that only move rows forward keep both queue caps |
| ScanTable.RecoveryAdvances | websec_scanner/service/db.py:594-601 | recovery leaves nothing running, touches no queued scan and only moves rows forward |
| ScanTable.QueuedScansFit | websec_scanner/service/db.py:556-562 | the snapshot holds every queued scan when they are no more than its limit, each once and oldest first |
| ScanTable.QueuedScansAreTheOldest | websec_scanner/service/db.py:556-562 | a queued scan missing from the snapshot is younger than all that are in it |
| ScanLaws.CreateAnswers | websec_scanner/service/db.py:456-482 | each answer if and only if: inactive client, live key with the same or another body, full queue, or accepted anew, also for a key older than its lifetime |
| ScanLaws.CreateWrites | websec_scanner/service/db.py:463-521 | only an accepted request writes a row, as queued; claims that are over are dropped, and a refusal changes nothing |
| ScanLaws.MarkStarts | websec_scanner/service/db.py:568-576 | a queued scan becomes running with its start time and nothing else changes; any other is left alone and the caller told |
| ScanLaws.FinishCompletes | websec_scanner/service/db.py:578-584 | a running scan that delivers its report is completed with that report and time, and nothing else changes |
| ScanLaws.FailFails | websec_scanner/service/db.py:586-592 | a scan that has not ended is failed with the code and time, without a report, and nothing else changes |
| ScanLaws.RecoveryInterrupts | websec_scanner/service/db.py:594-601 | exactly the running scans are failed, as interrupted |
| ScanService.Repository.CreateScan | websec_scanner/service/db.py:433-521 | the transaction on the mutable tables, with its four refusals and the replay |
| ScanService.Repository.MarkRunning | websec_scanner/service/db.py:568-576 | only a queued scan becomes running, and the caller learns whether it did |
| ScanService.Repository.FinishScan | websec_scanner/service/db.py:578-584 | only a running scan completes, and it does, with its report path and time (`ScanLaws.FinishCompletes` says what else stays) |
| ScanService.Repository.FailScan | websec_scanner/service/db.py:586-592 | only a scan that has not ended fails, and its error code is stored with it |
| ScanService.Repository.RecoverInterrupted | websec_scanner/service/db.py:594-601 | every running scan is failed as interrupted and their number is returned |
| ScanService.ScanRunner.Tally | websec_scanner/service/runner.py:64-65 | the hosts and the scans per agency of what is running |
| ScanService.ScanRunner.Pump | websec_scanner/service/runner.py:58-81 | the loop on the shared map and the tables does what the greedy rule does, which serves the oldest first (`PumpOrder.PumpServesOldestFirst`), keeps all limits, and does nothing once closed |
| ScanService.ScanRunner.StartScan | websec_scanner/service/runner.py:72-81 | a scan nothing blocks is marked, counted and started; when no thread starts it is failed again |
| ScanService.ScanRunner.Recover | websec_scanner/service/runner.py:52-56 | start-up fails what was running and then pumps |
| ScanService.ScanRunner.WorkEnds | websec_scanner/service/runner.py:90-105 | a scan that ends is stored, leaves the running map and is followed by a pump, with all limits kept |
| RunnerRules.PumpAllIsMaximal | websec_scanner/service/runner.py:66-81 | after the loop each scan of the snapshot that is still queued has a reason to wait, whichever threads failed to start |
| RunnerRules.PumpLeavesNothingStartable | websec_scanner/service/runner.py:58-81 | a whole pump on up to 1000 queued scans ends maximal and within the limits |
| PumpOrder.PumpServesOldestFirst | websec_scanner/service/runner.py:58-81 | a scan of the snapshot is tried if and only if there is room for it beside what ran and the older scans; threads start in order, and only the rows tried change |
| PumpOrder.OneOutcome | websec_scanner/service/runner.py:66-81 | that rule leaves one set of scans to start and one to lose |
| PumpOrder.PassedOverForAReason | websec_scanner/service/runner.py:66-81 | a queued scan passed over for a younger one is kept back by its agency or its host |
| PumpEdges.WithoutThreadsTheQueueEmptiesIff | websec_scanner/service/runner.py:77-81 | when a pump of an idle runner started nothing, the queue is empty if and only if the queued scans were compatible |
| PumpEdges.FailedStartStrandsTheNextScan | websec_scanner/service/runner.py:77-81 | two scans of one host and no thread: one is failed, one stays queued with nothing running |
| PumpEdges.LongQueueHidesAScan | websec_scanner/service/db.py:556-562 | caps above 1000 allow a state in which a pump does not look at a scan that could start |
| PumpEdges.PumpIsEnoughIff | websec_scanner/service/runner.py:58-81 | where one agency may fill the queue, a pump whose threads all start leaves nothing startable in any state within caps and limits if and only if the queue cap is at most 1000 |
| ServiceRuns.NoLostWakeup | websec_scanner/service/runner.py:58-81 | in every state of every run in which an open service rests, each queued scan waits for a limit or a host, counting the scans whose thread the last pump could not start; when there are none of those, nothing running means nothing queued (for a queue cap of at most 1000) |
| ServiceRuns.LimitsAlwaysHold | websec_scanner/service/runner.py:52-105 | in every state of every run, crashes and failed thread starts included, the running map keeps all three limits and holds every scan the database calls running |
| ServiceRuns.RowsOnlyAdvance | websec_scanner/service/db.py:568-601 | between any two states of a run no scan disappears and each row only moves forward, ended ones not at all |
| ServiceRuns.RowsAreConsistent | websec_scanner/service/db.py:568-601 | in every state a report path means completed, an error code means failed, and each key names a scan of its agency |
| ServiceRuns.EachScanStartsAtMostOnce | websec_scanner/service/runner.py:66-81 | no scan's worker starts twice, stale snapshots and restarts included |
| ServiceRuns.KeyedScansAreApart | websec_scanner/service/db.py:463-511 | two scans accepted under one agency and key were created at least the lifetime of a key apart |
| ServiceRuns.RepeatsGetTheFirstScan | websec_scanner/service/db.py:463-474 | in every state of every run, a repeat of an accepted request inside the lifetime of its key gets that first scan back, another body a conflict, and no scan changes |
| ServiceRuns.TurnRefinesPumpOne | websec_scanner/service/runner.py:66-81 | the single steps of a pump in the transition system do what one turn of the loop does |
| ServicePumps.InterleavedPumpIsThePump | websec_scanner/service/runner.py:58-81 | whatever requests, ending scans and edits come between its steps, a whole pump of a run serves its snapshot oldest first and comes to what the loop comes to undisturbed |
| ServiceFates.RowsTellTheirFate | websec_scanner/service/runner.py:90-105 | in every state of every run a scan is completed with a report if and only if its thread ended with it, failed with a scan error if and only if its thread broke or could not start, interrupted if and only if a restart found it running |
| CrawlLoop.Crawl.ConsiderLink | websec_scanner/crawler/crawl.py:126-156 | a link is queued or counted under one reason exactly as the rules say |
| CrawlLoop.Crawl.ConsiderNew | websec_scanner/crawler/crawl.py:136-156 | the order of the refusals for a URL seen for the first time, and what queueing it changes; what each reason means is `CrawlLedger.CountsAreExplained` |
| CrawlLoop.Crawl.Follow | websec_scanner/crawler/crawl.py:197-209 | what is done with an answer: keep the page, follow a redirect at its depth and links one deeper |
| CrawlLoop.Crawl.Loop | websec_scanner/crawler/crawl.py:161-216 | the loop ends on every site and yields the pages, counts and reason of the run of the rules |
| CrawlLoop.Crawl.Start | websec_scanner/crawler/crawl.py:106-216 | the whole crawl, from the links of the home page on, is the run of the rules |
| CrawlRules.TurnLowersLeft | websec_scanner/crawler/crawl.py:162-209 | queue length plus room left in the queue falls by exactly one in each turn that goes on |
| CrawlTheorems.NothingIsUnaccounted | websec_scanner/crawler/crawl.py:126-212 | every URL seen was queued or counted once, every URL queued was fetched, is still queued or was counted, no page is fetched twice and the page limit holds |
| CrawlTheorems.EveryPageIsReached | websec_scanner/crawler/crawl.py:126-209 | every fetched page is within the limits and reachable, and its depth is the cost of a route of fetched pages on which a redirect is free |
| CrawlTheorems.DepthIsShortest | websec_scanner/crawler/crawl.py:158-209 | when no fetched page redirected, depths are shortest distances through fetched pages and the queue is in order of depth |
| CrawlLevels.DepthIsBetween | websec_scanner/crawler/crawl.py:158-209 | redirects or not, the depth of a page is the cost of a route through fetched pages and at most the steps of each such route |
| CrawlLevels.PlainSiteIsBreadthFirst | websec_scanner/crawler/crawl.py:158-209 | on a site without redirects whose answers decode, every crawl is breadth first and records shortest distances |
| CrawlRaises.RaisesIffUnknownCharset | websec_scanner/crawler/crawl.py:206-212 | the crawl raises if and only if the last page it fetched, or the robots.txt it read, names an unknown character set |
| CrawlRaises.DecodableSiteNeverRaises | websec_scanner/crawler/crawl.py:206-212 | a crawl of a site whose pages and robots.txt decode never raises |
| CrawlRaises.UndecodableRobotsRaiseIff | websec_scanner/crawler/crawl.py:171-177 | a robots.txt that does not decode makes the crawl raise exactly when it comes to be read |
| CrawlRaises.OneBadPageRaises | websec_scanner/crawler/crawl.py:206-212 | a site of one linked page with an unknown character set, whose crawl raises |
| CrawlTheorems.CompleteCrawlIsExact | websec_scanner/crawler/crawl.py:161-216 | a complete crawl that left nothing of the site out has fetched exactly the reachable URLs of its origin |
| CrawlTheorems.AtMostFivePerPath | websec_scanner/crawler/crawl.py:145-156 | at most five URLs of one path are ever queued |
| CrawlTheorems.RobotsAreObeyed | websec_scanner/crawler/crawl.py:171-180 | no page robots.txt disallows is fetched, and none at all when it cannot be read |
| CrawlLedger.CountsAreExplained | websec_scanner/crawler/crawl.py:126-156 | each counter is the number of URLs counted under it, each under the first reason that applies to it and at the end of a route of that depth; every URL met was queued or counted |
| CrawlLedger.StopIsWhatItSays | websec_scanner/crawler/crawl.py:161-216 | the stop reason exactly, from what is left behind: the URL or robots.txt that stopped it, the depth, the time or the number of pages |
| CrawlLedger.TakenUrlsAreTold | websec_scanner/crawler/crawl.py:178-197 | a URL taken from the queue is a page if and only if it was allowed and answered, and is counted as disallowed or failed otherwise |
| CrawlLedger.CutOffByDepth | websec_scanner/crawler/crawl.py:213-216 | "max-depth" means a URL of the origin was met at the end of a route longer than allowed |
| CrawlLedger.CompleteMissesNothing | websec_scanner/crawler/crawl.py:161-216 | after a complete crawl, links within the origin lead only to pages or to what was excluded, disallowed, unanswered or over a limit on queueing |
| CrawlLedger.NothingExcluded | websec_scanner/crawler/crawl.py:142-144 | a site that excludes nothing has nothing counted as excluded |
| CrawlLedger.DeadLinksAreCounted | websec_scanner/crawler/crawl.py:126-133 | links that cannot be followed are counted once for each time they stand on the home page or a fetched page |
| CrawlEdges.RedirectsHideShorterRoutes | websec_scanner/crawler/crawl.py:199-203 | a site on which a page behind a redirect is recorded deeper than its cheapest route |
| TlsClientHello.ClientHelloReadsBack | websec_scanner/checks/tls_probe.py:130-148 | a reader written after RFC 5246 recovers every field of a hello from its bytes with nothing left over |
| TlsProbeHello.ProtocolHelloOffers | websec_scanner/checks/tls_probe.py:151-176 | the versions, suites, name and extensions a protocol probe offers, as read back from its bytes |
| TlsProbeHello.GroupHelloOffers | websec_scanner/checks/tls_probe.py:179-187 | a group probe offers the suites of its group and the renegotiation signal, up to TLS 1.2 |
| TlsProbeHello.ExtensionContents | websec_scanner/checks/tls_probe.py:117-127 | the groups, algorithms, point formats and key share as their standards lay them out |
| TlsProbeHello.ServerNameReadsBack | websec_scanner/checks/tls_probe.py:99-114 | the name extension reads back, after section 3 of RFC 6066, as the one host name |
| TlsProbeHello.HellosAreBuilt | websec_scanner/checks/tls_probe.py:130-187 | building a hello never raises for up to 32 000 suites |
| TlsServerHello.ParseServerHello | websec_scanner/checks/tls_probe.py:216-256 | the incremental parser with its position computes the parse of the bytes |
| TlsServerHello.ReadVersion | websec_scanner/checks/tls_probe.py:243-252 | the extension loop finds the last two-byte supported_versions, or that the block is malformed |
| TlsServerHello.ServerHelloReadsBack | websec_scanner/checks/tls_probe.py:216-256 | every ServerHello of the standard's syntax is read, whatever follows it, with the version it selects; only an unknown version is an error |
| TlsServerHello.AcceptedIsServerHello | websec_scanner/checks/tls_probe.py:216-256 | bytes that are accepted begin with such a ServerHello and are reported as it says |
| TlsServerHello.MoreBytesChangeNothing | websec_scanner/checks/tls_probe.py:216-224 | once the parser has answered, more bytes do not change its value or its error |
| TlsReply.ReadExactly | websec_scanner/checks/tls_probe.py:205-213 | exactly the bytes asked for, or how the connection ended first, however recv splits them |
| TlsReply.ReadReply | websec_scanner/checks/tls_probe.py:259-302 | the outcome is a function of the bytes and the ending alone, not of how recv splits them |
| TlsReply.FragmentedHelloIsAccepted | websec_scanner/checks/tls_probe.py:259-280 | a ServerHello cut into one to three records is accepted whatever follows it and however the connection ends |
| TlsReply.ReplyIgnoresWhatFollows | websec_scanner/checks/tls_probe.py:259-302 | bytes after those that decided, and the ending, change nothing |
| TlsReply.AcceptedWasSent | websec_scanner/checks/tls_probe.py:259-302 | "accepted" means the server sent at most three handshake records that begin with a ServerHello naming that version and suite |
| TlsVerdicts.RejectedIff | websec_scanner/checks/tls_probe.py:259-302 | "rejected" if and only if an alert comes before the hello is complete, a reset before anything is decided, or a close without a byte, each as what it is |
| TlsRules.Load | websec_scanner/rule_loader.py:249-328 | a rules file is loaded if and only if it is acceptable, and then as what it says |
| TlsRules.CheckGroup | websec_scanner/rule_loader.py:293-319 | a group is refused exactly when a suite is malformed or already has an owner |
| TlsProbes.LoadedPlanFits | websec_scanner/rule_loader.py:226-233 | the budget of loaded rules covers every planned probe |
| TlsProbes.RunProbes | websec_scanner/checks/tls_probe.py:344-410 | for any rules: every planned key gets its result, one grant and one pause precede each connection, and when the run ends early; what a result means is `TlsVerdicts.VerdictIs` |
| TlsProbes.LoadAndProbe | websec_scanner/checks/tls_probe.py:344-410 | with loaded rules no key is missing for lack of budget and nothing is connected after a connection that failed |
| TlsProbes.EnabledWasChosen | websec_scanner/checks/tls_probe.py:329-341 | a protocol is accepted only when the server chose that version, a group only when it chose one of its suites |
| TlsProbes.EnabledGroupsDiffer | websec_scanner/rule_loader.py:308-316 | two accepted groups were shown by different suites |
| TlsVerdicts.VerdictIs | websec_scanner/checks/tls_probe.py:310-341 | enabled if and only if the server chose what was asked, refused if and only if it said no or chose another version, untested, with its reason, if and only if the attempt says nothing |
| TlsVerdicts.ProtocolIsEnabledIff | websec_scanner/checks/tls_probe.py:329-333 | a version under its own name is enabled if and only if the server chose that very version |
| TlsVerdicts.EveryRuleIsPlanned | websec_scanner/checks/tls_probe.py:344-410 | each version in the rules is planned, and each group that has suites |
| TlsVerdicts.ChosenIsReported | websec_scanner/checks/tls_probe.py:344-410 | a server that answers a planned probe with a hello choosing what was asked, in up to three records, has it enabled in the report |
| NodeBudget.CheckNodeBudget | websec_scanner/api/spec_loader.py:99-123 | the walk ends on every graph and accepts if and only if the full expansion is a tree of at most the allowed size and depth |
| NodeBudget.AffordableOnTheGraph | websec_scanner/api/spec_loader.py:99-123 | the tree view and the graph view of that bound agree |
| NodeBudget.VisitWeighs | websec_scanner/api/spec_loader.py:109-123 | a visit moves exactly one value from the stack to the count |
| NodeBudget.SelfContainingIsRefused | websec_scanner/api/spec_loader.py:116-117 | a document in which a value contains itself is refused |
| JsonPointer.WalkPointer | websec_scanner/api/spec_loader.py:333-347 | the loop over the parts of a pointer computes the walk |
| JsonPointer.RenderedPathIsReached | websec_scanner/api/spec_loader.py:339-347 | the pointer of any path of percent-free tokens leads to the value of that path |
| JsonPointer.WalkIsExact | websec_scanner/api/spec_loader.py:333-347 | for every text: a walk ends at a value if and only if the text is parts with a slash before each and these lead there step by step |
| JsonPointer.UnescapeInvertsEscape | websec_scanner/api/spec_loader.py:340 | replacing ~1 and then ~0 undoes the escape of RFC 6901 |
| JsonPointer.OtherOrderInvertsIff | websec_scanner/api/spec_loader.py:340 | the other order of the two replacements undoes it for exactly the tokens without ~1 |
| JsonPointer.LaxOnLeadingZeros | websec_scanner/api/spec_loader.py:343-344 | a step differs from the standard exactly when it indexes an array with a leading zero |
| SpecRefs.LimitsAlwaysHold | websec_scanner/api/spec_loader.py:200-331 | over any calls, loaded files lie under the root, are loaded once, files and bytes stay within their limits, and the references followed are the smaller of those counted and their limit |
| SpecRefs.CounterPassesItsLimit | websec_scanner/api/spec_loader.py:281-283 | a reference that leads nowhere is counted each time, so the counter reaches any number |
| SpecChains.FollowIsExact | websec_scanner/api/spec_loader.py:269-289 | following gives the end of a chain if and only if the chain ends within 32 references and the budgets cover it |
| SpecChains.CyclesAreRefused | websec_scanner/api/spec_loader.py:285-287 | a chain that comes back to a place is refused |
| SpecChains.FirstPlaceIsNew | websec_scanner/api/spec_loader.py:285-287 | a chain that ends never visits a place twice, so the cycle check refuses nothing that ends |
| SpecLoader.Spec.FollowRefs | websec_scanner/api/spec_loader.py:269-289 | the loop with its counters and its set computes the following of the chain |
| SpecLoader.Spec.Get | websec_scanner/api/spec_loader.py:324-331 | a loaded file is returned as it is; another one counts as included and is kept |
| SpecLoader.Spec.ReadFile | websec_scanner/api/spec_loader.py:208-248 | a file that is read takes its bytes from the budget even when it is then refused |
| SpecRefs.LoadIs | websec_scanner/api/spec_loader.py:208-248 | which bytes are charged, and that a document comes back if and only if it is small enough and the budget covers it |
| Limits.ScanLimiter.Acquire | websec_scanner/limits.py:65-87 | one request: its slot or the cap that ends the scan, and the new state |
| Limits.ScanLimiter.NoteResponse | websec_scanner/limits.py:89-101 | one answer: the new common slot and host slot after a push-back |
| LimiterRuns.HostsAlwaysBehind | websec_scanner/limits.py:74-101 | in every run no host's slot is later than the common one |
| LimiterRuns.SlotIsGlobal | websec_scanner/limits.py:74 | so a slot never depends on the host |
| LimiterRuns.SlotsAreApart | websec_scanner/limits.py:74-80 | any two granted slots are an interval apart |
| LimiterRuns.RateIsKept | websec_scanner/limits.py:74-81 | k grants within a window W satisfy (k-1) intervals < W |
| LimiterRuns.SlotsAreInTime | websec_scanner/limits.py:72-77 | a granted slot is before the deadline and not before its request |
| LimiterRuns.RequestsAreCapped | websec_scanner/limits.py:120-125 | grants never exceed the request cap |
| LimiterRuns.PushBackIsHonoured | websec_scanner/limits.py:89-101 | after a 429 or 503 nothing is granted before its resume time, at most a minute later |
| LimiterRuns.BackOffDoubles | websec_scanner/limits.py:95-98 | without a usable Retry-After each further push-back waits twice as long, up to a minute |
| LimiterRuns.StopIsFinal | websec_scanner/limits.py:120-132 | once a request was refused every later one is, for the same reason, which is the one reported |
| LimiterLaws.SlotIsEarliest | websec_scanner/limits.py:65-87 | no request waits longer than it has to: its slot is its own time, an interval after a slot, or the end of a push-back, whichever is latest |
| LimiterLaws.RefusedIff | websec_scanner/limits.py:72-77 | a request is refused if and only if the granted requests have reached the cap, or something it must wait for is not before the deadline |
| LimiterLaws.PenaltyIs | websec_scanner/limits.py:95-98 | a push-back lasts what Retry-After says, else two seconds doubled each time, never more than a minute |
| Ulid.AlphabetIs | websec_scanner/service/ids.py:14 | the digit characters are the positions in the alphabet |
| Ulid.MakeUlid | websec_scanner/service/ids.py:22-30 | the loop over the low digits, reversed, writes the digits of the number |
| Ulid.ReadNumber | websec_scanner/service/ids.py:42-48 | the loop over the characters reads the number back, or fails on a character outside the alphabet |
| Ulid.TimeIsRecovered | websec_scanner/service/ids.py:42-48 | the creation time is read back if and only if it fits in 50 bits |
| Ulid.NewIdIsId | websec_scanner/service/ids.py:33-34 | a new id matches the pattern of its kind |
| Ulid.OrderIsNumeric | websec_scanner/service/ids.py:14-30 | ULIDs compare as strings the way their numbers do |
| Ulid.EarlierSortsFirst | websec_scanner/service/ids.py:22-30 | an earlier id sorts first, whatever its random part |
| Ulid.LineBreakIsValid | websec_scanner/service/ids.py:37-39 | an id with a line break after it is still called valid |
| Ulid.ValidityIsExact | websec_scanner/service/ids.py:37-39 | a value without a trailing line break is valid exactly when it is an id; reading the time of a valid value fails exactly when it is not an id |
| Paging.PageIsNext | websec_scanner/service/api.py:293-300 | a page is the next keys in order, and names a cursor if and only if keys are left |
| Paging.PagesAreTheListing | websec_scanner/service/db.py:350-365 | following the cursor gives the whole listing, each row once |
| Paging.BrowsingIsStable | websec_scanner/service/db.py:530-554 | while rows come and go, nothing is listed twice or out of order and a row that stays is not missed |
| BenchmarkGate.ScoreScan | benchmarks/scoring.py:235-249 | the counting loops give each group its true positives, false positives and misses |
| BenchmarkGate.Compare | benchmarks/scoring.py:294-332 | what is reported as a regression, and when the comparison raises |
| BenchmarkGate.GateIsExact | benchmarks/scoring.py:294-332 | for one ground truth the gate passes if and only if no true finding was lost and no false one added |
| BenchmarkGate.NoGroupIsWorse | benchmarks/scoring.py:316-329 | without such a key, and with no harmful relabelling, no group's precision or recall falls or becomes undefined |
| BenchmarkGate.RelabellingIsReported | benchmarks/scoring.py:306-327 | a true finding under another group label is reported as a regression of the group it left, between two scans that found the same |
| BenchmarkGate.MovedFalseFindingIsReported | benchmarks/scoring.py:306-329 | so is a false finding that moved into the group of a true one |
| BenchmarkGate.GateIsExactIffHarmless | benchmarks/scoring.py:294-332 | for two ground truths with the same keys the gate is exact for every pair of scans if and only if no true finding changed its group and no false one moved to a group with a true finding |
| Verdict.Report.Build | websec_scanner/output.py:103-139 | the marks, counts and failure flag of a report, in terms of the findings and the request as they came |
| Verdict.MarkMeans | websec_scanner/baseline.py:85-93 | a finding is new if and only if no entry of a given baseline has its fingerprint, and suppressed by the first suppression that matches it |
| Verdict.GateMeans | websec_scanner/output.py:109-139 | the gate fails if and only if a finding of the threshold is neither suppressed nor known to the baseline |
| Verdict.CountMeans | websec_scanner/output.py:109-139 | the count of a severity is the number of its findings that are neither |
| Verdict.FailuresMean | websec_scanner/exports.py:82-125 | the failures listed are exactly as many as the findings that should fail |
| Verdict.Report.SortMissing | websec_scanner/baseline.py:95-102 | the loop sorts missing baseline findings into fixed and not rechecked |
| Verdict.Report.JunitFailures | websec_scanner/exports.py:82-125 | the JUnit file has a failure if and only if the exit code is not zero |
| Verdict.OneVerdict | websec_scanner/output.py:205-300 | the message and the exit code agree, and with --fail-on none the code is zero |
| Verdict.StricterFailsMore | websec_scanner/output.py:20-26 | a threshold is every severity from its own upwards, so a stricter setting fails whatever a laxer one fails |
| Verdict.AcceptingNeverFails | websec_scanner/output.py:109-139 | adding a baseline or suppressions never makes a passing gate fail |
| Verdict.BaselineIsAccountedFor | websec_scanner/baseline.py:78-117 | each baseline fingerprint is exactly one of still present, fixed and not rechecked, and an unfinished scan fixes nothing |
| Verdict.FixedIff | websec_scanner/baseline.py:95-102 | a baseline entry is fixed if and only if its finding is gone and a finished scan ran its check; otherwise, if gone, not rechecked |

## Left out

- HTTP, sockets, TLS handshakes, DNS, SQLite and threads themselves are steps, maps or functions of the environment.
- A database call that raises, and a second service process on the same data, are not modelled.
- Reading the clock and the transaction that uses it are one step; stored times are milliseconds, and the clock of the
  service does not go back.
- Columns that only describe a scan (target, checks, attestation, summary) and the audit table are not modelled.
- Scan ids are numbers in the tables and in paging; `Ulid.OrderIsNumeric` says why their order is that of the text.
- ServiceRuns.NoLostWakeup: claimed for a queue cap of at most 1000 and with the scans whose thread the last pump could
  not start counted as busy; `PumpEdges.PumpIsEnoughIff` and `PumpEdges.FailedStartStrandsTheNextScan` show that both
  conditions are needed.
- CrawlTheorems.AtMostFivePerPath: assumes that a normalized URL is determined by its origin, path and query.
- Parsing of URLs, HTML and robots.txt: `normalize`, the links of a page and what is allowed are arbitrary functions.
- Headers, cookies and the other contents of a fetched page are not modelled.
- The IDNA encoding of a host name, and whether it is an IP address, is an input of the hello.
- The texts of probe results and errors are modelled as tags; the timeout of a probe is one of the endings.
- TlsProbeHello.HellosAreBuilt: the exact number of suites that fits depends on the extensions and is not stated.
- YAML and JSON parsing, repeated keys and the plain-data conversion: a file is a value, garbage or unreadable.
- The textual checks on a reference path are one classification; that a resolved file lies under the root is modelled.
- JsonPointer.RenderedPathIsReached: percent escapes and digits outside ASCII are not modelled.
- A file that changes on disk while a spec is loaded.
- Waiting in the limiter: a granted slot is the earliest time of the request. Floating point is replaced by reals, and
  an infinite or undefined Retry-After is not modelled.
- Cursor encoding and the filters of a listing: a listing is the set of keys its filter lets through.
- The order and the wording of the lines a benchmark comparison reports, and its list of improvements.
- Matching of suppressions by pattern: which rule matches which finding is an arbitrary function.
- Renderers, the web pages, CVSS, and the header, cookie, CORS, redirect and exposure checks would only add easy members.
