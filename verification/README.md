# wanwatch failover, verified

`wanwatchd` watches several WANs of a NixOS host and keeps each Group's
routing table pointed at its best healthy WAN. This project models the
failover engine of that daemon in Dafny and proves what it is for. It has
four parts.

**The failover state machine.** `Selector`, `HealthSpec` and `Health`, `Apply`,
`DecisionSpec` and `Decision`, `Failover` and `Daemon`. The classes hold the
daemon's own fields and are changed in place; each handler is proved to be one
`Failover.Step` on the value the objects amount to, for any kernel failure, any
failed State write and any order in which Groups and WANs are visited.
`GroupHistory`, `GroupInvariant`, `FailoverRuns`, `FailoverTheorems`,
`FailoverInFull` and `StateFile` prove what holds of every run of such steps. A
step speaks of one Group's slice at a time (its Decision, table, vacated WAN,
Hooks and flushes), because an event makes at most one call on each Group;
`HandlerProgress` carries the loops to that form, and `EventLoop` drives the
objects from startup through any events and ends in such a run. `Recovery`
shows that every Group settles once the kernel stops failing.

**Discovery.** `RouteTable` and `RouteSubscription` read route dumps and
notifications; `RouteDiscovery` interleaves the kernel with the subscriber:
insertions, replacements and deletions that are notified after the fact, IPv4
deletions that are notified before it, next-hops taken off an IPv6 multipath
default (`Multipath`), snapshots and rereads. `LinkDiscovery` does the same for
links. The events they emit are the ones `Failover` takes.

**Measurement.** `Window`, `Aggregation`, `PingerSpec` and `Pinger` go from
datagrams to a Family's statistics; `HealthHistory` shows that the
verdict-dependent band and the run counters together are a simple function of
the results; `Timing` gives the exact number of cycles to recover or to fail,
and `Bounded` carries that number to runs of the daemon: how many unanswered
results until traffic has left the WAN, and how many answered ones until it is
back.

**Three algorithms.** `Idents` (linear probing over 16 bits), `Icmp` (the echo
codec and the checksum of RFC 1071) and `HookQueue` (the bounded queue, its
worker and Close), which `HookDelivery` joins to the daemon's Hooks.

What the code computes is first said by a function. What those functions mean
is said once more by lemmas in fields, literals and built-in operators, most of
them named `...InFull`: the choice
(`Selector.ChoiceInFull`), the thresholds (`HealthHistory.ClassInFull`), a slot
after an Apply (`Apply.AppliedInFull`), what a default is and offers
(`RouteTable.DefaultInFull`, `SinglePathOffer`, `MultipathOffer`), a link event
(`LinkDiscovery.LinksInFull`), a Sample (`PingerSpec.OutcomeInFull`), the wire
formats (`Icmp.RequestInFull`, `ReplyInFull`). Over whole runs of the daemon
`FailoverInFull` does the same for Hooks, Decisions with their flushes, what
makes a Group act and the routes written, and `StateFile.StateShowsEverything`
for State.

`EndToEnd` composes them: told what discovery reported, the daemon's Gateways
and carriers are the kernel's, a WAN's Health is its link and its result
history, and a settled Group routes through the kernel's preferred default.

What the configuration promises is a precondition throughout: Members are
keyed by the name of a declared WAN, recovery thresholds are below failure
thresholds, Targets of a Family are distinct, Group tables are pairwise
distinct. The last is checked by the NixOS module, not by the daemon's loader
(docs/architecture.md, line 67).

Three places where the code and its comments differ, and the model follows the
code. `AllocateIdents` documents an error above 65535 keys but accepts 65536
(daemon/internal/probe/ident.go, lines 23 and 27), and 65536 do fit. The
comment of `internetChecksum` promises the Internet checksum over any buffer
(daemon/internal/probe/icmp.go, line 138), but the accumulator has 32 bits:
`Icmp.ChecksumIsTrueUnlessOverflowed` says for every buffer when the promise is
kept, `Icmp.ShortSumsFit` that it always is up to 131074 bytes, and
`Icmp.OnesAreSummedWrong` and `Icmp.LongRequestDoesNotVerify` give a buffer and
a request for which it is not. The comment of `cycle` promises every Target a
Sample (daemon/internal/probe/pinger.go, lines 116-118), but sequence numbers
have 16 bits and the loader bounds no list of Targets:
`PingerSpec.OneSampleUnlessDisplaced` says when the promise is kept,
`PingerSpec.OneTurnDisplacesNone` that it always is up to 65536 Targets, and
`PingerSpec.OneTurnMoreDisplaces` that it is not for 65537.

`dafny verify dfyconfig.toml` checks the project.

## Model

| member | source | states |
|---|---|---|
| EndToEnd.SettledGroupsUseTheKernelsGateways | daemon/cmd/wanwatchd/daemon.go:293-407 | Told all that a drained discovery reported, a settled Group routes each probed Family of its WAN scope-link if point-to-point, else through the very Gateway of the kernel's preferred main-table default on that interface |
| EndToEnd.HealthIsLinkAndHistory | daemon/internal/health/health.go:307-334 | Told all that link discovery reported, a WAN is healthy exactly when the kernel's link is up and its Families' result histories agree under its policy |
| EndToEnd.GatewaysAreTheKernels | daemon/cmd/wanwatchd/daemon.go:376-389 | The daemon's Gateways are then exactly the kernel's preferred defaults, none where there is none |
| EndToEnd.CarrierIsTheKernels | daemon/internal/health/health.go:382-391 | A WAN is then carrier-ready exactly when the kernel's link is present, has IFF_LOWER_UP (0x10000) set and no operstate of 1, 2 or 3 |
| EndToEnd.DaemonLearns | daemon/cmd/wanwatchd/daemon.go:120-136 | In every run the Gateway cache is the fold of the route events told, the startup snapshot included |
| EndToEnd.WansKnowTheirLinks | daemon/internal/health/health.go:183-207 | In every run each WAN has the carrier and operstate of the last link event for its interface, or unknown |
| EventLoop.Serve | daemon/cmd/wanwatchd/eventloop.go:20-73 | A daemon started over any kernel, primed and driven by any events ends, whatever fails, in the last state of a run of the specification |
| EventLoop.SettledObjectsAreConverged | daemon/cmd/wanwatchd/daemon.go:293-407 | So a Group object with nothing pending and no Repair due has the choice selected, and the kernel's own table for it holds that WAN's exact routes |
| EventLoop.HandleAll | daemon/cmd/wanwatchd/eventloop.go:29-50 | Handling events one after another extends the run by exactly those events |
| FailoverTheorems.SettledGroupsAreConverged | daemon/cmd/wanwatchd/daemon.go:293-407 | In every reachable state, under any kernel failures, a Group with no pending Decision and no due Repair has selected the (priority, name)-least healthy Member, or none when none is healthy, and its table holds that WAN's exact route for every probed Family that is point-to-point or has a Gateway |
| FailoverTheorems.IntentIsAlwaysTheChoice | daemon/internal/decision/group.go:83-158 | In every reachable state, settled or not, a Group intends what the Strategy run from scratch on current Health chooses; a pending target always has a WAN and a due Repair always has a Selection |
| FailoverTheorems.SkippedRecomputeIsIdentity | daemon/cmd/wanwatchd/daemon.go:138-192 | A Group with no flipped Member would be left exactly as it is by a recompute, so recomputing only the affected Groups equals recomputing all of them |
| FailoverTheorems.CommitsLandOnTheChoice | daemon/internal/decision/group.go:179-201 | Every commit lands on the Member the Strategy prefers at that moment, never on one the same event made unhealthy |
| FailoverTheorems.AtMostOneDecisionPerEvent | daemon/cmd/wanwatchd/daemon.go:120-192 | One event, the whole startup batch included, adds at most one to each of a Group's Decision, Apply and commit counts |
| FailoverTheorems.FlushedIsDeparted | daemon/cmd/wanwatchd/daemon.go:201-263 | Over any run the WANs flushed for a Group are those left between consecutive distinct entries of its committed-WAN sequence, in order, and the vacated WAN is present iff the Selection is none after some WAN, then naming the last one |
| FailoverTheorems.HooksTellTheSelection | daemon/cmd/wanwatchd/daemon.go:444-471 | Over any run the Hooks form a chain from none with no trivial link, the last one ends at the current Selection and at selectionSince, and decisionsTotal is commits plus superseded targets plus one if one is pending |
| FailoverInFull.HooksTellTheirChange | daemon/cmd/wanwatchd/daemon.go:443-471 | Over any run every Hook was submitted during one event that changed the Group's Selection and tells that change field by field: up, down or switch by which of the two WANs exist, their names, interfaces and probed Families (v4 first), the Group's name, table and mark, a time, and the four Gateways cached right after the event for those interfaces |
| FailoverInFull.HookInFull | daemon/cmd/wanwatchd/daemon.go:443-471 | The Hook of any commit that changes the Selection, the same fields spelled out from the two WANs and the cache |
| FailoverInFull.WritesFollowTheGateways | daemon/cmd/wanwatchd/daemon.go:293-366 | Over any run an event changes a Family's slot of a Group's table only for the WAN the Group then intends, one that probes the Family and is point-to-point or has a known Gateway; with nothing left to do the slot holds that interface's route through that Gateway, or scope link if point-to-point |
| FailoverInFull.RouteEventsKeepToTheirFamily | daemon/cmd/wanwatchd/daemon.go:391-405 | Over any run a route event leaves the other Family of a Group with nothing left to do alone |
| FailoverInFull.EventsCountAndFlush | daemon/cmd/wanwatchd/daemon.go:201-228 | Over any run one event counts a Decision exactly when the intent moves and dates the Selection exactly when it changes; it flushes the WAN left by a switch, or on coming up elsewhere the one vacated by going down, and no other |
| FailoverInFull.GroupsActForCause | daemon/internal/decision/group.go:83-134 | Over any run one event calls Apply once for a Group if its intent moved onto a WAN, or if its intent stays and the event is a result of that WAN with a target pending or a Repair due, or a route event on that WAN's interface; in every other case it changes nothing of the Group, unless the intent moved to none |
| HookDelivery.ExecutedHooksChain | daemon/internal/state/notifications.go:52-111 | In every run of the daemon and every interleaving of a queue that is fed from it and never meets 32 outstanding, the Hooks executed of each Group are a first part of its chain, none missing, repeated or out of order |
| HookDelivery.NothingIsDropped | daemon/internal/state/notifications.go:68-76 | Such a queue accepts exactly what was let in, in order |
| Recovery.OneResultPerWanRecovers | daemon/cmd/wanwatchd/daemon.go:268-275 | Once kernel operations stop failing, any further events that include one Probe result of every WAN leave every Group with no pending Decision and no due Repair, whatever the results say and whatever links and routes do in between |
| Recovery.ReachableStatesRecover | daemon/cmd/wanwatchd/daemon.go:145-151 | That recovery starts from every reachable state |
| Recovery.CallAnswers | daemon/cmd/wanwatchd/daemon.go:166-192 | Under a reliable kernel any call leaves a Group settled, or as it was and not waiting for the WAN whose result the event brought |
| Recovery.MovedChoiceSettles | daemon/cmd/wanwatchd/daemon.go:166-192 | An event without kernel failures that moves a Group's choice leaves it settled on the new one |
| FailoverRuns.RunsAreSound | daemon/cmd/wanwatchd/daemon.go:120-407 | Every state of every run keeps the whole invariant: past, intent, pending, Repair and routes of every Group, over Health that fits the configuration |
| FailoverRuns.StepKeeps | daemon/cmd/wanwatchd/daemon.go:138-407 | One event keeps that invariant, for any failures and any order of Groups and WANs |
| FailoverRuns.UnflippedAlong | daemon/cmd/wanwatchd/daemon.go:120-136 | A WAN no link event of the startup batch flipped is as healthy after the batch as before it |
| FailoverRuns.UnflippedChoice | daemon/cmd/wanwatchd/daemon.go:179-192 | If no Member flipped, the Strategy run again in full chooses the same |
| GroupInvariant.RecomputeKeeps | daemon/internal/decision/group.go:83-98 | A recompute, whatever its Apply does, leaves the Group sound for the new Health |
| GroupInvariant.ProbeKeeps | daemon/internal/decision/group.go:104-115 | A Probe retry, whatever its Apply does, leaves the Group sound |
| GroupInvariant.ObserveKeeps | daemon/internal/decision/group.go:124-134 | A route observation for the Group's WAN restores the soundness its own Gateway change broke |
| GroupInvariant.UntouchedKeeps | daemon/cmd/wanwatchd/daemon.go:376-407 | A Gateway change on another interface leaves a Group sound untouched |
| GroupInvariant.CommitKeeps | daemon/internal/decision/group.go:179-201 | A commit attempt either leaves the target pending or makes it the Selection with its routes in the table and its past recorded |
| GroupInvariant.FullApplyConverges | daemon/cmd/wanwatchd/daemon.go:293-366 | A full Apply that succeeds leaves the WAN's exact route for every probed Family that has one |
| GroupInvariant.RefreshConverges | daemon/internal/decision/group.go:163-177 | Rewriting only the observed Family restores every route of the committed WAN |
| GroupInvariant.RecomputeTwice | daemon/cmd/wanwatchd/daemon.go:179-192 | A second recompute for the same event does nothing, so several flipped Members of one Group still make one Decision |
| GroupInvariant.ObservedElsewhere | daemon/internal/decision/group.go:124-134 | An observation for another WAN does nothing, and none moves the intent |
| GroupInvariant.IntentIsTheLastAsked | daemon/internal/decision/group.go:83-158 | After any calls with any outcomes a Group intends the target of its last recompute, however often that failed, was retried or was superseded |
| GroupHistory.PastGrows | daemon/cmd/wanwatchd/daemon.go:201-223 | Publishing one more commit keeps Hooks, flushes, vacated WAN and bookkeeping readable off the commit history |
| GroupHistory.FlushGrows | daemon/cmd/wanwatchd/daemon.go:201-263 | A commit flushes exactly the WAN departed from, if one was, through a vacated WAN as well as a direct switch |
| GroupHistory.HooksFormAChain | daemon/internal/decision/group.go:39-49 | The Hooks of chained commits chain from none, with no trivial link, to the Selection |
| GroupHistory.DeparturesCountSteps | daemon/cmd/wanwatchd/daemon.go:201-263 | Departures correspond one to one, in order, to the moves between different neighbours of the committed-WAN sequence: none missed, none twice |
| StateFile.StateIsAlwaysFresh | daemon/cmd/wanwatchd/daemon.go:417-440 | If State writes succeed, after every event the written State equals a snapshot taken anew in every field but the probe statistics |
| StateFile.StateShowsEverything | daemon/cmd/wanwatchd/daemon.go:417-440 | After every event of a run whose writes succeed the published State shows, field by field: each WAN's interface, carrier, operstate (unknown beyond 6), Health, per-Family verdict and Targets, and its cached IPv4 and IPv6 Gateway; each Group's Strategy, selected WAN if any, selectionSince unless 0, and decisionsTotal |
| StateFile.SnapshotInFull | daemon/cmd/wanwatchd/daemon.go:417-440 | A snapshot taken anew shows all of that, and the statistics of each Family |
| StateFile.RewrittenForNews | daemon/cmd/wanwatchd/daemon.go:120-175 | Apart from commits State is rewritten exactly for: a startup route; a link event that changes some WAN; a result that fills the first Window or moves a verdict; a Gateway removed, first seen or changed |
| StateFile.StepStaysFresh | daemon/cmd/wanwatchd/daemon.go:166-223 | One event keeps it so, although State is rewritten only on a transition, a commit or a Gateway change |
| StateFile.RecomputeImpliesRepublish | daemon/internal/health/health.go:94-137 | A non-empty Flipped implies Republish, for every event and for the startup batch |
| StateFile.UnpublishedKeepsSnapshot | daemon/cmd/wanwatchd/daemon.go:376-440 | An event that neither republishes nor commits leaves nothing new to show |
| HealthSpec.FlipsArePublished | daemon/internal/health/health.go:183-207 | A Health flip always comes with a change in a published fact |
| HealthSpec.FoldPublics | daemon/internal/health/health.go:114-137 | A fold changes what is published exactly when it is a first full Window or moves the verdict |
| HealthSpec.StatsArePrivate | daemon/internal/health/health.go:114-123 | Statistics stored without a fold move neither Health nor anything published |
| HealthSpec.ProbedChange | daemon/internal/health/health.go:94-123 | What a result changes is exactly what its fold changes, and nothing while the first Window fills |
| HealthSpec.OneWanChanges | daemon/internal/health/health.go:94-110 | Replacing one WAN's view flips exactly that WAN, if its Health differs, and publishes exactly if its published facts do |
| HealthSpec.LinkedOneMore | daemon/internal/health/health.go:183-207 | Folding the link event into one more WAN keeps the flips and transitions reported exact, for any visiting order |
| HealthSpec.FlipsNext | daemon/internal/health/health.go:183-207 | Moving one more view adds its own flip, if its Health differs, and no other |
| HealthSpec.TransitionNext | daemon/internal/health/health.go:183-207 | Moving one more view makes a transition exactly if its published facts differ or there was one already |
| HealthSpec.SamePublicsSameHealth | daemon/internal/health/health.go:307-334 | WAN Health is decided by carrier, operstate, verdicts and cooked flags alone |
| HealthSpec.ColdInFull | daemon/internal/health/health.go:65-86 | Cold Health: carrier and operstate unknown, one unhealthy, unseeded Family for each that has Targets, with every Target listed and no data |
| HealthHistory.VerdictIsHistory | daemon/internal/health/health.go:114-137 | For every result sequence a Family is unseeded until its first full Window, seeded healthy iff that Window is not Bad, and from then on its verdict is the history function's |
| HealthHistory.HistoryIsLastRun | daemon/internal/health/hysteresis.go:49-81 | The history function says healthy iff the last completed run is of consecutiveUp Goods rather than consecutiveDown Bads, or there is none and the seed was healthy |
| HealthHistory.ClassInFull | daemon/internal/health/health.go:347-376 | A result is Bad iff its loss reaches lossPctDown or its RTT rttMsDown, Good iff neither exceeds its Up threshold, a statistic without data counting for it |
| HealthHistory.BandIsClass | daemon/internal/health/health.go:347-362 | Given ordered thresholds, the verdict-dependent band reads a fixed class: a healthy Family passes unless Bad, an unhealthy one only if Good |
| HealthHistory.FlipsSpendObservations | daemon/internal/health/hysteresis.go:49-64 | The thresholds of all flips after the seed, plus the run under way, sum to at most the number of observations |
| HealthHistory.ObservationFollows | daemon/internal/health/hysteresis.go:49-64 | One more observation keeps verdict and run counters equal to what the history says |
| HealthHistory.SeedFollows | daemon/internal/health/hysteresis.go:76-81 | The seed starts that correspondence with both runs empty |
| HealthHistory.FamiliesFollowTheirResults | daemon/internal/health/health.go:94-110 | In every run of the daemon a Family is what its own results make of it, whatever links, routes and other WANs do |
| HealthHistory.ProbedWanIsProbedFamily | daemon/internal/health/health.go:94-137 | A result of one Family moves that Family of that WAN only |
| Timing.RecoveryIsExact | daemon/internal/health/health_test.go:563-606 | From a fully lost, unhealthy Family, all-reply cycles within rttMsUp give a healthy verdict iff their number is at least ceil(W(100-lossPctUp)/100)+consecutiveUp-1, for every W, thresholds, ramp and number of lockstep Targets |
| Timing.FailureIsExact | daemon/internal/health/health.go:347-362 | Dually, from a clean healthy Window unanswered cycles give an unhealthy verdict iff their number is at least ceil(W*lossPctDown/100)+consecutiveDown-1 |
| Timing.DefaultRecoveryTakesThirteen | daemon/internal/health/health_test.go:558-606 | With the default Probe settings a fully lost Family turns healthy on exactly the 13th successful cycle, for any number of Targets |
| Timing.RecoveringClass | daemon/internal/probe/result.go:87-125 | Part way through a recovery the Family's result is Good exactly from cycle ceil(W(100-lossPctUp)/100) on |
| Timing.FailingClass | daemon/internal/probe/result.go:87-125 | Part way through a failure the Family's result is Bad exactly from cycle ceil(W*lossPctDown/100) on |
| Timing.LossesRecovering | daemon/internal/probe/stats.go:72-78 | Replies pushed into a lost Window take its losses out one by one |
| Timing.LossesFailing | daemon/internal/probe/stats.go:72-78 | Losses pushed into a clean Window add up until it is full of them |
| Timing.FamilyRttWithin | daemon/internal/probe/result.go:127-145 | A Family's RTT mean never exceeds what bounds every Sample |
| Bounded.FailureCostsTheVote | daemon/internal/health/health.go:347-362 | In every run of the daemon, a Family that goes unanswered from a clean healthy Window loses its vote on exactly the ceil(W*lossPctDown/100)+consecutiveDown-1st result, whatever other events come between |
| Bounded.RecoveryWinsTheVote | daemon/internal/health/health_test.go:563-606 | In every run, a Family that is answered from a fully lost Window wins its vote back on exactly the ceil(W(100-lossPctUp)/100)+consecutiveUp-1st result |
| Bounded.FailoverIsBounded | daemon/internal/health/health.go:307-334 | Once as many Families of a WAN as its policy needs have gone unanswered that long, one under all-Families, every one under any-Family, the WAN is unhealthy and no Group intends it |
| Bounded.FailoverMovesTraffic | daemon/cmd/wanwatchd/daemon.go:138-192 | If no kernel operation fails during the event that takes it down, every Group that was on it is settled on the best other Member, or on none, with that WAN's exact routes in its table |
| Bounded.RecoveryIsBounded | daemon/internal/health/health.go:307-334 | With the link up and the other Families leaving the decision to it, an answered Family makes the WAN healthy on exactly that result, and then every Group that prefers the WAN intends it |
| Bounded.RecoveryMovesTraffic | daemon/cmd/wanwatchd/daemon.go:138-192 | If no kernel operation fails during the event that makes it the choice, such a Group is settled on it with its exact routes in the table |
| Bounded.SilentPingerFails | daemon/internal/probe/pinger.go:84-155 | A Pinger whose ticks read no reply after a clean Window gives just the results those bounds speak of |
| Bounded.TicksGiveResults | daemon/internal/probe/pinger.go:84-106 | What a Pinger reports tick by tick are the aggregates of the last W Samples of its cycles |
| Window.WindowStats.constructor | daemon/internal/probe/stats.go:61-69 | A new Window is empty, of the given capacity |
| Window.WindowStats.Push | daemon/internal/probe/stats.go:72-78 | A push adds one Sample to the history; the ring still holds exactly the last min(n, capacity), oldest first |
| Window.WindowStats.At | daemon/internal/probe/stats.go:155-166 | Position i of the iteration is the i-th oldest Sample, wherever it sits in the ring |
| Window.WindowStats.Len | daemon/internal/probe/stats.go:85-90 | The length is that of the last min(n, capacity) pushes |
| Window.WindowStats.Filled | daemon/internal/probe/stats.go:99 | Filled iff at least capacity Samples were ever pushed |
| Window.WindowStats.LossCounts | daemon/internal/probe/stats.go:104-111 | Losses and total of exactly the last min(n, capacity) pushes |
| Window.WindowStats.MeanRTT | daemon/internal/probe/stats.go:116-128 | The integer mean over the replies among those, on a 64-bit sum that wraps; none without a reply |
| Window.NewWindow | daemon/internal/probe/stats.go:61-69 | Refuses a capacity that is not positive, and only that |
| Window.RecentNext | daemon/internal/probe/stats.go:71-78 | One more push appends, dropping the oldest exactly when the Window is full |
| Window.WriteInside | daemon/internal/probe/stats.go:72-78 | A write short of the ring's end appends to the ring's reading order, dropping the oldest of a full one |
| Window.WriteLast | daemon/internal/probe/stats.go:72-78 | The write that completes the ring turns its head to 0 and does the same |
| Window.MeanIsArithmetic | daemon/internal/probe/stats.go:113-128 | Unless the round trips sum to 2^64 microseconds the reported mean is the arithmetic one |
| Window.SumsInFull | daemon/internal/probe/stats.go:104-128 | One Sample more adds 1 to the losses if lost, else its RTT to the sum |
| Aggregation.Aggregate | daemon/internal/probe/result.go:87-125 | For every visiting order: exact mean loss, integer mean RTT on a 64-bit sum, WindowFilled iff all filled, PerTarget sorted by name, each Target once; nothing for no Targets |
| Aggregation.AggregateIsUnique | daemon/internal/probe/result.go:78-86 | At most one value keeps that promise, so the order in which Targets are visited cannot show |
| Aggregation.AggregateExists | daemon/internal/probe/result.go:87-125 | Every set of Windows has an aggregate that keeps the promise |
| Aggregation.OneTargetInFull | daemon/internal/probe/result.go:87-125 | A Family with one Target reports that Target's loss, mean RTT and fullness |
| Aggregation.TwoTargetsInFull | daemon/internal/probe/result.go:87-125 | Two Targets count alike however much their Windows hold, one without data staying out of that mean, and the Family is full when both are |
| Aggregation.PerTargetInFull | daemon/internal/probe/result.go:87-125 | The per-Target list names every Target once, in name order, with its own loss and mean RTT, none of either for an empty Window |
| Aggregation.LossTotalPick | daemon/internal/probe/result.go:149-157 | The loss sum is the same whichever Target is added first |
| Aggregation.RttTotalPick | daemon/internal/probe/result.go:129-136 | The RTT sum is the same whichever Target is added first |
| Aggregation.SummedOneMore | daemon/internal/probe/result.go:95-114 | One Target more keeps the accumulators equal to the order-free sums and counts |
| Aggregation.SortedCover | daemon/internal/probe/result.go:115 | The sorted list still holds each Target's statistics exactly once |
| Aggregation.RatioComparesAsIntegers | daemon/internal/health/health.go:360-362 | An exact loss against pct/100 compares as integers cross-multiplied |
| Aggregation.MeanLossComparesAsIntegers | daemon/internal/probe/result.go:147-165 | For lockstep Windows the mean loss is all losses over all Samples, so its comparison with pct/100 is one of integers |
| PingerSpec.ReplyAtIsFirst | daemon/internal/probe/pinger.go:166-190 | A Target's reply time is that of the first read that parses with this ident and its own sequence; none otherwise |
| PingerSpec.OutcomeInFull | daemon/internal/probe/pinger.go:127-190 | A Sample is answered iff the send went out and some read is an echo reply (type 0 or 129) with the ident and sequence number; its RTT is up to the first such read |
| PingerSpec.SlotsInFull | daemon/internal/probe/pinger.go:125-141 | Sequence numbers count on by one, 0 following 65535 |
| PingerSpec.SlotsAreDistinct | daemon/internal/probe/pinger.go:125-141 | Within 65536 Targets no two share a sequence number, whatever the wrap |
| PingerSpec.OneSampleUnlessDisplaced | daemon/internal/probe/pinger.go:116-155 | For any number of Targets a cycle gives each exactly one Sample iff no two sends that went out share a sequence number |
| PingerSpec.OneTurnDisplacesNone | daemon/internal/probe/pinger.go:125-141 | Up to 65536 Targets none ever do |
| PingerSpec.OneTurnMoreDisplaces | daemon/internal/probe/pinger.go:125-141 | With 65537, all sent, the last displaces the first, which gets no Sample |
| PingerSpec.HolderIsLast | daemon/internal/probe/pinger.go:130-132 | A sequence number belongs to the last send that used it |
| PingerSpec.SentOneMore | daemon/internal/probe/pinger.go:127-141 | A send awaits its reply under its sequence number, displacing an earlier one that has it; a failed one loses its Sample |
| PingerSpec.HeardReply | daemon/internal/probe/pinger.go:178-190 | A reply in flight credits the Target of the last send with that sequence and no other |
| PingerSpec.HeardNothing | daemon/internal/probe/pinger.go:178-185 | A foreign ident, a malformed or unknown reply, or a duplicate credits no one |
| PingerSpec.RestIsLost | daemon/internal/probe/pinger.go:143-155 | What is left in flight at a deadline, a fault or a cancellation is lost, and then every Target has its outcome, or nothing if its send was displaced |
| Probing.Pinger.constructor | daemon/internal/probe/pinger.go:63-70 | One empty Window per Target, sharing nothing |
| Probing.Pinger.SendAll | daemon/internal/probe/pinger.go:125-141 | Each Target's request carries the ident and its own sequence; in flight is the last successful send under each number |
| Probing.Pinger.ReadReplies | daemon/internal/probe/pinger.go:166-190 | Reading stops at the first deadline or fault, or once nothing is in flight; what was credited is what was heard |
| Probing.Pinger.TakeReply | daemon/internal/probe/pinger.go:178-189 | One read credits at most the Target in flight it answers |
| Probing.Pinger.RecordLoss | daemon/internal/probe/pinger.go:143-147 | Everything still in flight loses its Sample, in any order |
| Probing.Pinger.Cycle | daemon/internal/probe/pinger.go:120-193 | For any Targets and any reply stream one cycle pushes into every Target's Window its own outcome, or nothing if a later send took its number over, and moves the sequence on modulo 65536 |
| Probing.Pinger.LoseAll | daemon/internal/probe/pinger.go:88-93 | With the interface absent each Window takes one lost Sample |
| Probing.Pinger.Tick | daemon/internal/probe/pinger.go:84-106 | A tick appends to every Window what its cycle gives, a lost Sample without a socket; unless a send displaces another that is one Sample each, so Windows stay in lockstep; the result aggregates what they then hold |
| Probing.CycleInFull | daemon/internal/probe/pinger.go:120-190 | A tick's Sample of the i-th Target: lost without a socket; else answered iff its send went out, the cycle was not cancelled and, before any failed read, an echo reply with the ident and the number (sequence + i) mod 65536 was read, the first giving the RTT |
| Probing.TickedInLockstep | daemon/internal/probe/pinger.go:84-106 | A tick that gives one Sample each keeps every Window at the same number of Samples |
| Probing.LockstepFillsTogether | daemon/internal/probe/pinger.go:84-106 | Windows in lockstep report themselves full on one and the same tick |
| Probing.SilenceIsUnanswered | daemon/internal/probe/pinger.go:84-155 | With the interface absent, a cancellation, or no matching reply read, every Sample of the cycle is a lost one |
| RouteDiscovery.DiscoveryIsNeverStale | daemon/internal/rtnl/route.go:133-241 | For every interleaving of insertions, replacements, deletions of both kinds, lost next-hops, snapshots and rereads, once its Family is read each interface shows the preferred default of the table minus the route being deleted, or something unprocessed touches it |
| RouteDiscovery.DrainedDiscoveryIsExact | daemon/internal/rtnl/route.go:155-227 | Drained, an interface shows a Gateway iff a default is left, and then the lowest-metric, first-listed one's |
| RouteDiscovery.StepKeeps | daemon/internal/rtnl/route.go:160-227 | Every kernel and subscriber step keeps the protocol's invariant |
| RouteDiscovery.RunsKeep | daemon/internal/rtnl/route.go:61-101 | Every state of every run has it, from a subscription with no deletion half done |
| RouteDiscovery.ReadingIsCurrent | daemon/internal/rtnl/route.go:188-205 | A reading that leaves out the deleted route sees the routes that count, unless a later notification touches the key |
| RouteDiscovery.ReadFamilyKeeps | daemon/internal/rtnl/route.go:113-126 | A Family's snapshot shows its preferred defaults, or a deletion under way is still queued |
| RouteDiscovery.ReadKeyKeeps | daemon/internal/rtnl/route.go:205-227 | A live reading brings its key up to date and leaves the others as they were |
| RouteDiscovery.BeginDeleteKeeps | daemon/internal/rtnl/route.go:194-204 | A deletion notified before it unlinks is covered by its own notification |
| RouteDiscovery.EndDeleteKeeps | daemon/internal/rtnl/route.go:194-204 | Unlinking it later changes nothing that counts |
| RouteDiscovery.LaterNoteIsPending | daemon/internal/rtnl/route.go:201-204 | What covers a deletion later, a re-addition or a route that took its next-hops in, is still to be processed |
| RouteDiscovery.ReplaceKeeps | daemon/internal/rtnl/route.go:155-186 | Replacing a route by one on at least its interfaces is covered by the replacement's notification |
| RouteDiscovery.ShrinkKeeps | daemon/internal/rtnl/route.go:173-227 | A next-hop taken off an IPv6 multipath default is covered by its own deletion, even when what is left looks like a route deleted before |
| Multipath.HopIsGone | daemon/internal/rtnl/route.go:213-217 | A next-hop taken off is nowhere left, so leaving its deletion out of a reading drops nothing else |
| Multipath.ShrunkElsewhere | daemon/internal/rtnl/route.go:298-319 | A multipath route that loses a next-hop offers every other interface what it did |
| Multipath.RenewsTouches | daemon/internal/rtnl/route.go:298-319 | A route that takes all next-hops of another in touches every interface the other did |
| RouteTable.BestIsPreferred | daemon/internal/rtnl/route.go:128-132 | The chosen offer has the lowest metric and, among equals, comes first |
| RouteTable.DefaultInFull | daemon/internal/rtnl/route.go:342-356 | A default has no destination, one without address, or the unspecified one with 0 bits; nothing else is one |
| RouteTable.SinglePathOffer | daemon/internal/rtnl/route.go:278-321 | A single-path route in table 254 with such a destination offers its Gateway and metric to the watched interface behind its link in its Family; any other route or key has no offer |
| RouteTable.MultipathOffer | daemon/internal/rtnl/route.go:278-321 | Under the same conditions a multipath route offers each watched interface the Gateway of the first next-hop listed on it |
| RouteTable.PreferredOfOne | daemon/internal/rtnl/route.go:205-227 | In a table of one single-path route that route's Gateway is the preferred one exactly there |
| RouteTable.SameDefaultInFull | daemon/internal/rtnl/route.go:229-241 | Two listings are one default iff both are defaults that differ at most in flags and in how the destination is written |
| RouteTable.DumpShows | daemon/internal/rtnl/route.go:205-217 | A complete dump of one Family shows at its keys what the whole table does, whatever the flags, with or without a route |
| RouteTable.WithoutDrops | daemon/internal/rtnl/route.go:213-217 | Among distinct routes, leaving one out drops exactly its one listing |
| RouteTable.WithoutElsewhere | daemon/internal/rtnl/route.go:229-241 | Leaving out a route changes nothing at a key it does not touch |
| RouteTable.FlagsOfferNothing | daemon/internal/rtnl/route.go:229-233 | Routes that differ only in flags offer the same |
| RouteSubscription.RouteSubscriber.ResolveIface | daemon/internal/rtnl/route.go:327-340 | The cache never changes what a lookup says |
| RouteSubscription.RouteSubscriber.HandleUpdate | daemon/internal/rtnl/route.go:278-321 | For messages 24 (add) and 25 (delete) the candidates are exactly the watched interfaces the route makes an offer to, each once with that offer; none for other messages |
| RouteSubscription.SinglePathCandidates | daemon/internal/rtnl/route.go:278-321 | Of a single-path route that is one Add or Del with its Gateway and metric for its watched interface if it is a main-table default, else none |
| RouteSubscription.RouteSubscriber.SelectDefaults | daemon/internal/rtnl/route.go:133-153 | One Add per interface and Family that has a default, with the preferred one's Gateway, and no other |
| RouteSubscription.RouteSubscriber.ReadSnapshot | daemon/internal/rtnl/route.go:113-126 | The two dumps' selections together are the selection of both |
| RouteSubscription.RouteSubscriber.ReconcileVia | daemon/internal/rtnl/route.go:205-227 | The present preferred default of the key without the deleted route, a Del only when none is left, an error iff the dump failed |
| RouteSubscription.LeaveOut | daemon/internal/rtnl/route.go:213-217 | Drops the first listing of the same default, or nothing |
| RouteSubscription.FoldNext | daemon/internal/rtnl/route.go:298-319 | One next-hop more keeps one candidate per interface, the first listed |
| RouteSubscription.CandidateDone | daemon/internal/rtnl/route.go:138-151 | One candidate more keeps each key's selection the best offer so far |
| LinkDiscovery.DiscoveryMissesNothing | daemon/internal/rtnl/subscriber.go:91-208 | For every interleaving each watched link's last event tells the kernel's state, absent reading as never seen or gone, or a change to it is still to be served |
| LinkDiscovery.EventsAreChanges | daemon/internal/rtnl/subscriber.go:258-292 | Consecutive events of one link differ, except that a link re-created as it was reported gone is reported again |
| LinkDiscovery.StepKeeps | daemon/internal/rtnl/subscriber.go:140-208 | Every kernel and subscriber step keeps the protocol's invariant |
| LinkDiscovery.ReadingKeeps | daemon/internal/rtnl/subscriber.go:258-292 | One reading keeps the state map equal to what the events say and repeats no event |
| LinkDiscovery.SnapshotReads | daemon/internal/rtnl/subscriber.go:140-152 | A snapshot records each watched link as dumped |
| LinkDiscovery.LinksInFull | daemon/internal/rtnl/subscriber.go:258-303 | A drained discovery has told of each watched link: up iff IFF_LOWER_UP (0x10000) is set, with its operstate; gone links as down with operstate 1, or never |
| LinkDiscovery.LinkSubscriber.HandleUpdate | daemon/internal/rtnl/subscriber.go:258-292 | The map edited in place and the event due: up iff 0x10000 is set in the flags, gone (message 17) as down with operstate 1; a repeat or an unseen deletion gives none |
| LinkDiscovery.LinkSubscriber.ReadSnapshot | daemon/internal/rtnl/subscriber.go:140-152 | The events and state of folding a dump in listed order |
| LinkDiscovery.LinkSubscriber.Reconcile | daemon/internal/rtnl/subscriber.go:158-208 | A notification rereads its watched link, a missing one reading as deleted; only a failed read is an error |
| HookQueue.DeliveryIsInOrder | daemon/internal/state/notifications.go:52-111 | For every interleaving the executed events are a prefix of the accepted ones, at most 32 are queued, and no send meets a closed channel |
| HookQueue.CloseDelivers | daemon/internal/state/notifications.go:79-96 | Without cancellation a Close has returned only when every accepted event was executed, and nothing is accepted after |
| HookQueue.BurstIsAccepted | daemon/internal/state/notifications.go:68-76 | As long as fewer than 32 accepted events are still to be executed, a send is never dropped |
| HookQueue.CloseReturnsInTime | daemon/internal/state/notifications.go:79-111 | Once closed, whatever is interleaved, a bounded number of worker steps lets every Close return, and until then the worker can step |
| HookQueue.ClosedNeverGrows | daemon/internal/state/notifications.go:52-111 | Once closed no step reopens the queue or adds work, and each worker step removes some |
| HookQueue.CancelledStartsNothing | daemon/internal/state/notifications.go:98-111 | After a cancellation no Hook starts, at most the one running ends |
| HookQueue.StepKeeps | daemon/internal/state/notifications.go:52-111 | Every step of submission, Close, cancellation and worker keeps the invariant |
| HookQueue.HookNotifier.constructor | daemon/internal/state/notifications.go:44-46 | No channel and no worker to begin with |
| HookQueue.HookNotifier.Submit | daemon/internal/state/notifications.go:52-67 | Refused exactly after Close or cancellation; else the Hook about to be sent is stamped with the present time if it has none, the first one starting the worker |
| HookQueue.HookNotifier.Send | daemon/internal/state/notifications.go:68-76 | Accepts at the end unless 32 are queued, never waiting |
| HookQueue.HookNotifier.Close | daemon/internal/state/notifications.go:83-96 | Closes once, the channel only if it was made |
| HookQueue.HookNotifier.Receive | daemon/internal/state/notifications.go:104-107 | Takes the oldest event, or ends with a drained closed channel |
| HookQueue.HookNotifier.Check | daemon/internal/state/notifications.go:105-108 | A cancelled worker discards what it just took |
| Idents.AllocateIdents | daemon/internal/probe/ident.go:26-55 | For any hash: more than 65536 keys are refused, a repeated key is reported, any other list gets an injective assignment, each key in the first slot cyclically at or after its hash that its predecessors left free |
| Idents.LongerListsAgree | daemon/internal/probe/ident.go:16-22 | Extending the list never changes an earlier key's identifier |
| Idents.FirstFreeIsUnique | daemon/internal/probe/ident.go:39-49 | The first free slot is unique, so the assignment is determined |
| Idents.FirstFreeInFull | daemon/internal/probe/ident.go:39-49 | The first free slot is the free one least far upwards from the hash, 0 following 65535 |
| Idents.AssignedInFull | daemon/internal/probe/ident.go:26-55 | An assigned key has an identifier no earlier key has, while each one from its hash upwards to it, 0 following 65535, is some earlier key's |
| Idents.FullTurnFillsSpace | daemon/internal/probe/ident.go:50-52 | A probe that finds every slot taken means at least 65536 are, so the space is never exhausted within the bound |
| Idents.OneMoreAssigned | daemon/internal/probe/ident.go:45-48 | One key more keeps the whole promise |
| Idents.Probe | daemon/internal/probe/ident.go:39-49 | Finds the first free slot, or none only when all are taken |
| Icmp.InternetChecksum | daemon/internal/probe/icmp.go:140-154 | The 32-bit wrapped, folded and complemented sum of the big-endian words, a last odd byte padded |
| Icmp.FoldKeepsModulo | daemon/internal/probe/icmp.go:149-153 | The carry fold ends within 16 bits, keeps the sum modulo 65535 and yields 0 only for 0 |
| Icmp.WordSumInFull | daemon/internal/probe/icmp.go:140-148 | A byte at an even position adds 256 times itself to the sum, one at an odd position itself |
| Icmp.ShortSumsFit | daemon/internal/probe/icmp.go:141-148 | Up to 131074 bytes the accumulator cannot overflow |
| Icmp.LongSumsOverflow | daemon/internal/probe/icmp.go:141-148 | At every longer length some packet overflows it |
| Icmp.ChecksumIsTrueUnlessOverflowed | daemon/internal/probe/icmp.go:138-154 | For every buffer the result is the Internet checksum iff the accumulator overflowed a multiple of 65535 times and did not drop a non-zero sum to 0 |
| Icmp.OnesAreSummedWrong | daemon/internal/probe/icmp.go:138-154 | It is wrong for 131075 bytes of 0xFF, the first length past the bound |
| Icmp.RechecksumIsZero | daemon/internal/probe/icmp.go:97-99 | Within the bound re-checksumming a built IPv4 request gives 0 (RFC 1071, sections 1 and 2) |
| Icmp.RequestVerifiesUnlessOverflowed | daemon/internal/probe/icmp.go:97-99 | At any length a built IPv4 request verifies iff the number of overflows of its sum is a multiple of 65535 |
| Icmp.LongRequestDoesNotVerify | daemon/internal/probe/icmp.go:97-99 | An IPv4 request with ident and sequence 0xFFFF and 131070 payload bytes of 0xFF does not verify |
| Icmp.EchoRequestBytes | daemon/internal/probe/icmp.go:84-101 | The buffer holds type, code, checksum, ident, sequence and payload, the checksum computed for IPv4 and zero for IPv6 |
| Icmp.RequestInFull | daemon/internal/probe/icmp.go:84-101 | A request byte by byte: type 8 or 128, code 0, checksum (over a zero field; zero for IPv6), ident and sequence high byte first, payload |
| Icmp.ReplyParsesBack | daemon/internal/probe/icmp.go:120-134 | A request with its type flipped parses back to its ident and sequence in both Families; the request itself is refused |
| Icmp.ReplyInFull | daemon/internal/probe/icmp.go:120-134 | Exactly packets of at least 8 bytes with type 0 or 129 parse, to the ident and sequence in bytes 4 to 7 |
| Selector.Select | daemon/internal/selector/selector.go:101-110 | The Strategy primary-backup returns the unique choice on any listing of the Members, no healthy Member having lower priority; any other is an error |
| Selector.PrimaryBackup | daemon/internal/selector/primarybackup.go:12-26 | The healthy Member of lowest priority, ties by name, or none iff none is healthy |
| Selector.HealthyMembers | daemon/internal/selector/primarybackup.go:30-38 | Exactly the healthy Members |
| Selector.ChoiceIsUnique | daemon/internal/selector/primarybackup.go:17-24 | The promise has one answer, whatever the order of Members |
| Selector.ChoiceInFull | daemon/internal/selector/primarybackup.go:12-26 | Some Member is chosen if any is healthy; the chosen one is healthy, none healthy has lower priority, and at equal priority its name is a proper prefix of the other or smaller at the first difference |
| Selector.ChoiceIsLocal | daemon/internal/selector/primarybackup.go:12-26 | The choice depends on the Group's own Members' Health only |
| Health.Hysteresis.constructor | daemon/internal/health/hysteresis.go:32-43 | Each threshold as given, or 1 if that is less; counters at 0, unhealthy |
| Health.Hysteresis.Observe | daemon/internal/health/hysteresis.go:49-64 | One observation moves counters and verdict as the specification's |
| Health.Hysteresis.Seed | daemon/internal/health/hysteresis.go:76-81 | Sets the verdict outright and clears both counters |
| Health.FamilyHealth.Fold | daemon/internal/health/health.go:114-137 | Folds the stored statistics; republish iff first full Window or moved verdict |
| Health.Wan.CarrierReady | daemon/internal/health/health.go:382-391 | False with carrier down or operstate 1, 2 or 3; otherwise true iff carrier is up or operstate is 6 |
| Health.Wan.CombineFamilies | daemon/internal/health/health.go:320-334 | Any or all Families vote healthy, by policy, an uncooked one voting yes; no Family is unhealthy |
| Health.Wan.Healthy | daemon/internal/health/health.go:307-309 | Carrier ready and Families agreeing |
| Health.Wan.SetLink | daemon/internal/health/health.go:190-203 | Stores carrier and operstate; reports exactly whether Health flipped and whether anything published changed |
| Health.Wan.Absorb | daemon/internal/health/health.go:114-137 | Stores a result, folds it unless still filling, and reports exactly what changed |
| Health.Wans.constructor | daemon/internal/health/health.go:65-86 | Cold Health: unknown carrier, uncooked Families of every probed Family |
| Health.Wans.Probe | daemon/internal/health/health.go:94-110 | Unknown WANs and Families are ignored; Flipped and Republish are exact |
| Health.Wans.Link | daemon/internal/health/health.go:183-207 | One link event folded into each WAN that has this interface; Flipped lists exactly those whose Health differs afterwards, in name order |
| Health.Wans.Healthy | daemon/internal/health/health.go:255-258 | A WAN's Health, false for an unknown one |
| Health.Wans.Snapshot | daemon/internal/health/health.go:280-302 | State views of all WANs, by name |
| Health.Wans.MemberHealthOf | daemon/internal/health/health.go:264-273 | One entry per Member holding the Health of its WAN, in name order |
| Decision.Group.Recompute | daemon/internal/decision/group.go:83-98 | A changed choice replaces any pending target, counts one Decision and is tried at once; an unknown Strategy or an unchanged choice changes nothing |
| Decision.Group.Probe | daemon/internal/decision/group.go:104-115 | Retries a pending target of that WAN, or a due Repair of it, and nothing else |
| Decision.Group.Observe | daemon/internal/decision/group.go:124-134 | For its own WAN commits a pending target, or rewrites the observed Family, every one if a Repair is due |
| Decision.Group.Refresh | daemon/internal/decision/group.go:163-177 | A Repair is due afterwards iff the rewrite failed |
| Decision.Group.Commit | daemon/internal/decision/group.go:179-201 | On success the target is the Selection with nothing pending or due, its time moved iff the WAN changed; on failure only the Apply counts |
| Decision.Group.State | daemon/internal/decision/group.go:140-151 | What State shows of a Group |
| Apply.Applier.ApplyRoutes | daemon/cmd/wanwatchd/daemon.go:293-366 | Success leaves the exact route in every slot in scope that has one; slots out of scope, slots of a WAN not point-to-point whose Gateway is unknown (whatever the outcome) and other tables are untouched; an unconfigured WAN fails |
| Apply.AppliedInFull | daemon/cmd/wanwatchd/daemon.go:293-366 | One Family's slot after an Apply: untouched if the WAN has no Target of it, the list leaves it out, or its Gateway is needed and unknown; else on success the interface's scope-link route if point-to-point, or its route through the Gateway |
| Apply.Applier.WriteOne | daemon/cmd/wanwatchd/daemon.go:310-360 | One Family's route: nothing written and no failure while a needed Gateway is unknown, else written, a failed write being a hard failure |
| Apply.GatewayCache.Set | daemon/cmd/wanwatchd/gateway.go:33-37 | Records the Gateway, none for scope link, of one interface and Family |
| Apply.GatewayCache.Clear | daemon/cmd/wanwatchd/gateway.go:39-44 | Removes that entry and no other |
| Apply.GatewayCache.Get | daemon/cmd/wanwatchd/gateway.go:46-51 | The entry, and whether there is one, an entry without Gateway told apart from none |
| Daemon.Daemon.constructor | daemon/cmd/wanwatchd/daemon.go:54-76 | Cold Health, no Gateways, new Groups over whatever the tables hold |
| Daemon.Daemon.Bootstrap | daemon/cmd/wanwatchd/daemon.go:84-109 | Publishes a State that is current before any event |
| Daemon.Daemon.Prime | daemon/cmd/wanwatchd/daemon.go:120-136 | The startup snapshots are one step: Gateways first, then links, one recompute per affected Group |
| Daemon.Daemon.HandleProbeResult | daemon/cmd/wanwatchd/daemon.go:145-151 | Is one Probe step of the specification, for any failures and any map order |
| Daemon.Daemon.HandleLinkEvent | daemon/cmd/wanwatchd/daemon.go:157-159 | Is one link step of the specification |
| Daemon.Daemon.HandleRouteEvent | daemon/cmd/wanwatchd/daemon.go:376-407 | Is one route step of the specification, several WANs sharing the interface included |
| Daemon.Daemon.PublishHealthChange | daemon/cmd/wanwatchd/daemon.go:166-175 | One recompute per affected Group, then State rewritten iff due |
| Daemon.Daemon.RecomputeAffectedGroups | daemon/cmd/wanwatchd/daemon.go:179-192 | Recomputes exactly the Groups with that Member, leaving the others and their tables alone |
| Daemon.Daemon.RetryGroupDecisions | daemon/cmd/wanwatchd/daemon.go:268-275 | Offers every Group a retry for that WAN |
| Daemon.Daemon.PublishDecision | daemon/cmd/wanwatchd/daemon.go:201-223 | Flushes the departed WAN, keeps the vacated one, rewrites State and submits the Hook, in one Group's slice only |
| Daemon.Daemon.FlushVacated | daemon/cmd/wanwatchd/daemon.go:237-263 | A configured departed WAN is flushed once; an unconfigured one is not |
| Daemon.Daemon.NotifyHooks | daemon/cmd/wanwatchd/daemon.go:443-471 | Submits one Hook, the one HookInFull spells out |
| Daemon.Daemon.WriteStateSnapshot | daemon/cmd/wanwatchd/daemon.go:417-440 | A successful write publishes a snapshot taken anew, which SnapshotInFull spells out |
| Daemon.Daemon.LearnGateway | daemon/cmd/wanwatchd/daemon.go:376-389 | Sets or clears the entry, and reports exactly whether State is due a write |
| HandlerProgress.ProgressGrows | daemon/cmd/wanwatchd/daemon.go:179-192 | A pass over the Groups advances each at most once, in any order |
| HandlerProgress.RetriedIsStep | daemon/cmd/wanwatchd/daemon.go:145-151 | A completed retry pass is one step of the specification |
| HandlerProgress.ObservedOnce | daemon/cmd/wanwatchd/daemon.go:391-405 | Of the WANs sharing an interface at most one observation acts on a Group |
| HandlerProgress.ObservedIsStep | daemon/cmd/wanwatchd/daemon.go:376-407 | A completed observation pass is one step of the specification |
| HandlerProgress.RecomputedIsStep | daemon/cmd/wanwatchd/daemon.go:166-192 | A completed recompute pass with its State write is one step of the specification |

## Left out

- Failover.Step: a cancelled context, which makes handlers return early at shutdown, is not modelled; a run has no shutdown.
- FailoverTheorems.SettledGroupsAreConverged: assumes a fixed interface-to-index mapping and that nothing but the daemon edits Group tables; silent kernel route flushes are outside it.
- StateFile.StateIsAlwaysFresh: leaves out `updatedAt`, and assumes State writes succeed; the file itself (JSON, temporary file, rename) is one assignment.
- Daemon.Daemon.WriteStateSnapshot: `updatedAt`, `startedAt` and `version` are not modelled.
- Daemon.Daemon.Bootstrap: installing the policy rules, and the startup failure that can follow, is not modelled.
- Daemon.Daemon.FlushVacated: one logged request stands for the address lookup, its failure and one flush per address.
- FailoverTheorems.FlushedIsDeparted: speaks of those requests, not of the single flushes behind them.
- Apply.Kernel.FlushConntrack: the per-address flush and its address lookup are one logged request per departed WAN.
- Decision.Group.Commit: the commit time is an arbitrary positive number; clocks are not modelled.
- Aggregation.Aggregate: `JitterMicros` (a floating-point standard deviation) and `LossRatio` (the float64 nearest the exact loss, which is modelled) are absent.
- Health.Wans.Snapshot: shows RTT and exact loss per Family; jitter and the floating-point loss ratio are absent.
- Bounded.SilentPingerFails: the results reach the daemon in order and none is lost on the way.
- HookDelivery.ExecutedHooksChain: the daemon's submissions and the queue's are joined by a hypothesis on their order per Group; a queue that does drop is not followed further.
- EventLoop.Serve: cancellation ends the loop between two events; the watchdog case is left out.
- Probing.Pinger.Tick: socket opening, binding and rechecking are a flag, whether a socket is present; reads arrive no earlier than the sends.
- RouteDiscovery.Next: the notification queue is unbounded (an overflow ends the daemon), dumps are complete (an interrupted one is retried), and a replacement that moves a route off an interface without notifying it, interface renames and next-hop objects are outside.
- RouteTable.OfferOf: address families other than the two are not modelled; the code reads an unknown one as IPv4.
- RouteSubscription.RouteSubscriber.ResolveIface: the lookup is a fixed function, so a stale cache entry after a rename cannot arise.
- LinkDiscovery.Next: the notification queue is unbounded and link renames are outside.
- HookQueue.HookNotifier: running the scripts is one opaque step; the limit of scripts per event, their timeouts and their environment are not modelled.
- Idents.AllocateIdents: SHA-256 is an arbitrary function from keys to 16 bits, so everything holds for every hash.
- Config.DaemonConfig.Valid: parsing and validating the configuration file is not a subject here; its checks are preconditions.
- Policy-routing rules (`EnsureRule`), bounded dump retries and the conntrack dump are not modelled.
- Sockets, netlink encoding, metrics, logging, sd_notify, the watchdog and the metrics server are not part of this model, nor are the Nix code and the virtual-machine tests.
