# Verified models of CDCF's protocols

CDCF is a C++ actor and cluster framework. This project models five of its components in Dafny and proves
what they are for: the gossip membership protocol of the node keeper, the load-balancing router of the actor
system, the distributed Yanghui-triangle jobs of the demos, the length-prefixed frame codec of the gossip
transport, and the snapshot diff that feeds membership events to subscribers. `dafny verify dfyconfig.toml`
checks everything.

Code that updates objects in place is modelled as classes (`Membership.Node`, `Router.RouterObject`,
`Router.ProxyObject`, `Policy.MinLoad`, `Frames.Message`, `Frames.Connection`,
`MemberEvents.MemberEventGenerator`, `MemberEvents.Consumer`, the three triangle actors). Each method is proved
equal to a function from the old state to the new one, and the theorems about runs are about those functions.

| file | component |
|---|---|
| `Addresses.dfy` | addresses with the order the ordered containers use, actor-system flags |
| `Membership.dfy` | one node: tables, handlers, relay ping |
| `NodeRuns.dfy` | invariants and exact conditions over every run of one node |
| `NodeEffects.dfy` | what each handler achieves, told by what a node holds and sends before and after |
| `Merging.dfy` | merging up gossip, pings and actor-system gossip does not depend on order |
| `ClusterRuns.dfy` | many nodes over a network that loses, duplicates and reorders |
| `Mailbox.dfy`, `Policy.dfy`, `Router.dfy` | mail, the minimum-load policy, the router with its ticket table |
| `RouterRuns.dfy` | FIFO, load, reply, work-conservation, drain and release theorems over whole router runs |
| `RouterClients.dfy` | what becomes of every request and query over whole router runs |
| `RouterPool.dfy` | which workers are registered, and who is told to exit |
| `RouterFairness.dfy` | round robin and balance over whole router runs |
| `Triangle.dfy` | the sequential dynamic program and its optimality |
| `Rounds.dfy` | a round of tasks answered in any order |
| `CountPath.dfy`, `Reduction.dfy`, `Priority.dfy`, `Jobs.dfy` | the three message-driven jobs, and their agreement |
| `Frames.dfy` | the incremental decoder and the receive loop |
| `MemberEvents.dfy` | the snapshot diff and its replay |
| `Steps.dfy` | the induction behind the "always, exactly if every step" theorems |

## Results

**Membership, one node.** A raised flag implies membership for every other node, and for oneself exactly as long as
the own actor system is never brought up while oneself is not a member. What a node knows is characterised
exactly: itself, and every address that some up gossip, ping or full state taught it and no later down gossip
named. Members and suspects stay disjoint exactly as long as no step is one of three named kinds. In every
state the incarnation of a still-known node decreases in exactly three cases: an up gossip with a smaller
incarnation and a uid other than the one the larger is stored under, and, for a node in both tables, a recovery
under or a suspicion of the smaller of its two incarnations. From disjoint tables only the first is left, and it
is the exact exception to "the largest incarnation wins". What each event makes of the address it is about, that it
touches no other, and what it queues are stated separately: repeated suspicions, recoveries, deaths and
burials, the merging of another node's ping or full state, and the own actor system.

**Membership, cluster.** In every run of any number of nodes, no held or travelling incarnation exceeds its
owner's counter, nobody is flagged up that never came up, nobody is forgotten that never left,
whoever leaves is forgotten by all who hear of it, whoever joins is welcomed by all who hear of it, no two
announcements about a node share a stamp, and an actor-system announcement is news to every node that has the
announcer as a member.

**Router.** Relays followed by held mail are the arrivals in order, loads are the unanswered relays and stay
within the threshold, and every request ever received has exactly one fate: rejected with an empty message, held,
relayed, replied to once, to its sender under its own id, or answered after its worker was removed. Work is conserved
throughout a run exactly if no worker joins while mail is held. From any reachable state pending mail drains, by
exactly one per answer of a registered worker, if and only if none is held or such an answer is outstanding; and
what releases held mail is characterised exactly. Mail that is answered before the next arrives goes to the
workers in turn, and arrivals alone keep balanced loads balanced.

**Triangle.** The sequential program returns the least sum over all root-to-bottom paths, and both distributed
versions and the reduction reach the same values for every order of deliveries, in an exact number of them.

**Frames.** Any cutting of any encoded message list into chunks delivers exactly that list.

**Events.** Replaying the diff rebuilds the snapshot exactly when, per ip, the ports listed before and after are
prefixes of one another.

## Where the code does less than one would expect

Each is stated by a lemma with a concrete input, beside the exact condition.

- An up gossip that is newer than a suspicion makes a node a member while it stays a suspect (`NodeRuns.UpMakesDouble`).
- Pings do not carry uids, so a node first met through a ping loses its incarnation to an older up gossip (`Merging.PingThenUp`).
- A node in both tables loses the larger of its incarnations to an answered ping or to another failure (`NodeRuns.RecoveryLowers`, `NodeRuns.SuspicionLowers`).
- A node that is told to suspect itself can flag its own actor system up without being its own member (`NodeRuns.OwnFlagOutsideMembers`).
- A worker that joins while mail is held gets none of it: the mail stays held beside an idle worker until new mail or a removed worker's late answer comes in (`RouterRuns.HeldMailCanStall`).
- The diff compares ip addresses only, so a port change is missed (`MemberEvents.PortChangeIsMissed`).
- An empty list is never reduced (`Reduction.EmptyNeverReports`) and a triangle of one row sends the in-place job outside its data (`Priority.FirstLevelExists`).

## Model

| member | source | states |
|---|---|---|
| Addresses.LessTotal | node_keeper/src/membership.cc:962-967 | the (ip, port) order is a strict total order, so keys are found and iterated consistently |
| Addresses.LessTransitive | node_keeper/src/membership.cc:962-967 | the order is transitive |
| Addresses.IpThenPort | node_keeper/src/membership.cc:962-967 | members are ordered by ip and, within one ip, by port number |
| Addresses.IpLessExact | node_keeper/src/membership.cc:962-967 | ip addresses are compared lexicographically: the first difference decides, a proper prefix comes first |
| Membership.Node.constructor | node_keeper/src/membership.cc:55-69 | a new node knows itself alone, with incarnation 0 and nothing queued |
| Membership.Node.EraseExpiredMember | node_keeper/src/membership.cc:247-279 | copies stored under another uid are erased from both tables, and the flag is cleared if any was |
| Membership.Node.MergeUpUpdate | node_keeper/src/membership.cc:693-709 | the entry takes the larger incarnation and keeps the key object it has |
| Membership.Node.HandleUp | node_keeper/src/membership.cc:281-311 | whole new state and queue for an up gossip: self ignored, other lives erased, outdated news dropped |
| Membership.Node.HandleDown | node_keeper/src/membership.cc:312-321 | whole new state and queue for a down gossip, passed on when the node is known |
| Membership.Node.MergeDownUpdate | node_keeper/src/membership.cc:738-769 | the named node leaves both tables and its flag is cleared, except for oneself |
| Membership.Node.HandleSuspect | node_keeper/src/membership.cc:322-333 | a suspect's incarnation only rises; a member is suspected by news that is not older |
| Membership.Node.HandleActorSystem | node_keeper/src/membership.cc:342-363 | strictly newer news about a member sets incarnation and flag together and is passed on |
| Membership.Node.MergeActorSystem | node_keeper/src/membership.cc:850-892 | incarnation and flag change together or not at all |
| Membership.Node.HandleGossip | node_keeper/src/membership.cc:281-365 | the six kinds of gossip, each with its whole effect on tables and queue |
| Membership.Node.SuspectMember | node_keeper/src/membership.cc:600-627 | a member moves to the suspects, its flag is cleared and the suspicion queued; others are left alone |
| Membership.Node.RecoverySuspect | node_keeper/src/membership.cc:820-841 | a suspect moves back to the members under the suspected incarnation |
| Membership.Node.MergeMembers | node_keeper/src/membership.cc:771-813 | merging a ping entry by entry, in any order, raises every entry to the larger incarnation and takes the flag with it |
| Membership.Node.UpdateActorSystemStatus | node_keeper/src/membership.cc:711-736 | the full-state loop applies its entries in order |
| Membership.Node.HandleDidPull | node_keeper/src/membership.cc:367-395 | a full state is merged, then oneself is announced, under one or two fresh incarnations |
| Membership.Node.MakePing | node_keeper/src/membership_message.cc:178-201 | a ping lists every member with incarnation and flag, a missing flag as down, and no uid |
| Membership.Node.GetMembersWithStatus | node_keeper/src/membership.cc:927-950 | a full state lists exactly the members, once each and in key order, each with its flag |
| Membership.Node.PingCallback | node_keeper/src/membership.cc:541-561 | an answered ping recovers a suspect; a failed one suspects a member, or with relays starts a relay ping that excludes oneself and the target |
| Membership.Node.HandlePush | node_keeper/src/membership.cc:499-508 | a relay's failure report suspects the target under the local incarnation |
| Membership.Node.HandleActorSystemUp | node_keeper/src/grpc.cc:29-36 | the own flag is raised and announced under a fresh incarnation |
| Membership.Node.NotifyActorSystemDown | node_keeper/src/membership.cc:894-904 | the own flag is dropped and that announced under a fresh incarnation |
| Membership.Node.NotifyLeave | node_keeper/src/membership.cc:21-34 | a leave is announced if there is anyone else |
| Membership.Node.GetRelayMember | node_keeper/src/membership.cc:629-647 | with more than two members, the greatest one that is not excluded; none if all are excluded |
| Membership.Node.RelayPing | node_keeper/src/membership.cc:571-598 | terminates; relays are asked at most once each, in strictly descending order, down to the first that answers; if none does, all were asked and the target is suspected |
| Membership.RelaysOfPing | node_keeper/src/membership.cc:541-561 | a ping target that is a member is relayed through every other member but oneself |
| NodeRuns.StatusesAt | node_keeper/src/membership.cc:711-736 | a full state adds unknown addresses with incarnation 0, keeps known entries, and the last status listed for an address wins |
| NodeRuns.LeavingClearsFlag | node_keeper/src/membership.cc:247-365 | every step that takes an address out of the members clears its flag |
| NodeRuns.FlagStep | node_keeper/src/membership.cc:911-915 | a step separates a flag from its membership if and only if it brings the own actor system up while oneself is not a member |
| NodeRuns.FlagExact | node_keeper/src/membership.cc:247-915 | over a run, for any address, oneself included: the flag implies membership throughout if and only if no step is such a step |
| NodeRuns.FlagImpliesMember | node_keeper/src/membership.cc:247-915 | in every reachable state, another node flagged up is a member |
| NodeRuns.OwnFlagOutsideMembers | node_keeper/src/membership.cc:322-333 | a concrete run after which this fails for oneself |
| NodeRuns.KnowledgeStep | node_keeper/src/membership.cc:281-365 | one step: known afterwards exactly what the event teaches, or was known and is not buried |
| NodeRuns.KnowledgeExact | node_keeper/src/membership.cc:247-841 | after any run: known exactly oneself and whatever was taught and not buried since |
| NodeRuns.OneStampPerAnnouncement | node_keeper/src/membership.cc:848-925 | every increment of the counter stamps exactly one announcement about oneself, in order; other events leave the counter alone and only pass announcements on unchanged |
| NodeRuns.MovesAreGossiped | node_keeper/src/membership.cc:281-627 | becoming a member by gossip or an answered ping, and being suspected, queue one gossip with the incarnation now stored; a burial is passed on; pings and full states are merged silently |
| NodeEffects.SuspicionStep | node_keeper/src/membership.cc:322-333 | one suspicion: a standing suspect takes the larger incarnation silently; a node that is only a member is suspected if and only if the suspicion is not older |
| NodeEffects.SuspicionsOfSuspect | node_keeper/src/membership.cc:322-327 | any suspicions of a suspect, in any order and repetition, leave it under the largest of what was held and heard, with nothing queued |
| NodeEffects.SuspicionsOfMember | node_keeper/src/membership.cc:322-333 | any suspicions of a node that is only a member: suspected if and only if one is not older, under the largest heard, passed on once |
| NodeEffects.PassedOnExactly | node_keeper/src/membership.cc:281-365 | gossip of each kind is passed on if and only if it changed something, and what is passed on |
| NodeEffects.DownBuries | node_keeper/src/membership.cc:312-321 | a down gossip takes any other known node out of both tables, clears its flag and travels on |
| NodeEffects.UpIsTaken | node_keeper/src/membership.cc:281-311 | up gossip about oneself is ignored; about anybody else it leaves an entry at least as new, and itself if it is newer |
| NodeEffects.RecoveryStep | node_keeper/src/membership.cc:334-341 | a recovery is accepted if and only if its node is suspected under an incarnation no larger |
| NodeEffects.FoundDead | node_keeper/src/membership.cc:541-561 | a member found dead is suspected under the incarnation held, and that gossiped; otherwise nothing changes |
| NodeEffects.FoundAlive | node_keeper/src/membership.cc:541-561 | an answered ping brings a suspect back under its incarnation, and gossips that; with relays a failed ping changes nothing yet |
| NodeEffects.FrameStep | node_keeper/src/membership.cc:247-925 | no event touches what is held about an address it is not about |
| NodeEffects.PingAchieves | node_keeper/src/membership.cc:771-813 | hearing the ping another node sends: its members are members here, under the larger incarnation and with the flag of who held it; all else stays |
| NodeEffects.FullStateAchieves | node_keeper/src/membership.cc:711-736 | hearing the full state another node sends: its members are members here, new ones under incarnation 0, all with its flags; all else stays |
| NodeEffects.SelfUpExact | node_keeper/src/membership.cc:894-915 | a node takes its actor system for up if and only if it was brought up and not down again since |
| NodeEffects.OwnFlagCalls | node_keeper/src/membership.cc:894-915 | the two calls raise and drop the own flag and touch nobody else |
| NodeEffects.AnnouncementsNumbered | node_keeper/src/membership.cc:848-925 | a node numbers its announcements 1, 2, 3 and so on over any run |
| NodeRuns.UpSettlesUid | node_keeper/src/membership.cc:281-311 | after an up gossip about another node, it is known and every stored copy has the message's uid |
| NodeRuns.RejoinStartsAfresh | node_keeper/src/membership.cc:247-311 | a node back under a new uid starts afresh, even from a smaller incarnation, with nothing of its former life left |
| NodeRuns.DisjointStep | node_keeper/src/membership.cc:281-365 | members and suspects stay disjoint in a step if and only if it does not add a standing suspect to the members |
| NodeRuns.DisjointExact | node_keeper/src/membership.cc:281-841 | over a run: disjoint throughout if and only if no step is such a step |
| NodeRuns.UpMakesDouble | node_keeper/src/membership.cc:281-311 | a concrete run of three steps that ends with a node in both tables |
| NodeRuns.IncarnationStep | node_keeper/src/membership.cc:247-841 | in every state and for every event: the incarnation of a still-known node decreases if and only if the event is one of three, readable off the tables and the event |
| NodeRuns.DisjointIncarnationStep | node_keeper/src/membership.cc:281-311 | from disjoint tables: if and only if it is an up gossip with a smaller incarnation and another uid |
| NodeRuns.RecoveryLowers | node_keeper/src/membership.cc:820-841 | a reachable state in which an answered ping lowers an incarnation |
| NodeRuns.SuspicionLowers | node_keeper/src/membership.cc:600-627 | a reachable state in which a failure report lowers an incarnation |
| NodeRuns.SuspicionRuns | node_keeper/src/membership.cc:312-364 | over suspicion, recovery, actor-system, down and ping-result steps: tables stay disjoint, nothing becomes known, no incarnation decreases |
| Merging.UpOrPingStep | node_keeper/src/membership.cc:693-813 | what one up gossip or ping makes of an unsuspected entry |
| Merging.LargestExact | node_keeper/src/membership.cc:281-311 | over any run of up gossip and pings: an unsuspected entry is always the largest incarnation mentioned, if and only if no up gossip carries less than what is held under another uid |
| Merging.OrderIndependent | node_keeper/src/membership.cc:693-813 | within one life, runs carrying the same incarnations in any order and repetition leave the same entry |
| Merging.PingThenUp | node_keeper/src/membership.cc:771-813 | a ping and an up gossip that leave different incarnations in the two orders |
| Merging.LatestWins | node_keeper/src/membership.cc:342-363 | for members, and for nodes first met through a ping: incarnation and flag are together those of one largest-stamped piece of news since the node is a member |
| Merging.PairOrderIndependent | node_keeper/src/membership.cc:771-892 | with one flag per stamp, the same news in any order and repetition leaves the same incarnation and flag, also of nodes met on the way |
| Merging.FirstPingOrderIndependent | node_keeper/src/membership.cc:771-892 | for members and nodes whose first mention is a ping, everything said counts as such news |
| ClusterRuns.RunSound | node_keeper/src/membership.cc:247-925 | every reachable cluster is sound: all copies and messages are ones their subject may have caused |
| ClusterRuns.IncarnationsBounded | node_keeper/src/membership.cc:281-365 | no incarnation held by any node or in flight exceeds its owner's counter |
| ClusterRuns.UpOnlyIfBroughtUp | node_keeper/src/membership.cc:850-925 | a raised flag, at a node or in a gossip, ping or full state in flight, means its owner brought the actor system up before |
| ClusterRuns.OnlyNamelessExpire | node_keeper/src/membership.cc:247-279 | with one life per address, an up gossip erases, and so replaces by an older announcement, only copies stored without a uid |
| ClusterRuns.NeverForgotten | node_keeper/src/membership.cc:738-769 | a node that never announced its leave is never forgotten by a node that knew it |
| ClusterRuns.LeaveIsHeard | node_keeper/src/membership.cc:21-34 | a node leaving others behind sends something new, and whoever knows it and hears that, now or later, forgets it, clears its flag and passes it on; alone it sends nothing |
| ClusterRuns.JoinIsNoticed | node_keeper/src/membership.cc:367-395 | a node that pulled a full state sends something new that makes everybody enter it under its own uid, and if its actor system is up something more that makes everybody flag it up |
| ClusterRuns.AnnouncementIsNews | node_keeper/src/membership.cc:894-925 | an up or down announcement is newer than anything held: whoever has the announcer as a member takes it over and passes it on |
| ClusterRuns.OneAnnouncementPerStamp | node_keeper/src/membership.cc:848-925 | in every run no two different announcements about one node share a stamp |
| Policy.FirstMinimumUnique | actor_system/src/load_balancer/policy.cc:38-48 | at most one position is the first minimum in cyclic order |
| Policy.OffsetIsFirstMinimum | actor_system/src/load_balancer/policy.cc:38-59 | rotating and taking the first least element picks the first minimum-load worker in cyclic order from the pivot |
| Policy.PlaceMeaning | actor_system/src/load_balancer/policy.cc:29-76 | placed mail then held mail is old mail then new mail; something is placed exactly if there is mail and a worker below the threshold, and it goes to the first minimum |
| RouterFairness.ArrivalsStayBalanced | actor_system/src/load_balancer/policy.cc:29-59 | over router runs of arrivals alone with fixed workers, registered loads within one of each other stay so |
| RouterFairness.RoundRobin | actor_system/src/load_balancer/policy.cc:52-78 | over router runs from the initial largest 64-bit counter: if every mail is answered before the next arrives, the k-th relay goes to worker k mod n in order of joining |
| RouterFairness.ExchangeIsLegal | actor_system/src/load_balancer.cc:43-60 | such runs can always go on |
| Policy.MinLoad.constructor | actor_system/src/load_balancer/policy.cc:78-80 | the counter starts at the largest 64-bit number and no mail is held |
| Policy.MinLoad.Call | actor_system/src/load_balancer/policy.cc:29-49 | a call holds or hands out exactly as the placement function says |
| Policy.MinLoad.Rotate | actor_system/src/load_balancer/policy.cc:52-59 | the pivot advances with 64-bit wrap and the loads are rotated to it |
| Policy.MinLoad.Hold | actor_system/src/load_balancer/policy.cc:61-65 | mail, if any, joins the end of the queue |
| Policy.MinLoad.Release | actor_system/src/load_balancer/policy.cc:67-76 | what is handed out followed by the queue is the old queue followed by the new mail |
| Router.ProxyObject.AllocateRequestId | actor_system/src/load_balancer/proxy.h:75-82 | the next request number, with the mail's priority |
| Router.ProxyObject.PlaceTicket | actor_system/src/load_balancer/proxy.h:49-55 | the ticket is filed under the response id of a fresh request, never over an existing one |
| Router.ProxyObject.ExtractTicket | actor_system/src/load_balancer/proxy.h:57-73 | the ticket is gone in any case and returned only for a registered worker |
| Router.ProxyObject.Relay | actor_system/src/load_balancer/proxy.h:28-37 | the worker gets the content under the fresh id and the ticket is in place |
| Router.ProxyObject.Reply | actor_system/src/load_balancer/proxy.h:39-46 | the client of the ticket, if any, gets the content under its own response id |
| Router.RouterObject.AddWorker | actor_system/src/load_balancer.cc:105-115 | a new worker joins at the end with load 0, a known one changes nothing |
| Router.RouterObject.DeleteWorker | actor_system/src/load_balancer.cc:117-128 | the worker and its load entry go, order kept |
| Router.RouterObject.ClearWorker | actor_system/src/load_balancer.cc:130-139 | no workers and no loads are left |
| Router.RouterObject.Down | actor_system/src/load_balancer.cc:162-182 | a failed worker goes, and with the last one the router |
| Router.RouterObject.Exit | actor_system/src/load_balancer.cc:141-160 | every worker is told to exit, once, in order |
| Router.RouterObject.GetMetrics | actor_system/include/cdcf/load_balancer/load_balancer.h:62-71 | the loads in worker order |
| Router.RouterObject.Filter | actor_system/src/load_balancer.cc:62-103 | exactly the control messages and unservable requests are handled, with their effect |
| Router.RouterObject.Enqueue | actor_system/src/load_balancer.cc:43-60 | one enqueue has the effect and sends of one step of the specification |
| RouterRuns.AdvanceIsStep | actor_system/src/load_balancer.cc:43-60 | the recorded history is what the steps send |
| RouterPool.PoolStep | actor_system/src/load_balancer.cc:105-182 | registered after a step is who joins and who was registered and is not removed, a removed worker's load is forgotten; the router dies by an exit or by losing its last worker to a failure |
| RouterPool.RegisteredExact | actor_system/src/load_balancer.cc:105-182 | in every run: registered if and only if joined and not deleted, failed, cleared or told to exit since |
| RouterPool.ExitsOnce | actor_system/src/load_balancer.cc:141-160 | the first exit tells each registered worker to exit exactly once; nothing else does |
| RouterRuns.FifoAndLoads | actor_system/src/load_balancer.cc:43-60 | in every run: relays then held mail are the arrivals in order, with content and priority; each registered load is its unanswered relays and within the threshold |
| RouterRuns.ReplyCorrelation | actor_system/src/load_balancer/proxy.h:28-82 | in every run: live tickets are one per unanswered relay under distinct, never reused ids; a request gets one reply, to its sender under its response id, exactly if its worker answered while registered |
| RouterClients.DirectSends | actor_system/src/load_balancer.cc:62-103 | a request nobody can serve gets one empty message, to its sender under its response id, and a query one list of the workers; nothing else gets either |
| RouterClients.RejectionsExact | actor_system/src/load_balancer.cc:95-102 | in every run exactly the requests received while no worker was registered get an empty message, once each, and never become arrivals |
| RouterClients.QueriesAnswered | actor_system/src/load_balancer.cc:88-94 | in every run each query gets one list, with the workers registered when it came |
| RouterClients.EveryRequestHasOneFate | actor_system/src/load_balancer.cc:43-103 | in every run each request is in exactly one of: rejected at once, held, relayed and unanswered, replied to, answered after its worker was removed; every reply carries the worker's answer to its sender under its id |
| RouterRuns.ConservingExact | actor_system/src/load_balancer.cc:43-128 | a step keeps "held mail means all workers at the threshold" if and only if no new worker joins while mail is held |
| RouterRuns.WorkConservation | actor_system/src/load_balancer/policy.cc:29-49 | over whole runs: held mail always means all workers are at the threshold, if and only if no worker ever joins while mail is held |
| RouterRuns.HeldMailCanStall | actor_system/src/load_balancer.cc:105-115 | a reachable state with mail held beside an idle worker, no registered worker left to answer, and a removed worker's answer still due |
| RouterRuns.LateAnswerReleases | actor_system/src/load_balancer.cc:43-60 | that late answer may come, and releases the mail |
| RouterRuns.ReleaseExact | actor_system/src/load_balancer.cc:43-60 | while mail is held, a step relays the oldest mail if and only if it is new mail or an answer, late ones included, and a registered worker is below the threshold or itself answers |
| RouterRuns.AnswerLowersPending | actor_system/src/load_balancer.cc:49-59 | each answer of a registered worker lowers held mail plus total load by exactly one |
| RouterRuns.OutstandingExact | actor_system/src/load_balancer.cc:49-59 | an answer is outstanding exactly if some registered load is positive |
| RouterRuns.AnswerCanMove | actor_system/src/load_balancer.cc:43-60 | after the answer of a registered worker no mail is held or another such answer is outstanding, whatever was held before |
| RouterRuns.Drain | actor_system/src/load_balancer.cc:43-60 | from any reachable state, n answers of registered workers lower pending mail by n; if none is held or an answer is outstanding, this goes on until all is relayed and answered; otherwise there is no such answer |
| RouterRuns.DrainExact | actor_system/src/load_balancer.cc:43-60 | answers of registered workers can settle everything if and only if no mail is held or such an answer is outstanding |
| RouterRuns.ConservingDrain | actor_system/src/load_balancer.cc:43-60 | so from work-conserving states with workers and a positive threshold everything drains |
| RouterRuns.UnansweredCanAnswer | actor_system/src/load_balancer.cc:49-53 | any unanswered relay may be answered, also after its worker was removed |
| RouterRuns.OutstandingCanAnswer | actor_system/src/load_balancer.cc:49-53 | the outstanding answer is one the environment may give |
| Triangle.CellIsLowerBound | demos/yanghui_cluster/yanghui_example_v2.cc:303-321 | a cell of the dynamic program is at most the sum of any path to it |
| Triangle.CellIsAttained | demos/yanghui_cluster/yanghui_example_v2.cc:303-321 | some path has exactly that sum |
| Triangle.BestIsOptimal | demos/yanghui_cluster/yanghui_example_v2.cc:298-330 | the minimum of the last row is the least sum over all root-to-bottom paths |
| Triangle.LocalYanghuiJob | demos/yanghui_cluster/yanghui_example_v2.cc:298-330 | the nested loops return that optimum whenever it is below 2^31, and the largest int otherwise |
| Triangle.FillRow | demos/yanghui_cluster/yanghui_example_v2.cc:306-316 | one pass of the inner loop turns row i - 1 into row i |
| Rounds.Count | demos/yanghui_cluster/simple_counter.cc:48-107 | the counter's sums, minimum then sum, and batch minimum compute what each task means |
| Rounds.Calculate | demos/yanghui_cluster/yanghui_demo_calculator.cc:124-180 | so do the calculator's sums and its batch minimum, with 999 for the empty batch |
| Rounds.BatchMinimum | demos/yanghui_cluster/simple_counter.cc:90-95 | the loop finds the least number of a batch |
| Rounds.FullWhenCounted | demos/yanghui_cluster/yanghui_with_priority.cc:161-183 | counting distinct positions up to their number means that all are there |
| Rounds.AnswerStep | demos/yanghui_cluster/simple_counter.cc:48-107 | in a round, a delivered answer is the right value and the first for its position |
| Rounds.RoundEnds | demos/yanghui_cluster/yanghui_sample_actor.cc:180-189 | once every position is reported nothing of the round is in flight |
| CountPath.EveryOrderSolves | demos/yanghui_cluster/yanghui_sample_actor.cc:93-190 | for every order of deliveries: an exact number of them, no access outside the triangle, no early report, then the dynamic program's last row |
| CountPath.SecondAnswerIgnored | demos/yanghui_cluster/yanghui_sample_actor.cc:180-189 | a second answer for a position is ignored |
| CountPath.CountPathActor.HandleTriangle | demos/yanghui_cluster/yanghui_sample_actor.cc:97-102 | whole effect of a new triangle |
| CountPath.CountPathActor.HandleRow | demos/yanghui_cluster/yanghui_sample_actor.cc:103-179 | collected results overwrite the previous row, then the next row's tasks go out, or the row is reported |
| CountPath.CountPathActor.HandleResult | demos/yanghui_cluster/yanghui_sample_actor.cc:180-189 | the first result for a position is kept, and the last one starts the next row |
| Reduction.MinimaKeepMinimum | demos/yanghui_cluster/yanghui_sample_actor.cc:37-76 | a round keeps the minimum and leaves one number for every three begun |
| Reduction.EveryOrderReduces | demos/yanghui_cluster/yanghui_sample_actor.cc:10-91 | for every order of deliveries a non-empty list is reduced in an exact number of them to its minimum, reported once |
| Reduction.EmptyNeverReports | demos/yanghui_cluster/yanghui_sample_actor.cc:37-47 | the empty list sends nothing and is never reported |
| Reduction.SecondAnswerIgnored | demos/yanghui_cluster/yanghui_sample_actor.cc:78-82 | a second answer for a batch is ignored |
| Reduction.GetFinalResultActor.HandleData | demos/yanghui_cluster/yanghui_sample_actor.cc:15-77 | the batching loop sends every batch once, or reports the single number |
| Reduction.GetFinalResultActor.HandleResult | demos/yanghui_cluster/yanghui_sample_actor.cc:60-74 | the last batch minimum of a round starts the next one |
| Reduction.GetFinalResultActor.CollectResults | demos/yanghui_cluster/yanghui_sample_actor.cc:67-70 | the collected minima in key order |
| Priority.EveryOrderSolves | demos/yanghui_cluster/yanghui_with_priority.cc:99-202 | for two rows or more and every order of deliveries: answers overwriting their own inputs' row never mix levels, each level advances once, and the optimum is reported at the end |
| Priority.FirstLevelExists | demos/yanghui_cluster/yanghui_with_priority.cc:114-150 | the first level stays inside the data if and only if there are at least two rows |
| Priority.PriorityActor.HandleTriangle | demos/yanghui_cluster/yanghui_with_priority.cc:103-113 | whole effect of a new triangle |
| Priority.PriorityActor.HandleStart | demos/yanghui_cluster/yanghui_with_priority.cc:114-150 | one task for every position of the level, from the current row |
| Priority.PriorityActor.HandleResult | demos/yanghui_cluster/yanghui_with_priority.cc:151-183 | the answer overwrites its position, and the counter decides whether the level is done |
| Priority.PriorityActor.HandleEnd | demos/yanghui_cluster/yanghui_with_priority.cc:184-190 | the whole row is sent for its minimum |
| Jobs.AllVersionsAgree | demos/yanghui_cluster/yanghui_example_v2.cc:684-691 | row-by-row plus reduction, and from two rows on in-place, run to the end in any order, all give the optimum the client compares with |
| Frames.DigitsOfSize | node_keeper/src/gossip/message.h:18-22 | the four length bytes are the base-256 digits of the size |
| Frames.WireFormat | node_keeper/src/gossip/message.h:18-26 | four length bytes, most significant first, the type byte, the payload |
| Frames.EncodedIsComplete | node_keeper/src/gossip/message.h:18-45 | an encoding is complete at its last byte and not before, and holds type and payload |
| Frames.FeedAppend | node_keeper/src/gossip/connection.h:39-50 | two chunks in turn leave the same buffer and deliveries as their concatenation |
| Frames.ChunkingIsInvisible | node_keeper/src/gossip/connection.h:39-50 | so does any list of chunks |
| Frames.Reassembly | node_keeper/src/gossip/connection.h:27-53 | any cutting of the encodings of any messages under 2^31 bytes delivers exactly these messages, in order, with nothing left over |
| Frames.EncodingIsInjective | node_keeper/src/gossip/message.h:18-26 | different message lists have different encodings |
| Frames.Message.constructor | node_keeper/src/gossip/message.h:18-26 | the sender's buffer is the encoding |
| Frames.Message.Length | node_keeper/src/gossip/message.h:87-96 | the loop computes the big-endian number in the header, 0 before it is complete |
| Frames.Message.IsSatisfied | node_keeper/src/gossip/message.h:43-45 | satisfied exactly if the buffer is complete |
| Frames.Message.DecodeHeader | node_keeper/src/gossip/message.h:63-77 | fills the header, no further, and takes everything if that is not enough |
| Frames.Message.DecodeBody | node_keeper/src/gossip/message.h:79-85 | takes everything, or exactly up to the end of the message |
| Frames.Message.Decode | node_keeper/src/gossip/message.h:29-41 | progress on unfinished messages; all is taken unless the message is completed; nothing past the first completion |
| Frames.Connection.Receive | node_keeper/src/gossip/connection.h:39-50 | the receive loop refines the byte-at-a-time decoder for every chunk and every left-over buffer |
| Frames.Connection.ReceiveAll | node_keeper/src/gossip/connection.h:27-53 | so does the loop over all chunks |
| MemberEvents.DifferenceByGroup | node_keeper/src/event.h:60-83 | of each ip's members the sorted difference cancels the first ones, as many as the other side has |
| MemberEvents.ReplayExact | node_keeper/src/event.h:60-83 | replay turns the old set into the new one if and only if per ip the ports before and after are prefixes of one another |
| MemberEvents.OnePortReplayable | node_keeper/src/event.h:60-83 | one member and port per ip suffices |
| MemberEvents.PortChangeIsMissed | node_keeper/src/event.h:63-66 | a node that moved to another port is neither removed nor added |
| MemberEvents.FlagReplayExact | node_keeper/src/event.h:45-58 | a replayed flag is right after an update if and only if the address was not dropped while up |
| MemberEvents.RebuiltExact | node_keeper/src/grpc.cc:63-77 | over a run: the rebuilt members equal every snapshot if and only if every update is replayable |
| MemberEvents.StablePortsRebuilt | node_keeper/src/grpc.cc:63-77 | with one member and port per ip throughout, the rebuilt members equal the last snapshot |
| MemberEvents.RebuiltFlagsExact | node_keeper/src/event.h:45-58 | over a run: replayed flags are right if and only if no update drops an address while up |
| MemberEvents.MemberEventGenerator.Update | node_keeper/src/event.h:29-43 | the events are the diff of the remembered and the new snapshot, which is then remembered |
| MemberEvents.MemberEventGenerator.GenerateEventForActorSystem | node_keeper/src/event.h:45-58 | the changed flags in key order; inserted defaults change no reading |
| MemberEvents.MemberEventGenerator.SetDifference | node_keeper/src/event.h:68-77 | the two-pointer loop computes the difference by ip |
| MemberEvents.Consumer.Notify | node_keeper/src/grpc.cc:63-77 | the consumer's set is the replay of the events |

## Left out

- Sockets, resolvers, timers, threads, `Transport`, protobuf and gRPC: input and output; messages are datatypes and the network is the set of everything ever sent.
- Names, host names and roles of members: carried along by the code, never decided upon.
- Lock-level interleavings: each handler and each `enqueue` is one atomic step; some paths of the router release its lock early.
- The relay's own ping and its report are two events of the cluster model; the relay chain itself is proved with fixed members, in `Membership.Node.RelayPing`.
- Node restarts in the cluster: one life per address there, since the counter starts again at 0. Rejoining is a single-node property (`NodeRuns.RejoinStartsAfresh`).
- Incarnations are natural numbers; the code mixes 32-bit signed and unsigned ones, which agree below 2^31.
- The retransmit count of queued gossip: a message on the queue may be heard any number of times, or never.
- Subscriber notification inside the handlers, random choice of targets (free in the model), seed selection, retries of the first pull.
- Frames.Message.Length: models the header's true value; from 2^31 on the code shifts a promoted `int`, which is not defined, so `Frames.Reassembly` asks for payloads under 2^31 bytes.
- `PullSession` reading on after its first message: its loop does not reset the message.
- Router corner cases the code does not cover: mail other than requests without any worker, putting back a removed worker, worker lists asked for without a sender. `RouterRuns` asks the environment not to do these, and to answer each relayed message at most once.
- RouterRuns.Drain: counts loads of registered workers only; a late answer of a removed worker leaves a stray load entry of which nothing is claimed.
- Wrap-around of request numbers and the bit layout of message ids: ids are abstract requests, responses and asynchronous messages.
- Triangle.LocalYanghuiJob: integers do not overflow; the cap at the largest int is modelled.
- Jobs.AllVersionsAgree: the last row has exactly as many numbers as there are rows, since the row-by-row job reports that row whole.
- Rounds.Count: asks for a non-empty batch, since the counter reads the first number of an empty one too; no job sends one.
- Rounds.Calculate: has no handler for minimum-then-sum tasks, which only the row-by-row job sends.
- Which client gets the reports: the reduction remembers the first client only and the other actors the latest one, so runs have one client at a time.
- MemberEvents.Consumer.Notify: delivery to subscriber channels and its host filter are not modelled.
- Seed-list parsing, `RouterPool`, guards, monitors, the daemon, configuration, logging and the other demos: wrappers, or easy members.
