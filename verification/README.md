# kube-ovs: a verified model

kube-ovs gives every Kubernetes node an Open vSwitch bridge. A per-node controller compiles
cluster state into an OpenFlow program; a central controller keeps one VSwitchConfig per node and
hands out tunnel IDs; a CNI plugin connects pods. This project models the four parts of that
system whose correctness is not visible in any single function, and proves what they achieve
together.

**The flow program and packets.** `OpenFlow.dfy` is a small OpenFlow 1.3 switch: flow tables,
priorities, a lookup *relation* (equal-priority ties stay open, as section 5.3 of the OpenFlow
Switch Specification 1.3.0 leaves them), actions, forward gotos, suppression of output to the
ingress port. `Flows.dfy` holds the flow builders and event handlers of one node as imperative
code. `Views.dfy` and `Routing.dfy` show that the resulting tables compute a routing function
that mentions no table or priority. `NodeMachine.dfy` is the node as a step system, in which the
vswitch handler, the pod handler, the reply loop and the queue consumer interleave, `ovs-ofctl`
calls fail, and writes are lost or repeated. `Safety.dfy` and `History.dfy` give the theorems for
every reachable state and for every history; `Flight.dfy` and `Freshness.dfy` bound how stale the
tables may be while flows are in flight; `Independence.dfy` says when history can be forgotten;
`Cluster.dfy` is about several nodes; `Progress.dfy` shows that every history has a run that settles.

**The control plane.** `ControlPlane.dfy` is the protocol between the tunnel ID allocator and the
vswitchcfg controller on the API store, with compare-and-set updates and arbitrarily stale
caches. `TunnelIDs.dfy`, `VSwitchCfg.dfy` and `Controllers.dfy` hold the sequential code;
`Exhaustion.dfy` is a run on a full pool of tunnel IDs; `TunnelKeys.dfy` carries unique IDs over to
the entries of table 40.

**The send queue.** `Connection.dfy` is the queue at the level of single lock operations;
`Channel.dfy` is what it looks like from outside; `Delivery.dfy` relates it to flow tables;
`Composition.dfy` puts the handlers of a node on top of it and carries the theorems of the node
over to the level of locks, and `Settling.dfy` shows that its threads can come to rest.

**Addresses.** `Addresses.dfy` is mask and CIDR arithmetic, used by all of the above;
`Gateways.dfy` and `BridgeAddr.dfy` are the address code of the CNI plugin.

## How to read the main results

- A *run* is a sequence of states and steps from start-up. A theorem that takes a run and an index
  speaks about every reachable state.
- *Drained* means that nothing is queued and no handler is in the middle of a call. The flows of an
  event *have left the queue* once every one of them was written successfully.
- A node's *picture* is what its event history says: for each remote CIDR the tunnel ID and overlay
  IP, and for each local pod address its MAC and port. It is kept per protocol, because a vswitch
  event can fail between its IP and its ARP entry.
- Where the code meets a property only under a condition, the condition is stated as an
  if-and-only-if: room in the pool of tunnel IDs, CIDRs that are no longer routed as announced last,
  overlapping CIDRs in tables 20 and 40, a gateway in a /32 and a default route without a gateway.
  For the first two a concrete run shows the failing case.

- Where Dafny would try induction on a lemma by itself, the lemma says `{:induction false}` and
  writes its induction out: the hypothesis that Dafny 4.11 generates also claims that calls in the
  lemma's contract are well-formed for values of other types, which can be contradictory.

## Model

| member | source | states |
|---|---|---|
| Addresses.InNetIsRange | cmd/kube-ovs-cni/plugin.go:601 | masking and comparing, as Contains does, holds exactly for the `2^host` consecutive numbers of the block, that is, for equal quotients |
| Addresses.CidrIsRange | controllers/openflow/datalink.go:69-76 | a valid CIDR starts at a multiple of its size and contains exactly the addresses `base <= a < base + 2^(32 - len)` |
| Addresses.NextIPv4 | controllers/openflow/controller.go:61-62 | the successor of an IPv4 address is that number plus one exactly between 1.0.0.0 and 255.255.255.255 |
| Addresses.NestedOrDisjoint | cmd/kube-ovs-cni/plugin.go:601 | two address blocks that share an address are nested: the whole range of the smaller lies in that of the larger (section 3.1 of RFC 4632) |
| Addresses.TwoWayContainsIsIntersection | cmd/kube-ovs-cni/plugin.go:597-601 | the two-way Contains test holds exactly when the two ranges share a number |
| OpenFlow.RunExists | controllers/openflow/flows.go:34-47 | a switch whose gotos all move forward has a pipeline run for every packet, so claims about all runs are never vacuous |
| Flows.WireID | controllers/openflow/flows.go:150 | a non-negative 32-bit tunnel ID is the number itself on the wire, a negative one its 64-bit two's complement |
| Flows.Controller.AddDefaultFlows | controllers/openflow/flows.go:51-83 | the default flows in order, and what has been sent when a port lookup fails |
| Flows.Controller.DataLinkFlowsForGateway | controllers/openflow/datalink.go:167-216 | the gateway flows built step by step are the table 0 and table 10 gateway entries |
| Flows.Controller.DefaultARPFlows | controllers/openflow/datalink.go:218-258 | the ARP flows built step by step are the classification, local and cluster ARP entries |
| Flows.Controller.AddTunnelDstFlows | controllers/openflow/flows.go:282-316 | which table 40 entries are on the bridge after both, one or neither `ovs-ofctl` call succeeded |
| Flows.Controller.FlowsForVSwitch | controllers/openflow/flows.go:85-222 | the flows returned for a remote or the current node, the error cases, and the entries installed on the way, also when the call then fails |
| Flows.Controller.OnVSwitch | controllers/openflow/flows.go:318-350 | queue and bridge after an add or update event, including failing ones |
| Flows.Controller.SyncPod | controllers/openflow/datalink.go:69-165 | nothing is sent for a pod without a local address or a port, otherwise its IP and ARP entry |
| Views.AddReplacesSlot | controllers/openflow/flows.go:154-219 | among all entries the program writes, two share a flow key exactly when one replaces the other |
| Views.LogRepresents | controllers/openflow/flows.go:85-222 | for every log of entries that reached the bridge, the flow table holds exactly the last entry of each slot |
| Views.CodeHasEffect | controllers/openflow/datalink.go:135-142 | executing the instructions of any entry has the stated effect on a packet, its outputs and the next table |
| Routing.PipelineComputesRoute | controllers/openflow/datalink.go:105-258 | every run of any packet through the tables ends in the output of the routing function, whichever entries the switch picks |
| Routing.TablesRefineRoute | controllers/openflow/flows.go:51-222 | with disjoint remote CIDRs the switch forwards a packet as `outs` if and only if `outs` is its route: gateway, local pod, tunnel, host or drop |
| Routing.OverlayAddressIsRange | controllers/openflow/flows.go:106-130 | the addresses sent to the overlay are, as numbers, those in the range of the cluster CIDR outside the range of the pod CIDR and other than the gateway |
| Routing.GotosMoveForward | controllers/openflow/flows.go:116-218 | every table set the program can build has only forward gotos |
| Safety.BoundedForwarding | controllers/openflow/flows.go:34-49 | from any table on, every packet hits a bounded number of entries (five from table 0) and is output at most once |
| Safety.EveryLogForwards | controllers/openflow/flows.go:116-218 | whatever has reached the bridge, in any order, every packet has a run, visits at most five tables and leaves at most once |
| Safety.NothingLostBeforeTunnel | controllers/openflow/flows.go:138-188 | a run that hits a table 20 entry always ends at an installed tunnel entry for its destination, with an output on the vxlan port |
| Safety.OwnTunnelsAreDead | controllers/openflow/flows.go:189-219 | removing the current node's table 40 entries changes the outcome of no packet |
| Safety.UnambiguousExactlyWhenDisjoint | controllers/openflow/flows.go:138-219 | for every table, lookup is unambiguous for all packets exactly when, in table 20, the remote CIDRs are disjoint, and, in table 40, tunnels of one ID are disjoint and two of the node's own entries of one ID never meet without a tunnel above them; the other tables are never ambiguous |
| Safety.TunnelUnambiguous | controllers/openflow/flows.go:282-316 | a packet that reaches table 40 through table 20 can select only one entry there when the remote CIDRs are disjoint, whatever the node's own entries are |
| NodeMachine.RunKeepsInv | controllers/openflow/flows.go:318-350 | in every reachable state: tunnels precede their table 20 entries, what arrived plus what is queued adds up to what was sent, and the logs match the events |
| NodeMachine.DeliveryIsIdempotent | connection/connection.go:128-137 | delivering the head of the queue again after a failed write does not change what the log adds up to |
| History.DrainedNodeRoutes | controllers/openflow/flows.go:85-222 | in every run, whenever nothing is in flight, forwarding of every packet is the routing function over the event history, with failed events, retries and all interleavings |
| History.DrainedPodIndex | controllers/openflow/datalink.go:78-165 | table 50 holds, for IP and ARP, the MAC and port of the last successful sync of each address, and nothing outside the pod CIDR |
| History.MakeBeforeBreak | controllers/openflow/flows.go:138-188 | in every reachable state, also in the middle of a handler and after a failed install, each installed or queued table 20 entry has its table 40 entry on the bridge |
| History.TunnelledAsAnnounced | controllers/openflow/flows.go:138-188 | in every reachable state a packet that hits table 20 leaves under the tunnel ID and towards the overlay IP of one single event whose CIDR covers its destination, never a mixture of two configurations |
| History.ReachableUnambiguous | controllers/openflow/flows.go:85-222 | in every state of every run, in every table and for every packet at most one entry of highest priority matches, if the CIDRs announced by remote vswitches are equal or disjoint and so are the node's own under one tunnel ID |
| History.ReachableDeadEntries | controllers/openflow/flows.go:189-219 | in every reachable state the node's own table 40 entries decide nothing |
| Progress.CanSettle | connection/connection.go:112-139 | from every reachable state the node can reach a drained state without new events |
| Progress.EveryHistorySettles | controllers/openflow/flows.go:318-350 | every pair of vswitch and pod histories is the history of a run that ends drained |
| Freshness.FreshlyTunnelled | controllers/openflow/flows.go:318-350 | in every reachable state with any flows in flight: once the flows of an event for a CIDR have left the queue, every packet for that CIDR leaves under the tunnel ID, as the number in the config, and towards the overlay IP of one event for that CIDR that is not older |
| Freshness.FreshlyDelivered | controllers/openflow/datalink.go:69-165 | the same for pods: once the flows of a pod event have left the queue, packets for its address go to the port and MAC of one event for that address that is not older |
| Freshness.PodEntriesWritten | controllers/openflow/datalink.go:69-165 | once the flows of a pod with a parsed address in the pod CIDR and a found port have left the queue, its IP and ARP keys are in table 50 with priority 100, with the MAC and port of a sync that is not older |
| Freshness.OwnEntriesWritten | controllers/openflow/flows.go:189-219 | once the flows of an event for the node's own vswitch have left the queue, its IP and ARP keys are in table 40 with priority 100 and its tunnel ID, going to table 50 |
| Freshness.DrainedHasLeft | connection/connection.go:112-139 | in a drained state the flows of every event have left the queue |
| Independence.HistoryIndependence | controllers/openflow/flows.go:318-350 | if each vswitch name keeps one pod CIDR, forwarding after any history of successful events over disjoint CIDRs equals forwarding after the latest event of each name alone, although stale table 40 entries stay |
| Independence.HistoryIndependenceExactlyWhen | controllers/openflow/flows.go:335-357 | for any history of successful events over disjoint CIDRs, whatever CIDRs names took over or gave up, that holds exactly when every announced CIDR with an overlay address is mapped to the same tunnel ID and overlay IP by the latest events as by the whole history |
| Independence.NoneAbandonedExactlyWhen | controllers/openflow/flows.go:335-357 | if moreover no CIDR was ever announced under two names, it holds exactly when no abandoned CIDR covers an overlay address |
| Independence.RenumberedVSwitchDiffers | controllers/openflow/flows.go:335-357 | a concrete run: a vswitch that changes its pod CIDR is still reached under the old one |
| Independence.PassedOnCIDRDiffers | controllers/openflow/flows.go:335-357 | a concrete run: a CIDR that passed to another vswitch, which then gave it up, is still routed to that one, though the latest configuration names its first owner |
| Cluster.LastAnnouncementDecides | controllers/openflow/flows.go:85-188 | in any history, with failing events, the last announcement of a CIDR, if it succeeded, decides its tunnel ID and overlay IP for IP and ARP |
| Cluster.LatestConfigDecides | controllers/openflow/flows.go:318-350 | after successful events only, the latest event of a vswitch that is the only one to have announced its CIDR is the last announcement of that CIDR |
| Cluster.EndToEndDelivery | controllers/openflow/flows.go:106-175 | once A's flows for the last event about B's pod CIDR, and B's flows for the last sync of a pod, have left the queues, with anything else in flight at both ends: an IP or ARP packet of A for that pod leaves A exactly once, otherwise unchanged, with the number of that event's tunnel ID and towards its overlay IP, and B outputs it exactly once on the pod's port whatever tunnel key it carries |
| Cluster.AtMostOneTunnel | controllers/ports/vxlan.go:89-95 | whatever the tables of the hosts hold, a packet crosses at most one tunnel, by the ingress rule and the single vxlan port per host alone |
| Connection.RunKeepsInv | connection/connection.go:84-139 | lock ownership, wake-ups, the head of the queue and the order of messages are consistent in every reachable state |
| Connection.QueueIsSafe | connection/connection.go:112-139 | the head is never read from an empty queue, and a sleeping consumer that was not signalled has an empty queue or no connection, unless the thread that changed that holds the mutex and its next operation is the broadcast |
| Connection.WrittenInOrder | connection/connection.go:84-139 | the messages written successfully are a prefix of those sent, and the rest is exactly the queue |
| Connection.StuckExactlyWhenBlocked | connection/connection.go:84-139 | in every reachable state an awake thread cannot go on exactly when another thread holds the mutex it needs |
| Connection.NoCircularWait | connection/connection.go:84-129 | a chain of threads waiting for `queueMu` and `connMu` has at most two links and ends in a thread that is not blocked |
| Connection.NoDeadlock | connection/connection.go:84-139 | a reachable state is stuck exactly when all calls have returned and the consumer sleeps with nothing to do |
| Connection.StepRefinesChannel | connection/connection.go:100-137 | every lock-level step is no change, one appended message, or one delivered, repeated or lost transfer of the head |
| Composition.StepSimulates | connection/connection.go:84-137 | every step of a node at the level of locks, with handlers that call Send one flow at a time, is a step of the node machine or invisible to it |
| Composition.RunRefines | cmd/kube-ovs/main.go:210-238 | every state a lock-level run reaches is reached, as the node machine sees it, by a run of the node machine, so its theorems about reachable states hold at the level of locks |
| Composition.QuietIsDrained | connection/connection.go:84-139 | a connected node in which no thread can go on by itself has nothing left in the queue or in a handler |
| Composition.QuietNodeRoutes | connection/connection.go:84-139 | when no thread of a connected node can go on by itself, every packet is forwarded as the routing function over the event history says, after any interleaving of lock operations, reconnections and retries |
| Settling.CanRest | connection/connection.go:84-139 | from every reachable lock-level state, whatever its threads are in the middle of, the node can come to rest with a connection and its histories unchanged |
| Delivery.RetryIsHarmless | connection/connection.go:128-137 | in every run of the queue, what reached the switch followed by what is still unwritten leaves the flow tables of exactly-once delivery |
| Delivery.HelloThenDefaults | cmd/kube-ovs/main.go:210-238 | HELLO and then the default flows are the first messages written in every run |
| TunnelKeys.WritesItsID | controllers/openflow/flows.go:189-316 | every table 40 key an event writes carries its CIDR and its tunnel ID, with priority 150 for another node and 100 for the own one; a completely handled event of another node writes one for IP and one for ARP |
| TunnelKeys.DifferentIDsDifferentKeys | controllers/openflow/flows.go:282-316 | events with different IDs in [100, 9999] never write the same table 40 key |
| TunnelKeys.LiveConfigsNeverShareEntries | controllers/tunnel/allocator.go:104-139 | over all runs of the two controllers in which allocations found room, events that show two live configs with assigned IDs never write the same table 40 key on any node |
| TunnelIDs.GetCurrentTunnelIDs | controllers/tunnel/allocator.go:141-178 | the set built in the loop is the set of valid IDs in the list |
| TunnelIDs.Scan | controllers/tunnel/allocator.go:123-129 | the counting loop stops at the first ID not in use, or one past the range |
| TunnelIDs.LeastFreeByPigeonhole | controllers/tunnel/allocator.go:123-132 | for any list the scan stays in range exactly when fewer than 9900 distinct valid IDs occur, and then returns the least unused one; it yields 10000 exactly when all occur |
| TunnelIDs.ExhaustedPoolRepeats | controllers/tunnel/allocator.go:123-132 | with the pool exhausted the scan returns 10000 every time, since 10000 is never counted as used |
| VSwitchCfg.NodeOverlayIP | controllers/vswitchcfg/vswitchcfg.go:225-248 | by position in the list: the last internal address if it is not empty, else the last external one if it is not empty, else an error |
| VSwitchCfg.Overwrite | controllers/vswitchcfg/vswitchcfg.go:198-203 | a sync replaces every managed field and keeps the tunnel ID of the cached copy |
| VSwitchCfg.NeedsUpdateIsExact | controllers/vswitchcfg/vswitchcfg.go:132-173 | for a usable node and a cached config, an update is needed exactly when the sync would write a different object |
| ControlPlane.StepKeepsBookkeeping | controllers/vswitchcfg/vswitchcfg.go:175-207 | every step keeps: each version is stored once, a pending update carries the tunnel ID of the version it was copied from, and the allocator's list still covers all IDs in use |
| ControlPlane.CommitKeepsIDs | controllers/vswitchcfg/vswitchcfg.go:186-206 | no write of the vswitchcfg controller changes a live tunnel ID, and a created config has none |
| ControlPlane.AllocationIsUniqueExactlyWithRoom | controllers/tunnel/allocator.go:104-139 | an allocation keeps IDs in range and distinct exactly when the config was changed since it was read, so that the compare-and-set refuses the update, or fewer than 9900 valid IDs were in use |
| Exhaustion.FullPoolLosesUniqueness | controllers/tunnel/allocator.go:104-139 | a concrete run from a store of 9900 distinct IDs: two undisturbed allocations leave two live configs with ID 10000 |
| ControlPlane.DecidesAsAsked | controllers/vswitchcfg/vswitchcfg.go:132-207 | for any two cache reads: no write for an unusable node or when the first read shows all five fields as wanted; else a create under the node's name with those fields and ID 0 on a miss, or an update of exactly the object read that keeps its ID |
| ControlPlane.NodeEventReconciles | controllers/vswitchcfg/vswitchcfg.go:75-207 | from every reachable state, an event for a usable node that reads an up-to-date cache, followed by the commit of its request if it issues one, leaves the config with the node's five fields, its identity and ID kept or new without ID, and no other config touched; the commit is one content-changing write |
| ControlPlane.RecreatedStartsOver | controllers/vswitchcfg/vswitchcfg.go:120-130 | a config deleted with its node and asked for again has another identity and no tunnel ID |
| ControlPlane.TunnelIDsStayUnique | controllers/tunnel/allocator.go:104-166 | over all runs with stale caches, conflicts, creations and deletions, non-zero tunnel IDs are distinct and in [100, 9999] while every allocation finds room |
| ControlPlane.TunnelIDsAreStable | controllers/tunnel/allocator.go:109-116 | a non-zero tunnel ID never changes during the lifetime of its object |
| ControlPlane.AtMostOneContentWrite | controllers/vswitchcfg/vswitchcfg.go:75-118 | over any run with an unchanged node and no deletion, its config sees at most one content-changing write and matches the node from then on |
| Controllers.OnNode | controllers/vswitchcfg/vswitchcfg.go:75-207 | the handler issues exactly the create or update that is asked for, field by field, also for unusable nodes and two different cache reads, and it is that of the protocol step |
| Controllers.Client.AllocateTunnelID | controllers/tunnel/allocator.go:104-139 | the whole call on any store, also one with repeated or out-of-range IDs: unknown name, ID already set, or the first free ID written, with every other object and field untouched; on unique IDs it keeps them unique exactly when there was room |
| Gateways.GatewayAgreement | cmd/kube-ovs/main.go:262-282 | CNI plugin, OpenFlow controller and host-local set-up compute the same gateway for every address of a pod CIDR: the base plus one, which exists exactly from 1.0.0.0 on; it lies in the pod CIDR exactly for prefix lengths up to 31 and reduces to the cluster network under the cluster mask |
| Gateways.CalcGatewayIPIsSubnetGateway | cmd/kube-ovs-cni/plugin.go:322-325 | for any IPv4 or IPv6 address and mask the plugin's gateway is the number after the first one of the address's block |
| Gateways.Result.CalcGateways | cmd/kube-ovs-cni/plugin.go:259-320 | addresses, routes and gateway lists after the loop, and how far it got when it meets an unknown address; each processed address has interface 2 and its given gateway, or with IsGW the number after the first one of its block |
| Gateways.AppendedPerFamily | cmd/kube-ovs-cni/plugin.go:292-308 | at most one default route is appended per family, exactly one when it is wanted, the family occurs and no route with a gateway exists |
| Gateways.EveryFamilyHasDefault | cmd/kube-ovs-cni/plugin.go:292-308 | with IsDefaultGW every family that occurs has a given default route with a gateway, or an appended one to 0.0.0.0/0 or ::/0 with the gateway of its first address |
| Gateways.OneGatewayPerAddress | cmd/kube-ovs-cni/plugin.go:310-317 | with IsGW each address contributes its given gateway, or the number after the first one of its block, to its family's list, at the position given by the addresses of the family before it, and the list has no other entries |
| Gateways.SecondRunAppends | cmd/kube-ovs-cni/plugin.go:288-308 | a second run appends a default route for a family exactly when one is wanted, the family occurs, the given routes had none and its first address has no gateway; with IsGW it appends no route at all |
| BridgeAddr.Link.EnsureBridgeAddr | cmd/kube-ovs-cni/plugin.go:583-634 | the addresses after each outcome: present, added, failed listing, refused, failed deletion, failed addition, and a failed MAC setting, which comes after the address was added |
| BridgeAddr.SuccessIsEnsured | cmd/kube-ovs-cni/plugin.go:590-595 | from a conflict-free set, finding the address present means that nothing was deleted before it was found |
| BridgeAddr.EnsuredKeepsInvariant | cmd/kube-ovs-cni/plugin.go:597-615 | a successful forced call keeps the set conflict-free, has the address present and keeps exactly the addresses whose subnets, as ranges of numbers, do not meet it |
| BridgeAddr.BridgeInvariant | cmd/kube-ovs-cni/plugin.go:466-482 | over any sequence of successful forced calls: at most one IPv4 address, IPv6 subnets pairwise disjoint, the last wanted address present |
| BridgeAddr.SurvivesExactlyWhenSpared | cmd/kube-ovs-cni/plugin.go:466-482 | an address survives a sequence of calls exactly when none of them wants an address whose subnet meets it |

## Where code and documentation differ

- The comments in `flowsForVSwitch` call the overlay table "table 10" and the forwarding table
  "table 30"; the code uses tables 20 and 40, and so does the model.
- `allocateTunnelID` has no check for a full pool. The model keeps the code's behaviour;
  `ControlPlane.AllocationIsUniqueExactlyWithRoom` and `TunnelIDs.ExhaustedPoolRepeats` state when
  uniqueness is lost and how, and `Exhaustion.FullPoolLosesUniqueness` is such a run.
- `ip.NextIP` drops leading zero bytes, so a gateway below 1.0.0.0 or past 255.255.255.255 is not a
  usable address; `Addresses.NextIP` returns None there.

## Left out

- `ovs-vsctl`, `ovs-ofctl`, netlink, iptables and sysctl calls: only their results (port numbers, MACs, success or failure) are inputs. The vxlan and host-local port numbers of a node are taken as fixed.
- Wire formats and parsing (gofc, Go's `net`): matches, addresses and CIDRs are values; an unparsable CIDR or pod address is an explicit None. A negative tunnel ID is assumed to be read by `ovs-ofctl` as its unsigned value or refused.
- Inbound framing in `handleConn` and partial writes: a failed write either reached the switch as a whole message or not at all. A write that succeeded is taken to have reached the switch, although TCP only promises that it was buffered: a connection that breaks afterwards may lose it.
- A later reconnection does not send HELLO again; the stream claims are about one process.
- Removal of flows when a vswitch or pod is deleted: the handlers do nothing, so the histories hold add and update events. `Independence.HistoryIndependenceExactlyWhen` says when that shows.
- A restart of the bridge or of the node controller, which would empty the tables or the queue.
- A second controller replica, a restarted allocator with a request still in flight, and manual edits of tunnel IDs.
- Serve and handleConn as threads: they appear as the calls of SetConnection they make, and the reply loop as the messages it sends.
- Fair scheduling and an answering network at the level of locks: `Composition.QuietNodeRoutes` speaks about nodes that have come to rest, and `Settling.CanRest` says that they can, not that every schedule does.
- The send queue is modelled as a step system over its lock operations rather than as a class, because its methods have no meaning without interference.
- CNI command plumbing, JSON configuration, veth set-up, CNI_ARGS parsing, service and endpoint handlers, generated API code: they forward values or do nothing, and no claim above depends on them.
- Flows.Controller.AddDefaultFlows: a malformed gateway address makes the process exit at start-up; the model starts from a node whose gateway parsed.
- Cluster.EndToEndDelivery: the underlay between the vxlan ports is taken to deliver the frame to the host with the tunnel destination address.
