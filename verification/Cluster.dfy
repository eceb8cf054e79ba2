/** Several nodes together: end-to-end delivery and journeys. */
module Cluster {
  import opened Addresses
  import opened OpenFlow
  import opened Flows
  import opened Views
  import opened Routing
  import opened Safety
  import opened NodeMachine
  import opened History
  import opened Independence
  import opened Freshness
  import Gateways

  // ---------------------------------------------------------------- end-to-end delivery

  /** The gateway of a node as NewController computes it, in a pod CIDR with room for one. */
  ghost predicate GatewayOk(n: Node) {
    n.podCIDR.Valid() && n.podCIDR.len <= 31 && Gateways.ControllerGateway(n.podCIDR) == Some(n.gatewayIP)
  }

  /** Event `k` is the last announcement of its CIDR in the log, and it was handled successfully. */
  ghost predicate LastAnnouncement(n: Node, log: seq<VSwitchEvent>, k: nat) {
    && k < |log| && HandledRemotely(n, log[k])
    && forall j :: k < j < |log| && log[j].vs.podCIDR == log[k].vs.podCIDR ==>
         !(log[j].portFound && log[j].vs.name != n.name && log[j].ipOk)
  }

  /** The last announcement of a CIDR decides how it is forwarded, for IP and for ARP, whatever
      other events did, succeed or fail. */
  lemma {:induction false} LastAnnouncementDecides(n: Node, pr: Proto, log: seq<VSwitchEvent>, k: nat)
    requires LastAnnouncement(n, log, k)
    ensures var c, vs := log[k].vs.podCIDR.value, log[k].vs;
            c in Remotes(n, pr, log) && Remotes(n, pr, log)[c] == RemoteNode(WireID(vs.tunnelID), vs.overlayIP)
    decreases |log|
  {
    var before, last := log[..|log| - 1], log[|log| - 1];
    assert log == before + [last];
    if k < |before| {
      assert !Announces(n, log[|log| - 1], log[k].vs.podCIDR.value);
      LastAnnouncementDecides(n, pr, before, k);
    }
  }

  /** Every event of the log with the CIDR of `ev` has its name. */
  ghost predicate SoleOwner(log: seq<VSwitchEvent>, ev: VSwitchEvent) {
    forall e :: e in log && e.vs.podCIDR == ev.vs.podCIDR ==> e.vs.name == ev.vs.name
  }

  /** The latest event of a name has a position after which the name does not occur. */
  lemma {:induction false} LatestPosition(log: seq<VSwitchEvent>, ev: VSwitchEvent) returns (k: nat)
    requires ev in Latest(log)
    ensures k < |log| && log[k] == ev && forall j :: k < j < |log| ==> log[j].vs.name != ev.vs.name
  {
    var before, last := log[..|log| - 1], log[|log| - 1];
    if ev == last {
      k := |log| - 1;
    } else {
      WithoutIsSubset(Latest(before), last.vs.name);
      k := LatestPosition(before, ev);
    }
  }

  /** In a successful history the latest event of a vswitch that is the only one to have announced
      its CIDR is the last announcement of that CIDR. */
  lemma LatestConfigDecides(n: Node, log: seq<VSwitchEvent>, ev: VSwitchEvent) returns (k: nat)
    requires Clean(n, log) && ev in Latest(log) && Remote(n, ev) && SoleOwner(log, ev)
    ensures LastAnnouncement(n, log, k) && log[k] == ev
    ensures forall pr :: ev.vs.podCIDR.value in Remotes(n, pr, log)
              && Remotes(n, pr, log)[ev.vs.podCIDR.value] == RemoteNode(WireID(ev.vs.tunnelID), ev.vs.overlayIP)
  {
    k := LatestPosition(log, ev);
    assert log[k] in log && Succeeds(n, log[k]);
    forall j | k < j < |log|
      ensures log[j].vs.podCIDR != ev.vs.podCIDR
    {
      assert log[j] in log;
    }
    forall pr
      ensures ev.vs.podCIDR.value in Remotes(n, pr, log)
      ensures Remotes(n, pr, log)[ev.vs.podCIDR.value] == RemoteNode(WireID(ev.vs.tunnelID), ev.vs.overlayIP)
    {
      LastAnnouncementDecides(n, pr, log, k);
    }
  }

  /** Node `a`, in state `s`, has received as event `k` a configuration of node `b`, by name and pod
      CIDR, and nothing about that CIDR since; its flows have left the queue, whatever else is in
      flight; the two nodes do not share addresses. */
  ghost predicate Knows(a: Node, s: State, b: Node, k: nat) {
    && LastAnnouncement(a, s.vlog, k) && HasLeft(a, s, k)
    && s.vlog[k].vs.name == b.name && s.vlog[k].vs.podCIDR == Some(b.podCIDR)
    && !Overlap(a.podCIDR, b.podCIDR)
    && GatewayOk(a)
    && (forall x :: b.podCIDR.Contains(x) ==> a.clusterCIDR.Contains(x))
  }

  /** Node `b`, in state `s`, has synced a pod as event `k`, and not that address since; the flows of
      that event and of some vswitch event have left the queue, whatever else is in flight. */
  ghost predicate Hosts(b: Node, s: State, kv: nat, k: nat) {
    && HasLeft(b, s, kv) && Succeeds(b, s.vlog[kv])
    && PodHasLeft(b, s, k) && Synced(b, s.plog[k])
    && forall j :: k < j < |s.plog| && Synced(b, s.plog[j]) ==> s.plog[j].podIP != s.plog[k].podIP
  }

  /** A packet as it leaves for the vswitch `vs`. */
  function Tunnelled(p: Packet, vs: VSwitch): Packet {
    p.(tunId := WireID(vs.tunnelID), tunDst := vs.overlayIP)
  }

  lemma GatewayIsLocal(n: Node)
    requires GatewayOk(n)
    ensures n.podCIDR.Contains(n.gatewayIP)
  {
    MaskSuccessor(n.podCIDR.base, n.podCIDR.HostBits());
  }

  /** The sending half: a packet for an address of `b` leaves `a` once, on the vxlan port. */
  lemma LeavesThroughTunnel(a: Node, run: seq<State>, steps: seq<Step>, i: nat, b: Node, k: nat, p: Packet)
    requires IsRun(a, run, steps) && i < |run| && DisjointAnnouncements(a, run[i].vlog)
    requires Knows(a, run[i], b, k)
    requires p.ethType == ETH_IPV4 || p.ethType == ETH_ARP
    requires b.podCIDR.Contains(p.dst) && p.inPort != a.vxlanPort
    ensures forall outs :: Forwards(Bridge(a, run[i]), p, outs)
              <==> outs == [Emission(a.vxlanPort, Tunnelled(p, run[i].vlog[k].vs))]
  {
    GatewayIsLocal(a);
    assert !a.podCIDR.Contains(p.dst);
    var m := FreshlyTunnelled(a, run, steps, i, k, p);
    assert m == k;
  }

  /** What the underlay hands to the peer: the same frame on its vxlan port, under some tunnel key. */
  function Arrival(b: Node, q: Packet, tunId: nat, tunDst: nat): Packet {
    q.(inPort := b.vxlanPort, tunId := tunId, tunDst := tunDst)
  }

  /** Where a frame for a pod ends up. */
  function AtPod(link: Link, q: Packet): Emission {
    Emission(link.port, if q.ethType == ETH_IPV4 then q.(ethDst := link.mac) else q)
  }

  /** End-to-end delivery, with any other flows in flight at both ends. Node `a` knows the
      configuration `vs` of node `b`, which hosts a pod. Any IP or ARP packet of `a` for that pod
      leaves `a` exactly once, on the vxlan port, under the tunnel ID and towards the overlay IP of
      `vs`, and `b` outputs it exactly once, on that pod's port, whatever tunnel key it carries when
      it arrives. */
  lemma EndToEndDelivery(a: Node, runA: seq<State>, stepsA: seq<Step>, i: nat, ka: nat,
                         b: Node, runB: seq<State>, stepsB: seq<Step>, j: nat, kv: nat, kp: nat, p: Packet)
    requires IsRun(a, runA, stepsA) && i < |runA| && DisjointAnnouncements(a, runA[i].vlog)
    requires IsRun(b, runB, stepsB) && j < |runB|
    requires Knows(a, runA[i], b, ka) && Hosts(b, runB[j], kv, kp)
    requires p.ethType == ETH_IPV4 || p.ethType == ETH_ARP
    requires runB[j].plog[kp].podIP == Some(p.dst) && p.dst != b.gatewayIP
    requires p.inPort != a.vxlanPort && runB[j].plog[kp].link.value.port != b.vxlanPort
    ensures var q, link := Tunnelled(p, runA[i].vlog[ka].vs), runB[j].plog[kp].link.value;
            && (forall outs :: Forwards(Bridge(a, runA[i]), p, outs) <==> outs == [Emission(a.vxlanPort, q)])
            && (forall tunId, tunDst, outs ::
                  Forwards(Bridge(b, runB[j]), Arrival(b, q, tunId, tunDst), outs)
                  <==> outs == [AtPod(link, Arrival(b, q, tunId, tunDst))])
    ensures var q, vs := Tunnelled(p, runA[i].vlog[ka].vs), runA[i].vlog[ka].vs;
            && (0 <= vs.tunnelID < 0x8000_0000 ==> q.tunId == vs.tunnelID) && q.tunDst == vs.overlayIP
            && q.(tunId := p.tunId, tunDst := p.tunDst) == p
  {
    var q, link := Tunnelled(p, runA[i].vlog[ka].vs), runB[j].plog[kp].link.value;
    LeavesThroughTunnel(a, runA, stepsA, i, b, ka, p);
    forall tunId, tunDst, outs
      ensures Forwards(Bridge(b, runB[j]), Arrival(b, q, tunId, tunDst), outs)
              <==> outs == [AtPod(link, Arrival(b, q, tunId, tunDst))]
    {
      var m := FreshlyDelivered(b, runB, stepsB, j, kp, kv, Arrival(b, q, tunId, tunDst));
      assert m == kp;
    }
  }

  // ---------------------------------------------------------------- journeys

  /** A host of the network: the number of its vxlan port and its flow table, which may be anything. */
  datatype Peer = Peer(vxlanPort: nat, table: FlowTable)

  /** One visit: `packet` enters the pipeline of the host with overlay IP `at`, and `out` leaves it. */
  datatype Visit = Visit(at: nat, packet: Packet, out: Emission)

  ghost predicate VisitOk(net: map<nat, Peer>, v: Visit) {
    v.at in net && exists outs :: Forwards(net[v.at].table, v.packet, outs) && v.out in outs
  }

  /** The output of one visit crosses the tunnel and arrives at the next. */
  ghost predicate Crossing(net: map<nat, Peer>, v: Visit, w: Visit)
    requires v.at in net && w.at in net
  {
    && v.out.port == net[v.at].vxlanPort
    && v.out.packet.tunDst == w.at
    && w.packet.inPort == net[w.at].vxlanPort
  }

  ghost predicate Journey(net: map<nat, Peer>, visits: seq<Visit>) {
    && (forall i :: 0 <= i < |visits| ==> VisitOk(net, visits[i]))
    && (forall i :: 0 < i < |visits| ==> Crossing(net, visits[i - 1], visits[i]))
  }

  lemma {:induction false} ActionsKeepIngress(actions: seq<Action>, p: Packet)
    ensures RunActions(actions, p).0.inPort == p.inPort
    ensures forall e :: e in RunActions(actions, p).1 ==> e.port != p.inPort
  {
    if actions != [] {
      match actions[0]
      case SetEthDst(mac) => ActionsKeepIngress(actions[1..], p.(ethDst := mac));
      case SetTunId(id) => ActionsKeepIngress(actions[1..], p.(tunId := id));
      case SetTunDst(ip) => ActionsKeepIngress(actions[1..], p.(tunDst := ip));
      case Output(port) => ActionsKeepIngress(actions[1..], p);
    }
  }

  lemma {:induction false} InstructionsKeepIngress(code: seq<Instruction>, p: Packet)
    ensures RunInstructions(code, p).packet.inPort == p.inPort
    ensures forall e :: e in RunInstructions(code, p).out ==> e.port != p.inPort
  {
    if code != [] && code[0].ApplyActions? {
      ActionsKeepIngress(code[0].actions, p);
      InstructionsKeepIngress(code[1..], RunActions(code[0].actions, p).0);
    }
  }

  /** On any flow table, no output goes back to the port the packet came in on. */
  lemma {:induction false} NoHairpin(sw: FlowTable, t: nat, p: Packet, path: seq<Key>, outs: seq<Emission>)
    requires Runs(sw, t, p, path, outs)
    ensures forall e :: e in outs ==> e.port != p.inPort
    decreases |path|
  {
    if path != [] {
      var f := RunInstructions(sw[path[0]], p);
      InstructionsKeepIngress(sw[path[0]], p);
      if f.next.Some? {
        NoHairpin(sw, f.next.value, f.packet, path[1..], outs[|f.out|..]);
        assert outs == f.out + outs[|f.out|..];
      }
    }
  }

  /** Loop freedom of the whole network, by the ingress rule of the switch alone: whatever the
      tables of the hosts hold, a packet crosses at most one tunnel when all tunnels share one
      vxlan port per host. */
  lemma AtMostOneTunnel(net: map<nat, Peer>, visits: seq<Visit>)
    requires Journey(net, visits)
    ensures |visits| <= 2
  {
    if |visits| > 2 {
      var v := visits[1];
      assert VisitOk(net, visits[0]) && VisitOk(net, v) && VisitOk(net, visits[2]);
      assert Crossing(net, visits[1 - 1], v) && Crossing(net, visits[2 - 1], visits[2]);
      var outs :| Forwards(net[v.at].table, v.packet, outs) && v.out in outs;
      var path :| Runs(net[v.at].table, 0, v.packet, path, outs);
      NoHairpin(net[v.at].table, 0, v.packet, path, outs);
      assert false;
    }
  }
}
