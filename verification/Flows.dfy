/** The flow program of one node: what `flows.go` and `datalink.go` build from cluster state. */
module Flows {
  import opened Addresses
  import opened OpenFlow

  const TABLE_CLASSIFICATION: nat := 0
  const TABLE_LOCAL_ARP: nat := 10
  const TABLE_OVERLAY: nat := 20
  const TABLE_L3_FORWARDING: nat := 40
  const TABLE_L2_REWRITES: nat := 50

  /** The fields of a running controller, with the port numbers `ovs-vsctl` reports. */
  datatype Node = Node(name: string, gatewayIP: nat, gatewayMAC: string, podCIDR: Cidr, clusterCIDR: Cidr,
                       hostPort: nat, vxlanPort: nat)

  /** The two protocols the program distinguishes by ether type. */
  datatype Proto = IP | ARP {
    function Eth(): nat {
      if this == IP then ETH_IPV4 else ETH_ARP
    }
  }

  /** Every kind of flow entry that kube-ovs ever writes. */
  datatype Entry =
    | ToHost                                                         // table 0, everything else
    | GatewayIP                                                      // table 0
    | GatewayARP                                                     // table 10
    | ClassifyARP                                                    // table 0 -> 10
    | LocalARP                                                       // table 10 -> 50
    | ClusterARP                                                     // table 10 -> 20
    | LocalIP                                                        // table 0 -> 50
    | ClusterIP                                                      // table 0 -> 20
    | Overlay(proto: Proto, cidr: Cidr, id: nat)                     // table 20 -> 40
    | Tunnel(proto: Proto, cidr: Cidr, id: nat, overlayIP: nat)      // table 40, out of vxlan0
    | OwnTunnel(proto: Proto, cidr: Cidr, id: nat)                   // table 40 -> 50
    | PodIP(podIP: nat, mac: string, port: nat)                      // table 50
    | PodARP(podIP: nat, port: nat)                                  // table 50

  function Host(ip: nat): Option<Cidr> {
    Some(Cidr(ip, 32))
  }

  function On(table: nat, priority: nat, proto: Proto, dst: Option<Cidr>, tunId: Option<nat>): Key {
    Key(table, priority, Match(Some(proto.Eth()), dst, tunId))
  }

  function KeyOf(n: Node, e: Entry): Key {
    match e
    case ToHost => Key(TABLE_CLASSIFICATION, 0, Match(None, None, None))
    case GatewayIP => On(TABLE_CLASSIFICATION, 500, IP, Host(n.gatewayIP), None)
    case GatewayARP => On(TABLE_LOCAL_ARP, 500, ARP, Host(n.gatewayIP), None)
    case ClassifyARP => On(TABLE_CLASSIFICATION, 200, ARP, None, None)
    case LocalARP => On(TABLE_LOCAL_ARP, 100, ARP, Some(n.podCIDR), None)
    case ClusterARP => On(TABLE_LOCAL_ARP, 50, ARP, Some(n.clusterCIDR), None)
    case LocalIP => On(TABLE_CLASSIFICATION, 300, IP, Some(n.podCIDR), None)
    case ClusterIP => On(TABLE_CLASSIFICATION, 100, IP, Some(n.clusterCIDR), None)
    case Overlay(proto, cidr, _) => On(TABLE_OVERLAY, 100, proto, Some(cidr), None)
    case Tunnel(proto, cidr, id, _) => On(TABLE_L3_FORWARDING, 150, proto, Some(cidr), Some(id))
    case OwnTunnel(proto, cidr, id) => On(TABLE_L3_FORWARDING, 100, proto, Some(cidr), Some(id))
    case PodIP(ip, _, _) => On(TABLE_L2_REWRITES, 100, IP, Host(ip), None)
    case PodARP(ip, _) => On(TABLE_L2_REWRITES, 100, ARP, Host(ip), None)
  }

  function CodeOf(n: Node, e: Entry): seq<Instruction> {
    match e
    case ToHost => [ApplyActions([Output(n.hostPort)])]
    case GatewayIP => [ApplyActions([SetEthDst(n.gatewayMAC), Output(n.hostPort)])]
    case GatewayARP => [ApplyActions([Output(n.hostPort)])]
    case ClassifyARP => [GotoTable(TABLE_LOCAL_ARP)]
    case LocalARP => [GotoTable(TABLE_L2_REWRITES)]
    case ClusterARP => [GotoTable(TABLE_OVERLAY)]
    case LocalIP => [GotoTable(TABLE_L2_REWRITES)]
    case ClusterIP => [GotoTable(TABLE_OVERLAY)]
    case Overlay(_, _, id) => [ApplyActions([SetTunId(id)]), GotoTable(TABLE_L3_FORWARDING)]
    case Tunnel(_, _, _, ip) => [ApplyActions([SetTunDst(ip), Output(n.vxlanPort)])]
    case OwnTunnel(_, _, _) => [GotoTable(TABLE_L2_REWRITES)]
    case PodIP(_, mac, port) => [ApplyActions([SetEthDst(mac), Output(port)])]
    case PodARP(_, port) => [ApplyActions([Output(port)])]
  }

  function Compile(n: Node, e: Entry): FlowMod {
    FlowMod(KeyOf(n, e), CodeOf(n, e))
  }

  function CompileAll(n: Node, es: seq<Entry>): seq<FlowMod> {
    seq(|es|, i requires 0 <= i < |es| => Compile(n, es[i]))
  }

  /** The flow table after a log of entries has reached an initially empty bridge. */
  function TableOf(n: Node, log: seq<Entry>): FlowTable {
    if log == [] then map[] else Install(TableOf(n, log[..|log| - 1]), Compile(n, log[|log| - 1]))
  }

  function InstallAll(n: Node, sw: FlowTable, es: seq<Entry>): FlowTable
    decreases |es|
  {
    if es == [] then sw else InstallAll(n, Install(sw, Compile(n, es[0])), es[1..])
  }

  /** Installing entries one after the other extends the log of what has reached the bridge. */
  lemma {:induction false} InstallAllExtendsLog(n: Node, log: seq<Entry>, es: seq<Entry>)
    ensures InstallAll(n, TableOf(n, log), es) == TableOf(n, log + es)
    decreases |es|
  {
    if es == [] {
      assert log + es == log;
    } else {
      assert (log + [es[0]])[..|log|] == log;
      InstallAllExtendsLog(n, log + [es[0]], es[1..]);
      Assoc(log, [es[0]], es[1..]);
      assert es == [es[0]] + es[1..];
    }
  }

  /** A VSwitchConfig as the OpenFlow controller sees it. `podCIDR` is None for a string that
      `newOxmIpv4SubnetDst` rejects. */
  datatype VSwitch = VSwitch(name: string, podCIDR: Option<Cidr>, overlayIP: nat, tunnelID: int)

  /** One call of OnAddVSwitch or OnUpdateVSwitch together with the answers of the outside world:
      whether the vxlan port was found and whether the two `ovs-ofctl add-flow` calls succeed. */
  datatype VSwitchEvent = VSwitchEvent(vs: VSwitch, portFound: bool, ipOk: bool, arpOk: bool)

  /** `uint64(int32)`: what a tunnel ID is on the wire. */
  function WireID(id: int): (r: nat)
    ensures 0 <= id < 0x8000_0000 ==> r == id
    ensures -0x8000_0000 <= id < 0 ==> r == 0x1_0000_0000_0000_0000 + id
  {
    id % 0x1_0000_0000_0000_0000
  }

  predicate Accepted(ev: VSwitchEvent) {
    ev.portFound && ev.vs.podCIDR.Some?
  }

  predicate Remote(n: Node, ev: VSwitchEvent) {
    Accepted(ev) && ev.vs.name != n.name
  }

  /** The handler gets as far as sending its flows. */
  predicate Succeeds(n: Node, ev: VSwitchEvent) {
    Accepted(ev) && (ev.vs.name != n.name ==> ev.ipOk && ev.arpOk)
  }

  function TunnelEntry(ev: VSwitchEvent, proto: Proto): Entry
    requires Accepted(ev)
  {
    Tunnel(proto, ev.vs.podCIDR.value, WireID(ev.vs.tunnelID), ev.vs.overlayIP)
  }

  /** What `addTunnelDstFlows` writes through `ovs-ofctl`, in order, before any flow is sent. */
  function Installs(n: Node, ev: VSwitchEvent): seq<Entry> {
    if !Remote(n, ev) || !ev.ipOk then []
    else if !ev.arpOk then [TunnelEntry(ev, IP)]
    else [TunnelEntry(ev, IP), TunnelEntry(ev, ARP)]
  }

  /** What the handler sends through the message queue, in order. */
  function Sends(n: Node, ev: VSwitchEvent): seq<Entry> {
    if !Succeeds(n, ev) then []
    else
      var cidr, id := ev.vs.podCIDR.value, WireID(ev.vs.tunnelID);
      if Remote(n, ev) then [LocalIP, ClusterIP, Overlay(IP, cidr, id), Overlay(ARP, cidr, id)]
      else [LocalIP, ClusterIP, OwnTunnel(IP, cidr, id), OwnTunnel(ARP, cidr, id)]
  }

  /** A pod event: its IPv4 address, if it has one that parses, and the MAC and port that
      `ovs-vsctl` reports for it, if it finds them. */
  datatype PodEvent = PodEvent(podIP: Option<nat>, link: Option<Link>)

  datatype Link = Link(mac: string, port: nat)

  predicate Synced(n: Node, ev: PodEvent) {
    ev.podIP.Some? && n.podCIDR.Contains(ev.podIP.value) && ev.link.Some?
  }

  function PodSends(n: Node, ev: PodEvent): seq<Entry> {
    if !Synced(n, ev) then []
    else [PodIP(ev.podIP.value, ev.link.value.mac, ev.link.value.port),
          PodARP(ev.podIP.value, ev.link.value.port)]
  }

  function DefaultEntries(): seq<Entry> {
    [ToHost, GatewayIP, GatewayARP, ClassifyARP, LocalARP, ClusterARP]
  }

  /** The controller object: the queue behind `connManager.Send` and the bridge that
      `ovs-ofctl` writes to directly. */
  class Controller {
    const node: Node
    var queue: seq<FlowMod>
    var bridge: FlowTable

    constructor (node: Node)
      ensures this.node == node && queue == [] && bridge == map[]
    {
      this.node := node;
      queue, bridge := [], map[];
    }

    method Send(f: FlowMod)
      modifies this`queue
      ensures queue == old(queue) + [f]
    {
      queue := queue + [f];
    }

    method SendAll(flows: seq<FlowMod>)
      modifies this`queue
      ensures queue == old(queue) + flows
    {
      for i := 0 to |flows|
        invariant queue == old(queue) + flows[..i]
      {
        Send(flows[i]);
        assert flows[..i + 1] == flows[..i] + [flows[i]];
      }
      assert flows[..|flows|] == flows;
    }

    method AddDefaultFlows(hostPortFound: bool, hostPortStillFound: bool) returns (ok: bool)
      modifies this`queue
      ensures ok == (hostPortFound && hostPortStillFound)
      ensures ok ==> queue == old(queue) + CompileAll(node, DefaultEntries())
      ensures !hostPortFound ==> queue == old(queue)
      ensures hostPortFound && !hostPortStillFound ==> queue == old(queue) + [Compile(node, ToHost)]
    {
      if !hostPortFound {
        return false;
      }
      Send(FlowMod(Key(TABLE_CLASSIFICATION, 0, Match(None, None, None)),
                   [ApplyActions([Output(node.hostPort)])]));
      if !hostPortStillFound {
        return false;
      }
      var gateway := DataLinkFlowsForGateway();
      SendAll(gateway);
      var arp := DefaultARPFlows();
      SendAll(arp);
      assert CompileAll(node, DefaultEntries()) == [Compile(node, ToHost)] + gateway + arp;
      return true;
    }

    method DataLinkFlowsForGateway() returns (flows: seq<FlowMod>)
      ensures flows == CompileAll(node, [GatewayIP, GatewayARP])
    {
      flows := [];
      var pattern := Match(Some(ETH_IPV4), Host(node.gatewayIP), None);
      var actions := [SetEthDst(node.gatewayMAC)];
      actions := actions + [Output(node.hostPort)];
      assert actions == [SetEthDst(node.gatewayMAC), Output(node.hostPort)];
      flows := flows + [FlowMod(Key(TABLE_CLASSIFICATION, 500, pattern), [ApplyActions(actions)])];

      pattern := Match(Some(ETH_ARP), Host(node.gatewayIP), None);
      actions := [Output(node.hostPort)];
      flows := flows + [FlowMod(Key(TABLE_LOCAL_ARP, 500, pattern), [ApplyActions(actions)])];
    }

    method DefaultARPFlows() returns (flows: seq<FlowMod>)
      ensures flows == CompileAll(node, [ClassifyARP, LocalARP, ClusterARP])
    {
      flows := [];
      var pattern := Match(Some(ETH_ARP), None, None);
      flows := flows + [FlowMod(Key(TABLE_CLASSIFICATION, 200, pattern), [GotoTable(TABLE_LOCAL_ARP)])];
      pattern := Match(Some(ETH_ARP), Some(node.podCIDR), None);
      flows := flows + [FlowMod(Key(TABLE_LOCAL_ARP, 100, pattern), [GotoTable(TABLE_L2_REWRITES)])];
      pattern := Match(Some(ETH_ARP), Some(node.clusterCIDR), None);
      flows := flows + [FlowMod(Key(TABLE_LOCAL_ARP, 50, pattern), [GotoTable(TABLE_OVERLAY)])];
    }

    /** `addTunnelDstFlows`: the IP entry first, then the ARP entry; either call may fail. */
    method AddTunnelDstFlows(ev: VSwitchEvent) returns (ok: bool)
      requires Remote(node, ev)
      modifies this`bridge
      ensures ok == (ev.ipOk && ev.arpOk)
      ensures bridge == InstallAll(node, old(bridge), Installs(node, ev))
    {
      var cidr, id := ev.vs.podCIDR.value, WireID(ev.vs.tunnelID);
      var code := [ApplyActions([SetTunDst(ev.vs.overlayIP), Output(node.vxlanPort)])];
      if !ev.ipOk {
        return false;
      }
      bridge := Install(bridge, FlowMod(Key(TABLE_L3_FORWARDING, 150,
                                            Match(Some(ETH_IPV4), Some(cidr), Some(id))), code));
      if !ev.arpOk {
        return false;
      }
      ghost var withIP := bridge;
      bridge := Install(bridge, FlowMod(Key(TABLE_L3_FORWARDING, 150,
                                            Match(Some(ETH_ARP), Some(cidr), Some(id))), code));
      assert bridge == InstallAll(node, withIP, [TunnelEntry(ev, ARP)]);
      assert Installs(node, ev)[1..] == [TunnelEntry(ev, ARP)];
      return true;
    }

    /** `flowsForVSwitch`: None is the error return. */
    method FlowsForVSwitch(ev: VSwitchEvent) returns (r: Option<seq<FlowMod>>)
      modifies this`bridge
      ensures r == if Succeeds(node, ev) then Some(CompileAll(node, Sends(node, ev))) else None
      ensures bridge == InstallAll(node, old(bridge), Installs(node, ev))
    {
      if !ev.portFound {
        return None;
      }
      var flows := [];
      var pattern := Match(Some(ETH_IPV4), Some(node.podCIDR), None);
      flows := flows + [FlowMod(Key(TABLE_CLASSIFICATION, 300, pattern), [GotoTable(TABLE_L2_REWRITES)])];
      pattern := Match(Some(ETH_IPV4), Some(node.clusterCIDR), None);
      flows := flows + [FlowMod(Key(TABLE_CLASSIFICATION, 100, pattern), [GotoTable(TABLE_OVERLAY)])];

      if ev.vs.podCIDR.None? {
        return None;
      }
      var cidr, id := ev.vs.podCIDR.value, WireID(ev.vs.tunnelID);
      if ev.vs.name != node.name {
        var code := [ApplyActions([SetTunId(id)]), GotoTable(TABLE_L3_FORWARDING)];
        pattern := Match(Some(ETH_IPV4), Some(cidr), None);
        flows := flows + [FlowMod(Key(TABLE_OVERLAY, 100, pattern), code)];
        pattern := Match(Some(ETH_ARP), Some(cidr), None);
        flows := flows + [FlowMod(Key(TABLE_OVERLAY, 100, pattern), code)];
        var ok := AddTunnelDstFlows(ev);
        if !ok {
          return None;
        }
      } else {
        pattern := Match(Some(ETH_IPV4), Some(cidr), Some(id));
        flows := flows + [FlowMod(Key(TABLE_L3_FORWARDING, 100, pattern), [GotoTable(TABLE_L2_REWRITES)])];
        pattern := Match(Some(ETH_ARP), Some(cidr), Some(id));
        flows := flows + [FlowMod(Key(TABLE_L3_FORWARDING, 100, pattern), [GotoTable(TABLE_L2_REWRITES)])];
      }
      assert flows == CompileAll(node, Sends(node, ev));
      return Some(flows);
    }

    /** OnAddVSwitch and OnUpdateVSwitch, which do the same with the new object. */
    method OnVSwitch(ev: VSwitchEvent)
      modifies this
      ensures queue == old(queue) + CompileAll(node, Sends(node, ev))
      ensures bridge == InstallAll(node, old(bridge), Installs(node, ev))
    {
      var r := FlowsForVSwitch(ev);
      if r.None? {
        return;
      }
      SendAll(r.value);
    }

    /** OnAddPod and OnUpdatePod through syncPod. */
    method SyncPod(ev: PodEvent)
      modifies this`queue
      ensures queue == old(queue) + CompileAll(node, PodSends(node, ev))
    {
      if ev.podIP.None? || !node.podCIDR.Contains(ev.podIP.value) || ev.link.None? {
        return;
      }
      var flows := [];
      var pattern := Match(Some(ETH_IPV4), Host(ev.podIP.value), None);
      var actions := [SetEthDst(ev.link.value.mac)];
      actions := actions + [Output(ev.link.value.port)];
      assert actions == [SetEthDst(ev.link.value.mac), Output(ev.link.value.port)];
      flows := flows + [FlowMod(Key(TABLE_L2_REWRITES, 100, pattern), [ApplyActions(actions)])];
      pattern := Match(Some(ETH_ARP), Host(ev.podIP.value), None);
      actions := [Output(ev.link.value.port)];
      flows := flows + [FlowMod(Key(TABLE_L2_REWRITES, 100, pattern), [ApplyActions(actions)])];
      SendAll(flows);
    }
  }
}
