/** The routing function a node is meant to compute, and the proof that its tables compute it. */
module Routing {
  import opened Addresses
  import opened OpenFlow
  import opened Flows
  import opened Views

  datatype RemoteNode = RemoteNode(id: nat, overlayIP: nat)

  /** What a node knows: whether a vswitch event has been processed, the remote pod CIDRs and
      the local pods. No table, priority or goto appears here. */
  datatype Picture = Picture(seen: bool, remotes: map<Cidr, RemoteNode>, pods: map<nat, Link>)

  ghost predicate RoutedTo(pic: Picture, c: Cidr, a: nat) {
    c in pic.remotes && c.Contains(a)
  }

  ghost function RouteOverlay(n: Node, pic: Picture, p: Packet): seq<Emission> {
    if c :| RoutedTo(pic, c, p.dst)
    then Emit(n.vxlanPort, p.(tunId := pic.remotes[c].id, tunDst := pic.remotes[c].overlayIP))
    else []
  }

  ghost function RouteIP(n: Node, pic: Picture, p: Packet): seq<Emission> {
    if p.dst == n.gatewayIP then
      Emit(n.hostPort, p.(ethDst := n.gatewayMAC))
    else if pic.seen && n.podCIDR.Contains(p.dst) then
      if p.dst in pic.pods then Emit(pic.pods[p.dst].port, p.(ethDst := pic.pods[p.dst].mac)) else []
    else if pic.seen && n.clusterCIDR.Contains(p.dst) then
      RouteOverlay(n, pic, p)
    else
      Emit(n.hostPort, p)
  }

  ghost function RouteARP(n: Node, pic: Picture, p: Packet): seq<Emission> {
    if p.dst == n.gatewayIP then
      Emit(n.hostPort, p)
    else if n.podCIDR.Contains(p.dst) then
      if p.dst in pic.pods then Emit(pic.pods[p.dst].port, p) else []
    else if n.clusterCIDR.Contains(p.dst) then
      RouteOverlay(n, pic, p)
    else
      []
  }

  ghost function Route(n: Node, pic: Picture, p: Packet): seq<Emission> {
    if p.ethType == ETH_IPV4 then RouteIP(n, pic, p)
    else if p.ethType == ETH_ARP then RouteARP(n, pic, p)
    else Emit(n.hostPort, p)
  }

  /** An address that the node sends to the overlay rather than to the host or a local pod. */
  predicate OverlayAddress(n: Node, a: nat) {
    a != n.gatewayIP && !n.podCIDR.Contains(a) && n.clusterCIDR.Contains(a)
  }

  /** Which addresses these are, as numbers. */
  lemma OverlayAddressIsRange(n: Node, a: nat)
    requires n.podCIDR.Valid() && n.clusterCIDR.Valid()
    ensures var pod, cluster := n.podCIDR, n.clusterCIDR;
            OverlayAddress(n, a) <==>
            && a != n.gatewayIP
            && !(pod.base <= a < pod.base + Pow2(32 - pod.len))
            && cluster.base <= a < cluster.base + Pow2(32 - cluster.len)
  {
    ValidCidrHolds(n.podCIDR, a);
    ValidCidrHolds(n.clusterCIDR, a);
  }

  function ProtoOf(p: Packet): Proto {
    if p.ethType == ETH_ARP then ARP else IP
  }

  ghost predicate DepictsProgram(v: View, seen: bool) {
    && (forall e :: e in DefaultEntries() ==> e in v.plain)
    && (LocalIP in v.plain <==> seen)
    && (ClusterIP in v.plain <==> seen)
  }

  ghost predicate DepictsRemotes(pr: Proto, overlay: map<(Proto, Cidr), nat>, tunnels: map<(Proto, Cidr, nat), nat>,
                                 remotes: map<Cidr, RemoteNode>) {
    && (forall c :: (pr, c) in overlay <==> c in remotes)
    && (forall c :: c in remotes ==> overlay[(pr, c)] == remotes[c].id)
    && (forall c :: c in remotes ==>
          (pr, c, remotes[c].id) in tunnels && tunnels[(pr, c, remotes[c].id)] == remotes[c].overlayIP)
  }

  function PortsOf(pods: map<nat, Link>): map<nat, nat> {
    map ip | ip in pods :: pods[ip].port
  }

  ghost predicate DepictsPods(v: View, pr: Proto, pods: map<nat, Link>) {
    && (pr == IP ==> v.podsIP == pods)
    && (pr == ARP ==> v.podsARP == PortsOf(pods))
  }

  /** The view `v`, as packets of protocol `pr` see it, shows the picture. */
  ghost predicate Depicts(v: View, pr: Proto, pic: Picture) {
    && DepictsProgram(v, pic.seen)
    && DepictsRemotes(pr, v.overlay, v.tunnels, pic.remotes)
    && DepictsPods(v, pr, pic.pods)
  }

  /** The CIDRs ever written to table 40 for a protocol are pairwise equal or disjoint. */
  ghost predicate DisjointCIDRs(v: View, pr: Proto) {
    forall c, c', i, i' :: (pr, c, i) in v.tunnels && (pr, c', i') in v.tunnels && Overlap(c, c') ==> c == c'
  }

  lemma HostContains(ip: nat, a: nat)
    ensures Cidr(ip, 32).Contains(a) <==> ip == a
  {
  }

  lemma {:induction false} AtL2Rewrites(n: Node, v: View, sw: FlowTable, pic: Picture, p: Packet, path: seq<Key>,
                                        outs: seq<Emission>)
    requires Represents(n, v, sw) && Depicts(v, ProtoOf(p), pic)
    requires p.ethType == ETH_IPV4 || p.ethType == ETH_ARP
    requires Runs(sw, TABLE_L2_REWRITES, p, path, outs)
    ensures outs == if p.dst !in pic.pods then []
                    else Emit(pic.pods[p.dst].port,
                              if p.ethType == ETH_IPV4 then p.(ethDst := pic.pods[p.dst].mac) else p)
  {
    if path != [] {
      var e := Selected(n, v, sw, TABLE_L2_REWRITES, p, path, outs);
      HostContains(if e.PodIP? || e.PodARP? then e.podIP else 0, p.dst);
    } else if p.dst in pic.pods {
      var link := pic.pods[p.dst];
      HostContains(p.dst, p.dst);
      Outranked(n, v, sw, p,
                if p.ethType == ETH_IPV4 then PodIP(p.dst, link.mac, link.port) else PodARP(p.dst, link.port));
    }
  }

  lemma {:induction false} AtL3Forwarding(n: Node, v: View, sw: FlowTable, pr: Proto, c: Cidr, ip: nat, p: Packet,
                                          path: seq<Key>, outs: seq<Emission>)
    requires Represents(n, v, sw) && DisjointCIDRs(v, pr)
    requires p.ethType == pr.Eth() && c.Contains(p.dst) && Has(v, Tunnel(pr, c, p.tunId, ip))
    requires Runs(sw, TABLE_L3_FORWARDING, p, path, outs)
    ensures outs == Emit(n.vxlanPort, p.(tunDst := ip))
  {
    Outranked(n, v, sw, p, Tunnel(pr, c, p.tunId, ip));
    var e := Selected(n, v, sw, TABLE_L3_FORWARDING, p, path, outs);
    assert e.Tunnel? && e.proto == pr && e.id == p.tunId;
    assert Overlap(e.cidr, c);
  }

  lemma OneRemotePerAddress(v: View, pr: Proto, pic: Picture, c: Cidr, c': Cidr, a: nat)
    requires Depicts(v, pr, pic) && DisjointCIDRs(v, pr)
    requires RoutedTo(pic, c, a) && RoutedTo(pic, c', a)
    ensures c == c'
  {
  }

  lemma {:induction false} OverlayHit(n: Node, v: View, sw: FlowTable, pic: Picture, p: Packet, c: Cidr,
                                      path: seq<Key>, outs: seq<Emission>)
    requires Represents(n, v, sw) && Depicts(v, ProtoOf(p), pic) && DisjointCIDRs(v, ProtoOf(p))
    requires p.ethType == ETH_IPV4 || p.ethType == ETH_ARP
    requires RoutedTo(pic, c, p.dst)
    requires Runs(sw, TABLE_L3_FORWARDING, p.(tunId := pic.remotes[c].id), path, outs)
    ensures outs == RouteOverlay(n, pic, p)
  {
    forall c' | RoutedTo(pic, c', p.dst)
      ensures c' == c
    {
      OneRemotePerAddress(v, ProtoOf(p), pic, c, c', p.dst);
    }
    var remote := pic.remotes[c];
    AtL3Forwarding(n, v, sw, ProtoOf(p), c, remote.overlayIP, p.(tunId := remote.id), path, outs);
  }

  lemma {:induction false} AtOverlay(n: Node, v: View, sw: FlowTable, pic: Picture, p: Packet, path: seq<Key>,
                                     outs: seq<Emission>)
    requires Represents(n, v, sw) && Depicts(v, ProtoOf(p), pic) && DisjointCIDRs(v, ProtoOf(p))
    requires p.ethType == ETH_IPV4 || p.ethType == ETH_ARP
    requires Runs(sw, TABLE_OVERLAY, p, path, outs)
    ensures outs == RouteOverlay(n, pic, p)
  {
    var pr := ProtoOf(p);
    if path != [] {
      var e := Selected(n, v, sw, TABLE_OVERLAY, p, path, outs);
      assert e.Overlay? && e.proto == pr && RoutedTo(pic, e.cidr, p.dst);
      OverlayHit(n, v, sw, pic, p, e.cidr, path[1..], outs);
    } else if c :| RoutedTo(pic, c, p.dst) {
      Outranked(n, v, sw, p, Overlay(pr, c, pic.remotes[c].id));
    }
  }

  lemma {:induction false} AtLocalARP(n: Node, v: View, sw: FlowTable, pic: Picture, p: Packet, path: seq<Key>,
                                      outs: seq<Emission>)
    requires Represents(n, v, sw) && Depicts(v, ARP, pic)
    requires OverlayAddress(n, p.dst) ==> DisjointCIDRs(v, ARP)
    requires p.ethType == ETH_ARP
    requires Runs(sw, TABLE_LOCAL_ARP, p, path, outs)
    ensures outs == RouteARP(n, pic, p)
  {
    HostContains(n.gatewayIP, p.dst);
    if p.dst == n.gatewayIP {
      Outranked(n, v, sw, p, GatewayARP);
    } else if n.podCIDR.Contains(p.dst) {
      Outranked(n, v, sw, p, LocalARP);
    } else if n.clusterCIDR.Contains(p.dst) {
      Outranked(n, v, sw, p, ClusterARP);
    }
    if path != [] {
      var e := Selected(n, v, sw, TABLE_LOCAL_ARP, p, path, outs);
      if e.LocalARP? {
        AtL2Rewrites(n, v, sw, pic, p, path[1..], outs);
      } else if e.ClusterARP? {
        AtOverlay(n, v, sw, pic, p, path[1..], outs);
      }
    }
  }

  /** The entry of table 0 that decides where a packet goes. */
  function Classified(n: Node, pic: Picture, p: Packet): Entry {
    if p.ethType == ETH_ARP then ClassifyARP
    else if p.ethType != ETH_IPV4 then ToHost
    else if p.dst == n.gatewayIP then GatewayIP
    else if pic.seen && n.podCIDR.Contains(p.dst) then LocalIP
    else if pic.seen && n.clusterCIDR.Contains(p.dst) then ClusterIP
    else ToHost
  }

  lemma AtClassification(n: Node, v: View, sw: FlowTable, pic: Picture, p: Packet, k: Key)
    requires Represents(n, v, sw) && DepictsProgram(v, pic.seen)
    requires Best(sw, TABLE_CLASSIFICATION, p, k)
    ensures k == KeyOf(n, Classified(n, pic, p))
  {
    HostContains(n.gatewayIP, p.dst);
    assert Has(v, Classified(n, pic, p));
    Outranked(n, v, sw, p, Classified(n, pic, p));
    var e := EntryAt(n, v, sw, k);
  }

  /** The tables compute the routing function, whichever entries the switch selects. */
  lemma {:induction false} PipelineComputesRoute(n: Node, v: View, sw: FlowTable, pic: Picture, p: Packet,
                                                 path: seq<Key>, outs: seq<Emission>)
    requires Represents(n, v, sw) && Depicts(v, ProtoOf(p), pic)
    requires OverlayAddress(n, p.dst) ==> DisjointCIDRs(v, ProtoOf(p))
    requires Runs(sw, TABLE_CLASSIFICATION, p, path, outs)
    ensures outs == Route(n, pic, p)
  {
    var expected := Classified(n, pic, p);
    assert Matches(KeyOf(n, expected).pattern, p) by {
      HostContains(n.gatewayIP, p.dst);
    }
    Outranked(n, v, sw, p, expected);
    AtClassification(n, v, sw, pic, p, path[0]);
    CodeHasEffect(n, expected, p);
    match expected
    case ClassifyARP => AtLocalARP(n, v, sw, pic, p, path[1..], outs);
    case LocalIP => AtL2Rewrites(n, v, sw, pic, p, path[1..], outs);
    case ClusterIP => AtOverlay(n, v, sw, pic, p, path[1..], outs);
    case _ =>
  }

  /** Every table a log can leave behind only moves packets forward. */
  lemma GotosMoveForward(n: Node, v: View, sw: FlowTable)
    requires Represents(n, v, sw)
    ensures ForwardGotos(sw)
  {
    forall k | k in sw && Next(sw[k]).Some?
      ensures k.table < Next(sw[k]).value <= LAST_TABLE
    {
      var e := EntryAt(n, v, sw, k);
      var p := Packet(0, 0, 0, "", 0, 0);
      NextIsNext(sw[k], p);
      CodeHasEffect(n, e, p);
    }
  }

  /** Both directions: the switch forwards `p` as `outs` exactly when `outs` is the route of `p`. */
  lemma TablesRefineRoute(n: Node, v: View, sw: FlowTable, pic: Picture, p: Packet, outs: seq<Emission>)
    requires Represents(n, v, sw) && Depicts(v, ProtoOf(p), pic)
    requires OverlayAddress(n, p.dst) ==> DisjointCIDRs(v, ProtoOf(p))
    ensures Forwards(sw, p, outs) <==> outs == Route(n, pic, p)
  {
    GotosMoveForward(n, v, sw);
    var path, some := RunExists(sw, TABLE_CLASSIFICATION, p);
    PipelineComputesRoute(n, v, sw, pic, p, path, some);
    if path' :| Runs(sw, TABLE_CLASSIFICATION, p, path', outs) {
      PipelineComputesRoute(n, v, sw, pic, p, path', outs);
    }
  }
}
