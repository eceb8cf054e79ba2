/** Gateway addresses: the three places that compute them, and the CNI plugin's gateway and
    default-route loop. */
module Gateways {
  import opened Addresses

  // ---------------------------------------------------------------- agreement

  /** The gateway of the OpenFlow controller: the successor of the masked pod network. */
  function ControllerGateway(pod: Cidr): Option<nat> {
    NextIP(Mask(pod.base, pod.HostBits()), 32)
  }

  /** The address main() puts on the host-local port: the gateway under the cluster's mask. */
  function HostLocalAddress(cluster: Cidr, pod: Cidr): Option<(nat, nat)> {
    var gw := NextIP(Mask(pod.base, pod.HostBits()), 32);
    if gw.None? then None else Some((gw.value, cluster.len))
  }

  /** `calcGatewayIP` of the CNI plugin on a pod address with the pod CIDR's mask. */
  function PluginGateway(a: nat, len: nat, w: nat): Option<nat>
    requires w >= 8
  {
    NextIP(Mask(a, if len <= w then w - len else 0), w)
  }

  /** For every pod CIDR and every address in it the three computations agree on the address after
      the base, which exists unless it would lie below 1.0.0.0. It lies in the pod CIDR exactly when
      the prefix length is at most 31, and then, if the pod CIDR is inside the cluster CIDR, it
      reduces to the cluster network under the cluster's mask. */
  lemma GatewayAgreement(cluster: Cidr, pod: Cidr, a: nat)
    requires cluster.Valid() && pod.Valid() && pod.Contains(a)
    ensures ControllerGateway(pod)
            == if 0x100_0000 <= pod.base + 1 <= 0xFFFF_FFFF then Some(pod.base + 1) else None
    ensures PluginGateway(a, pod.len, 32) == ControllerGateway(pod)
    ensures CalcGatewayIP(IPNet(V4(a), pod.len))
            == if ControllerGateway(pod).None? then Malformed else V4(ControllerGateway(pod).value)
    ensures HostLocalAddress(cluster, pod) ==
            if ControllerGateway(pod).None? then None else Some((ControllerGateway(pod).value, cluster.len))
    ensures pod.Contains(pod.base + 1) <==> pod.len <= 31
    ensures pod.len <= 31 && (forall x :: pod.Contains(x) ==> cluster.Contains(x)) ==>
              Mask(pod.base + 1, cluster.HostBits()) == cluster.base
  {
    MaskSuccessor(pod.base, pod.HostBits());
    NextIPv4(pod.base);
  }

  // ---------------------------------------------------------------- calcGateways

  /** An address as the plugin classifies it: `To4` succeeds, sixteen bytes, or neither. */
  datatype IP = V4(value: nat) | V6(value: nat) | Malformed {
    function Bits(): nat {
      if V4? then 32 else 128
    }
  }

  datatype IPNet = IPNet(ip: IP, len: nat)

  datatype IPConfig = IPConfig(address: IPNet, gateway: Option<IP>, iface: Option<nat>)

  datatype Route = Route(dst: IPNet, gw: Option<IP>)

  datatype Conf = Conf(isGW: bool, isDefaultGW: bool)

  datatype GwInfo = GwInfo(gws: seq<IPNet>, defaultRouteFound: bool)

  function CalcGatewayIP(n: IPNet): IP
    requires !n.ip.Malformed?
  {
    var gw := PluginGateway(n.ip.value, n.len, n.ip.Bits());
    if gw.None? then Malformed else if n.ip.V4? then V4(gw.value) else V6(gw.value)
  }

  /** The address after the first one of the subnet, as a number; not usable if its top octet is
      zero or it overflows. */
  function SubnetGateway(n: IPNet): IP
    requires !n.ip.Malformed?
  {
    match n.ip
    case V4(a) =>
      var gw := First(a, if n.len < 32 then 32 - n.len else 0) + 1;
      if 0x100_0000 <= gw <= 0xFFFF_FFFF then V4(gw) else Malformed
    case V6(a) =>
      var gw := First(a, if n.len < 128 then 128 - n.len else 0) + 1;
      if Pow2(120) <= gw < Pow2(128) then V6(gw) else Malformed
  }

  lemma CalcGatewayIPIsSubnetGateway(n: IPNet)
    requires !n.ip.Malformed?
    ensures CalcGatewayIP(n) == SubnetGateway(n)
  {
    PluginGatewayIs(n.ip.value, n.len, n.ip.Bits());
    PowersOfTwo();
  }

  lemma PluginGatewayIs(a: nat, len: nat, w: nat)
    requires w >= 8
    ensures var gw := First(a, if len < w then w - len else 0) + 1;
            PluginGateway(a, len, w) == if Pow2(w - 8) <= gw < Pow2(w) then Some(gw) else None
  {
    MaskRoundsDown(a, if len < w then w - len else 0);
  }

  /** The gateway an address ends up with: the given one, else with IsGW that of its subnet. */
  function GatewayAfter(conf: Conf, c: IPConfig): Option<IP>
    requires !c.address.ip.Malformed?
  {
    if c.gateway.Some? then c.gateway else if conf.isGW then Some(SubnetGateway(c.address)) else None
  }

  /** 0.0.0.0/0 or ::/0. */
  function DefaultNet(v4: bool): IPNet {
    IPNet(if v4 then V4(0) else V6(0), 0)
  }

  function Filled(conf: Conf, c: IPConfig): IPConfig
    requires !c.address.ip.Malformed?
  {
    c.(iface := Some(2),
       gateway := if c.gateway.None? && conf.isGW then Some(CalcGatewayIP(c.address)) else c.gateway)
  }

  lemma FilledIs(conf: Conf, c: IPConfig)
    requires !c.address.ip.Malformed?
    ensures Filled(conf, c) == IPConfig(c.address, GatewayAfter(conf, c), Some(2))
  {
    CalcGatewayIPIsSubnetGateway(c.address);
  }

  predicate IsFamily(c: IPConfig, v4: bool) {
    if v4 then c.address.ip.V4? else c.address.ip.V6?
  }

  predicate HasDefault(routes: seq<Route>, v4: bool) {
    exists i :: 0 <= i < |routes| && routes[i].gw.Some? && routes[i].dst == DefaultNet(v4)
  }

  predicate WellFormed(ips: seq<IPConfig>) {
    forall i :: 0 <= i < |ips| ==> !ips[i].address.ip.Malformed?
  }

  ghost predicate Present(ips: seq<IPConfig>, v4: bool) {
    exists i :: 0 <= i < |ips| && IsFamily(ips[i], v4)
  }

  /** The routes the loop appends: for each family, at its first address, a default route unless
      the given routes already have one with a gateway. */
  ghost function Appended(conf: Conf, ips: seq<IPConfig>, routes: seq<Route>): seq<Route>
    requires WellFormed(ips)
  {
    if ips == [] then []
    else
      var last := |ips| - 1;
      var v4 := ips[last].address.ip.V4?;
      Appended(conf, ips[..last], routes)
      + if conf.isDefaultGW && !Present(ips[..last], v4) && !HasDefault(routes, v4)
        then [Route(DefaultNet(v4), Filled(conf, ips[last]).gateway)] else []
  }

  /** The gateways of one family, one per address, in order. */
  function GatewayNets(conf: Conf, ips: seq<IPConfig>, v4: bool): seq<IPNet>
    requires WellFormed(ips)
  {
    if ips == [] then []
    else
      var last := |ips| - 1;
      var gw := Filled(conf, ips[last]).gateway;
      GatewayNets(conf, ips[..last], v4)
      + if IsFamily(ips[last], v4) && conf.isGW && gw.Some? then [IPNet(gw.value, ips[last].address.len)] else []
  }

  /** The loop has dealt with the first `k` addresses and left the others alone. */
  ghost predicate Processed(conf: Conf, was: seq<IPConfig>, given: seq<Route>, k: nat,
                            ips: seq<IPConfig>, routes: seq<Route>) {
    && k <= |was| == |ips| && WellFormed(was[..k])
    && (forall i :: 0 <= i < k ==> ips[i] == IPConfig(was[i].address, GatewayAfter(conf, was[i]), Some(2)))
    && (forall i :: k <= i < |ips| ==> ips[i] == was[i])
    && routes == given + Appended(conf, was[..k], given)
  }

  /** What is gathered for one family over some addresses. */
  ghost function Gathered(conf: Conf, ips: seq<IPConfig>, v4: bool): GwInfo
    requires WellFormed(ips)
  {
    GwInfo(GatewayNets(conf, ips, v4), conf.isDefaultGW && Present(ips, v4))
  }

  class Result {
    var ips: seq<IPConfig>
    var routes: seq<Route>

    constructor (ips: seq<IPConfig>, routes: seq<Route>)
      ensures this.ips == ips && this.routes == routes
    {
      this.ips, this.routes := ips, routes;
    }

    /** The inner loop over the routes, and the append when it finds no default route. */
    method EnsureDefault(v4: bool, gateway: Option<IP>)
      modifies this`routes
      ensures routes == old(routes) + if HasDefault(old(routes), v4) then [] else [Route(DefaultNet(v4), gateway)]
    {
      for i := 0 to |routes|
        invariant routes == old(routes) && !HasDefault(routes[..i], v4)
      {
        if routes[i].gw.Some? && routes[i].dst == DefaultNet(v4) {
          return;
        }
        assert forall j :: 0 <= j < i ==> routes[..i + 1][j] == routes[..i][j];
      }
      assert routes[..|routes|] == routes;
      routes := routes + [Route(DefaultNet(v4), gateway)];
    }

    /** `calcGateways`: None is the "Unknown IP object" error, after the addresses before it have
        been processed. */
    method CalcGateways(conf: Conf) returns (r: Option<(GwInfo, GwInfo)>)
      modifies this
      ensures r.Some? <==> WellFormed(old(ips))
      ensures r.Some? ==>
                && Processed(conf, old(ips), old(routes), |ips|, ips, routes)
                && r.value == (Gathered(conf, old(ips), true), Gathered(conf, old(ips), false))
      ensures r.None? ==> exists k :: 0 <= k < |old(ips)| && old(ips)[k].address.ip.Malformed?
                                      && Processed(conf, old(ips), old(routes), k, ips, routes)
    {
      var gwsV4, gwsV6 := GwInfo([], false), GwInfo([], false);
      ghost var given, was := routes, ips;
      for k := 0 to |ips|
        invariant Processed(conf, was, given, k, ips, routes)
        invariant gwsV4 == Gathered(conf, was[..k], true) && gwsV6 == Gathered(conf, was[..k], false)
      {
        var ipc := ips[k];
        if ipc.address.ip.Malformed? {
          assert !WellFormed(was);
          return None;
        }
        var v4 := ipc.address.ip.V4?;
        var gws := if v4 then gwsV4 else gwsV6;

        ipc := ipc.(iface := Some(2));
        if ipc.gateway.None? && conf.isGW {
          ipc := ipc.(gateway := Some(CalcGatewayIP(ipc.address)));
        }
        ips := ips[k := ipc];

        if conf.isDefaultGW && !gws.defaultRouteFound {
          EnsureDefault(v4, ipc.gateway);
          gws := gws.(defaultRouteFound := true);
        }
        if conf.isGW {
          gws := gws.(gws := gws.gws + [IPNet(ipc.gateway.value, ipc.address.len)]);
        }
        if v4 {
          gwsV4 := gws;
        } else {
          gwsV6 := gws;
        }
        FilledIs(conf, was[k]);
        GatheredStep(conf, was, k, true);
        GatheredStep(conf, was, k, false);
        RoutesStep(conf, was, given, k);
      }
      assert was[..|was|] == was;
      return Some((gwsV4, gwsV6));
    }
  }

  /** One more address, seen through the specification functions. */
  lemma LoopStep(conf: Conf, was: seq<IPConfig>, given: seq<Route>, k: nat)
    requires k < |was| && WellFormed(was[..k]) && !was[k].address.ip.Malformed?
    ensures WellFormed(was[..k + 1])
    ensures forall v4 :: Present(was[..k + 1], v4) <==> Present(was[..k], v4) || IsFamily(was[k], v4)
    ensures was[..k + 1][..k] == was[..k]
  {
  }

  /** How the gateway list of a family grows at the address at `k`. */
  lemma GatheredStep(conf: Conf, was: seq<IPConfig>, k: nat, v4: bool)
    requires k < |was| && WellFormed(was[..k]) && !was[k].address.ip.Malformed?
    ensures WellFormed(was[..k + 1])
    ensures var before, after := Gathered(conf, was[..k], v4), Gathered(conf, was[..k + 1], v4);
            if !IsFamily(was[k], v4) then after == before
            else
              && after.defaultRouteFound == conf.isDefaultGW
              && after.gws == before.gws
                 + if conf.isGW then [IPNet(Filled(conf, was[k]).gateway.value, was[k].address.len)] else []
  {
    LoopStep(conf, was, [], k);
  }

  /** How the routes grow at the address at `k`. */
  lemma {:induction false} RoutesStep(conf: Conf, was: seq<IPConfig>, given: seq<Route>, k: nat)
    requires k < |was| && WellFormed(was[..k]) && !was[k].address.ip.Malformed?
    ensures WellFormed(was[..k + 1])
    ensures var v4, before := was[k].address.ip.V4?, given + Appended(conf, was[..k], given);
            given + Appended(conf, was[..k + 1], given) ==
            if conf.isDefaultGW && !Present(was[..k], v4) && !HasDefault(before, v4)
            then before + [Route(DefaultNet(v4), Filled(conf, was[k]).gateway)] else before
  {
    LoopStep(conf, was, given, k);
    var v4, added := was[k].address.ip.V4?, Appended(conf, was[..k], given);
    HasDefaultSplit(given, added, v4);
    if !Present(was[..k], v4) {
      DefaultNotAppended(conf, was[..k], given, v4);
    }
    assert added + [] == added;
  }

  lemma HasDefaultSplit(a: seq<Route>, b: seq<Route>, v4: bool)
    ensures HasDefault(a + b, v4) <==> HasDefault(a, v4) || HasDefault(b, v4)
  {
    if HasDefault(a, v4) {
      var i :| 0 <= i < |a| && a[i].gw.Some? && a[i].dst == DefaultNet(v4);
      assert (a + b)[i] == a[i];
    }
    if HasDefault(b, v4) {
      var i :| 0 <= i < |b| && b[i].gw.Some? && b[i].dst == DefaultNet(v4);
      assert (a + b)[|a| + i] == b[i];
    }
  }

  /** Nothing is appended for a family that has not occurred. */
  lemma {:induction false} DefaultNotAppended(conf: Conf, ips: seq<IPConfig>, routes: seq<Route>, v4: bool)
    requires WellFormed(ips) && !Present(ips, v4)
    ensures !HasDefault(Appended(conf, ips, routes), v4)
  {
    if ips != [] {
      var last := |ips| - 1;
      assert forall i :: 0 <= i < last ==> ips[..last][i] == ips[i];
      DefaultNotAppended(conf, ips[..last], routes, v4);
      var other := ips[last].address.ip.V4?;
      assert IsFamily(ips[last], other);
      var more := [Route(DefaultNet(other), Filled(conf, ips[last]).gateway)];
      HasDefaultSplit(Appended(conf, ips[..last], routes), more, v4);
    }
  }

  // ---------------------------------------------------------------- what the loop achieves

  function DefaultsFor(routes: seq<Route>, v4: bool): nat {
    if routes == [] then 0
    else DefaultsFor(routes[..|routes| - 1], v4) + if routes[|routes| - 1].dst == DefaultNet(v4) then 1 else 0
  }

  lemma {:induction false} DefaultsForSnoc(routes: seq<Route>, r: Route, v4: bool)
    ensures DefaultsFor(routes + [r], v4) == DefaultsFor(routes, v4) + if r.dst == DefaultNet(v4) then 1 else 0
  {
  }

  /** The first address of a family, after it has been processed, has a gateway. */
  ghost predicate FirstHasGateway(conf: Conf, ips: seq<IPConfig>, v4: bool)
    requires WellFormed(ips)
  {
    exists i :: 0 <= i < |ips| && IsFamily(ips[i], v4) && !Present(ips[..i], v4) && Filled(conf, ips[i]).gateway.Some?
  }

  /** At most one default route is appended per family; exactly one if a default route is wanted,
      the family occurs and the given routes have none with a gateway. */
  lemma {:induction false} AppendedPerFamily(conf: Conf, ips: seq<IPConfig>, routes: seq<Route>, v4: bool)
    requires WellFormed(ips)
    ensures DefaultsFor(Appended(conf, ips, routes), v4) ==
            if conf.isDefaultGW && Present(ips, v4) && !HasDefault(routes, v4) then 1 else 0
    ensures forall r :: r in Appended(conf, ips, routes) ==> r.dst == DefaultNet(true) || r.dst == DefaultNet(false)
  {
    if ips != [] {
      var last := |ips| - 1;
      assert ips[..last + 1] == ips;
      AppendedPerFamily(conf, ips[..last], routes, v4);
      LoopStep(conf, ips, routes, last);
      var family := ips[last].address.ip.V4?;
      var before := Appended(conf, ips[..last], routes);
      assert before + [] == before;
      DefaultsForSnoc(before, Route(DefaultNet(family), Filled(conf, ips[last]).gateway), v4);
      assert IsFamily(ips[last], v4) <==> family == v4;
    }
  }

  /** An appended default route has a gateway exactly when the first address of its family does. */
  lemma {:induction false} AppendedGateway(conf: Conf, ips: seq<IPConfig>, routes: seq<Route>, v4: bool)
    requires WellFormed(ips) && conf.isDefaultGW && !HasDefault(routes, v4)
    ensures HasDefault(Appended(conf, ips, routes), v4) <==> FirstHasGateway(conf, ips, v4)
  {
    if ips != [] {
      var last := |ips| - 1;
      assert ips[..last + 1] == ips;
      AppendedGateway(conf, ips[..last], routes, v4);
      LoopStep(conf, ips, routes, last);
      FirstHasGatewaySnoc(conf, ips, v4);
      var family := ips[last].address.ip.V4?;
      var more := [Route(DefaultNet(family), Filled(conf, ips[last]).gateway)];
      var before := Appended(conf, ips[..last], routes);
      assert before + [] == before;
      HasDefaultSplit(before, more, v4);
      assert HasDefault(more, v4) <==> more[0].gw.Some? && more[0].dst == DefaultNet(v4);
    }
  }

  lemma FirstHasGatewaySnoc(conf: Conf, ips: seq<IPConfig>, v4: bool)
    requires WellFormed(ips) && ips != []
    ensures var last := |ips| - 1;
            FirstHasGateway(conf, ips, v4) <==>
              || FirstHasGateway(conf, ips[..last], v4)
              || (IsFamily(ips[last], v4) && !Present(ips[..last], v4) && Filled(conf, ips[last]).gateway.Some?)
  {
    var last := |ips| - 1;
    if FirstHasGateway(conf, ips[..last], v4) {
      var i :| 0 <= i < last && IsFamily(ips[..last][i], v4) && !Present(ips[..last][..i], v4)
               && Filled(conf, ips[..last][i]).gateway.Some?;
      assert ips[..last][..i] == ips[..i] && ips[..last][i] == ips[i];
    }
    if FirstHasGateway(conf, ips, v4) {
      var i :| 0 <= i < |ips| && IsFamily(ips[i], v4) && !Present(ips[..i], v4) && Filled(conf, ips[i]).gateway.Some?;
      if i < last {
        assert ips[..last][..i] == ips[..i] && ips[..last][i] == ips[i];
      }
    }
  }

  /** When a default route is wanted, every family that occurs ends up with one: a given route with a
      gateway, or an appended one with the gateway of the family's first address, at `k`. */
  lemma {:induction false} EveryFamilyHasDefault(conf: Conf, ips: seq<IPConfig>, routes: seq<Route>, v4: bool, k: nat)
    requires WellFormed(ips) && conf.isDefaultGW
    requires k < |ips| && IsFamily(ips[k], v4) && !Present(ips[..k], v4)
    ensures var everything := IPNet(if v4 then V4(0) else V6(0), 0);
            || (exists i :: 0 <= i < |routes| && routes[i].gw.Some? && routes[i].dst == everything)
            || Route(everything, GatewayAfter(conf, ips[k])) in Appended(conf, ips, routes)
  {
    if !HasDefault(routes, v4) {
      AppendedAtFirst(conf, ips, routes, v4, k);
    }
  }

  lemma {:induction false} AppendedAtFirst(conf: Conf, ips: seq<IPConfig>, routes: seq<Route>, v4: bool, k: nat)
    requires WellFormed(ips) && conf.isDefaultGW && !HasDefault(routes, v4)
    requires k < |ips| && IsFamily(ips[k], v4) && !Present(ips[..k], v4)
    ensures Route(DefaultNet(v4), GatewayAfter(conf, ips[k])) in Appended(conf, ips, routes)
    decreases |ips|
  {
    var last := |ips| - 1;
    if k < last {
      assert ips[..last][..k] == ips[..k];
      AppendedAtFirst(conf, ips[..last], routes, v4, k);
    } else {
      FilledIs(conf, ips[k]);
    }
  }

  function FilledAll(conf: Conf, ips: seq<IPConfig>): seq<IPConfig>
    requires WellFormed(ips)
  {
    seq(|ips|, i requires 0 <= i < |ips| => Filled(conf, ips[i]))
  }

  lemma FilledKeepsFamilies(conf: Conf, ips: seq<IPConfig>, v4: bool)
    requires WellFormed(ips)
    ensures WellFormed(FilledAll(conf, ips))
    ensures Present(FilledAll(conf, ips), v4) <==> Present(ips, v4)
  {
    if Present(ips, v4) {
      var i :| 0 <= i < |ips| && IsFamily(ips[i], v4);
      assert IsFamily(FilledAll(conf, ips)[i], v4);
    }
    if Present(FilledAll(conf, ips), v4) {
      var i :| 0 <= i < |ips| && IsFamily(FilledAll(conf, ips)[i], v4);
      assert IsFamily(ips[i], v4);
    }
  }

  lemma {:induction false} SecondRunPerFamily(conf: Conf, ips: seq<IPConfig>, routes: seq<Route>, v4: bool)
    requires WellFormed(ips)
    ensures WellFormed(FilledAll(conf, ips))
    ensures var again := Appended(conf, FilledAll(conf, ips), routes + Appended(conf, ips, routes));
            DefaultsFor(again, v4) ==
            if conf.isDefaultGW && Present(ips, v4) && !HasDefault(routes, v4) && !FirstHasGateway(conf, ips, v4)
            then 1 else 0
    ensures conf.isGW ==> FirstHasGateway(conf, ips, v4) == Present(ips, v4)
  {
    FilledKeepsFamilies(conf, ips, v4);
    var added := Appended(conf, ips, routes);
    AppendedPerFamily(conf, FilledAll(conf, ips), routes + added, v4);
    HasDefaultSplit(routes, added, v4);
    if conf.isDefaultGW && !HasDefault(routes, v4) {
      AppendedGateway(conf, ips, routes, v4);
    }
    if conf.isGW {
      FirstExists(conf, ips, v4);
    }
  }

  /** The loop appends default routes only. */
  lemma {:induction false} AppendedAreDefaults(conf: Conf, ips: seq<IPConfig>, routes: seq<Route>, k: nat)
    requires WellFormed(ips) && k < |Appended(conf, ips, routes)|
    ensures Appended(conf, ips, routes)[k].dst == DefaultNet(true)
            || Appended(conf, ips, routes)[k].dst == DefaultNet(false)
  {
    var before := ips[..|ips| - 1];
    if k < |Appended(conf, before, routes)| {
      AppendedAreDefaults(conf, before, routes, k);
    }
  }

  lemma {:induction false} NoDefaultsNothing(conf: Conf, ips: seq<IPConfig>, routes: seq<Route>)
    requires WellFormed(ips)
    requires DefaultsFor(Appended(conf, ips, routes), true) == DefaultsFor(Appended(conf, ips, routes), false) == 0
    ensures Appended(conf, ips, routes) == []
  {
    var added := Appended(conf, ips, routes);
    if added != [] {
      AppendedAreDefaults(conf, ips, routes, |added| - 1);
    }
  }

  /** A second run on the result of a first one appends a default route for a family exactly when
      one is wanted, the family occurs, the given routes had none with a gateway, and the first
      address of the family has no gateway. With IsGW it appends nothing at all. */
  lemma {:induction false} SecondRunAppends(conf: Conf, ips: seq<IPConfig>, routes: seq<Route>, v4: bool)
    requires WellFormed(ips)
    ensures WellFormed(FilledAll(conf, ips))
    ensures var again := Appended(conf, FilledAll(conf, ips), routes + Appended(conf, ips, routes));
            && (DefaultsFor(again, v4) ==
                if conf.isDefaultGW && Present(ips, v4) && !HasDefault(routes, v4) && !FirstHasGateway(conf, ips, v4)
                then 1 else 0)
            && (conf.isGW ==> again == [])
  {
    SecondRunPerFamily(conf, ips, routes, true);
    SecondRunPerFamily(conf, ips, routes, false);
    if conf.isGW {
      NoDefaultsNothing(conf, FilledAll(conf, ips), routes + Appended(conf, ips, routes));
    }
  }

  lemma {:induction false} FirstExists(conf: Conf, ips: seq<IPConfig>, v4: bool)
    requires WellFormed(ips) && conf.isGW
    ensures FirstHasGateway(conf, ips, v4) == Present(ips, v4)
  {
    if ips != [] {
      var last := |ips| - 1;
      assert ips[..last + 1] == ips;
      FirstExists(conf, ips[..last], v4);
      LoopStep(conf, ips, [], last);
      FirstHasGatewaySnoc(conf, ips, v4);
    }
  }

  /** The positions of the addresses of one family. */
  function OfFamily(ips: seq<IPConfig>, v4: bool): set<nat> {
    set k: nat | k < |ips| && IsFamily(ips[k], v4)
  }

  lemma {:induction false} GatewaysCounted(conf: Conf, ips: seq<IPConfig>, v4: bool)
    requires WellFormed(ips) && conf.isGW
    ensures |GatewayNets(conf, ips, v4)| == |OfFamily(ips, v4)|
  {
    if ips != [] {
      var last := |ips| - 1;
      GatewaysCounted(conf, ips[..last], v4);
      assert OfFamily(ips, v4) == OfFamily(ips[..last], v4) + if IsFamily(ips[last], v4) then {last} else {};
    }
  }

  /** With IsGW, each family's gateway list has one entry per address of the family, in order, and
      no other: the entry of the address at `k` comes after those of the addresses before it. */
  lemma {:induction false} OneGatewayPerAddress(conf: Conf, ips: seq<IPConfig>, v4: bool, k: nat)
    requires WellFormed(ips) && conf.isGW && k < |ips| && IsFamily(ips[k], v4)
    ensures |GatewayNets(conf, ips, v4)| == |OfFamily(ips, v4)|
    ensures var before := |OfFamily(ips[..k], v4)|;
            && before < |GatewayNets(conf, ips, v4)|
            && GatewayNets(conf, ips, v4)[before] == IPNet(GatewayAfter(conf, ips[k]).value, ips[k].address.len)
    ensures GatewayNets(conf, ips[..k], v4) <= GatewayNets(conf, ips, v4)
  {
    FilledIs(conf, ips[k]);
    GatewaysCounted(conf, ips, v4);
    GatewaysCounted(conf, ips[..k], v4);
    GatewayInPlace(conf, ips, v4, k);
  }

  lemma {:induction false} GatewayInPlace(conf: Conf, ips: seq<IPConfig>, v4: bool, k: nat)
    requires WellFormed(ips) && conf.isGW && k < |ips| && IsFamily(ips[k], v4)
    ensures var before := |GatewayNets(conf, ips[..k], v4)|;
            && before < |GatewayNets(conf, ips, v4)|
            && Filled(conf, ips[k]).gateway.Some?
            && GatewayNets(conf, ips, v4)[before] == IPNet(Filled(conf, ips[k]).gateway.value, ips[k].address.len)
            && GatewayNets(conf, ips[..k], v4) <= GatewayNets(conf, ips, v4)
    decreases |ips|
  {
    var last := |ips| - 1;
    if k < last {
      GatewayInPlace(conf, ips[..last], v4, k);
      assert ips[..last][..k] == ips[..k];
    }
  }
}
