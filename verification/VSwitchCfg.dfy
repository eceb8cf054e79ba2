/** Desired VSwitchConfig content and the reconciliation test of the vswitchcfg controller. */
module VSwitchCfg {
  import opened Addresses

  datatype Spec = Spec(podCIDR: string, clusterCIDR: string, serviceCIDR: string,
                       overlayIP: string, overlayType: string, tunnelID: int)

  datatype AddressType = InternalIP | ExternalIP | OtherAddress

  datatype NodeAddress = NodeAddress(kind: AddressType, address: string)

  datatype NodeObject = NodeObject(name: string, addresses: seq<NodeAddress>, podCIDR: string)

  /** The controller's own settings. */
  datatype Settings = Settings(overlayType: string, clusterCIDR: string, serviceCIDR: string)

  /** The last address of a kind, or the empty string. */
  function LastOf(kind: AddressType, addresses: seq<NodeAddress>): string {
    if addresses == [] then ""
    else
      var last := addresses[|addresses| - 1];
      if last.kind == kind then last.address else LastOf(kind, addresses[..|addresses| - 1])
  }

  /** `nodeOverlayIP` as a function: the internal address wins over the external one. */
  function OverlayIP(node: NodeObject): Option<string> {
    var internal, external := LastOf(InternalIP, node.addresses), LastOf(ExternalIP, node.addresses);
    if internal != "" then Some(internal) else if external != "" then Some(external) else None
  }

  /** The address at `i` is the last one of its kind. */
  ghost predicate IsLast(addresses: seq<NodeAddress>, kind: AddressType, i: int) {
    && 0 <= i < |addresses| && addresses[i].kind == kind
    && forall j :: i < j < |addresses| ==> addresses[j].kind != kind
  }

  /** The last address of the kind exists and is not empty. */
  ghost predicate Usable(addresses: seq<NodeAddress>, kind: AddressType) {
    exists i :: IsLast(addresses, kind, i) && addresses[i].address != ""
  }

  /** By position: the last internal address if it is not empty, else the last external one if it
      is not empty, else nothing. */
  ghost predicate IsOverlayIP(addresses: seq<NodeAddress>, r: Option<string>) {
    && (forall i :: IsLast(addresses, InternalIP, i) && addresses[i].address != "" ==> r == Some(addresses[i].address))
    && (forall i :: IsLast(addresses, ExternalIP, i) && addresses[i].address != "" && !Usable(addresses, InternalIP) ==>
          r == Some(addresses[i].address))
    && (r.None? <==> !Usable(addresses, InternalIP) && !Usable(addresses, ExternalIP))
  }

  lemma {:induction false} LastOfIsLast(kind: AddressType, addresses: seq<NodeAddress>)
    ensures forall i :: IsLast(addresses, kind, i) ==> LastOf(kind, addresses) == addresses[i].address
    ensures LastOf(kind, addresses) != "" ==> exists i :: IsLast(addresses, kind, i)
  {
    if addresses != [] {
      var last := |addresses| - 1;
      LastOfIsLast(kind, addresses[..last]);
      if addresses[last].kind == kind {
        assert IsLast(addresses, kind, last);
      } else {
        assert forall i :: IsLast(addresses[..last], kind, i) ==> IsLast(addresses, kind, i);
        assert forall i :: IsLast(addresses, kind, i) ==> IsLast(addresses[..last], kind, i);
      }
    }
  }

  lemma OverlayIPByPosition(node: NodeObject)
    ensures IsOverlayIP(node.addresses, OverlayIP(node))
  {
    LastOfIsLast(InternalIP, node.addresses);
    LastOfIsLast(ExternalIP, node.addresses);
  }

  method NodeOverlayIP(node: NodeObject) returns (r: Option<string>)
    ensures r == OverlayIP(node) && IsOverlayIP(node.addresses, r)
  {
    OverlayIPByPosition(node);
    var internalIP, externalIP := "", "";
    for i := 0 to |node.addresses|
      invariant internalIP == LastOf(InternalIP, node.addresses[..i])
      invariant externalIP == LastOf(ExternalIP, node.addresses[..i])
    {
      var a := node.addresses[i];
      assert node.addresses[..i + 1][..i] == node.addresses[..i];
      if a.kind == InternalIP {
        internalIP := a.address;
      }
      if a.kind == ExternalIP {
        externalIP := a.address;
      }
    }
    assert node.addresses[..|node.addresses|] == node.addresses;
    if internalIP != "" {
      return Some(internalIP);
    }
    if externalIP != "" {
      return Some(externalIP);
    }
    return None;
  }

  lemma OverlayIPIsUnique(node: NodeObject, ip: Option<string>)
    requires IsOverlayIP(node.addresses, ip)
    ensures ip == OverlayIP(node)
  {
    OverlayIPByPosition(node);
  }

  /** The managed fields of a config are those of the node and of the controller's settings. */
  predicate Reflects(v: Settings, node: NodeObject, ip: string, spec: Spec) {
    && spec.podCIDR == node.podCIDR && spec.overlayIP == ip
    && spec.clusterCIDR == v.clusterCIDR && spec.serviceCIDR == v.serviceCIDR && spec.overlayType == v.overlayType
  }

  /** The fields a node asks for, with no tunnel ID; None if the node has no usable overlay IP
      or no pod CIDR. */
  function Desired(v: Settings, node: NodeObject): Option<Spec> {
    var ip := OverlayIP(node);
    if ip.None? || node.podCIDR == "" then None
    else Some(Spec(node.podCIDR, v.clusterCIDR, v.serviceCIDR, ip.value, v.overlayType, 0))
  }

  /** Everything but the tunnel ID. */
  function Fields(spec: Spec): Spec {
    spec.(tunnelID := 0)
  }

  /** `syncVSwitchConfig` on a cached object: a copy with the managed fields overwritten. */
  method Overwrite(cached: Spec, desired: Spec) returns (r: Spec)
    ensures Fields(r) == Fields(desired) && r.tunnelID == cached.tunnelID
  {
    r := cached;
    r := r.(overlayIP := desired.overlayIP);
    r := r.(overlayType := desired.overlayType);
    r := r.(podCIDR := desired.podCIDR);
    r := r.(clusterCIDR := desired.clusterCIDR);
    r := r.(serviceCIDR := desired.serviceCIDR);
  }

  function Synced(cached: Spec, desired: Spec): Spec {
    desired.(tunnelID := cached.tunnelID)
  }

  /** `needsUpdate`: None is the error return. A config missing from the cache always needs one. */
  function NeedsUpdate(v: Settings, node: NodeObject, cached: Option<Spec>): Option<bool> {
    if cached.None? then Some(true)
    else
      var ip := OverlayIP(node);
      if ip.None? || node.podCIDR == "" then None
      else
        var spec := cached.value;
        if spec.overlayIP != ip.value then Some(true)
        else if spec.overlayType != v.overlayType then Some(true)
        else if spec.podCIDR != node.podCIDR then Some(true)
        else if spec.clusterCIDR != v.clusterCIDR then Some(true)
        else if spec.serviceCIDR != v.serviceCIDR then Some(true)
        else Some(false)
  }

  /** Fixed point: for a usable node and an existing cached config, no update is needed exactly
      when the sync would write an identical object. */
  lemma NeedsUpdateIsExact(v: Settings, node: NodeObject, cached: Spec)
    requires Desired(v, node).Some?
    ensures NeedsUpdate(v, node, Some(cached)) == Some(Synced(cached, Desired(v, node).value) != cached)
    ensures NeedsUpdate(v, node, Some(Synced(cached, Desired(v, node).value))) == Some(false)
  {
  }
}
