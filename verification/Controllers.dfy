/** The handlers of kube-ovs-controller as sequential code, tied to the steps of the protocol. */
module Controllers {
  import opened Addresses
  import opened TunnelIDs
  import opened VSwitchCfg
  import opened ControlPlane

  /** OnAdd and OnUpdate of a node with the two cache reads of needsUpdate and syncVSwitchConfig:
      the write that is issued, if any, is the one asked for and that of the protocol step. */
  method OnNode(v: Settings, node: NodeObject, first: Option<Object>, second: Option<Object>)
    returns (r: Option<Request>)
    ensures r == Decide(v, node, first, second)
    ensures forall ip :: IsOverlayIP(node.addresses, ip) ==> Asked(v, node, ip, first, second, r)
  {
    forall ip | IsOverlayIP(node.addresses, ip)
      ensures Asked(v, node, ip, first, second, Decide(v, node, first, second))
    {
      DecidesAsAsked(v, node, ip, first, second);
    }
    var needs := NeedsUpdate(v, node, if first.None? then None else Some(first.value.spec));
    if needs != Some(true) {
      return None;
    }
    var ip := NodeOverlayIP(node);
    if ip.None? {
      return None;
    }
    if node.podCIDR == "" {
      return None;
    }
    var desired := Spec(node.podCIDR, v.clusterCIDR, v.serviceCIDR, ip.value, v.overlayType, 0);
    if second.None? {
      return Some(CreateReq(node.name, desired));
    }
    var spec := Overwrite(second.value.spec, desired);
    assert spec == Synced(second.value.spec, desired);
    return Some(UpdateReq(node.name, second.value.(spec := spec)));
  }

  /** The tunnel IDs of a List call, in some order. */
  method ListIDs(store: map<string, Object>) returns (ids: seq<int>)
    ensures Lists(store, ids)
  {
    ids := [];
    var todo := store.Keys;
    while todo != {}
      invariant todo <= store.Keys
      invariant forall m :: m in store && m !in todo ==> store[m].spec.tunnelID in ids
      invariant forall id :: id in ids ==> exists m :: m in store && store[m].spec.tunnelID == id
      decreases |todo|
    {
      var m :| m in todo;
      ids := ids + [store[m].spec.tunnelID];
      todo := todo - {m};
    }
  }

  /** Get, List and Update with no step of another thread in between. */
  lemma UninterruptedAllocation(s: State, name: string, ids: seq<int>, id: int)
    requires Bookkeeping(s) && s.alloc.Idle?
    requires name in s.store && s.store[name].spec.tunnelID == 0
    requires Lists(s.store, ids) && FirstFree(UsedIDs(ids), id)
    ensures var s' := Write(s, name, s.store[name].uid, s.store[name].spec.(tunnelID := id));
            Bookkeeping(s') && (UniqueIDs(s.store) ==> (UniqueIDs(s'.store) <==> |UsedIDs(ids)| < POOL))
  {
    var v, obj := Settings("", "", ""), s.store[name];
    var s1 := s.(alloc := Fetched(name, obj));
    var s2 := s1.(alloc := Listed(name, obj, ids));
    var s3 := Write(s, name, obj.uid, obj.spec.(tunnelID := id));
    StepKeepsBookkeeping(v, s, AllocGet(name), s1);
    StepKeepsBookkeeping(v, s1, AllocList(ids), s2);
    assert Next(v, s2, AllocUpdate(id), s3);
    StepKeepsBookkeeping(v, s2, AllocUpdate(id), s3);
    if UniqueIDs(s.store) {
      AllocationIsUniqueExactlyWithRoom(v, s2, id, s3);
    }
  }

  class Client {
    var state: State

    constructor (state: State)
      ensures this.state == state
    {
      this.state := state;
    }

    /** `allocateTunnelID`, with no other writer between its calls. */
    method AllocateTunnelID(name: string) returns (found: bool)
      requires Bookkeeping(state) && state.alloc.Idle?
      modifies this
      ensures found == (name in old(state).store)
      ensures Bookkeeping(state) && state.alloc.Idle? && state.store.Keys == old(state).store.Keys
      ensures forall m :: m in state.store && m != name ==> state.store[m] == old(state).store[m]
      ensures found ==> Fields(state.store[name].spec) == Fields(old(state).store[name].spec)
      ensures found && old(state).store[name].spec.tunnelID != 0 ==> state == old(state)
      ensures found && old(state).store[name].spec.tunnelID == 0 ==>
                exists ids :: Lists(old(state).store, ids)
                              && FirstFree(UsedIDs(ids), state.store[name].spec.tunnelID)
                              && (UniqueIDs(old(state).store) ==>
                                    (UniqueIDs(state.store) <==> |UsedIDs(ids)| < POOL))
    {
      if name !in state.store {
        return false;
      }
      var obj := state.store[name];
      if obj.spec.tunnelID != 0 {
        return true;
      }
      var ids := ListIDs(state.store);
      var used := GetCurrentTunnelIDs(ids);
      var candTunID := Scan(used);
      UninterruptedAllocation(state, name, ids, candTunID);
      state := Write(state, name, obj.uid, obj.spec.(tunnelID := candTunID));
      return true;
    }
  }
}
