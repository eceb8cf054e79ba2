/** The two controllers of kube-ovs-controller as a concurrent protocol on the API store.

    The tunnel ID allocator runs Get, List, scan and Update under a mutex; the vswitchcfg
    controller writes copies of cached, arbitrarily stale objects. Update is a compare-and-set
    on the resource version. Their steps interleave freely. */
module ControlPlane {
  import opened Addresses
  import opened TunnelIDs
  import opened VSwitchCfg

  /** A stored VSwitchConfig: `uid` identifies one lifetime of a name, `rv` one version. */
  datatype Object = Object(uid: nat, rv: nat, spec: Spec)

  /** A write the vswitchcfg controller has decided on. */
  datatype Request = CreateReq(name: string, spec: Spec) | UpdateReq(name: string, obj: Object)

  datatype Allocator = Idle | Fetched(name: string, obj: Object) | Listed(name: string, obj: Object, ids: seq<int>)

  /** `versions` records every version ever stored: what any cache may still show. */
  datatype State = State(store: map<string, Object>, nextRV: nat, versions: map<nat, (string, Object)>,
                         pending: set<Request>, alloc: Allocator)

  datatype Step =
    | NodeEvent(node: NodeObject, first: Option<nat>, second: Option<nat>)   // cache reads, by version
    | Commit(req: Request)
    | Delete(name: string)
    | AllocGet(name: string)
    | AllocList(ids: seq<int>)
    | AllocUpdate(id: int)
    | AllocFail

  function Write(s: State, name: string, uid: nat, spec: Spec): State {
    var obj := Object(uid, s.nextRV, spec);
    s.(store := s.store[name := obj], nextRV := s.nextRV + 1, versions := s.versions[s.nextRV := (name, obj)])
  }

  /** What the lister returns: nothing, or some version of `name` that was once stored. */
  predicate CacheMayShow(s: State, name: string, rv: Option<nat>) {
    rv.Some? ==> rv.value in s.versions && s.versions[rv.value].0 == name
  }

  function Shown(s: State, rv: Option<nat>): Option<Object>
    requires rv.Some? ==> rv.value in s.versions
  {
    if rv.None? then None else Some(s.versions[rv.value].1)
  }

  /** OnAdd and OnUpdate of a node: needsUpdate and syncVSwitchConfig each read the cache. */
  function Decide(v: Settings, node: NodeObject, first: Option<Object>, second: Option<Object>): Option<Request> {
    var needs := NeedsUpdate(v, node, if first.None? then None else Some(first.value.spec));
    var desired := Desired(v, node);
    if needs != Some(true) || desired.None? then None
    else if second.None? then Some(CreateReq(node.name, desired.value))
    else Some(UpdateReq(node.name, second.value.(spec := Synced(second.value.spec, desired.value))))
  }

  /** The compare-and-set guard of Update: `name` still holds the version `obj` was copied from. */
  predicate Holds(store: map<string, Object>, name: string, obj: Object) {
    name in store && store[name].rv == obj.rv && store[name].uid == obj.uid
  }

  /** Create fails on an existing name; Update fails unless the stored version is the one copied. */
  function Committed(s: State, req: Request): State {
    var s' := s.(pending := s.pending - {req});
    match req
    case CreateReq(name, spec) =>
      if name in s.store then s' else Write(s', name, s.nextRV, spec)
    case UpdateReq(name, obj) =>
      if Holds(s.store, name, obj) then Write(s', name, obj.uid, obj.spec) else s'
  }

  /** `ids` lists the tunnel IDs of the stored configs. */
  ghost predicate Lists(store: map<string, Object>, ids: seq<int>) {
    && (forall m :: m in store ==> store[m].spec.tunnelID in ids)
    && (forall id :: id in ids ==> exists m :: m in store && store[m].spec.tunnelID == id)
  }

  ghost predicate Next(v: Settings, s: State, step: Step, s': State) {
    match step
    case NodeEvent(node, first, second) =>
      && CacheMayShow(s, node.name, first) && CacheMayShow(s, node.name, second)
      && var req := Decide(v, node, Shown(s, first), Shown(s, second));
         s' == if req.None? then s else s.(pending := s.pending + {req.value})
    case Commit(req) =>
      req in s.pending && s' == Committed(s, req)
    case Delete(name) =>
      s' == s.(store := s.store - {name})
    case AllocGet(name) =>
      && s.alloc.Idle?
      && s' == if name in s.store && s.store[name].spec.tunnelID == 0
               then s.(alloc := Fetched(name, s.store[name])) else s
    case AllocList(ids) =>
      && s.alloc.Fetched? && Lists(s.store, ids)
      && s' == s.(alloc := Listed(s.alloc.name, s.alloc.obj, ids))
    case AllocUpdate(id) =>
      && s.alloc.Listed? && FirstFree(UsedIDs(s.alloc.ids), id)
      && var a, t := s.alloc, s.(alloc := Idle);
         s' == if Holds(s.store, a.name, a.obj)
               then Write(t, a.name, a.obj.uid, a.obj.spec.(tunnelID := id)) else t
    case AllocFail =>
      s' == s.(alloc := Idle)
  }

  // ---------------------------------------------------------------- invariant

  ghost predicate VersionsOk(s: State) {
    && (forall m :: m in s.store ==>
          s.store[m].rv in s.versions && s.versions[s.store[m].rv] == (m, s.store[m]) && s.store[m].uid < s.nextRV)
    && (forall rv :: rv in s.versions ==> rv < s.nextRV && s.versions[rv].1.rv == rv)
  }

  /** A pending update carries the tunnel ID of the version it was copied from. */
  ghost predicate RequestOk(s: State, req: Request) {
    match req
    case CreateReq(_, spec) => spec.tunnelID == 0
    case UpdateReq(name, obj) =>
      && obj.rv in s.versions
      && s.versions[obj.rv].0 == name
      && s.versions[obj.rv].1.spec.tunnelID == obj.spec.tunnelID
      && s.versions[obj.rv].1.uid == obj.uid
  }

  ghost predicate RequestsOk(s: State) {
    forall req :: req in s.pending ==> RequestOk(s, req)
  }

  ghost predicate AllocOk(s: State) {
    && (!s.alloc.Idle? ==>
          && s.alloc.obj.rv in s.versions
          && s.versions[s.alloc.obj.rv] == (s.alloc.name, s.alloc.obj)
          && s.alloc.obj.spec.tunnelID == 0)
    && (s.alloc.Listed? ==>
          forall m :: m in s.store && s.store[m].spec.tunnelID != 0 ==> s.store[m].spec.tunnelID in s.alloc.ids)
  }

  /** Non-zero tunnel IDs of live configs are in range and pairwise distinct. */
  ghost predicate UniqueIDs(store: map<string, Object>) {
    && (forall m :: m in store ==> store[m].spec.tunnelID == 0 || ValidID(store[m].spec.tunnelID))
    && (forall m, m' :: m in store && m' in store && m != m' && store[m].spec.tunnelID != 0 ==>
          store[m].spec.tunnelID != store[m'].spec.tunnelID)
  }

  ghost predicate Bookkeeping(s: State) {
    VersionsOk(s) && RequestsOk(s) && AllocOk(s)
  }

  /** A compare-and-set that succeeds replaces exactly the version that was copied. */
  lemma SwapsSameVersion(s: State, name: string, obj: Object)
    requires VersionsOk(s) && name in s.store && s.store[name].rv == obj.rv
    requires obj.rv in s.versions
    ensures s.versions[obj.rv] == (name, s.store[name])
  {
  }

  lemma WriteKeepsVersions(s: State, name: string, uid: nat, spec: Spec)
    requires VersionsOk(s) && uid <= s.nextRV
    ensures VersionsOk(Write(s, name, uid, spec))
    ensures forall rv :: rv in s.versions ==> rv in Write(s, name, uid, spec).versions
                                              && Write(s, name, uid, spec).versions[rv] == s.versions[rv]
  {
  }

  /** No commit of the vswitchcfg controller changes the tunnel ID of a live config, and a config
      it creates has none. */
  lemma CommitKeepsIDs(s: State, req: Request)
    requires Bookkeeping(s) && req in s.pending
    ensures var s' := Committed(s, req);
            forall m :: m in s'.store ==>
              if m in s.store
              then s'.store[m].spec.tunnelID == s.store[m].spec.tunnelID && s'.store[m].uid == s.store[m].uid
              else s'.store[m].spec.tunnelID == 0 && s'.store[m].uid == s.nextRV
    ensures forall m :: m in s.store ==> m in Committed(s, req).store
  {
  }

  lemma CommitKeeps(s: State, req: Request)
    requires Bookkeeping(s) && req in s.pending
    ensures Bookkeeping(Committed(s, req))
  {
    var s' := Committed(s, req);
    assert RequestOk(s, req);
    CommitKeepsIDs(s, req);
    var t := s.(pending := s.pending - {req});
    match req
    case CreateReq(name, spec) => WriteKeepsVersions(t, name, s.nextRV, spec);
    case UpdateReq(name, obj) =>
      if name in s.store {
        WriteKeepsVersions(t, name, s.store[name].uid, obj.spec);
      }
  }

  lemma NodeEventKeeps(v: Settings, s: State, node: NodeObject, first: Option<nat>, second: Option<nat>, s': State)
    requires Bookkeeping(s) && Next(v, s, NodeEvent(node, first, second), s')
    ensures Bookkeeping(s')
  {
  }

  lemma AllocUpdateKeeps(v: Settings, s: State, id: int, s': State)
    requires Bookkeeping(s) && Next(v, s, AllocUpdate(id), s')
    ensures Bookkeeping(s')
  {
    var a, t := s.alloc, s.(alloc := Idle);
    if a.name in s.store && s.store[a.name].rv == a.obj.rv {
      WriteKeepsVersions(t, a.name, s.store[a.name].uid, a.obj.spec.(tunnelID := id));
      forall r | r in s'.pending
        ensures RequestOk(s', r)
      {
        assert RequestOk(s, r);
      }
    }
  }

  lemma StepKeepsBookkeeping(v: Settings, s: State, step: Step, s': State)
    requires Bookkeeping(s) && Next(v, s, step, s')
    ensures Bookkeeping(s')
  {
    match step
    case NodeEvent(node, first, second) => NodeEventKeeps(v, s, node, first, second, s');
    case Commit(req) => CommitKeeps(s, req);
    case AllocUpdate(id) => AllocUpdateKeeps(v, s, id, s');
    case Delete(_) => assert forall r :: r in s'.pending ==> RequestOk(s, r);
    case AllocGet(_) => assert forall r :: r in s'.pending ==> RequestOk(s, r);
    case AllocList(_) => assert forall r :: r in s'.pending ==> RequestOk(s, r);
    case AllocFail => assert forall r :: r in s'.pending ==> RequestOk(s, r);
  }

  // ---------------------------------------------------------------- uniqueness

  /** The store may already hold configs when the controller starts. */
  ghost predicate Init(s: State) {
    Bookkeeping(s) && UniqueIDs(s.store) && s.pending == {} && s.alloc.Idle?
  }

  ghost predicate IsRun(v: Settings, run: seq<State>, steps: seq<Step>) {
    && |run| == |steps| + 1
    && Init(run[0])
    && forall i {:trigger steps[i]} :: 0 <= i < |steps| ==> Next(v, run[i], steps[i], run[i + 1])
  }

  /** Fewer than 9900 valid IDs were in use when the allocator listed them. */
  predicate HasRoom(s: State, step: Step) {
    step.AllocUpdate? && s.alloc.Listed? ==> |UsedIDs(s.alloc.ids)| < POOL
  }

  /** One allocation: uniqueness survives exactly when the config was changed since the Get, so that
      the update is refused, or there was room. */
  lemma AllocationIsUniqueExactlyWithRoom(v: Settings, s: State, id: int, s': State)
    requires Bookkeeping(s) && UniqueIDs(s.store) && Next(v, s, AllocUpdate(id), s')
    ensures UniqueIDs(s'.store) <==> !Holds(s.store, s.alloc.name, s.alloc.obj) || |UsedIDs(s.alloc.ids)| < POOL
    ensures if Holds(s.store, s.alloc.name, s.alloc.obj)
            then s.store[s.alloc.name].spec.tunnelID == 0 && s'.store[s.alloc.name].spec.tunnelID == id
            else s'.store == s.store
  {
    var a := s.alloc;
    LeastFreeByPigeonhole(a.ids, id);
    if a.name in s.store && s.store[a.name].rv == a.obj.rv {
      SwapsSameVersion(s, a.name, a.obj);
      assert s'.store[a.name].spec.tunnelID == id;
    }
  }

  lemma StepKeepsUnique(v: Settings, s: State, step: Step, s': State)
    requires Bookkeeping(s) && UniqueIDs(s.store) && Next(v, s, step, s') && HasRoom(s, step)
    ensures UniqueIDs(s'.store)
  {
    match step
    case AllocUpdate(id) => AllocationIsUniqueExactlyWithRoom(v, s, id, s');
    case Commit(req) => CommitKeepsIDs(s, req);
    case _ =>
  }

  lemma {:induction false} RunKeepsBookkeeping(v: Settings, run: seq<State>, steps: seq<Step>, i: nat)
    requires IsRun(v, run, steps) && i < |run|
    ensures Bookkeeping(run[i])
  {
    if i > 0 {
      RunKeepsBookkeeping(v, run, steps, i - 1);
      StepKeepsBookkeeping(v, run[i - 1], steps[i - 1], run[i]);
    }
  }

  /** Uniqueness over all runs: under any interleaving of the two controllers, stale caches and
      version conflicts, the non-zero tunnel IDs of live configs are distinct and in range, as
      long as every allocation found room. */
  lemma {:induction false} TunnelIDsStayUnique(v: Settings, run: seq<State>, steps: seq<Step>, i: nat)
    requires IsRun(v, run, steps) && i < |run|
    requires forall j :: 0 <= j < i ==> HasRoom(run[j], steps[j])
    ensures UniqueIDs(run[i].store)
  {
    if i > 0 {
      TunnelIDsStayUnique(v, run, steps, i - 1);
      RunKeepsBookkeeping(v, run, steps, i - 1);
      StepKeepsUnique(v, run[i - 1], steps[i - 1], run[i]);
    }
  }

  lemma Extended(v: Settings, run: seq<State>, steps: seq<Step>, t: Step, s: State)
    requires IsRun(v, run, steps) && Next(v, run[|steps|], t, s)
    ensures IsRun(v, run + [s], steps + [t])
  {
    var run', steps' := run + [s], steps + [t];
    forall i {:trigger steps'[i]} | 0 <= i < |steps'|
      ensures Next(v, run'[i], steps'[i], run'[i + 1])
    {
      assert i < |steps| ==> steps'[i] == steps[i];
    }
  }

  // ---------------------------------------------------------------- stability

  /** What one step does to the tunnel ID of a config that stays in its lifetime. */
  lemma StepKeepsID(v: Settings, s: State, step: Step, s': State, name: string)
    requires Bookkeeping(s) && Next(v, s, step, s') && name in s'.store
    ensures (name in s.store && s'.store[name].uid == s.store[name].uid) || s'.store[name].uid == s.nextRV
    ensures name in s.store && s.store[name].spec.tunnelID != 0 ==>
              s'.store[name].spec.tunnelID == s.store[name].spec.tunnelID
    ensures s.nextRV <= s'.nextRV
  {
    match step
    case Commit(req) => CommitKeepsIDs(s, req);
    case AllocUpdate(id) =>
      var a := s.alloc;
      if a.name in s.store && s.store[a.name].rv == a.obj.rv {
        SwapsSameVersion(s, a.name, a.obj);
      }
    case _ =>
  }

  /** Stability: once a config object has a non-zero tunnel ID, it keeps it for the rest of its
      lifetime, whatever either controller does and however stale the caches are. */
  lemma {:induction false} TunnelIDsAreStable(v: Settings, run: seq<State>, steps: seq<Step>,
                                              i: nat, j: nat, name: string)
    requires IsRun(v, run, steps) && i <= j < |run|
    requires name in run[i].store && run[i].store[name].spec.tunnelID != 0
    ensures run[i].nextRV <= run[j].nextRV
    ensures name in run[j].store && run[j].store[name].uid == run[i].store[name].uid ==>
              run[j].store[name].spec.tunnelID == run[i].store[name].spec.tunnelID
    decreases j
  {
    if i < j {
      TunnelIDsAreStable(v, run, steps, i, j - 1, name);
      RunKeepsBookkeeping(v, run, steps, i);
      RunKeepsBookkeeping(v, run, steps, j - 1);
      VersionsGrow(v, run[j - 1], steps[j - 1], run[j]);
      if name in run[j].store {
        StepKeepsID(v, run[j - 1], steps[j - 1], run[j], name);
      }
    }
  }

  lemma VersionsGrow(v: Settings, s: State, step: Step, s': State)
    requires Next(v, s, step, s')
    ensures s.nextRV <= s'.nextRV
  {
  }

  // ---------------------------------------------------------------- reconciliation

  ghost predicate Matches(s: State, name: string, fields: Spec) {
    name in s.store && Fields(s.store[name].spec) == fields
  }

  /** The node behind `name` is unchanged: every event for it asks for `fields`; it is not deleted. */
  ghost predicate Unchanged(v: Settings, step: Step, name: string, fields: Spec) {
    && (step.NodeEvent? && step.node.name == name ==> Desired(v, step.node) == Some(fields))
    && !(step.Delete? && step.name == name)
  }

  ghost predicate RequestsAsk(s: State, name: string, fields: Spec) {
    forall req :: req in s.pending && req.name == name ==>
      Fields(if req.CreateReq? then req.spec else req.obj.spec) == fields
  }

  function ContentWrites(run: seq<State>, steps: seq<Step>, name: string): nat
    requires |run| == |steps| + 1
  {
    if steps == [] then 0
    else
      var last := |steps| - 1;
      ContentWrites(run[..last + 1], steps[..last], name)
      + if IsContentWrite(run[last], steps[last], run[last + 1], name) then 1 else 0
  }

  /** A vswitchcfg write to `name` that changes a managed field or brings the config into being. */
  predicate IsContentWrite(s: State, step: Step, s': State, name: string) {
    && step.Commit? && step.req.name == name
    && name in s'.store
    && (name !in s.store || Fields(s'.store[name].spec) != Fields(s.store[name].spec))
  }

  lemma AllocUpdateKeepsFields(v: Settings, s: State, id: int, s': State, name: string)
    requires Bookkeeping(s) && Next(v, s, AllocUpdate(id), s') && name in s.store
    ensures name in s'.store && Fields(s'.store[name].spec) == Fields(s.store[name].spec)
  {
  }

  /** With an unchanged node, matching content stays and a content write produces it. */
  lemma ReconcileStep(v: Settings, s: State, step: Step, s': State, name: string, fields: Spec)
    requires Bookkeeping(s) && Next(v, s, step, s') && Unchanged(v, step, name, fields)
    requires RequestsAsk(s, name, fields)
    ensures RequestsAsk(s', name, fields)
    ensures Matches(s, name, fields) ==> Matches(s', name, fields) && !IsContentWrite(s, step, s', name)
    ensures IsContentWrite(s, step, s', name) ==> Matches(s', name, fields)
  {
    match step
    case Commit(req) =>
    case AllocUpdate(id) =>
      if name in s.store {
        AllocUpdateKeepsFields(v, s, id, s', name);
      }
    case _ =>
  }

  /** Over any run in which the node is unchanged, with stale caches, conflicts and concurrent
      allocations, its config sees at most one content-changing write; after it, the config
      matches the node for good. */
  lemma {:induction false} AtMostOneContentWrite(v: Settings, run: seq<State>, steps: seq<Step>,
                                                 name: string, fields: Spec)
    requires IsRun(v, run, steps)
    requires forall i :: 0 <= i < |steps| ==> Unchanged(v, steps[i], name, fields)
    ensures ContentWrites(run, steps, name) <= 1
    ensures ContentWrites(run, steps, name) == 1 ==> Matches(run[|steps|], name, fields)
    ensures Matches(run[0], name, fields) ==>
              Matches(run[|steps|], name, fields) && ContentWrites(run, steps, name) == 0
    ensures RequestsAsk(run[|steps|], name, fields)
    decreases |steps|
  {
    if steps != [] {
      var last := |steps| - 1;
      AtMostOneContentWrite(v, run[..last + 1], steps[..last], name, fields);
      RunKeepsBookkeeping(v, run, steps, last);
      ReconcileStep(v, run[last], steps[last], run[last + 1], name, fields);
    }
  }

  // ---------------------------------------------------------------- what a node event asks for

  /** The write that an event for a node asks for, given the two cache reads and the node's overlay
      IP: none for an unusable node or if the first read shows all five fields as wanted; else a
      new config without tunnel ID on a miss, and an update of exactly the object that was read. */
  ghost predicate Asked(v: Settings, node: NodeObject, ip: Option<string>,
                        first: Option<Object>, second: Option<Object>, r: Option<Request>) {
    if ip.None? || node.podCIDR == "" || (first.Some? && Reflects(v, node, ip.value, first.value.spec)) then r.None?
    else if second.None? then
      && r.Some? && r.value.CreateReq? && r.value.name == node.name
      && Reflects(v, node, ip.value, r.value.spec) && r.value.spec.tunnelID == 0
    else
      && r.Some? && r.value.UpdateReq? && r.value.name == node.name
      && r.value.obj.uid == second.value.uid && r.value.obj.rv == second.value.rv
      && Reflects(v, node, ip.value, r.value.obj.spec) && r.value.obj.spec.tunnelID == second.value.spec.tunnelID
  }

  lemma DecidesAsAsked(v: Settings, node: NodeObject, ip: Option<string>, first: Option<Object>, second: Option<Object>)
    requires IsOverlayIP(node.addresses, ip)
    ensures Asked(v, node, ip, first, second, Decide(v, node, first, second))
  {
    OverlayIPIsUnique(node, ip);
  }

  function Stored(s: State, name: string): Option<Object> {
    if name in s.store then Some(s.store[name]) else None
  }

  /** The version an up-to-date cache shows. */
  function Current(s: State, name: string): Option<nat> {
    if name in s.store then Some(s.store[name].rv) else None
  }

  /** An up-to-date cache may be read, and an event that reads it issues what is asked for. */
  lemma EventIssues(v: Settings, s: State, node: NodeObject, ip: string) returns (r: Option<Request>, s': State)
    requires Bookkeeping(s) && IsOverlayIP(node.addresses, Some(ip)) && node.podCIDR != ""
    ensures var now := Current(s, node.name); Next(v, s, NodeEvent(node, now, now), s')
    ensures Asked(v, node, Some(ip), Stored(s, node.name), Stored(s, node.name), r)
    ensures s' == if r.None? then s else s.(pending := s.pending + {r.value})
  {
    var now := Current(s, node.name);
    assert Shown(s, now) == Stored(s, node.name);
    DecidesAsAsked(v, node, Some(ip), Stored(s, node.name), Stored(s, node.name));
    r := Decide(v, node, Shown(s, now), Shown(s, now));
    s' := if r.None? then s else s.(pending := s.pending + {r.value});
  }

  /** Committing what was asked for what is stored leaves the config as the node wants it. */
  lemma CommitReconciles(v: Settings, s: State, node: NodeObject, ip: string, req: Request)
    requires Bookkeeping(s) && req in s.pending
    requires node.podCIDR != "" && Asked(v, node, Some(ip), Stored(s, node.name), Stored(s, node.name), Some(req))
    ensures Reconciled(v, s, Committed(s, req), node, ip)
    ensures IsContentWrite(s, Commit(req), Committed(s, req), node.name)
  {
  }

  /** The config of the node is as it wants it; an existing one keeps its identity and tunnel ID, a
      new one has a new identity and none; no other config is touched. */
  ghost predicate Reconciled(v: Settings, s: State, s': State, node: NodeObject, ip: string) {
    && node.name in s'.store && Reflects(v, node, ip, s'.store[node.name].spec)
    && (if node.name in s.store
        then s'.store[node.name].uid == s.store[node.name].uid
             && s'.store[node.name].spec.tunnelID == s.store[node.name].spec.tunnelID
        else s'.store[node.name].uid == s.nextRV && s'.store[node.name].spec.tunnelID == 0)
    && (forall m :: m != node.name ==> Stored(s', m) == Stored(s, m))
  }

  /** From every reachable state, an event for a usable node that reads an up-to-date cache, followed
      by the commit of its request if it issues one, leaves the config matching the node. The
      commit is then the one content-changing write. */
  lemma NodeEventReconciles(v: Settings, run: seq<State>, steps: seq<Step>, node: NodeObject, ip: string)
    returns (run': seq<State>, steps': seq<Step>)
    requires IsRun(v, run, steps) && IsOverlayIP(node.addresses, Some(ip)) && node.podCIDR != ""
    ensures IsRun(v, run', steps') && run <= run' && steps < steps' && |steps'| <= |steps| + 2
    ensures var now := Current(run[|steps|], node.name); steps'[|steps|] == NodeEvent(node, now, now)
    ensures |steps'| == |steps| + 2 ==> steps'[|steps| + 1].Commit?
    ensures Reconciled(v, run[|steps|], run'[|steps'|], node, ip)
    ensures ContentWrites(run', steps', node.name) == ContentWrites(run, steps, node.name) + |steps'| - |steps| - 1
  {
    var s, now := run[|steps|], Current(run[|steps|], node.name);
    RunKeepsBookkeeping(v, run, steps, |steps|);
    var r, s1 := EventIssues(v, s, node, ip);
    var step := NodeEvent(node, now, now);
    Extended(v, run, steps, step, s1);
    ContentWritesSnoc(run, steps, step, s1, node.name);
    run', steps' := run + [s1], steps + [step];
    if r.Some? {
      run', steps' := CommitExtends(v, run', steps', node, ip, r.value);
    }
  }

  lemma CommitExtends(v: Settings, run: seq<State>, steps: seq<Step>, node: NodeObject, ip: string, req: Request)
    returns (run': seq<State>, steps': seq<Step>)
    requires IsRun(v, run, steps) && req in run[|steps|].pending && node.podCIDR != ""
    requires var now := Stored(run[|steps|], node.name); Asked(v, node, Some(ip), now, now, Some(req))
    ensures run' == run + [Committed(run[|steps|], req)] && steps' == steps + [Commit(req)]
    ensures IsRun(v, run', steps') && Reconciled(v, run[|steps|], run'[|steps'|], node, ip)
    ensures ContentWrites(run', steps', node.name) == ContentWrites(run, steps, node.name) + 1
  {
    var s := run[|steps|];
    RunKeepsBookkeeping(v, run, steps, |steps|);
    CommitReconciles(v, s, node, ip, req);
    Extended(v, run, steps, Commit(req), Committed(s, req));
    ContentWritesSnoc(run, steps, Commit(req), Committed(s, req), node.name);
    run', steps' := run + [Committed(s, req)], steps + [Commit(req)];
  }

  lemma {:induction false} ContentWritesSnoc(run: seq<State>, steps: seq<Step>, step: Step, s': State, name: string)
    requires |run| == |steps| + 1
    ensures ContentWrites(run + [s'], steps + [step], name)
            == ContentWrites(run, steps, name) + if IsContentWrite(run[|steps|], step, s', name) then 1 else 0
  {
    assert (run + [s'])[..|steps| + 1] == run && (steps + [step])[..|steps|] == steps;
  }

  /** A config that is deleted and asked for again starts over: with another identity and without a
      tunnel ID, whatever it had before. */
  lemma RecreatedStartsOver(v: Settings, run: seq<State>, steps: seq<Step>, node: NodeObject, ip: string)
    returns (run': seq<State>, steps': seq<Step>)
    requires IsRun(v, run, steps) && IsOverlayIP(node.addresses, Some(ip)) && node.podCIDR != ""
    requires node.name in run[|steps|].store
    ensures IsRun(v, run', steps') && run <= run' && steps < steps' && steps'[|steps|] == Delete(node.name)
    ensures var was, now := run[|steps|].store[node.name], Stored(run'[|steps'|], node.name);
            now.Some? && now.value.uid != was.uid && now.value.spec.tunnelID == 0
            && Reflects(v, node, ip, now.value.spec)
  {
    var s := run[|steps|];
    var s1 := s.(store := s.store - {node.name});
    RunKeepsBookkeeping(v, run, steps, |steps|);
    Extended(v, run, steps, Delete(node.name), s1);
    run', steps' := NodeEventReconciles(v, run + [s1], steps + [Delete(node.name)], node, ip);
  }
}
