/** From event histories to pictures: what a node's tables mean after any run. */
module History {
  import opened Addresses
  import opened OpenFlow
  import opened Flows
  import opened Views
  import opened Routing
  import opened Safety
  import opened NodeMachine

  /** The remote CIDRs after a history, as packets of protocol `pr` are forwarded. A successful
      event replaces what its CIDR maps to. An event whose ARP entry could not be installed has
      already replaced the overlay IP of the IP entry for the same tunnel ID. */
  function Remotes(n: Node, pr: Proto, vlog: seq<VSwitchEvent>): map<Cidr, RemoteNode> {
    if vlog == [] then map[]
    else
      var before, ev := Remotes(n, pr, vlog[..|vlog| - 1]), vlog[|vlog| - 1];
      if !Remote(n, ev) || !ev.ipOk then before
      else
        var c, now := ev.vs.podCIDR.value, RemoteNode(WireID(ev.vs.tunnelID), ev.vs.overlayIP);
        if ev.arpOk then before[c := now]
        else if pr == IP && c in before && before[c].id == now.id then before[c := now]
        else before
  }

  predicate Seen(n: Node, vlog: seq<VSwitchEvent>) {
    exists i :: 0 <= i < |vlog| && Succeeds(n, vlog[i])
  }

  /** The local pods after a history: the last successful sync of an address counts. */
  function Pods(n: Node, plog: seq<PodEvent>): map<nat, Link> {
    if plog == [] then map[]
    else
      var before, ev := Pods(n, plog[..|plog| - 1]), plog[|plog| - 1];
      if Synced(n, ev) then before[ev.podIP.value := ev.link.value] else before
  }

  function PictureOf(n: Node, pr: Proto, vlog: seq<VSwitchEvent>, plog: seq<PodEvent>): Picture {
    Picture(Seen(n, vlog), Remotes(n, pr, vlog), Pods(n, plog))
  }

  /** A remote vswitch has announced `c` and at least its IP entry was installed. */
  predicate Announces(n: Node, ev: VSwitchEvent, c: Cidr) {
    Remote(n, ev) && ev.ipOk && ev.vs.podCIDR.value == c
  }

  ghost predicate Announced(n: Node, vlog: seq<VSwitchEvent>, c: Cidr) {
    exists ev :: ev in vlog && Announces(n, ev, c)
  }

  /** The CIDRs that remote vswitches have announced are pairwise equal or disjoint. */
  ghost predicate DisjointAnnouncements(n: Node, vlog: seq<VSwitchEvent>) {
    forall c, c' :: Announced(n, vlog, c) && Announced(n, vlog, c') && Overlap(c, c') ==> c == c'
  }

  // ---------------------------------------------------------------- tunnels and overlay entries

  lemma {:induction false} AddPair(v: View, a: Entry, b: Entry)
    ensures AddAll(v, [a, b]) == Add(Add(v, a), b)
  {
    var es := [a, b];
    assert es[1..] == [b];
    assert AddAll(Add(v, a), [b]) == Add(Add(v, a), b);
  }

  lemma {:induction false} AddFour(v: View, a: Entry, b: Entry, c: Entry, d: Entry)
    ensures AddAll(v, [a, b, c, d]) == Add(Add(Add(Add(v, a), b), c), d)
  {
    var es := [a, b, c, d];
    assert es[1..] == [b, c, d] && es[1..][1..] == [c, d];
    AddPair(Add(Add(v, a), b), c, d);
  }

  /** What one event does to the tunnels. */
  function TunnelsAfter(n: Node, ev: VSwitchEvent, t: map<(Proto, Cidr, nat), nat>): map<(Proto, Cidr, nat), nat> {
    if !Remote(n, ev) || !ev.ipOk then t
    else
      var c, id, ip := ev.vs.podCIDR.value, WireID(ev.vs.tunnelID), ev.vs.overlayIP;
      if ev.arpOk then t[(IP, c, id) := ip][(ARP, c, id) := ip] else t[(IP, c, id) := ip]
  }

  function OverlayAfter(n: Node, ev: VSwitchEvent, o: map<(Proto, Cidr), nat>): map<(Proto, Cidr), nat> {
    if Remote(n, ev) && Succeeds(n, ev) then
      var c, id := ev.vs.podCIDR.value, WireID(ev.vs.tunnelID);
      o[(IP, c) := id][(ARP, c) := id]
    else o
  }

  lemma {:induction false} EventOnViews(n: Node, ev: VSwitchEvent, v: View)
    ensures AddAll(v, Installs(n, ev)).tunnels == TunnelsAfter(n, ev, v.tunnels)
    ensures AddAll(v, Sends(n, ev)).overlay == OverlayAfter(n, ev, v.overlay)
    ensures forall e :: e in DefaultEntries() && e in v.plain ==> e in AddAll(v, Sends(n, ev)).plain
    ensures forall e :: e == LocalIP || e == ClusterIP ==>
                          (e in AddAll(v, Sends(n, ev)).plain <==> e in v.plain || Succeeds(n, ev))
  {
    if Remote(n, ev) && ev.ipOk {
      if ev.arpOk {
        AddPair(v, TunnelEntry(ev, IP), TunnelEntry(ev, ARP));
      } else {
        var es := Installs(n, ev);
        assert es[1..] == [];
      }
    }
    if Succeeds(n, ev) {
      var es := Sends(n, ev);
      AddFour(v, es[0], es[1], es[2], es[3]);
    }
  }

  /** A successful event for `c`. */
  lemma RemotesSet(pr: Proto, o: map<(Proto, Cidr), nat>, t: map<(Proto, Cidr, nat), nat>, r: map<Cidr, RemoteNode>,
                   c: Cidr, id: nat, ip: nat)
    requires DepictsRemotes(pr, o, t, r)
    ensures DepictsRemotes(pr, o[(IP, c) := id][(ARP, c) := id], t[(IP, c, id) := ip][(ARP, c, id) := ip],
                           r[c := RemoteNode(id, ip)])
  {
  }

  /** An event for `c` that fails after its IP entry. */
  lemma RemotesHalfSet(pr: Proto, o: map<(Proto, Cidr), nat>, t: map<(Proto, Cidr, nat), nat>, r: map<Cidr, RemoteNode>,
                       c: Cidr, id: nat, ip: nat)
    requires DepictsRemotes(pr, o, t, r)
    ensures DepictsRemotes(pr, o, t[(IP, c, id) := ip],
                           if pr == IP && c in r && r[c].id == id then r[c := RemoteNode(id, ip)] else r)
  {
  }

  lemma {:induction false} RemotesStep(n: Node, pr: Proto, ev: VSwitchEvent, o: map<(Proto, Cidr), nat>,
                                       t: map<(Proto, Cidr, nat), nat>, vlog: seq<VSwitchEvent>)
    requires DepictsRemotes(pr, o, t, Remotes(n, pr, vlog))
    ensures DepictsRemotes(pr, OverlayAfter(n, ev, o), TunnelsAfter(n, ev, t), Remotes(n, pr, vlog + [ev]))
  {
    assert (vlog + [ev])[..|vlog|] == vlog;
    if Remote(n, ev) && ev.ipOk {
      var c, id, ip := ev.vs.podCIDR.value, WireID(ev.vs.tunnelID), ev.vs.overlayIP;
      if ev.arpOk {
        RemotesSet(pr, o, t, Remotes(n, pr, vlog), c, id, ip);
      } else {
        RemotesHalfSet(pr, o, t, Remotes(n, pr, vlog), c, id, ip);
      }
    }
  }

  lemma {:induction false} RemotesDepicted(n: Node, pr: Proto, vlog: seq<VSwitchEvent>)
    ensures DepictsRemotes(pr, ViewOf(SendsAll(n, vlog)).overlay, ViewOf(InstallsAll(n, vlog)).tunnels,
                           Remotes(n, pr, vlog))
  {
    if vlog == [] {
      NoOverlayByDefault(n);
    } else {
      var before, ev := vlog[..|vlog| - 1], vlog[|vlog| - 1];
      RemotesDepicted(n, pr, before);
      AddAllExtendsLog(InstallsAll(n, before), Installs(n, ev));
      AddAllExtendsLog(SendsAll(n, before), Sends(n, ev));
      EventOnViews(n, ev, ViewOf(InstallsAll(n, before)));
      EventOnViews(n, ev, ViewOf(SendsAll(n, before)));
      RemotesStep(n, pr, ev, ViewOf(SendsAll(n, before)).overlay, ViewOf(InstallsAll(n, before)).tunnels, before);
      assert vlog == before + [ev];
    }
  }

  lemma {:induction false} PlainOnly(log: seq<Entry>)
    requires forall e :: e in log ==> e in DefaultEntries()
    ensures ViewOf(log).overlay == map[] && ViewOf(log).plain == set e | e in log
  {
    if log != [] {
      var last := |log| - 1;
      assert log == log[..last] + [log[last]];
      var e := log[last];
      assert e in DefaultEntries() && !e.Overlay? && KindOf(e) == ProgramKind;
      PlainOnly(log[..last]);
    }
  }

  lemma {:induction false} NoOverlayByDefault(n: Node)
    ensures ViewOf(SendsAll(n, [])).overlay == map[]
    ensures ViewOf(SendsAll(n, [])).plain == set e | e in DefaultEntries()
  {
    PlainOnly(DefaultEntries());
  }

  lemma SeenSnoc(n: Node, vlog: seq<VSwitchEvent>)
    requires vlog != []
    ensures Seen(n, vlog) <==> Seen(n, vlog[..|vlog| - 1]) || Succeeds(n, vlog[|vlog| - 1])
  {
  }

  lemma {:induction false} PlainEntries(n: Node, vlog: seq<VSwitchEvent>)
    ensures forall e :: e in DefaultEntries() ==> e in ViewOf(SendsAll(n, vlog)).plain
    ensures forall e :: e == LocalIP || e == ClusterIP ==> (e in ViewOf(SendsAll(n, vlog)).plain <==> Seen(n, vlog))
  {
    if vlog == [] {
      NoOverlayByDefault(n);
    } else {
      var before, ev := vlog[..|vlog| - 1], vlog[|vlog| - 1];
      PlainEntries(n, before);
      AddAllExtendsLog(SendsAll(n, before), Sends(n, ev));
      EventOnViews(n, ev, ViewOf(SendsAll(n, before)));
      SeenSnoc(n, vlog);
    }
  }

  // ---------------------------------------------------------------- pods

  lemma {:induction false} PodOnViews(n: Node, ev: PodEvent, v: View)
    requires Synced(n, ev)
    ensures AddAll(v, PodSends(n, ev)).podsIP == v.podsIP[ev.podIP.value := ev.link.value]
    ensures AddAll(v, PodSends(n, ev)).podsARP == v.podsARP[ev.podIP.value := ev.link.value.port]
  {
    var es := PodSends(n, ev);
    AddPair(v, es[0], es[1]);
    assert Link(ev.link.value.mac, ev.link.value.port) == ev.link.value;
  }

  /** Table 50 agrees with the pod events: for each address, the last successful sync. */
  lemma {:induction false} PodTables(n: Node, plog: seq<PodEvent>)
    ensures ViewOf(PodSendsAll(n, plog)).podsIP == Pods(n, plog)
    ensures ViewOf(PodSendsAll(n, plog)).podsARP == PortsOf(Pods(n, plog))
    ensures forall ip :: ip in Pods(n, plog) ==> n.podCIDR.Contains(ip)
  {
    if plog != [] {
      var before, ev := plog[..|plog| - 1], plog[|plog| - 1];
      PodTables(n, before);
      AddAllExtendsLog(PodSendsAll(n, before), PodSends(n, ev));
      if Synced(n, ev) {
        PodOnViews(n, ev, ViewOf(PodSendsAll(n, before)));
      }
    }
  }

  // ---------------------------------------------------------------- drained states

  /** Nothing is queued and no handler is in the middle of a call. */
  predicate Drained(s: State) {
    s.queue == [] && s.toInstall == [] && s.toSend == [] && s.podToSend == []
  }

  lemma {:induction false} DrainedComponents(n: Node, s: State)
    requires Inv(n, s) && Drained(s)
    ensures ViewOf(s.arrived).tunnels == ViewOf(InstallsAll(n, s.vlog)).tunnels
    ensures ViewOf(s.arrived).overlay == ViewOf(SendsAll(n, s.vlog)).overlay
    ensures ViewOf(s.arrived).plain == ViewOf(SendsAll(n, s.vlog)).plain
    ensures ViewOf(s.arrived).podsIP == ViewOf(PodSendsAll(n, s.plog)).podsIP
    ensures ViewOf(s.arrived).podsARP == ViewOf(PodSendsAll(n, s.plog)).podsARP
  {
    KindsAreSeparate(TunnelKind, s.arrived);
    KindsAreSeparate(ProgramKind, s.arrived);
    KindsAreSeparate(PodKind, s.arrived);
    var t, p, d := Only(TunnelKind, s.arrived), Only(ProgramKind, s.arrived), Only(PodKind, s.arrived);
    assert t + [] == t && p + [] == p && d + [] == d;
    var sent := Entries(s.sent);
    assert Only(ProgramKind, sent) + [] == Only(ProgramKind, sent);
    assert Only(PodKind, sent) + [] == Only(PodKind, sent);
  }

  lemma {:induction false} ProgramDepicted(n: Node, vlog: seq<VSwitchEvent>, v: View)
    requires v.plain == ViewOf(SendsAll(n, vlog)).plain
    ensures DepictsProgram(v, Seen(n, vlog))
  {
    PlainEntries(n, vlog);
  }

  lemma {:induction false} PodsDepicted(n: Node, pr: Proto, plog: seq<PodEvent>, v: View)
    requires v.podsIP == ViewOf(PodSendsAll(n, plog)).podsIP && v.podsARP == ViewOf(PodSendsAll(n, plog)).podsARP
    ensures DepictsPods(v, pr, Pods(n, plog))
  {
    PodTables(n, plog);
  }

  lemma DrainedDepicts(n: Node, s: State, pr: Proto)
    requires Inv(n, s) && Drained(s)
    ensures Depicts(ViewOf(s.arrived), pr, PictureOf(n, pr, s.vlog, s.plog))
  {
    DrainedComponents(n, s);
    ProgramDepicted(n, s.vlog, ViewOf(s.arrived));
    RemotesDepicted(n, pr, s.vlog);
    PodsDepicted(n, pr, s.plog, ViewOf(s.arrived));
  }

  // ---------------------------------------------------------------- entries come from events

  lemma {:induction false} ViewComesFromLog(log: seq<Entry>, e: Entry)
    requires Has(ViewOf(log), e)
    ensures e in log
  {
    if log != [] {
      var last := |log| - 1;
      if e != log[last] {
        AddReplacesSlot(Node("", 0, "", Cidr(0, 0), Cidr(0, 0), 0, 0), ViewOf(log[..last]), e, log[last]);
        ViewComesFromLog(log[..last], e);
      }
    }
  }

  lemma {:induction false} OnlyKeeps(k: Kind, log: seq<Entry>, e: Entry)
    requires e in log && KindOf(e) == k
    ensures e in Only(k, log)
  {
    var last := |log| - 1;
    if log[last] != e {
      assert log == log[..last] + [log[last]];
      OnlyKeeps(k, log[..last], e);
    }
  }

  /** The event is the origin of a tunnel entry. */
  predicate Wrote(n: Node, ev: VSwitchEvent, e: Entry) {
    Remote(n, ev) && ev.ipOk && e.Tunnel? && e == TunnelEntry(ev, e.proto)
  }

  lemma {:induction false} InstallsComeFromEvents(n: Node, vlog: seq<VSwitchEvent>, e: Entry)
    requires e in InstallsAll(n, vlog)
    ensures exists ev :: ev in vlog && Wrote(n, ev, e)
  {
    var before, ev := vlog[..|vlog| - 1], vlog[|vlog| - 1];
    assert vlog == before + [ev];
    if e in Installs(n, ev) {
      assert Wrote(n, ev, e);
    } else {
      InstallsComeFromEvents(n, before, e);
    }
  }

  lemma TunnelComesFromEvent(n: Node, s: State, e: Entry)
    requires Inv(n, s) && e.Tunnel? && Has(ViewOf(s.arrived), e)
    ensures exists ev :: ev in s.vlog && Wrote(n, ev, e)
  {
    ViewComesFromLog(s.arrived, e);
    OnlyKeeps(TunnelKind, s.arrived, e);
    assert e in Only(TunnelKind, s.arrived) + s.toInstall;
    InstallsComeFromEvents(n, s.vlog, e);
  }

  /** In every reachable state, drained or not, the tunnels have announced CIDRs. */
  lemma ReachableDisjoint(n: Node, s: State, pr: Proto)
    requires Inv(n, s) && DisjointAnnouncements(n, s.vlog)
    ensures DisjointCIDRs(ViewOf(s.arrived), pr)
  {
    var v := ViewOf(s.arrived);
    forall c, c', i, i' | (pr, c, i) in v.tunnels && (pr, c', i') in v.tunnels && Overlap(c, c')
      ensures c == c'
    {
      TunnelIsAnnounced(n, s, pr, c, i);
      TunnelIsAnnounced(n, s, pr, c', i');
    }
  }

  lemma TunnelIsAnnounced(n: Node, s: State, pr: Proto, c: Cidr, i: nat)
    requires Inv(n, s) && (pr, c, i) in ViewOf(s.arrived).tunnels
    ensures Announced(n, s.vlog, c)
  {
    var e := Tunnel(pr, c, i, ViewOf(s.arrived).tunnels[(pr, c, i)]);
    TunnelComesFromEvent(n, s, e);
    var ev :| ev in s.vlog && Wrote(n, ev, e);
    assert Announces(n, ev, c);
  }

  function Bridge(n: Node, s: State): FlowTable {
    TableOf(n, s.arrived)
  }

  /** Main theorem. In every run, whenever nothing is in flight, the node forwards a packet as
      `outs` exactly when the routing function over the event history says so. Handler
      failures, retried deliveries and all interleavings of the handlers are covered. */
  lemma DrainedNodeRoutes(n: Node, run: seq<State>, steps: seq<Step>, i: nat, p: Packet, outs: seq<Emission>)
    requires IsRun(n, run, steps) && i < |run|
    requires Drained(run[i])
    requires OverlayAddress(n, p.dst) ==> DisjointAnnouncements(n, run[i].vlog)
    ensures Forwards(Bridge(n, run[i]), p, outs)
            <==> outs == Route(n, PictureOf(n, ProtoOf(p), run[i].vlog, run[i].plog), p)
  {
    var s := run[i];
    RunKeepsInv(n, run, steps, i);
    LogRepresents(n, s.arrived);
    DrainedDepicts(n, s, ProtoOf(p));
    if OverlayAddress(n, p.dst) {
      ReachableDisjoint(n, s, ProtoOf(p));
    }
    TablesRefineRoute(n, ViewOf(s.arrived), Bridge(n, s), PictureOf(n, ProtoOf(p), s.vlog, s.plog), p, outs);
  }

  ghost predicate Installed(n: Node, sw: FlowTable, e: Entry) {
    KeyOf(n, e) in sw && sw[KeyOf(n, e)] == CodeOf(n, e)
  }

  /** Table 50 of `sw` is an index of `pods`, for IP and for ARP. */
  ghost predicate PodIndex(n: Node, sw: FlowTable, pods: map<nat, Link>) {
    && (forall ip :: ip in pods ==> Installed(n, sw, PodIP(ip, pods[ip].mac, pods[ip].port)))
    && (forall ip :: ip in pods ==> Installed(n, sw, PodARP(ip, pods[ip].port)))
    && (forall k :: k in sw && k.table == TABLE_L2_REWRITES ==>
          exists ip :: ip in pods && n.podCIDR.Contains(ip) && IsPodKey(n, k, ip, pods[ip]))
  }

  /** `k` is the key of the IP or the ARP entry of the pod at `ip`. */
  predicate IsPodKey(n: Node, k: Key, ip: nat, link: Link) {
    k == KeyOf(n, PodIP(ip, link.mac, link.port)) || k == KeyOf(n, PodARP(ip, link.port))
  }

  lemma PodsInstalled(n: Node, v: View, sw: FlowTable, pods: map<nat, Link>, ip: nat)
    requires Represents(n, v, sw) && v.podsIP == pods && v.podsARP == PortsOf(pods) && ip in pods
    ensures Installed(n, sw, PodIP(ip, pods[ip].mac, pods[ip].port)) && Installed(n, sw, PodARP(ip, pods[ip].port))
  {
  }

  lemma ViewIsPodIndex(n: Node, v: View, sw: FlowTable, pods: map<nat, Link>)
    requires Represents(n, v, sw) && v.podsIP == pods && v.podsARP == PortsOf(pods)
    requires forall ip :: ip in pods ==> n.podCIDR.Contains(ip)
    ensures PodIndex(n, sw, pods)
  {
    forall ip | ip in pods
      ensures Installed(n, sw, PodIP(ip, pods[ip].mac, pods[ip].port)) && Installed(n, sw, PodARP(ip, pods[ip].port))
    {
      PodsInstalled(n, v, sw, pods, ip);
    }
    forall k | k in sw && k.table == TABLE_L2_REWRITES
      ensures exists ip :: ip in pods && n.podCIDR.Contains(ip) && IsPodKey(n, k, ip, pods[ip])
    {
      var e := EntryAt(n, v, sw, k);
      assert e.podIP in pods && IsPodKey(n, k, e.podIP, pods[e.podIP]);
    }
  }

  /** Pod index agreement. Whenever nothing is in flight, table 50 holds for each address the MAC
      and port of its last successful pod sync, and no entry for an address outside the node's
      pod CIDR. */
  lemma {:induction false} DrainedPodIndex(n: Node, run: seq<State>, steps: seq<Step>, i: nat)
    requires IsRun(n, run, steps) && i < |run| && Drained(run[i])
    ensures PodIndex(n, Bridge(n, run[i]), Pods(n, run[i].plog))
  {
    var s := run[i];
    RunKeepsInv(n, run, steps, i);
    LogRepresents(n, s.arrived);
    DrainedComponents(n, s);
    PodTables(n, s.plog);
    ViewIsPodIndex(n, ViewOf(s.arrived), Bridge(n, s), Pods(n, s.plog));
  }

  // ---------------------------------------------------------------- every reachable state

  lemma {:induction false} TunnelStays(log: seq<Entry>, pr: Proto, c: Cidr, id: nat, ip: nat)
    requires Tunnel(pr, c, id, ip) in log
    ensures (pr, c, id) in ViewOf(log).tunnels
  {
    var last := |log| - 1;
    if log[last] != Tunnel(pr, c, id, ip) {
      assert log == log[..last] + [log[last]];
      TunnelStays(log[..last], pr, c, id, ip);
    }
  }

  lemma {:induction false} ReadyIsMadeBeforeBreak(log: seq<Entry>)
    requires Ready(log, log)
    ensures MadeBeforeBreak(ViewOf(log))
  {
    var v := ViewOf(log);
    forall pr, c | (pr, c) in v.overlay
      ensures (pr, c, v.overlay[(pr, c)]) in v.tunnels
    {
      var e := Overlay(pr, c, v.overlay[(pr, c)]);
      ViewComesFromLog(log, e);
      assert HasTunnel(log, e);
      var ip :| Tunnel(e.proto, e.cidr, e.id, ip) in log;
      TunnelStays(log, pr, c, e.id, ip);
    }
  }

  /** Make before break. In every state of every run, including the middle of a handler and
      after a failed install, each table 20 entry that is installed or still queued has its
      table 40 entry of the same protocol, CIDR and tunnel ID on the bridge. */
  lemma MakeBeforeBreak(n: Node, run: seq<State>, steps: seq<Step>, i: nat)
    requires IsRun(n, run, steps) && i < |run|
    ensures MadeBeforeBreak(ViewOf(run[i].arrived))
    ensures forall e :: e in run[i].arrived + Entries(run[i].queue) && e.Overlay? ==>
              exists ip :: KeyOf(n, Tunnel(e.proto, e.cidr, e.id, ip)) in Bridge(n, run[i])
  {
    var s := run[i];
    RunKeepsInv(n, run, steps, i);
    ReadyIsMadeBeforeBreak(s.arrived);
    LogRepresents(n, s.arrived);
    forall e | e in s.arrived + Entries(s.queue) && e.Overlay?
      ensures exists ip :: KeyOf(n, Tunnel(e.proto, e.cidr, e.id, ip)) in Bridge(n, s)
    {
      assert HasTunnel(s.arrived, e);
      var ip :| Tunnel(e.proto, e.cidr, e.id, ip) in s.arrived;
      TunnelStays(s.arrived, e.proto, e.cidr, e.id, ip);
      var tunnel := Tunnel(e.proto, e.cidr, e.id, ViewOf(s.arrived).tunnels[(e.proto, e.cidr, e.id)]);
      assert Has(ViewOf(s.arrived), tunnel);
      assert KeyOf(n, tunnel) in Bridge(n, s);
    }
  }

  /** In every state of every run: a packet that hits table 20 leaves on the vxlan port under the
      tunnel ID and towards the overlay IP of one single event of the history, whose CIDR covers
      the packet's destination. No mixture of two configurations is ever used, not even in the
      middle of an update. */
  lemma {:induction false} TunnelledAsAnnounced(n: Node, run: seq<State>, steps: seq<Step>, i: nat, p: Packet,
                                                path: seq<Key>, outs: seq<Emission>)
    requires IsRun(n, run, steps) && i < |run|
    requires Runs(Bridge(n, run[i]), 0, p, path, outs) && Crosses(path, TABLE_OVERLAY)
    ensures exists ev :: ev in run[i].vlog && Remote(n, ev) && ev.vs.podCIDR.value.Contains(p.dst)
                         && outs == Emit(n.vxlanPort, p.(tunId := WireID(ev.vs.tunnelID), tunDst := ev.vs.overlayIP))
  {
    var s, v := run[i], ViewOf(run[i].arrived);
    RunKeepsInv(n, run, steps, i);
    LogRepresents(n, s.arrived);
    ReadyIsMadeBeforeBreak(s.arrived);
    var e := NothingLostBeforeTunnel(n, v, Bridge(n, s), 0, p, path, outs);
    TunnelComesFromEvent(n, s, e);
    var ev :| ev in s.vlog && Wrote(n, ev, e);
    assert ev in s.vlog && Remote(n, ev) && ev.vs.podCIDR.value.Contains(p.dst);
  }

  /** In every state of every run the node's own table 40 entries decide nothing. */
  lemma ReachableDeadEntries(n: Node, run: seq<State>, steps: seq<Step>, i: nat, p: Packet, outs: seq<Emission>)
    requires IsRun(n, run, steps) && i < |run|
    ensures Forwards(Bridge(n, run[i]), p, outs) <==> Forwards(WithoutOwnTunnels(Bridge(n, run[i])), p, outs)
  {
    LogRepresents(n, run[i].arrived);
    MakeBeforeBreak(n, run, steps, i);
    OwnTunnelsAreDead(n, ViewOf(run[i].arrived), Bridge(n, run[i]), p, outs);
  }

  // ---------------------------------------------------------------- unambiguous lookup

  /** The node's own vswitch announces `c` under tunnel ID `id`. */
  predicate OwnAnnounces(n: Node, ev: VSwitchEvent, c: Cidr, id: nat) {
    Accepted(ev) && ev.vs.name == n.name && ev.vs.podCIDR.value == c && WireID(ev.vs.tunnelID) == id
  }

  /** The CIDRs the node's own vswitch announced under one tunnel ID are equal or disjoint. */
  ghost predicate DisjointOwn(n: Node, vlog: seq<VSwitchEvent>) {
    forall ev, ev', c, c', id ::
      ev in vlog && ev' in vlog && OwnAnnounces(n, ev, c, id) && OwnAnnounces(n, ev', c', id) && Overlap(c, c') ==>
        c == c'
  }

  lemma {:induction false} PlainStays(log: seq<Entry>, e: Entry)
    requires e in log && KindOf(e) == ProgramKind && !e.Overlay?
    ensures e in ViewOf(log).plain
  {
    var last := |log| - 1;
    if log[last] != e {
      assert log == log[..last] + [log[last]];
      PlainStays(log[..last], e);
    }
  }

  lemma {:induction false} OwnSendsComeFromEvents(n: Node, vlog: seq<VSwitchEvent>, e: Entry)
    requires e in SendsAll(n, vlog) && e.OwnTunnel?
    ensures exists ev :: ev in vlog && OwnAnnounces(n, ev, e.cidr, e.id)
  {
    if vlog != [] {
      var before, ev := vlog[..|vlog| - 1], vlog[|vlog| - 1];
      assert vlog == before + [ev];
      if e in Sends(n, ev) {
        assert OwnAnnounces(n, ev, e.cidr, e.id);
      } else {
        OwnSendsComeFromEvents(n, before, e);
      }
    }
  }

  lemma OwnTunnelComesFromEvent(n: Node, s: State, e: Entry)
    requires Inv(n, s) && e.OwnTunnel? && e in ViewOf(s.arrived).plain
    ensures exists ev :: ev in s.vlog && OwnAnnounces(n, ev, e.cidr, e.id)
  {
    ViewComesFromLog(s.arrived, e);
    OnlyKeeps(ProgramKind, s.arrived, e);
    var queued, sent := Only(ProgramKind, Entries(s.queue)), Only(ProgramKind, Entries(s.sent));
    PlainStays(Only(ProgramKind, s.arrived) + queued, e);
    assert Has(ViewOf(sent), e);
    ViewComesFromLog(sent, e);
    assert e in sent + s.toSend;
    OwnSendsComeFromEvents(n, s.vlog, e);
  }

  lemma ReachableOwnDisjoint(n: Node, s: State)
    requires Inv(n, s) && DisjointOwn(n, s.vlog)
    ensures OwnOutranked(ViewOf(s.arrived))
  {
    var v := ViewOf(s.arrived);
    forall pr, c, c', i, a | OwnTunnel(pr, c, i) in v.plain && OwnTunnel(pr, c', i) in v.plain
                             && c.Contains(a) && c'.Contains(a)
      ensures c == c'
    {
      OwnTunnelComesFromEvent(n, s, OwnTunnel(pr, c, i));
      OwnTunnelComesFromEvent(n, s, OwnTunnel(pr, c', i));
      assert Overlap(c, c');
    }
  }

  /** Unambiguous matching. In every state of every run, in every table and for every packet, at
      most one entry of the highest priority matches, provided the announced remote CIDRs are
      pairwise equal or disjoint and so are the node's own under one tunnel ID. */
  lemma ReachableUnambiguous(n: Node, run: seq<State>, steps: seq<Step>, i: nat, t: nat)
    requires IsRun(n, run, steps) && i < |run|
    requires DisjointAnnouncements(n, run[i].vlog) && DisjointOwn(n, run[i].vlog)
    ensures Unambiguous(Bridge(n, run[i]), t)
  {
    var s, v := run[i], ViewOf(run[i].arrived);
    RunKeepsInv(n, run, steps, i);
    LogRepresents(n, s.arrived);
    ReadyIsMadeBeforeBreak(s.arrived);
    ReachableDisjoint(n, s, IP);
    ReachableDisjoint(n, s, ARP);
    ReachableOwnDisjoint(n, s);
    DisjointEverywhere(v);
    UnambiguousExactlyWhenDisjoint(n, v, Bridge(n, s), t);
  }

  lemma DisjointEverywhere(v: View)
    requires MadeBeforeBreak(v) && DisjointCIDRs(v, IP) && DisjointCIDRs(v, ARP)
    ensures DisjointOverlay(v) && DisjointTunnels(v)
  {
    forall pr, c, c' | (pr, c) in v.overlay && (pr, c') in v.overlay && Overlap(c, c')
      ensures c == c'
    {
      assert pr == IP || pr == ARP;
      assert (pr, c, v.overlay[(pr, c)]) in v.tunnels && (pr, c', v.overlay[(pr, c')]) in v.tunnels;
    }
    forall pr, c, c', i | (pr, c, i) in v.tunnels && (pr, c', i) in v.tunnels && Overlap(c, c')
      ensures c == c'
    {
      assert pr == IP || pr == ARP;
    }
  }
}
