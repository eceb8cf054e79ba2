/** While flows are in flight: how old the configuration that forwards a packet may be. */
module Freshness {
  import opened Addresses
  import opened OpenFlow
  import opened Flows
  import opened Views
  import opened Routing
  import opened Safety
  import opened NodeMachine
  import opened History
  import opened Flight

  // ---------------------------------------------------------------- positions in the history

  lemma {:induction false} HistoryPrefix(n: Node, vlog: seq<VSwitchEvent>, j: nat)
    requires j <= |vlog|
    ensures SendsAll(n, vlog[..j]) <= SendsAll(n, vlog) && InstallsAll(n, vlog[..j]) <= InstallsAll(n, vlog)
    decreases |vlog|
  {
    if j == |vlog| {
      assert vlog[..j] == vlog;
    } else {
      HistoryPrefix(n, vlog[..|vlog| - 1], j);
      assert vlog[..|vlog| - 1][..j] == vlog[..j];
    }
  }

  lemma {:induction false} EventAt(n: Node, vlog: seq<VSwitchEvent>, k: nat)
    requires k < |vlog|
    ensures SendsAll(n, vlog[..k]) + Sends(n, vlog[k]) <= SendsAll(n, vlog)
    ensures InstallsAll(n, vlog[..k]) + Installs(n, vlog[k]) <= InstallsAll(n, vlog)
    ensures |SendsAll(n, vlog[..k + 1])| == |SendsAll(n, vlog[..k])| + |Sends(n, vlog[k])|
    ensures |InstallsAll(n, vlog[..k + 1])| == |InstallsAll(n, vlog[..k])| + |Installs(n, vlog[k])|
  {
    HistoryPrefix(n, vlog, k + 1);
    assert vlog[..k + 1][..k] == vlog[..k];
  }

  lemma InTail<T>(a: seq<T>, b: seq<T>, i: nat)
    requires |a| <= i < |a + b|
    ensures (a + b)[i] in b
  {
    assert (a + b)[i] == b[i - |a|];
  }

  /** The event that sent the entry at a position of the history. */
  lemma {:induction false} SentBy(n: Node, vlog: seq<VSwitchEvent>, i: nat) returns (j: nat)
    requires |DefaultEntries()| <= i < |SendsAll(n, vlog)|
    ensures j < |vlog| && SendsAll(n, vlog)[i] in Sends(n, vlog[j])
    ensures |SendsAll(n, vlog[..j])| <= i < |SendsAll(n, vlog[..j + 1])|
  {
    var last := |vlog| - 1;
    var before, now := SendsAll(n, vlog[..last]), Sends(n, vlog[last]);
    if |before| <= i {
      j := last;
      InTail(before, now, i);
      assert vlog[..last + 1] == vlog;
    } else {
      j := SentBy(n, vlog[..last], i);
      assert vlog[..last][..j] == vlog[..j] && vlog[..last][..j + 1] == vlog[..j + 1];
    }
  }

  /** The event that installed the entry at a position of the history. */
  lemma {:induction false} InstalledBy(n: Node, vlog: seq<VSwitchEvent>, i: nat) returns (j: nat)
    requires i < |InstallsAll(n, vlog)|
    ensures j < |vlog| && InstallsAll(n, vlog)[i] in Installs(n, vlog[j])
    ensures |InstallsAll(n, vlog[..j])| <= i < |InstallsAll(n, vlog[..j + 1])|
  {
    var last := |vlog| - 1;
    var before, now := InstallsAll(n, vlog[..last]), Installs(n, vlog[last]);
    if |before| <= i {
      j := last;
      InTail(before, now, i);
      assert vlog[..last + 1] == vlog;
    } else {
      j := InstalledBy(n, vlog[..last], i);
      assert vlog[..last][..j] == vlog[..j] && vlog[..last][..j + 1] == vlog[..j + 1];
    }
  }

  /** Later positions belong to later events. */
  lemma {:induction false} Later(n: Node, vlog: seq<VSwitchEvent>, k: nat, j: nat)
    requires k <= |vlog| && j < |vlog|
    ensures |SendsAll(n, vlog[..k])| < |SendsAll(n, vlog[..j + 1])| ==> k <= j
    ensures |InstallsAll(n, vlog[..k])| < |InstallsAll(n, vlog[..j + 1])| ==> k <= j
  {
    if j < k {
      HistoryPrefix(n, vlog[..k], j + 1);
      assert vlog[..k][..j + 1] == vlog[..j + 1];
    }
  }

  /** What a view holds for a CIDR was written no earlier than any given entry for it. */
  lemma {:induction false} LastOverlay(log: seq<Entry>, i: nat) returns (i': nat)
    requires i < |log| && log[i].Overlay?
    ensures var e := log[i];
            && (e.proto, e.cidr) in ViewOf(log).overlay && i <= i' < |log|
            && log[i'] == Overlay(e.proto, e.cidr, ViewOf(log).overlay[(e.proto, e.cidr)])
  {
    var last := |log| - 1;
    if log[last].Overlay? && log[last].proto == log[i].proto && log[last].cidr == log[i].cidr {
      i' := last;
    } else {
      i' := LastOverlay(log[..last], i);
    }
  }

  lemma {:induction false} LastTunnel(log: seq<Entry>, i: nat) returns (i': nat)
    requires i < |log| && log[i].Tunnel?
    ensures var e := log[i];
            && (e.proto, e.cidr, e.id) in ViewOf(log).tunnels && i <= i' < |log|
            && log[i'] == Tunnel(e.proto, e.cidr, e.id, ViewOf(log).tunnels[(e.proto, e.cidr, e.id)])
  {
    var last := |log| - 1;
    var e, f := log[i], log[last];
    if f.Tunnel? && f.proto == e.proto && f.cidr == e.cidr && f.id == e.id {
      i' := last;
    } else {
      i' := LastTunnel(log[..last], i);
    }
  }

  // ---------------------------------------------------------------- what the tables hold

  /** A remote event that succeeded. */
  predicate Adopted(n: Node, ev: VSwitchEvent, c: Cidr) {
    Remote(n, ev) && Succeeds(n, ev) && ev.vs.podCIDR.value == c
  }

  function OverlaySlot(pr: Proto): nat {
    if pr == IP then 2 else 3
  }

  function TunnelSlot(pr: Proto): nat {
    if pr == IP then 0 else 1
  }

  lemma OverlayAt(n: Node, vlog: seq<VSwitchEvent>, k: nat, pr: Proto) returns (i: nat)
    requires k < |vlog| && Remote(n, vlog[k]) && Succeeds(n, vlog[k])
    ensures |DefaultEntries()| <= |SendsAll(n, vlog[..k])| <= i < |SendsAll(n, vlog[..k + 1])| <= |SendsAll(n, vlog)|
    ensures SendsAll(n, vlog)[i] == Overlay(pr, vlog[k].vs.podCIDR.value, WireID(vlog[k].vs.tunnelID))
  {
    i := |SendsAll(n, vlog[..k])| + OverlaySlot(pr);
    EventAt(n, vlog, k);
    assert Sends(n, vlog[k])[OverlaySlot(pr)] == Overlay(pr, vlog[k].vs.podCIDR.value, WireID(vlog[k].vs.tunnelID));
    DefaultsFirst(n, vlog[..k]);
  }

  lemma {:induction false} DefaultsFirst(n: Node, vlog: seq<VSwitchEvent>)
    ensures DefaultEntries() <= SendsAll(n, vlog)
  {
    HistoryPrefix(n, vlog, 0);
    assert vlog[..0] == [];
  }

  /** In a prefix that has all flows of event `k`, its CIDR has the tunnel ID of an event no older,
      some flow of which is in the prefix. */
  lemma FreshOverlay(n: Node, vlog: seq<VSwitchEvent>, l: nat, k: nat, c: Cidr, pr: Proto) returns (j: nat)
    requires k < |vlog| && Adopted(n, vlog[k], c) && |SendsAll(n, vlog[..k + 1])| <= l <= |SendsAll(n, vlog)|
    ensures k <= j < |vlog| && Adopted(n, vlog[j], c) && |SendsAll(n, vlog[..j])| < l
    ensures var o := ViewOf(SendsAll(n, vlog)[..l]).overlay;
            (pr, c) in o && o[(pr, c)] == WireID(vlog[j].vs.tunnelID)
  {
    var all := SendsAll(n, vlog);
    var i := OverlayAt(n, vlog, k, pr);
    var i' := LastOverlay(all[..l], i);
    j := SentBy(n, vlog, i');
    Later(n, vlog, k, j);
  }

  lemma TunnelAt(n: Node, vlog: seq<VSwitchEvent>, j: nat, pr: Proto) returns (i: nat)
    requires j < |vlog| && Remote(n, vlog[j]) && Succeeds(n, vlog[j])
    ensures |InstallsAll(n, vlog[..j])| <= i < |InstallsAll(n, vlog[..j + 1])| <= |InstallsAll(n, vlog)|
    ensures InstallsAll(n, vlog)[i] == TunnelEntry(vlog[j], pr)
  {
    i := |InstallsAll(n, vlog[..j])| + TunnelSlot(pr);
    EventAt(n, vlog, j);
    assert Installs(n, vlog[j])[TunnelSlot(pr)] == TunnelEntry(vlog[j], pr);
  }

  lemma InstallsAreWritten(n: Node, ev: VSwitchEvent, e: Entry)
    requires e in Installs(n, ev)
    ensures Wrote(n, ev, e)
  {
  }

  /** If event `j` is installed completely, its CIDR and tunnel ID lead to the overlay IP of an event
      no older that announced the same pair. */
  lemma FreshTunnel(n: Node, vlog: seq<VSwitchEvent>, l: nat, j: nat, c: Cidr, pr: Proto) returns (m: nat)
    requires j < |vlog| && Adopted(n, vlog[j], c) && |InstallsAll(n, vlog[..j + 1])| <= l <= |InstallsAll(n, vlog)|
    ensures j <= m < |vlog| && Announces(n, vlog[m], c)
    ensures var t, id := ViewOf(InstallsAll(n, vlog)[..l]).tunnels, WireID(vlog[j].vs.tunnelID);
            (pr, c, id) in t && t[(pr, c, id)] == vlog[m].vs.overlayIP && WireID(vlog[m].vs.tunnelID) == id
  {
    var all := InstallsAll(n, vlog);
    var i := TunnelAt(n, vlog, j, pr);
    var i' := LastTunnel(all[..l], i);
    m := InstalledBy(n, vlog, i');
    InstallsAreWritten(n, vlog[m], all[i']);
    Later(n, vlog, j, m);
  }

  /** All program flows of the events up to `k` have left the queue. */
  ghost predicate HasLeft(n: Node, s: State, k: nat) {
    && k < |s.vlog|
    && |SendsAll(n, s.vlog[..k + 1])|
       <= |Only(ProgramKind, Entries(s.sent))| - |Only(ProgramKind, Entries(s.queue))|
  }

  lemma {:induction false} PhaseCounts(n: Node, toInstall: seq<Entry>, toSend: seq<Entry>, vlog: seq<VSwitchEvent>,
                                       j: nat)
    requires Phase(n, toInstall, toSend, vlog) && j < |vlog|
    requires |SendsAll(n, vlog[..j])| + |toSend| < |SendsAll(n, vlog)|
    ensures |InstallsAll(n, vlog[..j + 1])| + |toInstall| <= |InstallsAll(n, vlog)|
  {
    var last := |vlog| - 1;
    assert |SendsAll(n, vlog)| == |SendsAll(n, vlog[..last])| + |Sends(n, vlog[last])|;
    assert |InstallsAll(n, vlog)| == |InstallsAll(n, vlog[..last])| + |Installs(n, vlog[last])|;
    if j == last {
      assert vlog[..j + 1] == vlog && toInstall == [];
    } else {
      InstallsGrow(n, vlog, j + 1, last);
    }
  }

  lemma {:induction false} InstallsGrow(n: Node, vlog: seq<VSwitchEvent>, i: nat, j: nat)
    requires i <= j <= |vlog|
    ensures |InstallsAll(n, vlog[..i])| <= |InstallsAll(n, vlog[..j])|
  {
    HistoryPrefix(n, vlog[..j], i);
    assert vlog[..j][..i] == vlog[..i];
  }

  lemma {:induction false} Counts(n: Node, s: State)
    requires Inv(n, s)
    ensures Only(TunnelKind, s.arrived) <= InstallsAll(n, s.vlog)
    ensures |Only(TunnelKind, s.arrived)| + |s.toInstall| == |InstallsAll(n, s.vlog)|
    ensures Only(ProgramKind, Entries(s.sent)) <= SendsAll(n, s.vlog)
    ensures |Only(ProgramKind, Entries(s.sent))| + |s.toSend| == |SendsAll(n, s.vlog)|
  {
  }

  /** An event some flow of which was sent is installed completely. */
  lemma {:induction false} InstalledBeforeSent(n: Node, s: State, j: nat)
    requires Flying(n, s) && j < |s.vlog|
    requires |SendsAll(n, s.vlog[..j])| < |Only(ProgramKind, Entries(s.sent))|
    ensures |InstallsAll(n, s.vlog[..j + 1])| <= |Only(TunnelKind, s.arrived)|
  {
    Counts(n, s);
    PhaseCounts(n, s.toInstall, s.toSend, s.vlog, j);
  }

  /** In a reachable state the program part of the tables is that of a prefix of the history with all
      flows that have left the queue. */
  lemma ArrivedPrefix(n: Node, s: State, k: nat) returns (l: nat)
    requires Flying(n, s) && HasLeft(n, s, k)
    ensures |SendsAll(n, s.vlog[..k + 1])| <= l <= |Only(ProgramKind, Entries(s.sent))| <= |SendsAll(n, s.vlog)|
    ensures var v, w := ViewOf(s.arrived), ViewOf(SendsAll(n, s.vlog)[..l]);
            v.plain == w.plain && v.overlay == w.overlay
  {
    Counts(n, s);
    l := PrefixView(Only(ProgramKind, s.arrived), Only(ProgramKind, Entries(s.queue)),
                    Only(ProgramKind, Entries(s.sent)), SendsAll(n, s.vlog));
    KindsAreSeparate(ProgramKind, s.arrived);
  }

  lemma {:induction false} InstalledTunnels(n: Node, s: State)
    requires Flying(n, s)
    ensures |Only(TunnelKind, s.arrived)| <= |InstallsAll(n, s.vlog)|
    ensures ViewOf(s.arrived).tunnels
            == ViewOf(InstallsAll(n, s.vlog)[..|Only(TunnelKind, s.arrived)|]).tunnels
  {
    var t := Only(TunnelKind, s.arrived);
    Counts(n, s);
    assert t == InstallsAll(n, s.vlog)[..|t|];
    KindsAreSeparate(TunnelKind, s.arrived);
  }

  /** The CIDR of an event whose flows have left the queue, in the tables of any reachable state. */
  lemma FreshSlot(n: Node, s: State, k: nat, c: Cidr, pr: Proto) returns (m: nat)
    requires Flying(n, s) && HasLeft(n, s, k) && Adopted(n, s.vlog[k], c)
    ensures k <= m < |s.vlog| && Announces(n, s.vlog[m], c)
    ensures var v, id := ViewOf(s.arrived), WireID(s.vlog[m].vs.tunnelID);
            && Has(v, Overlay(pr, c, id)) && Has(v, Tunnel(pr, c, id, s.vlog[m].vs.overlayIP))
  {
    var l := ArrivedPrefix(n, s, k);
    var j := FreshOverlay(n, s.vlog, l, k, c, pr);
    InstalledBeforeSent(n, s, j);
    InstalledTunnels(n, s);
    m := FreshTunnel(n, s.vlog, |Only(TunnelKind, s.arrived)|, j, c, pr);
  }

  lemma {:induction false} LocalsAt(n: Node, vlog: seq<VSwitchEvent>, k: nat)
    requires k < |vlog| && Succeeds(n, vlog[k])
    ensures var i := |SendsAll(n, vlog[..k])|;
            && i + 1 < |SendsAll(n, vlog[..k + 1])| <= |SendsAll(n, vlog)|
            && SendsAll(n, vlog)[i] == LocalIP && SendsAll(n, vlog)[i + 1] == ClusterIP
  {
    EventAt(n, vlog, k);
    assert Sends(n, vlog[k])[0] == LocalIP && Sends(n, vlog[k])[1] == ClusterIP;
  }

  /** A prefix with the flows of a successful event has the flows that are the same for all events. */
  lemma {:induction false} ProgramInPrefix(n: Node, vlog: seq<VSwitchEvent>, l: nat, k: nat, e: Entry)
    requires k < |vlog| && Succeeds(n, vlog[k]) && |SendsAll(n, vlog[..k + 1])| <= l <= |SendsAll(n, vlog)|
    requires e in DefaultEntries() || e == LocalIP || e == ClusterIP
    ensures e in ViewOf(SendsAll(n, vlog)[..l]).plain
  {
    var i := ProgramAt(n, vlog, k, e);
    var log := SendsAll(n, vlog)[..l];
    assert log[i] == e;
    DefaultsAreProgram();
    PlainStays(log, e);
  }

  lemma ProgramAt(n: Node, vlog: seq<VSwitchEvent>, k: nat, e: Entry) returns (i: nat)
    requires k < |vlog| && Succeeds(n, vlog[k])
    requires e in DefaultEntries() || e == LocalIP || e == ClusterIP
    ensures i < |SendsAll(n, vlog[..k + 1])| <= |SendsAll(n, vlog)| && SendsAll(n, vlog)[i] == e
  {
    LocalsAt(n, vlog, k);
    if e in DefaultEntries() {
      DefaultsFirst(n, vlog);
      DefaultsFirst(n, vlog[..k]);
      i :| 0 <= i < |DefaultEntries()| && DefaultEntries()[i] == e;
    } else {
      i := |SendsAll(n, vlog[..k])| + if e == LocalIP then 0 else 1;
    }
  }

  lemma ProgramArrived(n: Node, s: State, k: nat)
    requires Flying(n, s) && HasLeft(n, s, k) && Succeeds(n, s.vlog[k])
    ensures DepictsProgram(ViewOf(s.arrived), true)
  {
    var l := ArrivedPrefix(n, s, k);
    forall e | e in DefaultEntries() || e == LocalIP || e == ClusterIP
      ensures e in ViewOf(s.arrived).plain
    {
      ProgramInPrefix(n, s.vlog, l, k, e);
    }
  }

  // ---------------------------------------------------------------- the theorem

  /** The remote CIDRs that a view shows to packets of one protocol. */
  function RemotesIn(v: View, pr: Proto): map<Cidr, RemoteNode> {
    var cidrs := set k | k in v.overlay && k.0 == pr :: k.1;
    map c | c in cidrs && (pr, c) in v.overlay && (pr, c, v.overlay[(pr, c)]) in v.tunnels ::
      RemoteNode(v.overlay[(pr, c)], v.tunnels[(pr, c, v.overlay[(pr, c)])])
  }

  function PodsIn(v: View, pr: Proto): map<nat, Link> {
    if pr == IP then v.podsIP else map ip | ip in v.podsARP :: Link("", v.podsARP[ip])
  }

  lemma ShowsItsRemotes(v: View, pr: Proto)
    requires MadeBeforeBreak(v)
    ensures DepictsRemotes(pr, v.overlay, v.tunnels, RemotesIn(v, pr))
  {
    var remotes := RemotesIn(v, pr);
    forall c
      ensures (pr, c) in v.overlay <==> c in remotes
    {
      if (pr, c) in v.overlay {
        assert (pr, c).1 == c && (pr, c).0 == pr;
      }
    }
  }

  lemma ShowsItsPods(v: View, pr: Proto)
    ensures DepictsPods(v, pr, PodsIn(v, pr))
  {
    if pr == ARP {
      assert v.podsARP == PortsOf(PodsIn(v, pr));
    }
  }

  lemma ShowsItsPicture(v: View, pr: Proto)
    requires MadeBeforeBreak(v) && DepictsProgram(v, true)
    ensures Depicts(v, pr, Picture(true, RemotesIn(v, pr), PodsIn(v, pr)))
  {
    ShowsItsRemotes(v, pr);
    ShowsItsPods(v, pr);
  }

  /** The configuration of another node arrived whole and all its `ovs-ofctl` calls succeeded. */
  predicate HandledRemotely(n: Node, ev: VSwitchEvent) {
    ev.portFound && ev.vs.podCIDR.Some? && ev.vs.name != n.name && ev.ipOk && ev.arpOk
  }

  /** Freshness. In every state of every run, with any flows in flight: once the flows of an event
      for a CIDR have left the queue, every packet for that CIDR leaves through the tunnel, under
      the tunnel ID and towards the overlay IP of one event for the same CIDR that is not older. */
  lemma FreshlyTunnelled(n: Node, run: seq<State>, steps: seq<Step>, i: nat, k: nat, p: Packet) returns (m: nat)
    requires IsRun(n, run, steps) && i < |run| && DisjointAnnouncements(n, run[i].vlog)
    requires HasLeft(n, run[i], k) && HandledRemotely(n, run[i].vlog[k])
    requires p.ethType == ETH_IPV4 || p.ethType == ETH_ARP
    requires run[i].vlog[k].vs.podCIDR.value.Contains(p.dst) && OverlayAddress(n, p.dst)
    ensures k <= m < |run[i].vlog| && run[i].vlog[m].vs.podCIDR == run[i].vlog[k].vs.podCIDR
    ensures Announces(n, run[i].vlog[m], run[i].vlog[k].vs.podCIDR.value)
    ensures var vs := run[i].vlog[m].vs;
            && (forall outs :: Forwards(Bridge(n, run[i]), p, outs)
                  <==> outs == Emit(n.vxlanPort, p.(tunId := WireID(vs.tunnelID), tunDst := vs.overlayIP)))
            && (0 <= vs.tunnelID < 0x8000_0000 ==>
                  forall outs :: Forwards(Bridge(n, run[i]), p, outs)
                    <==> outs == Emit(n.vxlanPort, p.(tunId := vs.tunnelID, tunDst := vs.overlayIP)))
  {
    var s, pr, c := run[i], ProtoOf(p), run[i].vlog[k].vs.podCIDR.value;
    RunKeepsFlying(n, run, steps, i);
    m := FreshSlot(n, s, k, c, pr);
    ProgramArrived(n, s, k);
    LogRepresents(n, s.arrived);
    ReadyIsMadeBeforeBreak(s.arrived);
    ReachableDisjoint(n, s, pr);
    ThroughSlot(n, s, p, c, s.vlog[m].vs);
  }

  lemma ThroughSlot(n: Node, s: State, p: Packet, c: Cidr, vs: VSwitch)
    requires Represents(n, ViewOf(s.arrived), Bridge(n, s)) && MadeBeforeBreak(ViewOf(s.arrived))
    requires DisjointCIDRs(ViewOf(s.arrived), ProtoOf(p)) && DepictsProgram(ViewOf(s.arrived), true)
    requires Has(ViewOf(s.arrived), Overlay(ProtoOf(p), c, WireID(vs.tunnelID)))
    requires Has(ViewOf(s.arrived), Tunnel(ProtoOf(p), c, WireID(vs.tunnelID), vs.overlayIP))
    requires p.ethType == ETH_IPV4 || p.ethType == ETH_ARP
    requires c.Contains(p.dst) && OverlayAddress(n, p.dst)
    ensures forall outs :: Forwards(Bridge(n, s), p, outs)
              <==> outs == Emit(n.vxlanPort, p.(tunId := WireID(vs.tunnelID), tunDst := vs.overlayIP))
  {
    var v, pr := ViewOf(s.arrived), ProtoOf(p);
    var pic := Picture(true, RemotesIn(v, pr), PodsIn(v, pr));
    ShowsItsPicture(v, pr);
    assert RoutedTo(pic, c, p.dst);
    forall c' | RoutedTo(pic, c', p.dst)
      ensures c' == c
    {
      OneRemotePerAddress(v, pr, pic, c, c', p.dst);
    }
    forall outs
      ensures Forwards(Bridge(n, s), p, outs) <==> outs == Route(n, pic, p)
    {
      TablesRefineRoute(n, v, Bridge(n, s), pic, p, outs);
    }
  }

  // ---------------------------------------------------------------- pods

  lemma {:induction false} PodPrefix(n: Node, plog: seq<PodEvent>, j: nat)
    requires j <= |plog|
    ensures PodSendsAll(n, plog[..j]) <= PodSendsAll(n, plog)
    decreases |plog|
  {
    if j == |plog| {
      assert plog[..j] == plog;
    } else {
      PodPrefix(n, plog[..|plog| - 1], j);
      assert plog[..|plog| - 1][..j] == plog[..j];
    }
  }

  /** Where the flow of a pod event is in the history. */
  lemma PodAt(n: Node, plog: seq<PodEvent>, k: nat, pr: Proto) returns (i: nat)
    requires k < |plog| && Synced(n, plog[k])
    ensures |PodSendsAll(n, plog[..k])| <= i < |PodSendsAll(n, plog[..k + 1])| <= |PodSendsAll(n, plog)|
    ensures PodSendsAll(n, plog)[i] == PodEntry(plog[k], pr)
  {
    i := |PodSendsAll(n, plog[..k])| + if pr == IP then 0 else 1;
    PodPrefix(n, plog, k + 1);
    assert plog[..k + 1][..k] == plog[..k];
  }

  function PodEntry(ev: PodEvent, pr: Proto): Entry
    requires ev.podIP.Some? && ev.link.Some?
  {
    if pr == IP then PodIP(ev.podIP.value, ev.link.value.mac, ev.link.value.port)
    else PodARP(ev.podIP.value, ev.link.value.port)
  }

  lemma {:induction false} PodSentBy(n: Node, plog: seq<PodEvent>, i: nat) returns (j: nat)
    requires i < |PodSendsAll(n, plog)|
    ensures j < |plog| && PodSendsAll(n, plog)[i] in PodSends(n, plog[j]) && i < |PodSendsAll(n, plog[..j + 1])|
  {
    var last := |plog| - 1;
    if |PodSendsAll(n, plog[..last])| <= i {
      j := last;
      assert plog[..last + 1] == plog;
    } else {
      j := PodSentBy(n, plog[..last], i);
      assert plog[..last][..j + 1] == plog[..j + 1];
    }
  }

  /** What a view holds for a pod address was written no earlier than any given entry for it. */
  lemma {:induction false} LastPod(log: seq<Entry>, i: nat) returns (i': nat)
    requires i < |log| && (log[i].PodIP? || log[i].PodARP?)
    ensures i <= i' < |log| && (log[i].PodIP? <==> log[i'].PodIP?) && (log[i].PodARP? <==> log[i'].PodARP?)
    ensures log[i'].podIP == log[i].podIP && Has(ViewOf(log), log[i'])
  {
    var last := |log| - 1;
    var e, f := log[i], log[last];
    if ((e.PodIP? && f.PodIP?) || (e.PodARP? && f.PodARP?)) && e.podIP == f.podIP {
      i' := last;
    } else {
      i' := LastPod(log[..last], i);
    }
  }

  /** In a prefix with the flows of pod event `k`, its address has the link of an event no older. */
  lemma FreshPod(n: Node, plog: seq<PodEvent>, l: nat, k: nat, pr: Proto) returns (m: nat)
    requires k < |plog| && Synced(n, plog[k]) && |PodSendsAll(n, plog[..k + 1])| <= l <= |PodSendsAll(n, plog)|
    ensures k <= m < |plog| && Synced(n, plog[m]) && plog[m].podIP == plog[k].podIP
    ensures Has(ViewOf(PodSendsAll(n, plog)[..l]), PodEntry(plog[m], pr))
  {
    var i := PodAt(n, plog, k, pr);
    var i' := LastPod(PodSendsAll(n, plog)[..l], i);
    m := PodSentBy(n, plog, i');
    PodLater(n, plog, k, m);
  }

  lemma {:induction false} PodLater(n: Node, plog: seq<PodEvent>, k: nat, j: nat)
    requires k <= |plog| && j < |plog|
    ensures |PodSendsAll(n, plog[..k])| < |PodSendsAll(n, plog[..j + 1])| ==> k <= j
  {
    if j < k {
      PodPrefix(n, plog[..k], j + 1);
      assert plog[..k][..j + 1] == plog[..j + 1];
    }
  }

  /** The flows of the pod events up to `k` have all left the queue. */
  ghost predicate PodHasLeft(n: Node, s: State, k: nat) {
    && k < |s.plog|
    && |PodSendsAll(n, s.plog[..k + 1])| <= |Only(PodKind, Entries(s.sent))| - |Only(PodKind, Entries(s.queue))|
  }

  lemma FreshPodSlot(n: Node, s: State, k: nat, pr: Proto) returns (m: nat)
    requires Flying(n, s) && PodHasLeft(n, s, k) && Synced(n, s.plog[k])
    ensures k <= m < |s.plog| && Synced(n, s.plog[m]) && s.plog[m].podIP == s.plog[k].podIP
    ensures Has(ViewOf(s.arrived), PodEntry(s.plog[m], pr))
  {
    var sent := Only(PodKind, Entries(s.sent));
    assert sent + s.podToSend == PodSendsAll(n, s.plog);
    var l := PrefixView(Only(PodKind, s.arrived), Only(PodKind, Entries(s.queue)), sent, PodSendsAll(n, s.plog));
    m := FreshPod(n, s.plog, l, k, pr);
    KindsAreSeparate(PodKind, s.arrived);
  }

  /** A pod with an address in the node's pod CIDR whose port was found. */
  predicate LocalPod(n: Node, ev: PodEvent) {
    ev.podIP.Some? && ev.link.Some? && n.podCIDR.Contains(ev.podIP.value)
  }

  /** Freshness for pods. In every state of every run: once the flows of a pod event and of some
      vswitch event have left the queue, every packet for the pod's address is output on the port,
      and under the MAC, of one event for the same address that is not older. */
  lemma FreshlyDelivered(n: Node, run: seq<State>, steps: seq<Step>, i: nat, k: nat, kv: nat, p: Packet)
    returns (m: nat)
    requires IsRun(n, run, steps) && i < |run|
    requires HasLeft(n, run[i], kv) && Succeeds(n, run[i].vlog[kv])
    requires PodHasLeft(n, run[i], k) && LocalPod(n, run[i].plog[k])
    requires p.ethType == ETH_IPV4 || p.ethType == ETH_ARP
    requires p.dst == run[i].plog[k].podIP.value && p.dst != n.gatewayIP
    ensures k <= m < |run[i].plog| && LocalPod(n, run[i].plog[m]) && run[i].plog[m].podIP == run[i].plog[k].podIP
    ensures var link := run[i].plog[m].link.value;
            forall outs :: Forwards(Bridge(n, run[i]), p, outs)
              <==> outs == Emit(link.port, if p.ethType == ETH_IPV4 then p.(ethDst := link.mac) else p)
  {
    var s, pr := run[i], ProtoOf(p);
    RunKeepsFlying(n, run, steps, i);
    m := FreshPodSlot(n, s, k, pr);
    ProgramArrived(n, s, kv);
    LogRepresents(n, s.arrived);
    ReadyIsMadeBeforeBreak(s.arrived);
    ShowsItsPicture(ViewOf(s.arrived), pr);
    var pic := Picture(true, RemotesIn(ViewOf(s.arrived), pr), PodsIn(ViewOf(s.arrived), pr));
    forall outs
      ensures Forwards(Bridge(n, s), p, outs) <==> outs == Route(n, pic, p)
    {
      TablesRefineRoute(n, ViewOf(s.arrived), Bridge(n, s), pic, p, outs);
    }
  }

  // ---------------------------------------------------------------- entries that must be there

  /** Once the flows of a local pod have left the queue, both its table 50 entries are on the bridge,
      with the MAC and port of a sync of the address that is not older. */
  lemma PodEntriesWritten(n: Node, run: seq<State>, steps: seq<Step>, i: nat, k: nat) returns (m: nat, m': nat)
    requires IsRun(n, run, steps) && i < |run| && PodHasLeft(n, run[i], k) && LocalPod(n, run[i].plog[k])
    ensures k <= m < |run[i].plog| && k <= m' < |run[i].plog|
    ensures LocalPod(n, run[i].plog[m]) && run[i].plog[m].podIP == run[i].plog[k].podIP
    ensures LocalPod(n, run[i].plog[m']) && run[i].plog[m'].podIP == run[i].plog[k].podIP
    ensures var sw, dst := Bridge(n, run[i]), Some(Cidr(run[i].plog[k].podIP.value, 32));
            var link, link' := run[i].plog[m].link.value, run[i].plog[m'].link.value;
            var ip, arp := Key(50, 100, Match(Some(0x0800), dst, None)), Key(50, 100, Match(Some(0x0806), dst, None));
            && ip in sw && sw[ip] == [ApplyActions([SetEthDst(link.mac), Output(link.port)])]
            && arp in sw && sw[arp] == [ApplyActions([Output(link'.port)])]
  {
    var s := run[i];
    RunKeepsFlying(n, run, steps, i);
    LogRepresents(n, s.arrived);
    m := FreshPodSlot(n, s, k, IP);
    m' := FreshPodSlot(n, s, k, ARP);
    assert Has(ViewOf(s.arrived), PodEntry(s.plog[m], IP)) && Has(ViewOf(s.arrived), PodEntry(s.plog[m'], ARP));
  }

  lemma OwnAt(n: Node, vlog: seq<VSwitchEvent>, k: nat, pr: Proto) returns (i: nat)
    requires k < |vlog| && Accepted(vlog[k]) && vlog[k].vs.name == n.name
    ensures i < |SendsAll(n, vlog[..k + 1])| <= |SendsAll(n, vlog)|
    ensures SendsAll(n, vlog)[i] == OwnTunnel(pr, vlog[k].vs.podCIDR.value, WireID(vlog[k].vs.tunnelID))
  {
    i := |SendsAll(n, vlog[..k])| + OverlaySlot(pr);
    EventAt(n, vlog, k);
    assert Sends(n, vlog[k])[OverlaySlot(pr)]
        == OwnTunnel(pr, vlog[k].vs.podCIDR.value, WireID(vlog[k].vs.tunnelID));
  }

  lemma OwnInPrefix(n: Node, vlog: seq<VSwitchEvent>, l: nat, k: nat, pr: Proto)
    requires k < |vlog| && Accepted(vlog[k]) && vlog[k].vs.name == n.name
    requires |SendsAll(n, vlog[..k + 1])| <= l <= |SendsAll(n, vlog)|
    ensures OwnTunnel(pr, vlog[k].vs.podCIDR.value, WireID(vlog[k].vs.tunnelID))
            in ViewOf(SendsAll(n, vlog)[..l]).plain
  {
    var all := SendsAll(n, vlog);
    var i := OwnAt(n, vlog, k, pr);
    assert all[..l][i] == all[i];
    PlainStays(all[..l], all[i]);
  }

  lemma OwnArrived(n: Node, s: State, k: nat, pr: Proto)
    requires Flying(n, s) && HasLeft(n, s, k) && Accepted(s.vlog[k]) && s.vlog[k].vs.name == n.name
    ensures Has(ViewOf(s.arrived), OwnTunnel(pr, s.vlog[k].vs.podCIDR.value, WireID(s.vlog[k].vs.tunnelID)))
  {
    var l := ArrivedPrefix(n, s, k);
    OwnInPrefix(n, s.vlog, l, k, pr);
  }

  lemma OwnKey(n: Node, v: View, sw: FlowTable, pr: Proto, c: Cidr, id: nat)
    requires Represents(n, v, sw) && Has(v, OwnTunnel(pr, c, id))
    ensures var key := Key(40, 100, Match(Some(if pr == IP then 0x0800 else 0x0806), Some(c), Some(id)));
            key in sw && sw[key] == [GotoTable(50)]
  {
    assert KeyOf(n, OwnTunnel(pr, c, id)) in sw;
  }

  /** Once the flows of an event for the node's own vswitch have left the queue, its table 40 entries
      for IP and ARP are on the bridge: priority 100, on to table 50. */
  lemma OwnEntriesWritten(n: Node, run: seq<State>, steps: seq<Step>, i: nat, k: nat, pr: Proto)
    requires IsRun(n, run, steps) && i < |run| && HasLeft(n, run[i], k)
    requires run[i].vlog[k].portFound && run[i].vlog[k].vs.podCIDR.Some? && run[i].vlog[k].vs.name == n.name
    requires 0 <= run[i].vlog[k].vs.tunnelID < 0x8000_0000
    ensures var sw, vs := Bridge(n, run[i]), run[i].vlog[k].vs;
            var key := Key(40, 100, Match(Some(if pr == IP then 0x0800 else 0x0806), vs.podCIDR, Some(vs.tunnelID)));
            key in sw && sw[key] == [GotoTable(50)]
  {
    var s, vs := run[i], run[i].vlog[k].vs;
    RunKeepsFlying(n, run, steps, i);
    OwnArrived(n, s, k, pr);
    LogRepresents(n, s.arrived);
    OwnKey(n, ViewOf(s.arrived), Bridge(n, s), pr, vs.podCIDR.value, WireID(vs.tunnelID));
  }

  lemma {:induction false} DrainedCounts(n: Node, s: State)
    requires Inv(n, s) && Drained(s)
    ensures Only(ProgramKind, Entries(s.sent)) == SendsAll(n, s.vlog)
    ensures Only(PodKind, Entries(s.sent)) == PodSendsAll(n, s.plog)
  {
    assert Only(ProgramKind, Entries(s.sent)) + [] == Only(ProgramKind, Entries(s.sent));
    assert Only(PodKind, Entries(s.sent)) + [] == Only(PodKind, Entries(s.sent));
  }

  lemma {:induction false} AllLeft(n: Node, s: State)
    requires s.queue == []
    requires Only(ProgramKind, Entries(s.sent)) == SendsAll(n, s.vlog)
    requires Only(PodKind, Entries(s.sent)) == PodSendsAll(n, s.plog)
    ensures forall k :: 0 <= k < |s.vlog| ==> HasLeft(n, s, k)
    ensures forall k :: 0 <= k < |s.plog| ==> PodHasLeft(n, s, k)
  {
    forall k | 0 <= k < |s.vlog|
      ensures HasLeft(n, s, k)
    {
      HistoryPrefix(n, s.vlog, k + 1);
    }
    forall k | 0 <= k < |s.plog|
      ensures PodHasLeft(n, s, k)
    {
      PodPrefix(n, s.plog, k + 1);
    }
  }

  /** In a drained state the flows of every event have left the queue. */
  lemma DrainedHasLeft(n: Node, s: State)
    requires Inv(n, s) && Drained(s)
    ensures forall k :: 0 <= k < |s.vlog| ==> HasLeft(n, s, k)
    ensures forall k :: 0 <= k < |s.plog| ==> PodHasLeft(n, s, k)
  {
    DrainedCounts(n, s);
    AllLeft(n, s);
  }
}
