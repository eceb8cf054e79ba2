/** Properties of a node's tables that need no assumption about the CIDRs: they hold for
    every choice among overlapping entries. */
module Safety {
  import opened Addresses
  import opened OpenFlow
  import opened Flows
  import opened Views
  import opened Routing

  /** The most entries a packet can hit from table `t` on. */
  function Depth(t: nat): nat {
    if t == TABLE_CLASSIFICATION then 5
    else if t == TABLE_LOCAL_ARP then 4
    else if t == TABLE_OVERLAY then 3
    else if t == TABLE_L3_FORWARDING then 2
    else 1
  }

  /** Any packet visits at most five tables and leaves at most once. */
  lemma {:induction false} BoundedForwarding(n: Node, v: View, sw: FlowTable, t: nat, p: Packet,
                                             path: seq<Key>, outs: seq<Emission>)
    requires Represents(n, v, sw) && Runs(sw, t, p, path, outs)
    ensures |path| <= Depth(t) && |outs| <= 1
    decreases |path|
  {
    if path != [] {
      var e := Selected(n, v, sw, t, p, path, outs);
      var f := EffectOf(n, e, p);
      if f.next.Some? {
        BoundedForwarding(n, v, sw, f.next.value, f.packet, path[1..], outs[|f.out|..]);
      }
    }
  }

  /** Whatever has reached the bridge, in any order: every packet has a run, and every run visits
      at most five tables and outputs at most once. */
  lemma EveryLogForwards(n: Node, log: seq<Entry>, p: Packet)
    ensures exists path, outs :: Runs(TableOf(n, log), TABLE_CLASSIFICATION, p, path, outs)
    ensures forall path, outs :: Runs(TableOf(n, log), TABLE_CLASSIFICATION, p, path, outs) ==>
              |path| <= 5 && |outs| <= 1
  {
    var v, sw := ViewOf(log), TableOf(n, log);
    LogRepresents(n, log);
    GotosMoveForward(n, v, sw);
    var somePath, someOuts := RunExists(sw, TABLE_CLASSIFICATION, p);
    forall path, outs | Runs(sw, TABLE_CLASSIFICATION, p, path, outs)
      ensures |path| <= 5 && |outs| <= 1
    {
      BoundedForwarding(n, v, sw, TABLE_CLASSIFICATION, p, path, outs);
    }
  }

  /** Every table 20 entry finds its table 40 entry already installed. */
  ghost predicate MadeBeforeBreak(v: View) {
    forall pr, c :: (pr, c) in v.overlay ==> (pr, c, v.overlay[(pr, c)]) in v.tunnels
  }

  /** `p` arrives in table 40 straight from a table 20 entry whose tunnel is installed. */
  ghost predicate Tunnelled(v: View, p: Packet) {
    exists pr: Proto, c: Cidr :: p.ethType == pr.Eth() && c.Contains(p.dst) && (pr, c, p.tunId) in v.tunnels
  }

  lemma TunnelledIsTunnel(n: Node, v: View, sw: FlowTable, p: Packet, k: Key)
    requires Represents(n, v, sw) && Tunnelled(v, p) && Best(sw, TABLE_L3_FORWARDING, p, k)
    ensures k.priority == 150
  {
    var pr: Proto, c: Cidr :| p.ethType == pr.Eth() && c.Contains(p.dst) && (pr, c, p.tunId) in v.tunnels;
    Outranked(n, v, sw, p, Tunnel(pr, c, p.tunId, v.tunnels[(pr, c, p.tunId)]));
    var e := EntryAt(n, v, sw, k);
  }

  lemma TunnelledLeaves(n: Node, v: View, sw: FlowTable, p: Packet, path: seq<Key>, outs: seq<Emission>)
    returns (e: Entry)
    requires Represents(n, v, sw) && Tunnelled(v, p)
    requires Runs(sw, TABLE_L3_FORWARDING, p, path, outs)
    ensures e.Tunnel? && Has(v, e) && e.cidr.Contains(p.dst) && e.id == p.tunId
    ensures outs == Emit(n.vxlanPort, p.(tunDst := e.overlayIP))
  {
    var pr: Proto, c: Cidr :| p.ethType == pr.Eth() && c.Contains(p.dst) && (pr, c, p.tunId) in v.tunnels;
    Outranked(n, v, sw, p, Tunnel(pr, c, p.tunId, v.tunnels[(pr, c, p.tunId)]));
    e := Selected(n, v, sw, TABLE_L3_FORWARDING, p, path, outs);
  }

  ghost predicate Crosses(path: seq<Key>, t: nat) {
    exists i :: 0 <= i < |path| && path[i].table == t
  }

  /** No packet is lost between tables 20 and 40: a run that hits a table 20 entry ends at an
      installed tunnel entry `e` that covers the packet's destination, with an output on the
      vxlan port (suppressed only if the packet came in there). */
  lemma {:induction false} NothingLostBeforeTunnel(n: Node, v: View, sw: FlowTable, t: nat, p: Packet,
                                                   path: seq<Key>, outs: seq<Emission>) returns (e: Entry)
    requires Represents(n, v, sw) && MadeBeforeBreak(v)
    requires Runs(sw, t, p, path, outs) && Crosses(path, TABLE_OVERLAY)
    ensures e.Tunnel? && Has(v, e) && e.cidr.Contains(p.dst)
    ensures outs == Emit(n.vxlanPort, p.(tunId := e.id, tunDst := e.overlayIP))
    decreases |path|
  {
    var hit := Selected(n, v, sw, t, p, path, outs);
    var f := EffectOf(n, hit, p);
    if t == TABLE_OVERLAY {
      assert Tunnelled(v, f.packet);
      e := TunnelledLeaves(n, v, sw, f.packet, path[1..], outs);
    } else {
      assert Crosses(path[1..], TABLE_OVERLAY) by {
        var i :| 0 <= i < |path| && path[i].table == TABLE_OVERLAY;
        assert i > 0 && path[1..][i - 1].table == TABLE_OVERLAY;
      }
      e := NothingLostBeforeTunnel(n, v, sw, f.next.value, f.packet, path[1..], outs[|f.out|..]);
    }
  }

  /** The current node's own table 40 entries removed. */
  function WithoutOwnTunnels(sw: FlowTable): (r: FlowTable)
    ensures r.Keys == sw.Keys - set k | k in sw && k.table == 40 && k.priority == 100
    ensures forall k :: k in r ==> r[k] == sw[k]
  {
    map k | k in sw && !(k.table == TABLE_L3_FORWARDING && k.priority == 100) :: sw[k]
  }

  lemma OwnTunnelsNeverBest(n: Node, v: View, sw: FlowTable, t: nat, p: Packet, k: Key)
    requires Represents(n, v, sw)
    requires t == TABLE_L3_FORWARDING ==> Tunnelled(v, p)
    ensures Best(sw, t, p, k) <==> Best(WithoutOwnTunnels(sw), t, p, k)
  {
    var sw' := WithoutOwnTunnels(sw);
    if t == TABLE_L3_FORWARDING {
      var pr: Proto, c: Cidr :| p.ethType == pr.Eth() && c.Contains(p.dst) && (pr, c, p.tunId) in v.tunnels;
      var tunnel := Tunnel(pr, c, p.tunId, v.tunnels[(pr, c, p.tunId)]);
      Outranked(n, v, sw, p, tunnel);
      assert Candidate(sw', t, p, KeyOf(n, tunnel));
      forall k' | Candidate(sw, t, p, k') && !Candidate(sw', t, p, k')
        ensures k'.priority < 150
      {
      }
    } else {
      assert forall k' :: Candidate(sw, t, p, k') <==> Candidate(sw', t, p, k');
    }
  }

  lemma {:induction false} OwnTunnelsAreDeadFrom(n: Node, v: View, sw: FlowTable, t: nat, p: Packet,
                                                 path: seq<Key>, outs: seq<Emission>)
    requires Represents(n, v, sw) && MadeBeforeBreak(v)
    requires t == TABLE_L3_FORWARDING ==> Tunnelled(v, p)
    ensures Runs(sw, t, p, path, outs) <==> Runs(WithoutOwnTunnels(sw), t, p, path, outs)
    decreases |path|
  {
    var sw' := WithoutOwnTunnels(sw);
    if path == [] {
      if t == TABLE_L3_FORWARDING {
        var pr: Proto, c: Cidr :| p.ethType == pr.Eth() && c.Contains(p.dst) && (pr, c, p.tunId) in v.tunnels;
        var tunnel := Tunnel(pr, c, p.tunId, v.tunnels[(pr, c, p.tunId)]);
        Outranked(n, v, sw, p, tunnel);
        assert Candidate(sw', t, p, KeyOf(n, tunnel));
      } else {
        assert forall k' :: Candidate(sw, t, p, k') <==> Candidate(sw', t, p, k');
      }
    } else {
      OwnTunnelsNeverBest(n, v, sw, t, p, path[0]);
      if Best(sw, t, p, path[0]) {
        var e := EntryAt(n, v, sw, path[0]);
        CodeHasEffect(n, e, p);
        var f := EffectOf(n, e, p);
        if f.next.Some? && f.out <= outs {
          if f.next.value == TABLE_L3_FORWARDING {
            assert e.Overlay? && e.cidr.Contains(p.dst) && (e.proto, e.cidr, e.id) in v.tunnels;
            assert Tunnelled(v, f.packet);
          }
          OwnTunnelsAreDeadFrom(n, v, sw, f.next.value, f.packet, path[1..], outs[|f.out|..]);
        }
      }
    }
  }

  /** Removing the current node's table 40 entries changes the outcome of no packet. */
  lemma OwnTunnelsAreDead(n: Node, v: View, sw: FlowTable, p: Packet, outs: seq<Emission>)
    requires Represents(n, v, sw) && MadeBeforeBreak(v)
    ensures Forwards(sw, p, outs) <==> Forwards(WithoutOwnTunnels(sw), p, outs)
  {
    if path :| Runs(sw, TABLE_CLASSIFICATION, p, path, outs) {
      OwnTunnelsAreDeadFrom(n, v, sw, TABLE_CLASSIFICATION, p, path, outs);
    }
    if path :| Runs(WithoutOwnTunnels(sw), TABLE_CLASSIFICATION, p, path, outs) {
      OwnTunnelsAreDeadFrom(n, v, sw, TABLE_CLASSIFICATION, p, path, outs);
    }
  }

  ghost predicate Unambiguous(sw: FlowTable, t: nat) {
    forall p, k, k' :: Best(sw, t, p, k) && Best(sw, t, p, k') ==> k == k'
  }

  ghost predicate DisjointOverlay(v: View) {
    forall pr, c, c' :: (pr, c) in v.overlay && (pr, c') in v.overlay && Overlap(c, c') ==> c == c'
  }

  /** Tunnel entries of one protocol and tunnel ID have equal or disjoint CIDRs. */
  ghost predicate DisjointTunnels(v: View) {
    forall pr, c, c', i :: (pr, c, i) in v.tunnels && (pr, c', i) in v.tunnels && Overlap(c, c') ==> c == c'
  }

  /** Where two of the node's own entries meet, a tunnel entry outranks both. */
  ghost predicate OwnOutranked(v: View) {
    forall pr, c, c', i, a | OwnTunnel(pr, c, i) in v.plain && OwnTunnel(pr, c', i) in v.plain
                             && c.Contains(a) && c'.Contains(a) && c != c' :: TunnelCovers(v, pr, i, a)
  }

  ghost predicate TunnelCovers(v: View, pr: Proto, i: nat, a: nat) {
    exists d: Cidr :: d.Contains(a) && (pr, d, i) in v.tunnels
  }

  /** Lookup in a table is unambiguous for every packet exactly when, in table 20, the remote CIDRs
      are disjoint, and, in table 40, tunnels of one ID are disjoint and the node's own entries
      never meet uncovered. The other tables are never ambiguous. */
  lemma UnambiguousExactlyWhenDisjoint(n: Node, v: View, sw: FlowTable, t: nat)
    requires Represents(n, v, sw)
    ensures Unambiguous(sw, t) <==>
            && (t == TABLE_OVERLAY ==> DisjointOverlay(v))
            && (t == TABLE_L3_FORWARDING ==> DisjointTunnels(v) && OwnOutranked(v))
  {
    if && (t == TABLE_OVERLAY ==> DisjointOverlay(v))
       && (t == TABLE_L3_FORWARDING ==> DisjointTunnels(v) && OwnOutranked(v)) {
      forall p, k, k' | Best(sw, t, p, k) && Best(sw, t, p, k')
        ensures k == k'
      {
        assert k.priority == k'.priority;
        if t == TABLE_L3_FORWARDING {
          OneForwardingEntry(n, v, sw, p, k, k');
        } else {
          SamePriority(n, v, sw, p, k, k');
        }
      }
    } else if t == TABLE_OVERLAY {
      OverlapIsAmbiguous(n, v, sw);
    } else if !DisjointTunnels(v) {
      MeetingTunnelsAreAmbiguous(n, v, sw);
    } else {
      MeetingOwnAreAmbiguous(n, v, sw);
    }
  }

  lemma OneForwardingEntry(n: Node, v: View, sw: FlowTable, p: Packet, k: Key, k': Key)
    requires Represents(n, v, sw) && DisjointTunnels(v) && OwnOutranked(v)
    requires Best(sw, TABLE_L3_FORWARDING, p, k) && Best(sw, TABLE_L3_FORWARDING, p, k') && k.priority == k'.priority
    ensures k == k'
  {
    var e := EntryAt(n, v, sw, k);
    var e' := EntryAt(n, v, sw, k');
    if e.Tunnel? {
      assert e'.Tunnel? && Overlap(e.cidr, e'.cidr);
    } else if e.cidr != e'.cidr {
      assert TunnelCovers(v, e.proto, e.id, p.dst);
      var d: Cidr :| d.Contains(p.dst) && (e.proto, d, e.id) in v.tunnels;
      Outranked(n, v, sw, p, Tunnel(e.proto, d, e.id, v.tunnels[(e.proto, d, e.id)]));
    }
  }

  lemma MeetingTunnelsAreAmbiguous(n: Node, v: View, sw: FlowTable)
    requires Represents(n, v, sw) && !DisjointTunnels(v)
    ensures !Unambiguous(sw, TABLE_L3_FORWARDING)
  {
    var pr, c, c', i :| (pr, c, i) in v.tunnels && (pr, c', i) in v.tunnels && Overlap(c, c') && c != c';
    var a: nat :| c.Contains(a) && c'.Contains(a);
    var p := Packet(0, pr.Eth(), a, "", i, 0);
    var e, e' := Tunnel(pr, c, i, v.tunnels[(pr, c, i)]), Tunnel(pr, c', i, v.tunnels[(pr, c', i)]);
    Outranked(n, v, sw, p, e);
    Outranked(n, v, sw, p, e');
    forall k | Candidate(sw, TABLE_L3_FORWARDING, p, k)
      ensures k.priority <= 150
    {
      var f := EntryAt(n, v, sw, k);
    }
    assert Best(sw, TABLE_L3_FORWARDING, p, KeyOf(n, e)) && Best(sw, TABLE_L3_FORWARDING, p, KeyOf(n, e'));
  }

  lemma MeetingOwnAreAmbiguous(n: Node, v: View, sw: FlowTable)
    requires Represents(n, v, sw) && !OwnOutranked(v)
    ensures !Unambiguous(sw, TABLE_L3_FORWARDING)
  {
    var pr, c, c', i, a :|
      OwnTunnel(pr, c, i) in v.plain && OwnTunnel(pr, c', i) in v.plain && c.Contains(a) && c'.Contains(a) && c != c'
      && !TunnelCovers(v, pr, i, a);
    var p := Packet(0, pr.Eth(), a, "", i, 0);
    var e, e' := OwnTunnel(pr, c, i), OwnTunnel(pr, c', i);
    assert Has(v, e) && Has(v, e');
    Outranked(n, v, sw, p, e);
    Outranked(n, v, sw, p, e');
    forall k | Candidate(sw, TABLE_L3_FORWARDING, p, k)
      ensures k.priority <= 100
    {
      var f := EntryAt(n, v, sw, k);
    }
    assert Best(sw, TABLE_L3_FORWARDING, p, KeyOf(n, e)) && Best(sw, TABLE_L3_FORWARDING, p, KeyOf(n, e'));
  }

  lemma OverlapIsAmbiguous(n: Node, v: View, sw: FlowTable)
    requires Represents(n, v, sw) && !DisjointOverlay(v)
    ensures !Unambiguous(sw, TABLE_OVERLAY)
  {
    var t := TABLE_OVERLAY;
    var pr, c, c' :| (pr, c) in v.overlay && (pr, c') in v.overlay && Overlap(c, c') && c != c';
    var a: nat :| c.Contains(a) && c'.Contains(a);
    var p := Packet(0, pr.Eth(), a, "", 0, 0);
    var e, e' := Overlay(pr, c, v.overlay[(pr, c)]), Overlay(pr, c', v.overlay[(pr, c')]);
    Outranked(n, v, sw, p, e);
    Outranked(n, v, sw, p, e');
    forall k | Candidate(sw, t, p, k)
      ensures k.priority == 100
    {
      var f := EntryAt(n, v, sw, k);
    }
    assert Best(sw, t, p, KeyOf(n, e)) && Best(sw, t, p, KeyOf(n, e'));
  }

  lemma SamePriority(n: Node, v: View, sw: FlowTable, p: Packet, k: Key, k': Key)
    requires Represents(n, v, sw)
    requires Candidate(sw, k.table, p, k) && Candidate(sw, k.table, p, k') && k.priority == k'.priority
    requires k.table != TABLE_L3_FORWARDING
    requires k.table == TABLE_OVERLAY ==> DisjointOverlay(v)
    ensures k == k'
  {
    var e := EntryAt(n, v, sw, k);
    var e' := EntryAt(n, v, sw, k');
    if k.table == TABLE_OVERLAY {
      assert e.Overlay? && e'.Overlay? && e.proto == e'.proto && Overlap(e.cidr, e'.cidr);
    } else if k.table == TABLE_L2_REWRITES {
      HostContains(e.podIP, p.dst);
      HostContains(e'.podIP, p.dst);
    } else {
      RankedEntries(n, e, e');
    }
  }

  /** In tables 0 and 10 a priority belongs to one entry only. */
  lemma RankedEntries(n: Node, e: Entry, e': Entry)
    requires KeyOf(n, e).table == KeyOf(n, e').table && KeyOf(n, e).priority == KeyOf(n, e').priority
    requires KeyOf(n, e).table < TABLE_OVERLAY
    ensures e == e'
  {
  }

  /** A packet that reaches table 40 can select only one entry there. */
  lemma TunnelUnambiguous(n: Node, v: View, sw: FlowTable, p: Packet, k: Key, k': Key)
    requires Represents(n, v, sw) && Tunnelled(v, p)
    requires DisjointCIDRs(v, IP) && DisjointCIDRs(v, ARP)
    requires Best(sw, TABLE_L3_FORWARDING, p, k) && Best(sw, TABLE_L3_FORWARDING, p, k')
    ensures k == k'
  {
    TunnelledIsTunnel(n, v, sw, p, k);
    TunnelledIsTunnel(n, v, sw, p, k');
    var e := EntryAt(n, v, sw, k);
    var e' := EntryAt(n, v, sw, k');
    assert e.Tunnel? && e'.Tunnel? && Overlap(e.cidr, e'.cidr);
  }
}
