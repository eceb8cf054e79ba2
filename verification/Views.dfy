/** An abstract view of a flow table: for each slot that the program may write, what is in it.
    The view of a log of entries determines the flow table that the log leaves behind. */
module Views {
  import opened Addresses
  import opened OpenFlow
  import opened Flows

  /** `plain` holds the entries whose instructions are determined by their key. */
  datatype View = View(plain: set<Entry>, overlay: map<(Proto, Cidr), nat>, tunnels: map<(Proto, Cidr, nat), nat>,
                       podsIP: map<nat, Link>, podsARP: map<nat, nat>)

  const EMPTY: View := View({}, map[], map[], map[], map[])

  predicate Has(v: View, e: Entry) {
    match e
    case Overlay(proto, cidr, id) => (proto, cidr) in v.overlay && v.overlay[(proto, cidr)] == id
    case Tunnel(proto, cidr, id, ip) => (proto, cidr, id) in v.tunnels && v.tunnels[(proto, cidr, id)] == ip
    case PodIP(ip, mac, port) => ip in v.podsIP && v.podsIP[ip] == Link(mac, port)
    case PodARP(ip, port) => ip in v.podsARP && v.podsARP[ip] == port
    case _ => e in v.plain
  }

  function Add(v: View, e: Entry): View {
    match e
    case Overlay(proto, cidr, id) => v.(overlay := v.overlay[(proto, cidr) := id])
    case Tunnel(proto, cidr, id, ip) => v.(tunnels := v.tunnels[(proto, cidr, id) := ip])
    case PodIP(ip, mac, port) => v.(podsIP := v.podsIP[ip := Link(mac, port)])
    case PodARP(ip, port) => v.(podsARP := v.podsARP[ip := port])
    case _ => v.(plain := v.plain + {e})
  }

  function ViewOf(log: seq<Entry>): View {
    if log == [] then EMPTY else Add(ViewOf(log[..|log| - 1]), log[|log| - 1])
  }

  function AddAll(v: View, es: seq<Entry>): View
    decreases |es|
  {
    if es == [] then v else AddAll(Add(v, es[0]), es[1..])
  }

  lemma {:induction false} AddAllExtendsLog(log: seq<Entry>, es: seq<Entry>)
    ensures AddAll(ViewOf(log), es) == ViewOf(log + es)
    decreases |es|
  {
    if es == [] {
      assert log + es == log;
    } else {
      assert (log + [es[0]])[..|log|] == log;
      AddAllExtendsLog(log + [es[0]], es[1..]);
      Assoc(log, [es[0]], es[1..]);
      assert es == [es[0]] + es[1..];
    }
  }

  /** Two entries share a key exactly when adding one evicts the other from the view. */
  lemma AddReplacesSlot(n: Node, v: View, e: Entry, f: Entry)
    ensures Has(Add(v, f), e) <==> e == f || (Has(v, e) && KeyOf(n, e) != KeyOf(n, f))
  {
  }

  ghost predicate Witnessed(n: Node, v: View, k: Key) {
    exists e :: Has(v, e) && KeyOf(n, e) == k
  }

  /** The table holds the entries of the view and nothing else. */
  ghost predicate Represents(n: Node, v: View, sw: FlowTable) {
    && (forall e :: Has(v, e) ==> KeyOf(n, e) in sw && sw[KeyOf(n, e)] == CodeOf(n, e))
    && (forall k :: k in sw ==> Witnessed(n, v, k))
  }

  lemma InstallRepresents(n: Node, v: View, sw: FlowTable, f: Entry)
    requires Represents(n, v, sw)
    ensures Represents(n, Add(v, f), Install(sw, Compile(n, f)))
  {
    var sw' := Install(sw, Compile(n, f));
    forall e | Has(Add(v, f), e)
      ensures KeyOf(n, e) in sw' && sw'[KeyOf(n, e)] == CodeOf(n, e)
    {
      AddReplacesSlot(n, v, e, f);
    }
    forall k | k in sw'
      ensures Witnessed(n, Add(v, f), k)
    {
      if k == KeyOf(n, f) {
        AddReplacesSlot(n, v, f, f);
      } else {
        assert Witnessed(n, v, k);
        var e :| Has(v, e) && KeyOf(n, e) == k;
        AddReplacesSlot(n, v, e, f);
      }
    }
  }

  /** For every log: the flow table it leaves is exactly what its view says. */
  lemma {:induction false} LogRepresents(n: Node, log: seq<Entry>)
    ensures Represents(n, ViewOf(log), TableOf(n, log))
  {
    if log != [] {
      LogRepresents(n, log[..|log| - 1]);
      InstallRepresents(n, ViewOf(log[..|log| - 1]), TableOf(n, log[..|log| - 1]), log[|log| - 1]);
    }
  }

  /** What executing an entry does to a packet. */
  function EffectOf(n: Node, e: Entry, p: Packet): Effect {
    match e
    case ToHost => Effect(p, Emit(n.hostPort, p), None)
    case GatewayIP => var q := p.(ethDst := n.gatewayMAC); Effect(q, Emit(n.hostPort, q), None)
    case GatewayARP => Effect(p, Emit(n.hostPort, p), None)
    case ClassifyARP => Effect(p, [], Some(TABLE_LOCAL_ARP))
    case LocalARP => Effect(p, [], Some(TABLE_L2_REWRITES))
    case ClusterARP => Effect(p, [], Some(TABLE_OVERLAY))
    case LocalIP => Effect(p, [], Some(TABLE_L2_REWRITES))
    case ClusterIP => Effect(p, [], Some(TABLE_OVERLAY))
    case Overlay(_, _, id) => Effect(p.(tunId := id), [], Some(TABLE_L3_FORWARDING))
    case Tunnel(_, _, _, ip) => var q := p.(tunDst := ip); Effect(q, Emit(n.vxlanPort, q), None)
    case OwnTunnel(_, _, _) => Effect(p, [], Some(TABLE_L2_REWRITES))
    case PodIP(_, mac, port) => var q := p.(ethDst := mac); Effect(q, Emit(port, q), None)
    case PodARP(_, port) => Effect(p, Emit(port, p), None)
  }

  lemma {:induction false} ActionsOfOutput(port: nat, p: Packet)
    ensures RunActions([Output(port)], p) == (p, Emit(port, p))
  {
    var actions := [Output(port)];
    assert actions[1..] == [] && Emit(port, p) + [] == Emit(port, p);
  }

  lemma {:induction false} OnlyActions(actions: seq<Action>, p: Packet)
    ensures var r := RunActions(actions, p);
            RunInstructions([ApplyActions(actions)], p) == Effect(r.0, r.1, None)
  {
  }

  lemma {:induction false} SetThenOutput(setField: Action, port: nat, p: Packet)
    requires !setField.Output?
    ensures var q := RunActions([setField], p).0;
            RunActions([setField, Output(port)], p) == (q, Emit(port, q))
  {
    var one, two := [setField], [setField, Output(port)];
    assert one[1..] == [] && two[1..] == [Output(port)];
    ActionsOfOutput(port, RunActions(one, p).0);
  }

  lemma {:induction false} CodeHasEffect(n: Node, e: Entry, p: Packet)
    ensures RunInstructions(CodeOf(n, e), p) == EffectOf(n, e, p)
  {
    match e
    case ToHost => OnlyActions([Output(n.hostPort)], p); ActionsOfOutput(n.hostPort, p);
    case GatewayARP => OnlyActions([Output(n.hostPort)], p); ActionsOfOutput(n.hostPort, p);
    case PodARP(_, port) => OnlyActions([Output(port)], p); ActionsOfOutput(port, p);
    case GatewayIP =>
      OnlyActions([SetEthDst(n.gatewayMAC), Output(n.hostPort)], p);
      SetThenOutput(SetEthDst(n.gatewayMAC), n.hostPort, p);
    case Tunnel(_, _, _, ip) =>
      OnlyActions([SetTunDst(ip), Output(n.vxlanPort)], p);
      SetThenOutput(SetTunDst(ip), n.vxlanPort, p);
    case PodIP(_, mac, port) =>
      OnlyActions([SetEthDst(mac), Output(port)], p);
      SetThenOutput(SetEthDst(mac), port, p);
    case Overlay(_, _, id) =>
      var code, set1 := CodeOf(n, e), [SetTunId(id)];
      assert code[1..] == [GotoTable(TABLE_L3_FORWARDING)];
      assert RunActions(set1, p) == (p.(tunId := id), []);
    case _ =>
  }

  /** Which entries a table can hold. */
  lemma EntriesByTable(n: Node, e: Entry)
    ensures KeyOf(n, e).table == TABLE_L2_REWRITES <==> e.PodIP? || e.PodARP?
    ensures KeyOf(n, e).table == TABLE_L3_FORWARDING <==> e.Tunnel? || e.OwnTunnel?
    ensures e.Tunnel? ==> KeyOf(n, e).priority == 150
    ensures e.OwnTunnel? ==> KeyOf(n, e).priority == 100
    ensures KeyOf(n, e).table == TABLE_OVERLAY <==> e.Overlay?
    ensures KeyOf(n, e).table == TABLE_LOCAL_ARP <==> e.GatewayARP? || e.LocalARP? || e.ClusterARP?
  {
  }

  /** The entry behind a key of the table. */
  lemma EntryAt(n: Node, v: View, sw: FlowTable, k: Key) returns (e: Entry)
    requires Represents(n, v, sw) && k in sw
    ensures Has(v, e) && KeyOf(n, e) == k && sw[k] == CodeOf(n, e)
    ensures k.table == TABLE_L2_REWRITES <==> e.PodIP? || e.PodARP?
    ensures k.table == TABLE_L3_FORWARDING <==> e.Tunnel? || e.OwnTunnel?
    ensures e.Tunnel? ==> k.priority == 150
    ensures e.OwnTunnel? ==> k.priority == 100
    ensures k.table == TABLE_OVERLAY <==> e.Overlay?
    ensures k.table == TABLE_LOCAL_ARP <==> e.GatewayARP? || e.LocalARP? || e.ClusterARP?
  {
    assert Witnessed(n, v, k);
    e :| Has(v, e) && KeyOf(n, e) == k;
    EntriesByTable(n, e);
  }

  /** A run step at the level of entries: the selected key is the key of an entry `e` of the
      view, and the rest of the run continues from its effect. */
  lemma Selected(n: Node, v: View, sw: FlowTable, t: nat, p: Packet, path: seq<Key>, outs: seq<Emission>)
    returns (e: Entry)
    requires Represents(n, v, sw) && Runs(sw, t, p, path, outs) && path != []
    ensures Has(v, e) && KeyOf(n, e) == path[0] && Best(sw, t, p, path[0])
    ensures t == TABLE_L2_REWRITES <==> e.PodIP? || e.PodARP?
    ensures t == TABLE_L3_FORWARDING <==> e.Tunnel? || e.OwnTunnel?
    ensures t == TABLE_OVERLAY <==> e.Overlay?
    ensures t == TABLE_LOCAL_ARP <==> e.GatewayARP? || e.LocalARP? || e.ClusterARP?
    ensures var f := EffectOf(n, e, p);
            match f.next
            case None => |path| == 1 && outs == f.out
            case Some(t') => t < t' && f.out <= outs && Runs(sw, t', f.packet, path[1..], outs[|f.out|..])
  {
    e := EntryAt(n, v, sw, path[0]);
    CodeHasEffect(n, e, p);
  }

  /** An entry of the view that matches is a candidate, so the selected entry ranks no lower. */
  lemma Outranked(n: Node, v: View, sw: FlowTable, p: Packet, e: Entry)
    requires Represents(n, v, sw) && Has(v, e) && Matches(KeyOf(n, e).pattern, p)
    ensures Candidate(sw, KeyOf(n, e).table, p, KeyOf(n, e))
  {
  }
}
