/** The part of an OpenFlow 1.3 switch that kube-ovs relies on.

    A flow table is a map from (table, priority, match) to instructions. Lookup is a relation,
    not a function: when several entries of the highest priority match, the OpenFlow Switch
    Specification 1.3.0 leaves the choice open (section 5.3), so a claim about every run
    covers every choice a switch may make. */
module OpenFlow {
  import opened Addresses

  const ETH_IPV4: nat := 0x0800
  const ETH_ARP: nat := 0x0806

  /** `dst` is the IPv4 destination of an IP packet and the target protocol address of an ARP
      packet; it means nothing for other ether types. */
  datatype Packet = Packet(inPort: nat, ethType: nat, dst: nat, ethDst: string, tunId: nat, tunDst: nat)

  datatype Match = Match(ethType: Option<nat>, dst: Option<Cidr>, tunId: Option<nat>)

  datatype Action =
    | SetEthDst(mac: string)
    | SetTunId(id: nat)
    | SetTunDst(ip: nat)
    | Output(port: nat)

  datatype Instruction =
    | ApplyActions(actions: seq<Action>)
    | GotoTable(table: nat)

  datatype Key = Key(table: nat, priority: nat, pattern: Match)

  datatype FlowMod = FlowMod(key: Key, instructions: seq<Instruction>)

  type FlowTable = map<Key, seq<Instruction>>

  /** A packet leaving through a port. */
  datatype Emission = Emission(port: nat, packet: Packet)

  predicate Matches(m: Match, p: Packet) {
    && (m.ethType.Some? ==> m.ethType.value == p.ethType)
    && (m.dst.Some? ==> m.dst.value.Contains(p.dst))
    && (m.tunId.Some? ==> m.tunId.value == p.tunId)
  }

  /** OFPFC_ADD: an entry with identical match and priority is replaced (section 6.4). */
  function Install(sw: FlowTable, f: FlowMod): FlowTable {
    sw[f.key := f.instructions]
  }

  ghost predicate Candidate(sw: FlowTable, t: nat, p: Packet, k: Key) {
    k in sw && k.table == t && Matches(k.pattern, p)
  }

  /** `k` may be selected for `p` in table `t`: it matches and no matching entry ranks higher. */
  ghost predicate Best(sw: FlowTable, t: nat, p: Packet, k: Key) {
    && Candidate(sw, t, p, k)
    && forall k' :: Candidate(sw, t, p, k') ==> k'.priority <= k.priority
  }

  /** No entry matches: without a table-miss entry the packet is dropped (section 5.4). */
  ghost predicate Missed(sw: FlowTable, t: nat, p: Packet) {
    forall k :: !Candidate(sw, t, p, k)
  }

  datatype Effect = Effect(packet: Packet, out: seq<Emission>, next: Option<nat>)

  /** An output to the ingress port is suppressed unless OFPP_IN_PORT is used (section A.2.1). */
  function Emit(port: nat, p: Packet): seq<Emission> {
    if port == p.inPort then [] else [Emission(port, p)]
  }

  function RunActions(actions: seq<Action>, p: Packet): (Packet, seq<Emission>) {
    if actions == [] then (p, [])
    else
      match actions[0]
      case SetEthDst(mac) => RunActions(actions[1..], p.(ethDst := mac))
      case SetTunId(id) => RunActions(actions[1..], p.(tunId := id))
      case SetTunDst(ip) => RunActions(actions[1..], p.(tunDst := ip))
      case Output(port) =>
        var r := RunActions(actions[1..], p);
        (r.0, Emit(port, p) + r.1)
  }

  function RunInstructions(instructions: seq<Instruction>, p: Packet): Effect {
    if instructions == [] then Effect(p, [], None)
    else
      match instructions[0]
      case GotoTable(t) => Effect(p, [], Some(t))
      case ApplyActions(actions) =>
        var r := RunActions(actions, p);
        var rest := RunInstructions(instructions[1..], r.0);
        Effect(rest.packet, r.1 + rest.out, rest.next)
  }

  /** The pipeline, from table `t` on: `path` lists the entries selected, `outs` what leaves the
      switch. A goto only moves forward (section 5.1). */
  ghost predicate Runs(sw: FlowTable, t: nat, p: Packet, path: seq<Key>, outs: seq<Emission>)
    decreases |path|
  {
    if path == [] then
      Missed(sw, t, p) && outs == []
    else
      && Best(sw, t, p, path[0])
      && var e := RunInstructions(sw[path[0]], p);
         match e.next
         case None => |path| == 1 && outs == e.out
         case Some(t') =>
           t < t' && e.out <= outs && Runs(sw, t', e.packet, path[1..], outs[|e.out|..])
  }

  /** What the switch may do with a packet entering table 0. */
  ghost predicate Forwards(sw: FlowTable, p: Packet, outs: seq<Emission>) {
    exists path :: Runs(sw, 0, p, path, outs)
  }

  /** Where the instructions of an entry go next does not depend on the packet. */
  function Next(instructions: seq<Instruction>): Option<nat> {
    if instructions == [] then None
    else
      match instructions[0]
      case GotoTable(t) => Some(t)
      case ApplyActions(_) => Next(instructions[1..])
  }

  lemma {:induction false} NextIsNext(instructions: seq<Instruction>, p: Packet)
    ensures RunInstructions(instructions, p).next == Next(instructions)
  {
    if instructions != [] && instructions[0].ApplyActions? {
      NextIsNext(instructions[1..], RunActions(instructions[0].actions, p).0);
    }
  }

  const LAST_TABLE: nat := 254

  ghost predicate ForwardGotos(sw: FlowTable) {
    forall k :: k in sw && Next(sw[k]).Some? ==> k.table < Next(sw[k]).value <= LAST_TABLE
  }

  lemma {:induction false} HighestExists(sw: FlowTable, t: nat, p: Packet, keys: set<Key>) returns (best: Key)
    requires keys != {} && forall k :: k in keys ==> Candidate(sw, t, p, k)
    ensures best in keys && forall k :: k in keys ==> k.priority <= best.priority
  {
    var k :| k in keys;
    var rest := keys - {k};
    best := k;
    if rest != {} {
      var b := HighestExists(sw, t, p, rest);
      best := if k.priority < b.priority then b else k;
    }
    assert keys == rest + {k};
  }

  /** With forward gotos every packet has a run: the relation is total. */
  lemma {:induction false} RunExists(sw: FlowTable, t: nat, p: Packet)
    returns (path: seq<Key>, outs: seq<Emission>)
    requires ForwardGotos(sw) && t <= LAST_TABLE
    ensures Runs(sw, t, p, path, outs)
    decreases LAST_TABLE - t
  {
    var keys := set k | k in sw && Candidate(sw, t, p, k);
    if keys == {} {
      assert forall k :: Candidate(sw, t, p, k) ==> k in keys;
      return [], [];
    }
    var k := HighestExists(sw, t, p, keys);
    assert Best(sw, t, p, k) by {
      assert forall k' :: Candidate(sw, t, p, k') ==> k' in keys;
    }
    var e := RunInstructions(sw[k], p);
    NextIsNext(sw[k], p);
    if e.next.None? {
      return [k], e.out;
    }
    var rest, more := RunExists(sw, e.next.value, e.packet);
    path, outs := [k] + rest, e.out + more;
    assert path[1..] == rest && outs[|e.out|..] == more;
  }
}
