/** From unique tunnel IDs in the API store to distinct entries in table 40. */
module TunnelKeys {
  import opened Addresses
  import opened OpenFlow
  import opened Flows
  import opened TunnelIDs
  import opened VSwitchCfg
  import C = ControlPlane

  /** Handling the event writes the table 40 key, by `ovs-ofctl` or through the queue. */
  ghost predicate Writes(n: Node, ev: VSwitchEvent, key: Key) {
    key.table == 40 && ((exists e :: e in Installs(n, ev) && KeyOf(n, e) == key)
                        || exists e :: e in Flows.Sends(n, ev) && KeyOf(n, e) == key)
  }

  lemma InstallsItsID(n: Node, ev: VSwitchEvent, key: Key)
    requires 0 <= ev.vs.tunnelID < 0x8000_0000
    ensures (exists e :: e in Installs(n, ev) && KeyOf(n, e) == key) <==>
            && ev.portFound && ev.vs.podCIDR.Some? && ev.vs.name != n.name && ev.ipOk
            && (key == Key(40, 150, Match(Some(0x0800), ev.vs.podCIDR, Some(ev.vs.tunnelID)))
                || (ev.arpOk && key == Key(40, 150, Match(Some(0x0806), ev.vs.podCIDR, Some(ev.vs.tunnelID)))))
  {
    if Remote(n, ev) && ev.ipOk {
      assert TunnelEntry(ev, IP) in Installs(n, ev) && (ev.arpOk ==> TunnelEntry(ev, ARP) in Installs(n, ev));
    }
  }

  lemma SendsItsID(n: Node, ev: VSwitchEvent, key: Key)
    requires 0 <= ev.vs.tunnelID < 0x8000_0000 && key.table == 40
    ensures (exists e :: e in Flows.Sends(n, ev) && KeyOf(n, e) == key) <==>
            && ev.portFound && ev.vs.podCIDR.Some? && ev.vs.name == n.name
            && (key == Key(40, 100, Match(Some(0x0800), ev.vs.podCIDR, Some(ev.vs.tunnelID)))
                || key == Key(40, 100, Match(Some(0x0806), ev.vs.podCIDR, Some(ev.vs.tunnelID))))
  {
    if Accepted(ev) && ev.vs.name == n.name {
      var c, id := ev.vs.podCIDR.value, WireID(ev.vs.tunnelID);
      assert OwnTunnel(IP, c, id) in Flows.Sends(n, ev) && OwnTunnel(ARP, c, id) in Flows.Sends(n, ev);
    }
  }

  /** Every table 40 key that an event writes has the event's CIDR and its tunnel ID; the priority
      says whether the vswitch is another node's or the node's own. An event of another node that
      was handled completely writes one for IP and one for ARP. */
  lemma WritesItsID(n: Node, ev: VSwitchEvent, key: Key)
    requires 0 <= ev.vs.tunnelID < 0x8000_0000
    ensures Writes(n, ev, key) ==>
              && key.pattern.tunId == Some(ev.vs.tunnelID) && key.pattern.dst == ev.vs.podCIDR
              && key.priority == if ev.vs.name == n.name then 100 else 150
    ensures ev.portFound && ev.vs.podCIDR.Some? && ev.vs.name != n.name && ev.ipOk && ev.arpOk ==>
              && Writes(n, ev, Key(40, 150, Match(Some(0x0800), ev.vs.podCIDR, Some(ev.vs.tunnelID))))
              && Writes(n, ev, Key(40, 150, Match(Some(0x0806), ev.vs.podCIDR, Some(ev.vs.tunnelID))))
  {
    InstallsItsID(n, ev, key);
    InstallsItsID(n, ev, Key(40, 150, Match(Some(0x0800), ev.vs.podCIDR, Some(ev.vs.tunnelID))));
    InstallsItsID(n, ev, Key(40, 150, Match(Some(0x0806), ev.vs.podCIDR, Some(ev.vs.tunnelID))));
    if key.table == 40 {
      SendsItsID(n, ev, key);
    }
  }

  /** Two events with different tunnel IDs never write the same table 40 entry. */
  lemma DifferentIDsDifferentKeys(n: Node, ev: VSwitchEvent, ev': VSwitchEvent, key: Key, key': Key)
    requires ValidID(ev.vs.tunnelID) && ValidID(ev'.vs.tunnelID) && ev.vs.tunnelID != ev'.vs.tunnelID
    requires Writes(n, ev, key) && Writes(n, ev', key')
    ensures key != key'
  {
    WritesItsID(n, ev, key);
    WritesItsID(n, ev', key');
  }

  /** The event shows the config stored under its name. */
  ghost predicate Shows(store: map<string, C.Object>, ev: VSwitchEvent) {
    ev.vs.name in store && ev.vs.tunnelID == store[ev.vs.name].spec.tunnelID
  }

  /** What unique tunnel IDs are for: in every run of the two controllers in which allocations found
      room, events that show two different live configs, each with its ID assigned, write disjoint
      sets of table 40 entries on every node, whatever their CIDRs are. */
  lemma LiveConfigsNeverShareEntries(v: Settings, run: seq<C.State>, steps: seq<C.Step>, i: nat,
                                     n: Node, ev: VSwitchEvent, ev': VSwitchEvent, key: Key, key': Key)
    requires C.IsRun(v, run, steps) && i < |run|
    requires forall j :: 0 <= j < i ==> C.HasRoom(run[j], steps[j])
    requires Shows(run[i].store, ev) && Shows(run[i].store, ev') && ev.vs.name != ev'.vs.name
    requires ev.vs.tunnelID != 0 && ev'.vs.tunnelID != 0
    requires Writes(n, ev, key) && Writes(n, ev', key')
    ensures key != key'
  {
    C.TunnelIDsStayUnique(v, run, steps, i);
    DifferentIDsDifferentKeys(n, ev, ev', key, key');
  }
}
