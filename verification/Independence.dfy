/** Independence of history: when forwarding depends on the latest configurations alone. */
module Independence {
  import opened Addresses
  import opened OpenFlow
  import opened Flows
  import opened Views
  import opened Routing
  import opened Safety
  import opened NodeMachine
  import opened History
  import opened Progress

  // ---------------------------------------------------------------- history independence

  function Without(log: seq<VSwitchEvent>, name: string): seq<VSwitchEvent> {
    if log == [] then []
    else
      var rest, ev := Without(log[..|log| - 1], name), log[|log| - 1];
      if ev.vs.name == name then rest else rest + [ev]
  }

  /** Only the latest event of each vswitch name. */
  function Latest(log: seq<VSwitchEvent>): seq<VSwitchEvent> {
    if log == [] then []
    else
      var ev := log[|log| - 1];
      Without(Latest(log[..|log| - 1]), ev.vs.name) + [ev]
  }

  /** Every event was handled successfully. */
  ghost predicate Clean(n: Node, log: seq<VSwitchEvent>) {
    forall ev :: ev in log ==> Succeeds(n, ev)
  }

  ghost predicate OneCIDRPerName(log: seq<VSwitchEvent>) {
    forall ev, ev' :: ev in log && ev' in log && ev.vs.name == ev'.vs.name ==> ev.vs.podCIDR == ev'.vs.podCIDR
  }

  lemma {:induction false} WithoutIsSubset(log: seq<VSwitchEvent>, name: string)
    ensures forall ev :: ev in Without(log, name) <==> ev in log && ev.vs.name != name
  {
    if log != [] {
      var last := |log| - 1;
      assert log == log[..last] + [log[last]];
      WithoutIsSubset(log[..last], name);
    }
  }

  lemma {:induction false} LatestIsSubset(log: seq<VSwitchEvent>)
    ensures forall ev :: ev in Latest(log) ==> ev in log
    ensures log != [] ==> Latest(log) != []
  {
    if log != [] {
      var last := |log| - 1;
      assert log == log[..last] + [log[last]];
      LatestIsSubset(log[..last]);
      WithoutIsSubset(Latest(log[..last]), log[last].vs.name);
    }
  }

  lemma {:induction false} RemotesSnoc(n: Node, pr: Proto, log: seq<VSwitchEvent>, ev: VSwitchEvent)
    requires Succeeds(n, ev)
    ensures Remotes(n, pr, log + [ev]) ==
            if Remote(n, ev)
            then Remotes(n, pr, log)[ev.vs.podCIDR.value := RemoteNode(WireID(ev.vs.tunnelID), ev.vs.overlayIP)]
            else Remotes(n, pr, log)
  {
  }

  lemma {:induction false} LatestRemotes(n: Node, pr: Proto, log: seq<VSwitchEvent>)
    requires Clean(n, log) && OneCIDRPerName(log)
    ensures Remotes(n, pr, Latest(log)) == Remotes(n, pr, log)
  {
    if log != [] {
      var before, ev := log[..|log| - 1], log[|log| - 1];
      assert log == before + [ev] && ev in log;
      LatestRemotes(n, pr, before);
      LatestIsSubset(before);
      LatestRemotesStep(n, pr, before, Latest(before), ev);
    }
  }

  lemma {:induction false} LatestRemotesStep(n: Node, pr: Proto, before: seq<VSwitchEvent>, latest: seq<VSwitchEvent>,
                                             ev: VSwitchEvent)
    requires Clean(n, latest) && Succeeds(n, ev) && Remotes(n, pr, latest) == Remotes(n, pr, before)
    requires forall e :: e in latest && e.vs.name == ev.vs.name ==> e.vs.podCIDR == ev.vs.podCIDR
    ensures Remotes(n, pr, Without(latest, ev.vs.name) + [ev]) == Remotes(n, pr, before + [ev])
  {
    var kept, c := Without(latest, ev.vs.name), ev.vs.podCIDR.value;
    RemotesSnoc(n, pr, before, ev);
    RemotesSnoc(n, pr, kept, ev);
    forall d | Remote(n, ev) ==> d != c
      ensures d in Remotes(n, pr, kept) <==> d in Remotes(n, pr, before)
      ensures d in Remotes(n, pr, before) ==> Remotes(n, pr, kept)[d] == Remotes(n, pr, before)[d]
    {
      ForgetRemote(n, pr, latest, ev, c, d);
    }
  }

  /** Forgetting the events of a name that only ever announced `c` matters at `c` alone, and not
      at all for the current node. */
  lemma {:induction false} ForgetRemote(n: Node, pr: Proto, log: seq<VSwitchEvent>, ev: VSwitchEvent, c: Cidr, d: Cidr)
    requires Clean(n, log) && Succeeds(n, ev) && ev.vs.podCIDR == Some(c)
    requires forall e :: e in log && e.vs.name == ev.vs.name ==> e.vs.podCIDR == Some(c)
    requires Remote(n, ev) ==> d != c
    ensures d in Remotes(n, pr, Without(log, ev.vs.name)) <==> d in Remotes(n, pr, log)
    ensures d in Remotes(n, pr, log) ==> Remotes(n, pr, Without(log, ev.vs.name))[d] == Remotes(n, pr, log)[d]
  {
    if log != [] {
      var before, last := log[..|log| - 1], log[|log| - 1];
      assert log == before + [last] && last in log;
      ForgetRemote(n, pr, before, ev, c, d);
      RemotesSnoc(n, pr, before, last);
      RemotesSnoc(n, pr, Without(before, ev.vs.name), last);
    }
  }

  /** Two drained states of a node, one reached by a whole history and one by the latest events. */
  ghost predicate Twins(n: Node, run: seq<State>, steps: seq<Step>, i: nat,
                        run': seq<State>, steps': seq<Step>, i': nat) {
    && IsRun(n, run, steps) && i < |run| && Drained(run[i])
    && IsRun(n, run', steps') && i' < |run'| && Drained(run'[i'])
    && run'[i'].vlog == Latest(run[i].vlog) && Pods(n, run'[i'].plog) == Pods(n, run[i].plog)
    && Clean(n, run[i].vlog) && DisjointAnnouncements(n, run[i].vlog)
  }

  lemma TwinsRoute(n: Node, run: seq<State>, steps: seq<Step>, i: nat,
                   run': seq<State>, steps': seq<Step>, i': nat, p: Packet, outs: seq<Emission>)
    requires Twins(n, run, steps, i, run', steps', i')
    ensures Forwards(Bridge(n, run[i]), p, outs)
            <==> outs == Route(n, PictureOf(n, ProtoOf(p), run[i].vlog, run[i].plog), p)
    ensures Forwards(Bridge(n, run'[i']), p, outs)
            <==> outs == Route(n, PictureOf(n, ProtoOf(p), run'[i'].vlog, run'[i'].plog), p)
  {
    LatestDisjoint(n, run[i].vlog);
    DrainedNodeRoutes(n, run, steps, i, p, outs);
    DrainedNodeRoutes(n, run', steps', i', p, outs);
  }

  /** If every vswitch name keeps one pod CIDR, forwarding after any history of successful
      events equals forwarding after the latest event of each name alone, although the stale
      table 40 entries of the longer history are never removed. */
  lemma HistoryIndependence(n: Node, run: seq<State>, steps: seq<Step>, i: nat,
                            run': seq<State>, steps': seq<Step>, i': nat, p: Packet, outs: seq<Emission>)
    requires Twins(n, run, steps, i, run', steps', i') && OneCIDRPerName(run[i].vlog)
    ensures Forwards(Bridge(n, run[i]), p, outs) <==> Forwards(Bridge(n, run'[i']), p, outs)
  {
    LatestIsSubset(run[i].vlog);
    LatestRemotes(n, ProtoOf(p), run[i].vlog);
    CleanSeen(n, run[i].vlog);
    CleanSeen(n, run'[i'].vlog);
    TwinsRoute(n, run, steps, i, run', steps', i', p, outs);
  }

  lemma CleanSeen(n: Node, log: seq<VSwitchEvent>)
    requires Clean(n, log)
    ensures Seen(n, log) <==> log != []
  {
    if log != [] {
      assert Succeeds(n, log[0]);
    }
  }

  lemma {:induction false} LatestDisjoint(n: Node, log: seq<VSwitchEvent>)
    requires DisjointAnnouncements(n, log)
    ensures DisjointAnnouncements(n, Latest(log))
  {
    LatestIsSubset(log);
    forall c | Announced(n, Latest(log), c)
      ensures Announced(n, log, c)
    {
      var ev :| ev in Latest(log) && Announces(n, ev, c);
      assert ev in log;
    }
  }

  // ---------------------------------------------------------------- when names change CIDRs

  ghost predicate SameForwarding(n: Node, s: State, s': State) {
    forall p, outs :: Forwards(Bridge(n, s), p, outs) <==> Forwards(Bridge(n, s'), p, outs)
  }

  /** The last announcement of `c` among the latest events names the same tunnel ID and overlay IP
      as the last one in the whole history. */
  ghost predicate StillRouted(n: Node, log: seq<VSwitchEvent>, c: Cidr) {
    && c in Remotes(n, IP, Latest(log)) && c in Remotes(n, IP, log)
    && Remotes(n, IP, Latest(log))[c] == Remotes(n, IP, log)[c]
  }

  /** Every announced CIDR that covers an overlay address is still routed as announced last. */
  ghost predicate RoutesKept(n: Node, log: seq<VSwitchEvent>) {
    forall c, a :: Announced(n, log, c) && c.Contains(a) && OverlayAddress(n, a) ==> StillRouted(n, log, c)
  }

  lemma {:induction false} CleanForBoth(n: Node, log: seq<VSwitchEvent>)
    requires Clean(n, log)
    ensures Remotes(n, IP, log) == Remotes(n, ARP, log)
  {
    if log != [] {
      var before, ev := log[..|log| - 1], log[|log| - 1];
      assert log == before + [ev] && ev in log;
      CleanForBoth(n, before);
      RemotesSnoc(n, IP, before, ev);
      RemotesSnoc(n, ARP, before, ev);
    }
  }

  lemma {:induction false} RemotesAreAnnounced(n: Node, pr: Proto, log: seq<VSwitchEvent>, c: Cidr)
    requires Clean(n, log)
    ensures c in Remotes(n, pr, log) <==> Announced(n, log, c)
  {
    if log != [] {
      var before, ev := log[..|log| - 1], log[|log| - 1];
      assert log == before + [ev];
      RemotesAreAnnounced(n, pr, before, c);
      RemotesSnoc(n, pr, before, ev);
      if Announced(n, before, c) {
        var e :| e in before && Announces(n, e, c);
        assert e in log;
      }
      if Remote(n, ev) && ev.vs.podCIDR.value == c {
        assert ev in log;
      }
      if Announced(n, log, c) {
        var e :| e in log && Announces(n, e, c);
        assert e == ev || e in before;
      }
    }
  }

  lemma {:induction false} OnlyRemoteFor(n: Node, pr: Proto, log: seq<VSwitchEvent>, c: Cidr, c': Cidr, a: nat)
    requires Clean(n, log) && DisjointAnnouncements(n, log)
    requires Announced(n, log, c) && c.Contains(a)
    requires c' in Remotes(n, pr, log) && c'.Contains(a)
    ensures c == c'
  {
    RemotesAreAnnounced(n, pr, log, c');
    assert Overlap(c, c');
  }

  /** Exact condition, for any successful history over disjoint CIDRs, whichever names announced
      them: forwarding depends on the latest events alone exactly when every announced CIDR that
      covers an overlay address is still routed as announced last. */
  lemma HistoryIndependenceExactlyWhen(n: Node, run: seq<State>, steps: seq<Step>, i: nat,
                                       run': seq<State>, steps': seq<Step>, i': nat)
    requires Twins(n, run, steps, i, run', steps', i')
    ensures SameForwarding(n, run[i], run'[i']) <==> RoutesKept(n, run[i].vlog)
  {
    if RoutesKept(n, run[i].vlog) {
      forall p, outs
        ensures Forwards(Bridge(n, run[i]), p, outs) <==> Forwards(Bridge(n, run'[i']), p, outs)
      {
        TwinsRoute(n, run, steps, i, run', steps', i', p, outs);
        KeptRoute(n, run[i], run'[i'], p);
      }
    } else {
      LostRouteDiffers(n, run, steps, i, run', steps', i');
    }
  }

  lemma {:induction false} KeptRoute(n: Node, s: State, s': State, p: Packet)
    requires s'.vlog == Latest(s.vlog) && Pods(n, s'.plog) == Pods(n, s.plog)
    requires Clean(n, s.vlog) && DisjointAnnouncements(n, s.vlog) && RoutesKept(n, s.vlog)
    ensures Route(n, PictureOf(n, ProtoOf(p), s.vlog, s.plog), p)
            == Route(n, PictureOf(n, ProtoOf(p), s'.vlog, s'.plog), p)
  {
    LatestIsSubset(s.vlog);
    CleanSeen(n, s.vlog);
    CleanSeen(n, s'.vlog);
    if OverlayAddress(n, p.dst) {
      KeptRouteOverlay(n, s, s', p);
    }
    var pic, pic' := PictureOf(n, ProtoOf(p), s.vlog, s.plog), PictureOf(n, ProtoOf(p), s'.vlog, s'.plog);
    AlikeElsewhere(n, pic, pic', p);
  }

  /** Pictures that differ in their remote CIDRs only route alike outside the overlay. */
  lemma AlikeElsewhere(n: Node, pic: Picture, pic': Picture, p: Packet)
    requires pic.seen == pic'.seen && pic.pods == pic'.pods
    requires OverlayAddress(n, p.dst) ==> RouteOverlay(n, pic, p) == RouteOverlay(n, pic', p)
    ensures Route(n, pic, p) == Route(n, pic', p)
  {
  }

  /** On an address whose announced CIDR, if any, is still routed, both histories route alike. */
  lemma KeptRouteOverlay(n: Node, s: State, s': State, p: Packet)
    requires s'.vlog == Latest(s.vlog)
    requires Clean(n, s.vlog) && DisjointAnnouncements(n, s.vlog)
    requires forall c :: Announced(n, s.vlog, c) && c.Contains(p.dst) ==> StillRouted(n, s.vlog, c)
    ensures RouteOverlay(n, PictureOf(n, ProtoOf(p), s.vlog, s.plog), p)
            == RouteOverlay(n, PictureOf(n, ProtoOf(p), s'.vlog, s'.plog), p)
  {
    var pr := ProtoOf(p);
    var pic, pic' := PictureOf(n, pr, s.vlog, s.plog), PictureOf(n, pr, s'.vlog, s'.plog);
    LatestIsSubset(s.vlog);
    CleanForBoth(n, s.vlog);
    CleanForBoth(n, s'.vlog);
    forall c
      ensures RoutedTo(pic, c, p.dst) <==> RoutedTo(pic', c, p.dst)
      ensures RoutedTo(pic, c, p.dst) ==> pic.remotes[c] == pic'.remotes[c]
    {
      RemotesAreAnnounced(n, pr, s.vlog, c);
      LatestAnnounced(n, pr, s.vlog, c);
    }
    forall c, c' | RoutedTo(pic, c, p.dst) && RoutedTo(pic, c', p.dst)
      ensures c == c'
    {
      RemotesAreAnnounced(n, pr, s.vlog, c);
      OnlyRemoteFor(n, pr, s.vlog, c, c', p.dst);
    }
  }

  lemma {:induction false} LatestAnnounced(n: Node, pr: Proto, log: seq<VSwitchEvent>, c: Cidr)
    requires Clean(n, log)
    ensures c in Remotes(n, pr, Latest(log)) ==> Announced(n, log, c)
  {
    LatestIsSubset(log);
    RemotesAreAnnounced(n, pr, Latest(log), c);
    if c in Remotes(n, pr, Latest(log)) {
      var ev :| ev in Latest(log) && Announces(n, ev, c);
      assert ev in log;
    }
  }

  lemma LostRouteDiffers(n: Node, run: seq<State>, steps: seq<Step>, i: nat,
                         run': seq<State>, steps': seq<Step>, i': nat)
    requires Twins(n, run, steps, i, run', steps', i') && !RoutesKept(n, run[i].vlog)
    ensures !SameForwarding(n, run[i], run'[i'])
  {
    var s, s' := run[i], run'[i'];
    var c, a: nat :| Announced(n, s.vlog, c) && c.Contains(a) && OverlayAddress(n, a) && !StillRouted(n, s.vlog, c);
    var p := Packet(n.vxlanPort + 1, ETH_IPV4, a, "", 0, 0);
    LostRoute(n, s, s', p, c);
    var outs := Route(n, PictureOf(n, IP, s.vlog, s.plog), p);
    TwinsRoute(n, run, steps, i, run', steps', i', p, outs);
    assert Forwards(Bridge(n, s), p, outs) && !Forwards(Bridge(n, s'), p, outs);
  }

  /** A CIDR that is no longer routed as announced last is tunnelled to by the longer history, and
      dropped or tunnelled elsewhere by the latest events. */
  lemma LostRoute(n: Node, s: State, s': State, p: Packet, c: Cidr)
    requires s'.vlog == Latest(s.vlog)
    requires Clean(n, s.vlog) && DisjointAnnouncements(n, s.vlog)
    requires Announced(n, s.vlog, c) && c.Contains(p.dst) && !StillRouted(n, s.vlog, c)
    requires OverlayAddress(n, p.dst) && p.ethType == ETH_IPV4 && p.inPort != n.vxlanPort
    ensures Route(n, PictureOf(n, IP, s.vlog, s.plog), p) != Route(n, PictureOf(n, IP, s'.vlog, s'.plog), p)
  {
    var pic, pic' := PictureOf(n, IP, s.vlog, s.plog), PictureOf(n, IP, s'.vlog, s'.plog);
    assert s.vlog != [];
    LatestIsSubset(s.vlog);
    CleanSeen(n, s.vlog);
    CleanSeen(n, s'.vlog);
    RemotesAreAnnounced(n, IP, s.vlog, c);
    OnlyRouteIs(n, s, pic, p, c);
    forall d | RoutedTo(pic', d, p.dst)
      ensures d == c
    {
      LatestAnnounced(n, IP, s.vlog, d);
      assert Overlap(c, d);
    }
  }

  lemma OnlyRouteIs(n: Node, s: State, pic: Picture, p: Packet, c: Cidr)
    requires Clean(n, s.vlog) && DisjointAnnouncements(n, s.vlog) && pic == PictureOf(n, IP, s.vlog, s.plog)
    requires Announced(n, s.vlog, c) && c in pic.remotes && c.Contains(p.dst)
    ensures RouteOverlay(n, pic, p)
            == Emit(n.vxlanPort, p.(tunId := pic.remotes[c].id, tunDst := pic.remotes[c].overlayIP))
  {
    assert RoutedTo(pic, c, p.dst);
    forall d | RoutedTo(pic, d, p.dst)
      ensures d == c
    {
      OnlyRemoteFor(n, IP, s.vlog, c, d, p.dst);
    }
  }

  // ---------------------------------------------------------------- one name per CIDR

  /** No CIDR has been announced under two names. */
  ghost predicate OneNamePerCIDR(log: seq<VSwitchEvent>) {
    forall ev, ev' :: ev in log && ev' in log && ev.vs.podCIDR == ev'.vs.podCIDR ==> ev.vs.name == ev'.vs.name
  }

  /** `c` is the CIDR of some name's latest event. */
  ghost predicate Current(n: Node, log: seq<VSwitchEvent>, c: Cidr) {
    Announced(n, Latest(log), c)
  }

  /** Forgetting a name leaves the CIDRs it never announced as they are. */
  lemma {:induction false} ForgetOther(n: Node, pr: Proto, log: seq<VSwitchEvent>, name: string, d: Cidr)
    requires Clean(n, log)
    requires forall ev :: ev in log && ev.vs.podCIDR == Some(d) ==> ev.vs.name != name
    ensures d in Remotes(n, pr, Without(log, name)) <==> d in Remotes(n, pr, log)
    ensures d in Remotes(n, pr, log) ==> Remotes(n, pr, Without(log, name))[d] == Remotes(n, pr, log)[d]
  {
    if log != [] {
      var before, ev := log[..|log| - 1], log[|log| - 1];
      assert log == before + [ev];
      ForgetOther(n, pr, before, name, d);
      RemotesSnoc(n, pr, before, ev);
      RemotesSnoc(n, pr, Without(before, name), ev);
    }
  }

  /** What the latest events map a CIDR to is what the whole history maps it to. */
  lemma {:induction false} LatestAgrees(n: Node, pr: Proto, log: seq<VSwitchEvent>, d: Cidr)
    requires Clean(n, log) && OneNamePerCIDR(log)
    requires d in Remotes(n, pr, Latest(log))
    ensures d in Remotes(n, pr, log) && Remotes(n, pr, Latest(log))[d] == Remotes(n, pr, log)[d]
  {
    var before, ev := log[..|log| - 1], log[|log| - 1];
    assert log == before + [ev];
    LatestIsSubset(before);
    var kept := Without(Latest(before), ev.vs.name);
    WithoutIsSubset(Latest(before), ev.vs.name);
    RemotesSnoc(n, pr, before, ev);
    RemotesSnoc(n, pr, kept, ev);
    if !(Remote(n, ev) && ev.vs.podCIDR.value == d) {
      RemotesAreAnnounced(n, pr, kept, d);
      var e :| e in kept && Announces(n, e, d);
      assert e in log && e.vs.name != ev.vs.name;
      ForgetOther(n, pr, Latest(before), ev.vs.name, d);
      LatestAgrees(n, pr, before, d);
    }
  }

  /** Every announced CIDR that covers an overlay address is still current. */
  ghost predicate NoneAbandoned(n: Node, log: seq<VSwitchEvent>) {
    forall c, a :: Announced(n, log, c) && c.Contains(a) && OverlayAddress(n, a) ==> Current(n, log, c)
  }

  /** If no CIDR was ever announced under two names, a CIDR is still routed exactly when it is the
      CIDR of some latest event: forwarding depends on the latest events alone exactly when no
      abandoned CIDR covers an overlay address. */
  lemma NoneAbandonedExactlyWhen(n: Node, run: seq<State>, steps: seq<Step>, i: nat,
                                 run': seq<State>, steps': seq<Step>, i': nat)
    requires Twins(n, run, steps, i, run', steps', i') && OneNamePerCIDR(run[i].vlog)
    ensures SameForwarding(n, run[i], run'[i']) <==> NoneAbandoned(n, run[i].vlog)
  {
    var log := run[i].vlog;
    LatestIsSubset(log);
    forall c | Announced(n, log, c)
      ensures StillRouted(n, log, c) <==> Current(n, log, c)
    {
      RemotesAreAnnounced(n, IP, log, c);
      RemotesAreAnnounced(n, IP, Latest(log), c);
      if Current(n, log, c) {
        LatestAgrees(n, IP, log, c);
      }
    }
    HistoryIndependenceExactlyWhen(n, run, steps, i, run', steps', i');
  }

  // ---------------------------------------------------------------- histories that are not forgotten

  const NODE: Node := Node("node-a", 0x6460_0101, "02:00:00:00:00:01",
                           Cidr(0x6460_0100, 24), Cidr(0x6460_0000, 11), 1, 2)
  const OLD: Cidr := Cidr(0x6460_0200, 24)
  const NEW: Cidr := Cidr(0x6460_0300, 24)

  const B_OLD: VSwitchEvent := VSwitchEvent(VSwitch("node-b", Some(OLD), 0x0A00_0002, 100), true, true, true)
  const B_NEW: VSwitchEvent := VSwitchEvent(VSwitch("node-b", Some(NEW), 0x0A00_0002, 100), true, true, true)
  const C_OLD: VSwitchEvent := VSwitchEvent(VSwitch("node-c", Some(OLD), 0x0A00_0003, 101), true, true, true)

  /** node-b first holds 100.96.2.0/24 and later 100.96.3.0/24. */
  const RENUMBERED: seq<VSwitchEvent> := [B_OLD, B_NEW]

  /** 100.96.2.0/24 passes from node-c to node-b, which then gives it up. */
  const PASSED_ON: seq<VSwitchEvent> := [C_OLD, B_OLD, B_NEW]

  lemma ExampleCidrs()
    ensures !Overlap(OLD, NEW) && OLD.Contains(OLD.base) && OverlayAddress(NODE, OLD.base)
  {
    assert Mask(OLD.base, 8) != Mask(NEW.base, 8);
  }

  lemma ExampleAnnounced(log: seq<VSwitchEvent>, c: Cidr)
    requires log == RENUMBERED || log == PASSED_ON
    ensures Announced(NODE, log, c) <==> c == OLD || c == NEW
  {
    assert B_OLD in log && B_NEW in log;
    assert Announces(NODE, B_OLD, OLD) && Announces(NODE, B_NEW, NEW);
  }

  lemma ExampleLatest()
    ensures Latest(RENUMBERED) == [B_NEW] && Latest(PASSED_ON) == [C_OLD, B_NEW]
  {
    assert RENUMBERED[..1] == [B_OLD] && PASSED_ON[..2] == [C_OLD, B_OLD] && [C_OLD, B_OLD][..1] == [C_OLD];
    assert Latest([B_OLD]) == [B_OLD] && Latest([C_OLD]) == [C_OLD];
    assert Without([B_OLD], "node-b") == [] && Without([C_OLD], "node-b") == [C_OLD];
    assert Latest([C_OLD, B_OLD]) == [C_OLD, B_OLD];
    assert Without([C_OLD, B_OLD], "node-b") == [C_OLD];
  }

  lemma RenumberedNotRouted()
    ensures !StillRouted(NODE, RENUMBERED, OLD)
  {
    ExampleLatest();
    RemotesAreAnnounced(NODE, IP, [B_NEW], OLD);
  }

  lemma PassedOnElsewhere()
    ensures !StillRouted(NODE, PASSED_ON, OLD) && NoneAbandoned(NODE, PASSED_ON)
  {
    ExampleLatest();
    assert PASSED_ON == [C_OLD] + [B_OLD] + [B_NEW];
    RemotesSnoc(NODE, IP, [C_OLD] + [B_OLD], B_NEW);
    RemotesSnoc(NODE, IP, [C_OLD], B_OLD);
    assert [C_OLD, B_NEW] == [] + [C_OLD] + [B_NEW];
    RemotesSnoc(NODE, IP, [] + [C_OLD], B_NEW);
    RemotesSnoc(NODE, IP, [], C_OLD);
    forall c | Announced(NODE, PASSED_ON, c)
      ensures Current(NODE, PASSED_ON, c)
    {
      ExampleAnnounced(PASSED_ON, c);
      assert Announces(NODE, C_OLD, OLD) && Announces(NODE, B_NEW, NEW);
    }
  }

  lemma ExampleDiffers(log: seq<VSwitchEvent>)
    returns (run: seq<State>, steps: seq<Step>, run': seq<State>, steps': seq<Step>)
    requires log == RENUMBERED || log == PASSED_ON
    requires !StillRouted(NODE, log, OLD)
    ensures IsRun(NODE, run, steps) && Drained(Last(run)) && Last(run).vlog == log
    ensures IsRun(NODE, run', steps') && Drained(Last(run')) && Last(run').vlog == Latest(log)
    ensures !SameForwarding(NODE, Last(run), Last(run'))
  {
    ExampleCidrs();
    forall c
      ensures Announced(NODE, log, c) <==> c == OLD || c == NEW
    {
      ExampleAnnounced(log, c);
    }
    run, steps := EveryHistorySettles(NODE, log, []);
    run', steps' := EveryHistorySettles(NODE, Latest(log), []);
    assert Clean(NODE, log);
    LostRouteDiffers(NODE, run, steps, |run| - 1, run', steps', |run'| - 1);
  }

  /** Shown on a concrete history: a vswitch that changes its pod CIDR leaves its old CIDR in the
      tables, so that forwarding differs from that of its latest configuration. */
  lemma RenumberedVSwitchDiffers()
    returns (run: seq<State>, steps: seq<Step>, run': seq<State>, steps': seq<Step>)
    ensures IsRun(NODE, run, steps) && Drained(Last(run)) && Last(run).vlog == RENUMBERED
    ensures IsRun(NODE, run', steps') && Drained(Last(run')) && Last(run').vlog == Latest(RENUMBERED)
    ensures !SameForwarding(NODE, Last(run), Last(run'))
  {
    RenumberedNotRouted();
    run, steps, run', steps' := ExampleDiffers(RENUMBERED);
  }

  /** With one CIDR under two names it is not enough that no CIDR is abandoned: what node-b
      announced last for the CIDR outlives its latest configuration. */
  lemma PassedOnCIDRDiffers()
    returns (run: seq<State>, steps: seq<Step>, run': seq<State>, steps': seq<Step>)
    ensures IsRun(NODE, run, steps) && Drained(Last(run)) && Last(run).vlog == PASSED_ON
    ensures IsRun(NODE, run', steps') && Drained(Last(run')) && Last(run').vlog == Latest(PASSED_ON)
    ensures NoneAbandoned(NODE, PASSED_ON) && !SameForwarding(NODE, Last(run), Last(run'))
  {
    PassedOnElsewhere();
    run, steps, run', steps' := ExampleDiffers(PASSED_ON);
  }
}
