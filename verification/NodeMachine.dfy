/** One node as a step system. The vswitch handler, the pod handler, the reply loop and the
    queue consumer run concurrently; table 40 tunnel entries reach the bridge at once through
    `ovs-ofctl`, everything else travels through the send queue and may be delivered again
    after a failed write. */
module NodeMachine {
  import opened Addresses
  import opened OpenFlow
  import opened Flows
  import opened Views
  import opened Routing
  import opened Safety
  import opened Channel

  datatype Msg = Hello | EchoReply | FeaturesRequest | Flow(entry: Entry)

  /** `arrived` is everything that has reached the bridge, by either route, in order.
      `toInstall` and `toSend` are what the current vswitch handler call still has to do, `podToSend`
      what the current pod handler call still has to do. `sent`, `vlog` and `plog` are history. */
  datatype State = State(queue: seq<Msg>, arrived: seq<Entry>,
                         toInstall: seq<Entry>, toSend: seq<Entry>, podToSend: seq<Entry>,
                         sent: seq<Msg>, vlog: seq<VSwitchEvent>, plog: seq<PodEvent>)

  function FlowMsgs(es: seq<Entry>): seq<Msg> {
    if es == [] then [] else [Flow(es[0])] + FlowMsgs(es[1..])
  }

  /** The entries carried by messages. */
  function Entries(msgs: seq<Msg>): seq<Entry> {
    if msgs == [] then []
    else Entries(msgs[..|msgs| - 1]) + Carried(msgs[|msgs| - 1])
  }

  function Carried(m: Msg): seq<Entry> {
    if m.Flow? then [m.entry] else []
  }

  /** Start-up sends HELLO and the default flows before any informer or the consumer runs. */
  function StartUp(): seq<Msg> {
    [Hello] + FlowMsgs(DefaultEntries())
  }

  ghost predicate Init(s: State) {
    s == State(StartUp(), [], [], [], [], StartUp(), [], [])
  }

  datatype Step =
    | VSwitchStart(vev: VSwitchEvent)
    | VSwitchInstall
    | VSwitchSend
    | PodStart(pev: PodEvent)
    | PodSend
    | Reply(m: Msg)
    | Write(t: Transfer)

  function Enqueue(s: State, m: Msg): State {
    s.(queue := s.queue + [m], sent := s.sent + [m])
  }

  function AfterInstall(s: State): State
    requires s.toInstall != []
  {
    s.(arrived := s.arrived + [s.toInstall[0]], toInstall := s.toInstall[1..])
  }

  function AfterVSwitchSend(s: State): State
    requires s.toSend != []
  {
    Enqueue(s, Flow(s.toSend[0])).(toSend := s.toSend[1..])
  }

  function AfterPodSend(s: State): State
    requires s.podToSend != []
  {
    Enqueue(s, Flow(s.podToSend[0])).(podToSend := s.podToSend[1..])
  }

  function AfterWrite(s: State, t: Transfer): State
    requires s.queue != []
  {
    s.(queue := Rest(s.queue, t), arrived := s.arrived + Entries(Reached(s.queue, t)))
  }

  ghost predicate Next(n: Node, s: State, step: Step, s': State) {
    match step
    case VSwitchStart(ev) =>
      && s.toInstall == [] && s.toSend == []
      && s' == s.(toInstall := Installs(n, ev), toSend := Sends(n, ev), vlog := s.vlog + [ev])
    case VSwitchInstall =>
      s.toInstall != [] && s' == AfterInstall(s)
    case VSwitchSend =>
      s.toInstall == [] && s.toSend != [] && s' == AfterVSwitchSend(s)
    case PodStart(ev) =>
      && s.podToSend == []
      && s' == s.(podToSend := PodSends(n, ev), plog := s.plog + [ev])
    case PodSend =>
      s.podToSend != [] && s' == AfterPodSend(s)
    case Reply(m) =>
      && (m.EchoReply? || m.FeaturesRequest?)
      && s' == Enqueue(s, m)
    case Write(t) =>
      s.queue != [] && s' == AfterWrite(s, t)
  }

  ghost predicate IsRun(n: Node, run: seq<State>, steps: seq<Step>) {
    && |run| == |steps| + 1
    && Init(run[0])
    && forall i {:trigger steps[i]} :: 0 <= i < |steps| ==> Next(n, run[i], steps[i], run[i + 1])
  }

  // ---------------------------------------------------------------- kinds of entries

  datatype Kind = TunnelKind | PodKind | ProgramKind

  function KindOf(e: Entry): Kind {
    if e.Tunnel? then TunnelKind
    else if e.PodIP? || e.PodARP? then PodKind
    else ProgramKind
  }

  function Only(k: Kind, log: seq<Entry>): seq<Entry> {
    if log == [] then []
    else Only(k, log[..|log| - 1]) + (if KindOf(log[|log| - 1]) == k then [log[|log| - 1]] else [])
  }

  ghost predicate AllOf(k: Kind, log: seq<Entry>) {
    forall e :: e in log ==> KindOf(e) == k
  }

  lemma {:induction false} OnlyConcat(k: Kind, a: seq<Entry>, b: seq<Entry>)
    ensures Only(k, a + b) == Only(k, a) + Only(k, b)
    decreases |b|
  {
    if b == [] {
      assert a + b == a;
    } else {
      var last := |b| - 1;
      assert (a + b)[..|a| + last] == a + b[..last];
      OnlyConcat(k, a, b[..last]);
    }
  }

  lemma {:induction false} OnlyOfKind(k: Kind, k': Kind, log: seq<Entry>)
    requires AllOf(k', log)
    ensures Only(k, log) == if k == k' then log else []
  {
    if log != [] {
      var last := |log| - 1;
      assert log == log[..last] + [log[last]];
      OnlyOfKind(k, k', log[..last]);
    }
  }

  /** `v` and `w` agree on the component that entries of kind `k` write. */
  predicate Agree(k: Kind, v: View, w: View) {
    match k
    case TunnelKind => v.tunnels == w.tunnels
    case PodKind => v.podsIP == w.podsIP && v.podsARP == w.podsARP
    case ProgramKind => v.plain == w.plain && v.overlay == w.overlay
  }

  lemma {:induction false} ViewOfSnoc(log: seq<Entry>, e: Entry)
    ensures ViewOf(log + [e]) == Add(ViewOf(log), e)
  {
  }

  lemma AgreeAdd(k: Kind, v: View, w: View, e: Entry)
    requires Agree(k, v, w)
    ensures Agree(k, Add(v, e), Add(w, e))
    ensures KindOf(e) != k ==> Agree(k, Add(v, e), w)
  {
  }

  /** Each component of a view is decided by the entries of one kind. */
  lemma {:induction false} KindsAreSeparate(k: Kind, log: seq<Entry>)
    ensures Agree(k, ViewOf(log), ViewOf(Only(k, log)))
  {
    if log != [] {
      var last := |log| - 1;
      KindsAreSeparate(k, log[..last]);
      AgreeAdd(k, ViewOf(log[..last]), ViewOf(Only(k, log[..last])), log[last]);
      if KindOf(log[last]) == k {
        ViewOfSnoc(Only(k, log[..last]), log[last]);
      } else {
        assert Only(k, log) == Only(k, log[..last]);
      }
    }
  }

  lemma {:induction false} EntriesConcat(a: seq<Msg>, b: seq<Msg>)
    ensures Entries(a + b) == Entries(a) + Entries(b)
    decreases |b|
  {
    if b == [] {
      assert a + b == a;
    } else {
      var last := |b| - 1;
      assert (a + b)[..|a| + last] == a + b[..last];
      EntriesConcat(a, b[..last]);
    }
  }

  lemma EntriesOne(m: Msg)
    ensures Entries([m]) == Carried(m)
  {
  }

  lemma {:induction false} EntriesHead(q: seq<Msg>)
    requires q != []
    ensures Entries(q) == Carried(q[0]) + Entries(q[1..])
  {
    assert q == [q[0]] + q[1..];
    EntriesConcat([q[0]], q[1..]);
    EntriesOne(q[0]);
  }

  lemma {:induction false} StartUpEntries(es: seq<Entry>)
    ensures Entries(FlowMsgs(es)) == es
  {
    if es != [] {
      StartUpEntries(es[1..]);
      EntriesHead(FlowMsgs(es));
    }
  }

  // ---------------------------------------------------------------- history functions

  function InstallsAll(n: Node, vlog: seq<VSwitchEvent>): seq<Entry> {
    if vlog == [] then [] else InstallsAll(n, vlog[..|vlog| - 1]) + Installs(n, vlog[|vlog| - 1])
  }

  function SendsAll(n: Node, vlog: seq<VSwitchEvent>): seq<Entry> {
    if vlog == [] then DefaultEntries() else SendsAll(n, vlog[..|vlog| - 1]) + Sends(n, vlog[|vlog| - 1])
  }

  function PodSendsAll(n: Node, plog: seq<PodEvent>): seq<Entry> {
    if plog == [] then [] else PodSendsAll(n, plog[..|plog| - 1]) + PodSends(n, plog[|plog| - 1])
  }

  // ---------------------------------------------------------------- invariant

  /** An entry sent for a remote CIDR has its tunnel among `log`. */
  ghost predicate HasTunnel(log: seq<Entry>, e: Entry) {
    e.Overlay? ==> exists ip :: Tunnel(e.proto, e.cidr, e.id, ip) in log
  }

  ghost predicate Ready(log: seq<Entry>, es: seq<Entry>) {
    forall e :: e in es ==> HasTunnel(log, e)
  }

  ghost predicate NoTunnels(es: seq<Entry>) {
    forall e :: e in es ==> KindOf(e) != TunnelKind
  }

  /** What has arrived and is still queued adds up to what was sent, for entries of kind `k`,
      however often the head was delivered again. */
  ghost predicate Adds(k: Kind, arrived: seq<Entry>, queued: seq<Entry>, sent: seq<Entry>) {
    ViewOf(Only(k, arrived) + Only(k, queued)) == ViewOf(Only(k, sent))
  }

  /** The queue is a suffix of what was sent, which begins with `first`. */
  ghost predicate Queued(first: seq<Msg>, queue: seq<Msg>, sent: seq<Msg>) {
    && first <= sent
    && |queue| <= |sent|
    && queue == sent[|sent| - |queue|..]
  }

  /** The bridge: what has reached it, what is on its way through the queue, and what was sent. */
  ghost predicate BridgeInv(arrived: seq<Entry>, queued: seq<Entry>, sent: seq<Entry>) {
    && Ready(arrived, arrived) && Ready(arrived, queued)
    && NoTunnels(queued)
    && Adds(ProgramKind, arrived, queued, sent) && Adds(PodKind, arrived, queued, sent)
  }

  ghost predicate VSwitchInv(n: Node, arrived: seq<Entry>, sent: seq<Entry>,
                             toInstall: seq<Entry>, toSend: seq<Entry>, vlog: seq<VSwitchEvent>) {
    && AllOf(TunnelKind, toInstall) && AllOf(ProgramKind, toSend)
    && Ready(arrived + toInstall, toSend)
    && Only(TunnelKind, arrived) + toInstall == InstallsAll(n, vlog)
    && Only(ProgramKind, sent) + toSend == SendsAll(n, vlog)
  }

  ghost predicate PodInv(n: Node, sent: seq<Entry>, podToSend: seq<Entry>, plog: seq<PodEvent>) {
    && AllOf(PodKind, podToSend)
    && Only(PodKind, sent) + podToSend == PodSendsAll(n, plog)
  }

  ghost predicate Inv(n: Node, s: State) {
    && BridgeInv(s.arrived, Entries(s.queue), Entries(s.sent))
    && VSwitchInv(n, s.arrived, Entries(s.sent), s.toInstall, s.toSend, s.vlog)
    && PodInv(n, Entries(s.sent), s.podToSend, s.plog)
    && Queued(StartUp(), s.queue, s.sent)
  }

  // ---------------------------------------------------------------- facts about logs

  lemma {:induction false} OnlyOne(k: Kind, c: seq<Entry>)
    requires |c| <= 1
    ensures Only(k, c) == if c != [] && KindOf(c[0]) == k then c else []
  {
  }

  lemma {:induction false} OnlySnoc(k: Kind, log: seq<Entry>, e: Entry)
    requires KindOf(e) == k
    ensures Only(k, log + [e]) == Only(k, log) + [e]
  {
  }

  lemma HeadOfKind(k: Kind, e: Entry, rest: seq<Entry>)
    requires AllOf(k, [e] + rest)
    ensures KindOf(e) == k && AllOf(k, rest)
  {
  }

  lemma AddTwice(v: View, e: Entry)
    ensures Add(Add(v, e), e) == Add(v, e)
  {
  }

  lemma {:induction false} SameViewAppend(a: seq<Entry>, b: seq<Entry>, es: seq<Entry>)
    requires ViewOf(a) == ViewOf(b)
    ensures ViewOf(a + es) == ViewOf(b + es)
  {
    AddAllExtendsLog(a, es);
    AddAllExtendsLog(b, es);
  }

  /** Delivering the head, once or again, does not change what the log adds up to. */
  lemma {:induction false} DeliveryIsIdempotent(a: seq<Entry>, h: seq<Entry>, q: seq<Entry>)
    requires |h| <= 1
    ensures ViewOf(a + h + q) == ViewOf(a + (h + q)) == ViewOf(a + h + (h + q))
  {
    Assoc(a, h, q);
    Assoc(a + h, h, q);
    if |h| == 1 {
      assert h == [h[0]];
      ViewOfSnoc(a, h[0]);
      ViewOfSnoc(a + h, h[0]);
      AddTwice(ViewOf(a), h[0]);
    } else {
      assert a + h + h == a + h;
    }
    SameViewAppend(a + h + h, a + h, q);
  }

  lemma ReadyMono(log: seq<Entry>, more: seq<Entry>, es: seq<Entry>)
    requires Ready(log, es) && forall f :: f in log ==> f in more
    ensures Ready(more, es)
  {
  }

  // ---------------------------------------------------------------- preservation, part by part

  lemma {:induction false} AppendBoth(a: seq<Entry>, q: seq<Entry>, t: seq<Entry>, d: seq<Entry>)
    requires ViewOf(a + q) == ViewOf(t)
    ensures ViewOf(a + (q + d)) == ViewOf(t + d)
  {
    SameViewAppend(a + q, t, d);
    Assoc(a, q, d);
  }

  lemma EnqueueAdds(k: Kind, arrived: seq<Entry>, queued: seq<Entry>, sent: seq<Entry>, c: seq<Entry>)
    requires Adds(k, arrived, queued, sent)
    ensures Adds(k, arrived, queued + c, sent + c)
  {
    OnlyConcat(k, queued, c);
    OnlyConcat(k, sent, c);
    AppendBoth(Only(k, arrived), Only(k, queued), Only(k, sent), Only(k, c));
  }

  lemma EnqueueBridge(arrived: seq<Entry>, queued: seq<Entry>, sent: seq<Entry>, c: seq<Entry>)
    requires BridgeInv(arrived, queued, sent) && Ready(arrived, c) && NoTunnels(c)
    ensures BridgeInv(arrived, queued + c, sent + c)
  {
    EnqueueAdds(ProgramKind, arrived, queued, sent, c);
    EnqueueAdds(PodKind, arrived, queued, sent, c);
    assert Ready(arrived, queued + c) && NoTunnels(queued + c);
  }

  lemma DeliverAdds(k: Kind, arrived: seq<Entry>, c: seq<Entry>, rest: seq<Entry>, sent: seq<Entry>)
    requires |c| <= 1 && Adds(k, arrived, c + rest, sent)
    ensures Adds(k, arrived + c, rest, sent) && Adds(k, arrived + c, c + rest, sent)
  {
    OnlyConcat(k, c, rest);
    OnlyConcat(k, arrived, c);
    OnlyOne(k, c);
    DeliveryIsIdempotent(Only(k, arrived), Only(k, c), Only(k, rest));
  }

  lemma DeliverBridge(arrived: seq<Entry>, c: seq<Entry>, rest: seq<Entry>, sent: seq<Entry>)
    requires |c| <= 1 && BridgeInv(arrived, c + rest, sent)
    ensures BridgeInv(arrived + c, rest, sent) && BridgeInv(arrived + c, c + rest, sent)
  {
    DeliverAdds(ProgramKind, arrived, c, rest, sent);
    DeliverAdds(PodKind, arrived, c, rest, sent);
    assert forall e :: e in c || e in rest ==> e in c + rest;
    assert Ready(arrived, arrived + c) && Ready(arrived, rest);
    ReadyMono(arrived, arrived + c, arrived + c);
    ReadyMono(arrived, arrived + c, c + rest);
    ReadyMono(arrived, arrived + c, rest);
  }

  lemma InstallAdds(k: Kind, arrived: seq<Entry>, e: Entry, queued: seq<Entry>, sent: seq<Entry>)
    requires k != KindOf(e) && Adds(k, arrived, queued, sent)
    ensures Adds(k, arrived + [e], queued, sent)
  {
    OnlyConcat(k, arrived, [e]);
    OnlyOne(k, [e]);
    assert Only(k, arrived + [e]) == Only(k, arrived);
  }

  lemma InstallBridge(arrived: seq<Entry>, e: Entry, queued: seq<Entry>, sent: seq<Entry>)
    requires e.Tunnel? && BridgeInv(arrived, queued, sent)
    ensures BridgeInv(arrived + [e], queued, sent)
  {
    InstallAdds(ProgramKind, arrived, e, queued, sent);
    InstallAdds(PodKind, arrived, e, queued, sent);
    assert Ready(arrived, arrived + [e]);
    ReadyMono(arrived, arrived + [e], arrived + [e]);
    ReadyMono(arrived, arrived + [e], queued);
  }

  /** What a handler installs covers what it goes on to send. */
  lemma EventCoversItself(n: Node, ev: VSwitchEvent)
    ensures AllOf(TunnelKind, Installs(n, ev)) && AllOf(ProgramKind, Sends(n, ev))
    ensures Ready(Installs(n, ev), Sends(n, ev))
  {
  }

  lemma StartVSwitch(n: Node, arrived: seq<Entry>, sent: seq<Entry>, vlog: seq<VSwitchEvent>, ev: VSwitchEvent)
    requires VSwitchInv(n, arrived, sent, [], [], vlog)
    ensures VSwitchInv(n, arrived, sent, Installs(n, ev), Sends(n, ev), vlog + [ev])
  {
    EventCoversItself(n, ev);
    ReadyMono(Installs(n, ev), arrived + Installs(n, ev), Sends(n, ev));
    assert (vlog + [ev])[..|vlog|] == vlog;
  }

  lemma InstallVSwitch(n: Node, arrived: seq<Entry>, sent: seq<Entry>, e: Entry, rest: seq<Entry>,
                       toSend: seq<Entry>, vlog: seq<VSwitchEvent>)
    requires VSwitchInv(n, arrived, sent, [e] + rest, toSend, vlog)
    ensures e.Tunnel? && VSwitchInv(n, arrived + [e], sent, rest, toSend, vlog)
  {
  }

  lemma SendVSwitch(n: Node, arrived: seq<Entry>, sent: seq<Entry>, e: Entry, rest: seq<Entry>, vlog: seq<VSwitchEvent>)
    requires VSwitchInv(n, arrived, sent, [], [e] + rest, vlog)
    ensures KindOf(e) == ProgramKind && HasTunnel(arrived, e)
    ensures VSwitchInv(n, arrived, sent + [e], [], rest, vlog)
  {
    HeadOfKind(ProgramKind, e, rest);
    OnlySnoc(ProgramKind, sent, e);
    assert arrived + [] == arrived;
    assert e in [e] + rest && forall f :: f in rest ==> f in [e] + rest;
    Assoc(Only(ProgramKind, sent), [e], rest);
  }

  /** Entries of other kinds do not disturb the vswitch handler's account. */
  lemma OthersArrive(n: Node, arrived: seq<Entry>, a: seq<Entry>, sent: seq<Entry>,
                     toInstall: seq<Entry>, toSend: seq<Entry>, vlog: seq<VSwitchEvent>)
    requires VSwitchInv(n, arrived, sent, toInstall, toSend, vlog) && NoTunnels(a)
    ensures VSwitchInv(n, arrived + a, sent, toInstall, toSend, vlog)
  {
    OnlyConcat(TunnelKind, arrived, a);
    NoTunnelsOnly(a);
    assert Only(TunnelKind, arrived + a) == Only(TunnelKind, arrived);
    ReadyMono(arrived + toInstall, arrived + a + toInstall, toSend);
  }

  lemma OthersSent(n: Node, arrived: seq<Entry>, sent: seq<Entry>, t: seq<Entry>,
                   toInstall: seq<Entry>, toSend: seq<Entry>, vlog: seq<VSwitchEvent>)
    requires VSwitchInv(n, arrived, sent, toInstall, toSend, vlog) && AllOf(PodKind, t)
    ensures VSwitchInv(n, arrived, sent + t, toInstall, toSend, vlog)
  {
    OnlyConcat(ProgramKind, sent, t);
    OnlyOfKind(ProgramKind, PodKind, t);
    assert Only(ProgramKind, sent + t) == Only(ProgramKind, sent);
  }

  lemma {:induction false} NoTunnelsOnly(a: seq<Entry>)
    requires NoTunnels(a)
    ensures Only(TunnelKind, a) == []
  {
    if a != [] {
      assert a[|a| - 1] in a;
      NoTunnelsOnly(a[..|a| - 1]);
    }
  }

  lemma StartPod(n: Node, sent: seq<Entry>, plog: seq<PodEvent>, ev: PodEvent)
    requires PodInv(n, sent, [], plog)
    ensures PodInv(n, sent, PodSends(n, ev), plog + [ev])
  {
  }

  lemma SendPod(n: Node, sent: seq<Entry>, e: Entry, rest: seq<Entry>, plog: seq<PodEvent>)
    requires PodInv(n, sent, [e] + rest, plog)
    ensures KindOf(e) == PodKind && PodInv(n, sent + [e], rest, plog)
  {
  }

  lemma OthersPod(n: Node, sent: seq<Entry>, t: seq<Entry>, podToSend: seq<Entry>, plog: seq<PodEvent>)
    requires PodInv(n, sent, podToSend, plog) && AllOf(ProgramKind, t)
    ensures PodInv(n, sent + t, podToSend, plog)
  {
    OnlyConcat(PodKind, sent, t);
    OnlyOfKind(PodKind, ProgramKind, t);
    assert Only(PodKind, sent + t) == Only(PodKind, sent);
  }

  // ---------------------------------------------------------------- every step keeps the invariant

  lemma StartUpCarriesDefaults()
    ensures Entries(StartUp()) == DefaultEntries()
  {
    var q := StartUp();
    EntriesHead(q);
    assert q[1..] == FlowMsgs(DefaultEntries());
    StartUpEntries(DefaultEntries());
  }

  lemma DefaultsAreProgram()
    ensures AllOf(ProgramKind, DefaultEntries()) && Ready([], DefaultEntries())
  {
  }

  lemma {:induction false} DefaultsInv(n: Node, es: seq<Entry>)
    requires es == SendsAll(n, []) && AllOf(ProgramKind, es) && Ready([], es)
    ensures BridgeInv([], es, es) && VSwitchInv(n, [], es, [], [], []) && PodInv(n, es, [], [])
  {
    OnlyOfKind(ProgramKind, ProgramKind, es);
    OnlyOfKind(PodKind, ProgramKind, es);
    assert [] + es == es;
    assert NoTunnels(es);
  }

  lemma InitInv(n: Node, s: State)
    requires Init(s)
    ensures Inv(n, s)
  {
    StartUpCarriesDefaults();
    DefaultsAreProgram();
    DefaultsInv(n, DefaultEntries());
    assert s.sent == s.sent[0..];
  }

  lemma EnqueueQueued(first: seq<Msg>, queue: seq<Msg>, sent: seq<Msg>, m: Msg)
    requires Queued(first, queue, sent)
    ensures Queued(first, queue + [m], sent + [m])
  {
  }

  lemma EnqueueEntries(s: State, m: Msg)
    requires Queued(StartUp(), s.queue, s.sent)
    ensures Entries(Enqueue(s, m).queue) == Entries(s.queue) + Carried(m)
    ensures Entries(Enqueue(s, m).sent) == Entries(s.sent) + Carried(m)
    ensures Queued(StartUp(), Enqueue(s, m).queue, Enqueue(s, m).sent)
  {
    EntriesConcat(s.queue, [m]);
    EntriesConcat(s.sent, [m]);
    EntriesOne(m);
    EnqueueQueued(StartUp(), s.queue, s.sent, m);
  }

  lemma VSwitchSendKeeps(n: Node, s: State)
    requires Inv(n, s) && s.toInstall == [] && s.toSend != []
    ensures Inv(n, AfterVSwitchSend(s))
  {
    var e, s' := s.toSend[0], AfterVSwitchSend(s);
    assert s.toSend == [e] + s'.toSend;
    SendVSwitch(n, s.arrived, Entries(s.sent), e, s'.toSend, s.vlog);
    VSwitchSendBridge(n, s, e);
    EnqueueEntries(s, Flow(e));
  }

  lemma VSwitchSendBridge(n: Node, s: State, e: Entry)
    requires Inv(n, s) && KindOf(e) == ProgramKind && HasTunnel(s.arrived, e)
    ensures BridgeInv(s.arrived, Entries(s.queue) + [e], Entries(s.sent) + [e])
    ensures PodInv(n, Entries(s.sent) + [e], s.podToSend, s.plog)
  {
    EnqueueBridge(s.arrived, Entries(s.queue), Entries(s.sent), [e]);
    OthersPod(n, Entries(s.sent), [e], s.podToSend, s.plog);
  }

  lemma PodSendKeeps(n: Node, s: State)
    requires Inv(n, s) && s.podToSend != []
    ensures Inv(n, AfterPodSend(s))
  {
    var e, s' := s.podToSend[0], AfterPodSend(s);
    assert s.podToSend == [e] + s'.podToSend;
    SendPod(n, Entries(s.sent), e, s'.podToSend, s.plog);
    PodSendBridge(n, s, e);
    EnqueueEntries(s, Flow(e));
  }

  lemma PodSendBridge(n: Node, s: State, e: Entry)
    requires Inv(n, s) && KindOf(e) == PodKind
    ensures BridgeInv(s.arrived, Entries(s.queue) + [e], Entries(s.sent) + [e])
    ensures VSwitchInv(n, s.arrived, Entries(s.sent) + [e], s.toInstall, s.toSend, s.vlog)
  {
    EnqueueBridge(s.arrived, Entries(s.queue), Entries(s.sent), [e]);
    OthersSent(n, s.arrived, Entries(s.sent), [e], s.toInstall, s.toSend, s.vlog);
  }

  lemma ReplyKeeps(n: Node, s: State, m: Msg)
    requires Inv(n, s) && !m.Flow?
    ensures Inv(n, Enqueue(s, m))
  {
    EnqueueEntries(s, m);
    assert Entries(s.queue) + [] == Entries(s.queue) && Entries(s.sent) + [] == Entries(s.sent);
  }

  lemma VSwitchInstallKeeps(n: Node, s: State)
    requires Inv(n, s) && s.toInstall != []
    ensures Inv(n, AfterInstall(s))
  {
    var e, s' := s.toInstall[0], AfterInstall(s);
    assert s.toInstall == [e] + s'.toInstall;
    InstallVSwitch(n, s.arrived, Entries(s.sent), e, s'.toInstall, s.toSend, s.vlog);
    InstallBridge(s.arrived, e, Entries(s.queue), Entries(s.sent));
  }

  /** The head reaches the bridge, whether or not it is then removed from the queue. */
  lemma HeadArrives(n: Node, s: State)
    requires Inv(n, s) && s.queue != []
    ensures var arrived := s.arrived + Carried(s.queue[0]);
            && BridgeInv(arrived, Entries(s.queue), Entries(s.sent))
            && BridgeInv(arrived, Entries(s.queue[1..]), Entries(s.sent))
            && VSwitchInv(n, arrived, Entries(s.sent), s.toInstall, s.toSend, s.vlog)
  {
    var c := Carried(s.queue[0]);
    EntriesHead(s.queue);
    DeliverBridge(s.arrived, c, Entries(s.queue[1..]), Entries(s.sent));
    assert NoTunnels(c) by {
      assert forall e :: e in c ==> e in Entries(s.queue);
    }
    OthersArrive(n, s.arrived, c, Entries(s.sent), s.toInstall, s.toSend, s.vlog);
  }

  lemma DequeueQueued(first: seq<Msg>, queue: seq<Msg>, sent: seq<Msg>)
    requires Queued(first, queue, sent) && queue != []
    ensures Queued(first, queue[1..], sent)
  {
  }

  lemma WriteKeeps(n: Node, s: State, t: Transfer)
    requires Inv(n, s) && s.queue != []
    ensures Inv(n, AfterWrite(s, t))
  {
    if t.Lost? {
      assert s.arrived + [] == s.arrived;
      assert AfterWrite(s, t) == s;
    } else {
      HeadArrives(n, s);
      EntriesOne(s.queue[0]);
      DequeueQueued(StartUp(), s.queue, s.sent);
    }
  }

  lemma NextKeeps(n: Node, s: State, step: Step, s': State)
    requires Inv(n, s) && Next(n, s, step, s')
    ensures Inv(n, s')
  {
    match step
    case VSwitchStart(ev) => StartVSwitch(n, s.arrived, Entries(s.sent), s.vlog, ev);
    case VSwitchInstall => VSwitchInstallKeeps(n, s);
    case VSwitchSend => VSwitchSendKeeps(n, s);
    case PodStart(ev) => StartPod(n, Entries(s.sent), s.plog, ev);
    case PodSend => PodSendKeeps(n, s);
    case Reply(m) => ReplyKeeps(n, s, m);
    case Write(t) => WriteKeeps(n, s, t);
  }

  lemma {:induction false} StepsKeepInv(n: Node, run: seq<State>, steps: seq<Step>, i: nat)
    requires |run| == |steps| + 1 && i < |run| && Inv(n, run[0])
    requires forall j {:trigger steps[j]} :: 0 <= j < |steps| ==> Next(n, run[j], steps[j], run[j + 1])
    ensures Inv(n, run[i])
  {
    if i > 0 {
      StepsKeepInv(n, run, steps, i - 1);
      NextKeeps(n, run[i - 1], steps[i - 1], run[i]);
    }
  }

  /** The invariant holds in every state of every run. */
  lemma RunKeepsInv(n: Node, run: seq<State>, steps: seq<Step>, i: nat)
    requires IsRun(n, run, steps) && i < |run|
    ensures Inv(n, run[i])
  {
    InitInv(n, run[0]);
    StepsKeepInv(n, run, steps, i);
  }
}
