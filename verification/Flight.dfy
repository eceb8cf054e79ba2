/** While flows are in flight: what has arrived at the bridge of a node at any time. */
module Flight {
  import opened Flows
  import opened Views
  import opened Channel
  import opened NodeMachine

  // ---------------------------------------------------------------- arrival in order

  /** Of what was sent, the queue holds a suffix, and what has arrived looks like a prefix: all that
      left the queue, and perhaps the head, which may have arrived without being removed. */
  ghost predicate InOrder(arrived: seq<Entry>, queued: seq<Entry>, sent: seq<Entry>) {
    && |queued| <= |sent|
    && queued == sent[|sent| - |queued|..]
    && exists l :: IsPrefixView(arrived, queued, sent, l)
  }

  ghost predicate IsPrefixView(arrived: seq<Entry>, queued: seq<Entry>, sent: seq<Entry>, l: nat) {
    && |sent| - |queued| <= l <= |sent| - |queued| + 1
    && l <= |sent|
    && ViewOf(arrived) == ViewOf(sent[..l])
  }

  lemma EnqueueInOrder(arrived: seq<Entry>, queued: seq<Entry>, sent: seq<Entry>, c: seq<Entry>)
    requires InOrder(arrived, queued, sent)
    ensures InOrder(arrived, queued + c, sent + c)
  {
    var l: nat :| IsPrefixView(arrived, queued, sent, l);
    assert (sent + c)[..l] == sent[..l];
    assert IsPrefixView(arrived, queued + c, sent + c, l);
  }

  lemma {:induction false} HeadView(arrived: seq<Entry>, e: Entry, sent: seq<Entry>, d: nat, l: nat)
    requires d < |sent| && sent[d] == e && d <= l <= d + 1 && ViewOf(arrived) == ViewOf(sent[..l])
    ensures ViewOf(arrived + [e]) == ViewOf(sent[..d + 1])
  {
    var before := sent[..d];
    assert sent[..d + 1] == before + [e];
    ViewOfSnoc(before, e);
    ViewOfSnoc(arrived, e);
    if l == d + 1 {
      AddTwice(ViewOf(before), e);
    }
  }

  /** The head arrives, once or again. */
  lemma DeliverInOrder(arrived: seq<Entry>, c: seq<Entry>, rest: seq<Entry>, sent: seq<Entry>)
    requires |c| <= 1 && InOrder(arrived, c + rest, sent)
    ensures InOrder(arrived + c, rest, sent) && InOrder(arrived + c, c + rest, sent)
  {
    if c == [] {
      assert c + rest == rest && arrived + c == arrived;
    } else {
      var l: nat :| IsPrefixView(arrived, c + rest, sent, l);
      var d := |sent| - |c + rest|;
      assert sent[d] == (c + rest)[0] == c[0] && c == [c[0]];
      assert rest == (c + rest)[1..] == sent[d..][1..] == sent[d + 1..];
      HeadView(arrived, c[0], sent, d, l);
      assert IsPrefixView(arrived + c, rest, sent, d + 1);
      assert IsPrefixView(arrived + c, c + rest, sent, d + 1);
    }
  }

  /** The handler sends nothing of an event before it has installed everything. */
  ghost predicate Phase(n: Node, toInstall: seq<Entry>, toSend: seq<Entry>, vlog: seq<VSwitchEvent>) {
    if vlog == [] then toInstall == [] && toSend == []
    else
      var ev := vlog[|vlog| - 1];
      && |toInstall| <= |Installs(n, ev)| && |toSend| <= |Sends(n, ev)|
      && (toInstall != [] ==> |toSend| == |Sends(n, ev)|)
  }

  ghost predicate KindInOrder(k: Kind, arrived: seq<Entry>, queued: seq<Entry>, sent: seq<Entry>) {
    InOrder(Only(k, arrived), Only(k, queued), Only(k, sent))
  }

  ghost predicate FlightInv(n: Node, s: State) {
    && KindInOrder(ProgramKind, s.arrived, Entries(s.queue), Entries(s.sent))
    && KindInOrder(PodKind, s.arrived, Entries(s.queue), Entries(s.sent))
    && Phase(n, s.toInstall, s.toSend, s.vlog)
  }

  lemma EnqueueKind(k: Kind, s: State, m: Msg)
    requires KindInOrder(k, s.arrived, Entries(s.queue), Entries(s.sent))
    ensures KindInOrder(k, s.arrived, Entries(Enqueue(s, m).queue), Entries(Enqueue(s, m).sent))
  {
    EntriesConcat(s.queue, [m]);
    EntriesConcat(s.sent, [m]);
    OnlyConcat(k, Entries(s.queue), Entries([m]));
    OnlyConcat(k, Entries(s.sent), Entries([m]));
    EnqueueInOrder(Only(k, s.arrived), Only(k, Entries(s.queue)), Only(k, Entries(s.sent)), Only(k, Entries([m])));
  }

  lemma WriteKind(k: Kind, s: State, t: Transfer)
    requires s.queue != [] && KindInOrder(k, s.arrived, Entries(s.queue), Entries(s.sent))
    ensures var s' := AfterWrite(s, t); KindInOrder(k, s'.arrived, Entries(s'.queue), Entries(s'.sent))
  {
    if t.Lost? {
      assert s.arrived + [] == s.arrived;
    } else {
      var c, rest := Carried(s.queue[0]), Entries(s.queue[1..]);
      EntriesHead(s.queue);
      EntriesOne(s.queue[0]);
      OnlyConcat(k, c, rest);
      OnlyConcat(k, s.arrived, c);
      OnlyOne(k, c);
      DeliverInOrder(Only(k, s.arrived), Only(k, c), Only(k, rest), Only(k, Entries(s.sent)));
    }
  }

  lemma {:induction false} InstallOther(k: Kind, s: State)
    requires s.toInstall != [] && KindOf(s.toInstall[0]) != k
    ensures Only(k, AfterInstall(s).arrived) == Only(k, s.arrived)
  {
    OnlyConcat(k, s.arrived, [s.toInstall[0]]);
    OnlyOne(k, [s.toInstall[0]]);
  }

  lemma OrderStep(k: Kind, n: Node, s: State, step: Step, s': State)
    requires k != TunnelKind && AllOf(TunnelKind, s.toInstall) && Next(n, s, step, s')
    requires KindInOrder(k, s.arrived, Entries(s.queue), Entries(s.sent))
    ensures KindInOrder(k, s'.arrived, Entries(s'.queue), Entries(s'.sent))
  {
    match step
    case VSwitchStart(ev) =>
    case VSwitchInstall => InstallOther(k, s);
    case VSwitchSend => EnqueueKind(k, s, Flow(s.toSend[0]));
    case PodStart(ev) =>
    case PodSend => EnqueueKind(k, s, Flow(s.podToSend[0]));
    case Reply(m) => EnqueueKind(k, s, m);
    case Write(t) => WriteKind(k, s, t);
  }

  lemma PhaseStep(n: Node, s: State, step: Step, s': State)
    requires Next(n, s, step, s') && Phase(n, s.toInstall, s.toSend, s.vlog)
    ensures Phase(n, s'.toInstall, s'.toSend, s'.vlog)
  {
  }

  lemma FlightStep(n: Node, s: State, step: Step, s': State)
    requires AllOf(TunnelKind, s.toInstall) && FlightInv(n, s) && Next(n, s, step, s')
    ensures FlightInv(n, s')
  {
    OrderStep(ProgramKind, n, s, step, s');
    OrderStep(PodKind, n, s, step, s');
    PhaseStep(n, s, step, s');
  }

  lemma InOrderAtFirst(sent: seq<Entry>)
    ensures InOrder([], sent, sent)
  {
    assert sent[..0] == [];
    assert IsPrefixView([], sent, sent, 0);
  }

  lemma FlightInit(n: Node, s: State)
    requires Init(s)
    ensures FlightInv(n, s)
  {
    InOrderAtFirst(Only(ProgramKind, Entries(s.sent)));
    InOrderAtFirst(Only(PodKind, Entries(s.sent)));
  }

  ghost predicate Flying(n: Node, s: State) {
    Inv(n, s) && FlightInv(n, s)
  }

  lemma KeepsFlying(n: Node, s: State, step: Step, s': State)
    requires Flying(n, s) && Next(n, s, step, s')
    ensures Flying(n, s')
  {
    NextKeeps(n, s, step, s');
    FlightStep(n, s, step, s');
  }

  /** Induction over runs. */
  lemma {:induction false} Invariant(n: Node, run: seq<State>, steps: seq<Step>, i: nat, holds: State -> bool)
    requires IsRun(n, run, steps) && i < |run| && holds(run[0])
    requires forall s, step, s' :: holds(s) && Next(n, s, step, s') ==> holds(s')
    ensures holds(run[i])
  {
    if i > 0 {
      Invariant(n, run, steps, i - 1, holds);
      var step := steps[i - 1];
      assert Next(n, run[i - 1], step, run[i]);
    }
  }

  lemma RunKeepsFlying(n: Node, run: seq<State>, steps: seq<Step>, i: nat)
    requires IsRun(n, run, steps) && i < |run|
    ensures Flying(n, run[i])
  {
    InitInv(n, run[0]);
    FlightInit(n, run[0]);
    forall s, step, s' | Flying(n, s) && Next(n, s, step, s')
      ensures Flying(n, s')
    {
      KeepsFlying(n, s, step, s');
    }
    Invariant(n, run, steps, i, s => Flying(n, s));
  }

  lemma PrefixView(arrived: seq<Entry>, queued: seq<Entry>, sent: seq<Entry>, all: seq<Entry>) returns (l: nat)
    requires InOrder(arrived, queued, sent) && sent <= all
    ensures |sent| - |queued| <= l <= |sent| && ViewOf(arrived) == ViewOf(all[..l])
  {
    l :| IsPrefixView(arrived, queued, sent, l);
    assert sent[..l] == all[..l];
  }
}
