/** A whole node at the level of lock operations: the handlers of `NodeMachine` call Send of
    `Connection` one flow at a time, and what the consumer writes arrives at the bridge. */
module Composition {
  import opened Addresses
  import opened OpenFlow
  import opened Flows
  import opened Routing
  import opened Channel
  import N = NodeMachine
  import C = Connection
  import opened History
  import opened Progress

  /** The threads that send: one per informer handler. Any other sender is a reply loop. */
  const VSWITCH: nat := 0
  const POD: nat := 1

  datatype State = State(conn: C.State<N.Msg>, arrived: seq<Entry>, toInstall: seq<Entry>, toSend: seq<Entry>,
                         podToSend: seq<Entry>, vlog: seq<VSwitchEvent>, plog: seq<PodEvent>)

  datatype Step =
    | VSwitchStart(vev: VSwitchEvent)
    | VSwitchInstall
    | PodStart(pev: PodEvent)
    | CallSend(id: nat, m: N.Msg)
    | CallSet(id: nat, conn: Option<nat>)
    | SenderGoes(id: nat)
    | SetterGoes(id: nat)
    | ConsumerGoes(reached: bool, ok: bool)

  /** The process has queued HELLO and the default flows and starts its threads. */
  ghost predicate Init(s: State) {
    s == State(C.State(N.StartUp(), None, C.Free, C.Free, C.LockConn, map[], map[], N.StartUp(), [], []),
               [], [], [], [], [], [])
  }

  /** Message `m` is what thread `id` has to send next. */
  predicate Offers(s: State, id: nat, m: N.Msg) {
    if id == VSWITCH then s.toInstall == [] && s.toSend != [] && m == N.Flow(s.toSend[0])
    else if id == POD then s.podToSend != [] && m == N.Flow(s.podToSend[0])
    else m.EchoReply? || m.FeaturesRequest?
  }

  /** The thread's next operation on the connection; appending takes the message off its list. */
  function AfterSender(s: State, id: nat, conn: C.State<N.Msg>): State
    requires id in s.conn.senders
  {
    var s' := s.(conn := conn);
    if !s.conn.senders[id].SendAppend? then s'
    else if id == VSWITCH && s.toSend != [] then s'.(toSend := s.toSend[1..])
    else if id == POD && s.podToSend != [] then s'.(podToSend := s.podToSend[1..])
    else s'
  }

  /** What the consumer puts on the wire arrives. */
  function AfterConsumer(s: State, conn: C.State<N.Msg>): State
    requires |s.conn.wire| <= |conn.wire|
  {
    s.(conn := conn, arrived := s.arrived + N.Entries(conn.wire[|s.conn.wire|..]))
  }

  ghost predicate Next(n: Node, s: State, step: Step, s': State) {
    match step
    case VSwitchStart(ev) =>
      && s.toInstall == [] && s.toSend == [] && VSWITCH !in s.conn.senders
      && s' == s.(toInstall := Installs(n, ev), toSend := Sends(n, ev), vlog := s.vlog + [ev])
    case VSwitchInstall =>
      s.toInstall != [] && s' == s.(arrived := s.arrived + [s.toInstall[0]], toInstall := s.toInstall[1..])
    case PodStart(ev) =>
      && s.podToSend == [] && POD !in s.conn.senders
      && s' == s.(podToSend := PodSends(n, ev), plog := s.plog + [ev])
    case CallSend(id, m) =>
      Offers(s, id, m) && C.StepNext(s.conn, C.CallSend(id, m)) == Some(s'.conn) && s' == s.(conn := s'.conn)
    case CallSet(id, c) =>
      C.StepNext(s.conn, C.CallSet(id, c)) == Some(s'.conn) && s' == s.(conn := s'.conn)
    case SenderGoes(id) =>
      C.StepNext(s.conn, C.SenderGoes(id)) == Some(s'.conn) && s' == AfterSender(s, id, s'.conn)
    case SetterGoes(id) =>
      C.StepNext(s.conn, C.SetterGoes(id)) == Some(s'.conn) && s' == s.(conn := s'.conn)
    case ConsumerGoes(reached, ok) =>
      && C.StepNext(s.conn, C.ConsumerGoes(reached, ok)) == Some(s'.conn)
      && |s.conn.wire| <= |s'.conn.wire| && s' == AfterConsumer(s, s'.conn)
  }

  ghost predicate IsRun(n: Node, run: seq<State>, steps: seq<Step>) {
    && |run| == |steps| + 1
    && Init(run[0])
    && forall i {:trigger steps[i]} :: 0 <= i < |steps| ==> Next(n, run[i], steps[i], run[i + 1])
  }

  // ---------------------------------------------------------------- refinement

  /** The node machine's state: the queue without a head that is already written. */
  function Abs(s: State): N.State {
    N.State(C.Unwritten(s.conn), s.arrived, s.toInstall, s.toSend, s.podToSend, s.conn.sent, s.vlog, s.plog)
  }

  /** A thread on its way into the queue carries what it has to send next. */
  ghost predicate Carrying(s: State) {
    forall id :: id in s.conn.senders && (s.conn.senders[id].SendLock? || s.conn.senders[id].SendAppend?) ==>
      Offers(s, id, s.conn.senders[id].msg)
  }

  ghost predicate Inv(s: State) {
    C.Inv(s.conn) && Carrying(s)
  }

  /** The connection does at most one of its own steps. */
  lemma StepOnConnection(n: Node, s: State, step: Step, s': State)
    requires Next(n, s, step, s')
    ensures s'.conn == s.conn || exists t :: C.StepNext(s.conn, t) == Some(s'.conn)
  {
  }

  lemma KeepsConnection(n: Node, s: State, step: Step, s': State)
    requires C.Inv(s.conn) && Next(n, s, step, s')
    ensures C.Inv(s'.conn)
  {
    StepOnConnection(n, s, step, s');
    if s'.conn != s.conn {
      var t :| C.StepNext(s.conn, t) == Some(s'.conn);
      C.StepKeeps(s.conn, t, s'.conn);
    }
  }

  lemma SenderKeepsCarrying(n: Node, s: State, id: nat, s': State)
    requires Carrying(s) && Next(n, s, SenderGoes(id), s')
    ensures Carrying(s')
  {
    forall k | k in s'.conn.senders && (s'.conn.senders[k].SendLock? || s'.conn.senders[k].SendAppend?)
      ensures Offers(s', k, s'.conn.senders[k].msg)
    {
      assert Offers(s, k, s'.conn.senders[k].msg);
    }
  }

  lemma OthersKeepSenders(n: Node, s: State, step: Step, s': State)
    requires (step.CallSet? || step.SetterGoes? || step.ConsumerGoes?) && Next(n, s, step, s')
    ensures s'.conn.senders == s.conn.senders
    ensures s'.toInstall == s.toInstall && s'.toSend == s.toSend && s'.podToSend == s.podToSend
  {
  }

  /** Only the thread itself changes where it is. */
  lemma KeepsCarrying(n: Node, s: State, step: Step, s': State)
    requires Carrying(s) && Next(n, s, step, s')
    ensures Carrying(s')
  {
    if step.SenderGoes? {
      SenderKeepsCarrying(n, s, step.id, s');
    } else if step.CallSet? || step.SetterGoes? || step.ConsumerGoes? {
      OthersKeepSenders(n, s, step, s');
    }
  }

  /** The step is one of the node machine's, or invisible to it. */
  ghost predicate Simulates(n: Node, a: N.State, a': N.State) {
    a' == a || exists t :: N.Next(n, a, t, a')
  }

  lemma SenderSimulates(n: Node, s: State, id: nat, s': State)
    requires Inv(s) && Next(n, s, SenderGoes(id), s')
    ensures Simulates(n, Abs(s), Abs(s'))
  {
    C.SenderRefines(s.conn, id, s'.conn);
    var a, a' := Abs(s), Abs(s');
    if s.conn.senders[id].SendAppend? {
      var m := s.conn.senders[id].msg;
      assert Offers(s, id, m);
      if id == VSWITCH {
        assert N.Next(n, a, N.VSwitchSend, a');
      } else if id == POD {
        assert N.Next(n, a, N.PodSend, a');
      } else {
        assert N.Next(n, a, N.Reply(m), a');
      }
    }
  }

  lemma ConsumerSimulates(n: Node, s: State, reached: bool, ok: bool, s': State)
    requires Inv(s) && Next(n, s, ConsumerGoes(reached, ok), s')
    ensures Simulates(n, Abs(s), Abs(s'))
  {
    C.ConsumerRefines(s.conn, reached, ok, s'.conn);
    var a, a' := Abs(s), Abs(s');
    if s.conn.consumer.WriteConn? {
      var t := if s.conn.conn.None? then Lost else if ok then Delivered else if reached then Redelivered else Lost;
      assert s'.conn.wire[|s.conn.wire|..] == Reached(a.queue, t);
      assert N.Next(n, a, N.Write(t), a');
    } else {
      assert s'.conn.wire[|s.conn.wire|..] == [];
      assert s.arrived + [] == s.arrived;
    }
  }

  lemma StepSimulates(n: Node, s: State, step: Step, s': State)
    requires Inv(s) && Next(n, s, step, s')
    ensures Simulates(n, Abs(s), Abs(s'))
  {
    var a, a' := Abs(s), Abs(s');
    match step
    case VSwitchStart(ev) => assert N.Next(n, a, N.VSwitchStart(ev), a');
    case VSwitchInstall => assert N.Next(n, a, N.VSwitchInstall, a');
    case PodStart(ev) => assert N.Next(n, a, N.PodStart(ev), a');
    case CallSend(id, m) =>
    case CallSet(id, c) =>
    case SenderGoes(id) => SenderSimulates(n, s, id, s');
    case SetterGoes(id) => C.SetterKeepsOrder(s.conn, id, s'.conn);
    case ConsumerGoes(reached, ok) => ConsumerSimulates(n, s, reached, ok, s');
  }

  lemma {:induction false} RunKeepsInv(n: Node, run: seq<State>, steps: seq<Step>, i: nat)
    requires IsRun(n, run, steps) && i < |run|
    ensures Inv(run[i])
  {
    if i == 0 {
      assert [] + N.StartUp() == N.StartUp();
    } else {
      RunKeepsInv(n, run, steps, i - 1);
      KeepsConnection(n, run[i - 1], steps[i - 1], run[i]);
      KeepsCarrying(n, run[i - 1], steps[i - 1], run[i]);
    }
  }

  /** Every state a lock-level run reaches is, as seen through `Abs`, reached by a run of the node
      machine: whatever is proved of all runs of the node machine holds at the level of locks,
      condition variables and half-done sends. */
  lemma {:induction false} RunRefines(n: Node, run: seq<State>, steps: seq<Step>, i: nat)
    returns (run': seq<N.State>, steps': seq<N.Step>)
    requires IsRun(n, run, steps) && i < |run|
    ensures N.IsRun(n, run', steps') && Last(run') == Abs(run[i])
  {
    if i == 0 {
      run', steps' := [Abs(run[0])], [];
    } else {
      run', steps' := RunRefines(n, run, steps, i - 1);
      RunKeepsInv(n, run, steps, i - 1);
      StepSimulates(n, run[i - 1], steps[i - 1], run[i]);
      if Abs(run[i]) != Abs(run[i - 1]) {
        var t :| N.Next(n, Abs(run[i - 1]), t, Abs(run[i]));
        Extend(n, run', steps', t, Abs(run[i]));
        run', steps' := run' + [Abs(run[i])], steps' + [t];
      }
    }
  }

  /** The connection of a lock-level run goes through a run of its own. */
  lemma {:induction false} RunProjects(n: Node, run: seq<State>, steps: seq<Step>, i: nat)
    returns (run': seq<C.State<N.Msg>>, steps': seq<C.Step<N.Msg>>)
    requires IsRun(n, run, steps) && i < |run|
    ensures C.IsRun(run', steps') && run'[|steps'|] == run[i].conn
  {
    if i == 0 {
      run', steps' := [run[0].conn], [];
    } else {
      run', steps' := RunProjects(n, run, steps, i - 1);
      StepOnConnection(n, run[i - 1], steps[i - 1], run[i]);
      if run[i].conn != run[i - 1].conn {
        var t :| C.StepNext(run[i - 1].conn, t) == Some(run[i].conn);
        run', steps' := run' + [run[i].conn], steps' + [t];
      }
    }
  }

  // ---------------------------------------------------------------- quiet nodes

  /** A step that needs nothing new from outside: no event, no call of SetConnection, no request of
      the switch to reply to. */
  predicate Internal(step: Step) {
    match step
    case VSwitchInstall => true
    case CallSend(id, _) => id == VSWITCH || id == POD
    case SenderGoes(_) => true
    case SetterGoes(_) => true
    case ConsumerGoes(_, _) => true
    case _ => false
  }

  ghost predicate Quiet(n: Node, s: State) {
    forall step, s' :: Internal(step) ==> !Next(n, s, step, s')
  }

  lemma BusyConnection(n: Node, s: State)
    requires C.CanGo(s.conn)
    ensures !Quiet(n, s)
  {
    if id :| C.SenderNext(s.conn, id).Some? {
      assert Next(n, s, SenderGoes(id), AfterSender(s, id, C.SenderNext(s.conn, id).value));
    } else if id :| C.SetterNext(s.conn, id).Some? {
      assert Next(n, s, SetterGoes(id), s.(conn := C.SetterNext(s.conn, id).value));
    } else {
      var reached, ok :| C.ConsumerNext(s.conn, reached, ok).Some?;
      assert Next(n, s, ConsumerGoes(reached, ok), AfterConsumer(s, C.ConsumerNext(s.conn, reached, ok).value));
    }
  }

  lemma BusyHandlers(n: Node, s: State)
    requires s.conn.senders == map[] && (s.toInstall != [] || s.toSend != [] || s.podToSend != [])
    ensures !Quiet(n, s)
  {
    if s.toInstall != [] {
      assert Next(n, s, VSwitchInstall, s.(arrived := s.arrived + [s.toInstall[0]], toInstall := s.toInstall[1..]));
    } else if s.toSend != [] {
      CanCall(n, s, VSWITCH, N.Flow(s.toSend[0]));
    } else {
      CanCall(n, s, POD, N.Flow(s.podToSend[0]));
    }
  }

  lemma CanCall(n: Node, s: State, id: nat, m: N.Msg)
    requires id !in s.conn.senders && Offers(s, id, m) && (id == VSWITCH || id == POD)
    ensures !Quiet(n, s)
  {
    assert Next(n, s, CallSend(id, m), s.(conn := C.StepNext(s.conn, C.CallSend(id, m)).value));
  }

  /** A connected node in which no thread can go on by itself has nothing in flight: no flow waits
      in the queue or in a handler. */
  lemma QuietIsDrained(n: Node, run: seq<State>, steps: seq<Step>, i: nat)
    requires IsRun(n, run, steps) && i < |run| && Quiet(n, run[i]) && run[i].conn.conn.Some?
    ensures Drained(Abs(run[i]))
  {
    var run', steps' := RunProjects(n, run, steps, i);
    if C.CanGo(run[i].conn) {
      BusyConnection(n, run[i]);
    }
    C.NoDeadlock(run', steps', |steps'|);
    if !Drained(Abs(run[i])) {
      BusyHandlers(n, run[i]);
    }
  }

  /** Whole-node correctness. Let the threads of a connected node run until none can go on: the
      tables then forward every packet as the routing function over the event history says. No
      interleaving of lock operations, lost connection, retried write or lost wake-up leaves the
      node in any other state. */
  lemma {:induction false} QuietNodeRoutes(n: Node, run: seq<State>, steps: seq<Step>, i: nat, p: Packet,
                                           outs: seq<Emission>)
    requires IsRun(n, run, steps) && i < |run| && Quiet(n, run[i]) && run[i].conn.conn.Some?
    requires OverlayAddress(n, p.dst) ==> DisjointAnnouncements(n, run[i].vlog)
    ensures Forwards(TableOf(n, run[i].arrived), p, outs)
            <==> outs == Route(n, PictureOf(n, ProtoOf(p), run[i].vlog, run[i].plog), p)
  {
    QuietIsDrained(n, run, steps, i);
    var run', steps' := RunRefines(n, run, steps, i);
    DrainedNodeRoutes(n, run', steps', |run'| - 1, p, outs);
  }
}
