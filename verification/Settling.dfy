/** A whole node at the level of locks can come to rest: from every reachable state its threads
    can be scheduled so that it ends up connected and quiet, without new events. */
module Settling {
  import opened Addresses
  import opened Flows
  import N = NodeMachine
  import C = Connection
  import opened Composition

  function Final(run: seq<State>): State
    requires run != []
  {
    run[|run| - 1]
  }

  lemma Continue(n: Node, run: seq<State>, steps: seq<Step>, step: Step, s': State)
    requires IsRun(n, run, steps) && Next(n, Final(run), step, s')
    ensures IsRun(n, run + [s'], steps + [step]) && Final(run + [s']) == s'
  {
    var run', steps' := run + [s'], steps + [step];
    forall i {:trigger steps'[i]} | 0 <= i < |steps'|
      ensures Next(n, run'[i], steps'[i], run'[i + 1])
    {
      assert i < |steps| ==> steps'[i] == steps[i];
    }
  }

  ghost predicate SameLogs(s: State, s': State) {
    s'.vlog == s.vlog && s'.plog == s.plog
  }

  // ---------------------------------------------------------------- setters

  function SetterStage(s: C.State<N.Msg>): nat {
    if !s.connMu.Setter? || s.connMu.id !in s.setters then 0
    else
      match s.setters[s.connMu.id]
      case SetLock(_) => 0
      case SetAssign(_) => 1
      case SetBroadcast => 2
      case SetUnlock => 3
  }

  /** Steps until the consumer gives up the connection mutex. */
  function UntilReleased(c: C.ConsumerPC<N.Msg>): nat {
    match c
    case CheckConn => 2
    case UnlockConn => 1
    case WriteConn(_) => 2
    case WriteUnlock(_) => 1
    case _ => 0
  }

  function SetterWork(s: C.State<N.Msg>): int {
    10 * |s.setters.Keys| - SetterStage(s) + UntilReleased(s.consumer)
  }

  lemma SetterWorkIsNat(s: C.State<N.Msg>)
    ensures SetterWork(s) >= 0
  {
    if s.connMu.Setter? && s.connMu.id in s.setters {
      assert s.connMu.id in s.setters.Keys;
    }
  }

  lemma HolderGoes(s: C.State<N.Msg>) returns (s': C.State<N.Msg>)
    requires C.Inv(s) && s.connMu.Setter?
    ensures C.SetterNext(s, s.connMu.id) == Some(s') && SetterWork(s') < SetterWork(s)
  {
    var id := s.connMu.id;
    assert id in s.setters.Keys;
    s' := C.SetterNext(s, id).value;
    assert s'.setters.Keys == if s.setters[id].SetUnlock? then s.setters.Keys - {id} else s.setters.Keys;
  }

  lemma ConsumerReleases(s: C.State<N.Msg>) returns (s': C.State<N.Msg>)
    requires C.Inv(s) && s.connMu == C.Consumer
    ensures C.ConsumerNext(s, true, true) == Some(s') && SetterWork(s') < SetterWork(s)
  {
    s' := C.ConsumerNext(s, true, true).value;
  }

  lemma SetterLocks(s: C.State<N.Msg>, id: nat) returns (s': C.State<N.Msg>)
    requires C.Inv(s) && s.connMu == C.Free && id in s.setters
    ensures C.SetterNext(s, id) == Some(s') && SetterWork(s') < SetterWork(s)
  {
    s' := C.SetterNext(s, id).value;
    assert s'.setters.Keys == s.setters.Keys;
  }

  /** A step towards the return of all calls of SetConnection. */
  lemma SetterStep(n: Node, s: State) returns (step: Step, s': State)
    requires Inv(s) && !(s.conn.setters == map[] && s.conn.connMu == C.Free)
    ensures Next(n, s, step, s') && SetterWork(s'.conn) < SetterWork(s.conn) && SameLogs(s, s')
  {
    if s.conn.connMu.Setter? {
      var c := HolderGoes(s.conn);
      step, s' := SetterGoes(s.conn.connMu.id), s.(conn := c);
    } else if s.conn.connMu == C.Consumer {
      var c := ConsumerReleases(s.conn);
      step, s' := ConsumerGoes(true, true), AfterConsumer(s, c);
    } else {
      var id :| id in s.conn.setters;
      var c := SetterLocks(s.conn, id);
      step, s' := SetterGoes(id), s.(conn := c);
    }
  }

  lemma {:induction false} SettersReturn(n: Node, run: seq<State>, steps: seq<Step>)
    returns (run': seq<State>, steps': seq<Step>)
    requires IsRun(n, run, steps)
    ensures IsRun(n, run', steps') && run <= run' && SameLogs(Final(run), Final(run'))
    ensures Final(run').conn.setters == map[] && Final(run').conn.connMu == C.Free
    decreases SetterWork(Final(run).conn)
  {
    run', steps' := run, steps;
    var s := Final(run);
    if !(s.conn.setters == map[] && s.conn.connMu == C.Free) {
      RunKeepsInv(n, run, steps, |run| - 1);
      var step, s' := SetterStep(n, s);
      Continue(n, run, steps, step, s');
      SetterWorkIsNat(s.conn);
      run', steps' := SettersReturn(n, run + [s'], steps + [step]);
    }
  }

  /** A new connection is set. */
  lemma Connects(n: Node, run: seq<State>, steps: seq<Step>) returns (run': seq<State>, steps': seq<Step>)
    requires IsRun(n, run, steps)
    ensures IsRun(n, run', steps') && run <= run' && SameLogs(Final(run), Final(run'))
    ensures Final(run').conn.setters == map[] && Final(run').conn.conn.Some?
  {
    run', steps' := SettersReturn(n, run, steps);
    var s := Final(run');
    var s0 := s.(conn := s.conn.(setters := map[0 := C.SetLock(Some(0))]));
    assert s.conn.setters[0 := C.SetLock(Some(0))] == map[0 := C.SetLock(Some(0))];
    Continue(n, run', steps', CallSet(0, Some(0)), s0);
    run', steps' := run' + [s0], steps' + [CallSet(0, Some(0))];
    run', steps' := SetterFinishes(n, run', steps');
  }

  lemma SetterMoves(n: Node, run: seq<State>, steps: seq<Step>, pc: C.SetterPC)
    returns (run': seq<State>, steps': seq<Step>)
    requires IsRun(n, run, steps) && Final(run).conn.setters == map[0 := pc]
    requires pc.SetLock? ==> Final(run).conn.connMu == C.Free
    ensures IsRun(n, run', steps') && run <= run' && SameLogs(Final(run), Final(run'))
    ensures C.SetterNext(Final(run).conn, 0) == Some(Final(run').conn)
  {
    var s' := Final(run).(conn := C.SetterNext(Final(run).conn, 0).value);
    Continue(n, run, steps, SetterGoes(0), s');
    run', steps' := run + [s'], steps + [SetterGoes(0)];
  }

  lemma SetterFinishes(n: Node, run: seq<State>, steps: seq<Step>) returns (run': seq<State>, steps': seq<Step>)
    requires IsRun(n, run, steps)
    requires Final(run).conn.setters == map[0 := C.SetLock(Some(0))] && Final(run).conn.connMu == C.Free
    ensures IsRun(n, run', steps') && run <= run' && SameLogs(Final(run), Final(run'))
    ensures Final(run').conn.setters == map[] && Final(run').conn.conn.Some?
  {
    run', steps' := SetterMoves(n, run, steps, C.SetLock(Some(0)));
    assert Final(run').conn.setters == map[0 := C.SetAssign(Some(0))];
    run', steps' := SetterMoves(n, run', steps', C.SetAssign(Some(0)));
    assert Final(run').conn.setters == map[0 := C.SetBroadcast];
    run', steps' := SetterMoves(n, run', steps', C.SetBroadcast);
    assert Final(run').conn.setters == map[0 := C.SetUnlock];
    run', steps' := SetterMoves(n, run', steps', C.SetUnlock);
  }

  // ---------------------------------------------------------------- the queue runs empty

  /** No setter is there and the connection is up. */
  ghost predicate Online(s: C.State<N.Msg>) {
    C.Inv(s) && s.setters == map[] && s.conn.Some?
  }

  /** The consumer's way through one round, if its writes succeed from now on. */
  function Rank(c: C.ConsumerPC<N.Msg>): nat {
    match c
    case WriteUnlock(ok) => if ok then 3 else 14
    case Finish(ok) => if ok then 2 else 13
    case LockConn => 12
    case CheckConn => 11
    case WaitConn(_) => 11
    case UnlockConn => 10
    case LockQueue => 9
    case CheckQueue => 8
    case WaitQueue(signalled) => if signalled then 7 else 0
    case ReadHead => 6
    case WriteLock(_) => 5
    case WriteConn(_) => 4
  }

  function SenderStage(s: C.State<N.Msg>): nat {
    if !s.queueMu.Sender? || s.queueMu.id !in s.senders then 0
    else
      match s.senders[s.queueMu.id]
      case SendLock(_) => 0
      case SendAppend(_) => 1
      case SendBroadcast => 25
      case SendUnlock => 40
  }

  /** The flows of a handler for which Send has not been called yet. */
  function Uncalled(s: C.State<N.Msg>, flows: seq<Entry>, id: nat): int {
    |flows| - if id in s.senders && (s.senders[id].SendLock? || s.senders[id].SendAppend?) then 1 else 0
  }

  function QueueWork(s: C.State<N.Msg>): int {
    60 * |s.senders.Keys| - SenderStage(s) + 20 * |s.queue| + Rank(s.consumer)
  }

  function Work(s: State): int {
    |s.toInstall| + 100 * (Uncalled(s.conn, s.toSend, VSWITCH) + Uncalled(s.conn, s.podToSend, POD)) + QueueWork(s.conn)
  }

  lemma WorkIsNat(s: State)
    requires Inv(s)
    ensures Work(s) >= 0
  {
    if s.conn.queueMu.Sender? && s.conn.queueMu.id in s.conn.senders {
      assert s.conn.queueMu.id in s.conn.senders.Keys;
    }
    assert Uncalled(s.conn, s.toSend, VSWITCH) >= 0 && Uncalled(s.conn, s.podToSend, POD) >= 0;
  }

  lemma ConsumerWorks(s: C.State<N.Msg>, s': C.State<N.Msg>)
    requires Online(s) && !s.queueMu.Sender? && C.ConsumerNext(s, true, true) == Some(s')
    ensures QueueWork(s') < QueueWork(s) && s'.senders == s.senders && s'.setters == s.setters && s'.conn == s.conn
  {
  }

  /** A sender that holds the queue mutex does its next operation. */
  lemma SenderWorks(s: C.State<N.Msg>, s': C.State<N.Msg>)
    requires Online(s) && s.queueMu.Sender? && C.SenderNext(s, s.queueMu.id) == Some(s')
    ensures QueueWork(s') < QueueWork(s) && s'.setters == s.setters && s'.conn == s.conn
  {
    var id := s.queueMu.id;
    assert id in s.senders.Keys;
    assert s'.senders.Keys == if s.senders[id].SendUnlock? then s.senders.Keys - {id} else s.senders.Keys;
  }

  lemma SenderLocks(s: C.State<N.Msg>, id: nat, s': C.State<N.Msg>)
    requires Online(s) && s.queueMu == C.Free && C.SenderNext(s, id) == Some(s') && id in s.senders
    ensures QueueWork(s') < QueueWork(s) && s'.setters == s.setters && s'.conn == s.conn
  {
    assert s'.senders.Keys == s.senders.Keys;
  }

  /** What one step of a sender means for its handler: Send is called once per flow. */
  lemma SenderKeepsUncalled(s: State, id: nat, c: C.State<N.Msg>)
    requires Inv(s) && C.SenderNext(s.conn, id) == Some(c) && id in s.conn.senders
    ensures var s' := AfterSender(s, id, c);
            && Uncalled(s'.conn, s'.toSend, VSWITCH) == Uncalled(s.conn, s.toSend, VSWITCH)
            && Uncalled(s'.conn, s'.podToSend, POD) == Uncalled(s.conn, s.podToSend, POD)
  {
  }

  lemma SenderStep(n: Node, s: State, id: nat, c: C.State<N.Msg>)
    requires Inv(s) && Online(s.conn) && id in s.conn.senders && C.SenderNext(s.conn, id) == Some(c)
    requires s.conn.queueMu == C.Sender(id) || s.conn.queueMu == C.Free
    ensures var s' := AfterSender(s, id, c);
            Next(n, s, SenderGoes(id), s') && Work(s') < Work(s) && s'.conn.setters == map[] && s'.conn.conn.Some?
  {
    SenderKeepsUncalled(s, id, c);
    if s.conn.queueMu == C.Free {
      SenderLocks(s.conn, id, c);
    } else {
      SenderWorks(s.conn, c);
    }
  }

  lemma CallStep(n: Node, s: State, id: nat, m: N.Msg) returns (s': State)
    requires Inv(s) && Online(s.conn) && s.conn.senders == map[] && Offers(s, id, m) && (id == VSWITCH || id == POD)
    ensures Next(n, s, CallSend(id, m), s') && Work(s') < Work(s)
    ensures s'.conn.setters == map[] && s'.conn.conn.Some? && SameLogs(s, s')
  {
    s' := s.(conn := s.conn.(senders := s.conn.senders[id := C.SendLock(m)]));
    assert s'.conn.senders.Keys == {id};
  }

  /** A consumer that holds the queue mutex is never stuck while the connection is up. */
  lemma StuckReleases(s: C.State<N.Msg>)
    requires Online(s) && C.ConsumerNext(s, true, true).None?
    ensures s.queueMu != C.Consumer
  {
  }

  /** A step towards rest, or the node is at rest. */
  lemma RestingStep(n: Node, s: State) returns (done: bool, step: Step, s': State)
    requires Inv(s) && Online(s.conn)
    ensures done ==> Quiet(n, s)
    ensures !done ==> Next(n, s, step, s') && Work(s') < Work(s) && SameLogs(s, s')
                      && s'.conn.setters == map[] && s'.conn.conn.Some?
  {
    done, step, s' := false, VSwitchInstall, s;
    var next := C.ConsumerNext(s.conn, true, true);
    if s.conn.queueMu.Sender? {
      var id := s.conn.queueMu.id;
      var c := C.SenderNext(s.conn, id).value;
      SenderStep(n, s, id, c);
      step, s' := SenderGoes(id), AfterSender(s, id, c);
    } else if next.Some? {
      ConsumerWorks(s.conn, next.value);
      step, s' := ConsumerGoes(true, true), AfterConsumer(s, next.value);
    } else if s.conn.senders != map[] {
      StuckReleases(s.conn);
      var id :| id in s.conn.senders;
      var c := C.SenderNext(s.conn, id).value;
      SenderStep(n, s, id, c);
      step, s' := SenderGoes(id), AfterSender(s, id, c);
    } else if s.toInstall != [] {
      s' := s.(arrived := s.arrived + [s.toInstall[0]], toInstall := s.toInstall[1..]);
    } else if s.toSend != [] {
      step := CallSend(VSWITCH, N.Flow(s.toSend[0]));
      s' := CallStep(n, s, VSWITCH, step.m);
    } else if s.podToSend != [] {
      step := CallSend(POD, N.Flow(s.podToSend[0]));
      s' := CallStep(n, s, POD, step.m);
    } else {
      done := true;
      AtRest(n, s);
    }
  }

  lemma AtRest(n: Node, s: State)
    requires s.conn.senders == map[] && s.conn.setters == map[] && C.ConsumerNext(s.conn, true, true).None?
    requires s.toInstall == [] && s.toSend == [] && s.podToSend == []
    ensures Quiet(n, s)
  {
  }

  lemma {:induction false} Rests(n: Node, run: seq<State>, steps: seq<Step>)
    returns (run': seq<State>, steps': seq<Step>)
    requires IsRun(n, run, steps) && Final(run).conn.setters == map[] && Final(run).conn.conn.Some?
    ensures IsRun(n, run', steps') && run <= run' && SameLogs(Final(run), Final(run'))
    ensures Quiet(n, Final(run')) && Final(run').conn.conn.Some?
    decreases Work(Final(run))
  {
    run', steps' := run, steps;
    var s := Final(run);
    RunKeepsInv(n, run, steps, |run| - 1);
    var done, step, s' := RestingStep(n, s);
    if !done {
      Continue(n, run, steps, step, s');
      WorkIsNat(s);
      run', steps' := Rests(n, run + [s'], steps + [step]);
    }
  }

  /** From every state of every lock-level run, whatever its threads are in the middle of, the node
      can come to rest with a connection and with the histories it has. */
  lemma CanRest(n: Node, run: seq<State>, steps: seq<Step>) returns (run': seq<State>, steps': seq<Step>)
    requires IsRun(n, run, steps)
    ensures IsRun(n, run', steps') && run <= run' && SameLogs(Final(run), Final(run'))
    ensures Quiet(n, Final(run')) && Final(run').conn.conn.Some?
  {
    run', steps' := Connects(n, run, steps);
    run', steps' := Rests(n, run', steps');
  }
}
