/** The send queue of `connection.go` at the level of lock operations: one ProcessQueue thread,
    any number of senders and connection setters, two mutexes and two condition variables. */
module Connection {
  import opened Addresses
  import opened Channel

  datatype Holder = Free | Consumer | Sender(id: nat) | Setter(id: nat)

  /** Where ProcessQueue is. A waiting consumer has released the mutex and is asleep until
      signalled; it then has to take the mutex again. */
  datatype ConsumerPC<T> =
    | LockConn
    | CheckConn
    | WaitConn(signalled: bool)
    | UnlockConn
    | LockQueue
    | CheckQueue
    | WaitQueue(signalled: bool)
    | ReadHead
    | WriteLock(msg: T)
    | WriteConn(msg: T)
    | WriteUnlock(ok: bool)
    | Finish(ok: bool)

  datatype SenderPC<T> = SendLock(msg: T) | SendAppend(msg: T) | SendBroadcast | SendUnlock

  datatype SetterPC = SetLock(conn: Option<nat>) | SetAssign(conn: Option<nat>) | SetBroadcast | SetUnlock

  /** `sent`, `written` and `wire` are history: what was appended to the queue, what was written
      successfully, and every whole message that reached the switch. */
  datatype State<T> = State(queue: seq<T>, conn: Option<nat>, queueMu: Holder, connMu: Holder,
                            consumer: ConsumerPC<T>, senders: map<nat, SenderPC<T>>, setters: map<nat, SetterPC>,
                            sent: seq<T>, written: seq<T>, wire: seq<T>)

  /** `Call` starts a Send or SetConnection; the others let a thread do its next operation.
      `reached` and `ok` are what the network does with a write. */
  datatype Step<T> =
    | CallSend(id: nat, msg: T)
    | CallSet(id: nat, conn: Option<nat>)
    | SenderGoes(id: nat)
    | SetterGoes(id: nat)
    | ConsumerGoes(reached: bool, ok: bool)

  function SenderNext<T>(s: State<T>, id: nat): Option<State<T>> {
    if id !in s.senders then None
    else
      match s.senders[id]
      case SendLock(m) =>
        if s.queueMu != Free then None
        else Some(s.(queueMu := Sender(id), senders := s.senders[id := SendAppend(m)]))
      case SendAppend(m) =>
        Some(s.(queue := s.queue + [m], sent := s.sent + [m], senders := s.senders[id := SendBroadcast]))
      case SendBroadcast =>
        Some(s.(consumer := if s.consumer.WaitQueue? then WaitQueue(true) else s.consumer,
                senders := s.senders[id := SendUnlock]))
      case SendUnlock =>
        Some(s.(queueMu := Free, senders := s.senders - {id}))
  }

  function SetterNext<T>(s: State<T>, id: nat): Option<State<T>> {
    if id !in s.setters then None
    else
      match s.setters[id]
      case SetLock(c) =>
        if s.connMu != Free then None
        else Some(s.(connMu := Setter(id), setters := s.setters[id := SetAssign(c)]))
      case SetAssign(c) =>
        Some(s.(conn := c, setters := s.setters[id := SetBroadcast]))
      case SetBroadcast =>
        Some(s.(consumer := if s.consumer.WaitConn? then WaitConn(true) else s.consumer,
                setters := s.setters[id := SetUnlock]))
      case SetUnlock =>
        Some(s.(connMu := Free, setters := s.setters - {id}))
  }

  /** One operation of ProcessQueue; None when it is blocked on a mutex or asleep, and also if
      it were to read the head of an empty queue. */
  function ConsumerNext<T>(s: State<T>, reached: bool, ok: bool): Option<State<T>> {
    match s.consumer
    case LockConn =>
      if s.connMu != Free then None else Some(s.(connMu := Consumer, consumer := CheckConn))
    case CheckConn =>
      if s.conn.None? then Some(s.(connMu := Free, consumer := WaitConn(false)))
      else Some(s.(consumer := UnlockConn))
    case WaitConn(signalled) =>
      if !signalled || s.connMu != Free then None
      else Some(s.(connMu := Consumer, consumer := UnlockConn))
    case UnlockConn =>
      Some(s.(connMu := Free, consumer := LockQueue))
    case LockQueue =>
      if s.queueMu != Free then None else Some(s.(queueMu := Consumer, consumer := CheckQueue))
    case CheckQueue =>
      if s.queue == [] then Some(s.(queueMu := Free, consumer := WaitQueue(false)))
      else Some(s.(consumer := ReadHead))
    case WaitQueue(signalled) =>
      if !signalled || s.queueMu != Free then None
      else Some(s.(queueMu := Consumer, consumer := ReadHead))
    case ReadHead =>
      if s.queue == [] then None else Some(s.(consumer := WriteLock(s.queue[0])))
    case WriteLock(m) =>
      if s.connMu != Free then None else Some(s.(connMu := Consumer, consumer := WriteConn(m)))
    case WriteConn(m) =>
      if s.conn.None? then Some(s.(consumer := WriteUnlock(false)))
      else if ok then Some(s.(consumer := WriteUnlock(true), written := s.written + [m], wire := s.wire + [m]))
      else Some(s.(consumer := WriteUnlock(false), wire := if reached then s.wire + [m] else s.wire))
    case WriteUnlock(done) =>
      Some(s.(connMu := Free, consumer := Finish(done)))
    case Finish(done) =>
      if s.queue == [] then None
      else Some(s.(queueMu := Free, consumer := LockConn, queue := if done then s.queue[1..] else s.queue))
  }

  function StepNext<T>(s: State<T>, step: Step<T>): Option<State<T>> {
    match step
    case CallSend(id, m) => if id in s.senders then None else Some(s.(senders := s.senders[id := SendLock(m)]))
    case CallSet(id, c) => if id in s.setters then None else Some(s.(setters := s.setters[id := SetLock(c)]))
    case SenderGoes(id) => SenderNext(s, id)
    case SetterGoes(id) => SetterNext(s, id)
    case ConsumerGoes(reached, ok) => ConsumerNext(s, reached, ok)
  }

  /** ProcessQueue is started once, possibly after messages have already been queued. */
  ghost predicate Init<T(!new)>(s: State<T>) {
    exists queued: seq<T> :: s == State(queued, None, Free, Free, LockConn, map[], map[], queued, [], [])
  }

  ghost predicate IsRun<T(!new)>(run: seq<State<T>>, steps: seq<Step<T>>) {
    && |run| == |steps| + 1
    && Init(run[0])
    && forall i {:trigger steps[i]} :: 0 <= i < |steps| ==> StepNext(run[i], steps[i]) == Some(run[i + 1])
  }

  // ---------------------------------------------------------------- invariant

  predicate ConsumerHoldsConn<T>(c: ConsumerPC<T>) {
    c.CheckConn? || c.UnlockConn? || c.WriteConn? || c.WriteUnlock?
  }

  predicate ConsumerHoldsQueue<T>(c: ConsumerPC<T>) {
    c.CheckQueue? || c.ReadHead? || c.WriteLock? || c.WriteConn? || c.WriteUnlock? || c.Finish?
  }

  ghost predicate Locks<T>(s: State<T>) {
    && (s.connMu == Consumer <==> ConsumerHoldsConn(s.consumer))
    && (s.queueMu == Consumer <==> ConsumerHoldsQueue(s.consumer))
    && !s.connMu.Sender? && !s.queueMu.Setter?
    && (forall id :: s.queueMu == Sender(id) <==> id in s.senders && !s.senders[id].SendLock?)
    && (forall id :: s.connMu == Setter(id) <==> id in s.setters && !s.setters[id].SetLock?)
  }

  /** A sleeping consumer that has not been signalled has nothing to wake up for, unless the
      thread that made it so still holds the mutex and is about to broadcast. */
  ghost predicate NoLostWakeUp<T>(s: State<T>) {
    && (s.consumer == WaitQueue(false) ==>
          s.queue == [] || (s.queueMu.Sender? && s.queueMu.id in s.senders && s.senders[s.queueMu.id].SendBroadcast?))
    && (s.consumer == WaitConn(false) ==>
          s.conn.None? || (s.connMu.Setter? && s.connMu.id in s.setters && s.setters[s.connMu.id].SetBroadcast?))
  }

  /** The consumer is past its emptiness check, or has been signalled. */
  predicate NeedsHead<T>(c: ConsumerPC<T>) {
    c == WaitQueue(true) || c.ReadHead? || c.WriteLock? || c.WriteConn? || c.WriteUnlock? || c.Finish?
  }

  ghost predicate HeadThere<T>(s: State<T>) {
    && (NeedsHead(s.consumer) ==> s.queue != [])
    && (s.consumer.WriteLock? || s.consumer.WriteConn? ==> s.consumer.msg == s.queue[0])
    && (forall id :: id in s.senders && s.senders[id].SendBroadcast? ==> s.queue != [])
  }

  /** The head has been written and only waits to be removed. */
  predicate HeadDone<T>(s: State<T>) {
    s.consumer == WriteUnlock(true) || s.consumer == Finish(true)
  }

  /** The queue without a head that is already written. */
  function Unwritten<T>(s: State<T>): seq<T> {
    if HeadDone(s) && s.queue != [] then s.queue[1..] else s.queue
  }

  ghost predicate Inv<T>(s: State<T>) {
    && Locks(s)
    && NoLostWakeUp(s)
    && HeadThere(s)
    && s.written + Unwritten(s) == s.sent
  }

  lemma SenderKeepsLocks<T>(s: State<T>, id: nat, s': State<T>)
    requires Locks(s) && SenderNext(s, id) == Some(s')
    ensures Locks(s')
  {
  }

  lemma SenderKeepsWakeUps<T>(s: State<T>, id: nat, s': State<T>)
    requires Locks(s) && NoLostWakeUp(s) && HeadThere(s) && SenderNext(s, id) == Some(s')
    ensures NoLostWakeUp(s') && HeadThere(s')
  {
  }

  lemma SenderKeepsOrder<T>(s: State<T>, id: nat, s': State<T>)
    requires Inv(s) && SenderNext(s, id) == Some(s')
    ensures s'.written + Unwritten(s') == s'.sent
  {
  }

  lemma SetterKeepsLocks<T>(s: State<T>, id: nat, s': State<T>)
    requires Locks(s) && SetterNext(s, id) == Some(s')
    ensures Locks(s')
  {
  }

  lemma SetterKeepsWakeUps<T>(s: State<T>, id: nat, s': State<T>)
    requires Locks(s) && NoLostWakeUp(s) && HeadThere(s) && SetterNext(s, id) == Some(s')
    ensures NoLostWakeUp(s') && HeadThere(s')
  {
  }

  lemma SetterKeepsOrder<T>(s: State<T>, id: nat, s': State<T>)
    requires Inv(s) && SetterNext(s, id) == Some(s')
    ensures Unwritten(s') == Unwritten(s) && s'.sent == s.sent && s'.written == s.written && s'.wire == s.wire
  {
  }

  lemma ConsumerKeepsLocks<T>(s: State<T>, reached: bool, ok: bool, s': State<T>)
    requires Locks(s) && ConsumerNext(s, reached, ok) == Some(s')
    ensures Locks(s')
  {
  }

  lemma ConsumerKeepsWakeUps<T>(s: State<T>, reached: bool, ok: bool, s': State<T>)
    requires NoLostWakeUp(s) && ConsumerNext(s, reached, ok) == Some(s')
    ensures NoLostWakeUp(s')
  {
  }

  /** Removing the head happens only while no sender is between append and broadcast. */
  lemma ConsumerKeepsHead<T>(s: State<T>, reached: bool, ok: bool, s': State<T>)
    requires Locks(s) && HeadThere(s) && ConsumerNext(s, reached, ok) == Some(s')
    ensures HeadThere(s')
  {
    if s.consumer.Finish? {
      assert s.queueMu == Consumer;
      assert forall id :: id in s.senders ==> s.queueMu != Sender(id);
    }
  }

  lemma ConsumerKeepsOrder<T>(s: State<T>, reached: bool, ok: bool, s': State<T>)
    requires Inv(s) && ConsumerNext(s, reached, ok) == Some(s')
    ensures s'.written + Unwritten(s') == s'.sent
  {
    if s.consumer.WriteConn? && s.conn.Some? && ok {
      assert s.queue == [s.queue[0]] + s.queue[1..];
      assert s.written + ([s.queue[0]] + s.queue[1..]) == s.written + [s.queue[0]] + s.queue[1..];
    }
  }

  lemma StepKeeps<T>(s: State<T>, step: Step<T>, s': State<T>)
    requires Inv(s) && StepNext(s, step) == Some(s')
    ensures Inv(s')
  {
    match step
    case CallSend(_, _) =>
    case CallSet(_, _) =>
    case SenderGoes(id) => SenderKeepsLocks(s, id, s'); SenderKeepsWakeUps(s, id, s'); SenderKeepsOrder(s, id, s');
    case SetterGoes(id) => SetterKeepsLocks(s, id, s'); SetterKeepsWakeUps(s, id, s'); SetterKeepsOrder(s, id, s');
    case ConsumerGoes(reached, ok) =>
      ConsumerKeepsLocks(s, reached, ok, s');
      ConsumerKeepsWakeUps(s, reached, ok, s');
      ConsumerKeepsHead(s, reached, ok, s');
      ConsumerKeepsOrder(s, reached, ok, s');
  }

  lemma {:induction false} RunKeepsInv<T(!new)>(run: seq<State<T>>, steps: seq<Step<T>>, i: nat)
    requires IsRun(run, steps) && i < |run|
    ensures Inv(run[i])
  {
    if i == 0 {
      assert [] + run[0].sent == run[0].sent;
    } else {
      RunKeepsInv(run, steps, i - 1);
      StepKeeps(run[i - 1], steps[i - 1], run[i]);
    }
  }

  // ---------------------------------------------------------------- theorems

  /** Queue safety in every reachable state: `queue[0]` is never read from an empty queue, and no
      wake-up is lost on either condition variable: a consumer that sleeps unsignalled with work to
      do is about to be signalled by the thread that made it so. */
  lemma QueueIsSafe<T(!new)>(run: seq<State<T>>, steps: seq<Step<T>>, i: nat)
    requires IsRun(run, steps) && i < |run|
    ensures run[i].consumer.ReadHead? || run[i].consumer.Finish? ==> run[i].queue != []
    ensures NoLostWakeUp(run[i])
  {
    RunKeepsInv(run, steps, i);
  }

  /** In-order delivery: in every reachable state the successfully written messages are a prefix
      of the messages sent, and what is missing is exactly the rest of the queue. */
  lemma WrittenInOrder<T(!new)>(run: seq<State<T>>, steps: seq<Step<T>>, i: nat)
    requires IsRun(run, steps) && i < |run|
    ensures run[i].written <= run[i].sent
    ensures run[i].sent == run[i].written + Unwritten(run[i])
    ensures run[0].sent <= run[i].sent
    decreases i
  {
    RunKeepsInv(run, steps, i);
    if i > 0 {
      WrittenInOrder(run, steps, i - 1);
      SentGrows(run[i - 1], steps[i - 1], run[i]);
    }
  }

  lemma SentGrows<T>(s: State<T>, step: Step<T>, s': State<T>)
    requires StepNext(s, step) == Some(s')
    ensures s.sent <= s'.sent
  {
  }

  /** The mutex a thread needs next, if any. */
  function Needs<T>(s: State<T>, t: Holder): Option<bool> {
    match t
    case Free => None
    case Consumer =>
      if s.consumer.LockQueue? || s.consumer == WaitQueue(true) then Some(true)
      else if s.consumer.LockConn? || s.consumer == WaitConn(true) || s.consumer.WriteLock? then Some(false)
      else None
    case Sender(id) => if id in s.senders && s.senders[id].SendLock? then Some(true) else None
    case Setter(id) => if id in s.setters && s.setters[id].SetLock? then Some(false) else None
  }

  /** Thread `t` waits for a mutex that thread `u` holds. */
  ghost predicate BlockedBy<T>(s: State<T>, t: Holder, u: Holder) {
    && u != Free
    && Needs(s, t).Some?
    && u == if Needs(s, t).value then s.queueMu else s.connMu
  }

  /** Thread `t` is in the middle of a call, is not asleep, and cannot do its next operation. */
  ghost predicate Stuck<T>(s: State<T>, t: Holder) {
    match t
    case Free => false
    case Consumer =>
      && s.consumer != WaitQueue(false) && s.consumer != WaitConn(false)
      && forall reached, ok :: ConsumerNext(s, reached, ok).None?
    case Sender(id) => id in s.senders && SenderNext(s, id).None?
    case Setter(id) => id in s.setters && SetterNext(s, id).None?
  }

  /** In every reachable state a thread that is awake is stuck exactly when another thread holds the
      mutex it needs: nothing else ever stops one, in particular no empty queue. */
  lemma StuckExactlyWhenBlocked<T(!new)>(run: seq<State<T>>, steps: seq<Step<T>>, i: nat, t: Holder)
    requires IsRun(run, steps) && i < |run|
    ensures Stuck(run[i], t) <==> exists u :: u != t && BlockedBy(run[i], t, u)
  {
    var s := run[i];
    RunKeepsInv(run, steps, i);
    if Stuck(s, t) {
      assert t == Consumer ==> ConsumerNext(s, true, true).None?;
      assert Needs(s, t).Some?;
      assert BlockedBy(s, t, if Needs(s, t).value then s.queueMu else s.connMu);
    }
  }

  /** No circular wait: a chain of blocked threads has at most two links, and its last thread
      is not blocked. */
  lemma NoCircularWait<T(!new)>(run: seq<State<T>>, steps: seq<Step<T>>, i: nat, t: Holder, u: Holder, w: Holder)
    requires IsRun(run, steps) && i < |run|
    requires BlockedBy(run[i], t, u) && BlockedBy(run[i], u, w)
    ensures u == Consumer && w.Setter? && forall x :: !BlockedBy(run[i], w, x)
  {
    RunKeepsInv(run, steps, i);
  }

  /** Some thread that is already there can take a step. */
  ghost predicate CanGo<T>(s: State<T>) {
    || (exists id :: SenderNext(s, id).Some?)
    || (exists id :: SetterNext(s, id).Some?)
    || (exists reached, ok :: ConsumerNext(s, reached, ok).Some?)
  }

  /** No deadlock: a reachable state is stuck exactly when all calls have returned and the
      consumer sleeps with nothing to do. */
  lemma NoDeadlock<T(!new)>(run: seq<State<T>>, steps: seq<Step<T>>, i: nat)
    requires IsRun(run, steps) && i < |run|
    ensures var s := run[i];
            !CanGo(s) <==> && s.senders == map[] && s.setters == map[]
                           && ((s.consumer == WaitQueue(false) && s.queue == [])
                               || (s.consumer == WaitConn(false) && s.conn.None?))
  {
    var s := run[i];
    RunKeepsInv(run, steps, i);
    if s.queueMu.Sender? {
      assert SenderNext(s, s.queueMu.id).Some?;
    } else if s.connMu.Setter? {
      assert SetterNext(s, s.connMu.id).Some?;
    } else if ConsumerNext(s, true, true).Some? {
      assert CanGo(s);
    } else {
      assert s.queueMu == Free && s.connMu == Free;
      if id :| id in s.senders {
        assert SenderNext(s, id).Some?;
      }
      if id :| id in s.setters {
        assert SetterNext(s, id).Some?;
      }
    }
  }

  /** The lock-level system refines the channel: every step leaves queue and wire alone, appends
      a sent message, or is one transfer of the head. */
  lemma StepRefinesChannel<T>(s: State<T>, step: Step<T>, s': State<T>)
    requires Inv(s) && StepNext(s, step) == Some(s')
    ensures var q, q' := Unwritten(s), Unwritten(s');
            || (q' == q && s'.wire == s.wire && s'.sent == s.sent)
            || (exists m :: q' == q + [m] && s'.sent == s.sent + [m] && s'.wire == s.wire)
            || (q != [] && s'.sent == s.sent
                && exists t :: q' == Rest(q, t) && s'.wire == s.wire + Reached(q, t))
  {
    match step
    case CallSend(_, _) =>
    case CallSet(_, _) =>
    case SenderGoes(id) => SenderRefines(s, id, s');
    case SetterGoes(id) => SetterKeepsOrder(s, id, s');
    case ConsumerGoes(reached, ok) => ConsumerRefines(s, reached, ok, s');
  }

  lemma SenderRefines<T>(s: State<T>, id: nat, s': State<T>)
    requires Inv(s) && SenderNext(s, id) == Some(s')
    ensures s'.wire == s.wire
    ensures if s.senders[id].SendAppend?
            then var m := s.senders[id].msg; Unwritten(s') == Unwritten(s) + [m] && s'.sent == s.sent + [m]
            else Unwritten(s') == Unwritten(s) && s'.sent == s.sent
  {
  }

  /** Only the write itself changes what is unwritten or on the wire. */
  lemma ConsumerRefines<T>(s: State<T>, reached: bool, ok: bool, s': State<T>)
    requires Inv(s) && ConsumerNext(s, reached, ok) == Some(s')
    ensures s'.sent == s.sent
    ensures if s.consumer.WriteConn?
            then var t := if s.conn.None? then Lost else if ok then Delivered
                          else if reached then Redelivered else Lost;
                 && Unwritten(s) != [] && Unwritten(s') == Rest(Unwritten(s), t)
                 && s'.wire == s.wire + Reached(Unwritten(s), t)
            else Unwritten(s') == Unwritten(s) && s'.wire == s.wire
  {
    assert s.wire + [] == s.wire;
  }
}
