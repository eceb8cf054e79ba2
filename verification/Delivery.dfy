/** The message stream of a node over the lock-level send queue. */
module Delivery {
  import opened Addresses
  import opened OpenFlow
  import opened Flows
  import opened Channel
  import opened NodeMachine
  import C = Connection

  /** Installing the entries of a message again right away changes nothing. */
  lemma {:induction false} RepeatIsHarmless(n: Node, a: seq<Entry>, h: seq<Entry>, b: seq<Entry>)
    requires |h| <= 1
    ensures TableOf(n, a + h + h + b) == TableOf(n, a + h + b)
  {
    if |h| == 1 {
      assert (a + h)[..|a|] == a && (a + h + h)[..|a + h|] == a + h;
      assert TableOf(n, a + h + h) == TableOf(n, a + h);
    } else {
      assert a + h + h == a + h;
    }
    InstallAllExtendsLog(n, a + h + h, b);
    InstallAllExtendsLog(n, a + h, b);
  }

  /** What is on the wire followed by what is still unwritten leaves the same tables as sending
      every message exactly once. */
  ghost predicate ExactlyOnce(n: Node, wire: seq<Msg>, unwritten: seq<Msg>, sent: seq<Msg>) {
    TableOf(n, Entries(wire + unwritten)) == TableOf(n, Entries(sent))
  }

  lemma AppendKeeps(n: Node, wire: seq<Msg>, q: seq<Msg>, sent: seq<Msg>, m: Msg)
    requires ExactlyOnce(n, wire, q, sent)
    ensures ExactlyOnce(n, wire, q + [m], sent + [m])
  {
    Assoc(wire, q, [m]);
    EntriesConcat(wire + q, [m]);
    EntriesConcat(sent, [m]);
    InstallAllExtendsLog(n, Entries(wire + q), Entries([m]));
    InstallAllExtendsLog(n, Entries(sent), Entries([m]));
  }

  lemma TransferKeeps(n: Node, wire: seq<Msg>, q: seq<Msg>, sent: seq<Msg>, t: Transfer)
    requires q != [] && ExactlyOnce(n, wire, q, sent)
    ensures ExactlyOnce(n, wire + Reached(q, t), Rest(q, t), sent)
  {
    var h, rest := [q[0]], q[1..];
    assert q == h + rest;
    match t
    case Delivered => Assoc(wire, h, rest);
    case Lost => assert wire + [] == wire;
    case Redelivered =>
      Assoc(wire + h, h, rest);
      Assoc(wire, h, rest);
      SplitEntries(wire, h, rest);
      EntriesOne(q[0]);
      RepeatIsHarmless(n, Entries(wire), Entries(h), Entries(rest));
  }

  lemma {:induction false} SplitEntries(a: seq<Msg>, h: seq<Msg>, b: seq<Msg>)
    ensures Entries(a + h + b) == Entries(a) + Entries(h) + Entries(b)
    ensures Entries(a + h + h + b) == Entries(a) + Entries(h) + Entries(h) + Entries(b)
  {
    EntriesConcat(a, h);
    EntriesConcat(a + h, b);
    EntriesConcat(a + h, h);
    EntriesConcat(a + h + h, b);
  }

  /** Harmless retry: in every state of every run of the send queue, with any number of failed
      writes of which some reached the switch, the tables on the switch once the queue is
      written out are those of exactly-once delivery. */
  lemma {:induction false} RetryIsHarmless(n: Node, run: seq<C.State<Msg>>, steps: seq<C.Step<Msg>>, i: nat)
    requires C.IsRun(run, steps) && i < |run|
    ensures ExactlyOnce(n, run[i].wire, C.Unwritten(run[i]), run[i].sent)
  {
    if i == 0 {
      assert [] + run[0].queue == run[0].queue;
    } else {
      var s, s' := run[i - 1], run[i];
      RetryIsHarmless(n, run, steps, i - 1);
      C.RunKeepsInv(run, steps, i - 1);
      C.StepRefinesChannel(s, steps[i - 1], s');
      var q, q' := C.Unwritten(s), C.Unwritten(s');
      if m :| q' == q + [m] && s'.sent == s.sent + [m] && s'.wire == s.wire {
        AppendKeeps(n, s.wire, q, s.sent, m);
      } else if !(q' == q && s'.wire == s.wire && s'.sent == s.sent) {
        var t :| q' == Rest(q, t) && s'.wire == s.wire + Reached(q, t);
        TransferKeeps(n, s.wire, q, s.sent, t);
      }
    }
  }

  /** A process that queues HELLO and the default flows before starting the consumer writes
      them first, in that order, in every run. */
  lemma HelloThenDefaults(run: seq<C.State<Msg>>, steps: seq<C.Step<Msg>>, i: nat)
    requires C.IsRun(run, steps) && i < |run| && run[0].queue == StartUp()
    ensures run[i].written <= StartUp() || StartUp() <= run[i].written
    ensures run[i].written != [] ==> run[i].written[0] == Hello
  {
    C.WrittenInOrder(run, steps, i);
    var w, st := run[i].written, StartUp();
    assert st <= run[i].sent && w <= run[i].sent;
    assert st[0] == Hello;
    if |w| <= |st| {
      assert w == run[i].sent[..|w|] == st[..|w|];
    } else {
      assert st == run[i].sent[..|st|] == w[..|st|];
    }
  }
}
