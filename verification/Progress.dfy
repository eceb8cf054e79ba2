/** Every node can settle: the drained states that the routing theorems speak about are
    reachable from every reachable state and for every history. */
module Progress {
  import opened Addresses
  import opened Flows
  import opened Channel
  import opened NodeMachine
  import opened History

  /** What is left to do; every settling step lowers it. */
  function Backlog(s: State): nat {
    3 * |s.toInstall| + 2 * |s.toSend| + 2 * |s.podToSend| + |s.queue|
  }

  /** A step that needs no new event and no network failure. */
  lemma SettlingStep(n: Node, s: State) returns (step: Step, s': State)
    requires !Drained(s)
    ensures Next(n, s, step, s') && Backlog(s') < Backlog(s) && s'.vlog == s.vlog && s'.plog == s.plog
  {
    if s.toInstall != [] {
      step := VSwitchInstall;
      s' := AfterInstall(s);
    } else if s.toSend != [] {
      step := VSwitchSend;
      s' := AfterVSwitchSend(s);
    } else if s.podToSend != [] {
      step := PodSend;
      s' := AfterPodSend(s);
    } else {
      step := Write(Delivered);
      s' := AfterWrite(s, Delivered);
    }
  }

  function Last(run: seq<State>): State
    requires run != []
  {
    run[|run| - 1]
  }

  lemma Extend(n: Node, run: seq<State>, steps: seq<Step>, step: Step, s': State)
    requires IsRun(n, run, steps) && Next(n, Last(run), step, s')
    ensures IsRun(n, run + [s'], steps + [step]) && Last(run + [s']) == s'
  {
  }

  /** Any run can be continued, without new events, to a drained state. */
  lemma {:induction false} CanSettle(n: Node, run: seq<State>, steps: seq<Step>)
    returns (run': seq<State>, steps': seq<Step>)
    requires IsRun(n, run, steps)
    ensures IsRun(n, run', steps') && run <= run' && Drained(Last(run'))
    ensures Last(run').vlog == Last(run).vlog && Last(run').plog == Last(run).plog
    decreases Backlog(Last(run))
  {
    run', steps' := run, steps;
    if !Drained(Last(run)) {
      var step, s' := SettlingStep(n, Last(run));
      Extend(n, run, steps, step, s');
      run', steps' := CanSettle(n, run + [s'], steps + [step]);
    }
  }

  /** Every pair of event histories is the history of some run that ends drained. */
  lemma {:induction false} EveryHistorySettles(n: Node, vlog: seq<VSwitchEvent>, plog: seq<PodEvent>)
    returns (run: seq<State>, steps: seq<Step>)
    ensures IsRun(n, run, steps) && Drained(Last(run))
    ensures Last(run).vlog == vlog && Last(run).plog == plog
    decreases |vlog| + |plog|
  {
    if vlog != [] {
      var before, ev := vlog[..|vlog| - 1], vlog[|vlog| - 1];
      run, steps := EveryHistorySettles(n, before, plog);
      var s := Last(run);
      var s' := s.(toInstall := Installs(n, ev), toSend := Sends(n, ev), vlog := s.vlog + [ev]);
      Extend(n, run, steps, VSwitchStart(ev), s');
      run, steps := CanSettle(n, run + [s'], steps + [VSwitchStart(ev)]);
      assert vlog == before + [ev];
    } else if plog != [] {
      var before, ev := plog[..|plog| - 1], plog[|plog| - 1];
      run, steps := EveryHistorySettles(n, vlog, before);
      var s := Last(run);
      var s' := s.(podToSend := PodSends(n, ev), plog := s.plog + [ev]);
      Extend(n, run, steps, PodStart(ev), s');
      run, steps := CanSettle(n, run + [s'], steps + [PodStart(ev)]);
      assert plog == before + [ev];
    } else {
      var s := State(StartUp(), [], [], [], [], StartUp(), [], []);
      run, steps := CanSettle(n, [s], []);
    }
  }
}
