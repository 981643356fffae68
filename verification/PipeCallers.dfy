/** How many host threads may call get_feature: an answer computed before the call began
    is never returned exactly when at most one thread ever makes that call. */
module PipeCallers {
  import opened InProcess
  import opened PipeSystem
  import opened PipeInvariants
  import opened PipeCalls
  import opened PipeRuns
  import opened PipeOrder
  import opened PipeReach

  /** Every get that returned has returned an answer computed after it began. */
  predicate AllFresh(s: State) {
    forall k :: 0 <= k < |s.returned| ==> s.returned[k].answeredBefore <= s.returned[k].index
  }

  predicate AtMostOneCaller(programs: seq<seq<Op>>) {
    forall i, j :: 0 <= i < j < |programs| ==> GetFeature !in programs[i] || GetFeature !in programs[j]
  }

  // ---------- at most one caller ----------

  lemma {:induction false} CountAtMostOne(hs: seq<HostThread>, p: HostThread -> bool)
    requires forall i, j :: 0 <= i < j < |hs| ==> !p(hs[i]) || !p(hs[j])
    ensures Count(hs, p) <= 1
  {
    if hs != [] {
      var n := |hs| - 1;
      if p(hs[n]) {
        assert forall i :: 0 <= i < n ==> hs[..n][i] == hs[i];
        CountZero(hs[..n], p);
      } else {
        CountAtMostOne(hs[..n], p);
      }
    }
  }

  lemma OneCallerNow(setup: Setup, s: State)
    requires AtMostOneCaller(setup.programs) && InOrder(setup, s)
    ensures Count(s.hosts, InGet) <= 1
  {
    forall i | 0 <= i < |s.hosts| && InGet(s.hosts[i]) ensures GetFeature in setup.programs[i] {
      assert HostInOrder(HostLine(s.hosts[i], IssuedBy(s.toDevice, i)), setup.programs[i]);
      assert setup.programs[i][|setup.programs[i]| - |s.hosts[i].todo|] == s.hosts[i].todo[0];
    }
    CountAtMostOne(s.hosts, InGet);
  }

  /** If only one program calls get_feature, no two calls are ever in progress together. */
  lemma OneCallerInRun(setup: Setup, states: seq<State>, labels: seq<Label>, k: nat)
    requires RunFrom(setup, states, labels) && k < |states| && AtMostOneCaller(setup.programs)
    ensures OneCallerUpTo(states, k)
  {
    forall i | 0 <= i <= k ensures Count(states[i].hosts, InGet) <= 1 {
      RunInOrder(setup, states, labels, i);
      OneCallerNow(setup, states[i]);
    }
  }

  lemma OneCallerIsFresh(setup: Setup, s: State)
    requires AtMostOneCaller(setup.programs) && Reachable(setup, s)
    ensures AllFresh(s)
  {
    var states: seq<State>, labels: seq<Label> :| RunFrom(setup, states, labels) && states[|labels|] == s;
    OneCallerInRun(setup, states, labels, |labels|);
    RunMatched(setup, states, labels, |labels|);
    assert CallsOf(s).returned == s.returned;
  }

  // ---------- two callers ----------

  /** Between operations, before any get. */
  predicate BeforeGets(s: State) {
    && Quiet(s.toDevice) && Quiet(s.toHost) && s.serving.Listening?
    && s.answered == [] && s.arrived == [] && s.returned == []
  }

  lemma OperationSeen(setup: Setup, s: State, op: Op) returns (t: State)
    requires Reachable(setup, s) && s.serving.Listening? && Holding(s.toDevice, MsgOf(op)) && !op.GetFeature?
    ensures Reachable(setup, t) && Quiet(t.toDevice)
    ensures t == s.(toDevice := t.toDevice, log := s.log + [op])
  {
    HoldingDispatches(s.toDevice, MsgOf(op));
    ReachStep(setup, s, DeviceDispatch);
    t := Next(s, DeviceDispatch);
  }

  /** Only thread `i` differs. */
  predicate OnlyHost(s: State, t: State, i: nat) {
    |t.hosts| == |s.hosts| && forall k :: 0 <= k < |s.hosts| && k != i ==> t.hosts[k] == s.hosts[k]
  }

  lemma OperationDone(setup: Setup, s: State, i: nat) returns (t: State)
    requires Reachable(setup, s) && BeforeGets(s) && i < |s.hosts| && s.hosts[i].pc == Ready
    requires s.hosts[i].todo != [] && !s.hosts[i].todo[0].GetFeature?
    ensures Reachable(setup, t) && BeforeGets(t) && OnlyHost(s, t, i)
    ensures t.hosts[i].pc == Ready && t.hosts[i].todo == s.hosts[i].todo[1..]
  {
    ReachStep(setup, s, Begin(i));
    t := OperationSent(setup, Next(s, Begin(i)), i);
    t := OperationSeen(setup, t, s.hosts[i].todo[0]);
  }

  /** Thread `i` runs alone up to its first get. */
  lemma {:induction false} ToFirstGet(setup: Setup, s: State, i: nat) returns (t: State)
    requires Reachable(setup, s) && BeforeGets(s) && i < |s.hosts| && s.hosts[i].pc == Ready
    requires GetFeature in s.hosts[i].todo
    ensures Reachable(setup, t) && BeforeGets(t) && OnlyHost(s, t, i)
    ensures t.hosts[i].pc == Ready && t.hosts[i].todo != [] && t.hosts[i].todo[0] == GetFeature
    decreases |s.hosts[i].todo|
  {
    if s.hosts[i].todo[0].GetFeature? {
      t := s;
    } else {
      var u := OperationDone(setup, s, i);
      t := ToFirstGet(setup, u, i);
    }
  }

  predicate AtGet(s: State, i: nat) {
    i < |s.hosts| && s.hosts[i].pc == Ready && s.hosts[i].todo != [] && s.hosts[i].todo[0] == GetFeature
  }

  /** The first get is answered, and before its response is back the second begins. */
  lemma SecondBeginsLate(setup: Setup, s: State, i: nat, j: nat) returns (t: State)
    requires Reachable(setup, s) && BeforeGets(s) && AtGet(s, i) && AtGet(s, j) && i != j
    ensures Reachable(setup, t) && Quiet(t.toDevice) && Quiet(t.toHost) && t.serving.Answering?
    ensures |t.answered| == 1 && t.arrived == [] && t.returned == [] && |t.hosts| == |s.hosts|
    ensures var h := t.hosts[j]; h.pc == Locking && h.todo == s.hosts[j].todo && h.answeredBefore == 1
  {
    ReachStep(setup, s, Begin(i));
    t := OperationSent(setup, Next(s, Begin(i)), i);
    t := QueryAnswered(setup, t);
    ReachStep(setup, t, Begin(j));
    t := Next(t, Begin(j));
  }

  /** The first response clears the flag, and the second get returns it. */
  lemma SecondReturnsFirst(setup: Setup, s: State, j: nat) returns (t: State)
    requires Reachable(setup, s) && Quiet(s.toDevice) && Quiet(s.toHost) && s.serving.Answering?
    requires |s.answered| == 1 && s.arrived == [] && s.returned == [] && j < |s.hosts|
    requires var h := s.hosts[j]; h.pc == Locking && h.todo != [] && h.todo[0] == GetFeature && h.answeredBefore == 1
    ensures Reachable(setup, t) && !AllFresh(t) && |t.returned| == 1
  {
    var r := s.serving.reply;
    t := ReplySent(setup, s);
    t := ReplyRead(setup, t, r);
    t := OperationSent(setup, t, j);
    ReachStep(setup, t, Finish(j));
    t := Next(t, Finish(j));
    assert t.returned[0].index == 0 && t.returned[0].answeredBefore == 1;
  }

  /** Any two callers, whatever else they and others do, can be scheduled so that the
      second returns the answer to the first one's query, computed before it began. */
  lemma TwoCallersShareAnAnswer(setup: Setup, i: nat, j: nat) returns (s: State)
    requires setup.capacity >= 1 && i < |setup.programs| && j < |setup.programs| && i != j
    requires GetFeature in setup.programs[i] && GetFeature in setup.programs[j]
    ensures Reachable(setup, s) && !AllFresh(s)
  {
    s := setup.Start();
    ReachStart(setup);
    s := ToFirstGet(setup, s, i);
    s := ToFirstGet(setup, s, j);
    s := SecondBeginsLate(setup, s, i, j);
    s := SecondReturnsFirst(setup, s, j);
  }

  /** In every run every get returns an answer computed after it began, if and only if at
      most one thread calls get_feature. */
  lemma FreshAnswers(setup: Setup)
    requires setup.capacity >= 1
    ensures (forall s :: Reachable(setup, s) ==> AllFresh(s)) <==> AtMostOneCaller(setup.programs)
  {
    if AtMostOneCaller(setup.programs) {
      forall s | Reachable(setup, s) ensures AllFresh(s) {
        OneCallerIsFresh(setup, s);
      }
    } else {
      var i, j :| 0 <= i < j < |setup.programs|
                  && GetFeature in setup.programs[i] && GetFeature in setup.programs[j];
      var s := TwoCallersShareAnAnswer(setup, i, j);
    }
  }
}
