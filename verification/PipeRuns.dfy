/** What holds over whole runs of the pipe transport: delivery in order,
    matching of get_feature calls, and refinement of the in-process transport. */
module PipeRuns {
  import opened Core
  import opened Reports
  import opened Frames
  import opened Channels
  import opened InProcess
  import opened PipeSystem
  import opened PipeInvariants
  import opened PipeCalls

  ghost predicate SystemInv(s: State) {
    ChannelsOk(s) && Records(s) && Owners(s) && Directed(s) && History(s) && CallsOk(CallsOf(s))
  }

  /** What a run starts from: the device's getter, what every thread is going to do,
      and the size of the two pipe buffers. */
  datatype Setup = Setup(
    getter: Option<Getter>, programs: seq<seq<Op>>, reports: seq<seq<InputReport>>, capacity: nat)
  {
    function Start(): State { Initial(getter, programs, reports, capacity) }
  }

  ghost predicate RunFrom(setup: Setup, states: seq<State>, labels: seq<Label>) {
    IsRun(states, labels) && states[0] == setup.Start()
  }

  lemma InitialCalls(setup: Setup)
    ensures CallsOk(CallsOf(setup.Start()))
  {
    CountZero(setup.Start().hosts, Unsent);
    CountZero(setup.Start().hosts, InGet);
  }

  lemma InitialOwners(setup: Setup)
    ensures Owners(setup.Start()) && Directed(setup.Start())
  {}

  lemma InitialHistory(setup: Setup)
    ensures ChannelsOk(setup.Start()) && Records(setup.Start()) && History(setup.Start())
  {
    InvInit(setup.capacity);
    RecordedInit(setup.capacity);
  }

  lemma InitialInv(setup: Setup)
    ensures SystemInv(setup.Start())
  {
    InitialOwners(setup);
    InitialHistory(setup);
    InitialCalls(setup);
  }

  lemma {:induction false} StepInv(s: State, l: Label)
    requires SystemInv(s) && Enabled(s, l)
    ensures SystemInv(Next(s, l))
  {
    KeepChannels(s, l);
    KeepRecords(s, l);
    KeepOwners(s, l);
    KeepDirected(s, l);
    KeepHistory(s, l);
    ResponsesInOrder(s);
    StepIsCallStep(s, l);
    KeepCalls(CallsOf(s), CallsOf(Next(s, l)));
  }

  lemma {:induction false} RunInv(setup: Setup, states: seq<State>, labels: seq<Label>, k: nat)
    requires RunFrom(setup, states, labels) && k < |states|
    ensures SystemInv(states[k])
  {
    if k == 0 {
      InitialInv(setup);
    } else {
      RunInv(setup, states, labels, k - 1);
      assert StepAt(states, labels, k - 1);
      StepInv(states[k - 1], labels[k - 1]);
    }
  }

  // ---------- any number of threads and callers ----------

  /** In every reachable state: no reader has crashed, the messages delivered in
      each direction are a prefix of those sent in mutex order, the device has seen
      exactly the delivered operations and the host the delivered input reports. */
  lemma DeliveredInOrder(s: State)
    requires ChannelsOk(s) && History(s)
    ensures !s.toDevice.crashed && !s.toHost.crashed
    ensures s.toDevice.delivered <= s.toDevice.acquired && s.toHost.delivered <= s.toHost.acquired
    ensures s.log == OpsOf(s.toDevice.delivered) && s.log <= OpsOf(s.toDevice.acquired)
    ensures s.inputs == InputsOf(s.toHost.delivered) && s.inputs <= InputsOf(s.toHost.acquired)
  {
    Prefixes(s.toDevice.delivered, s.toDevice.acquired);
    InputsPrefix(s.toHost.delivered, s.toHost.acquired);
  }

  lemma {:induction false} InputsPrefix(a: seq<Msg>, b: seq<Msg>)
    requires a <= b
    ensures InputsOf(a) <= InputsOf(b)
    decreases |b|
  {
    if a == b {
      assert b == a;
    } else {
      assert a == b[..|a|] && a <= b[..|b| - 1];
      InputsPrefix(a, b[..|b| - 1]);
    }
  }

  /** With any number of callers, a get returns the getter's result for some query
      whose response arrived after the get began. */
  lemma EveryReturnIsAnAnswer(s: State, k: nat)
    requires SystemInv(s) && k < |s.returned|
    ensures var r := s.returned[k];
            r.arrivedBefore <= r.index < |s.answered| && r.report == s.answered[r.index]
  {
    ResponsesInOrder(s);
    assert ReturnOk(CallsOf(s), CallsOf(s).returned[k]);
  }

  // ---------- one caller at a time ----------

  /** No state of the run up to k has two gets in progress. */
  predicate OneCallerUpTo(states: seq<State>, k: nat)
    requires k < |states|
  {
    forall i :: 0 <= i <= k ==> Count(states[i].hosts, InGet) <= 1
  }

  lemma {:induction false} RunMatched(setup: Setup, states: seq<State>, labels: seq<Label>, k: nat)
    requires RunFrom(setup, states, labels) && k < |states|
    requires OneCallerUpTo(states, k)
    ensures Matched(CallsOf(states[k]))
  {
    if k == 0 {
      InitialMatched(setup);
    } else {
      RunMatched(setup, states, labels, k - 1);
      StepMatched(setup, states, labels, k - 1);
    }
  }

  lemma InitialMatched(setup: Setup)
    ensures Matched(CallsOf(setup.Start()))
  {
    CountZero(Programs(setup.programs), InGet);
  }

  lemma StepMatched(setup: Setup, states: seq<State>, labels: seq<Label>, k: nat)
    requires RunFrom(setup, states, labels) && k < |labels|
    requires Matched(CallsOf(states[k])) && Count(states[k + 1].hosts, InGet) <= 1
    ensures Matched(CallsOf(states[k + 1]))
  {
    assert StepAt(states, labels, k);
    RunInv(setup, states, labels, k);
    ResponsesInOrder(states[k]);
    StepIsCallStep(states[k], labels[k]);
    KeepMatched(CallsOf(states[k]), CallsOf(states[k + 1]));
  }

  /** The k-th get returns the answer to the k-th query, computed after it began. */
  lemma ReturnsOwnAnswer(setup: Setup, states: seq<State>, labels: seq<Label>, n: nat, k: nat)
    requires RunFrom(setup, states, labels) && n < |states|
    requires OneCallerUpTo(states, n) && k < |states[n].returned|
    ensures var s := states[n];
            k < |s.answered| && s.returned[k].report == s.answered[k] && s.returned[k].answeredBefore <= k
  {
    RunInv(setup, states, labels, n);
    RunMatched(setup, states, labels, n);
    EveryReturnIsAnAnswer(states[n], k);
    assert CallsOf(states[n]).returned[k] == states[n].returned[k];
  }

  /** Where the request of a get in progress is: not yet in line, on its way to the
      device, held by the device's reader, or on its way back. */
  function Tokens(s: State): int {
    Count(s.hosts, Unsent)
    + (Queries(s.toDevice.acquired) - Queries(s.toDevice.delivered))
    + (if s.serving.Answering? then 1 else 0)
    + (|Replies(s.toHost.acquired)| - |Replies(s.toHost.delivered)|)
  }

  lemma TokensCount(s: State)
    requires SystemInv(s)
    ensures Tokens(s) == s.began - |s.arrived|
    ensures s.pending ==> Tokens(s) >= 1
  {
    ResponsesInOrder(s);
  }

  /** Exactly one token exists while the flag is set, and none otherwise. */
  lemma ExactlyOneToken(setup: Setup, states: seq<State>, labels: seq<Label>, k: nat)
    requires RunFrom(setup, states, labels) && k < |states|
    requires OneCallerUpTo(states, k)
    ensures Tokens(states[k]) == if states[k].pending then 1 else 0
  {
    RunInv(setup, states, labels, k);
    RunMatched(setup, states, labels, k);
    TokensCount(states[k]);
  }

  // ---------- one host thread: refinement of the in-process transport ----------

  lemma {:induction false} ResultsPrefix(answer: Getter, a: seq<Op>, b: seq<Op>)
    requires a <= b
    ensures Results(answer, a) <= Results(answer, b)
    ensures b != [] && b[|b| - 1].GetFeature? && |Results(answer, a)| == |Results(answer, b)| ==> a == b
    decreases |b|
  {
    if a == b {
      assert b == a;
    } else {
      assert a == b[..|a|] && a <= b[..|b| - 1];
      ResultsPrefix(answer, a, b[..|b| - 1]);
    }
  }

  function Issued(h: HostThread, program: seq<Op>): int {
    |program| - |h.todo| + if h.pc == Writing || h.pc == Awaiting then 1 else 0
  }

  /** The only host thread works through its program, and puts its operations in line in order. */
  ghost predicate Sequential(s: State, program: seq<Op>) {
    && |s.hosts| == 1 && |s.hosts[0].todo| <= |program|
    && s.hosts[0].todo == program[|program| - |s.hosts[0].todo|..]
    && 0 <= Issued(s.hosts[0], program) <= |program|
    && OpsOf(s.toDevice.acquired) == program[..Issued(s.hosts[0], program)]
  }

  lemma NextOperation(program: seq<Op>, n: nat)
    requires n < |program|
    ensures program[n..][0] == program[n] && program[..n + 1] == program[..n] + [program[n]]
  {}

  lemma LockPutsInLine(s: State)
    requires |s.hosts| == 1 && Enabled(s, HostLock(0))
    ensures Next(s, HostLock(0)).hosts == [s.hosts[0].(pc := Writing)]
    ensures Next(s, HostLock(0)).toDevice.acquired == s.toDevice.acquired + [MsgOf(s.hosts[0].todo[0])]
  {}

  lemma KeepSequentialLock(s: State, program: seq<Op>)
    requires Sequential(s, program) && Enabled(s, HostLock(0))
    ensures Sequential(Next(s, HostLock(0)), program)
  {
    var h := s.hosts[0];
    var n := |program| - |h.todo|;
    LockPutsInLine(s);
    Snoc(s.toDevice.acquired, MsgOf(h.todo[0]));
    assert OneOp(MsgOf(h.todo[0])) == [h.todo[0]];
    NextOperation(program, n);
  }

  lemma KeepSequentialThread(s: State, l: Label, program: seq<Op>)
    requires Sequential(s, program) && Owners(s) && Enabled(s, l)
    requires l.Begin? || l.HostUnlock? || l.Finish?
    ensures Sequential(Next(s, l), program)
  {
    assert HostOk(s, 0);
    assert Next(s, l).toDevice.acquired == s.toDevice.acquired;
  }

  lemma SameHosts(s: State, l: Label)
    requires Enabled(s, l) && !(l.Begin? || l.HostLock? || l.HostUnlock? || l.Finish?)
    ensures Next(s, l).hosts == s.hosts && Next(s, l).toDevice.acquired == s.toDevice.acquired
  {}

  lemma {:induction false} RunSequential(
    setup: Setup, program: seq<Op>, states: seq<State>, labels: seq<Label>, k: nat)
    requires RunFrom(setup, states, labels) && setup.programs == [program] && k < |states|
    ensures Sequential(states[k], program)
  {
    if k > 0 {
      RunSequential(setup, program, states, labels, k - 1);
      StepSequential(setup, program, states, labels, k - 1);
    }
  }

  lemma StepSequential(setup: Setup, program: seq<Op>, states: seq<State>, labels: seq<Label>, k: nat)
    requires RunFrom(setup, states, labels) && k < |labels| && Sequential(states[k], program)
    ensures Sequential(states[k + 1], program)
  {
    var s, l := states[k], labels[k];
    assert StepAt(states, labels, k);
    RunInv(setup, states, labels, k);
    if l.HostLock? {
      KeepSequentialLock(s, program);
    } else if l.Begin? || l.HostUnlock? || l.Finish? {
      KeepSequentialThread(s, l, program);
    } else {
      SameHosts(s, l);
    }
  }

  lemma OneThreadOneCaller(setup: Setup, program: seq<Op>, states: seq<State>, labels: seq<Label>, k: nat)
    requires RunFrom(setup, states, labels) && setup.programs == [program] && k < |states|
    ensures OneCallerUpTo(states, k)
  {
    forall i | 0 <= i <= k ensures Count(states[i].hosts, InGet) <= 1 {
      RunSequential(setup, program, states, labels, i);
      CountOfOne(states[i].hosts);
    }
  }

  lemma CountOfOne(hs: seq<HostThread>)
    requires |hs| == 1
    ensures Count(hs, InGet) == (if InGet(hs[0]) then 1 else 0)
    ensures Count(hs, Unsent) == (if Unsent(hs[0]) then 1 else 0)
  {
    assert hs[..0] == [];
  }

  lemma {:induction false} RunAnswer(setup: Setup, states: seq<State>, labels: seq<Label>, k: nat)
    requires RunFrom(setup, states, labels) && k < |states|
    ensures states[k].answer == PipeAnswers(setup.getter)
  {
    if k > 0 {
      RunAnswer(setup, states, labels, k - 1);
      assert StepAt(states, labels, k - 1);
      SameAnswer(states[k - 1], labels[k - 1]);
    }
  }

  lemma SameAnswer(s: State, l: Label)
    requires Enabled(s, l)
    ensures Next(s, l).answer == s.answer
  {}

  function ReportsOf(returned: seq<Return>): (rs: seq<FeatureReport>)
    ensures |rs| == |returned| && forall k :: 0 <= k < |rs| ==> rs[k] == returned[k].report
  {
    if returned == [] then [] else ReportsOf(returned[..|returned| - 1]) + [returned[|returned| - 1].report]
  }

  /** In every state of every run with one host thread, the device has seen a prefix
      of the thread's operations, in order, and the gets that returned have returned
      what the same operations return when performed one after the other. */
  lemma SequentialMeaning(
    setup: Setup, program: seq<Op>, states: seq<State>, labels: seq<Label>, k: nat)
    requires RunFrom(setup, states, labels) && setup.programs == [program] && k < |states|
    ensures states[k].log <= program
    ensures ReportsOf(states[k].returned) <= Results(PipeAnswers(setup.getter), program)
  {
    var s := states[k];
    RunInv(setup, states, labels, k);
    RunSequential(setup, program, states, labels, k);
    OneThreadOneCaller(setup, program, states, labels, k);
    RunAnswer(setup, states, labels, k);
    RunMatched(setup, states, labels, k);
    DeliveredInOrder(s);
    ResultsPrefix(s.answer, s.log, program);
    ReturnedPrefix(s);
  }

  lemma ReturnedPrefix(s: State)
    requires SystemInv(s) && Matched(CallsOf(s))
    ensures ReportsOf(s.returned) <= s.answered
  {
    forall k | 0 <= k < |s.returned|
      ensures k < |s.answered| && ReportsOf(s.returned)[k] == s.answered[k]
    {
      EveryReturnIsAnAnswer(s, k);
      assert CallsOf(s).returned[k] == s.returned[k];
    }
    ResponsesInOrder(s);
  }

  lemma DeliveredAtFinish(s: State, program: seq<Op>)
    requires SystemInv(s) && Sequential(s, program) && Matched(CallsOf(s)) && Enabled(s, Finish(0))
    ensures var n := |program| - |s.hosts[0].todo|;
            0 <= n < |program| && program[n].GetFeature? && s.log == program[..n + 1]
    ensures s.answered == Results(s.answer, s.log) && |s.answered| == |s.returned| + 1
            && s.response == s.answered[|s.returned|]
  {
    assert HostOk(s, 0);
    CountOfOne(s.hosts);
    ResponsesInOrder(s);
    DeliveredInOrder(s);
    OneResultPerQuery(s.answer, s.toDevice.acquired);
    ResultsPrefix(s.answer, s.log, OpsOf(s.toDevice.acquired));
  }

  /** When a get is about to return, everything before it has been delivered: the
      device has seen the operations up to and including this get, and no more. */
  lemma DeliveredWhenGetReturns(
    setup: Setup, program: seq<Op>, states: seq<State>, labels: seq<Label>, k: nat)
    requires RunFrom(setup, states, labels) && setup.programs == [program] && k < |states|
    requires Enabled(states[k], Finish(0))
    ensures var s := states[k];
            var n := |program| - |s.hosts[0].todo|;
            0 <= n < |program| && program[n].GetFeature? && s.log == program[..n + 1]
    ensures var s := states[k];
            s.answered == Results(PipeAnswers(setup.getter), s.log) && |s.answered| == |s.returned| + 1
            && s.response == s.answered[|s.returned|]
  {
    var s := states[k];
    RunInv(setup, states, labels, k);
    RunSequential(setup, program, states, labels, k);
    OneThreadOneCaller(setup, program, states, labels, k);
    RunAnswer(setup, states, labels, k);
    RunMatched(setup, states, labels, k);
    DeliveredAtFinish(s, program);
  }

  /** Get returns the last set: with a device that serves what was last set, a get that may
      return has the feature of the last set before it in the program. */
  lemma PipeReturnsLastSet(
    setup: Setup, program: seq<Op>, states: seq<State>, labels: seq<Label>, k: nat)
    requires RunFrom(setup, states, labels) && setup.programs == [program] && k < |states|
    requires setup.getter == Some(LastSet) && Enabled(states[k], Finish(0))
    ensures var s := states[k];
            var n := |program| - |s.hosts[0].todo|;
            0 <= n < |program| && program[n].GetFeature? && s.response == LastSet(program[..n])
  {
    DeliveredWhenGetReturns(setup, program, states, labels, k);
    var n := |program| - |states[k].hosts[0].todo|;
    assert program[..n + 1] == program[..n] + [program[n]];
    ResultsSnoc(LastSet, program[..n], program[n]);
  }

  /** Refinement: with a getter installed, what the device sees and what the gets
      return over the pipe is always a prefix of what the in-process transport shows
      and returns for the same operations. */
  lemma RefinesInProcess(
    setup: Setup, program: seq<Op>, states: seq<State>, labels: seq<Label>, k: nat, e: Endpoint)
    requires RunFrom(setup, states, labels) && setup.programs == [program] && k < |states|
    requires e.open && e.hasOutput && e.hasSetter && e.getter == setup.getter && e.getter.Some? && e.log == []
    ensures var (after, results) := PerformAll(e, program);
            states[k].log <= after.log && ReportsOf(states[k].returned) <= results
  {
    WiredRun(e, program);
    SequentialMeaning(setup, program, states, labels, k);
  }

  /** Without a getter the two transports agree exactly on programs in which every
      get comes while the feature set last is still the default one. */
  lemma {:induction false} WithoutGetter(ops: seq<Op>)
    ensures Results(PipeAnswers(None), ops) == Results(Answers(None), ops)
       <==> forall k :: 0 <= k < |ops| && ops[k].GetFeature? ==> LastSet(ops[..k]) == DEFAULT_FEATURE
  {
    if ops != [] {
      var init, n := ops[..|ops| - 1], |ops| - 1;
      WithoutGetter(init);
      SameResultCount(PipeAnswers(None), Answers(None), init);
      assert forall k :: 0 <= k < n ==> init[..k] == ops[..k];
      if ops[n].GetFeature? {
        ConcatEqual(Results(PipeAnswers(None), init), [DEFAULT_FEATURE], Results(Answers(None), init), [LastSet(init)]);
        assert [DEFAULT_FEATURE] == [LastSet(init)] <==> [DEFAULT_FEATURE][0] == [LastSet(init)][0];
      } else {
        ConcatEqual(Results(PipeAnswers(None), init), [], Results(Answers(None), init), []);
      }
    }
  }

  lemma {:induction false} SameResultCount(f: Getter, g: Getter, ops: seq<Op>)
    ensures |Results(f, ops)| == |Results(g, ops)|
  {
    if ops != [] {
      SameResultCount(f, g, ops[..|ops| - 1]);
    }
  }
}
