/** Concrete runs that show where the guarantees of the pipe transport end. */
module PipeExamples {
  import opened Core
  import opened Reports
  import opened Frames
  import opened Channels
  import opened InProcess
  import opened PipeSystem
  import opened PipeRuns
  import opened PipeProgress
  import opened PipeReach
  import opened PipeOutcomes

  const BUFFER_SIZE: nat := 64 * 1024

  /** The last message was a query whose write failed. */
  predicate QueryUnwritten(c: Channel) {
    && c.results != [] && |c.results| == |c.acquired|
    && c.acquired[|c.acquired| - 1] == QueryMsg && !c.results[|c.results| - 1]
  }

  lemma UnwrittenAfterCut(c: Channel, w: Writer)
    requires Quiet(c) && Recorded(c)
    ensures var d := Unlock(Lock(Cut(c, 0), w, QueryMsg)); Idle(d) && QueryUnwritten(d)
  {}

  lemma WriteInVain(setup: Setup, s: State, i: nat) returns (t: State)
    requires Reachable(setup, s) && Quiet(s.toDevice) && i < |s.hosts|
    requires s.hosts[i].pc == Locking && s.hosts[i].todo != [] && s.hosts[i].todo[0] == GetFeature
    ensures Reachable(setup, t)
    ensures t == s.(hosts := s.hosts[i := s.hosts[i].(pc := Awaiting)],
                    toDevice := Unlock(Lock(Cut(s.toDevice, 0), App(i), QueryMsg)))
  {
    ReachStep(setup, s, CutToDevice(0));
    t := Next(s, CutToDevice(0));
    ReachStep(setup, t, HostLock(i));
    t := Next(t, HostLock(i));
    ReachStep(setup, t, HostUnlock);
    t := Next(t, HostUnlock);
  }

  lemma ReachableRecords(setup: Setup, s: State)
    requires Reachable(setup, s)
    ensures Recorded(s.toDevice)
  {
    ReachableInv(setup, s);
  }

  /** The direction to the device dies, and thread `i` writes its query in vain. */
  lemma QueryLost(setup: Setup, s: State, i: nat) returns (t: State)
    requires Reachable(setup, s) && Quiet(s.toDevice) && i < |s.hosts|
    requires s.hosts[i].pc == Locking && s.hosts[i].todo != [] && s.hosts[i].todo[0] == GetFeature
    ensures Reachable(setup, t) && Idle(t.toDevice) && QueryUnwritten(t.toDevice)
    ensures t == s.(hosts := s.hosts[i := s.hosts[i].(pc := Awaiting)], toDevice := t.toDevice)
  {
    ReachableRecords(setup, s);
    UnwrittenAfterCut(s.toDevice, App(i));
    t := WriteInVain(setup, s, i);
  }

  /** If the direction to the device dies before a query is written, get_feature
      ignores the failed write and waits for ever: nothing can happen any more. */
  lemma FailedWriteHangsGet(g: Getter) returns (s: State)
    ensures Reachable(Setup(Some(g), [[GetFeature]], [], BUFFER_SIZE), s)
    ensures Stuck(s) && |s.hosts| == 1 && s.hosts[0].pc == Awaiting && QueryUnwritten(s.toDevice)
  {
    var setup := Setup(Some(g), [[GetFeature]], [], BUFFER_SIZE);
    s := setup.Start();
    ReachStart(setup);
    ReachStep(setup, s, Begin(0));
    s := QueryLost(setup, Next(s, Begin(0)), 0);
    assert s.hosts[0].todo == [GetFeature] && s.devices == [];
    RestIsStuck(s);
  }

  /** A direction into which a query was written with success. */
  function QueryWritten(c: Channel): Channel {
    c.(fifo := Encode(QueryMsg), sent := Encode(QueryMsg),
       acquired := [QueryMsg], writers := [App(0)], results := [true])
  }

  lemma QueryPutWhole(c: Channel)
    requires c == Empty(BUFFER_SIZE)
    ensures CanPut(Lock(c, App(0), QueryMsg), 3)
    ensures Unlock(Put(Lock(c, App(0), QueryMsg), 3)) == QueryWritten(c)
  {}

  lemma QueryInBuffer(setup: Setup, s: State) returns (t: State)
    requires Reachable(setup, s) && s.toDevice == Empty(BUFFER_SIZE) && |s.hosts| == 1
    requires s.hosts[0].pc == Locking && s.hosts[0].todo == [GetFeature]
    ensures Reachable(setup, t)
    ensures t == s.(hosts := [s.hosts[0].(pc := Awaiting)], toDevice := QueryWritten(s.toDevice))
  {
    QueryPutWhole(s.toDevice);
    ReachStep(setup, s, HostLock(0));
    t := Next(s, HostLock(0));
    ReachStep(setup, t, HostPut(3));
    t := Next(t, HostPut(3));
    ReachStep(setup, t, HostUnlock);
    t := Next(t, HostUnlock);
  }

  /** A write that succeeded is no help if the device's end goes away before reading it. */
  lemma UnreadQueryHangsGet(g: Getter) returns (s: State)
    ensures Reachable(Setup(Some(g), [[GetFeature]], [], BUFFER_SIZE), s)
    ensures Stuck(s) && |s.hosts| == 1 && s.hosts[0].pc == Awaiting
    ensures s.toDevice.results == [true] && s.toDevice.lost == Encode(QueryMsg)
  {
    var setup := Setup(Some(g), [[GetFeature]], [], BUFFER_SIZE);
    s := setup.Start();
    ReachStart(setup);
    ReachStep(setup, s, Begin(0));
    s := QueryInBuffer(setup, Next(s, Begin(0)));
    ReachStep(setup, s, CutToDevice(0));
    s := Next(s, CutToDevice(0));
    assert s.devices == [];
    RestIsStuck(s);
  }

  lemma FirstQuerySent(setup: Setup) returns (s: State)
    requires setup.capacity >= 1 && setup.programs == [[GetFeature], [GetFeature]]
    ensures Reachable(setup, s) && Holding(s.toDevice, QueryMsg) && Quiet(s.toHost) && s.serving.Listening?
    ensures s.hosts == [HostThread([GetFeature], Awaiting, 0, 0), HostAt([GetFeature])] && s.returned == []
  {
    s := setup.Start();
    ReachStart(setup);
    ReachStep(setup, s, Begin(0));
    s := OperationSent(setup, Next(s, Begin(0)), 0);
  }

  /** The first of two gets is answered, and then the second begins. */
  lemma BothWait(setup: Setup) returns (s: State)
    requires setup.capacity >= 1 && setup.programs == [[GetFeature], [GetFeature]]
    ensures Reachable(setup, s) && Quiet(s.toDevice) && Quiet(s.toHost) && s.serving.Answering?
    ensures |s.hosts| == 2 && s.returned == []
    ensures s.hosts[0].pc == Awaiting && s.hosts[0].todo == [GetFeature]
    ensures s.hosts[1].pc == Locking && s.hosts[1].todo == [GetFeature]
  {
    s := FirstQuerySent(setup);
    s := QueryAnswered(setup, s);
    ReachStep(setup, s, Begin(1));
    s := Next(s, Begin(1));
  }

  /** The response to the first query clears the flag for both. */
  lemma ResponseClearsBoth(setup: Setup) returns (s: State)
    requires setup.capacity >= 1 && setup.programs == [[GetFeature], [GetFeature]]
    ensures Reachable(setup, s) && Quiet(s.toDevice) && !s.pending && |s.hosts| == 2 && s.returned == []
    ensures s.hosts[0].pc == Awaiting && s.hosts[0].todo == [GetFeature]
    ensures s.hosts[1].pc == Locking && s.hosts[1].todo == [GetFeature]
  {
    s := BothWait(setup);
    var r := s.serving.reply;
    s := ReplySent(setup, s);
    s := ReplyRead(setup, s, r);
  }

  lemma BothReturn(setup: Setup, s: State) returns (t: State)
    requires Reachable(setup, s) && !s.pending && |s.hosts| == 2 && s.returned == []
    requires forall i :: 0 <= i < 2 ==> s.hosts[i].pc == Awaiting && s.hosts[i].todo == [GetFeature]
    ensures Reachable(setup, t) && t.toDevice == s.toDevice && !Unreturned(t) && |t.returned| == 2
  {
    ReachStep(setup, s, Finish(0));
    t := Next(s, Finish(0));
    ReachStep(setup, t, Finish(1));
    t := Next(t, Finish(1));
  }

  /** With two callers a failed write need not hang anyone: the second query is lost, but the
      first one's response has already released both. */
  lemma FailedWriteHangsNobody(g: Getter) returns (s: State)
    ensures Reachable(Setup(Some(g), [[GetFeature], [GetFeature]], [], BUFFER_SIZE), s)
    ensures QueryUnwritten(s.toDevice) && !Unreturned(s) && |s.returned| == 2
  {
    var setup := Setup(Some(g), [[GetFeature], [GetFeature]], [], BUFFER_SIZE);
    s := ResponseClearsBoth(setup);
    s := QueryLost(setup, s, 1);
    s := BothReturn(setup, s);
  }

  /** Without a getter a set of anything but the default report, followed by a get, ends with
      the default report over the pipe and with the report set in process. */
  lemma SetIsNotGotWithoutGetter(r: FeatureReport, e: Endpoint) returns (states: seq<State>, labels: seq<Label>)
    requires r != DEFAULT_FEATURE && e.getter.None?
    ensures CompletedRun(Setup(None, [[SetFeature(r), GetFeature]], [], BUFFER_SIZE), states, labels)
    ensures ReportsOf(states[|labels|].returned) == [DEFAULT_FEATURE]
    ensures PerformAll(e, [SetFeature(r), GetFeature]).1 == [r]
  {
    var program := [SetFeature(r), GetFeature];
    var setup := Setup(None, [program], [], BUFFER_SIZE);
    states, labels := CompletedRunExists(setup);
    CompletedResults(setup, program, states, labels);
    assert program[..1] == [SetFeature(r)] && [SetFeature(r)][..0] == [];
    assert Results(PipeAnswers(None), [SetFeature(r)]) == [];
    assert Results(PipeAnswers(None), program) == [DEFAULT_FEATURE];
    assert PerformAll(e, [SetFeature(r)]) == (Perform(e, SetFeature(r)).0, [] + []);
    assert PerformAll(e, program).1 == [] + [r];
  }
}
