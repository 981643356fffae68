/** No deadlock and no endless run: while both directions live, every state with
    work left has an enabled step, and every step lowers a rank. */
module PipeProgress {
  import opened Frames
  import opened Channels
  import opened InProcess
  import opened PipeSystem
  import opened PipeInvariants
  import opened PipeCalls
  import opened PipeRuns

  // ---------- the rank ----------

  function Sum<T>(xs: seq<T>, f: T -> nat): nat {
    if xs == [] then 0 else Sum(xs[..|xs| - 1], f) + f(xs[|xs| - 1])
  }

  lemma {:induction false} SumUpdate<T>(xs: seq<T>, i: nat, x: T, f: T -> nat)
    requires i < |xs|
    ensures Sum(xs[i := x], f) == Sum(xs, f) - f(xs[i]) + f(x)
  {
    var n := |xs| - 1;
    if i < n {
      SumUpdate(xs[..n], i, x, f);
      assert xs[i := x][..n] == xs[..n][i := x];
    } else {
      assert xs[i := x][..n] == xs[..n];
    }
  }

  /** What dispatching a message can still cause: a query brings about a reply. */
  function MsgCost(m: Msg): nat { if m.QueryMsg? then 28 else 1 }

  function Weight(ms: seq<Msg>): nat {
    if ms == [] then 0 else Weight(ms[..|ms| - 1]) + MsgCost(ms[|ms| - 1])
  }

  /** Every byte is written and read once, every frame unlocked and dispatched once. */
  function ChannelRank(c: Channel): int {
    2 * |c.left| + |c.fifo| + (if c.owner.Some? then 1 else 0) + (if c.dead then 0 else 1)
    + Weight(c.acquired) - Weight(c.delivered)
  }

  function HostRank(h: HostThread): nat {
    if h.todo == [] then 0
    else 46 * (|h.todo| - 1) + match h.pc
      case Ready => 46
      case Locking => 45
      case Writing => 1
      case Awaiting => 1
  }

  function DeviceRank(d: DeviceThread): nat {
    if d.todo == [] then 0 else if d.writing then 43 * (|d.todo| - 1) else 43 * |d.todo|
  }

  function ServingRank(s: Serving): nat { if s.Answering? then 27 else 0 }

  function Rank(s: State): int {
    Sum(s.hosts, HostRank) + Sum(s.devices, DeviceRank) + ServingRank(s.serving)
    + ChannelRank(s.toDevice) + ChannelRank(s.toHost)
  }

  lemma WeightSnoc(ms: seq<Msg>, m: Msg)
    ensures Weight(ms + [m]) == Weight(ms) + MsgCost(m)
  {
    assert (ms + [m])[..|ms|] == ms;
  }

  lemma {:induction false} WeightPrefix(a: seq<Msg>, b: seq<Msg>)
    requires a <= b
    ensures Weight(a) <= Weight(b)
    decreases |b|
  {
    if a == b {
      assert b == a;
    } else {
      assert a == b[..|a|] && a <= b[..|b| - 1];
      WeightPrefix(a, b[..|b| - 1]);
    }
  }

  lemma RankBounded(s: State)
    requires SystemInv(s)
    ensures Rank(s) >= 0
  {
    WeightPrefix(s.toDevice.delivered, s.toDevice.acquired);
    WeightPrefix(s.toHost.delivered, s.toHost.acquired);
  }

  lemma LockRank(c: Channel, w: Writer, m: Msg)
    requires c.left == [] && CanLock(c)
    ensures ChannelRank(Lock(c, w, m)) == ChannelRank(c) + 2 * |Encode(m)| + 1 + MsgCost(m)
  {
    WeightSnoc(c.acquired, m);
  }

  lemma QuietRank(c: Channel, n: nat)
    ensures CanPut(c, n) ==> ChannelRank(Put(c, n)) < ChannelRank(c)
    ensures CanUnlock(c) ==> ChannelRank(Unlock(c)) < ChannelRank(c)
    ensures CanTake(c, n) ==> ChannelRank(Take(c, n)) < ChannelRank(c)
    ensures CanCut(c, n) ==> ChannelRank(Cut(c, n)) < ChannelRank(c)
  {}

  lemma HostThreadRank(s: State, l: Label)
    requires Owners(s) && (s.toDevice.owner.None? ==> s.toDevice.left == [])
    requires Enabled(s, l) && (l.Begin? || l.HostLock? || l.HostUnlock? || l.Finish?)
    ensures Rank(Next(s, l)) < Rank(s)
  {
    var t := Next(s, l);
    var i := if l.HostUnlock? then s.toDevice.owner.value.index else l.i;
    assert HostOk(s, i);
    SumUpdate(s.hosts, i, t.hosts[i], HostRank);
    if l.HostLock? {
      LockRank(s.toDevice, App(i), MsgOf(s.hosts[i].todo[0]));
    } else if l.HostUnlock? {
      QuietRank(s.toDevice, 0);
    }
  }

  lemma DeviceThreadRank(s: State, l: Label)
    requires Owners(s) && (s.toHost.owner.None? ==> s.toHost.left == [])
    requires Enabled(s, l) && (l.SubmitLock? || l.ReplyLock? || l.DeviceUnlock?)
    ensures Rank(Next(s, l)) < Rank(s)
  {
    var t := Next(s, l);
    match l
    case SubmitLock(j) =>
      SumUpdate(s.devices, j, t.devices[j], DeviceRank);
      LockRank(s.toHost, App(j), InputMsg(s.devices[j].todo[0]));
    case ReplyLock => LockRank(s.toHost, Server, ReplyMsg(s.serving.reply));
    case DeviceUnlock =>
      QuietRank(s.toHost, 0);
      if s.toHost.owner.value.App? {
        var j := s.toHost.owner.value.index;
        assert DeviceOk(s, j);
        SumUpdate(s.devices, j, t.devices[j], DeviceRank);
      }
  }

  lemma DispatchRank(c: Channel)
    requires Inv(c) && CanDispatch(c)
    ensures var m := c.acquired[|c.delivered|];
            ActionOf(c) == Handled(m) && ChannelRank(Dispatch(c)) == ChannelRank(c) - MsgCost(m)
  {
    DispatchDelivers(c);
    WeightSnoc(c.delivered, c.acquired[|c.delivered|]);
  }

  lemma ReactionRank(s: State, d: Channel, m: Msg)
    requires s.serving.Listening?
    ensures Rank(DeviceReacts(s.(toDevice := d), Handled(m)))
         == Rank(s) - ChannelRank(s.toDevice) + ChannelRank(d) + if m.QueryMsg? then 27 else 0
  {}

  lemma ArrivalRank(s: State, c: Channel, m: Msg)
    ensures Rank(HostReacts(s.(toHost := c), Handled(m))) == Rank(s) - ChannelRank(s.toHost) + ChannelRank(c)
  {}

  lemma {:induction false} DeviceReaderRank(s: State)
    requires Inv(s.toDevice) && Enabled(s, DeviceDispatch)
    ensures Rank(Next(s, DeviceDispatch)) < Rank(s)
  {
    DispatchRank(s.toDevice);
    ReactionRank(s, Dispatch(s.toDevice), s.toDevice.acquired[|s.toDevice.delivered|]);
  }

  lemma {:induction false} HostReaderRank(s: State)
    requires Inv(s.toHost) && Enabled(s, HostDispatch)
    ensures Rank(Next(s, HostDispatch)) < Rank(s)
  {
    DispatchRank(s.toHost);
    ArrivalRank(s, Dispatch(s.toHost), s.toHost.acquired[|s.toHost.delivered|]);
  }

  lemma ByteRank(s: State, l: Label)
    requires Enabled(s, l)
    requires l.HostPut? || l.DeviceTake? || l.DevicePut? || l.HostTake? || l.CutToDevice? || l.CutToHost?
    ensures Rank(Next(s, l)) < Rank(s)
  {
    var n := if l.CutToDevice? || l.CutToHost? then l.keep else l.n;
    QuietRank(s.toDevice, n);
    QuietRank(s.toHost, n);
  }

  /** Every step lowers the rank. */
  lemma {:induction false} StepLowersRank(s: State, l: Label)
    requires SystemInv(s) && Enabled(s, l)
    ensures Rank(Next(s, l)) < Rank(s)
  {
    if l.Begin? || l.HostLock? || l.HostUnlock? || l.Finish? {
      HostThreadRank(s, l);
    } else if l.SubmitLock? || l.ReplyLock? || l.DeviceUnlock? {
      DeviceThreadRank(s, l);
    } else if l.DeviceDispatch? {
      DeviceReaderRank(s);
    } else if l.HostDispatch? {
      HostReaderRank(s);
    } else {
      ByteRank(s, l);
    }
  }

  lemma {:induction false} RankAlongRun(setup: Setup, states: seq<State>, labels: seq<Label>, k: nat)
    requires RunFrom(setup, states, labels) && k < |states|
    ensures Rank(states[k]) + k <= Rank(setup.Start())
  {
    if k > 0 {
      RankAlongRun(setup, states, labels, k - 1);
      RankAtStep(setup, states, labels, k - 1);
    }
  }

  lemma RankAtStep(setup: Setup, states: seq<State>, labels: seq<Label>, k: nat)
    requires RunFrom(setup, states, labels) && k < |labels|
    ensures Rank(states[k + 1]) < Rank(states[k])
  {
    RunInv(setup, states, labels, k);
    assert StepAt(states, labels, k);
    StepLowersRank(states[k], labels[k]);
  }

  /** No run is longer than the rank of its start. */
  lemma RunsAreBounded(setup: Setup, states: seq<State>, labels: seq<Label>)
    requires RunFrom(setup, states, labels)
    ensures |labels| <= Rank(setup.Start())
  {
    RankAlongRun(setup, states, labels, |labels|);
    RunInv(setup, states, labels, |labels|);
    RankBounded(states[|labels|]);
  }

  // ---------- no deadlock ----------

  predicate IsCut(l: Label) { l.CutToDevice? || l.CutToHost? }

  /** A state in which a step other than the death of a direction is impossible. */
  ghost predicate Stuck(s: State) { forall l :: Enabled(s, l) ==> IsCut(l) }

  /** Every thread has finished and everything sent has been delivered. */
  predicate Done(s: State) {
    && (forall i :: 0 <= i < |s.hosts| ==> s.hosts[i].todo == [])
    && (forall j :: 0 <= j < |s.devices| ==> s.devices[j].todo == [])
    && s.serving.Listening?
    && s.toDevice.delivered == s.toDevice.acquired && s.toHost.delivered == s.toHost.acquired
  }

  predicate HasRoom(s: State) { s.toDevice.capacity >= 1 && s.toHost.capacity >= 1 }

  predicate Alive(s: State) { !s.toDevice.dead && !s.toHost.dead && HasRoom(s) }

  /** Nothing left for the reader or the mutex holder to do. */
  predicate Idle(c: Channel) { c.owner.None? && c.fifo == [] && !CanDispatch(c) }

  /** A get that waits while the flag is set, or a thread that has finished. */
  predicate Parked(s: State, h: HostThread) { h.todo == [] || (h.pc == Awaiting && s.pending) }

  /** Both directions are idle, and no thread has anything to do but wait for a response. */
  predicate AtRest(s: State) {
    && Idle(s.toHost) && Idle(s.toDevice) && s.serving.Listening?
    && (forall j :: 0 <= j < |s.devices| ==> s.devices[j].todo == [])
    && (forall i :: 0 <= i < |s.hosts| ==> Parked(s, s.hosts[i]))
  }

  lemma ReaderCanMove(c: Channel)
    requires Inv(c) && c.fifo != []
    ensures CanDispatch(c) || CanTake(c, 1)
  {
    if c.acc != [] {
      MissingWithin(c.acc, c.acquired[|c.delivered|]);
    }
  }

  lemma OwnerCanMove(c: Channel)
    requires Inv(c) && c.capacity >= 1 && c.owner.Some? && c.fifo == []
    ensures CanPut(c, 1) || CanUnlock(c)
  {}

  /** The direction to the host always drains: its reader and its writers never
      wait for the other direction. */
  lemma HostSideMoves(s: State) returns (l: Label)
    requires ChannelsOk(s) && Owners(s) && HasRoom(s) && !Idle(s.toHost)
    ensures !IsCut(l) && Enabled(s, l)
  {
    if CanDispatch(s.toHost) {
      l := HostDispatch;
    } else if s.toHost.fifo != [] {
      ReaderCanMove(s.toHost);
      l := HostTake(1);
    } else {
      OwnerCanMove(s.toHost);
      if CanPut(s.toHost, 1) {
        l := DevicePut(1);
      } else {
        l := DeviceUnlock;
        if s.toHost.owner.value.App? {
          assert DeviceOk(s, s.toHost.owner.value.index);
        }
      }
    }
  }

  lemma DeviceThreadsMove(s: State) returns (l: Label)
    requires Owners(s) && Idle(s.toHost)
    requires !s.serving.Listening? || exists j :: 0 <= j < |s.devices| && s.devices[j].todo != []
    ensures !IsCut(l) && Enabled(s, l)
  {
    if !s.serving.Listening? {
      l := ReplyLock;
    } else {
      var j :| 0 <= j < |s.devices| && s.devices[j].todo != [];
      assert DeviceOk(s, j);
      l := SubmitLock(j);
    }
  }

  lemma DeviceSideMoves(s: State) returns (l: Label)
    requires ChannelsOk(s) && Owners(s) && HasRoom(s) && s.serving.Listening? && !Idle(s.toDevice)
    ensures !IsCut(l) && Enabled(s, l)
  {
    if CanDispatch(s.toDevice) {
      l := DeviceDispatch;
    } else if s.toDevice.fifo != [] {
      ReaderCanMove(s.toDevice);
      l := DeviceTake(1);
    } else {
      OwnerCanMove(s.toDevice);
      if CanPut(s.toDevice, 1) {
        l := HostPut(1);
      } else {
        l := HostUnlock;
        assert HostOk(s, s.toDevice.owner.value.index);
      }
    }
  }

  /** With an idle direction a thread is ready, or wants the mutex, which is free, or may return. */
  lemma HostThreadMoves(s: State, i: nat) returns (l: Label)
    requires Owners(s) && Idle(s.toDevice) && i < |s.hosts| && !Parked(s, s.hosts[i])
    ensures !IsCut(l) && Enabled(s, l)
  {
    assert HostOk(s, i);
    match s.hosts[i].pc
    case Ready => l := Begin(i);
    case Locking => l := HostLock(i);
    case Awaiting => l := Finish(i);
  }

  lemma RestOrMove(s: State) returns (l: Label)
    requires ChannelsOk(s) && Owners(s) && HasRoom(s) && !AtRest(s)
    ensures !IsCut(l) && Enabled(s, l)
  {
    if !Idle(s.toHost) {
      l := HostSideMoves(s);
    } else if !s.serving.Listening? || exists j :: 0 <= j < |s.devices| && s.devices[j].todo != [] {
      l := DeviceThreadsMove(s);
    } else if !Idle(s.toDevice) {
      l := DeviceSideMoves(s);
    } else {
      var i :| 0 <= i < |s.hosts| && !Parked(s, s.hosts[i]);
      l := HostThreadMoves(s, i);
    }
  }

  lemma RestIsStuck(s: State)
    requires AtRest(s)
    ensures Stuck(s)
  {
    forall i | 0 <= i < |s.hosts| && s.hosts[i].todo != []
      ensures !Enabled(s, Begin(i)) && !Enabled(s, HostLock(i)) && !Enabled(s, Finish(i))
    {
      assert Parked(s, s.hosts[i]);
    }
  }

  /** The stuck states, whatever has died: everything is idle, and whoever has not
      finished waits for a response while the flag is set. */
  lemma StuckStates(s: State)
    requires SystemInv(s) && HasRoom(s)
    ensures Stuck(s) <==> AtRest(s)
  {
    if AtRest(s) {
      RestIsStuck(s);
    } else {
      var l := RestOrMove(s);
    }
  }

  lemma NobodyUnsent(s: State)
    requires Owners(s) && AtRest(s)
    ensures Count(s.hosts, Unsent) == 0
  {
    forall i | 0 <= i < |s.hosts| ensures !Unsent(s.hosts[i]) {
      assert HostOk(s, i) && Parked(s, s.hosts[i]);
    }
    CountZero(s.hosts, Unsent);
  }

  /** While both directions live, nobody waits in vain. */
  lemma AliveAtRestIsDone(s: State)
    requires SystemInv(s) && Alive(s) && AtRest(s)
    ensures Done(s)
  {
    QuietMeansDelivered(s.toHost);
    QuietMeansDelivered(s.toDevice);
    NobodyUnsent(s);
    TokensCount(s);
    forall i | 0 <= i < |s.hosts| ensures s.hosts[i].todo == [] {
      assert Parked(s, s.hosts[i]);
    }
  }

  /** No deadlock: while both directions live, every reachable state with work left
      has an enabled step, for any number of threads and outstanding gets. */
  lemma Progress(s: State) returns (l: Label)
    requires SystemInv(s) && Alive(s) && !Done(s)
    ensures !IsCut(l) && Enabled(s, l)
  {
    if AtRest(s) {
      AliveAtRestIsDone(s);
      assert false;
    }
    l := RestOrMove(s);
  }

  // ---------- completion ----------

  lemma {:induction false} StaysAlive(setup: Setup, states: seq<State>, labels: seq<Label>, k: nat)
    requires RunFrom(setup, states, labels) && k < |states| && setup.capacity >= 1
    requires forall i :: 0 <= i < |labels| ==> !IsCut(labels[i])
    ensures Alive(states[k])
  {
    if k > 0 {
      StaysAlive(setup, states, labels, k - 1);
      assert StepAt(states, labels, k - 1);
      StepStaysAlive(states[k - 1], labels[k - 1]);
    }
  }

  lemma StepStaysAlive(s: State, l: Label)
    requires Enabled(s, l) && !IsCut(l) && Alive(s)
    ensures Alive(Next(s, l))
  {}

  /** Every run in which no direction dies ends, within a bound known at the start,
      with every call returned and every report delivered. */
  lemma Completion(setup: Setup, states: seq<State>, labels: seq<Label>)
    requires RunFrom(setup, states, labels) && setup.capacity >= 1
    requires forall i :: 0 <= i < |labels| ==> !IsCut(labels[i])
    ensures |labels| <= Rank(setup.Start())
    ensures Stuck(states[|labels|]) ==> Done(states[|labels|])
  {
    RunsAreBounded(setup, states, labels);
    var last := states[|labels|];
    if !Done(last) {
      RunInv(setup, states, labels, |labels|);
      StaysAlive(setup, states, labels, |labels|);
      var l := Progress(last);
      assert Enabled(last, l) && !IsCut(l);
    }
  }

  /** With one host thread and a getter, a completed run has done exactly what the
      in-process transport does for the same program. */
  lemma CompletedRunEqualsInProcess(
    setup: Setup, program: seq<Op>, states: seq<State>, labels: seq<Label>, e: Endpoint)
    requires RunFrom(setup, states, labels) && setup.programs == [program] && setup.capacity >= 1
    requires forall i :: 0 <= i < |labels| ==> !IsCut(labels[i])
    requires Stuck(states[|labels|])
    requires e.open && e.hasOutput && e.hasSetter && e.getter == setup.getter && e.getter.Some? && e.log == []
    ensures var (after, results) := PerformAll(e, program);
            var last := states[|labels|];
            last.log == after.log && ReportsOf(last.returned) == results
  {
    var k := |labels|;
    Completion(setup, states, labels);
    RefinesInProcess(setup, program, states, labels, k, e);
    WiredRun(e, program);
    FinalCounts(setup, program, states, labels);
  }

  lemma FinalCounts(setup: Setup, program: seq<Op>, states: seq<State>, labels: seq<Label>)
    requires RunFrom(setup, states, labels) && setup.programs == [program] && Done(states[|labels|])
    ensures var last := states[|labels|];
            last.log == program && |last.returned| == |Results(PipeAnswers(setup.getter), program)|
  {
    var k := |labels|;
    var s := states[k];
    RunInv(setup, states, labels, k);
    RunSequential(setup, program, states, labels, k);
    assert HostOk(s, 0) && s.hosts[0].todo == [] && s.hosts[0].pc == Ready;
    CountOfOne(s.hosts);
    OneResultPerQuery(PipeAnswers(setup.getter), s.toDevice.acquired);
    ReturnedAll(s);
  }

  /** With no get in progress every query has had its return. */
  lemma ReturnedAll(s: State)
    requires CallsOk(CallsOf(s)) && Count(s.hosts, InGet) == 0 && Count(s.hosts, Unsent) == 0
    ensures |s.returned| == Queries(s.toDevice.acquired)
  {}
}
