/** Reachable states, and how whole messages and operations get through the pipe:
    one byte at a time, so that a buffer of any size will do. */
module PipeReach {
  import opened Core
  import opened Reports
  import opened Frames
  import opened Channels
  import opened InProcess
  import opened PipeSystem
  import opened PipeRuns

  ghost predicate Reachable(setup: Setup, s: State) {
    exists states: seq<State>, labels: seq<Label> ::
      RunFrom(setup, states, labels) && states[|labels|] == s
  }

  lemma ReachStart(setup: Setup)
    ensures Reachable(setup, setup.Start())
  {
    assert RunFrom(setup, [setup.Start()], []);
  }

  lemma RunExtends(states: seq<State>, labels: seq<Label>, l: Label)
    requires IsRun(states, labels) && Enabled(states[|labels|], l)
    ensures IsRun(states + [Next(states[|labels|], l)], labels + [l])
  {
    var states', labels' := states + [Next(states[|labels|], l)], labels + [l];
    forall k | 0 <= k < |labels'| ensures StepAt(states', labels', k) {
      if k < |labels| {
        assert StepAt(states, labels, k);
      }
    }
  }

  lemma ReachStep(setup: Setup, s: State, l: Label)
    requires Reachable(setup, s) && Enabled(s, l)
    ensures Reachable(setup, Next(s, l))
  {
    var states: seq<State>, labels: seq<Label> :| RunFrom(setup, states, labels) && states[|labels|] == s;
    RunExtends(states, labels, l);
    assert RunFrom(setup, states + [Next(s, l)], labels + [l]);
  }

  lemma ReachableInv(setup: Setup, s: State)
    requires Reachable(setup, s)
    ensures SystemInv(s)
  {
    var states: seq<State>, labels: seq<Label> :| RunFrom(setup, states, labels) && states[|labels|] == s;
    RunInv(setup, states, labels, |labels|);
  }

  // ---------- a frame gets through ----------

  /** A direction whose owner has still to write the rest of `m`, and whose reader has all before. */
  predicate Passing(c: Channel, m: Msg) {
    && c.owner.Some? && !c.dead && !c.crashed && c.capacity >= 1
    && c.fifo == [] && c.acc + c.left == Encode(m)
  }

  function PassByte(c: Channel): Channel
    requires c.left != []
  {
    c.(left := c.left[1..], acc := c.acc + [c.left[0]], sent := c.sent + [c.left[0]])
  }

  lemma ByteCanPass(c: Channel, m: Msg)
    requires Passing(c, m) && c.left != []
    ensures CanPut(c, 1) && CanTake(Put(c, 1), 1) && Take(Put(c, 1), 1) == PassByte(c)
    ensures Passing(PassByte(c), m)
  {
    assert c.acc <= Encode(m) && c.acc != Encode(m);
    MissingWithin(c.acc, m);
    assert c.left == [c.left[0]] + c.left[1..];
    assert c.left[..1] == [c.left[0]];
    AppendAssociates(c.acc, [c.left[0]], c.left[1..]);
  }

  predicate Passed(c: Channel, d: Channel, m: Msg) {
    d == c.(left := [], acc := Encode(m), sent := d.sent)
  }

  lemma {:induction false} FrameToDevice(setup: Setup, s: State, m: Msg) returns (t: State)
    requires Reachable(setup, s) && s.serving.Listening? && Passing(s.toDevice, m)
    ensures Reachable(setup, t) && t == s.(toDevice := t.toDevice) && Passed(s.toDevice, t.toDevice, m)
    decreases |s.toDevice.left|
  {
    if s.toDevice.left == [] {
      t := s;
      assert s.toDevice.acc + [] == s.toDevice.acc;
    } else {
      ByteCanPass(s.toDevice, m);
      ReachStep(setup, s, HostPut(1));
      ReachStep(setup, Next(s, HostPut(1)), DeviceTake(1));
      t := FrameToDevice(setup, s.(toDevice := PassByte(s.toDevice)), m);
    }
  }

  lemma {:induction false} FrameToHost(setup: Setup, s: State, m: Msg) returns (t: State)
    requires Reachable(setup, s) && Passing(s.toHost, m)
    ensures Reachable(setup, t) && t == s.(toHost := t.toHost) && Passed(s.toHost, t.toHost, m)
    decreases |s.toHost.left|
  {
    if s.toHost.left == [] {
      t := s;
      assert s.toHost.acc + [] == s.toHost.acc;
    } else {
      ByteCanPass(s.toHost, m);
      ReachStep(setup, s, DevicePut(1));
      ReachStep(setup, Next(s, DevicePut(1)), HostTake(1));
      t := FrameToHost(setup, s.(toHost := PassByte(s.toHost)), m);
    }
  }

  // ---------- the steps of a call ----------

  /** A direction between messages. */
  predicate Quiet(c: Channel) {
    c.owner.None? && c.left == [] && c.fifo == [] && c.acc == [] && !c.dead && !c.crashed && c.capacity >= 1
  }

  /** A direction whose reader holds the whole of `m`. */
  predicate Holding(c: Channel, m: Msg) {
    && c.owner.None? && c.left == [] && c.fifo == [] && !c.dead && !c.crashed && c.capacity >= 1
    && c.acc == Encode(m)
  }

  lemma LockedPasses(c: Channel, w: Writer, m: Msg)
    requires Quiet(c)
    ensures CanLock(c) && Passing(Lock(c, w, m), m)
  {
    assert [] + Encode(m) == Encode(m);
  }

  lemma HoldingDispatches(c: Channel, m: Msg)
    requires Holding(c, m)
    ensures CanDispatch(c) && ActionOf(c) == Handled(m) && Quiet(Dispatch(c))
  {
    EncodedIsComplete(m);
  }

  /** A thread that is before the mutex writes its operation; the reader has all of it. */
  lemma OperationSent(setup: Setup, s: State, i: nat) returns (t: State)
    requires Reachable(setup, s) && s.serving.Listening? && Quiet(s.toDevice) && i < |s.hosts|
    requires s.hosts[i].pc == Locking && s.hosts[i].todo != []
    ensures Reachable(setup, t) && Holding(t.toDevice, MsgOf(s.hosts[i].todo[0]))
    ensures var h := s.hosts[i];
            t == s.(toDevice := t.toDevice,
                    hosts := s.hosts[i := if h.todo[0].GetFeature? then h.(pc := Awaiting)
                                          else h.(pc := Ready, todo := h.todo[1..])])
  {
    var m := MsgOf(s.hosts[i].todo[0]);
    LockedPasses(s.toDevice, App(i), m);
    ReachStep(setup, s, HostLock(i));
    t := FrameToDevice(setup, Next(s, HostLock(i)), m);
    ReachStep(setup, t, HostUnlock);
    t := Next(t, HostUnlock);
  }

  lemma QueryAnswered(setup: Setup, s: State) returns (t: State)
    requires Reachable(setup, s) && s.serving.Listening? && Holding(s.toDevice, QueryMsg)
    ensures Reachable(setup, t) && Quiet(t.toDevice)
    ensures var r := s.answer(s.log);
            t == s.(toDevice := t.toDevice, log := s.log + [GetFeature],
                    answered := s.answered + [r], serving := Answering(r))
  {
    HoldingDispatches(s.toDevice, QueryMsg);
    ReachStep(setup, s, DeviceDispatch);
    t := Next(s, DeviceDispatch);
  }

  lemma ReplySent(setup: Setup, s: State) returns (t: State)
    requires Reachable(setup, s) && s.serving.Answering? && Quiet(s.toHost)
    ensures Reachable(setup, t) && Holding(t.toHost, ReplyMsg(s.serving.reply))
    ensures t == s.(toHost := t.toHost, serving := Listening)
  {
    var m := ReplyMsg(s.serving.reply);
    LockedPasses(s.toHost, Server, m);
    ReachStep(setup, s, ReplyLock);
    t := FrameToHost(setup, Next(s, ReplyLock), m);
    ReachStep(setup, t, DeviceUnlock);
    t := Next(t, DeviceUnlock);
  }

  lemma ReplyRead(setup: Setup, s: State, r: FeatureReport) returns (t: State)
    requires Reachable(setup, s) && Holding(s.toHost, ReplyMsg(r))
    ensures Reachable(setup, t) && Quiet(t.toHost)
    ensures t == s.(toHost := t.toHost, response := r, pending := false, arrived := s.arrived + [r])
  {
    HoldingDispatches(s.toHost, ReplyMsg(r));
    ReachStep(setup, s, HostDispatch);
    t := Next(s, HostDispatch);
  }
}
