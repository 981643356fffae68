/** Invariants of the pipe transport that every step keeps, for any number of
    threads and callers, and through the death of either direction. */
module PipeInvariants {
  import opened Core
  import opened Reports
  import opened Frames
  import opened Channels
  import opened InProcess
  import opened PipeSystem

  // ---------- message sequences ----------

  function OneOp(m: Msg): seq<Op> {
    match m
    case OutputMsg(r) => [SendOutput(r)]
    case SetMsg(r) => [SetFeature(r)]
    case QueryMsg => [GetFeature]
    case InputMsg(_) => []
    case ReplyMsg(_) => []
  }

  function OpsOf(ms: seq<Msg>): seq<Op> {
    if ms == [] then [] else OpsOf(ms[..|ms| - 1]) + OneOp(ms[|ms| - 1])
  }

  function Replies(ms: seq<Msg>): seq<FeatureReport> {
    if ms == [] then []
    else
      var replies, m := Replies(ms[..|ms| - 1]), ms[|ms| - 1];
      if m.ReplyMsg? then replies + [m.reply] else replies
  }

  function InputsOf(ms: seq<Msg>): seq<InputReport> {
    if ms == [] then []
    else
      var inputs, m := InputsOf(ms[..|ms| - 1]), ms[|ms| - 1];
      if m.InputMsg? then inputs + [m.input] else inputs
  }

  function Queries(ms: seq<Msg>): nat {
    if ms == [] then 0 else Queries(ms[..|ms| - 1]) + if ms[|ms| - 1].QueryMsg? then 1 else 0
  }

  lemma Snoc(ms: seq<Msg>, m: Msg)
    ensures OpsOf(ms + [m]) == OpsOf(ms) + OneOp(m)
    ensures Replies(ms + [m]) == if m.ReplyMsg? then Replies(ms) + [m.reply] else Replies(ms)
    ensures InputsOf(ms + [m]) == if m.InputMsg? then InputsOf(ms) + [m.input] else InputsOf(ms)
    ensures Queries(ms + [m]) == Queries(ms) + if m.QueryMsg? then 1 else 0
  {
    assert (ms + [m])[..|ms|] == ms;
  }

  lemma {:induction false} Prefixes(a: seq<Msg>, b: seq<Msg>)
    requires a <= b
    ensures OpsOf(a) <= OpsOf(b) && Replies(a) <= Replies(b) && Queries(a) <= Queries(b)
    ensures b != [] && b[|b| - 1].QueryMsg? && Queries(a) == Queries(b) ==> a == b
    decreases |b|
  {
    if a == b {
      assert b == a;
    } else {
      var init := b[..|b| - 1];
      assert a == b[..|a|] && a <= init;
      Prefixes(a, init);
    }
  }

  lemma {:induction false} OneResultPerQuery(answer: Getter, ms: seq<Msg>)
    ensures |Results(answer, OpsOf(ms))| == Queries(ms)
  {
    if ms != [] {
      var init, m := ms[..|ms| - 1], ms[|ms| - 1];
      OneResultPerQuery(answer, init);
      if OneOp(m) != [] {
        ResultsSnoc(answer, OpsOf(init), OneOp(m)[0]);
        assert OneOp(m) == [OneOp(m)[0]];
      } else {
        assert OpsOf(init) + [] == OpsOf(init);
      }
    }
  }

  lemma ResultsSnoc(answer: Getter, ops: seq<Op>, op: Op)
    ensures Results(answer, ops + [op]) == Results(answer, ops) + if op.GetFeature? then [answer(ops)] else []
  {
    assert (ops + [op])[..|ops|] == ops;
  }

  // ---------- counting threads ----------

  predicate InGet(h: HostThread) { h.pc != Ready && h.todo != [] && h.todo[0].GetFeature? }

  /** In a get whose query is not yet in line for the pipe. */
  predicate Unsent(h: HostThread) { h.pc == Locking && h.todo != [] && h.todo[0].GetFeature? }

  function Count(hs: seq<HostThread>, p: HostThread -> bool): nat {
    if hs == [] then 0 else Count(hs[..|hs| - 1], p) + if p(hs[|hs| - 1]) then 1 else 0
  }

  lemma {:induction false} CountUpdate(hs: seq<HostThread>, i: nat, h: HostThread, p: HostThread -> bool)
    requires i < |hs|
    ensures Count(hs[i := h], p) == Count(hs, p) - (if p(hs[i]) then 1 else 0) + (if p(h) then 1 else 0)
  {
    var n := |hs| - 1;
    if i < n {
      CountUpdate(hs[..n], i, h, p);
      assert hs[i := h][..n] == hs[..n][i := h];
    } else {
      assert hs[i := h][..n] == hs[..n];
    }
  }

  lemma {:induction false} CountOrder(hs: seq<HostThread>)
    ensures Count(hs, Unsent) <= Count(hs, InGet)
  {
    if hs != [] {
      CountOrder(hs[..|hs| - 1]);
    }
  }

  lemma {:induction false} CountPositive(hs: seq<HostThread>, i: nat, p: HostThread -> bool)
    requires i < |hs| && p(hs[i])
    ensures Count(hs, p) >= 1
  {
    if i < |hs| - 1 {
      CountPositive(hs[..|hs| - 1], i, p);
    }
  }

  lemma {:induction false} CountZero(hs: seq<HostThread>, p: HostThread -> bool)
    requires forall i :: 0 <= i < |hs| ==> !p(hs[i])
    ensures Count(hs, p) == 0
  {
    if hs != [] {
      CountZero(hs[..|hs| - 1], p);
    }
  }

  // ---------- channels ----------

  ghost predicate ChannelsOk(s: State) { Inv(s.toDevice) && Inv(s.toHost) }

  predicate TouchesDevice(l: Label) {
    l.HostLock? || l.HostPut? || l.HostUnlock? || l.DeviceTake? || l.DeviceDispatch? || l.CutToDevice?
  }

  predicate TouchesHost(l: Label) {
    l.ReplyLock? || l.SubmitLock? || l.DevicePut? || l.DeviceUnlock? || l.HostTake? || l.HostDispatch? || l.CutToHost?
  }

  lemma Untouched(s: State, l: Label)
    requires Enabled(s, l)
    ensures !TouchesDevice(l) ==> Next(s, l).toDevice == s.toDevice
    ensures !TouchesHost(l) ==> Next(s, l).toHost == s.toHost
  {}

  lemma DeviceChannel(s: State, l: Label)
    requires TouchesDevice(l) && Enabled(s, l)
    ensures Next(s, l).toDevice ==
            match l
            case HostLock(i) => Lock(s.toDevice, App(i), MsgOf(s.hosts[i].todo[0]))
            case HostPut(n) => Put(s.toDevice, n)
            case HostUnlock => Unlock(s.toDevice)
            case DeviceTake(n) => Take(s.toDevice, n)
            case DeviceDispatch => Dispatch(s.toDevice)
            case CutToDevice(keep) => Cut(s.toDevice, keep)
            case _ => s.toDevice
  {}

  lemma HostChannel(s: State, l: Label)
    requires TouchesHost(l) && Enabled(s, l)
    ensures Next(s, l).toHost ==
            match l
            case ReplyLock => Lock(s.toHost, Server, ReplyMsg(s.serving.reply))
            case SubmitLock(j) => Lock(s.toHost, App(j), InputMsg(s.devices[j].todo[0]))
            case DevicePut(n) => Put(s.toHost, n)
            case DeviceUnlock => Unlock(s.toHost)
            case HostTake(n) => Take(s.toHost, n)
            case HostDispatch => Dispatch(s.toHost)
            case CutToHost(keep) => Cut(s.toHost, keep)
            case _ => s.toHost
  {}

  /** The steps that one channel can take. */
  predicate ChannelStep(c: Channel, d: Channel, w: Writer, m: Msg, n: nat) {
    || (CanLock(c) && d == Lock(c, w, m))
    || (CanPut(c, n) && d == Put(c, n))
    || (CanUnlock(c) && d == Unlock(c))
    || (CanCut(c, n) && d == Cut(c, n))
    || (CanTake(c, n) && d == Take(c, n))
    || (CanDispatch(c) && d == Dispatch(c))
  }

  lemma {:induction false} KeepChannel(c: Channel, d: Channel, w: Writer, m: Msg, n: nat)
    requires Inv(c) && ChannelStep(c, d, w, m, n)
    ensures Inv(d)
  {
    if CanLock(c) && d == Lock(c, w, m) {
      InvLock(c, w, m);
    } else if CanPut(c, n) && d == Put(c, n) {
      InvPut(c, n);
    } else if CanUnlock(c) && d == Unlock(c) {
      InvUnlock(c);
    } else if CanTake(c, n) && d == Take(c, n) {
      InvTake(c, n);
    } else if CanDispatch(c) && d == Dispatch(c) {
      DispatchDelivers(c);
    } else {
      InvCut(c, n);
    }
  }

  lemma {:induction false} DeviceStep(s: State, l: Label) returns (w: Writer, m: Msg, n: nat)
    requires Enabled(s, l) && TouchesDevice(l)
    ensures ChannelStep(s.toDevice, Next(s, l).toDevice, w, m, n)
  {
    DeviceChannel(s, l);
    n := if l.HostPut? || l.DeviceTake? then l.n else if l.CutToDevice? then l.keep else 0;
    w := if l.HostLock? then App(l.i) else Server;
    m := if l.HostLock? then MsgOf(s.hosts[l.i].todo[0]) else QueryMsg;
  }

  lemma {:induction false} HostStep(s: State, l: Label) returns (w: Writer, m: Msg, n: nat)
    requires Enabled(s, l) && TouchesHost(l)
    ensures ChannelStep(s.toHost, Next(s, l).toHost, w, m, n)
  {
    HostChannel(s, l);
    n := if l.DevicePut? || l.HostTake? then l.n else if l.CutToHost? then l.keep else 0;
    w := if l.SubmitLock? then App(l.j) else Server;
    m := if l.SubmitLock? then InputMsg(s.devices[l.j].todo[0])
         else if l.ReplyLock? then ReplyMsg(s.serving.reply) else QueryMsg;
  }

  lemma {:induction false} KeepChannels(s: State, l: Label)
    requires ChannelsOk(s) && Enabled(s, l)
    ensures ChannelsOk(Next(s, l))
  {
    Untouched(s, l);
    if TouchesDevice(l) {
      var w, m, n := DeviceStep(s, l);
      KeepChannel(s.toDevice, Next(s, l).toDevice, w, m, n);
    } else if TouchesHost(l) {
      var w, m, n := HostStep(s, l);
      KeepChannel(s.toHost, Next(s, l).toHost, w, m, n);
    }
  }

  /** Both directions record who wrote and what write_frame returned. */
  ghost predicate Records(s: State) { Recorded(s.toDevice) && Recorded(s.toHost) }

  lemma {:induction false} KeepRecorded(c: Channel, d: Channel, w: Writer, m: Msg, n: nat)
    requires Inv(c) && Recorded(c) && ChannelStep(c, d, w, m, n)
    ensures Recorded(d)
  {
    if CanLock(c) && d == Lock(c, w, m) {
      RecordedLock(c, w, m);
    } else if CanPut(c, n) && d == Put(c, n) {
      RecordedPut(c, n);
    } else if CanUnlock(c) && d == Unlock(c) {
      RecordedUnlock(c);
    } else {
      RecordedReading(c, d);
    }
  }

  lemma {:induction false} KeepRecords(s: State, l: Label)
    requires ChannelsOk(s) && Records(s) && Enabled(s, l)
    ensures Records(Next(s, l))
  {
    Untouched(s, l);
    if TouchesDevice(l) {
      var w, m, n := DeviceStep(s, l);
      KeepRecorded(s.toDevice, Next(s, l).toDevice, w, m, n);
    } else if TouchesHost(l) {
      var w, m, n := HostStep(s, l);
      KeepRecorded(s.toHost, Next(s, l).toHost, w, m, n);
    }
  }

  // ---------- mutex ownership ----------

  predicate HostOk(s: State, i: nat)
    requires i < |s.hosts|
  {
    var h := s.hosts[i];
    && (h.pc != Ready ==> h.todo != [])
    && (h.pc == Awaiting ==> h.todo[0].GetFeature?)
    && (h.pc == Writing <==> s.toDevice.owner == Some(App(i)))
  }

  predicate DeviceOk(s: State, j: nat)
    requires j < |s.devices|
  {
    var d := s.devices[j];
    (d.writing ==> d.todo != []) && (d.writing <==> s.toHost.owner == Some(App(j)))
  }

  predicate Owners(s: State) {
    && (forall i :: 0 <= i < |s.hosts| ==> HostOk(s, i))
    && (s.toDevice.owner.Some? ==> s.toDevice.owner.value.App? && s.toDevice.owner.value.index < |s.hosts|)
    && (forall j :: 0 <= j < |s.devices| ==> DeviceOk(s, j))
    && (s.toHost.owner.Some? && s.toHost.owner.value.App? ==> s.toHost.owner.value.index < |s.devices|)
    && (s.serving.Replying? <==> s.toHost.owner == Some(Server))
  }

  lemma SameHostOwners(s: State, l: Label)
    requires Enabled(s, l) && !(l.Begin? || l.HostLock? || l.HostUnlock? || l.Finish?)
    ensures Next(s, l).hosts == s.hosts && Next(s, l).toDevice.owner == s.toDevice.owner
  {}

  lemma KeepHostOk(s: State, l: Label, i: nat)
    requires Owners(s) && Enabled(s, l) && i < |s.hosts|
    ensures |Next(s, l).hosts| == |s.hosts| && HostOk(Next(s, l), i)
  {
    assert HostOk(s, i);
    if l.Begin? || l.HostLock? || l.HostUnlock? || l.Finish? {
    } else {
      SameHostOwners(s, l);
    }
  }

  lemma SameDeviceOwners(s: State, l: Label)
    requires Enabled(s, l) && !(l.SubmitLock? || l.ReplyLock? || l.DeviceUnlock?)
    ensures Next(s, l).devices == s.devices && Next(s, l).toHost.owner == s.toHost.owner
  {}

  lemma KeepDeviceOk(s: State, l: Label, j: nat)
    requires Owners(s) && Enabled(s, l) && j < |s.devices|
    ensures |Next(s, l).devices| == |s.devices| && DeviceOk(Next(s, l), j)
  {
    assert DeviceOk(s, j);
    if l.SubmitLock? || l.ReplyLock? || l.DeviceUnlock? {
    } else {
      SameDeviceOwners(s, l);
    }
  }

  lemma KeepHostOwner(s: State, l: Label)
    requires Owners(s) && Enabled(s, l)
    ensures var t := Next(s, l);
            && |t.hosts| == |s.hosts|
            && (t.toDevice.owner.Some? ==> t.toDevice.owner.value.App? && t.toDevice.owner.value.index < |t.hosts|)
  {}

  lemma KeepDeviceOwner(s: State, l: Label)
    requires Owners(s) && Enabled(s, l)
    ensures var t := Next(s, l);
            && |t.devices| == |s.devices|
            && (t.toHost.owner.Some? && t.toHost.owner.value.App? ==> t.toHost.owner.value.index < |t.devices|)
  {}

  lemma KeepServer(s: State, l: Label)
    requires Owners(s) && Enabled(s, l)
    ensures Next(s, l).serving.Replying? <==> Next(s, l).toHost.owner == Some(Server)
  {}

  lemma KeepOwners(s: State, l: Label)
    requires Owners(s) && Enabled(s, l)
    ensures Owners(Next(s, l))
  {
    KeepHostOwner(s, l);
    KeepDeviceOwner(s, l);
    KeepServer(s, l);
    forall i | 0 <= i < |s.hosts| ensures HostOk(Next(s, l), i) {
      KeepHostOk(s, l, i);
    }
    forall j | 0 <= j < |s.devices| ensures DeviceOk(Next(s, l), j) {
      KeepDeviceOk(s, l, j);
    }
  }

  /** The device's reader only ever gets host operations, the host's never. */
  predicate ForDevice(m: Msg) { m.OutputMsg? || m.SetMsg? || m.QueryMsg? }

  predicate Directed(s: State) {
    && (forall k :: 0 <= k < |s.toDevice.acquired| ==> ForDevice(s.toDevice.acquired[k]))
    && (forall k :: 0 <= k < |s.toHost.acquired| ==> !ForDevice(s.toHost.acquired[k]))
  }

  lemma SameAcquired(s: State, l: Label)
    requires Enabled(s, l) && !(l.HostLock? || l.SubmitLock? || l.ReplyLock?)
    ensures Next(s, l).toDevice.acquired == s.toDevice.acquired
    ensures Next(s, l).toHost.acquired == s.toHost.acquired
  {}

  lemma KeepDirected(s: State, l: Label)
    requires Directed(s) && Enabled(s, l)
    ensures Directed(Next(s, l))
  {
    if l.HostLock? || l.SubmitLock? || l.ReplyLock? {
    } else {
      SameAcquired(s, l);
    }
  }

  // ---------- what has been seen on either side ----------

  /** The part of the state that records what either side has seen. `promised` is
      the answer the device's reader holds but has not yet put in line. */
  datatype View = View(
    answer: Getter, log: seq<Op>, answered: seq<FeatureReport>, promised: seq<FeatureReport>,
    arrived: seq<FeatureReport>, response: FeatureReport, inputs: seq<InputReport>,
    atDevice: seq<Msg>, queued: seq<Msg>, atHost: seq<Msg>)

  function ViewOf(s: State): View {
    View(s.answer, s.log, s.answered, if s.serving.Answering? then [s.serving.reply] else [],
         s.arrived, s.response, s.inputs, s.toDevice.delivered, s.toHost.acquired, s.toHost.delivered)
  }

  ghost predicate Consistent(v: View) {
    && v.log == OpsOf(v.atDevice)
    && v.answered == Results(v.answer, v.log)
    && v.answered == Replies(v.queued) + v.promised
    && v.arrived == Replies(v.atHost)
    && (v.arrived != [] ==> v.response == v.arrived[|v.arrived| - 1])
    && v.inputs == InputsOf(v.atHost)
  }

  ghost predicate History(s: State) { Consistent(ViewOf(s)) }

  /** The device sees operation `op`; a get is answered. */
  function Seen(v: View, m: Msg, op: Op): View {
    var next := v.(log := v.log + [op], atDevice := v.atDevice + [m]);
    if op.GetFeature? then next.(answered := v.answered + [v.answer(v.log)], promised := [v.answer(v.log)]) else next
  }

  lemma SeenGetConsistent(v: View, m: Msg)
    requires Consistent(v) && v.promised == [] && OneOp(m) == [GetFeature]
    ensures Consistent(Seen(v, m, GetFeature))
  {
    Snoc(v.atDevice, m);
    ResultsSnoc(v.answer, v.log, GetFeature);
    AppendNothing(Replies(v.queued));
  }

  lemma SeenSetConsistent(v: View, m: Msg, op: Op)
    requires Consistent(v) && OneOp(m) == [op] && !op.GetFeature?
    ensures Consistent(Seen(v, m, op))
  {
    Snoc(v.atDevice, m);
    ResultsSnoc(v.answer, v.log, op);
    AppendNothing(Results(v.answer, v.log));
  }

  lemma SeenConsistent(v: View, m: Msg, op: Op)
    requires Consistent(v) && v.promised == [] && OneOp(m) == [op]
    ensures Consistent(Seen(v, m, op))
  {
    if op.GetFeature? {
      SeenGetConsistent(v, m);
    } else {
      SeenSetConsistent(v, m, op);
    }
  }

  /** Message `m` gets in line for the host; a reply is the promised one. */
  function Queued(v: View, m: Msg): View {
    v.(queued := v.queued + [m], promised := if m.ReplyMsg? then [] else v.promised)
  }

  lemma QueuedConsistent(v: View, m: Msg)
    requires Consistent(v) && (m.ReplyMsg? ==> v.promised == [m.reply])
    ensures Consistent(Queued(v, m))
  {
    var w := Queued(v, m);
    Snoc(v.queued, m);
    assert v.answered == Replies(w.queued) + w.promised by {
      if m.ReplyMsg? {
        AppendNothing(Replies(w.queued));
      }
    }
  }

  /** Message `m` reaches the host. */
  function Received(v: View, m: Msg): View {
    var next := v.(atHost := v.atHost + [m]);
    match m
    case ReplyMsg(r) => next.(arrived := v.arrived + [r], response := r)
    case InputMsg(r) => next.(inputs := v.inputs + [r])
    case OutputMsg(_) => next
    case QueryMsg => next
    case SetMsg(_) => next
  }

  lemma ReceivedReply(v: View, r: FeatureReport)
    requires Consistent(v)
    ensures Consistent(Received(v, ReplyMsg(r)))
  {
    Snoc(v.atHost, ReplyMsg(r));
  }

  lemma ReceivedOther(v: View, m: Msg)
    requires Consistent(v) && !m.ReplyMsg?
    ensures Consistent(Received(v, m))
  {
    Snoc(v.atHost, m);
  }

  lemma ReceivedConsistent(v: View, m: Msg)
    requires Consistent(v)
    ensures Consistent(Received(v, m))
  {
    if m.ReplyMsg? {
      ReceivedReply(v, m.reply);
    } else {
      ReceivedOther(v, m);
    }
  }

  lemma DispatchView(s: State, d: Channel, m: Msg)
    requires ForDevice(m) && s.serving.Listening? && d.delivered == s.toDevice.delivered + [m]
    ensures OneOp(m) != []
    ensures ViewOf(DeviceReacts(s.(toDevice := d), Handled(m))) == Seen(ViewOf(s), m, OneOp(m)[0])
  {}

  lemma ArrivalView(s: State, c: Channel, m: Msg)
    requires c.delivered == s.toHost.delivered + [m] && c.acquired == s.toHost.acquired
    ensures ViewOf(HostReacts(s.(toHost := c), Handled(m))) == Received(ViewOf(s), m)
  {}

  lemma OtherViews(s: State, l: Label)
    requires Owners(s) && Enabled(s, l)
    requires !(l.ReplyLock? || l.SubmitLock? || l.DeviceDispatch? || l.HostDispatch?)
    ensures ViewOf(Next(s, l)) == ViewOf(s)
  {}

  lemma LockView(s: State, l: Label)
    requires Enabled(s, l) && (l.ReplyLock? || l.SubmitLock?)
    ensures var m := if l.ReplyLock? then ReplyMsg(s.serving.reply) else InputMsg(s.devices[l.j].todo[0]);
            ViewOf(Next(s, l)) == Queued(ViewOf(s), m)
  {}

  lemma {:induction false} KeepHistoryAtDevice(s: State)
    requires Inv(s.toDevice) && Directed(s) && History(s) && Enabled(s, DeviceDispatch)
    ensures History(Next(s, DeviceDispatch))
  {
    var m := s.toDevice.acquired[|s.toDevice.delivered|];
    DispatchDelivers(s.toDevice);
    DispatchView(s, Dispatch(s.toDevice), m);
    SeenConsistent(ViewOf(s), m, OneOp(m)[0]);
  }

  lemma {:induction false} KeepHistoryAtHost(s: State)
    requires Inv(s.toHost) && History(s) && Enabled(s, HostDispatch)
    ensures History(Next(s, HostDispatch))
  {
    var m := s.toHost.acquired[|s.toHost.delivered|];
    DispatchDelivers(s.toHost);
    ArrivalView(s, Dispatch(s.toHost), m);
    ReceivedConsistent(ViewOf(s), m);
  }

  lemma {:induction false} KeepHistory(s: State, l: Label)
    requires ChannelsOk(s) && Owners(s) && Directed(s) && History(s) && Enabled(s, l)
    ensures History(Next(s, l))
  {
    if l.DeviceDispatch? {
      KeepHistoryAtDevice(s);
    } else if l.HostDispatch? {
      KeepHistoryAtHost(s);
    } else if l.ReplyLock? || l.SubmitLock? {
      LockView(s, l);
      QueuedConsistent(ViewOf(s), if l.ReplyLock? then ReplyMsg(s.serving.reply) else InputMsg(s.devices[l.j].todo[0]));
    } else {
      OtherViews(s, l);
    }
  }
}
