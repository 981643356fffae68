/** named_pipe_transport.cpp as a step system: host application threads, device
    application threads, the two reader threads and the two bounded directions of
    the pipe, interleaved at byte level. All callbacks are installed before the
    transport is opened; the device's feature getter is optional. */
module PipeSystem {
  import opened Core
  import opened Reports
  import opened Frames
  import opened Channels
  import opened InProcess

  function MsgOf(op: Op): Msg {
    match op
    case SendOutput(r) => OutputMsg(r)
    case SetFeature(r) => SetMsg(r)
    case GetFeature => QueryMsg
  }

  /** Before the mutex, holding it, and waiting on the condition variable. */
  datatype HostPc = Ready | Locking | Writing | Awaiting

  /** A thread and the operations it has not finished; the first one is running
      unless the thread is ready. The two counters are history: how many responses
      had arrived, and how many queries been answered, when its call began. */
  datatype HostThread = HostThread(todo: seq<Op>, pc: HostPc, arrivedBefore: nat, answeredBefore: nat)

  datatype DeviceThread = DeviceThread(todo: seq<InputReport>, writing: bool)

  /** The device's reader thread: reading, waiting for the mutex with an answer, or writing it. */
  datatype Serving = Listening | Answering(reply: FeatureReport) | Replying

  /** A get_feature call that returned, which response it returned, and its counters. */
  datatype Return = Return(arrivedBefore: nat, answeredBefore: nat, index: nat, report: FeatureReport)

  datatype State = State(
    answer: Getter,                // what the device answers to a query
    hosts: seq<HostThread>,
    devices: seq<DeviceThread>,
    toDevice: Channel,
    toHost: Channel,
    serving: Serving,
    pending: bool,                 // feature_pending
    response: FeatureReport,       // feature_response
    // history
    log: seq<Op>,                  // operations the device side has seen
    answered: seq<FeatureReport>,  // getter results, in order
    arrived: seq<FeatureReport>,   // responses the host reader has delivered
    inputs: seq<InputReport>,      // input reports the host has seen
    began: nat,                    // get_feature calls begun
    returned: seq<Return>)

  /** The answer to a query: the getter's, or the default report (line 202). */
  function PipeAnswers(getter: Option<Getter>): Getter {
    if getter.Some? then getter.value else (ops: seq<Op>) => DEFAULT_FEATURE
  }

  function HostAt(program: seq<Op>): HostThread { HostThread(program, Ready, 0, 0) }

  function Programs(programs: seq<seq<Op>>): (hosts: seq<HostThread>)
    ensures |hosts| == |programs| && forall i :: 0 <= i < |hosts| ==> hosts[i] == HostAt(programs[i])
  {
    if programs == [] then [] else [HostAt(programs[0])] + Programs(programs[1..])
  }

  function Submitters(reports: seq<seq<InputReport>>): (devices: seq<DeviceThread>)
    ensures |devices| == |reports| && forall j :: 0 <= j < |devices| ==> devices[j] == DeviceThread(reports[j], false)
  {
    if reports == [] then [] else [DeviceThread(reports[0], false)] + Submitters(reports[1..])
  }

  function Initial(getter: Option<Getter>, programs: seq<seq<Op>>, reports: seq<seq<InputReport>>, capacity: nat)
    : State
  {
    State(PipeAnswers(getter), Programs(programs), Submitters(reports), Empty(capacity), Empty(capacity),
          Listening, false, DEFAULT_FEATURE, [], [], [], [], 0, [])
  }

  datatype Label =
    | Begin(i: nat) | HostLock(i: nat) | HostPut(n: nat) | HostUnlock | Finish(i: nat)
    | DeviceTake(n: nat) | DeviceDispatch | ReplyLock
    | SubmitLock(j: nat) | DevicePut(n: nat) | DeviceUnlock
    | HostTake(n: nat) | HostDispatch
    | CutToDevice(keep: nat) | CutToHost(keep: nat)

  predicate Enabled(s: State, l: Label) {
    match l
    case Begin(i) => i < |s.hosts| && s.hosts[i].pc == Ready && s.hosts[i].todo != []
    case HostLock(i) => i < |s.hosts| && s.hosts[i].pc == Locking && s.hosts[i].todo != [] && CanLock(s.toDevice)
    case HostPut(n) => CanPut(s.toDevice, n)
    case HostUnlock =>
      && CanUnlock(s.toDevice) && s.toDevice.owner.value.App? && s.toDevice.owner.value.index < |s.hosts|
      && s.hosts[s.toDevice.owner.value.index].todo != []
    case Finish(i) => i < |s.hosts| && s.hosts[i].pc == Awaiting && s.hosts[i].todo != [] && !s.pending
    case DeviceTake(n) => s.serving.Listening? && CanTake(s.toDevice, n)
    case DeviceDispatch => s.serving.Listening? && CanDispatch(s.toDevice)
    case ReplyLock => s.serving.Answering? && CanLock(s.toHost)
    case SubmitLock(j) => j < |s.devices| && !s.devices[j].writing && s.devices[j].todo != [] && CanLock(s.toHost)
    case DevicePut(n) => CanPut(s.toHost, n)
    case DeviceUnlock =>
      && CanUnlock(s.toHost)
      && (s.toHost.owner.value.App? ==>
            s.toHost.owner.value.index < |s.devices| && s.devices[s.toHost.owner.value.index].todo != [])
    case HostTake(n) => CanTake(s.toHost, n)
    case HostDispatch => CanDispatch(s.toHost)
    case CutToDevice(keep) => CanCut(s.toDevice, keep)
    case CutToHost(keep) => CanCut(s.toHost, keep)
  }

  /** get_feature sets the flag before anything else; the other calls go straight to the mutex. */
  function DoBegin(s: State, i: nat): State
    requires Enabled(s, Begin(i))
  {
    var h := s.hosts[i];
    var hosts := s.hosts[i := h.(pc := Locking, arrivedBefore := |s.arrived|, answeredBefore := |s.answered|)];
    if h.todo[0].GetFeature? then s.(hosts := hosts, pending := true, began := s.began + 1)
    else s.(hosts := hosts)
  }

  function DoHostLock(s: State, i: nat): State
    requires Enabled(s, HostLock(i))
  {
    s.(hosts := s.hosts[i := s.hosts[i].(pc := Writing)],
       toDevice := Lock(s.toDevice, App(i), MsgOf(s.hosts[i].todo[0])))
  }

  /** After its frame a get waits; the other calls return. */
  function DoHostUnlock(s: State): State
    requires Enabled(s, HostUnlock)
  {
    var i := s.toDevice.owner.value.index;
    var h := s.hosts[i];
    var next := if h.todo[0].GetFeature? then h.(pc := Awaiting) else h.(pc := Ready, todo := h.todo[1..]);
    s.(hosts := s.hosts[i := next], toDevice := Unlock(s.toDevice))
  }

  function DoFinish(s: State, i: nat): State
    requires Enabled(s, Finish(i))
  {
    var h := s.hosts[i];
    var index := if |s.arrived| == 0 then 0 else |s.arrived| - 1;
    s.(hosts := s.hosts[i := h.(pc := Ready, todo := h.todo[1..])],
       returned := s.returned + [Return(h.arrivedBefore, h.answeredBefore, index, s.response)])
  }

  /** The device's callbacks. A query is answered at once, from what the device has seen. */
  function DeviceReacts(s: State, action: Action): State {
    match action
    case Handled(OutputMsg(r)) => s.(log := s.log + [SendOutput(r)])
    case Handled(SetMsg(r)) => s.(log := s.log + [SetFeature(r)])
    case Handled(QueryMsg) =>
      var answer := s.answer(s.log);
      s.(log := s.log + [GetFeature], answered := s.answered + [answer], serving := Answering(answer))
    case Handled(InputMsg(_)) => s
    case Handled(ReplyMsg(_)) => s
    case Ignored => s
    case Crash => s
  }

  function DoDeviceDispatch(s: State): State
    requires Enabled(s, DeviceDispatch)
  {
    DeviceReacts(s.(toDevice := Dispatch(s.toDevice)), ActionOf(s.toDevice))
  }

  function DoReplyLock(s: State): State
    requires Enabled(s, ReplyLock)
  {
    s.(serving := Replying, toHost := Lock(s.toHost, Server, ReplyMsg(s.serving.reply)))
  }

  function DoSubmitLock(s: State, j: nat): State
    requires Enabled(s, SubmitLock(j))
  {
    s.(devices := s.devices[j := s.devices[j].(writing := true)],
       toHost := Lock(s.toHost, App(j), InputMsg(s.devices[j].todo[0])))
  }

  function DoDeviceUnlock(s: State): State
    requires Enabled(s, DeviceUnlock)
  {
    var t := s.(toHost := Unlock(s.toHost));
    match s.toHost.owner.value
    case Server => t.(serving := Listening)
    case App(j) => t.(devices := s.devices[j := DeviceThread(s.devices[j].todo[1..], false)])
  }

  /** The host's callbacks: a response is stored and releases whoever waits. */
  function HostReacts(s: State, action: Action): State {
    match action
    case Handled(ReplyMsg(r)) => s.(response := r, pending := false, arrived := s.arrived + [r])
    case Handled(InputMsg(r)) => s.(inputs := s.inputs + [r])
    case Handled(OutputMsg(_)) => s
    case Handled(QueryMsg) => s
    case Handled(SetMsg(_)) => s
    case Ignored => s
    case Crash => s
  }

  function DoHostDispatch(s: State): State
    requires Enabled(s, HostDispatch)
  {
    HostReacts(s.(toHost := Dispatch(s.toHost)), ActionOf(s.toHost))
  }

  function Next(s: State, l: Label): State
    requires Enabled(s, l)
  {
    match l
    case Begin(i) => DoBegin(s, i)
    case HostLock(i) => DoHostLock(s, i)
    case HostPut(n) => s.(toDevice := Put(s.toDevice, n))
    case HostUnlock => DoHostUnlock(s)
    case Finish(i) => DoFinish(s, i)
    case DeviceTake(n) => s.(toDevice := Take(s.toDevice, n))
    case DeviceDispatch => DoDeviceDispatch(s)
    case ReplyLock => DoReplyLock(s)
    case SubmitLock(j) => DoSubmitLock(s, j)
    case DevicePut(n) => s.(toHost := Put(s.toHost, n))
    case DeviceUnlock => DoDeviceUnlock(s)
    case HostTake(n) => s.(toHost := Take(s.toHost, n))
    case HostDispatch => DoHostDispatch(s)
    case CutToDevice(keep) => s.(toDevice := Cut(s.toDevice, keep))
    case CutToHost(keep) => s.(toHost := Cut(s.toHost, keep))
  }

  ghost predicate StepAt(states: seq<State>, labels: seq<Label>, k: nat)
    requires k < |labels| && |states| == |labels| + 1
  {
    Enabled(states[k], labels[k]) && states[k + 1] == Next(states[k], labels[k])
  }

  /** A run: every state follows from the one before by the step with that label. */
  ghost predicate IsRun(states: seq<State>, labels: seq<Label>) {
    && |states| == |labels| + 1
    && forall k :: 0 <= k < |labels| ==> StepAt(states, labels, k)
  }
}
