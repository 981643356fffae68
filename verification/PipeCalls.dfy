/** get_feature calls: how the flag, the queries and the responses relate, first
    for any number of concurrent callers, then for one at a time. */
module PipeCalls {
  import opened Reports
  import opened Frames
  import opened Channels
  import opened PipeSystem
  import opened PipeInvariants

  /** The part of the state that get_feature calls depend on. `queued` is the number
      of queries that have been put in line for the device. */
  datatype CallView = CallView(
    hosts: seq<HostThread>, pending: bool, began: nat, arrived: seq<FeatureReport>, response: FeatureReport,
    answered: nat, queued: nat, returned: seq<Return>)

  function CallsOf(s: State): CallView {
    CallView(s.hosts, s.pending, s.began, s.arrived, s.response, |s.answered|, Queries(s.toDevice.acquired), s.returned)
  }

  predicate ReturnOk(v: CallView, r: Return) {
    r.arrivedBefore <= r.index < |v.arrived| && r.report == v.arrived[r.index]
  }

  predicate WaitOk(v: CallView, h: HostThread) {
    InGet(h) ==> h.arrivedBefore <= |v.arrived| && (v.pending || h.arrivedBefore < |v.arrived|)
  }

  predicate AllWaitOk(v: CallView) { forall i :: 0 <= i < |v.hosts| ==> WaitOk(v, v.hosts[i]) }

  predicate AllReturnsOk(v: CallView) { forall k :: 0 <= k < |v.returned| ==> ReturnOk(v, v.returned[k]) }

  predicate Ordered(v: CallView) {
    |v.arrived| <= v.answered <= v.queued
  }

  ghost predicate CallsOk(v: CallView) {
    && v.began == Count(v.hosts, Unsent) + v.queued
    && v.began == |v.returned| + Count(v.hosts, InGet)
    && (v.pending ==> |v.arrived| < v.began)
    && AllWaitOk(v) && AllReturnsOk(v)
  }

  // ---------- the steps on that part ----------

  function Began(v: CallView, i: nat): CallView
    requires i < |v.hosts| && v.hosts[i].todo != []
  {
    var h := v.hosts[i].(pc := Locking, arrivedBefore := |v.arrived|, answeredBefore := v.answered);
    var w := v.(hosts := v.hosts[i := h]);
    if h.todo[0].GetFeature? then w.(pending := true, began := v.began + 1) else w
  }

  function Locked(v: CallView, i: nat): CallView
    requires i < |v.hosts| && v.hosts[i].todo != []
  {
    v.(hosts := v.hosts[i := v.hosts[i].(pc := Writing)],
       queued := v.queued + if v.hosts[i].todo[0].GetFeature? then 1 else 0)
  }

  function Unlocked(v: CallView, i: nat): CallView
    requires i < |v.hosts| && v.hosts[i].todo != []
  {
    var h := v.hosts[i];
    v.(hosts := v.hosts[i := if h.todo[0].GetFeature? then h.(pc := Awaiting)
                             else h.(pc := Ready, todo := h.todo[1..])])
  }

  function Finished(v: CallView, i: nat): CallView
    requires i < |v.hosts| && v.hosts[i].todo != []
  {
    var h := v.hosts[i];
    v.(hosts := v.hosts[i := h.(pc := Ready, todo := h.todo[1..])],
       returned := v.returned + [Return(h.arrivedBefore, h.answeredBefore,
                                        if |v.arrived| == 0 then 0 else |v.arrived| - 1, v.response)])
  }

  function Arrived(v: CallView, r: FeatureReport): CallView {
    v.(pending := false, response := r, arrived := v.arrived + [r])
  }

  /** One thread changes, the flag may be set, and a return may be added. */
  lemma OneThreadOk(v: CallView, w: CallView, i: nat)
    requires AllWaitOk(v) && AllReturnsOk(v) && i < |v.hosts| == |w.hosts|
    requires w.arrived == v.arrived && (v.pending ==> w.pending)
    requires w.hosts == v.hosts[i := w.hosts[i]] && WaitOk(w, w.hosts[i])
    requires v.returned <= w.returned
    requires forall k :: |v.returned| <= k < |w.returned| ==> ReturnOk(w, w.returned[k])
    ensures AllWaitOk(w) && AllReturnsOk(w)
  {
    forall k | 0 <= k < |w.hosts| ensures WaitOk(w, w.hosts[k]) {
      assert WaitOk(v, v.hosts[k]);
    }
    forall k | 0 <= k < |w.returned| ensures ReturnOk(w, w.returned[k]) {
      if k < |v.returned| {
        assert ReturnOk(v, v.returned[k]);
      }
    }
  }

  lemma BeganOk(v: CallView, i: nat)
    requires CallsOk(v) && Ordered(v) && i < |v.hosts| && v.hosts[i].todo != [] && v.hosts[i].pc == Ready
    ensures CallsOk(Began(v, i))
  {
    var w := Began(v, i);
    CountUpdate(v.hosts, i, w.hosts[i], Unsent);
    CountUpdate(v.hosts, i, w.hosts[i], InGet);
    assert WaitOk(v, v.hosts[i]);
    OneThreadOk(v, w, i);
  }

  lemma LockedOk(v: CallView, i: nat)
    requires CallsOk(v) && i < |v.hosts| && v.hosts[i].todo != [] && v.hosts[i].pc == Locking
    ensures CallsOk(Locked(v, i))
  {
    var w := Locked(v, i);
    CountUpdate(v.hosts, i, w.hosts[i], Unsent);
    CountUpdate(v.hosts, i, w.hosts[i], InGet);
    assert WaitOk(v, v.hosts[i]);
    OneThreadOk(v, w, i);
  }

  lemma UnlockedOk(v: CallView, i: nat)
    requires CallsOk(v) && i < |v.hosts| && v.hosts[i].todo != [] && v.hosts[i].pc == Writing
    ensures CallsOk(Unlocked(v, i))
  {
    var w := Unlocked(v, i);
    CountUpdate(v.hosts, i, w.hosts[i], Unsent);
    CountUpdate(v.hosts, i, w.hosts[i], InGet);
    assert WaitOk(v, v.hosts[i]);
    OneThreadOk(v, w, i);
  }

  /** A call returns the response that arrived last, and it arrived after the call began. */
  lemma FinishedOk(v: CallView, i: nat)
    requires CallsOk(v) && i < |v.hosts| && InGet(v.hosts[i]) && v.hosts[i].pc == Awaiting && !v.pending
    requires v.arrived != [] ==> v.response == v.arrived[|v.arrived| - 1]
    ensures CallsOk(Finished(v, i))
  {
    var w := Finished(v, i);
    CountUpdate(v.hosts, i, w.hosts[i], Unsent);
    CountUpdate(v.hosts, i, w.hosts[i], InGet);
    assert WaitOk(v, v.hosts[i]);
    OneThreadOk(v, w, i);
  }

  /** No thread changes, and the flag is only cleared by a response. */
  lemma SameThreadsOk(v: CallView, w: CallView)
    requires AllWaitOk(v) && AllReturnsOk(v) && w.hosts == v.hosts && w.returned == v.returned
    requires v.arrived <= w.arrived && (|v.arrived| < |w.arrived| || w.pending == v.pending)
    ensures AllWaitOk(w) && AllReturnsOk(w)
  {
    forall k | 0 <= k < |w.hosts| ensures WaitOk(w, w.hosts[k]) {
      assert WaitOk(v, v.hosts[k]);
    }
    forall k | 0 <= k < |w.returned| ensures ReturnOk(w, w.returned[k]) {
      assert ReturnOk(v, v.returned[k]);
    }
  }

  lemma ArrivedOk(v: CallView, r: FeatureReport)
    requires CallsOk(v)
    ensures CallsOk(Arrived(v, r))
  {
    SameThreadsOk(v, Arrived(v, r));
  }

  lemma AnsweredOk(v: CallView, answered: nat)
    requires CallsOk(v)
    ensures CallsOk(v.(answered := answered))
  {
    SameThreadsOk(v, v.(answered := answered));
  }

  // ---------- the steps of the system ----------

  /** Responses arrive in the order the queries were answered, and no query is
      answered before it was sent. */
  lemma ResponsesInOrder(s: State)
    requires ChannelsOk(s) && History(s)
    ensures s.arrived <= s.answered && Ordered(CallsOf(s))
    ensures |s.answered| == Queries(s.toDevice.delivered)
  {
    Prefixes(s.toHost.delivered, s.toHost.acquired);
    Prefixes(s.toDevice.delivered, s.toDevice.acquired);
    OneResultPerQuery(s.answer, s.toDevice.delivered);
  }

  lemma {:induction false} HostLockView(s: State, i: nat)
    requires Enabled(s, HostLock(i))
    ensures CallsOf(Next(s, HostLock(i))) == Locked(CallsOf(s), i)
  {
    Snoc(s.toDevice.acquired, MsgOf(s.hosts[i].todo[0]));
  }

  lemma HostThreadView(s: State, l: Label)
    requires Enabled(s, l)
    ensures l.Begin? ==> CallsOf(Next(s, l)) == Began(CallsOf(s), l.i)
    ensures l.HostUnlock? ==> CallsOf(Next(s, l)) == Unlocked(CallsOf(s), s.toDevice.owner.value.index)
    ensures l.Finish? ==> CallsOf(Next(s, l)) == Finished(CallsOf(s), l.i)
  {}

  lemma DispatchCallView(s: State, d: Channel, m: Msg)
    requires d.acquired == s.toDevice.acquired
    ensures var t := DeviceReacts(s.(toDevice := d), Handled(m));
            CallsOf(t) == CallsOf(s).(answered := |t.answered|)
  {}

  lemma ArrivalCallView(s: State, c: Channel, m: Msg)
    ensures CallsOf(HostReacts(s.(toHost := c), Handled(m)))
         == if m.ReplyMsg? then Arrived(CallsOf(s), m.reply) else CallsOf(s)
  {}

  lemma OtherCallView(s: State, l: Label)
    requires Enabled(s, l)
    requires !(l.Begin? || l.HostLock? || l.HostUnlock? || l.Finish? || l.DeviceDispatch? || l.HostDispatch?)
    ensures CallsOf(Next(s, l)) == CallsOf(s)
  {}

  predicate ThreadStep(v: CallView, w: CallView, i: nat) {
    && i < |v.hosts| && v.hosts[i].todo != []
    && match v.hosts[i].pc
       case Ready => w == Began(v, i)
       case Locking => w == Locked(v, i)
       case Writing => w == Unlocked(v, i)
       case Awaiting => InGet(v.hosts[i]) && !v.pending && w == Finished(v, i)
  }

  /** What a step does to calls. */
  ghost predicate CallStep(v: CallView, w: CallView) {
    || w == v.(answered := w.answered)
    || (|v.arrived| < v.answered && w == Arrived(v, w.response))
    || (exists i: nat :: ThreadStep(v, w, i))
  }

  lemma DispatchIsCallStep(s: State)
    requires Inv(s.toDevice) && Enabled(s, DeviceDispatch)
    ensures var w := CallsOf(Next(s, DeviceDispatch)); w == CallsOf(s).(answered := w.answered)
  {
    DispatchDelivers(s.toDevice);
    DispatchCallView(s, Dispatch(s.toDevice), s.toDevice.acquired[|s.toDevice.delivered|]);
  }

  lemma ArrivalIsCallStep(s: State)
    requires ChannelsOk(s) && History(s) && Enabled(s, HostDispatch)
    ensures var v, w := CallsOf(s), CallsOf(Next(s, HostDispatch));
            w == v || (|v.arrived| < v.answered && w == Arrived(v, w.response))
  {
    var m := s.toHost.acquired[|s.toHost.delivered|];
    DispatchDelivers(s.toHost);
    ArrivalCallView(s, Dispatch(s.toHost), m);
    if m.ReplyMsg? {
      Snoc(s.toHost.delivered, m);
      Prefixes(s.toHost.delivered + [m], s.toHost.acquired);
    }
  }

  lemma {:induction false} StepIsCallStep(s: State, l: Label)
    requires ChannelsOk(s) && Owners(s) && History(s) && Enabled(s, l)
    ensures CallStep(CallsOf(s), CallsOf(Next(s, l)))
  {
    HostThreadView(s, l);
    match l
    case Begin(i) => assert ThreadStep(CallsOf(s), CallsOf(Next(s, l)), i);
    case HostLock(i) =>
      HostLockView(s, i);
      assert ThreadStep(CallsOf(s), CallsOf(Next(s, l)), i);
    case HostUnlock =>
      var i := s.toDevice.owner.value.index;
      assert HostOk(s, i);
      assert ThreadStep(CallsOf(s), CallsOf(Next(s, l)), i);
    case Finish(i) =>
      assert HostOk(s, i);
      assert ThreadStep(CallsOf(s), CallsOf(Next(s, l)), i);
    case DeviceDispatch => DispatchIsCallStep(s);
    case HostDispatch => ArrivalIsCallStep(s);
    case _ => OtherCallView(s, l);
  }

  lemma KeepCalls(v: CallView, w: CallView)
    requires CallsOk(v) && Ordered(v) && CallStep(v, w)
    requires v.arrived != [] ==> v.response == v.arrived[|v.arrived| - 1]
    ensures CallsOk(w)
  {
    if w == v.(answered := w.answered) {
      AnsweredOk(v, w.answered);
    } else if w == Arrived(v, w.response) {
      ArrivedOk(v, w.response);
    } else {
      var i: nat :| ThreadStep(v, w, i);
      match v.hosts[i].pc
      case Ready => BeganOk(v, i);
      case Locking => LockedOk(v, i);
      case Writing => UnlockedOk(v, i);
      case Awaiting => FinishedOk(v, i);
    }
  }

  // ---------- one caller at a time ----------

  /** With at most one get in progress: the flag is set exactly while that get's
      response is outstanding, and the k-th get returns the k-th answer, which was
      computed after the get began. */
  ghost predicate Matched(v: CallView) {
    && Count(v.hosts, InGet) <= 1
    && |v.arrived| == |v.returned| + (if Count(v.hosts, InGet) == 1 && !v.pending then 1 else 0)
    && (v.pending ==> Count(v.hosts, InGet) == 1)
    && (forall i :: 0 <= i < |v.hosts| && InGet(v.hosts[i]) ==> v.hosts[i].answeredBefore <= |v.returned|)
    && (forall k :: 0 <= k < |v.returned| ==> v.returned[k].index == k && v.returned[k].answeredBefore <= k)
  }

  lemma MatchedThread(v: CallView, w: CallView, i: nat)
    requires CallsOk(v) && Ordered(v) && Matched(v) && ThreadStep(v, w, i) && v.hosts[i].pc != Awaiting
    requires Count(w.hosts, InGet) <= 1
    ensures Matched(w)
  {
    CountUpdate(v.hosts, i, w.hosts[i], InGet);
    CountOrder(v.hosts);
    if InGet(v.hosts[i]) {
      CountPositive(v.hosts, i, InGet);
    }
  }

  lemma MatchedFinish(v: CallView, i: nat)
    requires CallsOk(v) && Ordered(v) && Matched(v)
    requires i < |v.hosts| && InGet(v.hosts[i]) && !v.pending
    ensures Matched(Finished(v, i))
  {
    CountUpdate(v.hosts, i, Finished(v, i).hosts[i], InGet);
    CountPositive(v.hosts, i, InGet);
  }

  lemma KeepMatched(v: CallView, w: CallView)
    requires CallsOk(v) && Ordered(v) && Matched(v) && CallStep(v, w)
    requires Count(w.hosts, InGet) <= 1
    ensures Matched(w)
  {
    if w == v.(answered := w.answered) {
    } else if |v.arrived| < v.answered && w == Arrived(v, w.response) {
      CountOrder(v.hosts);
    } else {
      var i: nat :| ThreadStep(v, w, i);
      if v.hosts[i].pc == Awaiting {
        MatchedFinish(v, i);
      } else {
        MatchedThread(v, w, i);
      }
    }
  }
}
