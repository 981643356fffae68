/** How runs end: that they can, which calls are left hanging when a direction dies, and
    what the gets have returned when no getter is installed. */
module PipeOutcomes {
  import opened Core
  import opened Reports
  import opened Frames
  import opened Channels
  import opened InProcess
  import opened PipeSystem
  import opened PipeInvariants
  import opened PipeCalls
  import opened PipeRuns
  import opened PipeProgress
  import opened PipeReach

  // ---------- every run can be completed ----------

  predicate Uncut(labels: seq<Label>) { forall i :: 0 <= i < |labels| ==> !IsCut(labels[i]) }

  /** A run in which no direction dies, and which can go no further. */
  ghost predicate CompletedRun(setup: Setup, states: seq<State>, labels: seq<Label>) {
    RunFrom(setup, states, labels) && Uncut(labels) && Stuck(states[|labels|])
  }

  lemma {:induction false} RunToTheEnd(setup: Setup, states: seq<State>, labels: seq<Label>)
    returns (longer: seq<State>, more: seq<Label>)
    requires RunFrom(setup, states, labels) && Uncut(labels) && setup.capacity >= 1
    ensures CompletedRun(setup, longer, more) && states <= longer && labels <= more
    decreases Rank(states[|labels|])
  {
    var s := states[|labels|];
    RunInv(setup, states, labels, |labels|);
    StaysAlive(setup, states, labels, |labels|);
    RankBounded(s);
    if AtRest(s) {
      RestIsStuck(s);
      longer, more := states, labels;
    } else {
      var l := RestOrMove(s);
      StepLowersRank(s, l);
      RunExtends(states, labels, l);
      longer, more := RunToTheEnd(setup, states + [Next(s, l)], labels + [l]);
    }
  }

  /** From the start there is a completed run. */
  lemma CompletedRunExists(setup: Setup) returns (states: seq<State>, labels: seq<Label>)
    requires setup.capacity >= 1
    ensures CompletedRun(setup, states, labels)
  {
    states, labels := RunToTheEnd(setup, [setup.Start()], []);
  }

  // ---------- requests that were lost ----------

  predicate IsQuery(m: Msg) { m.QueryMsg? }

  predicate IsReply(m: Msg) { m.ReplyMsg? }

  /** The write of the k-th message failed, or its bytes went with the direction unread. */
  ghost predicate MessageLost(c: Channel, k: nat)
    requires k < |c.acquired| && k < |c.results|
  {
    !c.results[k] || LostUnread(c, k)
  }

  /** How many of the first n messages were lost and are of one kind. */
  ghost function LostAmong(c: Channel, n: nat, kind: Msg -> bool): nat
    requires n <= |c.acquired| && n <= |c.results|
  {
    if n == 0 then 0
    else LostAmong(c, n - 1, kind) + if MessageLost(c, n - 1) && kind(c.acquired[n - 1]) then 1 else 0
  }

  /** How many queries and responses were lost. */
  ghost function LostRequests(s: State): nat
    requires |s.toDevice.acquired| == |s.toDevice.results| && |s.toHost.acquired| == |s.toHost.results|
  {
    LostAmong(s.toDevice, |s.toDevice.acquired|, IsQuery) + LostAmong(s.toHost, |s.toHost.acquired|, IsReply)
  }

  function Number(ms: seq<Msg>, kind: Msg -> bool): nat {
    if ms == [] then 0 else Number(ms[..|ms| - 1], kind) + if kind(ms[|ms| - 1]) then 1 else 0
  }

  lemma {:induction false} NumberOfRequests(ms: seq<Msg>)
    ensures Number(ms, IsQuery) == Queries(ms) && Number(ms, IsReply) == |Replies(ms)|
  {
    if ms != [] {
      NumberOfRequests(ms[..|ms| - 1]);
    }
  }

  lemma NumberTaken(ms: seq<Msg>, n: nat, kind: Msg -> bool)
    requires n < |ms|
    ensures Number(ms[..n + 1], kind) == Number(ms[..n], kind) + if kind(ms[n]) then 1 else 0
  {
    TakeNext(ms, n);
  }

  /** At rest exactly the messages that were lost are undelivered. */
  lemma LostIsUndelivered(c: Channel, k: nat)
    requires Inv(c) && Recorded(c) && Idle(c) && k < |c.acquired|
    ensures MessageLost(c, k) <==> |c.delivered| <= k
  {
    RestDeliversWritten(c, k);
  }

  lemma {:induction false} CountLost(c: Channel, d: nat, n: nat, kind: Msg -> bool)
    requires n <= |c.acquired| == |c.results| && d <= |c.acquired|
    requires forall k :: 0 <= k < |c.acquired| ==> (MessageLost(c, k) <==> d <= k)
    ensures LostAmong(c, n, kind) == if n <= d then 0 else Number(c.acquired[..n], kind) - Number(c.acquired[..d], kind)
  {
    if n > 0 {
      CountLost(c, d, n - 1, kind);
      assert MessageLost(c, n - 1) <==> d <= n - 1;
      NumberTaken(c.acquired, n - 1, kind);
    }
  }

  lemma AllLost(c: Channel, kind: Msg -> bool)
    requires Inv(c) && Recorded(c) && Idle(c)
    ensures LostAmong(c, |c.acquired|, kind) == Number(c.acquired, kind) - Number(c.delivered, kind)
  {
    forall k | 0 <= k < |c.acquired| ensures MessageLost(c, k) <==> |c.delivered| <= k {
      LostIsUndelivered(c, k);
    }
    CountLost(c, |c.delivered|, |c.acquired|, kind);
    assert c.acquired[..|c.acquired|] == c.acquired && c.acquired[..|c.delivered|] == c.delivered;
  }

  lemma RequestsLost(s: State)
    requires ChannelsOk(s) && Records(s) && Idle(s.toDevice) && Idle(s.toHost)
    ensures LostRequests(s) == Queries(s.toDevice.acquired) - Queries(s.toDevice.delivered)
                               + |Replies(s.toHost.acquired)| - |Replies(s.toHost.delivered)|
  {
    AllLost(s.toDevice, IsQuery);
    AllLost(s.toHost, IsReply);
    NumberOfRequests(s.toDevice.acquired);
    NumberOfRequests(s.toDevice.delivered);
    NumberOfRequests(s.toHost.acquired);
    NumberOfRequests(s.toHost.delivered);
  }

  // ---------- calls left hanging ----------

  /** A call, or something a thread has yet to call, has not returned. */
  predicate Unreturned(s: State) { exists i :: 0 <= i < |s.hosts| && s.hosts[i].todo != [] }

  lemma {:induction false} RunHasRoom(setup: Setup, states: seq<State>, labels: seq<Label>, k: nat)
    requires RunFrom(setup, states, labels) && k < |states| && setup.capacity >= 1
    ensures HasRoom(states[k])
  {
    if k > 0 {
      RunHasRoom(setup, states, labels, k - 1);
      assert StepAt(states, labels, k - 1);
      StepKeepsRoom(states[k - 1], labels[k - 1]);
    }
  }

  lemma StepKeepsRoom(s: State, l: Label)
    requires Enabled(s, l) && HasRoom(s)
    ensures HasRoom(Next(s, l))
  {}

  /** At rest whoever has not returned waits for the flag. */
  lemma UnreturnedWaits(s: State)
    requires AtRest(s) && Unreturned(s)
    ensures s.pending
  {
    var i :| 0 <= i < |s.hosts| && s.hosts[i].todo != [];
    assert Parked(s, s.hosts[i]);
  }

  /** At rest the outstanding requests are the lost ones. */
  lemma TokensAtRest(s: State)
    requires ChannelsOk(s) && Records(s) && Owners(s) && AtRest(s)
    ensures Tokens(s) == LostRequests(s)
  {
    NobodyUnsent(s);
    RequestsLost(s);
  }

  lemma {:induction false} FindInGet(hs: seq<HostThread>) returns (i: nat)
    requires Count(hs, InGet) > 0
    ensures i < |hs| && InGet(hs[i])
  {
    i := |hs| - 1;
    if !InGet(hs[i]) {
      i := FindInGet(hs[..i]);
    }
  }

  /** A state of a run that can only lose a direction. */
  lemma EndOfRun(setup: Setup, states: seq<State>, labels: seq<Label>)
    requires RunFrom(setup, states, labels) && setup.capacity >= 1 && Stuck(states[|labels|])
    ensures SystemInv(states[|labels|]) && AtRest(states[|labels|])
  {
    RunInv(setup, states, labels, |labels|);
    RunHasRoom(setup, states, labels, |labels|);
    StuckStates(states[|labels|]);
  }

  /** Whatever dies and however many threads call: a run that can go no further has every
      call returned, unless a query or a response was lost. */
  lemma CallsReturnUnlessLost(setup: Setup, states: seq<State>, labels: seq<Label>)
    requires RunFrom(setup, states, labels) && setup.capacity >= 1 && Stuck(states[|labels|])
    ensures Records(states[|labels|]) && AtRest(states[|labels|])
    ensures LostRequests(states[|labels|]) == 0 ==> !Unreturned(states[|labels|])
    ensures forall j :: 0 <= j < |states[|labels|].devices| ==> states[|labels|].devices[j].todo == []
  {
    var s := states[|labels|];
    EndOfRun(setup, states, labels);
    TokensAtRest(s);
    TokensCount(s);
    if Unreturned(s) {
      UnreturnedWaits(s);
    }
  }

  // ---------- the flag ----------

  /** The step with which a get_feature call begins. */
  predicate BeginsGet(s: State, l: Label) {
    l.Begin? && Enabled(s, l) && s.hosts[l.i].todo[0].GetFeature?
  }

  /** Without a new get the flag is only cleared, and only together with a response. */
  predicate FlagKept(s: State, t: State) {
    && t.began == s.began
    && ((t.pending == s.pending && t.arrived == s.arrived) || (!t.pending && |t.arrived| == |s.arrived| + 1))
  }

  lemma ReactionKeepsFlag(s: State, action: Action)
    ensures FlagKept(s, HostReacts(s, action))
  {}

  lemma SameFlag(s: State, l: Label)
    requires Enabled(s, l) && !BeginsGet(s, l) && !l.HostDispatch?
    ensures Next(s, l).pending == s.pending && Next(s, l).arrived == s.arrived && Next(s, l).began == s.began
  {}

  lemma StepKeepsFlag(s: State, l: Label)
    requires Enabled(s, l) && !BeginsGet(s, l)
    ensures FlagKept(s, Next(s, l))
  {
    if l.HostDispatch? {
      ReactionKeepsFlag(s.(toHost := Dispatch(s.toHost)), ActionOf(s.toHost));
    } else {
      SameFlag(s, l);
    }
  }

  lemma {:induction false} FlagSince(setup: Setup, states: seq<State>, labels: seq<Label>, k: nat, m: nat)
    requires RunFrom(setup, states, labels) && k <= m < |states|
    requires forall i :: k <= i < m ==> !BeginsGet(states[i], labels[i])
    ensures states[m].began == states[k].began && |states[k].arrived| <= |states[m].arrived|
    ensures states[m].pending <==> states[k].pending && |states[m].arrived| == |states[k].arrived|
  {
    if k < m {
      FlagSince(setup, states, labels, k, m - 1);
      assert StepAt(states, labels, m - 1);
      StepKeepsFlag(states[m - 1], labels[m - 1]);
    }
  }

  /** The flag is set only while some thread is in a get. */
  predicate FlagOwned(v: CallView) { v.pending ==> Count(v.hosts, InGet) >= 1 }

  lemma KeepFlagOwned(v: CallView, w: CallView)
    requires FlagOwned(v) && CallStep(v, w)
    ensures FlagOwned(w)
  {
    if w != v.(answered := w.answered) && w.pending {
      var i: nat :| ThreadStep(v, w, i);
      CountUpdate(v.hosts, i, w.hosts[i], InGet);
      if InGet(w.hosts[i]) {
        CountPositive(w.hosts, i, InGet);
      }
    }
  }

  lemma StepFlagOwned(s: State, l: Label)
    requires ChannelsOk(s) && Owners(s) && History(s) && Enabled(s, l) && FlagOwned(CallsOf(s))
    ensures FlagOwned(CallsOf(Next(s, l)))
  {
    StepIsCallStep(s, l);
    KeepFlagOwned(CallsOf(s), CallsOf(Next(s, l)));
  }

  lemma {:induction false} RunFlagOwned(setup: Setup, states: seq<State>, labels: seq<Label>, k: nat)
    requires RunFrom(setup, states, labels) && k < |states|
    ensures FlagOwned(CallsOf(states[k]))
  {
    if k == 0 {
      FlagClearAtStart(setup);
    } else {
      RunFlagOwned(setup, states, labels, k - 1);
      FlagOwnedAtStep(setup, states, labels, k - 1);
    }
  }

  lemma FlagClearAtStart(setup: Setup)
    ensures !setup.Start().pending
  {}

  lemma FlagOwnedAtStep(setup: Setup, states: seq<State>, labels: seq<Label>, k: nat)
    requires RunFrom(setup, states, labels) && k < |labels| && FlagOwned(CallsOf(states[k]))
    ensures FlagOwned(CallsOf(states[k + 1]))
  {
    RunInv(setup, states, labels, k);
    assert StepAt(states, labels, k);
    StepFlagOwned(states[k], labels[k]);
  }

  /** At the end some call has not returned exactly when the flag is set. */
  lemma UnreturnedIsFlag(setup: Setup, states: seq<State>, labels: seq<Label>)
    requires RunFrom(setup, states, labels) && setup.capacity >= 1 && Stuck(states[|labels|])
    ensures Unreturned(states[|labels|]) <==> states[|labels|].pending
  {
    var s := states[|labels|];
    EndOfRun(setup, states, labels);
    RunFlagOwned(setup, states, labels, |labels|);
    if s.pending {
      var i := FindInGet(s.hosts);
    } else if Unreturned(s) {
      UnreturnedWaits(s);
    }
  }

  /** Step k is the last one with which a get begins. */
  predicate LastGet(states: seq<State>, labels: seq<Label>, k: nat)
    requires |states| == |labels| + 1
  {
    && k < |labels| && BeginsGet(states[k], labels[k])
    && forall i :: k < i < |labels| ==> !BeginsGet(states[i], labels[i])
  }

  lemma GetSetsFlag(s: State, l: Label)
    requires BeginsGet(s, l)
    ensures Next(s, l).pending
  {}

  /** After the last get has begun the flag stays set exactly while nothing outstanding is answered. */
  lemma FlagSinceLastGet(setup: Setup, states: seq<State>, labels: seq<Label>, k: nat)
    requires RunFrom(setup, states, labels) && LastGet(states, labels, k)
    ensures states[|labels|].pending <==> Tokens(states[|labels|]) == Tokens(states[k + 1])
  {
    assert StepAt(states, labels, k);
    GetSetsFlag(states[k], labels[k]);
    FlagSince(setup, states, labels, k + 1, |labels|);
    TokensInRun(setup, states, labels, k + 1);
    TokensInRun(setup, states, labels, |labels|);
  }

  lemma TokensInRun(setup: Setup, states: seq<State>, labels: seq<Label>, k: nat)
    requires RunFrom(setup, states, labels) && k < |states|
    ensures Tokens(states[k]) == states[k].began - |states[k].arrived|
  {
    RunInv(setup, states, labels, k);
    TokensCount(states[k]);
  }

  /** For any number of callers and any deaths: in a run that can go no further a call is left
      hanging if and only if as many requests were lost as were outstanding when the last get
      began, that is, if none of them was answered any more. */
  lemma HangsIffAllLost(setup: Setup, states: seq<State>, labels: seq<Label>, k: nat)
    requires RunFrom(setup, states, labels) && setup.capacity >= 1 && Stuck(states[|labels|])
    requires LastGet(states, labels, k)
    ensures Records(states[|labels|]) && AtRest(states[|labels|])
    ensures Unreturned(states[|labels|]) <==> LostRequests(states[|labels|]) == Tokens(states[k + 1])
  {
    EndOfRun(setup, states, labels);
    UnreturnedIsFlag(setup, states, labels);
    TokensAtRest(states[|labels|]);
    FlagSinceLastGet(setup, states, labels, k);
  }

  /** If no get ever begins, every call has returned. */
  lemma NoGetNoHang(setup: Setup, states: seq<State>, labels: seq<Label>)
    requires RunFrom(setup, states, labels) && setup.capacity >= 1 && Stuck(states[|labels|])
    requires forall i :: 0 <= i < |labels| ==> !BeginsGet(states[i], labels[i])
    ensures !Unreturned(states[|labels|])
  {
    UnreturnedIsFlag(setup, states, labels);
    FlagSince(setup, states, labels, 0, |labels|);
  }

  /** With one get in progress at a time: a call is left hanging if and only if any query or
      response was lost. */
  lemma HangsIffLost(setup: Setup, states: seq<State>, labels: seq<Label>)
    requires RunFrom(setup, states, labels) && setup.capacity >= 1 && Stuck(states[|labels|])
    requires OneCallerUpTo(states, |labels|)
    ensures Records(states[|labels|]) && AtRest(states[|labels|])
    ensures Unreturned(states[|labels|]) <==> LostRequests(states[|labels|]) > 0
  {
    EndOfRun(setup, states, labels);
    UnreturnedIsFlag(setup, states, labels);
    TokensAtRest(states[|labels|]);
    ExactlyOneToken(setup, states, labels, |labels|);
  }

  // ---------- no getter ----------

  /** Without a getter the pipe and the in-process transport return the same for a program
      exactly when every get comes while the feature set last is still the default one. */
  lemma CompletedRunWithoutGetter(
    setup: Setup, program: seq<Op>, states: seq<State>, labels: seq<Label>, e: Endpoint)
    requires CompletedRun(setup, states, labels) && setup.capacity >= 1
    requires setup.programs == [program] && setup.getter.None?
    requires e.getter.None? && e.lastFeature == DEFAULT_FEATURE
    ensures ReportsOf(states[|labels|].returned) == PerformAll(e, program).1
       <==> forall k :: 0 <= k < |program| && program[k].GetFeature? ==> LastSet(program[..k]) == DEFAULT_FEATURE
  {
    CompletedResults(setup, program, states, labels);
    UngetteredRun(e, program);
    WithoutGetter(program);
  }

  /** What a completed run with one host thread has returned. */
  lemma CompletedResults(setup: Setup, program: seq<Op>, states: seq<State>, labels: seq<Label>)
    requires CompletedRun(setup, states, labels) && setup.capacity >= 1 && setup.programs == [program]
    ensures ReportsOf(states[|labels|].returned) == Results(PipeAnswers(setup.getter), program)
    ensures states[|labels|].log == program
  {
    Completion(setup, states, labels);
    SequentialMeaning(setup, program, states, labels, |labels|);
    FinalCounts(setup, program, states, labels);
  }
}
