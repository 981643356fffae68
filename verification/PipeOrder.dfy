/** Per thread, for any number of threads on both sides: messages are put in line in
    program order, and the other side sees a prefix of every thread's program. */
module PipeOrder {
  import opened Core
  import opened Reports
  import opened Frames
  import opened Channels
  import opened InProcess
  import opened PipeSystem
  import opened PipeInvariants
  import opened PipeRuns
  import opened PipeProgress

  /** The messages that writer `w` put in line. */
  function By(ms: seq<Msg>, ws: seq<Writer>, w: Writer): seq<Msg>
    requires |ms| == |ws|
  {
    if ms == [] then []
    else
      var n := |ms| - 1;
      By(ms[..n], ws[..n], w) + if ws[n] == w then [ms[n]] else []
  }

  lemma BySnoc(ms: seq<Msg>, ws: seq<Writer>, m: Msg, x: Writer, w: Writer)
    requires |ms| == |ws|
    ensures By(ms + [m], ws + [x], w) == if x == w then By(ms, ws, w) + [m] else By(ms, ws, w)
  {
    assert (ms + [m])[..|ms|] == ms && (ws + [x])[..|ws|] == ws;
  }

  lemma {:induction false} ByPrefix(ms: seq<Msg>, ws: seq<Writer>, n: nat, w: Writer)
    requires n <= |ms| == |ws|
    ensures By(ms[..n], ws[..n], w) <= By(ms, ws, w)
    decreases |ms|
  {
    if n == |ms| {
      assert ms[..n] == ms && ws[..n] == ws;
    } else {
      var k := |ms| - 1;
      assert ms[..k][..n] == ms[..n] && ws[..k][..n] == ws[..n];
      ByPrefix(ms[..k], ws[..k], n, w);
    }
  }

  // ---------- one host thread ----------

  /** A host thread and the operations it has put in line. */
  datatype HostLine = HostLine(h: HostThread, issued: seq<Op>)

  function IssuedBy(c: Channel, i: nat): seq<Op>
    requires |c.writers| == |c.acquired|
  {
    OpsOf(By(c.acquired, c.writers, App(i)))
  }

  predicate HostInOrder(x: HostLine, program: seq<Op>) {
    && |x.h.todo| <= |program| && x.h.todo == program[|program| - |x.h.todo|..]
    && 0 <= Issued(x.h, program) <= |program|
    && x.issued == program[..Issued(x.h, program)]
  }

  /** What a step does to a host thread and its operations. */
  predicate HostMoves(x: HostLine, y: HostLine) {
    || (y.h == x.h && y.issued == x.issued)
    || (x.h.todo != [] &&
        match x.h.pc
        case Ready => y.h.pc == Locking && y.h.todo == x.h.todo && y.issued == x.issued
        case Locking => y.h.pc == Writing && y.h.todo == x.h.todo && y.issued == x.issued + [x.h.todo[0]]
        case Writing =>
          && y.issued == x.issued
          && ((y.h.pc == Awaiting && y.h.todo == x.h.todo) || (y.h.pc == Ready && y.h.todo == x.h.todo[1..]))
        case Awaiting => y.h.pc == Ready && y.h.todo == x.h.todo[1..] && y.issued == x.issued)
  }

  lemma HostStaysInOrder(x: HostLine, y: HostLine, program: seq<Op>)
    requires HostInOrder(x, program) && HostMoves(x, y)
    ensures HostInOrder(y, program)
  {
    var n := |program| - |x.h.todo|;
    if x.h.todo != [] {
      NextOperation(program, n);
    }
  }

  lemma LockIssues(c: Channel, k: nat, op: Op, i: nat)
    requires |c.writers| == |c.acquired|
    ensures IssuedBy(Lock(c, App(k), MsgOf(op)), i) == if k == i then IssuedBy(c, i) + [op] else IssuedBy(c, i)
  {
    BySnoc(c.acquired, c.writers, MsgOf(op), App(k), App(i));
    Snoc(By(c.acquired, c.writers, App(i)), MsgOf(op));
    assert OneOp(MsgOf(op)) == [op];
  }

  lemma SameLine(s: State, l: Label)
    requires Enabled(s, l) && !l.HostLock?
    ensures Next(s, l).toDevice.acquired == s.toDevice.acquired && Next(s, l).toDevice.writers == s.toDevice.writers
  {}

  lemma HostStepMoves(s: State, l: Label, i: nat)
    requires Records(s) && Owners(s) && Enabled(s, l) && i < |s.hosts|
    ensures var t := Next(s, l);
            && |t.hosts| == |s.hosts| && |t.toDevice.writers| == |t.toDevice.acquired|
            && HostMoves(HostLine(s.hosts[i], IssuedBy(s.toDevice, i)), HostLine(t.hosts[i], IssuedBy(t.toDevice, i)))
  {
    assert HostOk(s, i);
    if l.HostLock? {
      LockIssues(s.toDevice, l.i, s.hosts[l.i].todo[0], i);
    } else {
      SameLine(s, l);
      HostThreadSteps(s, l, i);
    }
  }

  lemma HostThreadSteps(s: State, l: Label, i: nat)
    requires Enabled(s, l) && !l.HostLock? && i < |s.hosts| && HostOk(s, i)
    ensures |Next(s, l).hosts| == |s.hosts|
    ensures HostMoves(HostLine(s.hosts[i], []), HostLine(Next(s, l).hosts[i], []))
  {
    if l.Begin? || l.HostUnlock? || l.Finish? {
    } else {
      SameHostOwners(s, l);
    }
  }

  // ---------- one device thread ----------

  datatype DeviceLine = DeviceLine(d: DeviceThread, issued: seq<InputReport>)

  function SubmittedBy(c: Channel, j: nat): seq<InputReport>
    requires |c.writers| == |c.acquired|
  {
    InputsOf(By(c.acquired, c.writers, App(j)))
  }

  function Submitted(d: DeviceThread, reports: seq<InputReport>): int {
    |reports| - |d.todo| + if d.writing then 1 else 0
  }

  predicate DeviceInOrder(x: DeviceLine, reports: seq<InputReport>) {
    && |x.d.todo| <= |reports| && x.d.todo == reports[|reports| - |x.d.todo|..]
    && 0 <= Submitted(x.d, reports) <= |reports|
    && x.issued == reports[..Submitted(x.d, reports)]
  }

  predicate DeviceMoves(x: DeviceLine, y: DeviceLine) {
    || y == x
    || (x.d.todo != [] && !x.d.writing && y == DeviceLine(x.d.(writing := true), x.issued + [x.d.todo[0]]))
    || (x.d.todo != [] && x.d.writing && y == DeviceLine(DeviceThread(x.d.todo[1..], false), x.issued))
  }

  lemma DeviceStaysInOrder(x: DeviceLine, y: DeviceLine, reports: seq<InputReport>)
    requires DeviceInOrder(x, reports) && DeviceMoves(x, y)
    ensures DeviceInOrder(y, reports)
  {
    var n := |reports| - |x.d.todo|;
    if x.d.todo != [] {
      assert reports[n..][0] == reports[n] && reports[..n + 1] == reports[..n] + [reports[n]];
    }
  }

  lemma LockSubmits(c: Channel, w: Writer, m: Msg, j: nat)
    requires |c.writers| == |c.acquired|
    requires (w.App? ==> m.InputMsg?) && (w.Server? ==> m.ReplyMsg?)
    ensures SubmittedBy(Lock(c, w, m), j) == if w == App(j) then SubmittedBy(c, j) + [m.input] else SubmittedBy(c, j)
  {
    BySnoc(c.acquired, c.writers, m, w, App(j));
    Snoc(By(c.acquired, c.writers, App(j)), m);
  }

  lemma SameSubmissions(s: State, l: Label)
    requires Enabled(s, l) && !l.SubmitLock? && !l.ReplyLock?
    ensures Next(s, l).toHost.acquired == s.toHost.acquired && Next(s, l).toHost.writers == s.toHost.writers
  {}

  lemma DeviceStepMoves(s: State, l: Label, j: nat)
    requires Records(s) && Owners(s) && Enabled(s, l) && j < |s.devices|
    ensures var t := Next(s, l);
            && |t.devices| == |s.devices| && |t.toHost.writers| == |t.toHost.acquired|
            && DeviceMoves(DeviceLine(s.devices[j], SubmittedBy(s.toHost, j)),
                           DeviceLine(t.devices[j], SubmittedBy(t.toHost, j)))
  {
    assert DeviceOk(s, j);
    if l.SubmitLock? {
      LockSubmits(s.toHost, App(l.j), InputMsg(s.devices[l.j].todo[0]), j);
    } else if l.ReplyLock? {
      LockSubmits(s.toHost, Server, ReplyMsg(s.serving.reply), j);
    } else {
      SameSubmissions(s, l);
      if !l.DeviceUnlock? {
        SameDeviceOwners(s, l);
      }
    }
  }

  // ---------- all threads ----------

  ghost predicate InOrder(setup: Setup, s: State) {
    && |s.hosts| == |setup.programs| && |s.devices| == |setup.reports| && Records(s)
    && (forall i :: 0 <= i < |s.hosts| ==>
          HostInOrder(HostLine(s.hosts[i], IssuedBy(s.toDevice, i)), setup.programs[i]))
    && (forall j :: 0 <= j < |s.devices| ==>
          DeviceInOrder(DeviceLine(s.devices[j], SubmittedBy(s.toHost, j)), setup.reports[j]))
  }

  lemma InitialInOrder(setup: Setup)
    ensures InOrder(setup, setup.Start())
  {
    RecordedInit(setup.capacity);
  }

  lemma StepInOrder(setup: Setup, s: State, l: Label)
    requires InOrder(setup, s) && Owners(s) && Enabled(s, l) && Records(Next(s, l))
    requires |Next(s, l).hosts| == |s.hosts| && |Next(s, l).devices| == |s.devices|
    ensures InOrder(setup, Next(s, l))
  {
    var t := Next(s, l);
    forall i | 0 <= i < |t.hosts|
      ensures HostInOrder(HostLine(t.hosts[i], IssuedBy(t.toDevice, i)), setup.programs[i])
    {
      HostStepMoves(s, l, i);
      HostStaysInOrder(HostLine(s.hosts[i], IssuedBy(s.toDevice, i)),
                       HostLine(t.hosts[i], IssuedBy(t.toDevice, i)), setup.programs[i]);
    }
    forall j | 0 <= j < |t.devices|
      ensures DeviceInOrder(DeviceLine(t.devices[j], SubmittedBy(t.toHost, j)), setup.reports[j])
    {
      DeviceStepMoves(s, l, j);
      DeviceStaysInOrder(DeviceLine(s.devices[j], SubmittedBy(s.toHost, j)),
                         DeviceLine(t.devices[j], SubmittedBy(t.toHost, j)), setup.reports[j]);
    }
  }

  /** Every thread puts its operations or reports in line in program order: those it has
      finished, and the one it is in if that has got the mutex. */
  lemma {:induction false} RunInOrder(setup: Setup, states: seq<State>, labels: seq<Label>, k: nat)
    requires RunFrom(setup, states, labels) && k < |states|
    ensures InOrder(setup, states[k])
  {
    if k == 0 {
      InitialInOrder(setup);
    } else {
      RunInOrder(setup, states, labels, k - 1);
      OrderAtStep(setup, states, labels, k - 1);
    }
  }

  lemma OrderAtStep(setup: Setup, states: seq<State>, labels: seq<Label>, k: nat)
    requires RunFrom(setup, states, labels) && k < |labels| && InOrder(setup, states[k])
    ensures InOrder(setup, states[k + 1])
  {
    RunInv(setup, states, labels, k);
    RunInv(setup, states, labels, k + 1);
    assert StepAt(states, labels, k);
    KeepHostOwner(states[k], labels[k]);
    KeepDeviceOwner(states[k], labels[k]);
    StepInOrder(setup, states[k], labels[k]);
  }

  // ---------- what the other side sees ----------

  function DeliveredBy(c: Channel, w: Writer): seq<Msg>
    requires |c.delivered| <= |c.writers|
  {
    By(c.delivered, c.writers[..|c.delivered|], w)
  }

  /** The device sees a prefix of every host thread's program, and the host a prefix of
      every device thread's reports; all of them once everything is done. */
  lemma ThreadsSeenInOrder(setup: Setup, states: seq<State>, labels: seq<Label>, k: nat)
    requires RunFrom(setup, states, labels) && k < |states|
    ensures var s := states[k];
            && |s.toDevice.delivered| <= |s.toDevice.writers| && |s.toHost.delivered| <= |s.toHost.writers|
            && (forall i :: 0 <= i < |setup.programs| ==> OpsOf(DeliveredBy(s.toDevice, App(i))) <= setup.programs[i])
            && (forall j :: 0 <= j < |setup.reports| ==> InputsOf(DeliveredBy(s.toHost, App(j))) <= setup.reports[j])
    ensures var s := states[k];
            Done(s) ==>
              && (forall i :: 0 <= i < |setup.programs| ==> OpsOf(DeliveredBy(s.toDevice, App(i))) == setup.programs[i])
              && (forall j :: 0 <= j < |setup.reports| ==> InputsOf(DeliveredBy(s.toHost, App(j))) == setup.reports[j])
  {
    var s := states[k];
    RunInv(setup, states, labels, k);
    RunInOrder(setup, states, labels, k);
    forall i | 0 <= i < |setup.programs|
      ensures OpsOf(DeliveredBy(s.toDevice, App(i))) <= setup.programs[i]
      ensures Done(s) ==> OpsOf(DeliveredBy(s.toDevice, App(i))) == setup.programs[i]
    {
      SeenOfHost(s, i, setup.programs[i]);
    }
    forall j | 0 <= j < |setup.reports|
      ensures InputsOf(DeliveredBy(s.toHost, App(j))) <= setup.reports[j]
      ensures Done(s) ==> InputsOf(DeliveredBy(s.toHost, App(j))) == setup.reports[j]
    {
      SeenOfDevice(s, j, setup.reports[j]);
    }
  }

  lemma DeliveredIsPrefix(c: Channel, w: Writer)
    requires Inv(c) && Recorded(c)
    ensures DeliveredBy(c, w) <= By(c.acquired, c.writers, w)
    ensures c.delivered == c.acquired ==> DeliveredBy(c, w) == By(c.acquired, c.writers, w)
  {
    var n := |c.delivered|;
    assert c.delivered == c.acquired[..n];
    ByPrefix(c.acquired, c.writers, n, w);
    if c.delivered == c.acquired {
      assert c.writers[..n] == c.writers;
    }
  }

  lemma SeenOfHost(s: State, i: nat, program: seq<Op>)
    requires Inv(s.toDevice) && Records(s) && Owners(s) && i < |s.hosts|
    requires HostInOrder(HostLine(s.hosts[i], IssuedBy(s.toDevice, i)), program)
    ensures OpsOf(DeliveredBy(s.toDevice, App(i))) <= program
    ensures Done(s) ==> OpsOf(DeliveredBy(s.toDevice, App(i))) == program
  {
    var c := s.toDevice;
    DeliveredIsPrefix(c, App(i));
    Prefixes(DeliveredBy(c, App(i)), By(c.acquired, c.writers, App(i)));
    assert HostOk(s, i);
  }

  lemma SeenOfDevice(s: State, j: nat, reports: seq<InputReport>)
    requires Inv(s.toHost) && Records(s) && Owners(s) && j < |s.devices|
    requires DeviceInOrder(DeviceLine(s.devices[j], SubmittedBy(s.toHost, j)), reports)
    ensures InputsOf(DeliveredBy(s.toHost, App(j))) <= reports
    ensures Done(s) ==> InputsOf(DeliveredBy(s.toHost, App(j))) == reports
  {
    var c := s.toHost;
    DeliveredIsPrefix(c, App(j));
    InputsPrefix(DeliveredBy(c, App(j)), By(c.acquired, c.writers, App(j)));
    assert DeviceOk(s, j);
  }

  // ---------- a single device thread ----------

  /** The server only writes replies, and only the one device thread writes inputs. */
  predicate OneSubmitter(c: Channel) {
    && |c.writers| == |c.acquired|
    && forall k :: 0 <= k < |c.writers| ==>
         if c.writers[k].Server? then c.acquired[k].ReplyMsg? else c.writers[k] == App(0)
  }

  lemma {:induction false} RunOneSubmitter(setup: Setup, states: seq<State>, labels: seq<Label>, k: nat)
    requires RunFrom(setup, states, labels) && k < |states| && |setup.reports| == 1
    ensures OneSubmitter(states[k].toHost)
  {
    if k > 0 {
      RunOneSubmitter(setup, states, labels, k - 1);
      RunInOrder(setup, states, labels, k - 1);
      assert StepAt(states, labels, k - 1);
      StepOneSubmitter(states[k - 1], labels[k - 1]);
    }
  }

  lemma StepOneSubmitter(s: State, l: Label)
    requires OneSubmitter(s.toHost) && Enabled(s, l) && |s.devices| == 1
    ensures OneSubmitter(Next(s, l).toHost)
  {
    if !l.SubmitLock? && !l.ReplyLock? {
      SameSubmissions(s, l);
    }
  }

  lemma {:induction false} OnlyInputs(ms: seq<Msg>, ws: seq<Writer>)
    requires |ms| == |ws|
    requires forall k :: 0 <= k < |ws| ==> if ws[k].Server? then ms[k].ReplyMsg? else ws[k] == App(0)
    ensures InputsOf(By(ms, ws, App(0))) == InputsOf(ms)
  {
    if ms != [] {
      var n := |ms| - 1;
      OnlyInputs(ms[..n], ws[..n]);
      Snoc(By(ms[..n], ws[..n], App(0)), ms[n]);
      AppendNothing(By(ms[..n], ws[..n], App(0)));
    }
  }

  /** With one device thread the host sees a prefix of its reports, and in the end all of them. */
  lemma InputsInOrder(setup: Setup, states: seq<State>, labels: seq<Label>, k: nat)
    requires RunFrom(setup, states, labels) && k < |states| && |setup.reports| == 1
    ensures states[k].inputs <= setup.reports[0]
    ensures Done(states[k]) ==> states[k].inputs == setup.reports[0]
  {
    var s := states[k];
    var n := |s.toHost.delivered|;
    RunInv(setup, states, labels, k);
    RunOneSubmitter(setup, states, labels, k);
    ThreadsSeenInOrder(setup, states, labels, k);
    DeliveredInOrder(s);
    assert s.toHost.delivered == s.toHost.acquired[..n];
    OnlyInputs(s.toHost.delivered, s.toHost.writers[..n]);
  }
}
