/** in_process_transport.cpp: the sequential transport, and the operation-level
    meaning that the pipe transport is compared with. */
module InProcess {
  import opened Core
  import opened Reports

  /** Host-side operations. */
  datatype Op = SendOutput(output: OutputReport) | SetFeature(feature: FeatureReport) | GetFeature

  /** A device's feature getter may depend on every call its handlers got before. */
  type Getter = seq<Op> -> FeatureReport

  /** The stored feature after some operations. */
  function Stored(start: FeatureReport, ops: seq<Op>): FeatureReport {
    if ops == [] then start
    else if ops[|ops| - 1].SetFeature? then ops[|ops| - 1].feature
    else Stored(start, ops[..|ops| - 1])
  }

  /** The feature set last, or the default one. */
  function LastSet(ops: seq<Op>): FeatureReport {
    Stored(DEFAULT_FEATURE, ops)
  }

  /** What the get operations among `ops` return, in order. */
  function Results(answer: Getter, ops: seq<Op>): seq<FeatureReport> {
    if ops == [] then []
    else
      var init := ops[..|ops| - 1];
      Results(answer, init) + if ops[|ops| - 1].GetFeature? then [answer(init)] else []
  }

  /** The transport's fields, and the calls its device handlers have received. */
  datatype Endpoint = Endpoint(
    open: bool, hasInput: bool, hasOutput: bool, hasSetter: bool, getter: Option<Getter>,
    lastFeature: FeatureReport, log: seq<Op>, inputs: seq<InputReport>)

  function Answers(getter: Option<Getter>): Getter {
    if getter.Some? then getter.value else LastSet
  }

  function Perform(e: Endpoint, op: Op): (Endpoint, seq<FeatureReport>) {
    match op
    case SendOutput(_) => (if e.open && e.hasOutput then e.(log := e.log + [op]) else e, [])
    case SetFeature(r) =>
      (e.(lastFeature := r, log := if e.hasSetter then e.log + [op] else e.log), [])
    case GetFeature =>
      if e.getter.None? then (e, [e.lastFeature])
      else (e.(log := e.log + [op]), [e.getter.value(e.log)])
  }

  function PerformAll(e: Endpoint, ops: seq<Op>): (Endpoint, seq<FeatureReport>) {
    if ops == [] then (e, [])
    else
      var (e1, r1) := PerformAll(e, ops[..|ops| - 1]);
      var (e2, r2) := Perform(e1, ops[|ops| - 1]);
      (e2, r1 + r2)
  }

  class InProcessTransport {
    var open: bool
    var hasInput: bool
    var hasOutput: bool
    var hasSetter: bool
    var getter: Option<Getter>
    var lastFeature: FeatureReport
    var log: seq<Op>
    var inputs: seq<InputReport>

    ghost function Abs(): Endpoint
      reads this
    {
      Endpoint(open, hasInput, hasOutput, hasSetter, getter, lastFeature, log, inputs)
    }

    constructor ()
      ensures Abs() == Endpoint(false, false, false, false, None, DEFAULT_FEATURE, [], [])
    {
      open, hasInput, hasOutput, hasSetter, getter := false, false, false, false, None;
      lastFeature, log, inputs := DEFAULT_FEATURE, [], [];
    }

    method Open()
      modifies this`open
      ensures open
    {
      open := true;
    }

    method Close()
      modifies this`open
      ensures !open
    {
      open := false;
    }

    method OnInput()
      modifies this`hasInput
      ensures hasInput
    {
      hasInput := true;
    }

    method OnOutput()
      modifies this`hasOutput
      ensures hasOutput
    {
      hasOutput := true;
    }

    method OnFeatureGet(g: Getter)
      modifies this`getter
      ensures getter == Some(g)
    {
      getter := Some(g);
    }

    method OnFeatureSet()
      modifies this`hasSetter
      ensures hasSetter
    {
      hasSetter := true;
    }

    method SubmitInput(report: InputReport)
      modifies this`inputs
      ensures inputs == if open && hasInput then old(inputs) + [report] else old(inputs)
    {
      if !open {
        return;
      }
      if hasInput {
        inputs := inputs + [report];
      }
    }

    method SendOutput(report: OutputReport)
      modifies this
      ensures Abs() == Perform(old(Abs()), Op.SendOutput(report)).0
      ensures Abs() == old(Abs()).(log := old(log) + if old(open && hasOutput) then [Op.SendOutput(report)] else [])
    {
      if !open {
        return;
      }
      if hasOutput {
        log := log + [Op.SendOutput(report)];
      }
    }

    method GetFeature() returns (report: FeatureReport)
      modifies this
      ensures (Abs(), [report]) == Perform(old(Abs()), Op.GetFeature)
      ensures match getter
              case None => report == lastFeature && Abs() == old(Abs())
              case Some(g) => report == g(old(log)) && Abs() == old(Abs()).(log := old(log) + [Op.GetFeature])
    {
      match getter {
        case None => report := lastFeature;
        case Some(g) =>
          report := g(log);
          log := log + [Op.GetFeature];
      }
    }

    method SetFeature(report: FeatureReport)
      modifies this
      ensures Abs() == Perform(old(Abs()), Op.SetFeature(report)).0
      ensures Abs() == old(Abs()).(lastFeature := report,
                                   log := old(log) + if old(hasSetter) then [Op.SetFeature(report)] else [])
    {
      lastFeature := report;
      if hasSetter {
        log := log + [Op.SetFeature(report)];
      }
    }
  }

  /** Whether an operation reaches a device handler: only output asks whether the transport is open. */
  predicate Reaches(e: Endpoint, op: Op) {
    match op
    case SendOutput(_) => e.open && e.hasOutput
    case SetFeature(_) => e.hasSetter
    case GetFeature => e.getter.Some?
  }

  /** The operations that reach a handler, in order. */
  function Reaching(e: Endpoint, ops: seq<Op>): seq<Op> {
    if ops == [] then []
    else Reaching(e, ops[..|ops| - 1]) + if Reaches(e, ops[|ops| - 1]) then [ops[|ops| - 1]] else []
  }

  /** What a get returns after some operations. */
  function AnswerAfter(e: Endpoint, ops: seq<Op>): FeatureReport {
    if e.getter.Some? then e.getter.value(e.log + Reaching(e, ops)) else Stored(e.lastFeature, ops)
  }

  /** Open or closed, with any handlers: the handlers get exactly the operations that reach them, in
      order; a set is always stored; a get returns what the getter answers to the calls it has
      seen, or the stored feature when there is no getter. */
  lemma {:induction false} AnyRun(e: Endpoint, ops: seq<Op>)
    ensures var (after, results) := PerformAll(e, ops);
            && after == e.(log := e.log + Reaching(e, ops), lastFeature := Stored(e.lastFeature, ops))
            && results == Results(before => AnswerAfter(e, before), ops)
  {
    if ops == [] {
      assert e.log + [] == e.log;
    } else {
      var init, op := ops[..|ops| - 1], ops[|ops| - 1];
      AnyRun(e, init);
      AppendAssociates(e.log, Reaching(e, init), [op]);
      if !Reaches(e, op) {
        AppendNothing(Reaching(e, init));
      }
    }
  }

  /** An open transport with every handler installed shows its device exactly the
      operations performed, in order, and returns what the getter then answers. */
  lemma {:induction false} WiredRun(e: Endpoint, ops: seq<Op>)
    requires e.open && e.hasOutput && e.hasSetter && e.getter.Some? && e.log == []
    ensures var (after, results) := PerformAll(e, ops);
            && after.log == ops
            && results == Results(e.getter.value, ops)
            && after.open && after.hasOutput && after.hasSetter && after.getter == e.getter
  {
    if ops != [] {
      WiredRun(e, ops[..|ops| - 1]);
    }
  }

  /** Without a getter, gets return the feature set last. */
  lemma {:induction false} UngetteredRun(e: Endpoint, ops: seq<Op>)
    requires e.getter.None? && e.lastFeature == DEFAULT_FEATURE
    ensures var (after, results) := PerformAll(e, ops);
            results == Results(LastSet, ops) && after.lastFeature == LastSet(ops) && after.getter.None?
  {
    if ops != [] {
      UngetteredRun(e, ops[..|ops| - 1]);
    }
  }

  /** Get returns the last set, when the device stores what is set and serves it. */
  lemma {:induction false} GetReturnsLastSet(ops: seq<Op>, report: FeatureReport, more: seq<Op>)
    requires forall i :: 0 <= i < |more| ==> !more[i].SetFeature?
    ensures LastSet(ops + [SetFeature(report)] + more) == report
  {
    var all := ops + [SetFeature(report)] + more;
    if more != [] {
      GetReturnsLastSet(ops, report, more[..|more| - 1]);
      assert all[..|all| - 1] == ops + [SetFeature(report)] + more[..|more| - 1];
    }
  }
}
