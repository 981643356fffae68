/** Vhf.cpp: user-mode readers park requests in two manual queues, and every host
    report takes one reader. Requests are owned by exactly one place at a time.
    Cancellation and several device instances are not modelled. */
module ControlDevice {
  import opened Core

  type Status = I32

  const STATUS_SUCCESS: Status := 0
  const STATUS_INVALID_DEVICE_REQUEST: Status := -0x3FFF_FFF0
  const STATUS_BUFFER_TOO_SMALL: Status := -0x3FFF_FFDD

  predicate NtSuccess(s: Status) { s >= 0 }

  datatype Ioctl = SubmitInputReport | PendOutputReport | PendFeatureRequest | CompleteFeatureGet | OtherCode

  /** A control request, the length of its output buffer and what retrieving that buffer answers. */
  datatype Request = Request(id: nat, outLen: nat, retrieve: Status)

  datatype Which = Outputs | Features {
    function OpByte(): Byte { if Outputs? then 0 else 1 }
  }

  /** The answers of the framework to one dispatch. */
  datatype Env = Env(forward: Status, retrieveInput: Status, vhfReady: bool, submit: Status)

  /** A reader taken from its queue for a host report; `report` is the report's
      position among those that arrived for the queue. */
  datatype Pair = Pair(request: Request, report: nat)

  datatype Queue = Queue(
    waiting: seq<Request>,
    // history
    parked: seq<Request>,        // every request ever forwarded, in order
    reports: seq<seq<Byte>>,     // every host report, in order
    pairs: seq<Pair>)

  /** A host callback that took a reader, and whether it has completed it yet; `pair` is
      its position in the pairs. */
  datatype Held = Held(which: Which, pair: nat, request: Request, bytes: seq<Byte>, finished: bool)

  datatype Origin = Control | Reader(which: Which, pair: nat)

  datatype Completion = Completion(request: Request, status: Status, data: seq<Byte>, origin: Origin)

  datatype State = State(
    presented: set<Request>, dispatching: Option<(Request, Ioctl)>,
    output: Queue, feature: Queue, held: seq<Held>, completed: seq<Completion>)

  const EMPTY_QUEUE: Queue := Queue([], [], [], [])
  const START: State := State({}, None, EMPTY_QUEUE, EMPTY_QUEUE, [], [])

  function QueueOf(s: State, w: Which): Queue { if w.Outputs? then s.output else s.feature }

  function WithQueue(s: State, w: Which, q: Queue): State {
    if w.Outputs? then s.(output := q) else s.(feature := q)
  }

  // ---------- steps ----------

  datatype Event =
    | Present(request: Request, code: Ioctl)
    | Dispatch(env: Env)
    | Report(which: Which, bytes: seq<Byte>)
    | Finish(i: nat)

  datatype Verdict = Park(which: Which) | Complete(status: Status)

  function Decide(code: Ioctl, env: Env): Verdict {
    match code
    case SubmitInputReport =>
      Complete(if NtSuccess(env.retrieveInput) && env.vhfReady then env.submit else env.retrieveInput)
    case PendOutputReport => if NtSuccess(env.forward) then Park(Outputs) else Complete(env.forward)
    case PendFeatureRequest => if NtSuccess(env.forward) then Park(Features) else Complete(env.forward)
    case CompleteFeatureGet => Complete(STATUS_SUCCESS)
    case OtherCode => Complete(STATUS_INVALID_DEVICE_REQUEST)
  }

  predicate Enabled(s: State, e: Event) {
    match e
    // The default queue is sequential, and every request is presented once.
    case Present(r, _) => s.dispatching.None? && forall p :: p in s.presented ==> p.id != r.id
    case Dispatch(_) => s.dispatching.Some?
    case Report(_, _) => true
    case Finish(i) => i < |s.held| && !s.held[i].finished
  }

  function Parked(q: Queue, r: Request): Queue {
    q.(waiting := q.waiting + [r], parked := q.parked + [r])
  }

  function DoDispatch(s: State, env: Env): State
    requires s.dispatching.Some?
  {
    var (r, code) := s.dispatching.value;
    var t := s.(dispatching := None);
    match Decide(code, env)
    case Park(w) => WithQueue(t, w, Parked(QueueOf(s, w), r))
    case Complete(status) => t.(completed := s.completed + [Completion(r, status, [], Control)])
  }

  /** A host callback takes the first waiting reader, or drops the report. */
  function DoReport(s: State, w: Which, bytes: seq<Byte>): State {
    var q := QueueOf(s, w);
    var arrived := q.(reports := q.reports + [bytes]);
    if q.waiting == [] then WithQueue(s, w, arrived)
    else
      WithQueue(s, w, arrived.(waiting := q.waiting[1..], pairs := q.pairs + [Pair(q.waiting[0], |q.reports|)]))
      .(held := s.held + [Held(w, |q.pairs|, q.waiting[0], bytes, false)])
  }

  /** How a taken reader is completed with a report. */
  function Outcome(r: Request, w: Which, bytes: seq<Byte>): (Status, seq<Byte>) {
    if !NtSuccess(r.retrieve) then (r.retrieve, [])
    else if r.outLen < 1 + |bytes| then (STATUS_BUFFER_TOO_SMALL, [])
    else (STATUS_SUCCESS, [w.OpByte()] + bytes)
  }

  function DoFinish(s: State, i: nat): State
    requires Enabled(s, Finish(i))
  {
    var Held(w, k, r, bytes, _) := s.held[i];
    var (status, data) := Outcome(r, w, bytes);
    s.(held := s.held[i := s.held[i].(finished := true)],
       completed := s.completed + [Completion(r, status, data, Reader(w, k))])
  }

  function Next(s: State, e: Event): State
    requires Enabled(s, e)
  {
    match e
    case Present(r, code) => s.(presented := s.presented + {r}, dispatching := Some((r, code)))
    case Dispatch(env) => DoDispatch(s, env)
    case Report(w, bytes) => DoReport(s, w, bytes)
    case Finish(i) => DoFinish(s, i)
  }

  /** The state after some events, None if one of them is impossible. */
  function After(events: seq<Event>): Option<State> {
    if events == [] then Some(START)
    else
      var before := After(events[..|events| - 1]);
      var e := events[|events| - 1];
      if before.Some? && Enabled(before.value, e) then Some(Next(before.value, e)) else None
  }

  // ---------- ownership ----------

  function Occurs(rs: seq<Request>, r: Request): nat {
    if rs == [] then 0 else Occurs(rs[..|rs| - 1], r) + if rs[|rs| - 1] == r then 1 else 0
  }

  /** Callbacks that still hold the request. */
  function HeldCount(hs: seq<Held>, r: Request): nat {
    if hs == [] then 0
    else
      var h := hs[|hs| - 1];
      HeldCount(hs[..|hs| - 1], r) + if h.request == r && !h.finished then 1 else 0
  }

  function CompletedCount(cs: seq<Completion>, r: Request): nat {
    if cs == [] then 0 else CompletedCount(cs[..|cs| - 1], r) + if cs[|cs| - 1].request == r then 1 else 0
  }

  /** In how many places a request is, and how often. */
  function Places(s: State, r: Request): nat {
    (if s.dispatching.Some? && s.dispatching.value.0 == r then 1 else 0)
    + Occurs(s.output.waiting, r) + Occurs(s.feature.waiting, r)
    + HeldCount(s.held, r) + CompletedCount(s.completed, r)
  }

  lemma OccursSnoc(rs: seq<Request>, x: Request, r: Request)
    ensures Occurs(rs + [x], r) == Occurs(rs, r) + if x == r then 1 else 0
  {
    assert (rs + [x])[..|rs|] == rs;
  }

  lemma {:induction false} OccursTail(rs: seq<Request>, r: Request)
    requires rs != []
    ensures Occurs(rs, r) == Occurs(rs[1..], r) + if rs[0] == r then 1 else 0
  {
    var n := |rs| - 1;
    if n > 0 {
      OccursTail(rs[..n], r);
      assert rs[..n][1..] == rs[1..][..n - 1];
    }
  }

  lemma HeldSnoc(hs: seq<Held>, h: Held, r: Request)
    ensures HeldCount(hs + [h], r) == HeldCount(hs, r) + if h.request == r && !h.finished then 1 else 0
  {
    assert (hs + [h])[..|hs|] == hs;
  }

  lemma CompletedSnoc(cs: seq<Completion>, c: Completion, r: Request)
    ensures CompletedCount(cs + [c], r) == CompletedCount(cs, r) + if c.request == r then 1 else 0
  {
    assert (cs + [c])[..|cs|] == cs;
  }

  lemma {:induction false} HeldFinished(hs: seq<Held>, i: nat, r: Request)
    requires i < |hs| && !hs[i].finished
    ensures HeldCount(hs, r)
         == HeldCount(hs[i := hs[i].(finished := true)], r) + if hs[i].request == r then 1 else 0
  {
    var n, after := |hs| - 1, hs[i := hs[i].(finished := true)];
    if i < n {
      HeldFinished(hs[..n], i, r);
      assert after[..n] == hs[..n][i := hs[i].(finished := true)];
    } else {
      assert after[..n] == hs[..n];
    }
  }

  /** A step creates no place and loses none, except that presenting adds the new request. */
  lemma {:induction false} PlacesStep(s: State, e: Event, r: Request)
    requires Enabled(s, e)
    ensures Places(Next(s, e), r) == Places(s, r) + if e.Present? && e.request == r then 1 else 0
  {
    match e
    case Present(_, _) =>
    case Dispatch(env) => PlacesDispatch(s, env, r);
    case Report(w, bytes) =>
      var q := QueueOf(s, w);
      if q.waiting != [] {
        HeldSnoc(s.held, Held(w, |q.pairs|, q.waiting[0], bytes, false), r);
        OccursTail(q.waiting, r);
      }
    case Finish(i) =>
      var h := s.held[i];
      var (status, data) := Outcome(h.request, h.which, h.bytes);
      HeldFinished(s.held, i, r);
      CompletedSnoc(s.completed, Completion(h.request, status, data, Reader(h.which, h.pair)), r);
  }

  lemma QueuePlaces(s: State, w: Which, q: Queue, r: Request)
    ensures Places(WithQueue(s, w, q), r) + Occurs(QueueOf(s, w).waiting, r) == Places(s, r) + Occurs(q.waiting, r)
  {}

  lemma PlacesDispatch(s: State, env: Env, r: Request)
    requires s.dispatching.Some?
    ensures Places(DoDispatch(s, env), r) == Places(s, r)
  {
    var (x, code) := s.dispatching.value;
    var t := s.(dispatching := None);
    assert Places(t, r) + (if x == r then 1 else 0) == Places(s, r);
    match Decide(code, env)
    case Park(w) =>
      var q := QueueOf(s, w);
      OccursSnoc(q.waiting, x, r);
      QueuePlaces(t, w, Parked(q, x), r);
    case Complete(status) => CompletedSnoc(s.completed, Completion(x, status, [], Control), r);
  }

  // ---------- queues ----------

  /** Callbacks that still handle a report for the queue. */
  function HeldFor(hs: seq<Held>, w: Which): nat {
    if hs == [] then 0
    else
      var h := hs[|hs| - 1];
      HeldFor(hs[..|hs| - 1], w) + if h.which == w && !h.finished then 1 else 0
  }

  lemma HeldForSnoc(hs: seq<Held>, h: Held, w: Which)
    ensures HeldFor(hs + [h], w) == HeldFor(hs, w) + if h.which == w && !h.finished then 1 else 0
  {
    assert (hs + [h])[..|hs|] == hs;
  }

  lemma {:induction false} HeldForFinished(hs: seq<Held>, i: nat, w: Which)
    requires i < |hs| && !hs[i].finished
    ensures HeldFor(hs, w) == HeldFor(hs[i := hs[i].(finished := true)], w) + if hs[i].which == w then 1 else 0
  {
    var n, after := |hs| - 1, hs[i := hs[i].(finished := true)];
    if i < n {
      HeldForFinished(hs[..n], i, w);
      assert after[..n] == hs[..n][i := hs[i].(finished := true)];
    } else {
      assert after[..n] == hs[..n];
    }
  }

  /** Readers are paired in the order they were parked, with reports in the order they arrived. */
  predicate Fifo(q: Queue) {
    && |q.pairs| <= |q.parked|
    && (forall k :: 0 <= k < |q.pairs| ==> q.pairs[k].request == q.parked[k] && q.pairs[k].report < |q.reports|)
    && (forall j, k :: 0 <= j < k < |q.pairs| ==> q.pairs[j].report < q.pairs[k].report)
    && q.waiting == q.parked[|q.pairs|..]
  }

  predicate HeldOk(s: State, h: Held) {
    var q := QueueOf(s, h.which);
    h.pair < |q.pairs| && q.pairs[h.pair].report < |q.reports|
    && h.request == q.pairs[h.pair].request && h.bytes == q.reports[q.pairs[h.pair].report]
  }

  /** A reader was completed with exactly the report it was paired with. */
  predicate CompletionOk(s: State, c: Completion) {
    match c.origin
    case Control => c.data == []
    case Reader(w, k) =>
      var q := QueueOf(s, w);
      k < |q.pairs| && q.pairs[k].report < |q.reports| && c.request == q.pairs[k].request
      && (c.status, c.data) == Outcome(c.request, w, q.reports[q.pairs[k].report])
  }

  /** How many readers of one queue were completed with success, or without. */
  function CompletedFor(cs: seq<Completion>, w: Which, success: bool): nat {
    if cs == [] then 0
    else
      var c := cs[|cs| - 1];
      CompletedFor(cs[..|cs| - 1], w, success)
      + if c.origin.Reader? && c.origin.which == w && NtSuccess(c.status) == success then 1 else 0
  }

  lemma CompletedForSnoc(cs: seq<Completion>, c: Completion, w: Which, success: bool)
    ensures CompletedFor(cs + [c], w, success)
         == CompletedFor(cs, w, success)
            + if c.origin.Reader? && c.origin.which == w && NtSuccess(c.status) == success then 1 else 0
  {
    assert (cs + [c])[..|cs|] == cs;
  }

  /** Every pairing has led to one completion, or is held by a callback. */
  predicate Conserved(s: State, w: Which) {
    |QueueOf(s, w).pairs|
    == CompletedFor(s.completed, w, true) + CompletedFor(s.completed, w, false) + HeldFor(s.held, w)
  }

  /** The r-th host report was paired with a reader. */
  predicate Paired(pairs: seq<Pair>, r: nat) { exists k :: 0 <= k < |pairs| && pairs[k].report == r }

  /** How many of the first n host reports were paired with no reader. */
  function Dropped(pairs: seq<Pair>, n: nat): nat {
    if n == 0 then 0 else Dropped(pairs, n - 1) + if Paired(pairs, n - 1) then 0 else 1
  }

  /** With the first m pairings, in order, for the first n reports, the others are dropped. */
  lemma {:induction false} PairedOrDropped(pairs: seq<Pair>, n: nat, m: nat)
    requires forall j, k :: 0 <= j < k < |pairs| ==> pairs[j].report < pairs[k].report
    requires m <= |pairs| && (forall k :: 0 <= k < m ==> pairs[k].report < n)
    requires forall k :: m <= k < |pairs| ==> pairs[k].report >= n
    ensures n == m + Dropped(pairs, n)
    decreases n
  {
    if n > 0 {
      if m > 0 && pairs[m - 1].report == n - 1 {
        PairedOrDropped(pairs, n - 1, m - 1);
      } else {
        assert forall k :: 0 <= k < m ==> pairs[k].report < n - 1;
        PairedOrDropped(pairs, n - 1, m);
      }
    }
  }

  /** A host report is paired exactly when a reader waits as it arrives. */
  lemma DroppedIffNobodyWaits(s: State, w: Which, bytes: seq<Byte>)
    requires Fifo(QueueOf(s, w))
    ensures var q := QueueOf(DoReport(s, w, bytes), w);
            Paired(q.pairs, |q.reports| - 1) <==> QueueOf(s, w).waiting != []
  {
    var q := QueueOf(DoReport(s, w, bytes), w);
    if QueueOf(s, w).waiting != [] {
      assert q.pairs[|q.pairs| - 1].report == |q.reports| - 1;
    }
  }

  predicate AllHeldOk(s: State) { forall i :: 0 <= i < |s.held| ==> HeldOk(s, s.held[i]) }

  predicate AllCompletionsOk(s: State) { forall i :: 0 <= i < |s.completed| ==> CompletionOk(s, s.completed[i]) }

  /** Every presented request is in one place, and no other request in any. */
  ghost predicate PlacedOnce(s: State) {
    forall r :: Places(s, r) == if r in s.presented then 1 else 0
  }

  ghost predicate Inv(s: State) {
    && PlacedOnce(s)
    && Fifo(s.output) && Fifo(s.feature)
    && AllHeldOk(s) && AllCompletionsOk(s)
    && Conserved(s, Outputs) && Conserved(s, Features)
  }

  lemma FifoParks(q: Queue, r: Request)
    requires Fifo(q)
    ensures Fifo(Parked(q, r))
  {}

  lemma FifoReports(q: Queue, bytes: seq<Byte>)
    requires Fifo(q)
    ensures q.waiting == [] ==> Fifo(q.(reports := q.reports + [bytes]))
    ensures q.waiting != [] ==> Fifo(q.(reports := q.reports + [bytes], waiting := q.waiting[1..],
                                        pairs := q.pairs + [Pair(q.waiting[0], |q.reports|)]))
  {}

  lemma {:induction false} KeepFifo(s: State, e: Event, w: Which)
    requires Fifo(QueueOf(s, w)) && Enabled(s, e)
    ensures Fifo(QueueOf(Next(s, e), w))
  {
    match e
    case Present(_, _) =>
    case Dispatch(_) => FifoParks(QueueOf(s, w), s.dispatching.value.0);
    case Report(_, bytes) => FifoReports(QueueOf(s, w), bytes);
    case Finish(_) =>
  }

  lemma ReportConserves(s: State, v: Which, bytes: seq<Byte>, w: Which)
    requires Conserved(s, w)
    ensures Conserved(DoReport(s, v, bytes), w)
  {
    var q := QueueOf(s, v);
    if q.waiting != [] {
      HeldForSnoc(s.held, Held(v, |q.pairs|, q.waiting[0], bytes, false), w);
    }
  }

  lemma FinishConserves(s: State, i: nat, w: Which)
    requires Conserved(s, w) && Enabled(s, Finish(i))
    ensures Conserved(DoFinish(s, i), w)
  {
    var h := s.held[i];
    var (status, data) := Outcome(h.request, h.which, h.bytes);
    var c := Completion(h.request, status, data, Reader(h.which, h.pair));
    HeldForFinished(s.held, i, w);
    CompletedForSnoc(s.completed, c, w, true);
    CompletedForSnoc(s.completed, c, w, false);
  }

  lemma DispatchConserves(s: State, env: Env, w: Which)
    requires Conserved(s, w) && s.dispatching.Some?
    ensures Conserved(DoDispatch(s, env), w)
  {
    var (r, code) := s.dispatching.value;
    match Decide(code, env)
    case Park(_) =>
    case Complete(status) =>
      CompletedForSnoc(s.completed, Completion(r, status, [], Control), w, true);
      CompletedForSnoc(s.completed, Completion(r, status, [], Control), w, false);
  }

  lemma KeepConserved(s: State, e: Event, w: Which)
    requires Conserved(s, w) && Enabled(s, e)
    ensures Conserved(Next(s, e), w)
  {
    match e
    case Present(_, _) =>
    case Dispatch(env) => DispatchConserves(s, env, w);
    case Report(v, bytes) => ReportConserves(s, v, bytes, w);
    case Finish(i) => FinishConserves(s, i, w);
  }

  /** What is recorded about pairs and reports never changes. */
  lemma HistoryGrows(s: State, e: Event, w: Which)
    requires Enabled(s, e)
    ensures var q, r := QueueOf(s, w), QueueOf(Next(s, e), w);
            q.pairs <= r.pairs && q.reports <= r.reports && q.parked <= r.parked
    ensures s.completed <= Next(s, e).completed
  {}

  lemma KeepHeld(s: State, e: Event)
    requires AllHeldOk(s) && Enabled(s, e)
    ensures AllHeldOk(Next(s, e))
  {
    HistoryGrows(s, e, Outputs);
    HistoryGrows(s, e, Features);
    var t := Next(s, e);
    forall i | 0 <= i < |t.held| ensures HeldOk(t, t.held[i]) {
      if i < |s.held| {
        assert HeldOk(s, s.held[i]);
      }
    }
  }

  lemma KeepCompletions(s: State, e: Event)
    requires AllHeldOk(s) && AllCompletionsOk(s) && Enabled(s, e)
    ensures AllCompletionsOk(Next(s, e))
  {
    HistoryGrows(s, e, Outputs);
    HistoryGrows(s, e, Features);
    var t := Next(s, e);
    forall i | 0 <= i < |t.completed| ensures CompletionOk(t, t.completed[i]) {
      if i < |s.completed| {
        assert CompletionOk(s, s.completed[i]);
      } else if e.Finish? {
        assert HeldOk(s, s.held[e.i]);
      }
    }
  }

  lemma PresentedStep(s: State, e: Event, r: Request)
    requires Enabled(s, e)
    ensures r in Next(s, e).presented <==> r in s.presented || (e.Present? && e.request == r)
    ensures e.Present? ==> e.request !in s.presented
  {}

  lemma {:induction false} StepPlaces(s: State, e: Event)
    requires PlacedOnce(s) && Enabled(s, e)
    ensures PlacedOnce(Next(s, e))
  {
    forall r ensures Places(Next(s, e), r) == if r in Next(s, e).presented then 1 else 0 {
      PlacesStep(s, e, r);
      PresentedStep(s, e, r);
    }
  }

  lemma {:induction false} StepInv(s: State, e: Event)
    requires Inv(s) && Enabled(s, e)
    ensures Inv(Next(s, e))
  {
    StepPlaces(s, e);
    KeepFifo(s, e, Outputs);
    KeepFifo(s, e, Features);
    KeepConserved(s, e, Outputs);
    KeepConserved(s, e, Features);
    KeepHeld(s, e);
    KeepCompletions(s, e);
  }

  lemma {:induction false} RunInv(events: seq<Event>)
    requires After(events).Some?
    ensures Inv(After(events).value)
  {
    if events != [] {
      RunInv(events[..|events| - 1]);
      StepInv(After(events[..|events| - 1]).value, events[|events| - 1]);
    }
  }

  // ---------- what this means for requests and reports ----------

  /** No two presented requests share an id. */
  lemma {:induction false} DistinctIds(events: seq<Event>)
    requires After(events).Some?
    ensures var s := After(events).value;
            forall p, q :: p in s.presented && q in s.presented && p.id == q.id ==> p == q
  {
    if events != [] {
      DistinctIds(events[..|events| - 1]);
    }
  }

  /** In every run a presented request is in exactly one place - being dispatched,
      in one of the queues, held by a host callback, or completed - and there only
      once; in particular it is completed at most once. */
  lemma {:induction false} ExactlyOncePlace(events: seq<Event>, r: Request)
    requires After(events).Some?
    ensures var s := After(events).value;
            && Places(s, r) == (if r in s.presented then 1 else 0)
            && CompletedCount(s.completed, r) <= 1
            && (CompletedCount(s.completed, r) == 1 ==>
                  Occurs(s.output.waiting, r) == Occurs(s.feature.waiting, r) == HeldCount(s.held, r) == 0)
  {
    RunInv(events);
  }

  lemma {:induction false} CompletedOnce(cs: seq<Completion>, i: nat)
    requires i < |cs|
    ensures CompletedCount(cs, cs[i].request) >= 1
  {
    if i < |cs| - 1 {
      CompletedOnce(cs[..|cs| - 1], i);
    }
  }

  lemma {:induction false} CompletedTwice(cs: seq<Completion>, i: nat, j: nat)
    requires i < j < |cs| && cs[i].request == cs[j].request
    ensures CompletedCount(cs, cs[i].request) >= 2
  {
    var n := |cs| - 1;
    if j < n {
      CompletedTwice(cs[..n], i, j);
    } else {
      CompletedOnce(cs[..n], i);
    }
  }

  lemma CompletedWasPresented(events: seq<Event>, i: nat)
    requires After(events).Some? && i < |After(events).value.completed|
    ensures After(events).value.completed[i].request in After(events).value.presented
  {
    ExactlyOncePlace(events, After(events).value.completed[i].request);
    CompletedOnce(After(events).value.completed, i);
  }

  /** No request id is completed twice, whatever buffers the requests carry. */
  lemma {:induction false} IdsCompletedOnce(events: seq<Event>, i: nat, j: nat)
    requires After(events).Some? && i < j < |After(events).value.completed|
    ensures var cs := After(events).value.completed; cs[i].request.id != cs[j].request.id
  {
    var cs := After(events).value.completed;
    if cs[i].request.id == cs[j].request.id {
      DistinctIds(events);
      CompletedWasPresented(events, i);
      CompletedWasPresented(events, j);
      CompletedTwice(cs, i, j);
      ExactlyOncePlace(events, cs[i].request);
    }
  }

  /** Completions are final. */
  lemma {:induction false} CompletionsAreFinal(events: seq<Event>, more: seq<Event>)
    requires After(events + more).Some?
    ensures After(events).Some? && After(events).value.completed <= After(events + more).value.completed
  {
    if more == [] {
      assert events + more == events;
    } else {
      var all, init := events + more, more[..|more| - 1];
      assert all[..|all| - 1] == events + init;
      CompletionsAreFinal(events, init);
      HistoryGrows(After(events + init).value, all[|all| - 1], Outputs);
    }
  }

  /** How a reader is completed with a report. */
  predicate GotReport(c: Completion, bytes: seq<Byte>, op: Byte) {
    var r := c.request;
    if r.retrieve < 0 then c.status == r.retrieve && c.data == []
    else if r.outLen < 1 + |bytes| then c.status == 0xC000_0023 - 0x1_0000_0000 && c.data == []
    else c.status == 0 && c.data == [op] + bytes
  }

  lemma OutcomeIsAllOrNothing(r: Request, w: Which, bytes: seq<Byte>)
    ensures var (status, data) := Outcome(r, w, bytes);
            && (NtSuccess(status) <==> NtSuccess(r.retrieve) && 1 + |bytes| <= r.outLen)
            && (forall origin :: GotReport(Completion(r, status, data, origin), bytes, if w.Outputs? then 0 else 1))
            && |data| <= r.outLen
  {}

  /** A completed reader is the one parked at its place in the queue. It was paired with one
      host report and got the queue's op byte and exactly that report, and success, when its
      buffer could be retrieved and was large enough; otherwise it got nothing but the reason. */
  lemma {:induction false} ReaderSeesItsReport(events: seq<Event>, i: nat)
    requires After(events).Some? && i < |After(events).value.completed|
    requires After(events).value.completed[i].origin.Reader?
    ensures var c := After(events).value.completed[i];
            var q, k := QueueOf(After(events).value, c.origin.which), c.origin.pair;
            && k < |q.pairs| && k < |q.parked| && c.request == q.parked[k] && q.pairs[k].report < |q.reports|
            && var bytes := q.reports[q.pairs[k].report];
               && (NtSuccess(c.status) <==> NtSuccess(c.request.retrieve) && 1 + |bytes| <= c.request.outLen)
               && GotReport(c, bytes, if c.origin.which.Outputs? then 0 else 1)
               && |c.data| <= c.request.outLen
  {
    RunInv(events);
    var s := After(events).value;
    var c := s.completed[i];
    var q := QueueOf(s, c.origin.which);
    assert CompletionOk(s, c) && Fifo(q);
    OutcomeIsAllOrNothing(c.request, c.origin.which, q.reports[q.pairs[c.origin.pair].report]);
  }

  /** Readers are taken in the order they were parked, for reports in the order they arrived. */
  lemma ReadersSeeReportsInOrder(events: seq<Event>, w: Which)
    requires After(events).Some?
    ensures var q := QueueOf(After(events).value, w);
            && |q.pairs| <= |q.parked|
            && (forall k :: 0 <= k < |q.pairs| ==> q.pairs[k].request == q.parked[k])
            && (forall j, k :: 0 <= j < k < |q.pairs| ==> q.pairs[j].report < q.pairs[k].report < |q.reports|)
  {
    RunInv(events);
    assert Fifo(QueueOf(After(events).value, w));
  }

  /** An output reader with room for it gets an op byte in front of the report's wire bytes. */
  lemma OutputReportIsPrefixed(r: Request, wire: seq<Byte>, env: Env)
    requires NtSuccess(r.retrieve) && r.outLen == 1 + |wire| && NtSuccess(env.forward)
    ensures var run := After([Present(r, PendOutputReport), Dispatch(env), Report(Outputs, wire), Finish(0)]);
            && run.Some?
            && run.value.completed == [Completion(r, STATUS_SUCCESS, [0] + wire, Reader(Outputs, 0))]
  {
    var a, b := Present(r, PendOutputReport), Dispatch(env);
    var c, d := Report(Outputs, wire), Finish(0);
    assert [a, b, c, d][..3] == [a, b, c] && [a, b, c][..2] == [a, b] && [a, b][..1] == [a] && [a][..0] == [];
    var s := Next(Next(START, a), b);
    assert After([]) == Some(START) && After([a]) == Some(Next(START, a));
    assert After([a, b]) == Some(s);
    assert After([a, b, c]) == Some(Next(s, c));
    assert Next(s, c).held == [Held(Outputs, 0, r, wire, false)];
  }

  /** Every host report led to one completion of a reader, with success or without, or was
      dropped for want of a reader, or is being handled. */
  lemma ReportsAreConserved(events: seq<Event>, w: Which)
    requires After(events).Some?
    ensures var s := After(events).value;
            var q := QueueOf(s, w);
            && |q.reports| == CompletedFor(s.completed, w, true) + CompletedFor(s.completed, w, false)
                              + Dropped(q.pairs, |q.reports|) + HeldFor(s.held, w)
            && |q.pairs| == CompletedFor(s.completed, w, true) + CompletedFor(s.completed, w, false)
                            + HeldFor(s.held, w)
            && |q.pairs| <= |q.parked| && q.waiting == q.parked[|q.pairs|..]
  {
    RunInv(events);
    var s := After(events).value;
    var q := QueueOf(s, w);
    assert Conserved(s, w) && Fifo(q);
    PairedOrDropped(q.pairs, |q.reports|, |q.pairs|);
  }

  // ---------- one dispatch, code by code ----------

  /** Nothing of a queue changes but that the request joins it. */
  predicate Joins(before: Queue, after: Queue, r: Request) {
    && after.parked == before.parked + [r] && after.waiting == before.waiting + [r]
    && after.reports == before.reports && after.pairs == before.pairs
  }

  /** The status of a request that is completed at once. */
  predicate AnsweredWith(code: Ioctl, env: Env, status: Status) {
    match code
    case SubmitInputReport =>
      (env.retrieveInput < 0 ==> status == env.retrieveInput)
      && (env.retrieveInput >= 0 && env.vhfReady ==> status == env.submit)
      && (env.retrieveInput >= 0 && !env.vhfReady ==> status == env.retrieveInput)
    case PendOutputReport => env.forward < 0 && status == env.forward
    case PendFeatureRequest => env.forward < 0 && status == env.forward
    case CompleteFeatureGet => status == 0
    case OtherCode => status == 0xC000_0010 - 0x1_0000_0000
  }

  /** One completion more, without data and with the status of the code. */
  predicate CompletedAtOnce(was: seq<Completion>, now: seq<Completion>, r: Request, code: Ioctl, env: Env) {
    && |now| == |was| + 1 && now == was + [Completion(r, now[|was|].status, [], Control)]
    && AnsweredWith(code, env, now[|was|].status)
  }

  /** A reader of output reports joins the output queue, a reader of feature requests the feature
      queue; everything else, and whatever could not be forwarded, is completed without data. */
  lemma DispatchByCode(s: State, env: Env)
    requires s.dispatching.Some?
    ensures var ((r, code), t) := (s.dispatching.value, Next(s, Dispatch(env)));
            && t.dispatching.None? && t.presented == s.presented && t.held == s.held
            && (code.PendOutputReport? && env.forward >= 0 ==>
                  Joins(s.output, t.output, r) && t.feature == s.feature && t.completed == s.completed)
            && (code.PendFeatureRequest? && env.forward >= 0 ==>
                  Joins(s.feature, t.feature, r) && t.output == s.output && t.completed == s.completed)
            && (env.forward < 0 || (!code.PendOutputReport? && !code.PendFeatureRequest?) ==>
                  && t.output == s.output && t.feature == s.feature
                  && CompletedAtOnce(s.completed, t.completed, r, code, env))
  {}

  // ---------- the callbacks ----------

  /** A host report handled without interruption: it arrives, and the callback that
      took a reader for it, if any, ends. */
  function Handled(s: State, w: Which, bytes: seq<Byte>): State {
    var t := DoReport(s, w, bytes);
    if QueueOf(s, w).waiting == [] then t else DoFinish(t, |s.held|)
  }

  /** A host report came to a queue: it takes the first waiting reader, or nobody gets it. */
  predicate TookFirst(before: Queue, after: Queue, was: seq<Completion>, now: seq<Completion>,
                      bytes: seq<Byte>, op: Byte)
  {
    && after.parked == before.parked && after.reports == before.reports + [bytes]
    && if before.waiting == [] then after.waiting == [] && now == was
       else
         && after.waiting == before.waiting[1..] && |now| == |was| + 1 && was <= now
         && now[|was|].request == before.waiting[0] && GotReport(now[|was|], bytes, op)
  }

  lemma HandledTakesFirst(s: State, bytes: seq<Byte>)
    ensures var t := Handled(s, Outputs, bytes);
            TookFirst(s.output, t.output, s.completed, t.completed, bytes, 0) && t.feature == s.feature
    ensures var t := Handled(s, Features, bytes);
            TookFirst(s.feature, t.feature, s.completed, t.completed, bytes, 1) && t.output == s.output
  {
    if s.output.waiting != [] {
      OutcomeIsAllOrNothing(s.output.waiting[0], Outputs, bytes);
    }
    if s.feature.waiting != [] {
      OutcomeIsAllOrNothing(s.feature.waiting[0], Features, bytes);
    }
  }

  class Driver {
    var presented: set<Request>
    var dispatching: Option<(Request, Ioctl)>
    var outputQueue: Queue
    var featureQueue: Queue
    var held: seq<Held>
    var completed: seq<Completion>

    ghost function Abs(): State
      reads this
    {
      State(presented, dispatching, outputQueue, featureQueue, held, completed)
    }

    constructor ()
      ensures Abs() == START
    {
      presented, dispatching := {}, None;
      outputQueue, featureQueue := EMPTY_QUEUE, EMPTY_QUEUE;
      held, completed := [], [];
    }

    method CompleteRequest(r: Request, status: Status, data: seq<Byte>, origin: Origin)
      modifies this`completed
      ensures completed == old(completed) + [Completion(r, status, data, origin)]
    {
      completed := completed + [Completion(r, status, data, origin)];
    }

    method Forward(r: Request, w: Which)
      modifies this`outputQueue, this`featureQueue
      ensures outputQueue == if w.Outputs? then Parked(old(outputQueue), r) else old(outputQueue)
      ensures featureQueue == if w.Features? then Parked(old(featureQueue), r) else old(featureQueue)
    {
      if w.Outputs? {
        outputQueue := Parked(outputQueue, r);
      } else {
        featureQueue := Parked(featureQueue, r);
      }
    }

    /** The default queue's callback: a request is presented and dispatched at once. */
    method IoDeviceControl(r: Request, code: Ioctl, env: Env)
      requires Enabled(Abs(), Present(r, code))
      modifies this
      ensures Abs() == Next(Next(old(Abs()), Present(r, code)), Dispatch(env))
      ensures code.PendOutputReport? && env.forward >= 0 ==>
                && Joins(old(outputQueue), outputQueue, r)
                && featureQueue == old(featureQueue) && completed == old(completed)
      ensures code.PendFeatureRequest? && env.forward >= 0 ==>
                && Joins(old(featureQueue), featureQueue, r)
                && outputQueue == old(outputQueue) && completed == old(completed)
      ensures env.forward < 0 || (!code.PendOutputReport? && !code.PendFeatureRequest?) ==>
                && outputQueue == old(outputQueue) && featureQueue == old(featureQueue)
                && CompletedAtOnce(old(completed), completed, r, code, env)
    {
      DispatchByCode(Next(Abs(), Present(r, code)), env);
      presented := presented + {r};
      var status := STATUS_INVALID_DEVICE_REQUEST;
      match code {
        case SubmitInputReport =>
          status := env.retrieveInput;
          if NtSuccess(status) && env.vhfReady {
            status := env.submit;
          }
        case PendOutputReport =>
          status := env.forward;
          if NtSuccess(status) {
            Forward(r, Outputs);
            return;
          }
        case PendFeatureRequest =>
          status := env.forward;
          if NtSuccess(status) {
            Forward(r, Features);
            return;
          }
        case CompleteFeatureGet =>
          status := STATUS_SUCCESS;
        case OtherCode =>
      }
      CompleteRequest(r, status, [], Control);
    }

    /** Writes [op][report bytes] at the start of the reader's buffer. */
    static method FillBuffer(p: array<Byte>, op: Byte, bytes: seq<Byte>)
      requires p.Length >= 1 + |bytes|
      modifies p
      ensures p[..] == [op] + bytes + old(p[1 + |bytes|..])
    {
      p[0] := op;
      for i := 0 to |bytes|
        invariant p[0] == op
        invariant forall k :: 1 <= k < 1 + i ==> p[k] == bytes[k - 1]
        invariant forall k :: 1 + |bytes| <= k < p.Length ==> p[k] == old(p[k])
      {
        p[1 + i] := bytes[i];
      }
      assert p[..1 + |bytes|] == [op] + bytes;
      assert p[..] == p[..1 + |bytes|] + p[1 + |bytes|..];
    }

    method StoreQueue(w: Which, q: Queue)
      modifies this`outputQueue, this`featureQueue
      ensures outputQueue == (if w.Outputs? then q else old(outputQueue))
      ensures featureQueue == (if w.Features? then q else old(featureQueue))
    {
      if w.Outputs? {
        outputQueue := q;
      } else {
        featureQueue := q;
      }
    }

    /** Hands a report to the next waiting reader. */
    method PendOrComplete(w: Which, bytes: seq<Byte>) returns (status: Status)
      modifies this
      ensures Abs() == Handled(old(Abs()), w, bytes)
      ensures var waiting := QueueOf(old(Abs()), w).waiting;
              status == if waiting == [] then STATUS_SUCCESS else Outcome(waiting[0], w, bytes).0
      ensures w.Outputs? ==> featureQueue == old(featureQueue)
                             && TookFirst(old(outputQueue), outputQueue, old(completed), completed, bytes, 0)
      ensures w.Features? ==> outputQueue == old(outputQueue)
                              && TookFirst(old(featureQueue), featureQueue, old(completed), completed, bytes, 1)
    {
      HandledTakesFirst(Abs(), bytes);
      var q := if w.Outputs? then outputQueue else featureQueue;
      if q.waiting == [] {
        StoreQueue(w, q.(reports := q.reports + [bytes]));
        return STATUS_SUCCESS;
      }
      var request := q.waiting[0];
      var origin := Reader(w, |q.pairs|);
      q := q.(waiting := q.waiting[1..], pairs := q.pairs + [Pair(request, |q.reports|)],
              reports := q.reports + [bytes]);
      StoreQueue(w, q);
      held := held + [Held(w, origin.pair, request, bytes, true)];
      status := request.retrieve;
      if !NtSuccess(status) {
        CompleteRequest(request, status, [], origin);
        return;
      }
      var needed := 1 + |bytes|;
      if request.outLen < needed {
        CompleteRequest(request, STATUS_BUFFER_TOO_SMALL, [], origin);
        return STATUS_BUFFER_TOO_SMALL;
      }
      var p := new Byte[request.outLen](_ => 0);
      FillBuffer(p, if w.Outputs? then 0 else 1, bytes);
      CompleteRequest(request, STATUS_SUCCESS, p[..needed], origin);
      status := STATUS_SUCCESS;
    }

    /** The host always sees success, whatever became of its report. */
    method WriteReport(bytes: seq<Byte>) returns (host: Status)
      modifies this
      ensures Abs() == Handled(old(Abs()), Outputs, bytes) && host == STATUS_SUCCESS
      ensures TookFirst(old(outputQueue), outputQueue, old(completed), completed, bytes, 0)
      ensures featureQueue == old(featureQueue)
    {
      var _ := PendOrComplete(Outputs, bytes);
      host := STATUS_SUCCESS;
    }

    method SetFeature(bytes: seq<Byte>) returns (host: Status)
      modifies this
      ensures Abs() == Handled(old(Abs()), Features, bytes) && host == STATUS_SUCCESS
      ensures TookFirst(old(featureQueue), featureQueue, old(completed), completed, bytes, 1)
      ensures outputQueue == old(outputQueue)
    {
      var _ := PendOrComplete(Features, bytes);
      host := STATUS_SUCCESS;
    }
  }
}
