/** What each control code and each host report leads to, over whole runs and in terms of the
    events alone: Vhf.cpp, lines 75-182. */
module ControlCodes {
  import opened Core
  import opened ControlDevice

  // ---------- histories of events ----------

  /** The request that the default queue presented last, and its code. */
  function LastPresented(events: seq<Event>): Option<(Request, Ioctl)> {
    if events == [] then None
    else
      var e := events[|events| - 1];
      if e.Present? then Some((e.request, e.code)) else LastPresented(events[..|events| - 1])
  }

  /** The requests with a code that were forwarded with success, in order. */
  function Forwarded(events: seq<Event>, code: Ioctl): seq<Request> {
    if events == [] then []
    else
      var init, e := events[..|events| - 1], events[|events| - 1];
      var last := LastPresented(init);
      Forwarded(init, code)
      + if e.Dispatch? && e.env.forward >= 0 && last.Some? && last.value.1 == code then [last.value.0] else []
  }

  /** The reports that the host sent to one queue, in order. */
  function SentTo(events: seq<Event>, w: Which): seq<seq<Byte>> {
    if events == [] then []
    else
      var e := events[|events| - 1];
      SentTo(events[..|events| - 1], w) + if e.Report? && e.which == w then [e.bytes] else []
  }

  lemma {:induction false} DispatchingIsLast(events: seq<Event>)
    requires After(events).Some?
    ensures After(events).value.dispatching.Some? ==> After(events).value.dispatching == LastPresented(events)
  {
    if events != [] {
      DispatchingIsLast(events[..|events| - 1]);
    }
  }

  /** In every run the output queue has been joined by exactly the requests presented with the
      code for output reports and forwarded with success, in that order, and the feature queue by
      those presented with the code for feature requests. */
  lemma {:induction false} ParkedByCode(events: seq<Event>)
    requires After(events).Some?
    ensures After(events).value.output.parked == Forwarded(events, PendOutputReport)
    ensures After(events).value.feature.parked == Forwarded(events, PendFeatureRequest)
  {
    if events != [] {
      var init, e := events[..|events| - 1], events[|events| - 1];
      ParkedByCode(init);
      if e.Dispatch? {
        DispatchingIsLast(init);
        DispatchByCode(After(init).value, e.env);
      }
    }
  }

  /** In every run each queue has got exactly the host reports sent to it, in order. */
  lemma {:induction false} ReportsArrive(events: seq<Event>)
    requires After(events).Some?
    ensures After(events).value.output.reports == SentTo(events, Outputs)
    ensures After(events).value.feature.reports == SentTo(events, Features)
  {
    if events != [] {
      ReportsArrive(events[..|events| - 1]);
    }
  }

  // ---------- completions in terms of events ----------

  predicate PresentedAs(events: seq<Event>, i: nat, r: Request, code: Ioctl)
    requires i < |events|
  {
    events[i] == Present(r, code)
  }

  lemma {:induction false} LastWasPresented(events: seq<Event>)
    requires LastPresented(events).Some?
    ensures var (r, code) := LastPresented(events).value;
            exists i :: 0 <= i < |events| && PresentedAs(events, i, r, code)
  {
    var n := |events| - 1;
    if events[n].Present? {
      assert PresentedAs(events, n, events[n].request, events[n].code);
    } else {
      LastWasPresented(events[..n]);
      var (r, code) := LastPresented(events).value;
      var i :| 0 <= i < n && PresentedAs(events[..n], i, r, code);
      assert PresentedAs(events, i, r, code);
    }
  }

  lemma {:induction false} ForwardedWasPresented(events: seq<Event>, code: Ioctl, k: nat)
    requires k < |Forwarded(events, code)|
    ensures exists i :: 0 <= i < |events| && PresentedAs(events, i, Forwarded(events, code)[k], code)
  {
    var n := |events| - 1;
    var r := Forwarded(events, code)[k];
    if k < |Forwarded(events[..n], code)| {
      ForwardedWasPresented(events[..n], code, k);
      var i :| 0 <= i < n && PresentedAs(events[..n], i, r, code);
      assert PresentedAs(events, i, r, code);
    } else {
      LastWasPresented(events[..n]);
      var i :| 0 <= i < n && PresentedAs(events[..n], i, r, code);
      assert PresentedAs(events, i, r, code);
    }
  }

  /** In every run a reader that was completed for an output report had asked for output reports,
      one completed for a feature set for feature requests. The report is one the host sent there;
      it comes after op byte 0 or 1 and with success, if and only if the reader's buffer can be
      retrieved and has room. Otherwise the reader gets no data and the reason. */
  lemma {:induction false} ReadersGetWhatTheyAskedFor(events: seq<Event>, i: nat)
    requires After(events).Some? && i < |After(events).value.completed|
    requires After(events).value.completed[i].origin.Reader?
    ensures var c := After(events).value.completed[i];
            var w, r := c.origin.which, c.request;
            var code := if w.Outputs? then PendOutputReport else PendFeatureRequest;
            && (exists j :: 0 <= j < |events| && PresentedAs(events, j, r, code))
            && exists k :: && 0 <= k < |SentTo(events, w)|
                           && GotReport(c, SentTo(events, w)[k], if w.Outputs? then 0 else 1)
  {
    ReaderSeesItsReport(events, i);
    ParkedByCode(events);
    ReportsArrive(events);
    var c := After(events).value.completed[i];
    var q := QueueOf(After(events).value, c.origin.which);
    var code := if c.origin.which.Outputs? then PendOutputReport else PendFeatureRequest;
    assert q.parked == Forwarded(events, code);
    ForwardedWasPresented(events, code, c.origin.pair);
    assert GotReport(c, SentTo(events, c.origin.which)[q.pairs[c.origin.pair].report],
                     if c.origin.which.Outputs? then 0 else 1);
  }

  /** The dispatch at `k` took the request presented last, and its code's answer is the status. */
  predicate AnsweredAt(events: seq<Event>, k: nat, c: Completion)
    requires k < |events| && events[k].Dispatch?
  {
    var last := LastPresented(events[..k]);
    last.Some? && last.value.0 == c.request && AnsweredWith(last.value.1, events[k].env, c.status)
  }

  /** In every run a request that was completed at once had been presented, and got the status of
      its code; it got no data. */
  lemma {:induction false} AnsweredByCode(events: seq<Event>, i: nat)
    requires After(events).Some? && i < |After(events).value.completed|
    requires After(events).value.completed[i].origin.Control?
    ensures var c := After(events).value.completed[i];
            && c.data == []
            && exists k :: && 0 <= k < |events| && events[k].Dispatch?
                           && AnsweredAt(events, k, c)
  {
    var n := |events| - 1;
    var init, e := events[..n], events[n];
    var s := After(init).value;
    var c := After(events).value.completed[i];
    HistoryGrows(s, e, Outputs);
    if i < |s.completed| {
      AnsweredByCode(init, i);
      var k :| 0 <= k < n && init[k].Dispatch? && AnsweredAt(init, k, c);
      assert events[..k] == init[..k];
      assert AnsweredAt(events, k, c);
    } else {
      DispatchingIsLast(init);
      DispatchByCode(s, e.env);
      assert AnsweredAt(events, n, c);
    }
  }
}
