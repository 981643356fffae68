/** One direction of the pipe as a step system: any number of writers under
    `write_mutex`, a bounded byte FIFO, and one reader that reassembles frames
    from arbitrary chunks. A direction may die after any byte. */
module Channels {
  import opened Core
  import opened Frames
  import opened PipeEnds

  /** Who holds the mutex: an application thread, or the thread that serves queries. */
  datatype Writer = App(index: nat) | Server

  datatype Channel = Channel(
    capacity: nat,
    owner: Option<Writer>,
    left: seq<Byte>,       // what the owner still has to write
    dead: bool,
    fifo: seq<Byte>,       // written but not yet read
    lost: seq<Byte>,       // written, and gone with the direction before they were read
    acc: seq<Byte>,        // read but not yet dispatched
    crashed: bool,
    // history
    acquired: seq<Msg>,    // messages in the order their writers got the mutex
    writers: seq<Writer>,  // who got the mutex, in that order
    results: seq<bool>,    // what write_frame returned, in that order
    sent: seq<Byte>,       // every byte ever placed in the FIFO
    delivered: seq<Msg>)   // messages the reader dispatched

  function Empty(capacity: nat): Channel {
    Channel(capacity, None, [], false, [], [], [], false, [], [], [], [], [])
  }

  // ---------- steps ----------

  predicate CanLock(c: Channel) { c.owner.None? }

  function Lock(c: Channel, w: Writer, m: Msg): Channel {
    c.(owner := Some(w), left := Encode(m), acquired := c.acquired + [m], writers := c.writers + [w])
  }

  /** Any non-empty part of the rest of the frame that fits. */
  predicate CanPut(c: Channel, n: nat) {
    c.owner.Some? && !c.dead && 1 <= n <= |c.left| && |c.fifo| + n <= c.capacity
  }

  function Put(c: Channel, n: nat): Channel
    requires CanPut(c, n)
  {
    c.(left := c.left[n..], fifo := c.fifo + c.left[..n], sent := c.sent + c.left[..n])
  }

  /** The frame is written, or writing failed; callers ignore the difference. */
  predicate CanUnlock(c: Channel) { c.owner.Some? && (c.left == [] || c.dead) }

  function Unlock(c: Channel): Channel {
    c.(owner := None, left := [], results := c.results + [c.left == []])
  }

  /** The direction dies; the first `keep` bytes not yet read survive for the reader. */
  predicate CanCut(c: Channel, keep: nat) { !c.dead && keep <= |c.fifo| }

  function Cut(c: Channel, keep: nat): Channel
    requires CanCut(c, keep)
  {
    c.(dead := true, fifo := c.fifo[..keep], lost := c.fifo[keep..])
  }

  /** A ReadFile of the running read_all returns n bytes. */
  predicate CanTake(c: Channel, n: nat) {
    !c.crashed && 1 <= n <= Missing(c.acc) && n <= |c.fifo|
  }

  function Take(c: Channel, n: nat): Channel
    requires CanTake(c, n)
  {
    c.(acc := c.acc + c.fifo[..n], fifo := c.fifo[n..])
  }

  predicate CanDispatch(c: Channel) { !c.crashed && Complete(c.acc) }

  function ActionOf(c: Channel): Action
    requires CanDispatch(c)
  {
    Interpret(FrameIn(c.acc))
  }

  function Dispatch(c: Channel): Channel
    requires CanDispatch(c)
  {
    match ActionOf(c)
    case Handled(m) => c.(acc := [], delivered := c.delivered + [m])
    case Ignored => c.(acc := [])
    case Crash => c.(crashed := true)
  }

  // ---------- the invariant ----------

  ghost predicate Inv(c: Channel) {
    && !c.crashed
    && |c.fifo| <= c.capacity
    && (c.owner.None? ==> c.left == [])
    && (c.owner.Some? ==> c.acquired != [] && |c.left| <= |Encode(c.acquired[|c.acquired| - 1])|)
    && (!c.dead ==> c.lost == [] && c.sent + c.left == EncodeAll(c.acquired))
    && c.sent <= EncodeAll(c.acquired)
    && c.sent == EncodeAll(c.delivered) + c.acc + c.fifo + c.lost
    && c.delivered <= c.acquired
    && (c.acc != [] ==> |c.delivered| < |c.acquired| && c.acc <= Encode(c.acquired[|c.delivered|]))
  }

  lemma InvInit(capacity: nat)
    ensures Inv(Empty(capacity))
  {}

  lemma InvLock(c: Channel, w: Writer, m: Msg)
    requires Inv(c) && CanLock(c)
    ensures Inv(Lock(c, w, m))
  {
    EncodeAllSnoc(c.acquired, m);
    assert c.sent + [] == c.sent;
  }

  lemma InvPut(c: Channel, n: nat)
    requires Inv(c) && CanPut(c, n)
    ensures Inv(Put(c, n))
  {
    var part, read := c.left[..n], EncodeAll(c.delivered) + c.acc;
    assert c.left == part + c.left[n..];
    AppendNothing(read + c.fifo);
    AppendNothing(read + (c.fifo + part));
    AppendAssociates(c.sent, part, c.left[n..]);
    AppendAssociates(read, c.fifo, part);
  }

  lemma InvUnlock(c: Channel)
    requires Inv(c) && CanUnlock(c)
    ensures Inv(Unlock(c))
  {}

  lemma InvCut(c: Channel, keep: nat)
    requires Inv(c) && CanCut(c, keep)
    ensures Inv(Cut(c, keep))
  {
    var read := EncodeAll(c.delivered) + c.acc;
    assert c.fifo == c.fifo[..keep] + c.fifo[keep..];
    AppendNothing(read + c.fifo);
    AppendAssociates(read, c.fifo[..keep], c.fifo[keep..]);
  }

  /** What the reader has yet to dispatch is a prefix of the messages yet to be delivered. */
  lemma Undelivered(c: Channel)
    requires Inv(c)
    ensures c.acc + c.fifo <= EncodeAll(c.acquired[|c.delivered|..])
    ensures !c.dead ==> c.acc + c.fifo + c.left == EncodeAll(c.acquired[|c.delivered|..])
  {
    var rest, e := c.acquired[|c.delivered|..], EncodeAll(c.delivered);
    var ahead := c.acc + c.fifo;
    assert c.acquired == c.delivered + rest;
    EncodeAllConcat(c.delivered, rest);
    AppendAssociates(e, c.acc, c.fifo);
    AppendAssociates(e, ahead, c.lost);
    CancelPrefix(e, ahead + c.lost, EncodeAll(rest));
    assert ahead <= ahead + c.lost;
    if !c.dead {
      AppendNothing(e + ahead);
      AppendAssociates(e, ahead, c.left);
      CancelPrefix(e, ahead + c.left, EncodeAll(rest));
    }
  }

  /** Read bytes never reach beyond the next message. */
  lemma TakeStaysWithin(c: Channel, n: nat)
    requires Inv(c) && CanTake(c, n)
    ensures |c.delivered| < |c.acquired| && c.acc + c.fifo[..n] <= Encode(c.acquired[|c.delivered|])
  {
    var rest := c.acquired[|c.delivered|..];
    Undelivered(c);
    assert rest != [];
    EncodeAllCons(rest);
    MissingWithin(c.acc, rest[0]);
    assert c.acc + c.fifo[..n] <= c.acc + c.fifo;
    PrefixOfFirst(c.acc + c.fifo[..n], Encode(rest[0]), EncodeAll(rest[1..]));
  }

  lemma InvTake(c: Channel, n: nat)
    requires Inv(c) && CanTake(c, n)
    ensures Inv(Take(c, n))
  {
    TakeStaysWithin(c, n);
    var e, x, y := EncodeAll(c.delivered), c.fifo[..n], c.fifo[n..];
    assert c.fifo == x + y;
    AppendAssociates(e + c.acc, x, y);
    AppendAssociates(e, c.acc, x);
  }

  /** Dispatch always delivers the next message in mutex order, exactly as it was sent. */
  lemma DispatchDelivers(c: Channel)
    requires Inv(c) && CanDispatch(c)
    ensures |c.delivered| < |c.acquired|
    ensures ActionOf(c) == Handled(c.acquired[|c.delivered|])
    ensures Inv(Dispatch(c)) && Dispatch(c).delivered == c.delivered + [c.acquired[|c.delivered|]]
  {
    var next := c.acquired[|c.delivered|];
    MissingWithin(c.acc, next);
    EncodedIsComplete(next);
    EncodeAllSnoc(c.delivered, next);
    assert EncodeAll(c.delivered) + c.acc + [] == EncodeAll(c.delivered) + c.acc;
  }

  // ---------- what the invariant means ----------

  /** Stream integrity: the bytes ever placed are the frames of all finished
      writers in mutex order, followed by a prefix of the current holder's frame;
      on a direction that has died, they are a prefix of the writers' frames. */
  lemma StreamIntegrity(c: Channel)
    requires Inv(c)
    ensures c.sent <= EncodeAll(c.acquired)
    ensures !c.dead && c.owner.None? ==> c.sent == EncodeAll(c.acquired)
    ensures !c.dead && c.owner.Some? ==>
              var done, current := c.acquired[..|c.acquired| - 1], Encode(c.acquired[|c.acquired| - 1]);
              && |c.left| <= |current|
              && c.sent == EncodeAll(done) + current[..|current| - |c.left|]
              && c.left == current[|current| - |c.left|..]
  {
    if !c.dead && c.owner.Some? {
      var done, current := c.acquired[..|c.acquired| - 1], Encode(c.acquired[|c.acquired| - 1]);
      SplitLast(EncodeAll(done), current, c.sent, c.left);
    } else if !c.dead {
      assert c.sent + [] == c.sent;
    }
  }

  lemma SplitLast(done: seq<Byte>, current: seq<Byte>, sent: seq<Byte>, left: seq<Byte>)
    requires sent + left == done + current && |left| <= |current|
    ensures sent == done + current[..|current| - |left|] && left == current[|current| - |left|..]
  {
    var k := |current| - |left|;
    assert current == current[..k] + current[k..];
    AppendAssociates(done, current[..k], current[k..]);
    ConcatEqual(sent, left, done + current[..k], current[k..]);
  }

  /** With nothing left to write, read or dispatch, everything has been delivered. */
  lemma QuietMeansDelivered(c: Channel)
    requires Inv(c) && !c.dead && c.owner.None? && c.fifo == [] && !CanDispatch(c)
    ensures c.delivered == c.acquired && c.acc == []
  {
    var rest := c.acquired[|c.delivered|..];
    Undelivered(c);
    assert c.acc + [] + [] == c.acc;
    if rest != [] {
      EncodeAllCons(rest);
      assert c.acc == Encode(rest[0]) + EncodeAll(rest[1..]);
      assert c.acc != [];
      MissingWithin(c.acc, rest[0]);
      assert false;
    } else {
      assert c.acquired == c.delivered;
    }
  }

  lemma {:induction false} DeliverPrefix(ms: seq<Msg>, partial: seq<Byte>)
    requires TakeFrame(partial).None?
    ensures Deliver(EncodeAll(ms) + partial) == Outcome(ms, false)
  {
    if ms == [] {
      assert EncodeAll(ms) + partial == partial;
    } else {
      var rest := EncodeAll(ms[1..]) + partial;
      EncodeAllCons(ms);
      AppendAssociates(Encode(ms[0]), EncodeAll(ms[1..]), partial);
      TakeEncoded(ms[0], rest);
      EncodedIsComplete(ms[0]);
      DeliverPrefix(ms[1..], partial);
    }
  }

  /** How many bytes reach the reader, read already or still to be read. */
  function Reaching(c: Channel): int { |c.sent| - |c.lost| }

  lemma SentSplits(c: Channel)
    requires Inv(c)
    ensures 0 <= |c.fifo| <= Reaching(c) <= |c.sent|
    ensures c.sent[..Reaching(c) - |c.fifo|] == EncodeAll(c.delivered) + c.acc
    ensures Reaching(c) <= |EncodeAll(c.acquired)| && c.sent[..Reaching(c)] == EncodeAll(c.acquired)[..Reaching(c)]
  {}

  /** The reader of the step system is the reader loop: between two dispatches it
      has delivered exactly what the loop delivers from the bytes read so far. */
  lemma StepsAreReaderLoop(c: Channel)
    requires Inv(c) && !CanDispatch(c)
    ensures 0 <= Reaching(c) - |c.fifo| <= |c.sent|
    ensures Deliver(c.sent[..Reaching(c) - |c.fifo|]) == Outcome(c.delivered, false)
  {
    SentSplits(c);
    if c.acc != [] {
      MissingWithin(c.acc, c.acquired[|c.delivered|]);
    }
    DeliverPrefix(c.delivered, c.acc);
  }

  /** However a direction came to rest, dead or not: with nothing left to read or dispatch,
      exactly the messages have been delivered whose every byte was placed and survived. */
  lemma RestDelivers(c: Channel)
    requires Inv(c) && c.fifo == [] && !CanDispatch(c)
    ensures 0 <= Reaching(c) && c.delivered == c.acquired[..Whole(c.acquired, Reaching(c))]
  {
    SentSplits(c);
    StepsAreReaderLoop(c);
    CutAnywhere(c.acquired, Reaching(c));
  }

  // ---------- what write_frame returned ----------

  /** Every byte of the frame of the k-th message was placed. */
  ghost predicate PlacedWhole(c: Channel, k: nat)
    requires k < |c.acquired|
  {
    |EncodeAll(c.acquired[..k + 1])| <= |c.sent|
  }

  /** The frame of the k-th message was placed, but not all of it survived for the reader. */
  ghost predicate LostUnread(c: Channel, k: nat)
    requires k < |c.acquired|
  {
    PlacedWhole(c, k) && Reaching(c) < |EncodeAll(c.acquired[..k + 1])|
  }

  /** A result is true exactly when the whole frame was placed, and there is one for every
      message but the current holder's. */
  ghost predicate Recorded(c: Channel) {
    && |c.writers| == |c.acquired| == |c.results| + (if c.owner.Some? then 1 else 0)
    && (forall k :: 0 <= k < |c.results| ==> (c.results[k] <==> PlacedWhole(c, k)))
    && (c.owner.Some? ==> (c.left == [] <==> PlacedWhole(c, |c.acquired| - 1)))
  }

  lemma RecordedInit(capacity: nat)
    ensures Recorded(Empty(capacity))
  {}

  lemma RecordedLock(c: Channel, w: Writer, m: Msg)
    requires Inv(c) && Recorded(c) && CanLock(c)
    ensures Recorded(Lock(c, w, m))
  {
    var d, n := Lock(c, w, m), |c.acquired|;
    assert d.acquired[..n + 1] == d.acquired;
    EncodeAllSnoc(c.acquired, m);
    forall k | 0 <= k < |d.results| ensures d.results[k] <==> PlacedWhole(d, k) {
      assert d.acquired[..k + 1] == c.acquired[..k + 1];
      assert c.results[k] <==> PlacedWhole(c, k);
    }
  }

  /** While a direction lives, all frames but the current holder's are whole. */
  lemma AliveIsPlaced(c: Channel, k: nat)
    requires Inv(c) && !c.dead && c.owner.Some? && k + 1 < |c.acquired|
    ensures PlacedWhole(c, k)
  {
    assert |c.sent| + |c.left| == |EncodeAll(c.acquired)|;
    AllButLast(c.acquired, |c.sent|, k);
  }

  /** The holder has nothing left exactly when its frame is whole. */
  lemma LastIsPlaced(c: Channel)
    requires Inv(c) && !c.dead && c.owner.Some?
    ensures c.left == [] <==> PlacedWhole(c, |c.acquired| - 1)
  {
    assert |c.sent| + |c.left| == |EncodeAll(c.acquired)|;
    assert c.acquired[..|c.acquired|] == c.acquired;
  }

  lemma RecordedPut(c: Channel, n: nat)
    requires Inv(c) && Recorded(c) && CanPut(c, n)
    ensures Recorded(Put(c, n))
  {
    var d := Put(c, n);
    InvPut(c, n);
    LastIsPlaced(d);
    forall k | 0 <= k < |d.results| ensures d.results[k] <==> PlacedWhole(d, k) {
      assert c.results[k] <==> PlacedWhole(c, k);
      AliveIsPlaced(c, k);
      AliveIsPlaced(d, k);
    }
  }

  lemma RecordedUnlock(c: Channel)
    requires Inv(c) && Recorded(c) && CanUnlock(c)
    ensures Recorded(Unlock(c))
  {
    var d := Unlock(c);
    forall k | 0 <= k < |d.results| ensures d.results[k] <==> PlacedWhole(d, k) {
      if k < |c.results| {
        assert c.results[k] <==> PlacedWhole(c, k);
      }
    }
  }

  /** Reading, dispatching and dying change no record. */
  lemma RecordedReading(c: Channel, d: Channel)
    requires Recorded(c)
    requires d.owner == c.owner && d.left == c.left && d.sent == c.sent
    requires d.acquired == c.acquired && d.writers == c.writers && d.results == c.results
    ensures Recorded(d)
  {
    forall k | 0 <= k < |d.results| ensures d.results[k] <==> PlacedWhole(d, k) {
      assert c.results[k] <==> PlacedWhole(c, k);
    }
  }

  lemma RestDeliversReaching(c: Channel, k: nat)
    requires Inv(c) && c.fifo == [] && !CanDispatch(c) && k < |c.acquired|
    ensures |EncodeAll(c.acquired[..k + 1])| <= Reaching(c) <==> k < |c.delivered|
  {
    RestDelivers(c);
    SentSplits(c);
    WholeBySize(c.acquired, Reaching(c), k);
  }

  /** At rest exactly the messages have been delivered whose write_frame returned true and
      whose bytes were not lost unread. */
  lemma RestDeliversWritten(c: Channel, k: nat)
    requires Inv(c) && Recorded(c) && c.owner.None? && c.fifo == [] && !CanDispatch(c)
    requires k < |c.acquired|
    ensures c.results[k] && !LostUnread(c, k) <==> k < |c.delivered|
  {
    assert c.results[k] <==> PlacedWhole(c, k);
    RestDeliversReaching(c, k);
  }
}
