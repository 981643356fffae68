/** Waiting for a device to be plugged in: device_enumerator.cpp, lines 99-120. */
module DeviceWatch {
  import opened Core

  datatype Device = Device(path: string, vendorId: U16, productId: U16, versionNumber: U16,
                           product: string, manufacturer: string)

  function Paths(devices: seq<Device>): set<string> {
    set d | d in devices :: d.path
  }

  /** Everything the first `polls` polls listed, in order; snapshot 0 is the baseline. */
  function Stream(snapshots: nat -> seq<Device>, polls: nat): seq<Device> {
    if polls == 0 then [] else Stream(snapshots, polls - 1) + snapshots(polls)
  }

  /** The device at `i` has a path that is not known and was not listed earlier. */
  predicate Fresh(known: set<string>, stream: seq<Device>, i: nat)
    requires i < |stream|
  {
    stream[i].path !in known && forall k :: 0 <= k < i ==> stream[k].path != stream[i].path
  }

  /** Where new paths appear for the first time. */
  function FirstPlaces(known: set<string>, stream: seq<Device>): (places: seq<nat>)
    ensures forall i :: 0 <= i < |places| ==> places[i] < |stream|
  {
    if stream == [] then [] else
      var n := |stream| - 1;
      FirstPlaces(known, stream[..n]) + if Fresh(known, stream, n) then [n] else []
  }

  lemma {:induction false} FirstPlacesAreAllFreshInOrder(known: set<string>, stream: seq<Device>)
    ensures
      var places := FirstPlaces(known, stream);
      && (forall a, b :: 0 <= a < b < |places| ==> places[a] < places[b])
      && (forall i :: 0 <= i < |stream| ==> (i in places <==> Fresh(known, stream, i)))
  {
    if stream == [] {
    } else {
      var n := |stream| - 1;
      FirstPlacesAreAllFreshInOrder(known, stream[..n]);
      forall i | 0 <= i < n
        ensures Fresh(known, stream, i) <==> Fresh(known, stream[..n], i)
      {
        assert stream[..n][i] == stream[i];
        assert forall k :: 0 <= k < i ==> stream[..n][k] == stream[k];
      }
      var front, places := FirstPlaces(known, stream[..n]), FirstPlaces(known, stream);
      forall i | 0 <= i < |stream| ensures i in places <==> Fresh(known, stream, i) {
        assert i in places <==> i in front || (i == n && Fresh(known, stream, n));
      }
    }
  }

  function Offers(known: set<string>, stream: seq<Device>): seq<Device> {
    var places := FirstPlaces(known, stream);
    seq(|places|, i requires 0 <= i < |places| => stream[places[i]])
  }

  /** No known path is offered, no path twice, and no listed path is left out. */
  lemma OffersAreOnceOnly(known: set<string>, stream: seq<Device>)
    ensures
      var offers := Offers(known, stream);
      && (forall d :: d in offers ==> d.path !in known)
      && (forall a, b :: 0 <= a < b < |offers| ==> offers[a].path != offers[b].path)
      && Paths(stream) <= known + Paths(offers)
  {
    FirstPlacesAreAllFreshInOrder(known, stream);
    var places := FirstPlaces(known, stream);
    var offers := Offers(known, stream);
    forall a, b | 0 <= a < b < |offers| ensures offers[a].path != offers[b].path {
      assert places[a] < places[b];
      assert places[b] in places && Fresh(known, stream, places[b]);
    }
    forall d | d in offers ensures d.path !in known {
      var a :| 0 <= a < |offers| && offers[a] == d;
      assert places[a] in places && Fresh(known, stream, places[a]);
    }
    forall path | path in Paths(stream) ensures path in known + Paths(offers) {
      if path !in known {
        var i := FirstWith(stream, path);
        assert Fresh(known, stream, i);
        var a :| 0 <= a < |places| && places[a] == i;
        assert offers[a] in offers;
      }
    }
  }

  function FirstWith(stream: seq<Device>, path: string): (i: nat)
    requires path in Paths(stream)
    ensures i < |stream| && stream[i].path == path
    ensures forall k :: 0 <= k < i ==> stream[k].path != path
  {
    if stream[0].path == path then 0 else
      assert forall d :: d in stream && d.path == path ==> d in stream[1..];
      1 + FirstWith(stream[1..], path)
  }

  lemma OffersOneMore(known: set<string>, stream: seq<Device>, d: Device)
    ensures Offers(known, stream + [d]) ==
            Offers(known, stream) +
            if d.path in known || d.path in Paths(stream) then [] else [d]
  {
    var more := stream + [d];
    assert more[..|stream|] == stream;
    assert Fresh(known, more, |stream|) <==> d.path !in known && d.path !in Paths(stream) by {
      if d.path in Paths(stream) {
        var i := FirstWith(stream, d.path);
        assert more[i] == stream[i];
      }
    }
  }

  lemma {:induction false} OffersGrow(known: set<string>, stream: seq<Device>, more: seq<Device>)
    ensures Offers(known, stream) <= Offers(known, stream + more)
  {
    if more == [] {
      assert stream + more == stream;
    } else {
      var n := |more| - 1;
      OffersGrow(known, stream, more[..n]);
      OffersOneMore(known, stream + more[..n], more[n]);
      assert stream + more[..n] + [more[n]] == stream + more;
    }
  }

  /** The callback turned down every offer made so far. */
  predicate AllDeclined(accepts: (seq<Device>, Device) -> bool, offers: seq<Device>) {
    forall i :: 0 <= i < |offers| ==> !accepts(offers[..i], offers[i])
  }

  const POLL_MILLISECONDS := 500

  predicate SleepsBetween(now: nat -> int, k: nat) {
    now(k) + POLL_MILLISECONDS <= now(k + 1)
  }

  /** Reading 0 sets the deadline, reading k precedes poll k, and every poll sleeps first. */
  ghost predicate Advances(now: nat -> int) {
    now(0) <= now(1) && forall k :: 0 < k ==> SleepsBetween(now, k)
  }

  /** All `polls` polls began before the deadline, and so many sleeps have gone by. */
  ghost predicate InTime(now: nat -> int, timeoutSeconds: int, polls: nat) {
    && (forall k :: 1 <= k <= polls ==> now(k) < now(0) + 1000 * timeoutSeconds)
    && now(0) + POLL_MILLISECONDS * polls <= now(polls + 1)
    && (0 < polls ==> POLL_MILLISECONDS * (polls - 1) < 1000 * timeoutSeconds)
  }

  lemma OnePollMore(now: nat -> int, timeoutSeconds: int, polls: nat)
    requires Advances(now) && InTime(now, timeoutSeconds, polls)
    requires now(polls + 1) < now(0) + 1000 * timeoutSeconds
    ensures InTime(now, timeoutSeconds, polls + 1)
    ensures now(polls + 1) < now(polls + 2)
  {
    assert SleepsBetween(now, polls + 1);
  }

  lemma PathsOneMore(stream: seq<Device>, d: Device)
    ensures Paths(stream + [d]) == Paths(stream) + {d.path}
  {
    assert forall x :: x in stream + [d] <==> x in stream || x == d;
  }

  lemma PathsTaken(devices: seq<Device>, i: nat)
    requires i < |devices|
    ensures Paths(devices[..i + 1]) == Paths(devices[..i]) + {devices[i].path}
  {
    assert devices[..i + 1] == devices[..i] + [devices[i]];
    PathsOneMore(devices[..i], devices[i]);
  }

  /** Where the watch stands once it has gone through `done` without an accepted offer. */
  ghost predicate Watched(known: set<string>, done: seq<Device>,
                          accepts: (seq<Device>, Device) -> bool,
                          offers: seq<Device>, baseline: set<string>)
  {
    && baseline == known + Paths(done)
    && offers == Offers(known, done)
    && AllDeclined(accepts, offers)
  }

  lemma KnownIsPassedOver(known: set<string>, done: seq<Device>, d: Device,
                          accepts: (seq<Device>, Device) -> bool,
                          offers: seq<Device>, baseline: set<string>)
    requires Watched(known, done, accepts, offers, baseline) && d.path in baseline
    ensures Watched(known, done + [d], accepts, offers, baseline)
  {
    OffersOneMore(known, done, d);
    PathsOneMore(done, d);
  }

  lemma DeclinedIsRemembered(known: set<string>, done: seq<Device>, d: Device,
                             accepts: (seq<Device>, Device) -> bool,
                             offers: seq<Device>, baseline: set<string>)
    requires Watched(known, done, accepts, offers, baseline) && d.path !in baseline
    requires !accepts(offers, d)
    ensures Watched(known, done + [d], accepts, offers + [d], baseline + {d.path})
  {
    OffersOneMore(known, done, d);
    PathsOneMore(done, d);
    var more := offers + [d];
    forall i | 0 <= i < |more| ensures !accepts(more[..i], more[i]) {
      assert more[..i] == offers[..i];
    }
  }

  /** The last offer, and only the last, was accepted. */
  ghost predicate LastAccepted(accepts: (seq<Device>, Device) -> bool, offers: seq<Device>) {
    && offers != []
    && AllDeclined(accepts, offers[..|offers| - 1])
    && accepts(offers[..|offers| - 1], offers[|offers| - 1])
  }

  lemma AcceptedEndsTheWatch(known: set<string>, done: seq<Device>, d: Device, rest: seq<Device>,
                             accepts: (seq<Device>, Device) -> bool,
                             offers: seq<Device>, baseline: set<string>)
    requires Watched(known, done, accepts, offers, baseline) && d.path !in baseline
    requires accepts(offers, d)
    ensures LastAccepted(accepts, offers + [d])
    ensures offers + [d] <= Offers(known, done + [d] + rest)
  {
    OffersOneMore(known, done, d);
    OffersGrow(known, done + [d], rest);
    assert (offers + [d])[..|offers|] == offers;
  }

  /** The inner loop of the watch: offers what one poll lists and the baseline does not hold. */
  method OfferNew(current: seq<Device>, accepts: (seq<Device>, Device) -> bool,
                  offered: seq<Device>, seen: set<string>,
                  ghost known: set<string>, ghost before: seq<Device>)
    returns (found: bool, offers: seq<Device>, baseline: set<string>)
    requires Watched(known, before, accepts, offered, seen)
    ensures found ==> LastAccepted(accepts, offers) && offers <= Offers(known, before + current)
    ensures !found ==> Watched(known, before + current, accepts, offers, baseline)
  {
    offers, baseline := offered, seen;
    AppendEnds(before, current);
    for i := 0 to |current|
      invariant Watched(known, before + current[..i], accepts, offers, baseline)
    {
      var device := current[i];
      ghost var done := before + current[..i];
      AppendNext(before, current, i);
      if device.path !in baseline {
        if accepts(offers, device) {
          AcceptedEndsTheWatch(known, done, device, current[i + 1..], accepts, offers, baseline);
          return true, offers + [device], baseline;
        }
        DeclinedIsRemembered(known, done, device, accepts, offers, baseline);
        offers := offers + [device];
        baseline := baseline + {device.path};
      } else {
        KnownIsPassedOver(known, done, device, accepts, offers, baseline);
      }
    }
    found := false;
  }

  /**
   * `accepts` may depend on the offers made before. `offers` lists the calls of the callback and
   * `polls` counts the polls begun.
   */
  method WatchForNewDevice(snapshots: nat -> seq<Device>, now: nat -> int, timeoutSeconds: int,
                           accepts: (seq<Device>, Device) -> bool)
    returns (found: bool, offers: seq<Device>, polls: nat)
    requires Advances(now)
    ensures offers <= Offers(Paths(snapshots(0)), Stream(snapshots, polls))
    ensures found ==> LastAccepted(accepts, offers)
    ensures !found ==>
      && offers == Offers(Paths(snapshots(0)), Stream(snapshots, polls))
      && AllDeclined(accepts, offers)
      && now(polls + 1) >= now(0) + 1000 * timeoutSeconds
    ensures InTime(now, timeoutSeconds, polls)
    ensures polls == 0 || polls <= 2 * timeoutSeconds
  {
    var baseline: set<string> := {};
    var first := snapshots(0);
    for i := 0 to |first|
      invariant baseline == Paths(first[..i])
    {
      PathsTaken(first, i);
      baseline := baseline + {first[i].path};
    }
    assert first[..|first|] == first;
    ghost var known := baseline;
    var deadline := now(0) + 1000 * timeoutSeconds;
    offers, polls := [], 0;
    while now(polls + 1) < deadline
      invariant Watched(known, Stream(snapshots, polls), accepts, offers, baseline)
      invariant InTime(now, timeoutSeconds, polls)
      decreases deadline - now(polls + 1)
    {
      ghost var before := Stream(snapshots, polls);
      OnePollMore(now, timeoutSeconds, polls);
      polls := polls + 1;
      found, offers, baseline := OfferNew(snapshots(polls), accepts, offers, baseline, known, before);
      if found {
        return;
      }
    }
    found := false;
  }
}
