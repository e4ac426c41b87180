/** How the macOS sender's update session ends, told by the callback that ended it, and when all frames are sent. */
module OtaMacEnding {
  import opened Optional
  import opened Bytes
  import opened OtaProtocol
  import opened OtaMac

  // ---- which callback ends the session, and how ----

  /** The device reports this transfer, or one it does not name, as done. */
  predicate Reported(t: Transfer, e: Event) {
    e.StateChanged? && e.event.Finished? && (e.event.transferId.None? || e.event.transferId.value == t.id)
  }

  /** The device reports an error, a write fails, the user cancels, or the connection goes. */
  predicate Broken(t: Transfer, e: Event) {
    || (e.StateChanged? && e.event.Failed? && (e.event.transferId.None? || e.event.transferId.value == t.id))
    || (e.WriteResponse? && !e.ok)
    || e.Cancelled? || e.ConnectionCleared? || e.PeripheralRemoved?
  }

  /** The first callback that ends the session. */
  function Ender(t: Transfer, events: seq<Event>): Option<Event> {
    if events == [] then None
    else if Reported(t, events[0]) || Broken(t, events[0]) then Some(events[0])
    else Ender(t, events[1..])
  }

  /** The session is open as long as nothing ended it; its completion was called with what ended it, and an
      ABORT was written for a failure, unless the peripheral had been removed by then. */
  predicate EndsBy(t: Transfer, d: Driver, ender: Option<Event>) {
    if ender.None? then d.open && d.completions == []
    else
      && !d.open && d.completions == [Reported(t, ender.value)]
      && (Uncut(d.frames) != d.frames <==> Broken(t, ender.value) && !ender.value.PeripheralRemoved?)
  }

  lemma {:induction false} ClosedStays(t: Transfer, d: Driver, events: seq<Event>)
    requires t.Valid() && !d.open
    ensures var e := Run(t, d, events); !e.open && e.frames == d.frames && e.completions == d.completions
    decreases events
  {
    if events != [] {
      var e := Step(t, d, events[0]);
      assert !e.open && e.frames == d.frames && e.completions == d.completions;
      hide Step;
      ClosedStays(t, e, events[1..]);
    }
  }

  lemma {:induction false} StepEnds(t: Transfer, d: Driver, e: Event)
    requires t.Valid() && Inv(t, d) && d.open && d.reachable
    ensures var n := Step(t, d, e);
      && EndsBy(t, n, if Reported(t, e) || Broken(t, e) then Some(e) else None)
      && (n.open ==> n.reachable)
  {
    OrderedIsUncut(t, d.frames, d.began, d.offset, d.ended);
    hide Ordered, Uncut;
    FailTells(t, d);
    if e.WriteResponse? || e.ReadyToSend? {
      SendingGoesOn(t, d, e.slots);
    }
    hide SendNext;
  }

  lemma {:induction false} FailTells(t: Transfer, d: Driver)
    requires t.Valid() && d.open && Uncut(d.frames) == d.frames && Uncut(d.frames + [Abort(t.id)]) == d.frames
    ensures var f := Fail(t, d); !f.open && f.completions == d.completions + [false]
    ensures Uncut(Fail(t, d).frames) != Fail(t, d).frames <==> d.reachable
    ensures Fail(t, d.(reachable := false)).frames == d.frames
  {
    hide Uncut;
    assert d.frames != d.frames + [Abort(t.id)];
  }

  lemma {:induction false} SendingGoesOn(t: Transfer, d: Driver, slots: nat)
    requires t.Valid() && d.open && d.reachable
    ensures var n := SendNext(t, d, slots); n.open && n.reachable && n.completions == d.completions
  {
    hide Chunks, OffsetAfter;
  }

  lemma {:induction false} RunEnds(t: Transfer, d: Driver, events: seq<Event>)
    requires t.Valid() && Inv(t, d) && d.open && d.reachable
    ensures EndsBy(t, Run(t, d, events), Ender(t, events))
    decreases events
  {
    if events != [] {
      var n := Step(t, d, events[0]);
      StepEnds(t, d, events[0]);
      StepKeeps(t, d, events[0]);
      hide Inv, Step, Reported, Broken;
      if n.open {
        RunEnds(t, n, events[1..]);
      } else {
        ClosedStays(t, n, events[1..]);
      }
    }
  }

  /** Over every run of callbacks: completion is called with success if and only if the first callback that
      ends the session is the device's report that this transfer, or an unnamed one, is done; it is called
      with failure if and only if that is an error, a failed write, a cancellation or a lost connection, and
      then the device is told, unless it is out of reach. */
  lemma {:induction false} CompletedIff(t: Transfer, slots: nat, events: seq<Event>)
    requires t.Valid()
    ensures EndsBy(t, Run(t, Started(t, slots), events), Ender(t, events))
  {
    FramesInOrder(t, slots, []);
    assert Run(t, Started(t, slots), []) == Started(t, slots);
    hide Inv, Run, EndsBy;
    RunEnds(t, Started(t, slots), events);
  }

  // ---- when everything is sent ----

  /** Callbacks that let the sender go on. */
  predicate Feeds(e: Event) {
    (e.WriteResponse? && e.ok) || e.ReadyToSend?
  }

  /** How many data frames the peripheral agreed to take in all. */
  function Slots(events: seq<Event>): nat {
    if events == [] then 0 else (if Feeds(events[0]) then events[0].slots else 0) + Slots(events[1..])
  }

  function Least(a: nat, b: nat): nat {
    if a < b then a else b
  }

  /** The octets that fit so many data frames. */
  function Room(t: Transfer, slots: nat): nat {
    slots * t.chunkSize
  }

  lemma {:induction false} RoomAdds(t: Transfer, a: nat, b: nat)
    ensures Room(t, a + b) == Room(t, a) + Room(t, b) && Room(t, 0) == 0 && Room(t, 1) == t.chunkSize
  {
  }

  lemma {:induction false} ChunksReach(t: Transfer, offset: nat, slots: nat)
    requires t.Valid() && offset <= |t.image|
    ensures OffsetAfter(t, offset, slots) == Least(offset + Room(t, slots), |t.image|)
    decreases slots
  {
    RoomAdds(t, if slots > 0 then slots - 1 else 0, 1);
    hide Room;
    if offset < |t.image| && slots > 0 {
      ChunksReach(t, ChunkEnd(t, offset), slots - 1);
    }
  }

  /** What an open session has sent after taking slots for n data frames. */
  predicate Sent(t: Transfer, d: Driver, slots: nat, called: bool) {
    && d.open && d.reachable && d.began && d.completions == []
    && d.offset == Least(Room(t, slots), |t.image|)
    && (d.ended <==> called && d.offset == |t.image|)
  }

  lemma {:induction false} FeedSends(t: Transfer, d: Driver, slots: nat, called: bool, e: Event)
    requires t.Valid() && Sent(t, d, slots, called) && Feeds(e)
    ensures Sent(t, Step(t, d, e), slots + e.slots, true)
  {
    ChunksReach(t, d.offset, e.slots);
    RoomAdds(t, slots, e.slots);
    hide Chunks, OffsetAfter, Room;
  }

  lemma {:induction false} FeedsSend(t: Transfer, d: Driver, slots: nat, called: bool, events: seq<Event>)
    requires t.Valid() && Sent(t, d, slots, called) && forall k :: 0 <= k < |events| ==> Feeds(events[k])
    ensures Sent(t, Run(t, d, events), slots + Slots(events), called || events != [])
    decreases events
  {
    if events != [] {
      FeedSends(t, d, slots, called, events[0]);
      assert forall k :: 0 <= k < |events[1..]| ==> events[1..][k] == events[k + 1];
      hide Step, Sent, Feeds;
      FeedsSend(t, Step(t, d, events[0]), slots + events[0].slots, true, events[1..]);
    }
  }

  /** While the device answers and the peripheral takes frames, nothing is held back: END is written as soon
      as there were slots for the whole image, and the session stays open for the device's report. */
  lemma {:induction false} AllIsSentIff(t: Transfer, slots: nat, events: seq<Event>)
    requires t.Valid() && forall k :: 0 <= k < |events| ==> Feeds(events[k])
    ensures var d := Run(t, Started(t, slots), events);
      && d.open && d.offset == Least(Room(t, Slots(events)), |t.image|)
      && (d.ended <==> events != [] && Room(t, Slots(events)) >= |t.image|)
  {
    RoomAdds(t, 0, 0);
    hide Room;
    assert Sent(t, Started(t, slots), 0, false);
    FeedsSend(t, Started(t, slots), 0, false, events);
    hide Run, Started;
  }
}
