/** The macOS sender of a firmware update, and what a device makes of its frames when they arrive in order. */
module OtaMac {
  import opened Optional
  import opened Bytes
  import opened OtaProtocol
  import opened OtaDevice
  import opened OtaStream
  import OtaSafety

  // Driven by write responses, ready callbacks and state events in any order, it emits BEGIN, the image in
  // order, END, and at most one ABORT.

  datatype Transfer = Transfer(id: uint32, image: seq<byte>, chunkSize: nat)
  {
    predicate Valid() {
      |image| < TWO_TO_THE_32 && 20 <= chunkSize <= 244
    }
  }

  /** The update session record, kept after the session is dropped; the frames written so far. */
  datatype Driver = Driver(open: bool, began: bool, offset: nat, ended: bool, reachable: bool,
                           frames: seq<Command>, completions: seq<bool>)

  datatype StateEvent = Progressed | Finished(transferId: Option<uint32>) | Failed(transferId: Option<uint32>) | Other

  /** slots is how often the peripheral agrees to take a write without response. */
  datatype Event =
    | WriteResponse(ok: bool, slots: nat)
    | ReadyToSend(slots: nat)
    | StateChanged(event: StateEvent)
    | Cancelled
    | ConnectionCleared
    | PeripheralRemoved

  function ChunkSize(maxWrite: nat): nat {
    var fitting := if maxWrite < 12 then 0 else maxWrite - 12;
    var capped := if fitting < 244 then fitting else 244;
    if capped > 20 then capped else 20
  }

  /** A data frame fits one write without response exactly where 32 octets fit, and then it is as long as the
      write allows, up to 244 octets of the image. */
  lemma {:induction false} DataFrameFitsIff(maxWrite: nat, id: uint32, offset: uint32, chunk: seq<byte>)
    requires |chunk| == ChunkSize(maxWrite)
    ensures 20 <= ChunkSize(maxWrite) <= 244
    ensures |Frame(Data(id, offset, chunk))| <= maxWrite <==> maxWrite >= 32
    ensures maxWrite >= 32 ==> |chunk| == 244 || |Frame(Data(id, offset, chunk))| == maxWrite
  {
  }

  // ---- the driver ----

  function ChunkEnd(t: Transfer, offset: nat): nat {
    if offset + t.chunkSize < |t.image| then offset + t.chunkSize else |t.image|
  }

  /** The sending loop: chunks from offset while the peripheral takes them. */
  function Chunks(t: Transfer, offset: nat, slots: nat): seq<Command>
    requires t.Valid()
    decreases slots
  {
    if offset >= |t.image| || slots == 0 then []
    else [Data(t.id, offset, t.image[offset..ChunkEnd(t, offset)])] + Chunks(t, ChunkEnd(t, offset), slots - 1)
  }

  function OffsetAfter(t: Transfer, offset: nat, slots: nat): nat
    decreases slots
  {
    if offset >= |t.image| || slots == 0 then offset else OffsetAfter(t, ChunkEnd(t, offset), slots - 1)
  }

  function SendEnd(t: Transfer, d: Driver): Driver
    requires t.Valid()
  {
    if d.ended then d else d.(ended := true, frames := d.frames + [End(t.id, |t.image|)])
  }

  function SendNext(t: Transfer, d: Driver, slots: nat): Driver
    requires t.Valid()
  {
    if !d.open then d
    else if !d.reachable then Fail(t, d)
    else if !d.began then d.(began := true, frames := d.frames + [Begin(|t.image|, t.id)])
    else if d.offset < |t.image| then
      var sent := d.(offset := OffsetAfter(t, d.offset, slots), frames := d.frames + Chunks(t, d.offset, slots));
      if sent.offset == |t.image| then SendEnd(t, sent) else sent
    else SendEnd(t, d)
  }

  function Fail(t: Transfer, d: Driver): Driver {
    if !d.open then d
    else d.(open := false, completions := d.completions + [false],
            frames := if d.reachable then d.frames + [Abort(t.id)] else d.frames)
  }

  function OnStateEvent(t: Transfer, d: Driver, e: StateEvent): Driver {
    if !d.open then d
    else
      match e
      case Finished(id) =>
        if id.Some? && id.value != t.id then d else d.(open := false, completions := d.completions + [true])
      case Failed(id) => if id.Some? && id.value != t.id then d else Fail(t, d)
      case _ => d
  }

  function Step(t: Transfer, d: Driver, e: Event): Driver
    requires t.Valid()
  {
    match e
    case WriteResponse(ok, slots) => if !d.open then d else if ok then SendNext(t, d, slots) else Fail(t, d)
    case ReadyToSend(slots) => if !d.open then d else SendNext(t, d, slots)
    case StateChanged(event) => OnStateEvent(t, d, event)
    case Cancelled => Fail(t, d)
    case ConnectionCleared => Fail(t, d).(reachable := false)
    case PeripheralRemoved => Fail(t, d.(reachable := false))
  }

  /** updateFirmware has just been called for a connected device. */
  function Started(t: Transfer, slots: nat): Driver
    requires t.Valid()
  {
    SendNext(t, Driver(true, false, 0, false, true, [], []), slots)
  }

  function Run(t: Transfer, d: Driver, events: seq<Event>): Driver
    requires t.Valid()
    decreases events
  {
    if events == [] then d else Run(t, Step(t, d, events[0]), events[1..])
  }

  // ---- the order of frames ----

  lemma {:induction false} ChunksChain(t: Transfer, offset: nat, slots: nat)
    requires t.Valid() && offset <= |t.image|
    ensures Chain(t.id, t.image, t.chunkSize, Chunks(t, offset, slots), offset, OffsetAfter(t, offset, slots))
    ensures offset <= OffsetAfter(t, offset, slots) <= |t.image|
    decreases slots
  {
    if offset < |t.image| && slots > 0 {
      var end := ChunkEnd(t, offset);
      ChunksChain(t, end, slots - 1);
      var data := [Data(t.id, offset, t.image[offset..end])];
      ChainOfOne(t.id, t.image, t.chunkSize, offset, end);
      ChainJoin(t.id, t.image, t.chunkSize, data, Chunks(t, end, slots - 1), offset, end, OffsetAfter(t, end, slots - 1));
    }
  }

  /** BEGIN, the image up to offset, END; nothing before BEGIN and END only after the whole image. */
  ghost predicate Ordered(t: Transfer, frames: seq<Command>, began: bool, offset: nat, ended: bool)
    requires t.Valid()
  {
    && (!began ==> frames == [] && offset == 0 && !ended)
    && (began ==>
          && frames != [] && frames[0] == Begin(|t.image|, t.id)
          && (ended ==> offset == |t.image| && |frames| >= 2 && frames[|frames| - 1] == End(t.id, |t.image|))
          && Chain(t.id, t.image, t.chunkSize, frames[1..|frames| - (if ended then 1 else 0)], 0, offset))
  }

  /** The frames before any ABORT. */
  function Uncut(frames: seq<Command>): seq<Command> {
    if frames != [] && frames[|frames| - 1].Abort? then frames[..|frames| - 1] else frames
  }

  ghost predicate Inv(t: Transfer, d: Driver)
    requires t.Valid()
  {
    && Ordered(t, Uncut(d.frames), d.began, d.offset, d.ended)
    && (Uncut(d.frames) != d.frames ==> d.frames == Uncut(d.frames) + [Abort(t.id)])
    && (d.open ==> Uncut(d.frames) == d.frames && d.completions == [])
    && (!d.open ==> |d.completions| == 1)
    && (d.completions == [true] ==> Uncut(d.frames) == d.frames)
  }

  lemma {:induction false} OrderedIsUncut(t: Transfer, frames: seq<Command>, began: bool, offset: nat, ended: bool)
    requires t.Valid() && Ordered(t, frames, began, offset, ended)
    ensures Uncut(frames) == frames && Uncut(frames + [Abort(t.id)]) == frames
  {
    assert (frames + [Abort(t.id)])[..|frames|] == frames;
    if began && !ended && |frames| >= 2 {
      assert frames[1..|frames| - 0] == frames[1..];
      ChainIsData(t.id, t.image, t.chunkSize, frames[1..], 0, offset);
      assert frames[|frames| - 1] == frames[1..][|frames| - 2];
    }
  }

  lemma {:induction false} ChunksKeepOrder(t: Transfer, frames: seq<Command>, offset: nat, slots: nat)
    requires t.Valid() && Ordered(t, frames, true, offset, false) && offset <= |t.image|
    ensures Ordered(t, frames + Chunks(t, offset, slots), true, OffsetAfter(t, offset, slots), false)
  {
    ChunksChain(t, offset, slots);
    var chunks := Chunks(t, offset, slots);
    assert frames[1..|frames| - 0] == frames[1..];
    ChainJoin(t.id, t.image, t.chunkSize, frames[1..], chunks, 0, offset, OffsetAfter(t, offset, slots));
    assert (frames + chunks)[1..|frames + chunks| - 0] == frames[1..] + chunks;
  }

  lemma {:induction false} EndKeepsOrder(t: Transfer, frames: seq<Command>)
    requires t.Valid() && Ordered(t, frames, true, |t.image|, false)
    ensures Ordered(t, frames + [End(t.id, |t.image|)], true, |t.image|, true)
  {
    var more := frames + [End(t.id, |t.image|)];
    assert more[1..|more| - 1] == frames[1..|frames| - 0];
  }

  lemma {:induction false} BeginIsOrdered(t: Transfer)
    requires t.Valid()
    ensures Ordered(t, [Begin(|t.image|, t.id)], true, 0, false)
  {
    assert [Begin(|t.image|, t.id)][1..1 - 0] == [];
  }

  /** One round of sending keeps the frames in order. */
  lemma {:induction false} SendNextOrdered(t: Transfer, d: Driver, slots: nat)
    requires t.Valid() && Ordered(t, d.frames, d.began, d.offset, d.ended) && d.open && d.reachable
    requires d.offset <= |t.image|
    ensures var n := SendNext(t, d, slots);
      Ordered(t, n.frames, n.began, n.offset, n.ended)
  {
    if !d.began {
      BeginIsOrdered(t);
      assert d.frames == [] && d.offset == 0 && !d.ended;
      assert [] + [Begin(|t.image|, t.id)] == [Begin(|t.image|, t.id)];
    } else if d.offset < |t.image| {
      assert !d.ended;
      SendChunksOrdered(t, d, slots);
    } else if !d.ended {
      EndKeepsOrder(t, d.frames);
    }
    hide Ordered, Chunks, OffsetAfter;
  }

  lemma {:induction false} SendChunksOrdered(t: Transfer, d: Driver, slots: nat)
    requires t.Valid() && Ordered(t, d.frames, true, d.offset, false) && d.offset <= |t.image|
    ensures var offset, sent := OffsetAfter(t, d.offset, slots), d.frames + Chunks(t, d.offset, slots);
      && Ordered(t, sent, true, offset, false)
      && (offset == |t.image| ==> Ordered(t, sent + [End(t.id, |t.image|)], true, offset, true))
  {
    ChunksKeepOrder(t, d.frames, d.offset, slots);
    hide Ordered, Chunks, OffsetAfter;
    if OffsetAfter(t, d.offset, slots) == |t.image| {
      EndKeepsOrder(t, d.frames + Chunks(t, d.offset, slots));
    }
  }

  lemma {:induction false} OrderedOffset(t: Transfer, frames: seq<Command>, began: bool, offset: nat, ended: bool)
    requires t.Valid() && Ordered(t, frames, began, offset, ended)
    ensures offset <= |t.image|
  {
    if began {
      ChainEnds(t, frames[1..|frames| - (if ended then 1 else 0)], 0, offset);
    }
  }

  lemma {:induction false} ChainEnds(t: Transfer, frames: seq<Command>, from: nat, to: nat)
    requires Chain(t.id, t.image, t.chunkSize, frames, from, to) && from <= |t.image|
    ensures to <= |t.image|
  {
  }

  lemma {:induction false} SendNextKeeps(t: Transfer, d: Driver, slots: nat)
    requires t.Valid() && Inv(t, d) && d.open && d.reachable
    ensures Inv(t, SendNext(t, d, slots))
  {
    var n := SendNext(t, d, slots);
    assert n.open && n.completions == d.completions && d.frames == Uncut(d.frames) by {
      hide Ordered, Chunks, OffsetAfter, Uncut;
    }
    hide Ordered, Chunks, OffsetAfter, Uncut, SendNext;
    OrderedOffset(t, d.frames, d.began, d.offset, d.ended);
    SendNextOrdered(t, d, slots);
    OrderedIsUncut(t, n.frames, n.began, n.offset, n.ended);
  }

  lemma {:induction false} FailKeeps(t: Transfer, d: Driver, reachable: bool)
    requires t.Valid() && Inv(t, d)
    ensures Inv(t, Fail(t, d)) && Inv(t, d.(reachable := reachable))
    ensures Inv(t, Fail(t, d).(reachable := reachable))
  {
    if d.open {
      OrderedIsUncut(t, d.frames, d.began, d.offset, d.ended);
      assert Fail(t, d).completions == [false];
    }
    hide Ordered, Uncut;
  }

  lemma {:induction false} SendingKeeps(t: Transfer, d: Driver, slots: nat)
    requires t.Valid() && Inv(t, d)
    ensures Inv(t, SendNext(t, d, slots))
  {
    FailKeeps(t, d, false);
    if d.open && d.reachable {
      SendNextKeeps(t, d, slots);
    }
    hide Inv, Fail, Chunks, OffsetAfter;
  }

  lemma {:induction false} StateEventKeeps(t: Transfer, d: Driver, e: StateEvent)
    requires t.Valid() && Inv(t, d)
    ensures Inv(t, OnStateEvent(t, d, e))
  {
    FailKeeps(t, d, false);
    hide Ordered, Uncut, Fail;
  }

  lemma {:induction false} StepKeeps(t: Transfer, d: Driver, e: Event)
    requires t.Valid() && Inv(t, d)
    ensures Inv(t, Step(t, d, e))
  {
    FailKeeps(t, d, false);
    FailKeeps(t, d.(reachable := false), false);
    if e.StateChanged? {
      StateEventKeeps(t, d, e.event);
    }
    hide Inv, OnStateEvent;
    match e {
      case WriteResponse(_, slots) => SendingKeeps(t, d, slots); hide SendNext, Fail;
      case ReadyToSend(slots) => SendingKeeps(t, d, slots); hide SendNext, Fail;
      case _ => hide Fail;
    }
  }

  lemma {:induction false} RunKeeps(t: Transfer, d: Driver, events: seq<Event>)
    requires t.Valid() && Inv(t, d)
    ensures Inv(t, Run(t, d, events))
    decreases events
  {
    if events != [] {
      StepKeeps(t, d, events[0]);
      hide Step, Inv;
      RunKeeps(t, Step(t, d, events[0]), events[1..]);
    }
  }

  /** Whatever callbacks come, in whatever order: the frames are a prefix of BEGIN, the image in order,
      END, closed by at most one ABORT, and completion is called at most once. */
  lemma {:induction false} FramesInOrder(t: Transfer, slots: nat, events: seq<Event>)
    requires t.Valid()
    ensures Inv(t, Run(t, Started(t, slots), events))
    ensures |Run(t, Started(t, slots), events).completions| <= 1
  {
    var start := Driver(true, false, 0, false, true, [], []);
    SendNextKeeps(t, start, slots);
    RunKeeps(t, Started(t, slots), events);
    hide Run, Started, Ordered, Uncut;
  }

  // ---- the device at the other end ----

  /** The device after taking frames in order; it takes nothing once it restarts. */
  function Delivered(partitionSize: nat, d: Device, frames: seq<Command>): Device
    decreases frames
  {
    if frames == [] || d.restarting then d
    else Delivered(partitionSize, Executed(partitionSize, d, frames[0], SOUND).device, frames[1..])
  }

  ghost predicate Collects(t: Transfer, partitionSize: nat, d: Device, written: nat) {
    && Holds(t.id, t.image, partitionSize, d) && d.written == written
    && OtaSafety.HandleInv(d) && OtaSafety.NothingLeaked(d)
  }

  lemma {:induction false} ChainWrites(t: Transfer, partitionSize: nat, d: Device, frames: seq<Command>, from: nat, to: nat)
    requires t.Valid() && partitionSize <= LARGEST_PARTITION
    requires Chain(t.id, t.image, t.chunkSize, frames, from, to) && Collects(t, partitionSize, d, from)
    ensures Collects(t, partitionSize, Delivered(partitionSize, d, frames), to)
    decreases frames
  {
    if frames != [] {
      var c := frames[0];
      DataWrites(t, partitionSize, d, c, from);
      hide Executed, Collects;
      assert !d.restarting by { StillRunning(t, partitionSize, d, from); }
      ChainWrites(t, partitionSize, Executed(partitionSize, d, c, SOUND).device, frames[1..], from + |c.payload|, to);
    }
  }

  lemma {:induction false} StillRunning(t: Transfer, partitionSize: nat, d: Device, written: nat)
    requires Collects(t, partitionSize, d, written)
    ensures !d.restarting && d.boot.None?
  {
  }

  lemma {:induction false} DataWrites(t: Transfer, partitionSize: nat, d: Device, c: Command, from: nat)
    requires t.Valid() && partitionSize <= LARGEST_PARTITION && Collects(t, partitionSize, d, from)
    requires c.Data? && c.transferId == t.id && c.offset == from && 0 < |c.payload| <= 244
    requires from + |c.payload| <= |t.image| && c.payload == t.image[from..from + |c.payload|]
    ensures Collects(t, partitionSize, Executed(partitionSize, d, c, SOUND).device, from + |c.payload|)
  {
    assert [c][1..] == [];
    DataTaken(t.id, t.image, partitionSize, d, c);
    hide Executed, Boundary;
  }

  lemma {:induction false} DeliveredParts(partitionSize: nat, d: Device, front: seq<Command>, back: seq<Command>)
    ensures Delivered(partitionSize, d, front + back) == Delivered(partitionSize, Delivered(partitionSize, d, front), back)
    decreases front
  {
    if front == [] {
      assert front + back == back;
    } else if !d.restarting {
      assert (front + back)[1..] == front[1..] + back;
      DeliveredParts(partitionSize, Executed(partitionSize, d, front[0], SOUND).device, front[1..], back);
    }
  }

  lemma {:induction false} BeginStarts(t: Transfer, partitionSize: nat)
    requires t.Valid() && 0 < |t.image| <= partitionSize
    ensures Collects(t, partitionSize, Delivered(partitionSize, Fresh(), [Begin(|t.image|, t.id)]), 0)
  {
    FirstBoundary();
    hide Boundary;
    var started := Executed(partitionSize, Fresh(), Begin(|t.image|, t.id), SOUND).device;
    assert [Begin(|t.image|, t.id)][1..] == [];
    assert Delivered(partitionSize, started, []) == started;
    assert t.image[..0] == [];
  }

  /** Before END the device only collects; with END it commits the whole image. */
  lemma {:induction false} OrderedDelivery(t: Transfer, partitionSize: nat, frames: seq<Command>, offset: nat, ended: bool)
    requires t.Valid() && 0 < |t.image| <= partitionSize <= LARGEST_PARTITION
    requires Ordered(t, frames, true, offset, ended)
    ensures var d := Delivered(partitionSize, Fresh(), frames);
      if ended then d.restarting && d.boot == Some(t.image) && d.open == {}
      else Collects(t, partitionSize, d, offset)
  {
    var last := |frames| - (if ended then 1 else 0);
    var begin, datas := frames[..1], frames[1..last];
    assert begin == [Begin(|t.image|, t.id)];
    BeginStarts(t, partitionSize);
    var started := Delivered(partitionSize, Fresh(), begin);
    ChainWrites(t, partitionSize, started, datas, 0, offset);
    DeliveredParts(partitionSize, Fresh(), begin, datas);
    assert frames[..last] == begin + datas;
    if ended {
      DeliveredParts(partitionSize, Fresh(), frames[..last], frames[last..]);
      assert frames == frames[..last] + frames[last..];
      assert frames[last..] == [End(t.id, |t.image|)];
      hide Chain, Ordered, Boundary;
      EndCommits(t, partitionSize, Delivered(partitionSize, started, datas));
    } else {
      assert frames == frames[..last];
    }
  }

  lemma {:induction false} EndCommits(t: Transfer, partitionSize: nat, d: Device)
    requires t.Valid() && Collects(t, partitionSize, d, |t.image|)
    ensures var after := Delivered(partitionSize, d, [End(t.id, |t.image|)]);
      after.restarting && after.boot == Some(t.image) && after.open == {}
  {
    hide Boundary;
    assert t.image[..|t.image|] == t.image;
    var ended := Executed(partitionSize, d, End(t.id, |t.image|), SOUND).device;
    assert [End(t.id, |t.image|)][1..] == [];
    assert Delivered(partitionSize, ended, []) == ended;
  }

  lemma {:induction false} AbortReleases(t: Transfer, partitionSize: nat, d: Device, written: nat)
    requires t.Valid() && Collects(t, partitionSize, d, written)
    ensures var after := Delivered(partitionSize, d, [Abort(t.id)]);
      !after.active && after.boot.None? && after.open == {}
  {
    hide Boundary;
    var aborted := Executed(partitionSize, d, Abort(t.id), SOUND).device;
    assert [Abort(t.id)][1..] == [];
    assert Delivered(partitionSize, aborted, []) == aborted;
  }

  /** Without a BEGIN the device accepts, nothing that is delivered starts or commits anything. */
  lemma {:induction false} StaysIdle(partitionSize: nat, d: Device, frames: seq<Command>)
    requires !d.active && d.boot.None? && !d.restarting
    requires forall i :: 0 <= i < |frames| && frames[i].Begin? ==> frames[i].imageSize == 0
    ensures !Delivered(partitionSize, d, frames).active && Delivered(partitionSize, d, frames).boot.None?
    ensures Delivered(partitionSize, d, frames).open == d.open
    decreases frames
  {
    if frames != [] {
      var next := Executed(partitionSize, d, frames[0], SOUND).device;
      assert !next.active && next.boot.None? && !next.restarting && next.open == d.open;
      hide Executed;
      StaysIdle(partitionSize, next, frames[1..]);
    }
  }

  /** A device that receives everything the driver wrote boots the image if and only if END was written
      and the image is not empty; otherwise it boots nothing new, and after an ABORT, or with an empty
      image, it has no transfer and no open handle. */
  lemma {:induction false} CommitsIffEnded(t: Transfer, partitionSize: nat, slots: nat, events: seq<Event>)
    requires t.Valid() && |t.image| <= partitionSize <= LARGEST_PARTITION
    ensures CommitsIff(t, partitionSize, Run(t, Started(t, slots), events))
  {
    FramesInOrder(t, slots, events);
    hide Run, Started, Chunks, CommitsIff;
    FramesCommitIff(t, partitionSize, Run(t, Started(t, slots), events));
  }

  ghost predicate CommitsIff(t: Transfer, partitionSize: nat, driver: Driver) {
    var device := Delivered(partitionSize, Fresh(), driver.frames);
    && (device.boot == Some(t.image) <==> driver.ended && t.image != [])
    && (device.boot.Some? ==> device.boot == Some(t.image))
    && (t.image == [] || (!driver.ended && driver.frames != Uncut(driver.frames)) ==>
          !device.active && device.open == {})
  }

  lemma {:induction false} FramesCommitIff(t: Transfer, partitionSize: nat, driver: Driver)
    requires t.Valid() && |t.image| <= partitionSize <= LARGEST_PARTITION
    requires Inv(t, driver)
    ensures CommitsIff(t, partitionSize, driver)
  {
    hide CommitsIff, Inv;
    if t.image == [] {
      EmptyCommits(t, partitionSize, driver);
    } else if driver.began {
      BegunCommits(t, partitionSize, driver);
    } else {
      UnbegunCommits(t, partitionSize, driver);
    }
  }

  lemma {:induction false} EmptyCommits(t: Transfer, partitionSize: nat, driver: Driver)
    requires t.Valid() && Inv(t, driver) && t.image == []
    ensures CommitsIff(t, partitionSize, driver)
  {
    EmptyFrames(t, driver);
    hide Inv, Uncut, Delivered;
    StaysIdle(partitionSize, Fresh(), driver.frames);
  }

  lemma {:induction false} UnbegunCommits(t: Transfer, partitionSize: nat, driver: Driver)
    requires t.Valid() && Inv(t, driver) && !driver.began
    ensures CommitsIff(t, partitionSize, driver)
  {
    NothingBegun(t, driver);
    hide Inv, Uncut, Delivered;
    StaysIdle(partitionSize, Fresh(), driver.frames);
  }

  lemma {:induction false} NothingBegun(t: Transfer, driver: Driver)
    requires t.Valid() && Inv(t, driver) && !driver.began
    ensures !driver.ended && (driver.frames == [] || driver.frames == [Abort(t.id)])
  {
  }

  lemma {:induction false} EmptyFrames(t: Transfer, driver: Driver)
    requires t.Valid() && Inv(t, driver) && t.image == []
    ensures forall i :: 0 <= i < |driver.frames| && driver.frames[i].Begin? ==> driver.frames[i].imageSize == 0
  {
    var sent := Uncut(driver.frames);
    hide Uncut;
    if driver.began {
      var datas := sent[1..|sent| - (if driver.ended then 1 else 0)];
      assert datas == [];
    }
  }

  lemma {:induction false} BegunCommits(t: Transfer, partitionSize: nat, driver: Driver)
    requires t.Valid() && 0 < |t.image| <= partitionSize <= LARGEST_PARTITION
    requires Inv(t, driver) && driver.began
    ensures CommitsIff(t, partitionSize, driver)
  {
    var sent := Uncut(driver.frames);
    var device := Delivered(partitionSize, Fresh(), sent);
    OrderedDelivery(t, partitionSize, sent, driver.offset, driver.ended);
    hide Ordered, Boundary;
    if driver.frames != sent {
      DeliveredParts(partitionSize, Fresh(), sent, [Abort(t.id)]);
      if !driver.ended {
        AbortReleases(t, partitionSize, device, driver.offset);
      }
    }
  }
}
