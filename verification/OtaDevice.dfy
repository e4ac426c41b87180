/**
 The device's end of a firmware update: one transfer at a time, written into the spare partition
 strictly in order, committed by END.
 */
module OtaDevice {
  import opened Optional
  import opened Bytes
  import opened OtaProtocol

  const PROGRESS_STEP: nat := 32 * 1024

  /** The largest partition for which no counter of the device can wrap; the app slots hold 3 MB. */
  const LARGEST_PARTITION: nat := TWO_TO_THE_32 - 0x1_0000

  /** What the flash driver answers during one access. */
  datatype Flash = Flash(found: bool, beginOk: bool, writeOk: bool, endOk: bool, bootOk: bool)

  datatype ErrorCode =
    NoPartition | BadSize | BeginFailed | NotActive | BadOffset | WriteFailed | Incomplete | EndFailed | SetBootFailed

  /** State notifications to the host; whether they could be sent is ignored. */
  datatype Notice =
    | Ready(transferId: uint32, size: uint32)
    | Progress(transferId: uint32, written: nat, size: uint32)
    | Done(transferId: uint32)
    | Error(code: ErrorCode)
    | Aborted

  /** The update state, the driver's open handles (numbered by handles as they are handed out),
      what the spare partition holds, and the image selected for the next boot. */
  datatype Device = Device(
    active: bool,
    transferId: uint32,
    imageSize: uint32,
    written: nat,
    nextProgress: nat,
    handle: nat,
    open: set<nat>,
    handles: nat,
    spare: seq<byte>,
    boot: Option<seq<byte>>,
    restarting: bool)

  /** What one access leaves behind; a committing END restarts the device inside the access. */
  datatype Outcome = Outcome(device: Device, status: AttStatus, notices: seq<Notice>)

  function Fresh(): Device {
    Device(false, 0, 0, 0, 0, 0, {}, 0, [], None, false)
  }

  function Cleared(d: Device): Device {
    d.(active := false, transferId := 0, imageSize := 0, written := 0, nextProgress := 0, handle := 0)
  }

  function Release(d: Device): Device {
    if d.active then Cleared(d.(open := d.open - {d.handle})) else d
  }

  function Begun(size: nat, d0: Device, id: uint32, imageSize: uint32, flash: Flash): Outcome {
    var d := Release(d0);
    if !flash.found then Outcome(d, Unlikely, [Error(NoPartition)])
    else if imageSize == 0 || imageSize > size then Outcome(d, InvalidLength, [Error(BadSize)])
    else if !flash.beginOk then Outcome(d, Unlikely, [Error(BeginFailed)])
    else Outcome(Started(d, id, imageSize), Success, [Ready(id, imageSize)])
  }

  function Started(d: Device, id: uint32, imageSize: uint32): Device {
    Device(true, id, imageSize, 0, PROGRESS_STEP, d.handles, d.open + {d.handles}, d.handles + 1,
           [], d.boot, d.restarting)
  }

  /** The loop that moves the next report past what is written. */
  function Raised(nextProgress: nat, written: nat): nat
    decreases if written >= nextProgress then written - nextProgress + 1 else 0
  {
    if written >= nextProgress then Raised(nextProgress + PROGRESS_STEP, written) else nextProgress
  }

  function Wrote(d: Device, id: uint32, offset: uint32, payload: seq<byte>, flash: Flash): Outcome {
    if !d.active || id != d.transferId then Outcome(d, Unlikely, [Error(NotActive)])
    else if offset != d.written || payload == []
            || (d.written + |payload|) % TWO_TO_THE_32 > d.imageSize
      then Outcome(d, InvalidOffset, [Error(BadOffset)])
    else if !flash.writeOk then Outcome(d, Unlikely, [Error(WriteFailed)])
    else
      var written := (d.written + |payload|) % TWO_TO_THE_32;
      if written >= d.nextProgress || written == d.imageSize
      then Outcome(d.(written := written, spare := d.spare + payload, nextProgress := Raised(d.nextProgress, written)),
                   Success, [Progress(id, written, d.imageSize)])
      else Outcome(d.(written := written, spare := d.spare + payload), Success, [])
  }

  function Finished(d: Device, id: uint32, imageSize: uint32, flash: Flash): Outcome {
    if !d.active || id != d.transferId then Outcome(d, Unlikely, [Error(NotActive)])
    else if imageSize != d.imageSize || d.written != d.imageSize then Outcome(d, Unlikely, [Error(Incomplete)])
    else
      var ended := Cleared(d.(open := d.open - {d.handle}));
      if !flash.endOk then Outcome(ended, Unlikely, [Error(EndFailed)])
      else if !flash.bootOk then Outcome(ended, Unlikely, [Error(SetBootFailed)])
      else Outcome(ended.(boot := Some(d.spare), restarting := true), NoAnswer, [Done(id)])
  }

  /** ABORT clears the state whoever sends it, but frees the handle only for the active transfer. */
  function AbortedBy(d: Device, id: uint32): Outcome {
    var open := if d.active && id == d.transferId then d.open - {d.handle} else d.open;
    Outcome(Cleared(d.(open := open)), Success, [Aborted])
  }

  function Executed(size: nat, d: Device, command: Command, flash: Flash): Outcome {
    match command
    case Begin(imageSize, id) => Begun(size, d, id, imageSize, flash)
    case Data(id, offset, payload) => Wrote(d, id, offset, payload, flash)
    case End(id, imageSize) => Finished(d, id, imageSize, flash)
    case Abort(id) => AbortedBy(d, id)
  }

  function Accessed(size: nat, d: Device, buffer: Write, flash: Flash): Outcome {
    match Decode(buffer)
    case Refuse(status) => Outcome(d, status, [])
    case Execute(command) => Executed(size, d, command, flash)
  }

  function Disconnected(d: Device): Device {
    Release(d)
  }

  // ---- the progress schedule ----

  /** The first report boundary above what is written. */
  function Boundary(written: nat): nat {
    (written / PROGRESS_STEP + 1) * PROGRESS_STEP
  }

  lemma {:induction false} RaisedIsBoundary(k: nat, written: nat)
    requires k * PROGRESS_STEP <= written + PROGRESS_STEP
    ensures Raised(k * PROGRESS_STEP, written) == Boundary(written)
    decreases written + PROGRESS_STEP - k * PROGRESS_STEP
  {
    if written >= k * PROGRESS_STEP {
      RaisedIsBoundary(k + 1, written);
    } else {
      assert written / PROGRESS_STEP == k - 1;
    }
  }

  // ---- the device as it runs ----

  class Updater {
    const partitionSize: nat
    var active: bool
    var transferId: uint32
    var imageSize: uint32
    var written: uint32
    var nextProgress: uint32
    var handle: nat
    var openHandles: set<nat>
    var handles: nat
    var spare: seq<byte>
    var boot: Option<seq<byte>>
    var restarting: bool
    var notices: seq<Notice>

    function Model(): Device
      reads this
    {
      Device(active, transferId, imageSize, written, nextProgress, handle, openHandles, handles, spare, boot, restarting)
    }

    predicate Valid()
      reads this
    {
      && partitionSize <= LARGEST_PARTITION
      && (active ==> written <= imageSize <= partitionSize && nextProgress == Boundary(written))
    }

    /** The state and the notices of a step, both in place. */
    twostate predicate Did(outcome: Outcome)
      reads this
    {
      Model() == outcome.device && notices == old(notices) + outcome.notices
    }

    constructor (partitionSize: nat)
      requires partitionSize <= LARGEST_PARTITION
      ensures Valid() && Model() == Fresh() && notices == [] && this.partitionSize == partitionSize
    {
      this.partitionSize := partitionSize;
      active, transferId, imageSize, written, nextProgress, handle := false, 0, 0, 0, 0, 0;
      openHandles, handles, spare, boot, restarting, notices := {}, 0, [], None, false, [];
    }

    method ClearState()
      modifies this
      ensures Model() == Cleared(old(Model())) && notices == old(notices)
    {
      active := false;
      transferId := 0;
      imageSize := 0;
      written := 0;
      nextProgress := 0;
      handle := 0;
    }

    /** Gives up the active transfer, if any. */
    method AbortActive()
      requires Valid()
      modifies this
      ensures Valid() && !active && Model() == Release(old(Model())) && notices == old(notices)
    {
      if active {
        openHandles := openHandles - {handle};
        ClearState();
      }
    }

    method Notify(notice: Notice)
      modifies `notices
      ensures notices == old(notices) + [notice]
    {
      notices := notices + [notice];
    }

    method Begin(id: uint32, size: uint32, flash: Flash) returns (status: AttStatus)
      requires Valid()
      modifies this
      ensures Valid()
      ensures var o := Begun(partitionSize, old(Model()), id, size, flash); Did(o) && status == o.status
    {
      AbortActive();
      hide Release, Boundary;
      if !flash.found {
        Notify(Error(NoPartition));
        return Unlikely;
      }
      if size == 0 || size > partitionSize {
        Notify(Error(BadSize));
        return InvalidLength;
      }
      if !flash.beginOk {
        Notify(Error(BeginFailed));
        return Unlikely;
      }
      StartTransfer(id, size);
      FirstBoundary();
      Notify(Ready(id, size));
      status := Success;
    }

    method StartTransfer(id: uint32, size: uint32)
      modifies this
      ensures Model() == Started(old(Model()), id, size) && notices == old(notices)
    {
      active := true;
      transferId := id;
      imageSize := size;
      written := 0;
      nextProgress := PROGRESS_STEP;
      handle := handles;
      openHandles := openHandles + {handles};
      handles := handles + 1;
      spare := [];
    }

    method WriteData(id: uint32, offset: uint32, payload: seq<byte>, flash: Flash) returns (status: AttStatus)
      requires Valid() && |payload| < 0x1_0000
      modifies this
      ensures Valid()
      ensures var o := Wrote(old(Model()), id, offset, payload, flash); Did(o) && status == o.status
    {
      if !active || id != transferId {
        Notify(Error(NotActive));
        return Unlikely;
      }
      if offset != written || |payload| == 0 || written + |payload| > imageSize {
        Notify(Error(BadOffset));
        return InvalidOffset;
      }
      if !flash.writeOk {
        Notify(Error(WriteFailed));
        return Unlikely;
      }
      NoWrap(written, |payload|);
      hide Boundary, Raised;
      Append(payload);
      ReportProgress(offset);
      status := Success;
    }

    method Append(payload: seq<byte>)
      requires written + |payload| < TWO_TO_THE_32
      modifies `spare, `written
      ensures spare == old(spare) + payload && written == old(written) + |payload|
    {
      spare := spare + payload;
      written := written + |payload|;
    }

    method ReportProgress(ghost before: nat)
      requires before <= written <= LARGEST_PARTITION && nextProgress == Boundary(before)
      modifies `notices, `nextProgress
      ensures var due := written >= old(nextProgress) || written == imageSize;
        && notices == old(notices) + (if due then [Progress(transferId, written, imageSize)] else [])
        && nextProgress == (if due then Raised(old(nextProgress), written) else old(nextProgress))
        && nextProgress == Boundary(written)
    {
      if written >= nextProgress || written == imageSize {
        Notify(Progress(transferId, written, imageSize));
        RaiseNextProgress(before / PROGRESS_STEP + 1);
      } else {
        BoundaryHolds(before, written);
      }
    }

    method RaiseNextProgress(ghost k: nat)
      requires written <= LARGEST_PARTITION && nextProgress == k * PROGRESS_STEP <= written + PROGRESS_STEP
      modifies `nextProgress
      ensures nextProgress == Raised(old(nextProgress), written) == Boundary(written)
    {
      RaisedIsBoundary(k, written);
      ghost var steps := k;
      while written >= nextProgress
        invariant nextProgress == steps * PROGRESS_STEP <= written + PROGRESS_STEP
        invariant Raised(nextProgress, written) == Raised(old(nextProgress), written)
        decreases written + PROGRESS_STEP - nextProgress
      {
        nextProgress := nextProgress + PROGRESS_STEP;
        steps := steps + 1;
      }
    }

    method Finish(id: uint32, size: uint32, flash: Flash) returns (status: AttStatus)
      requires Valid()
      modifies this
      ensures Valid()
      ensures var o := Finished(old(Model()), id, size, flash); Did(o) && status == o.status
    {
      if !active || id != transferId {
        Notify(Error(NotActive));
        return Unlikely;
      }
      if size != imageSize || written != imageSize {
        Notify(Error(Incomplete));
        return Unlikely;
      }
      openHandles := openHandles - {handle};
      if !flash.endOk {
        ClearState();
        Notify(Error(EndFailed));
        return Unlikely;
      }
      if !flash.bootOk {
        ClearState();
        Notify(Error(SetBootFailed));
        return Unlikely;
      }
      boot := Some(spare);
      Notify(Done(id));
      ClearState();
      restarting := true;
      status := NoAnswer;
    }

    method Abort(id: uint32) returns (status: AttStatus)
      modifies this
      ensures Valid() || !old(Valid())
      ensures var o := AbortedBy(old(Model()), id); Did(o) && status == o.status
    {
      if active && id == transferId {
        openHandles := openHandles - {handle};
      }
      ClearState();
      Notify(Aborted);
      status := Success;
    }

    /** The characteristic's access callback. */
    method Access(buffer: Write, flash: Flash) returns (status: AttStatus)
      requires Valid()
      modifies this
      ensures Valid()
      ensures var o := Accessed(partitionSize, old(Model()), buffer, flash); Did(o) && status == o.status
    {
      if |buffer| < 4 {
        return InvalidLength;
      }
      var version, kind, headerLen := buffer[0], buffer[1], ReadLe16(buffer[2..4]);
      if version != 1 || headerLen > |buffer| {
        return Unlikely;
      }
      hide Begun, Wrote, Finished, AbortedBy;
      if kind == TYPE_BEGIN {
        if headerLen != 12 {
          return InvalidLength;
        }
        status := Begin(ReadLe32(buffer[8..12]), ReadLe32(buffer[4..8]), flash);
      } else if kind == TYPE_DATA {
        if headerLen != 12 {
          return InvalidLength;
        }
        status := WriteData(ReadLe32(buffer[4..8]), ReadLe32(buffer[8..12]), buffer[headerLen..], flash);
      } else if kind == TYPE_END {
        if headerLen != 12 {
          return InvalidLength;
        }
        status := Finish(ReadLe32(buffer[4..8]), ReadLe32(buffer[8..12]), flash);
      } else if kind == TYPE_ABORT {
        if headerLen != 8 {
          return InvalidLength;
        }
        status := Abort(ReadLe32(buffer[4..8]));
      } else {
        status := Unlikely;
      }
    }

    method OnDisconnect()
      requires Valid()
      modifies this
      ensures Valid() && Model() == Disconnected(old(Model()))
    {
      AbortActive();
    }
  }

  lemma {:induction false} NoWrap(written: nat, len: nat)
    requires written <= LARGEST_PARTITION && len < 0x1_0000
    ensures (written + len) % TWO_TO_THE_32 == written + len
  {
  }

  lemma {:induction false} FirstBoundary()
    ensures Boundary(0) == PROGRESS_STEP
  {
  }

  lemma {:induction false} BoundaryHolds(earlier: nat, written: nat)
    requires earlier <= written < Boundary(earlier)
    ensures Boundary(earlier) == Boundary(written)
  {
    assert earlier / PROGRESS_STEP <= written / PROGRESS_STEP;
  }
}
