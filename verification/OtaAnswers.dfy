/** What the device answers to each write, and that it boots nothing the flash driver refused. */
module OtaAnswers {
  import opened Optional
  import opened Bytes
  import opened OtaProtocol
  import opened OtaDevice
  import opened OtaSafety

  /** A device between two accesses. */
  predicate Sane(size: nat, d: Device) {
    size <= LARGEST_PARTITION && (d.active ==> d.written <= d.imageSize <= size)
  }

  /** Whose transfer a command is about. */
  predicate IsCurrent(d: Device, id: uint32) {
    d.active && d.transferId == id
  }

  /** What a host may count on: the command fits the transfer and the driver has no objection. */
  predicate Acceptable(size: nat, d: Device, c: Command, flash: Flash) {
    match c
    case Begin(imageSize, _) => 0 < imageSize <= size && flash.found && flash.beginOk
    case Data(id, offset, payload) =>
      IsCurrent(d, id) && offset == d.written && 0 < |payload| <= d.imageSize - d.written && flash.writeOk
    case End(id, imageSize) =>
      IsCurrent(d, id) && imageSize == d.imageSize == d.written && flash.endOk && flash.bootOk
    case Abort(_) => true
  }

  predicate IsRefusal(o: Outcome) {
    && o.status != Success && o.status != NoAnswer
    && |o.notices| == 1 && o.notices[0].Error?
  }

  /** An END that is accepted restarts the device before it answers. */
  predicate IsAcceptance(c: Command, o: Outcome) {
    && o.status == (if c.End? then NoAnswer else Success)
    && forall i :: 0 <= i < |o.notices| ==> !o.notices[i].Error?
  }

  /** A command is accepted exactly if it is acceptable, and otherwise refused with one error notice. */
  lemma {:induction false} AcceptedIff(size: nat, d: Device, c: Command, flash: Flash)
    requires Sane(size, d) && c.Fits()
    ensures var o := Executed(size, d, c, flash);
      if Acceptable(size, d, c, flash) then IsAcceptance(c, o) else IsRefusal(o)
  {
    if c.Data? && IsCurrent(d, c.transferId) && c.offset == d.written {
      NoWrap(d.written, |c.payload|);
    }
    hide Raised;
  }

  /** An accepted command does what it is for. */
  lemma {:induction false} AcceptedDoes(size: nat, d: Device, c: Command, flash: Flash)
    requires Sane(size, d) && c.Fits() && Acceptable(size, d, c, flash)
    ensures var o := Executed(size, d, c, flash); var t := o.device;
      match c
      case Begin(imageSize, id) =>
        && IsCurrent(t, id) && t.imageSize == imageSize && t.written == 0 && t.spare == []
        && t.open == (d.open - Own(d)) + {t.handle} && o.notices == [Ready(id, imageSize)]
      case Data(_, _, payload) =>
        && t.written == d.written + |payload| && t.spare == d.spare + payload
        && IsCurrent(t, d.transferId) && t.imageSize == d.imageSize && t.open == d.open
      case End(id, _) =>
        && t.boot == Some(d.spare) && t.restarting && !t.active && t.open == d.open - {d.handle}
        && o.notices == [Done(id)]
      case Abort(id) =>
        && !t.active && t.open == (if IsCurrent(d, id) then d.open - {d.handle} else d.open)
        && t.boot == d.boot && t.spare == d.spare && o.notices == [Aborted]
  {
    if c.Data? {
      NoWrap(d.written, |c.payload|);
    }
    hide Raised;
  }

  /** A refused command says why: the wrong transfer, the wrong place, the wrong size, or the driver. */
  function Reason(size: nat, d: Device, c: Command, flash: Flash): ErrorCode {
    match c
    case Begin(imageSize, _) =>
      if !flash.found then NoPartition else if imageSize == 0 || imageSize > size then BadSize else BeginFailed
    case Data(id, offset, payload) =>
      if !IsCurrent(d, id) then NotActive
      else if offset == d.written && 0 < |payload| <= d.imageSize - d.written then WriteFailed else BadOffset
    case End(id, imageSize) =>
      if !IsCurrent(d, id) then NotActive
      else if imageSize != d.imageSize || d.written != d.imageSize then Incomplete
      else if !flash.endOk then EndFailed else SetBootFailed
    case Abort(_) => NotActive
  }

  /** The answer to the write that goes with an error report. */
  function AnswerTo(reason: ErrorCode): AttStatus {
    match reason
    case BadSize => InvalidLength
    case BadOffset => InvalidOffset
    case _ => Unlikely
  }

  /** What a refused command leaves: a refused BEGIN has given up the transfer before it, a refused DATA changes
      nothing, and a refused END gives up the transfer exactly if its whole image was there and the driver
      objected. The boot image is never touched. */
  lemma {:induction false} RefusedLeaves(size: nat, d: Device, c: Command, flash: Flash)
    requires Sane(size, d) && c.Fits() && !Acceptable(size, d, c, flash)
    ensures var o := Executed(size, d, c, flash); var t := o.device;
      && o.notices == [Error(Reason(size, d, c, flash))] && o.status == AnswerTo(Reason(size, d, c, flash))
      && t.boot == d.boot && t.restarting == d.restarting && t.spare == d.spare
      && match c
         case Begin(_, _) => !t.active && t.open == d.open - Own(d)
         case End(id, imageSize) =>
           if IsCurrent(d, id) && imageSize == d.imageSize == d.written
           then !t.active && t.open == d.open - {d.handle}
           else t == d
         case _ => t == d
  {
    if c.Data? && IsCurrent(d, c.transferId) && c.offset == d.written {
      NoWrap(d.written, |c.payload|);
    }
    hide Raised;
  }

  /** A disconnect gives up the transfer, with its handle, and nothing else. */
  lemma {:induction false} DisconnectLeaves(d: Device)
    ensures var t := Disconnected(d);
      !t.active && t.open == d.open - Own(d) && t.boot == d.boot && t.restarting == d.restarting && t.spare == d.spare
  {
  }

  // ---- nothing the driver refused is booted ----

  /** The driver took the whole image and let it be selected. */
  predicate Approves(e: Event) {
    e.Arrives? && Decode(e.buffer).Execute? && Decode(e.buffer).command.End? && e.flash.endOk && e.flash.bootOk
  }

  /** Whatever the device, the command and the driver's answers: the boot image changes or the device restarts
      only if the driver approves of the image. */
  lemma {:induction false} BootNeedsApproval(size: nat, d: Device, e: Event)
    ensures var t := OtaSafety.Step(size, d, e);
      t.boot != d.boot || t.restarting != d.restarting ==> Approves(e)
  {
    hide Decode, Raised;
  }

  /** On every run: a device that restarts into a new image was told so by an END the driver approved of. */
  lemma {:induction false} RunNeedsApproval(size: nat, d: Device, events: seq<Event>)
    ensures var t := OtaSafety.Run(size, d, events);
      t.boot != d.boot || t.restarting != d.restarting ==> exists i :: 0 <= i < |events| && Approves(events[i])
    decreases events
  {
    if events != [] {
      BootNeedsApproval(size, d, events[0]);
      RunNeedsApproval(size, OtaSafety.Step(size, d, events[0]), events[1..]);
      hide OtaSafety.Step, Approves;
      var rest := events[1..];
      if i :| 0 <= i < |rest| && Approves(rest[i]) {
        assert events[i + 1] == rest[i];
      }
    }
  }
}
