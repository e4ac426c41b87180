/** However writes are lost, repeated, reordered or mixed, the device boots nothing but a whole image. */
module OtaSafety {
  import opened Optional
  import opened Bytes
  import opened OtaProtocol
  import opened OtaDevice

  /** The image each transfer id stands for. */
  type Images = map<uint32, seq<byte>>

  datatype Event = Arrives(buffer: Write, flash: Flash) | Disconnects

  function Step(size: nat, d: Device, e: Event): Device {
    match e
    case Arrives(buffer, flash) => Accessed(size, d, buffer, flash).device
    case Disconnects => Disconnected(d)
  }

  /** The device reacts until it restarts into the new image. */
  ghost predicate IsRun(size: nat, d: Device, events: seq<Event>)
    decreases events
  {
    events == [] || (!d.restarting && IsRun(size, Step(size, d, events[0]), events[1..]))
  }

  function Run(size: nat, d: Device, events: seq<Event>): Device
    decreases events
  {
    if events == [] then d else Run(size, Step(size, d, events[0]), events[1..])
  }

  /** A command some host sends for one of the images; any host may abort anything. */
  ghost predicate Genuine(images: Images, c: Command) {
    match c
    case Begin(imageSize, id) => id in images && imageSize == |images[id]|
    case Data(id, offset, payload) =>
      id in images && offset + |payload| <= |images[id]| && payload == images[id][offset..offset + |payload|]
    case End(id, imageSize) => id in images && imageSize == |images[id]|
    case Abort(_) => true
  }

  /** Every write that arrives was once sent for an image, or is no command at all. */
  ghost predicate AllGenuine(images: Images, events: seq<Event>) {
    forall i :: 0 <= i < |events| && events[i].Arrives? && Decode(events[i].buffer).Execute? ==>
      Genuine(images, Decode(events[i].buffer).command)
  }

  /** What a host sends is genuine. */
  lemma {:induction false} FramesAreGenuine(images: Images, c: Command)
    requires Genuine(images, c) && c.Fits()
    ensures |Frame(c)| < 0x1_0000
    ensures Decode(Frame(c)).Execute? && Genuine(images, Decode(Frame(c)).command)
  {
    DecodeUndoesFrame(c);
    hide Decode, Frame;
  }

  ghost predicate TransferInv(images: Images, size: nat, d: Device) {
    d.active ==>
      && d.transferId in images
      && d.written <= d.imageSize == |images[d.transferId]| <= size
      && d.spare == images[d.transferId][..d.written]
      && d.nextProgress == Boundary(d.written)
  }

  ghost predicate BootInv(images: Images, d: Device) {
    && (d.boot.Some? ==> exists id :: id in images && images[id] == d.boot.value)
    && (d.boot.Some? <==> d.restarting)
  }

  // ---- one command ----

  lemma {:induction false} DataKeeps(images: Images, size: nat, d: Device, id: uint32, offset: uint32,
                                     payload: seq<byte>, flash: Flash)
    requires size <= LARGEST_PARTITION && |payload| < 0x1_0000
    requires TransferInv(images, size, d) && Genuine(images, Data(id, offset, payload))
    ensures TransferInv(images, size, Wrote(d, id, offset, payload, flash).device)
  {
    if d.active && id == d.transferId && offset == d.written {
      var image := images[id];
      NoWrap(d.written, |payload|);
      RaisedIsBoundary(d.written / PROGRESS_STEP + 1, d.written + |payload|);
      if d.written + |payload| < d.nextProgress {
        BoundaryHolds(d.written, d.written + |payload|);
      }
      assert image[..offset] + payload == image[..offset + |payload|];
      assert d.nextProgress == (d.written / PROGRESS_STEP + 1) * PROGRESS_STEP;
      hide Boundary, Raised;
    }
  }

  lemma {:induction false} CommandKeeps(images: Images, size: nat, d: Device, c: Command, flash: Flash)
    requires size <= LARGEST_PARTITION && c.Fits()
    requires TransferInv(images, size, d) && Genuine(images, c)
    ensures TransferInv(images, size, Executed(size, d, c, flash).device)
  {
    match c {
      case Begin(imageSize, id) =>
      case Data(id, offset, payload) => DataKeeps(images, size, d, id, offset, payload, flash);
      case End(_, _) => hide Boundary;
      case Abort(_) => hide Boundary;
    }
  }

  /** The boot image changes only by the END of the active transfer, once its whole image is written. */
  lemma {:induction false} BootSwitch(images: Images, size: nat, d: Device, c: Command, flash: Flash)
    requires TransferInv(images, size, d)
    ensures var o := Executed(size, d, c, flash);
      o.device.boot != d.boot || o.device.restarting != d.restarting ==>
        && c.End? && d.active && c.transferId == d.transferId && d.transferId in images
        && o.device.boot == Some(images[d.transferId]) && o.device.restarting
        && o.notices == [Done(c.transferId)]
  {
    hide Boundary, Raised;
    match c {
      case Begin(_, _) =>
      case Data(_, _, _) =>
      case End(id, imageSize) =>
        if d.active && d.written == d.imageSize {
          assert images[d.transferId][..d.written] == images[d.transferId];
        }
      case Abort(_) =>
    }
  }

  lemma {:induction false} StepKeeps(images: Images, size: nat, d: Device, e: Event)
    requires size <= LARGEST_PARTITION && TransferInv(images, size, d) && BootInv(images, d) && !d.restarting
    requires AllGenuine(images, [e])
    ensures TransferInv(images, size, Step(size, d, e)) && BootInv(images, Step(size, d, e))
  {
    match e {
      case Disconnects =>
      case Arrives(buffer, flash) =>
        assert [e][0] == e;
        if Decode(buffer).Execute? {
          var c := Decode(buffer).command;
          hide Decode, Genuine;
          CommandKeeps(images, size, d, c, flash);
          BootSwitch(images, size, d, c, flash);
          hide Executed, TransferInv;
        }
    }
  }

  /** Whatever is lost, repeated, reordered or interleaved: the partition holds the same prefix of the
      active transfer's image as the device counts, and only a whole image is ever booted. */
  lemma {:induction false} OnlyWholeImagesBoot(images: Images, size: nat, events: seq<Event>)
    requires size <= LARGEST_PARTITION && IsRun(size, Fresh(), events) && AllGenuine(images, events)
    ensures TransferInv(images, size, Run(size, Fresh(), events))
    ensures BootInv(images, Run(size, Fresh(), events))
  {
    RunKeeps(images, size, Fresh(), events);
  }

  lemma {:induction false} RunKeeps(images: Images, size: nat, d: Device, events: seq<Event>)
    requires size <= LARGEST_PARTITION && TransferInv(images, size, d) && BootInv(images, d)
    requires IsRun(size, d, events) && AllGenuine(images, events)
    ensures TransferInv(images, size, Run(size, d, events)) && BootInv(images, Run(size, d, events))
    decreases events
  {
    if events != [] {
      assert AllGenuine(images, [events[0]]) && AllGenuine(images, events[1..]) by {
        hide Genuine, Decode;
      }
      StepKeeps(images, size, d, events[0]);
      hide Step, TransferInv, BootInv, AllGenuine;
      RunKeeps(images, size, Step(size, d, events[0]), events[1..]);
    }
  }

  // ---- driver handles ----

  /** The handle the device still knows. */
  function Own(d: Device): set<nat> {
    if d.active then {d.handle} else {}
  }

  ghost predicate HandleInv(d: Device) {
    && Own(d) <= d.open
    && (forall h :: h in d.open ==> h < d.handles)
  }

  predicate NothingLeaked(d: Device) {
    d.open == Own(d)
  }

  /** An ABORT that names another transfer than the active one. */
  predicate ForeignAbort(d: Device, e: Event) {
    && e.Arrives? && Decode(e.buffer).Execute?
    && d.active
    && Decode(e.buffer).command.Abort? && Decode(e.buffer).command.transferId != d.transferId
  }

  /** A handle leaks exactly when some ABORT on the way named another transfer than the active one. */
  lemma {:induction false} LeakIff(size: nat, d: Device, events: seq<Event>)
    requires HandleInv(d) && NothingLeaked(d)
    ensures NothingLeaked(Run(size, d, events))
      <==> forall i :: 0 <= i < |events| ==> !ForeignAbort(Run(size, d, events[..i]), events[i])
  {
    LeakSet(size, d, events);
  }

  ghost function Leaked(d: Device): set<nat> {
    d.open - Own(d)
  }

  lemma {:induction false} StepLeaks(size: nat, d: Device, e: Event)
    requires HandleInv(d)
    ensures HandleInv(Step(size, d, e))
    ensures Leaked(Step(size, d, e)) == Leaked(d) + (if ForeignAbort(d, e) then {d.handle} else {})
  {
    hide Decode;
    if e.Arrives? && Decode(e.buffer).Execute? {
      hide Executed;
    }
  }

  lemma {:induction false} LeakSet(size: nat, d: Device, events: seq<Event>)
    requires HandleInv(d)
    ensures HandleInv(Run(size, d, events))
    ensures Leaked(d) <= Leaked(Run(size, d, events))
    ensures Leaked(Run(size, d, events)) == {}
      <==> Leaked(d) == {} && forall i :: 0 <= i < |events| ==> !ForeignAbort(Run(size, d, events[..i]), events[i])
    decreases events
  {
    if events != [] {
      var next, rest := Step(size, d, events[0]), events[1..];
      StepLeaks(size, d, events[0]);
      LeakSet(size, next, rest);
      forall i | 0 < i < |events|
        ensures Run(size, d, events[..i]) == Run(size, next, rest[..i - 1]) && events[i] == rest[i - 1]
      {
        assert events[..i][1..] == rest[..i - 1];
      }
      assert Run(size, d, events[..0]) == d;
      hide Step, ForeignAbort, Run;
      assert forall i :: 0 <= i < |rest| ==>
        (rest[i] == events[i + 1] && Run(size, d, events[..i + 1]) == Run(size, next, rest[..i]));
    }
  }
}
