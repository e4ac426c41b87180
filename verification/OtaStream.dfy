/**
 An image on its way: consecutive data frames, and a device that takes them.
 */
module OtaStream {
  import opened Optional
  import opened Bytes
  import opened OtaProtocol
  import opened OtaDevice

  /** A flash driver that never fails. */
  const SOUND: Flash := Flash(true, true, true, true, true)

  /** Data frames for consecutive stretches of the image, from one offset to another. */
  ghost predicate Chain(id: uint32, image: seq<byte>, chunkSize: nat, frames: seq<Command>, from: nat, to: nat)
    decreases frames
  {
    if frames == [] then from == to
    else
      && frames[0].Data? && frames[0].transferId == id && frames[0].offset == from
      && 0 < |frames[0].payload| <= chunkSize
      && from + |frames[0].payload| <= to <= |image|
      && frames[0].payload == image[from..from + |frames[0].payload|]
      && Chain(id, image, chunkSize, frames[1..], from + |frames[0].payload|, to)
  }

  lemma {:induction false} ChainIsData(id: uint32, image: seq<byte>, chunkSize: nat, frames: seq<Command>,
                                       from: nat, to: nat)
    requires Chain(id, image, chunkSize, frames, from, to)
    ensures forall i :: 0 <= i < |frames| ==> frames[i].Data?
    decreases frames
  {
    if frames != [] {
      ChainIsData(id, image, chunkSize, frames[1..], from + |frames[0].payload|, to);
      assert forall i :: 0 < i < |frames| ==> frames[i] == frames[1..][i - 1];
    }
  }

  lemma {:induction false} ChainOfOne(id: uint32, image: seq<byte>, chunkSize: nat, from: nat, to: nat)
    requires from < to <= |image| < TWO_TO_THE_32 && to - from <= chunkSize
    ensures Chain(id, image, chunkSize, [Data(id, from, image[from..to])], from, to)
  {
    assert [Data(id, from, image[from..to])][1..] == [];
  }

  lemma {:induction false} ChainJoin(id: uint32, image: seq<byte>, chunkSize: nat, front: seq<Command>, back: seq<Command>,
                                     from: nat, mid: nat, to: nat)
    requires Chain(id, image, chunkSize, front, from, mid) && Chain(id, image, chunkSize, back, mid, to)
    requires mid <= to <= |image|
    ensures Chain(id, image, chunkSize, front + back, from, to)
    decreases front
  {
    if front == [] {
      assert front + back == back;
    } else {
      ChainJoin(id, image, chunkSize, front[1..], back, from + |front[0].payload|, mid, to);
      assert (front + back)[1..] == front[1..] + back;
    }
  }

  /** The device is in the middle of this transfer, with nothing committed yet. */
  ghost predicate Holds(id: uint32, image: seq<byte>, partitionSize: nat, d: Device) {
    && d.active && d.transferId == id && d.imageSize == |image| <= partitionSize
    && d.written <= |image| && d.spare == image[..d.written]
    && d.nextProgress == Boundary(d.written)
    && d.boot.None? && !d.restarting
  }

  /** The next data frame is taken, and reported when it crosses a report boundary or ends the image. */
  lemma {:induction false} DataTaken(id: uint32, image: seq<byte>, partitionSize: nat, d: Device, c: Command)
    requires partitionSize <= LARGEST_PARTITION && Holds(id, image, partitionSize, d)
    requires c.Data? && Chain(id, image, 244, [c], d.written, d.written + |c.payload|)
    ensures var o := Executed(partitionSize, d, c, SOUND);
      && o.status == Success
      && Holds(id, image, partitionSize, o.device)
      && o.device.written == d.written + |c.payload|
      && o.device.open == d.open && o.device.handle == d.handle && o.device.handles == d.handles
      && o.notices == (if o.device.written >= d.nextProgress || o.device.written == |image|
                       then [Progress(id, o.device.written, |image|)] else [])
      && (o.notices == [] ==> Boundary(o.device.written) == Boundary(d.written))
  {
    var to := d.written + |c.payload|;
    assert [c][0] == c;
    NoWrap(d.written, |c.payload|);
    if to >= d.nextProgress || to == |image| {
      RaisedIsBoundary(d.written / PROGRESS_STEP + 1, to);
    } else {
      BoundaryHolds(d.written, to);
    }
    assert image[..d.written] + c.payload == image[..to];
    assert d.nextProgress == (d.written / PROGRESS_STEP + 1) * PROGRESS_STEP;
    hide Boundary, Raised;
  }

  lemma {:induction false} ChainHead(id: uint32, image: seq<byte>, chunkSize: nat, frames: seq<Command>, from: nat, to: nat)
    requires Chain(id, image, chunkSize, frames, from, to) && frames != [] && chunkSize <= 244
    ensures frames[0].Data? && Chain(id, image, 244, [frames[0]], from, from + |frames[0].payload|)
    ensures Chain(id, image, chunkSize, frames[1..], from + |frames[0].payload|, to)
    ensures from + |frames[0].payload| <= to <= |image|
  {
    assert [frames[0]][1..] == [];
  }
}
