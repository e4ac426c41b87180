/**
 The macOS sender as it runs: a session record updated across callbacks, and a loop inside one of them.

 The record says what has been written so far: BEGIN, an offset into the image, END. A callback either ends
 the session or asks for the next frame.

 The loop writes chunks for as long as the peripheral takes them, so one callback may emit several frames.
 The answers of the peripheral are a parameter.
 */
module OtaMacTasks {
  import opened Optional
  import opened Bytes
  import opened OtaProtocol
  import opened OtaMac

  class FirmwareUpdate {
    const t: Transfer
    var open: bool
    var began: bool
    var offset: nat
    var ended: bool
    var reachable: bool
    var frames: seq<Command>
    var completions: seq<bool>

    function Model(): Driver
      reads this
    {
      Driver(open, began, offset, ended, reachable, frames, completions)
    }

    constructor (t: Transfer)
      ensures this.t == t && Model() == Driver(true, false, 0, false, true, [], [])
    {
      this.t := t;
      open, began, offset, ended, reachable, frames, completions := true, false, 0, false, true, [], [];
    }

    method WriteValue(frame: Command)
      modifies `frames
      ensures frames == old(frames) + [frame]
    {
      frames := frames + [frame];
    }

    method SendNextFrame(slots: nat)
      requires t.Valid() && offset <= |t.image|
      modifies this
      ensures Model() == SendNext(t, old(Model()), slots)
    {
      if !open {
        return;
      }
      if !reachable {
        FailUpdate();
        return;
      }
      if !began {
        began := true;
        WriteValue(Begin(|t.image|, t.id));
      } else if offset < |t.image| {
        SendChunks(slots);
        if offset == |t.image| {
          WriteEnd();
        }
      } else {
        WriteEnd();
      }
    }

    /** The loop over canSendWriteWithoutResponse. */
    method SendChunks(slots: nat)
      requires t.Valid() && offset <= |t.image|
      modifies `offset, `frames
      ensures offset == OffsetAfter(t, old(offset), slots) <= |t.image|
      ensures frames == old(frames) + Chunks(t, old(offset), slots)
    {
      var left := slots;
      while offset < |t.image| && left > 0
        invariant offset <= |t.image|
        invariant OffsetAfter(t, offset, left) == OffsetAfter(t, old(offset), slots)
        invariant frames + Chunks(t, offset, left) == old(frames) + Chunks(t, old(offset), slots)
        decreases left
      {
        var end := if offset + t.chunkSize < |t.image| then offset + t.chunkSize else |t.image|;
        ghost var before := frames;
        var data := Data(t.id, offset, t.image[offset..end]);
        WriteValue(data);
        offset := end;
        left := left - 1;
        assert frames + Chunks(t, offset, left) == before + ([data] + Chunks(t, offset, left));
      }
    }

    method WriteEnd()
      requires t.Valid()
      modifies `ended, `frames
      ensures Model() == SendEnd(t, old(Model()))
    {
      if !ended {
        ended := true;
        WriteValue(End(t.id, |t.image|));
      }
    }

    method FailUpdate()
      modifies `open, `frames, `completions
      ensures Model() == Fail(t, old(Model()))
    {
      if !open {
        return;
      }
      if reachable {
        WriteValue(Abort(t.id));
      }
      open := false;
      completions := completions + [false];
    }

    method OnWriteResponse(ok: bool, slots: nat)
      requires t.Valid() && offset <= |t.image|
      modifies this
      ensures Model() == Step(t, old(Model()), WriteResponse(ok, slots))
    {
      if !open {
        return;
      }
      if !ok {
        FailUpdate();
        return;
      }
      SendNextFrame(slots);
    }

    method OnReadyToSend(slots: nat)
      requires t.Valid() && offset <= |t.image|
      modifies this
      ensures Model() == Step(t, old(Model()), ReadyToSend(slots))
    {
      if open {
        SendNextFrame(slots);
      }
    }

    method OnStateChanged(event: StateEvent)
      requires t.Valid()
      modifies this
      ensures Model() == Step(t, old(Model()), StateChanged(event))
    {
      if !open {
        return;
      }
      match event {
        case Finished(id) =>
          if id.None? || id.value == t.id {
            open := false;
            completions := completions + [true];
          }
        case Failed(id) =>
          if id.None? || id.value == t.id {
            FailUpdate();
          }
        case _ =>
      }
    }

    method OnPeripheralRemoved()
      requires t.Valid()
      modifies this
      ensures Model() == Step(t, old(Model()), PeripheralRemoved)
    {
      reachable := false;
      FailUpdate();
    }

    method ClearConnectionState()
      requires t.Valid()
      modifies this
      ensures Model() == Step(t, old(Model()), ConnectionCleared)
    {
      FailUpdate();
      reachable := false;
    }
  }
}
