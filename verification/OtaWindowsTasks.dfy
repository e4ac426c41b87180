/**
 The Windows sender as it runs: the coroutine between two awaits, and the handlers that run beside it.

 The coroutine keeps its offset and the last reported progress in locals; they are fields here because the
 coroutine is cut at its awaits. The handlers change the session record that the coroutine looks at when it
 resumes.

 Each method is proved to be the host's part of a step of the conversation.
 */
module OtaWindowsTasks {
  import opened Bytes
  import opened OtaProtocol
  import opened OtaDevice
  import opened OtaWindows
  import H = OtaWindowsHost

  class UpdateSession {
    const t: Transfer
    var phase: Phase
    var offset: nat
    var deviceConfirmedWritten: nat
    var open: bool
    var cancelRequested: bool
    var completions: seq<bool>
    var writes: seq<Command>

    function Model(): Host
      reads this
    {
      Host(phase, offset, deviceConfirmedWritten, open, cancelRequested, completions)
    }

    constructor (t: Transfer)
      ensures this.t == t && Model() == Initial().host && writes == []
    {
      this.t := t;
      phase, offset, deviceConfirmedWritten, open, cancelRequested := Idle, 0, 0, true, false;
      completions, writes := [], [];
    }

    /** One round of the coroutine. While the window is shut or confirmation is missing it only waits; once
        cancelled it returns from either loop; the final wait gives up when its ten seconds are over. */
    method Proceed(tenSecondsOver: bool) returns (waits: bool)
      requires |t.image| < TWO_TO_THE_32 && (phase.Idle? || phase.Sending?)
      modifies this
      ensures var h := old(Model());
        if H.MustStop(t, h) then !waits && Model() == h.(phase := Returned) && writes == old(writes)
        else if CanAct(t, h) then !waits && Model() == Act(t, h).0 && writes == old(writes) + [Act(t, h).1]
        else if CanTimeOut(t, h) && tenSecondsOver then !waits && Model() == TimeOut(h) && writes == old(writes)
        else waits && Model() == h && writes == old(writes)
    {
      waits := false;
      if phase.Idle? {
        WriteBegin();
      } else if cancelRequested && (offset < |t.image| || deviceConfirmedWritten < |t.image|) {
        phase := Returned;
      } else if offset < |t.image| {
        if t.withoutResponse && offset > deviceConfirmedWritten + MAX_IN_FLIGHT {
          return true;
        }
        WriteChunk();
      } else if deviceConfirmedWritten >= |t.image| {
        writes := writes + [End(t.id, |t.image|)];
        phase := AwaitEnd;
      } else if tenSecondsOver {
        phase := Returned;
        FinishFirmwareUpdate(false);
      } else {
        waits := true;
      }
    }

    method WriteBegin()
      requires |t.image| < TWO_TO_THE_32
      modifies `phase, `writes
      ensures phase == AwaitBegin && writes == old(writes) + [Begin(|t.image|, t.id)]
    {
      writes := writes + [Begin(|t.image|, t.id)];
      phase := AwaitBegin;
    }

    method WriteChunk()
      requires offset < |t.image| < TWO_TO_THE_32
      modifies `offset, `phase, `writes
      ensures var end := ChunkEnd(t, old(Model()));
        && writes == old(writes) + [Data(t.id, old(offset), t.image[old(offset)..end])]
        && (if t.withoutResponse then offset == end && phase == old(phase)
            else offset == old(offset) && phase == AwaitData(end))
    {
      var end := if offset + t.chunkSize < |t.image| then offset + t.chunkSize else |t.image|;
      writes := writes + [Data(t.id, offset, t.image[offset..end])];
      if t.withoutResponse {
        offset := end;
      } else {
        phase := AwaitData(end);
      }
    }

    /** The answer to a write that waits for one. */
    method OnWriteStatus(status: AttStatus)
      modifies this
      ensures Model() == OnStatus(old(Model()), status) && writes == old(writes)
    {
      match phase {
        case AwaitBegin =>
          if status == Success {
            phase := Sending;
          } else {
            phase := Returned;
            FinishFirmwareUpdate(false);
          }
        case AwaitData(end) =>
          if status == Success {
            phase := Sending;
            offset := end;
          } else {
            phase := Returned;
            FinishFirmwareUpdate(false);
          }
        case AwaitEnd =>
          phase := Returned;
          if status != Success {
            FinishFirmwareUpdate(false);
          }
        case _ =>
      }
    }

    /** A write that threw, or that was refused without an answer. */
    method OnWriteFailure()
      modifies this
      ensures Model() == H.Failed(old(Model())) && writes == old(writes)
    {
      if !phase.Idle? && !phase.Returned? {
        phase := Returned;
        FinishFirmwareUpdate(false);
      }
    }

    method CancelFirmwareUpdate(connected: bool)
      modifies this
      ensures Model() == H.Cancelled(old(Model()))
      ensures writes == old(writes) + if old(open) && connected then [Abort(t.id)] else []
    {
      if !open {
        return;
      }
      cancelRequested := true;
      if connected {
        writes := writes + [Abort(t.id)];
      }
      FinishFirmwareUpdate(false);
    }

    method OnDisconnect()
      modifies `open, `completions
      ensures Model() == Finish(old(Model()), false)
    {
      FinishFirmwareUpdate(false);
    }

    method OnStateEvent(notice: Notice)
      modifies this
      ensures Model() == OnNotice(t, old(Model()), notice) && writes == old(writes)
    {
      if !open {
        return;
      }
      match notice {
        case Progress(id, written, _) =>
          if id == t.id && t.hasProgress {
            deviceConfirmedWritten := written;
          }
        case Done(id) =>
          if id == t.id {
            FinishFirmwareUpdate(true);
          }
        case Error(_) => FinishFirmwareUpdate(false);
        case _ =>
      }
    }

    method FinishFirmwareUpdate(success: bool)
      modifies `open, `completions
      ensures Model() == Finish(old(Model()), success)
    {
      if open {
        open := false;
        completions := completions + [success];
      }
    }
  }
}
