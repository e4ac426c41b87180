/**
 The recognition client as it runs: fields changed by blocks on its serial queue.

 A block runs to its end before the next one, so each method is one event of the session machine: a call of
 the owner, or a message of the server. The flush loop and the search for a marked chunk are loops here as
 they are in the source.

 Every method leaves the state that the function for its event computes; what is proved about runs of the
 functions is proved about the object.
 */
module AsrTasks {
  import opened Optional
  import opened AsrSession

  class AsrClient {
    var connection: Connection
    var session: Session
    var current: Option<nat>
    var queued: seq<Chunk>
    var socket: bool
    var nextId: nat
    var wire: seq<Frame>
    var given: seq<Chunk>
    var said: seq<Word>
    var ended: seq<Ended>

    function Model(): Client
      reads this
    {
      Client(connection, session, current, queued, socket, nextId, wire, given, said, ended)
    }

    constructor ()
      ensures Model() == Fresh()
    {
      connection, session, current, queued, socket := Disconnected, Idle, None, [], false;
      nextId, wire, given, said, ended := 0, [], [], [], [];
    }

    method ResetSession(how: How)
      modifies this
      ensures Model() == Retire(old(Model()), how)
    {
      queued := [];
      if current.Some? {
        ended := ended + [Ended(current.value, how, given, said)];
      }
      current := None;
      session := Idle;
    }

    method CloseWebSocket()
      modifies this
      ensures Model() == CloseSocket(old(Model()))
    {
      socket := false;
      connection := Disconnected;
    }

    method Fail()
      modifies this
      ensures Model() == FailSession(old(Model()))
    {
      ResetSession(How.Failed);
      CloseWebSocket();
    }

    method SendFrame(frame: Frame)
      modifies this
      ensures Model() == Emit(old(Model()), frame)
    {
      if !socket {
        Fail();
        return;
      }
      wire := wire + [frame];
    }

    method ConnectWebSocket()
      modifies this
      ensures Model() == Connect(old(Model()))
    {
      connection := Connecting;
      socket := true;
      SendFrame(Frame.StartConnection);
    }

    method SendStartSession()
      modifies this
      ensures Model() == SendStart(old(Model()))
    {
      if current.None? {
        Fail();
        return;
      }
      SendFrame(StartSession(current.value));
    }

    method OnBegin()
      modifies this
      ensures Model() == Step(old(Model()), Begin)
    {
      if session != Idle {
        return;
      }
      current := Some(nextId);
      nextId := nextId + 1;
      queued := [];
      given := [];
      said := [];
      session := Starting;
      match connection {
        case Ready => SendStartSession();
        case Disconnected => ConnectWebSocket();
        case Connecting =>
      }
    }

    method SendTaskRequest(data: seq<int>)
      modifies this
      ensures Model() == SendTask(old(Model()), data)
    {
      if current.Some? {
        SendFrame(TaskRequest(current.value, data));
      }
    }

    method AnyLast(chunks: seq<Chunk>) returns (found: bool)
      ensures found == HasLast(chunks)
    {
      found := false;
      for i := 0 to |chunks|
        invariant HasLast(chunks) == HasLast(chunks[i..])
      {
        if chunks[i].isLast {
          return true;
        }
        assert chunks[i..][1..] == chunks[i + 1..];
      }
    }

    method FinishSessionIfNeeded()
      modifies this
      ensures Model() == FinishIfNeeded(old(Model()))
    {
      if session == Starting {
        var found := AnyLast(queued);
        if !found {
          queued := queued + [Chunk([], true)];
          given := given + [Chunk([], true)];
        }
        return;
      }
      if session != Streaming || current.None? {
        return;
      }
      session := Finishing;
      SendFrame(FinishSession(current.value));
    }

    method StreamChunk(chunk: Chunk)
      modifies this
      ensures Model() == Streamed(old(Model()), chunk)
    {
      SendTaskRequest(chunk.data);
      if chunk.isLast {
        FinishSessionIfNeeded();
      }
    }

    method Hear(w: Word)
      modifies `said
      ensures Model() == Heard(old(Model()), w)
    {
      if current.Some? {
        said := said + [w];
      }
    }

    method OnFinish()
      modifies this
      ensures Model() == Step(old(Model()), Finish)
    {
      Hear(Closed(session == Starting && !HasLast(queued)));
      FinishSessionIfNeeded();
    }

    method OnSend(chunk: Chunk)
      modifies this
      ensures Model() == Step(old(Model()), Send(chunk))
    {
      Hear(Gave(chunk));
      match session {
        case Starting =>
          queued := queued + [chunk];
          given := given + [chunk];
        case Streaming =>
          given := given + [chunk];
          StreamChunk(chunk);
        case Finishing =>
        case Idle => queued := queued + [chunk];
      }
    }

    method FlushQueuedChunks()
      modifies this
      ensures Model() == Flush(old(Model()).(queued := []), old(queued))
    {
      var chunks := queued;
      queued := [];
      ghost var start := Model();
      hide Streamed;
      for i := 0 to |chunks|
        invariant Flush(Model(), chunks[i..]) == Flush(start, chunks)
      {
        assert chunks[i..][0] == chunks[i] && chunks[i..][1..] == chunks[i + 1..];
        StreamChunk(chunks[i]);
      }
    }

    method OnSessionStarted(id: nat)
      modifies this
      ensures Model() == Step(old(Model()), SessionStarted(id))
    {
      if current != Some(id) {
        return;
      }
      session := Streaming;
      FlushQueuedChunks();
    }

    method OnCancel()
      modifies this
      ensures Model() == Step(old(Model()), Cancel)
    {
      if session != Idle && current.Some? {
        SendFrame(CancelSession(current.value));
      }
      ResetSession(Cancelled);
    }

    method OnConnectionStarted()
      modifies this
      ensures Model() == Step(old(Model()), Event.ConnectionStarted)
    {
      connection := Ready;
      if session == Starting {
        SendStartSession();
      }
    }

    method OnSessionFinished(id: nat)
      modifies this
      ensures Model() == Step(old(Model()), SessionFinished(id))
    {
      if current == Some(id) {
        ResetSession(Final);
      }
    }

    method OnReceiveFailure()
      modifies this
      ensures Model() == Step(old(Model()), ReceiveFails)
    {
      if session == Idle {
        CloseWebSocket();
      } else {
        Fail();
      }
    }
  }
}
