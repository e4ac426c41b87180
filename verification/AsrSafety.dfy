/**
 What any run of the recognition client writes about each session, and how each session ends.

 A session's trace grows from nothing to StartSession, then by the chunks it takes, and ends with
 FinishSession; a cancellation adds one last word. Each step is shown to keep the current session's trace at
 its stage and to leave all other traces alone.

 Sessions that are over keep a legal trace and their own ending.
 */
module AsrSafety {
  import opened Optional
  import opened AsrSession

  // ---- the shape of a session's trace ----

  function Tasks(id: nat, chunks: seq<Chunk>): (frames: seq<Frame>)
    ensures |frames| == |chunks|
  {
    seq(|chunks|, i requires 0 <= i < |chunks| => TaskRequest(id, chunks[i].data))
  }

  /** How many chunks precede the end of the session: up to the first one marked last. */
  function Mark(chunks: seq<Chunk>): (n: nat)
    ensures n <= |chunks|
  {
    if chunks == [] then 0 else if chunks[0].isLast then 1 else 1 + Mark(chunks[1..])
  }

  /** StartSession, the chunks, FinishSession behind the first chunk marked last, and what came after it. */
  function Full(id: nat, given: seq<Chunk>): seq<Frame> {
    [StartSession(id)] + Tasks(id, given[..Mark(given)]) + [FinishSession(id)] + Tasks(id, given[Mark(given)..])
  }

  /** A trace without cancellation: nothing, a start and the first chunks, or everything. */
  ghost predicate Uncancelled(t: seq<Frame>, id: nat, given: seq<Chunk>) {
    || t == []
    || (exists m :: 0 <= m <= |given| && t == [StartSession(id)] + Tasks(id, given[..m]))
    || t == Full(id, given)
  }

  ghost predicate Legal(t: seq<Frame>, e: Ended) {
    || Uncancelled(t, e.id, e.given)
    || (&& e.how == Cancelled && t != [] && t[|t| - 1] == CancelSession(e.id)
        && Uncancelled(t[..|t| - 1], e.id, e.given))
  }

  ghost predicate CurrentInv(c: Client) {
    && (c.current.None? <==> c.session == Idle)
    && (c.current.Some? ==> c.current.value < c.nextId)
    && (c.current.Some? ==> Stage(c, Trace(c.wire, c.current.value)))
  }

  ghost predicate Stage(c: Client, t: seq<Frame>)
    requires c.current.Some?
  {
    var id := c.current.value;
    match c.session
    case Idle => false
    case Starting =>
      && c.queued == c.given
      && (t == [] || (t == [StartSession(id)] && c.connection != Connecting))
    case Streaming => c.queued == [] && !HasLast(c.given) && t == [StartSession(id)] + Tasks(id, c.given)
    case Finishing => t == Full(id, c.given)
  }

  ghost predicate EndedInv(c: Client) {
    && (forall k :: 0 <= k < |c.ended| ==>
          && c.ended[k].id < c.nextId && c.current != Some(c.ended[k].id)
          && Legal(Trace(c.wire, c.ended[k].id), c.ended[k]))
    && (forall k, l :: 0 <= k < l < |c.ended| ==> c.ended[k].id != c.ended[l].id)
  }

  /** Nothing was written about sessions to come. */
  ghost predicate FutureInv(c: Client) {
    forall id: nat :: id >= c.nextId ==> Trace(c.wire, id) == []
  }

  ghost predicate Inv(c: Client) {
    CurrentInv(c) && EndedInv(c) && FutureInv(c)
  }

  // ---- chunks ----

  lemma {:induction false} LastConcat(a: seq<Chunk>, b: seq<Chunk>)
    ensures HasLast(a + b) <==> HasLast(a) || HasLast(b)
    ensures HasLast(a) ==> Mark(a + b) == Mark(a)
    ensures !HasLast(a) ==> Mark(a + b) == |a| + Mark(b)
  {
    if a == [] {
      assert a + b == b;
    } else {
      LastConcat(a[1..], b);
      assert (a + b)[1..] == a[1..] + b;
    }
  }

  lemma {:induction false} MarkOfUnmarked(chunks: seq<Chunk>)
    requires !HasLast(chunks)
    ensures Mark(chunks) == |chunks|
  {
    if chunks != [] {
      MarkOfUnmarked(chunks[1..]);
    }
  }

  /** Without a mark before its end, a session's trace ends with FinishSession. */
  lemma {:induction false} FullOfUnmarked(id: nat, chunks: seq<Chunk>)
    requires !HasLast(chunks)
    ensures Full(id, chunks) == [StartSession(id)] + Tasks(id, chunks) + [FinishSession(id)]
  {
    MarkOfUnmarked(chunks);
    assert chunks[..|chunks|] == chunks;
  }

  lemma {:induction false} FullAppend(id: nat, chunks: seq<Chunk>, chunk: Chunk)
    ensures HasLast(chunks) ==> Full(id, chunks + [chunk]) == Full(id, chunks) + [TaskRequest(id, chunk.data)]
    ensures !HasLast(chunks) && chunk.isLast ==>
      Full(id, chunks + [chunk])
      == [StartSession(id)] + Tasks(id, chunks) + [TaskRequest(id, chunk.data)] + [FinishSession(id)]
    ensures HasLast(chunks + [chunk]) <==> HasLast(chunks) || chunk.isLast
  {
    var more := chunks + [chunk];
    LastConcat(chunks, [chunk]);
    assert [chunk][1..] == [];
    if HasLast(chunks) {
      var n := Mark(chunks);
      assert more[..n] == chunks[..n] && more[n..] == chunks[n..] + [chunk];
    } else if chunk.isLast {
      assert Mark(more) == |more| && more[..|more|] == more;
    }
  }

  // ---- traces ----

  /** Traces of all sessions but one are as before. */
  ghost predicate OthersKept(c: Client, d: Client, id: nat) {
    forall other: nat :: other != id ==> Trace(d.wire, other) == Trace(c.wire, other)
  }

  lemma {:induction false} EmitTrace(c: Client, f: Frame, id: nat)
    requires c.socket && (f.About(id) || f.StartConnection?)
    ensures Trace(Emit(c, f).wire, id) == Trace(c.wire, id) + if f.About(id) then [f] else []
    ensures OthersKept(c, Emit(c, f), id)
  {
    forall other: nat
      ensures Trace(c.wire + [f], other) == Trace(c.wire, other) + if f.About(other) then [f] else []
    {
    }
  }

  // ---- endings ----

  /** From an invariant state whose session went on as d did, ending the session keeps the invariant. */
  lemma {:induction false} RetireKeeps(c: Client, d: Client, how: How)
    requires EndedInv(c) && FutureInv(c)
    requires d.current.Some? ==> c.current == d.current && d.current.value < d.nextId
    requires d.current.Some? ==> OthersKept(c, d, d.current.value)
    requires d.current.Some? ==> Legal(Trace(d.wire, d.current.value), Ended(d.current.value, how, d.given, d.said))
    requires d.current.None? ==> d.wire == c.wire
    requires d.ended == c.ended && d.nextId == c.nextId
    ensures Inv(Retire(d, how)) && Inv(FailSession(d).(ended := Retire(d, how).ended))
  {
    hide Trace, Legal;
    var r := Retire(d, how);
    if d.current.None? {
      assert EndedInv(r);
    }
  }

  lemma {:induction false} StageIsUncancelled(c: Client)
    requires CurrentInv(c) && c.current.Some?
    ensures Uncancelled(Trace(c.wire, c.current.value), c.current.value, c.given)
  {
    var id, t := c.current.value, Trace(c.wire, c.current.value);
    hide Trace, Full;
    match c.session {
      case Starting =>
        if t != [] {
          assert t == [StartSession(id)] + Tasks(id, c.given[..0]);
        }
      case Streaming =>
        assert c.given[..|c.given|] == c.given;
      case _ =>
    }
  }

  lemma {:induction false} FailKeeps(c: Client)
    requires Inv(c)
    ensures Inv(FailSession(c)) && Inv(Retire(c, Final)) && Inv(Retire(c, Cancelled))
  {
    if c.current.Some? {
      StageIsUncancelled(c);
    }
    hide Trace, Uncancelled, Stage;
    RetireKeeps(c, c, How.Failed);
    RetireKeeps(c, c, Final);
    RetireKeeps(c, c, Cancelled);
  }

  // ---- sending ----

  /** The trace of a started session to which chunks were sent. */
  function Sent(id: nat, chunks: seq<Chunk>): seq<Frame> {
    if HasLast(chunks) then Full(id, chunks) else [StartSession(id)] + Tasks(id, chunks)
  }

  predicate Sending(c: Client, id: nat, sent: seq<Chunk>) {
    && c.socket && c.current == Some(id)
    && c.session == (if HasLast(sent) then Finishing else Streaming)
    && Trace(c.wire, id) == Sent(id, sent)
  }

  lemma {:induction false} SentAppend(id: nat, sent: seq<Chunk>, chunk: Chunk)
    ensures Sent(id, sent + [chunk])
         == Sent(id, sent) + [TaskRequest(id, chunk.data)]
            + if !HasLast(sent) && chunk.isLast then [FinishSession(id)] else []
    ensures HasLast(sent + [chunk]) <==> HasLast(sent) || chunk.isLast
  {
    FullAppend(id, sent, chunk);
    hide Full, HasLast;
    assert Tasks(id, [chunk]) == [TaskRequest(id, chunk.data)];
    var before := Sent(id, sent) + [TaskRequest(id, chunk.data)];
    assert before + [] == before;
  }

  /** One chunk through the open socket, in the loop or on its own. */
  lemma {:induction false} StreamedSends(c: Client, id: nat, sent: seq<Chunk>, chunk: Chunk)
    requires Sending(c, id, sent)
    ensures var d := Streamed(c, chunk);
      && Sending(d, id, sent + [chunk]) && OthersKept(c, d, id)
      && d == c.(session := d.session, wire := d.wire)
  {
    SentAppend(id, sent, chunk);
    EmitTrace(c, TaskRequest(id, chunk.data), id);
    var told := SendTask(c, chunk.data);
    if chunk.isLast && told.session == Streaming {
      EmitTrace(told.(session := Finishing), FinishSession(id), id);
    }
    hide Trace, Sent, HasLast;
    var d := Streamed(c, chunk);
    assert Sent(id, sent) + [TaskRequest(id, chunk.data)] + [] == Sent(id, sent) + [TaskRequest(id, chunk.data)];
  }

  lemma {:induction false} FlushSends(c: Client, id: nat, sent: seq<Chunk>, chunks: seq<Chunk>)
    requires Sending(c, id, sent)
    ensures var d := Flush(c, chunks);
      && Sending(d, id, sent + chunks) && OthersKept(c, d, id)
      && d == c.(session := d.session, wire := d.wire)
    decreases chunks
  {
    if chunks == [] {
      assert sent + chunks == sent;
    } else {
      StreamedSends(c, id, sent, chunks[0]);
      hide Streamed, Sending, Trace;
      FlushSends(Streamed(c, chunks[0]), id, sent + [chunks[0]], chunks[1..]);
      assert sent + [chunks[0]] + chunks[1..] == sent + chunks;
    }
  }

  // ---- every step ----

  lemma {:induction false} BegunKeeps(c: Client)
    requires Inv(c) && c.session == Idle
    ensures Inv(Begun(c)) && Trace(Begun(c).wire, c.nextId) == []
  {
    hide Trace, Legal;
    assert Trace(Begun(c).wire, c.nextId) == [];
  }

  lemma {:induction false} BeginKeeps(c: Client)
    requires Inv(c) && c.session == Idle
    ensures Inv(BeginSession(c))
  {
    BegunKeeps(c);
    hide Inv, Trace, SendStart, Connect;
    var begun := Begun(c);
    assert begun.current == Some(c.nextId) && begun.session == Starting && begun.connection == c.connection;
    hide Begun, CloseSocket;
    if c.connection == Ready {
      SendStartKeeps(begun, c.nextId);
    } else if c.connection != Connecting {
      ConnectKeeps(begun, c.nextId);
    }
  }

  lemma {:induction false} SendStartKeeps(begun: Client, id: nat)
    requires Inv(begun) && begun.current == Some(id) && begun.session == Starting && Trace(begun.wire, id) == []
    requires begun.connection != Connecting
    ensures Inv(SendStart(begun))
  {
    hide Inv, Trace;
    if begun.socket {
      StartedStage(begun, SendStart(begun), id, StartSession(id));
    } else {
      FailKeeps(begun);
    }
  }

  lemma {:induction false} ConnectKeeps(begun: Client, id: nat)
    requires Inv(begun) && begun.current == Some(id) && begun.session == Starting && Trace(begun.wire, id) == []
    ensures Inv(Connect(begun))
  {
    hide Inv, Trace;
    StartedStage(begun, Connect(begun), id, StartConnection);
  }

  lemma {:induction false} StartedStage(begun: Client, d: Client, id: nat, f: Frame)
    requires Inv(begun) && begun.current == Some(id) && begun.session == Starting && Trace(begun.wire, id) == []
    requires f == StartConnection || (f == StartSession(id) && d.connection != Connecting)
    requires d == begun.(connection := d.connection, socket := d.socket, wire := begun.wire + [f])
    ensures Inv(d)
  {
    EmitTrace(begun.(socket := true), f, id);
    hide Trace, Legal;
    assert CurrentInv(d);
  }

  lemma {:induction false} StreamingSendKeeps(c: Client, chunk: Chunk)
    requires Inv(c) && c.session == Streaming
    ensures Inv(SendChunk(c, chunk))
  {
    var id, more := c.current.value, c.given + [chunk];
    var fed := c.(given := more);
    if c.socket {
      StreamedSends(fed, id, c.given, chunk);
      hide Trace, Streamed, Sending, Stage, Legal;
    } else {
      assert more[..|c.given|] == c.given;
      assert Uncancelled(Trace(c.wire, id), id, more);
      hide Trace, Uncancelled, HasLast, Full;
      RetireKeeps(c, fed, How.Failed);
      assert SendChunk(c, chunk) == FailSession(fed);
    }
  }

  lemma {:induction false} SendKeeps(c: Client, chunk: Chunk)
    requires Inv(c)
    ensures Inv(SendChunk(c, chunk))
  {
    if c.session == Streaming {
      StreamingSendKeeps(c, chunk);
    } else {
      hide Trace, Legal, HasLast;
    }
  }

  lemma {:induction false} HeardKeeps(c: Client, w: Word)
    requires Inv(c)
    ensures Inv(Heard(c, w))
  {
    hide Trace, Legal, HasLast, Full;
  }

  lemma {:induction false} FinishKeeps(c: Client)
    requires Inv(c)
    ensures Inv(FinishIfNeeded(c))
  {
    if c.session == Starting {
      hide Trace, Legal, HasLast;
      var id := c.current.value;
      var d := FinishIfNeeded(c);
      assert CurrentInv(d);
    } else if c.session == Streaming {
      var id := c.current.value;
      FullOfUnmarked(id, c.given);
      StageIsUncancelled(c);
      if c.socket {
        var d := FinishIfNeeded(c);
        EmitTrace(c.(session := Finishing), FinishSession(id), id);
        hide Trace, Legal, HasLast, Full;
        assert CurrentInv(d);
      } else {
        hide Trace, Uncancelled, HasLast, Full;
        RetireKeeps(c, c.(session := Finishing), How.Failed);
      }
    }
  }

  lemma {:induction false} CancelKeeps(c: Client)
    requires Inv(c)
    ensures Inv(CancelCurrent(c))
  {
    if c.current.Some? {
      var id := c.current.value;
      StageIsUncancelled(c);
      if c.socket {
        EmitTrace(c, CancelSession(id), id);
        var t := Trace(c.wire, id);
        assert (t + [CancelSession(id)])[..|t|] == t;
        hide Trace, Uncancelled;
        RetireKeeps(c, Emit(c, CancelSession(id)), Cancelled);
      } else {
        FailKeeps(c);
        hide Trace, Legal, Inv;
        assert CancelCurrent(c) == FailSession(c).(queued := []);
      }
    } else {
      FailKeeps(c);
    }
  }

  lemma {:induction false} StartedKeeps(c: Client, id: nat)
    requires Inv(c) && Possible(c, SessionStarted(id))
    ensures Inv(Step(c, SessionStarted(id)))
  {
    if c.current == Some(id) {
      StartWasWritten(c.wire, id);
      var streaming := c.(session := Streaming, queued := []);
      assert Tasks(id, []) == [];
      assert Sending(streaming, id, []);
      FlushSends(streaming, id, [], c.queued);
      assert [] + c.queued == c.given;
      hide Trace, Sending, Stage, Legal, Flush;
    }
  }

  lemma {:induction false} StartWasWritten(wire: seq<Frame>, id: nat)
    requires StartSession(id) in wire
    ensures Trace(wire, id) != []
  {
    var last := |wire| - 1;
    if wire[last] != StartSession(id) {
      assert StartSession(id) in wire[..last];
      StartWasWritten(wire[..last], id);
    }
  }

  lemma {:induction false} ConnectionStartedKeeps(c: Client)
    requires Inv(c) && Possible(c, ConnectionStarted)
    ensures Inv(Step(c, ConnectionStarted))
  {
    if c.session == Starting {
      var id := c.current.value;
      EmitTrace(c.(connection := Ready), StartSession(id), id);
      hide Trace, Legal;
    }
  }

  lemma {:induction false} StepKeeps(c: Client, e: Event)
    requires Inv(c) && Possible(c, e)
    ensures Inv(Step(c, e))
  {
    match e
    case Begin => if c.session == Idle { BeginKeeps(c); }
    case Send(chunk) =>
      HeardKeeps(c, Gave(chunk));
      SendKeeps(Heard(c, Gave(chunk)), chunk);
    case Finish =>
      HeardKeeps(c, Closed(IsEarly(c)));
      FinishKeeps(Heard(c, Closed(IsEarly(c))));
    case Cancel => CancelKeeps(c);
    case ConnectionStarted => ConnectionStartedKeeps(c);
    case SessionStarted(id) => StartedKeeps(c, id);
    case ConnectionFinished => hide Trace, Legal, HasLast;
    case _ => FailKeeps(c); hide Trace, Legal, HasLast;
  }

  lemma {:induction false} RunKeeps(c: Client, events: seq<Event>)
    requires Inv(c) && IsRun(c, events)
    ensures Inv(Run(c, events))
    decreases events
  {
    if events != [] {
      StepKeeps(c, events[0]);
      hide Step, Possible, Inv;
      RunKeeps(Step(c, events[0]), events[1..]);
    }
  }
}
