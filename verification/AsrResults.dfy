/** The main results about the recognition client: one legal trace and one ending for each session. */
module AsrResults {
  import opened Optional
  import opened AsrSession
  import opened AsrSafety

  /** Over every run: what was written about a session that is over is StartSession, the chunks it had taken
      in order and FinishSession, or a beginning of that, with one CancelSession behind it only if the caller
      cancelled; and no session ends twice, so onFinal is called at most once for each, and only for one
      that was neither cancelled nor failed. */
  lemma {:induction false} EverySessionEndsOnce(events: seq<Event>)
    requires IsRun(Fresh(), events)
    ensures var c := Run(Fresh(), events);
      && (forall k :: 0 <= k < |c.ended| ==> Legal(Trace(c.wire, c.ended[k].id), c.ended[k]))
      && (forall k, l :: 0 <= k < l < |c.ended| ==> c.ended[k].id != c.ended[l].id)
      && (forall k :: 0 <= k < |c.ended| ==> c.current != Some(c.ended[k].id))
  {
    RunKeeps(Fresh(), events);
    hide Run, IsRun, Trace, Legal;
  }

  // ---- after a session's end ----

  /** Nothing but session id is written about, and no ending is taken back. */
  ghost predicate Touches(c: Client, d: Client, id: nat) {
    OthersKept(c, d, id) && c.ended <= d.ended && c.nextId <= d.nextId && (d.current == None || d.current == c.current)
  }

  lemma {:induction false} EmitTouches(c: Client, f: Frame, id: nat)
    requires f.About(id) || f.StartConnection?
    ensures Touches(c, Emit(c, f), id)
  {
    if c.socket {
      EmitTrace(c, f, id);
    }
    hide Trace;
  }

  lemma {:induction false} TouchesTwice(c: Client, d: Client, e: Client, id: nat)
    requires Touches(c, d, id) && Touches(d, e, id)
    ensures Touches(c, e, id)
  {
    hide Trace;
  }

  lemma {:induction false} FinishTouches(c: Client, id: nat)
    requires c.current == None || c.current == Some(id)
    ensures Touches(c, FinishIfNeeded(c), id)
  {
    hide Trace, HasLast;
    if c.session == Streaming && c.current.Some? {
      EmitTouches(c.(session := Finishing), FinishSession(id), id);
    }
  }

  lemma {:induction false} StreamedTouches(c: Client, chunk: Chunk, id: nat)
    requires c.current == None || c.current == Some(id)
    ensures Touches(c, Streamed(c, chunk), id)
  {
    hide Trace, HasLast;
    if c.current.Some? {
      EmitTouches(c, TaskRequest(id, chunk.data), id);
    }
    var sent := SendTask(c, chunk.data);
    assert Touches(c, sent, id);
    FinishTouches(sent, id);
    hide FinishIfNeeded, Touches, Emit;
    if chunk.isLast {
      TouchesTwice(c, sent, FinishIfNeeded(sent), id);
    }
  }

  lemma {:induction false} FlushTouches(c: Client, chunks: seq<Chunk>, id: nat)
    requires c.current == None || c.current == Some(id)
    ensures Touches(c, Flush(c, chunks), id)
    decreases chunks
  {
    if chunks != [] {
      StreamedTouches(c, chunks[0], id);
      var next := Streamed(c, chunks[0]);
      hide Streamed;
      FlushTouches(next, chunks[1..], id);
      TouchesTwice(c, next, Flush(next, chunks[1..]), id);
    }
  }

  function Touched(c: Client): nat {
    if c.current.Some? then c.current.value else c.nextId
  }

  ghost predicate KeepsEnded(c: Client, d: Client) {
    OthersKept(c, d, Touched(c)) && c.ended <= d.ended
  }

  lemma {:induction false} StepTouches(c: Client, e: Event)
    requires Inv(c)
    ensures KeepsEnded(c, Step(c, e))
  {
    var id := Touched(c);
    match e {
      case Begin =>
      case Send(chunk) =>
        var heard := Heard(c, Gave(chunk));
        StreamedTouches(heard.(given := heard.given + [chunk]), chunk, id);
      case Finish => FinishTouches(Heard(c, Closed(IsEarly(c))), id);
      case Cancel => EmitTouches(c, CancelSession(id), id);
      case ConnectionStarted => EmitTouches(c.(connection := Ready), StartSession(id), id);
      case SessionStarted(_) => FlushTouches(c.(session := Streaming, queued := []), c.queued, id);
      case _ =>
    }
    hide Trace, Stage, HasLast, Legal, EndedInv, Flush, Streamed;
    assert c.current.None? <==> c.session == Idle;
  }

  /** Once a session is over, nothing more is ever written about it, and its ending stands. */
  lemma {:induction false} NothingAfterTheEnd(c: Client, events: seq<Event>, k: nat)
    requires Inv(c) && IsRun(c, events) && k < |c.ended|
    ensures var d := Run(c, events);
      && k < |d.ended| && d.ended[k] == c.ended[k]
      && Trace(d.wire, c.ended[k].id) == Trace(c.wire, c.ended[k].id)
    decreases events
  {
    if events != [] {
      StepKeeps(c, events[0]);
      StepTouches(c, events[0]);
      assert c.ended[k].id != Touched(c);
      hide Step, Possible, CurrentInv, FutureInv, Trace, Legal;
      NothingAfterTheEnd(Step(c, events[0]), events[1..], k);
    }
  }

  // ---- is FinishSession the last word? ----

  lemma {:induction false} MarkIsFirst(chunks: seq<Chunk>)
    ensures forall j :: 0 <= j < Mark(chunks) - 1 ==> !chunks[j].isLast
    ensures Mark(chunks) < |chunks| ==> Mark(chunks) > 0 && chunks[Mark(chunks) - 1].isLast
  {
    if chunks != [] && !chunks[0].isLast {
      MarkIsFirst(chunks[1..]);
      assert forall j :: 0 < j < |chunks| ==> chunks[j] == chunks[1..][j - 1];
    }
  }

  lemma {:induction false} FullIsOrderlyIff(id: nat, given: seq<Chunk>)
    ensures Full(id, given) == [StartSession(id)] + Tasks(id, given) + [FinishSession(id)]
      <==> forall j :: 0 <= j < |given| - 1 ==> !given[j].isLast
  {
    MarkIsFirst(given);
    var n := Mark(given);
    var orderly := [StartSession(id)] + Tasks(id, given) + [FinishSession(id)];
    if n == |given| {
      assert given[..n] == given;
      assert Full(id, given) == orderly;
    } else {
      assert Full(id, given)[1 + n] == FinishSession(id);
      assert orderly[1 + n] == TaskRequest(id, given[n].data);
      assert given[n - 1].isLast && n - 1 < |given| - 1;
    }
  }
}
