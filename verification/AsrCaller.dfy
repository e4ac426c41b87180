/** The recognition client as its caller sees it: which chunks handed over it takes, and which it loses. */
module AsrCaller {
  import opened Optional
  import opened AsrSession
  import opened AsrSafety
  import opened AsrResults

  /** The chunks in what was said, an early finish standing for an empty one. */
  function Chunks(said: seq<Word>): seq<Chunk> {
    if said == [] then []
    else
      var last := said[|said| - 1];
      Chunks(said[..|said| - 1])
      + match last
        case Gave(chunk) => [chunk]
        case Closed(early) => if early then [Chunk([], true)] else []
  }

  /** A chunk marked last, or finish(). */
  predicate Closing(w: Word) {
    w.Closed? || w.chunk.isLast
  }

  predicate Closes(said: seq<Word>) {
    exists i :: 0 <= i < |said| && Closing(said[i])
  }

  /** No chunk is handed over behind one marked last, or behind finish(). */
  predicate Polite(said: seq<Word>) {
    forall i, j :: 0 <= i < j < |said| && Closing(said[i]) ==> said[j].Closed?
  }

  predicate Unmarked(given: seq<Chunk>) {
    forall j :: 0 <= j < |given| - 1 ==> !given[j].isLast
  }

  /** The client took everything, or everything up to some point behind a word that closed the session. */
  ghost predicate Accepted(given: seq<Chunk>, said: seq<Word>) {
    exists n :: 0 <= n <= |said| && given == Chunks(said[..n]) && (n < |said| ==> Closes(said[..n]))
  }

  /** What is known of the current session's words. */
  ghost predicate Tracks(session: Session, given: seq<Chunk>, said: seq<Word>) {
    match session
    case Idle => true
    case Finishing =>
      Accepted(given, said) && Closes(said) && (Polite(said) <==> given == Chunks(said) && Unmarked(given))
    case _ =>
      && given == Chunks(said)
      && (Closes(said) <==> HasLast(given))
      && (Polite(said) <==> Unmarked(given))
  }

  ghost predicate SaidInv(c: Client) {
    && (c.current.Some? ==> Tracks(c.session, c.given, c.said))
    && (forall k :: 0 <= k < |c.ended| ==> Accepted(c.ended[k].given, c.ended[k].said))
  }

  // ---- one more word ----

  lemma {:induction false} MoreSaid(said: seq<Word>, w: Word)
    ensures Chunks(said + [w])
         == Chunks(said) + match w case Gave(chunk) => [chunk] case Closed(early) => if early then [Chunk([], true)] else []
    ensures Closes(said + [w]) <==> Closes(said) || Closing(w)
    ensures Polite(said + [w]) <==> Polite(said) && (w.Gave? ==> !Closes(said))
    ensures !Closes(said) ==> Polite(said)
  {
    var more := said + [w];
    assert more[..|said|] == said;
    assert forall i :: 0 <= i < |said| ==> more[i] == said[i];
    if Closes(said) {
      var i :| 0 <= i < |said| && Closing(said[i]);
      assert Closing(more[i]) && more[|said|] == w;
    }
    if Closing(w) {
      assert Closing(more[|said|]);
    }
  }

  lemma {:induction false} MarkSomewhere(given: seq<Chunk>)
    ensures HasLast(given) <==> exists j :: 0 <= j < |given| && given[j].isLast
  {
    if given != [] && !given[0].isLast {
      MarkSomewhere(given[1..]);
      assert forall j :: 0 < j < |given| ==> given[j] == given[1..][j - 1];
    }
  }

  lemma {:induction false} UnmarkedAppend(given: seq<Chunk>, chunk: Chunk)
    ensures Unmarked(given + [chunk]) <==> !HasLast(given)
    ensures HasLast(given + [chunk]) <==> HasLast(given) || chunk.isLast
  {
    var more := given + [chunk];
    MarkSomewhere(given);
    MarkSomewhere(more);
    assert forall j :: 0 <= j < |given| ==> more[j] == given[j];
    assert more[|given|] == chunk;
  }

  lemma {:induction false} AllAccepted(said: seq<Word>)
    ensures Accepted(Chunks(said), said)
  {
    assert said[..|said|] == said;
  }

  lemma {:induction false} StillAccepted(given: seq<Chunk>, said: seq<Word>, w: Word)
    requires Accepted(given, said) && Closes(said)
    ensures Accepted(given, said + [w])
  {
    var n :| 0 <= n <= |said| && given == Chunks(said[..n]) && (n < |said| ==> Closes(said[..n]));
    assert (said + [w])[..n] == said[..n];
    if n == |said| {
      assert said[..n] == said;
    }
  }

  /** A chunk the client takes. */
  lemma {:induction false} TakenWord(given: seq<Chunk>, said: seq<Word>, w: Word, chunk: Chunk)
    requires Tracks(Starting, given, said)
    requires w == Gave(chunk) || (w == Closed(true) && chunk == Chunk([], true) && !HasLast(given))
    ensures Tracks(Starting, given + [chunk], said + [w])
  {
    MoreSaid(said, w);
    UnmarkedAppend(given, chunk);
    hide Chunks, Closes, Polite, Unmarked, HasLast;
  }

  /** A word that hands over nothing. */
  lemma {:induction false} EmptyWord(given: seq<Chunk>, said: seq<Word>)
    requires Tracks(Starting, given, said) && HasLast(given)
    ensures Tracks(Starting, given, said + [Closed(false)])
  {
    MoreSaid(said, Closed(false));
    assert Chunks(said) + [] == Chunks(said);
    hide Chunks, Closes, Polite, Unmarked, HasLast;
  }

  /** A word to a session that is finishing: a chunk is lost. */
  lemma {:induction false} LateWord(given: seq<Chunk>, said: seq<Word>, w: Word)
    requires Tracks(Finishing, given, said) && w != Closed(true)
    ensures Tracks(Finishing, given, said + [w])
  {
    MoreSaid(said, w);
    StillAccepted(given, said, w);
    AcceptedIsPrefix(given, said);
    assert Chunks(said) + [] == Chunks(said);
    hide Chunks, Closes, Polite, Unmarked, Accepted;
  }

  lemma {:induction false} AcceptedIsPrefix(given: seq<Chunk>, said: seq<Word>)
    requires Accepted(given, said)
    ensures given <= Chunks(said)
  {
    var n :| 0 <= n <= |said| && given == Chunks(said[..n]) && (n < |said| ==> Closes(said[..n]));
    PrefixOfWords(said, n);
  }

  lemma {:induction false} PrefixOfWords(said: seq<Word>, n: nat)
    requires n <= |said|
    ensures Chunks(said[..n]) <= Chunks(said)
    decreases |said|
  {
    if n < |said| {
      PrefixOfWords(said[..|said| - 1], n);
      assert said[..|said| - 1][..n] == said[..n];
    } else {
      assert said[..n] == said;
    }
  }

  /** The session turns to finishing, with its last word or without one. */
  lemma {:induction false} TurnsFinishing(given: seq<Chunk>, said: seq<Word>)
    requires Tracks(Starting, given, said) && HasLast(given)
    ensures Tracks(Finishing, given, said)
  {
    AllAccepted(said);
    hide Chunks, Closes, Polite, Unmarked, HasLast, Accepted;
  }

  /** finish() while streaming. */
  lemma {:induction false} FinishedStreaming(given: seq<Chunk>, said: seq<Word>)
    requires Tracks(Streaming, given, said) && !HasLast(given)
    ensures Tracks(Finishing, given, said + [Closed(false)])
  {
    MoreSaid(said, Closed(false));
    AllAccepted(said + [Closed(false)]);
    MarkSomewhere(given);
    assert Chunks(said) + [] == Chunks(said);
    hide Chunks, Closes, Polite, HasLast, Accepted;
  }

  // ---- every step ----

  lemma {:induction false} RetireKeepsSaid(c: Client)
    requires SaidInv(c) && (c.current.Some? ==> c.session != Idle)
    ensures forall how :: SaidInv(Retire(c, how))
    ensures SaidInv(FailSession(c))
  {
    if c.current.Some? {
      AllAccepted(c.said);
    }
    hide Accepted, Chunks, Closes, Polite, Unmarked, HasLast;
  }

  lemma {:induction false} BeginKeepsSaid(c: Client)
    requires SaidInv(c)
    ensures SaidInv(BeginSession(c))
  {
    if c.session == Idle {
      var begun := Begun(c);
      assert SaidInv(begun) by {
        assert Tracks(Starting, [], []);
        hide Tracks, Accepted;
      }
      RetireKeepsSaid(begun);
      hide Tracks, Accepted, Retire;
    }
  }

  lemma {:induction false} StreamingSaid(c: Client, chunk: Chunk)
    requires Inv(c) && SaidInv(c) && c.session == Streaming
    ensures SaidInv(SendChunk(Heard(c, Gave(chunk)), chunk))
  {
    TakenWord(c.given, c.said, Gave(chunk), chunk);
    var fed := Heard(c, Gave(chunk)).(given := c.given + [chunk]);
    hide Accepted, Chunks, Closes, Polite, Unmarked, HasLast, Trace, Legal, EndedInv, FutureInv;
    assert SaidInv(fed);
    if c.socket {
      var id := c.current.value;
      StreamedSends(fed, id, c.given, chunk);
      if HasLast(fed.given) {
        TurnsFinishing(fed.given, fed.said);
      }
      hide Streamed;
    } else {
      RetireKeepsSaid(fed);
      assert SendChunk(Heard(c, Gave(chunk)), chunk) == FailSession(fed);
    }
  }

  lemma {:induction false} SendKeepsSaid(c: Client, chunk: Chunk)
    requires Inv(c) && SaidInv(c)
    ensures SaidInv(SendChunk(Heard(c, Gave(chunk)), chunk))
  {
    match c.session {
      case Streaming => StreamingSaid(c, chunk);
      case Starting =>
        TakenWord(c.given, c.said, Gave(chunk), chunk);
        hide Accepted, Chunks, Closes, Polite, Unmarked, HasLast, Inv;
      case Finishing =>
        LateWord(c.given, c.said, Gave(chunk));
        hide Accepted, Chunks, Closes, Polite, Unmarked, HasLast, Inv;
      case Idle =>
        hide Accepted, Chunks, Closes, Polite, Unmarked, HasLast, Trace, Legal;
    }
  }

  lemma {:induction false} FinishKeepsSaid(c: Client)
    requires Inv(c) && SaidInv(c)
    ensures SaidInv(FinishIfNeeded(Heard(c, Closed(IsEarly(c)))))
  {
    match c.session {
      case Starting =>
        assert c.queued == c.given && c.current.Some?;
        if HasLast(c.given) {
          EmptyWord(c.given, c.said);
        } else {
          TakenWord(c.given, c.said, Closed(true), Chunk([], true));
        }
        hide Accepted, Chunks, Closes, Polite, Unmarked, HasLast, Inv;
      case Streaming =>
        FinishedStreaming(c.given, c.said);
        var told := Heard(c, Closed(false)).(session := Finishing);
        hide Accepted, Chunks, Closes, Polite, Unmarked, HasLast, Trace, Legal, EndedInv, FutureInv;
        assert SaidInv(told);
        RetireKeepsSaid(told);
      case Finishing =>
        LateWord(c.given, c.said, Closed(false));
        hide Accepted, Chunks, Closes, Polite, Unmarked, HasLast, Inv;
      case Idle =>
        hide Accepted, Chunks, Closes, Polite, Unmarked, HasLast, Trace, Legal;
    }
  }

  lemma {:induction false} StartedSaid(c: Client, id: nat)
    requires Inv(c) && SaidInv(c) && Possible(c, SessionStarted(id))
    ensures SaidInv(Step(c, SessionStarted(id)))
  {
    if c.current == Some(id) {
      StartWasWritten(c.wire, id);
      var streaming := c.(session := Streaming, queued := []);
      assert Tasks(id, []) == [];
      assert Sending(streaming, id, []);
      FlushSends(streaming, id, [], c.queued);
      assert [] + c.queued == c.given;
      hide Accepted, Chunks, Closes, Polite, Unmarked, HasLast, Trace, Legal, Flush, Inv, Sent;
      if HasLast(c.given) {
        TurnsFinishing(c.given, c.said);
      }
    }
  }

  lemma {:induction false} CancelKeepsSaid(c: Client)
    requires SaidInv(c) && (c.current.None? <==> c.session == Idle)
    ensures SaidInv(CancelCurrent(c))
  {
    RetireKeepsSaid(c);
    if c.current.Some? {
      var told := Emit(c, CancelSession(c.current.value));
      assert SaidInv(told) && (told.current.Some? ==> told.session != Idle) by {
        hide Tracks, Accepted;
      }
      RetireKeepsSaid(told);
    }
    hide SaidInv;
  }

  lemma {:induction false} ConnectionKeepsSaid(c: Client)
    requires SaidInv(c) && (c.current.None? <==> c.session == Idle)
    ensures SaidInv(Step(c, ConnectionStarted))
  {
    RetireKeepsSaid(c.(connection := Ready));
    hide Tracks, Accepted;
  }

  lemma {:induction false} StepKeepsSaid(c: Client, e: Event)
    requires Inv(c) && SaidInv(c) && Possible(c, e)
    ensures SaidInv(Step(c, e))
  {
    assert c.current.None? <==> c.session == Idle;
    RetireKeepsSaid(c);
    match e {
      case Begin => BeginKeepsSaid(c); hide Inv, SaidInv, BeginSession;
      case Send(chunk) => SendKeepsSaid(c, chunk); hide Inv, SaidInv, SendChunk;
      case Finish => FinishKeepsSaid(c); hide Inv, SaidInv, FinishIfNeeded;
      case SessionStarted(id) => StartedSaid(c, id); hide Inv, SaidInv;
      case Cancel => CancelKeepsSaid(c); hide Inv, SaidInv, CancelCurrent;
      case ConnectionStarted => ConnectionKeepsSaid(c); hide Inv, SaidInv;
      case _ => hide Inv, Tracks, Accepted, Trace, Possible;
    }
  }

  lemma {:induction false} RunKeepsSaid(c: Client, events: seq<Event>)
    requires Inv(c) && SaidInv(c) && IsRun(c, events)
    ensures Inv(Run(c, events)) && SaidInv(Run(c, events))
    decreases events
  {
    if events != [] {
      StepKeeps(c, events[0]);
      StepKeepsSaid(c, events[0]);
      hide Step, Possible, Inv, SaidInv;
      RunKeepsSaid(Step(c, events[0]), events[1..]);
    }
  }

  // ---- main results ----

  /** On every run: what a session that is over had taken are all the chunks its caller handed over, or those
      up to some point behind a chunk marked last or finish(). */
  lemma {:induction false} OnlyLateChunksAreLost(events: seq<Event>)
    requires IsRun(Fresh(), events)
    ensures var c := Run(Fresh(), events);
      forall k :: 0 <= k < |c.ended| ==> Accepted(c.ended[k].given, c.ended[k].said)
  {
    RunKeepsSaid(Fresh(), events);
    hide Run, IsRun, Accepted;
  }

  /** On every run: a session being finished was written as StartSession, all the chunks its caller handed
      over and then FinishSession exactly when no chunk was handed over behind one marked last or behind
      finish(). Otherwise such chunks follow FinishSession, if they were queued, or are lost. */
  lemma {:induction false} FinishIsLastIff(events: seq<Event>)
    requires IsRun(Fresh(), events)
    ensures var c := Run(Fresh(), events);
      c.session == Finishing ==>
        && c.current.Some?
        && (Trace(c.wire, c.current.value)
              == [StartSession(c.current.value)] + Tasks(c.current.value, Chunks(c.said)) + [FinishSession(c.current.value)]
            <==> Polite(c.said))
  {
    RunKeepsSaid(Fresh(), events);
    var c := Run(Fresh(), events);
    hide Run, IsRun, Trace, Full, EndedInv, FutureInv, Accepted, Chunks, Closes, Polite, HasLast;
    if c.session == Finishing {
      FullIsOrderlyIff(c.current.value, c.given);
      AcceptedIsPrefix(c.given, c.said);
      FullLength(c.current.value, c.given);
    }
  }

  lemma {:induction false} FullLength(id: nat, given: seq<Chunk>)
    ensures |Full(id, given)| == |given| + 2
  {
  }
}
