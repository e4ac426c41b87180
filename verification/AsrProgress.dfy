/** Every session that is begun is asked for, can be brought to its text, and ends as it should. */
module AsrProgress {
  import opened Optional
  import opened AsrSession
  import opened AsrSafety

  /** StartConnection was written, and only cancellations since. */
  predicate Opens(wire: seq<Frame>) {
    && wire != []
    && (wire[|wire| - 1] == StartConnection || (wire[|wire| - 1].CancelSession? && Opens(wire[..|wire| - 1])))
  }

  /** A connection that is there has a socket, one being made was asked for, and on a confirmed one the
      session that is starting was asked for, too. */
  ghost predicate Underway(c: Client) {
    && (c.socket <==> c.connection != Disconnected)
    && (c.connection == Connecting ==> (c.session == Idle || c.session == Starting) && Opens(c.wire))
    && (c.session == Starting && c.connection == Ready ==>
          c.current.Some? && Trace(c.wire, c.current.value) == [StartSession(c.current.value)])
  }

  // ---- every step ----

  lemma {:induction false} OpensAppend(wire: seq<Frame>, f: Frame)
    ensures Opens(wire + [f]) <==> f == StartConnection || (f.CancelSession? && Opens(wire))
  {
    assert (wire + [f])[..|wire|] == wire;
  }

  lemma {:induction false} BeginUnderway(c: Client)
    requires Inv(c) && Underway(c) && c.session == Idle
    ensures Underway(Step(c, Begin)) && Step(c, Begin).socket
  {
    BegunKeeps(c);
    var begun, id := Begun(c), c.nextId;
    EmitTrace(begun.(socket := true), StartSession(id), id);
    OpensAppend(c.wire, StartConnection);
    hide Inv, Trace, Opens;
  }

  lemma {:induction false} ReadyUnderway(c: Client)
    requires Inv(c) && Underway(c) && Possible(c, Event.ConnectionStarted)
    ensures Underway(Step(c, Event.ConnectionStarted))
  {
    if c.session == Starting {
      var id := c.current.value;
      EmitTrace(c.(connection := Ready), StartSession(id), id);
      hide Trace, Legal, Opens;
    }
  }

  /** The chunks of a session that was started, sent one by one. */
  lemma {:induction false} StartedUnderway(c: Client, id: nat)
    requires Inv(c) && Underway(c) && Possible(c, SessionStarted(id)) && c.current == Some(id)
    ensures var d := Step(c, SessionStarted(id));
      && d.socket && d.connection == c.connection && d.current == c.current && d.ended == c.ended && d.queued == []
      && d.given == c.given && Trace(d.wire, id) == Sent(id, c.queued) && OthersKept(c, d, id)
      && d.session == (if HasLast(c.queued) then Finishing else Streaming)
  {
    StartWasWritten(c.wire, id);
    var streaming := c.(session := Streaming, queued := []);
    assert Tasks(id, []) == [];
    assert Sending(streaming, id, []);
    FlushSends(streaming, id, [], c.queued);
    hide Trace, Sent, Stage, Legal, Flush;
    assert [] + c.queued == c.queued;
  }

  lemma {:induction false} StepUnderway(c: Client, e: Event)
    requires Inv(c) && Underway(c) && Possible(c, e)
    ensures Underway(Step(c, e))
  {
    match e
    case Begin => if c.session == Idle { BeginUnderway(c); }
    case ConnectionStarted => ReadyUnderway(c);
    case SessionStarted(id) =>
      if c.current == Some(id) {
        StartWasWritten(c.wire, id);
        assert c.connection != Connecting;
        StartedUnderway(c, id);
        hide Trace, Step, Opens, Legal;
      }
    case Cancel =>
      if c.current.Some? { OpensAppend(c.wire, CancelSession(c.current.value)); }
      hide Trace, Opens;
    case Send(chunk) => hide Trace, Opens, HasLast;
    case Finish => hide Trace, Opens, HasLast;
    case _ => hide Trace, Opens;
  }

  lemma {:induction false} RunUnderway(c: Client, events: seq<Event>)
    requires Inv(c) && Underway(c) && IsRun(c, events)
    ensures Inv(Run(c, events)) && Underway(Run(c, events))
    decreases events
  {
    if events != [] {
      StepKeeps(c, events[0]);
      StepUnderway(c, events[0]);
      hide Step, Possible, Inv, Underway;
      RunUnderway(Step(c, events[0]), events[1..]);
    }
  }

  // ---- main results ----

  lemma {:induction false} RunCons(c: Client, e: Event, rest: seq<Event>)
    requires Possible(c, e) && IsRun(Step(c, e), rest)
    ensures IsRun(c, [e] + rest) && Run(c, [e] + rest) == Run(Step(c, e), rest)
  {
    hide Step, Possible;
    var events := [e] + rest;
    assert events[0] == e && events[1..] == rest;
  }

  /** After every run: a session that is starting over a confirmed connection was asked for, with nothing else
      written about it, and one that is starting over a connection being made waits for it. */
  lemma {:induction false} StartIsAskedFor(events: seq<Event>)
    requires IsRun(Fresh(), events)
    ensures var c := Run(Fresh(), events);
      c.session == Starting && c.socket ==>
        && c.current.Some?
        && var id := c.current.value;
           if c.connection == Connecting
           then Possible(c, Event.ConnectionStarted) && Trace(c.wire, id) == [] && Opens(c.wire)
           else Possible(c, SessionStarted(id)) && Trace(c.wire, id) == [StartSession(id)]
  {
    RunUnderway(Fresh(), events);
    var c := Run(Fresh(), events);
    hide Run, IsRun, EndedInv, FutureInv, Opens;
    if c.session == Starting && c.connection == Ready {
      AskedWasWritten(c.wire, c.current.value);
    }
    hide Trace;
  }

  lemma {:induction false} AskedWasWritten(wire: seq<Frame>, id: nat)
    requires StartSession(id) in Trace(wire, id)
    ensures StartSession(id) in wire
  {
    if wire != [] && wire[|wire| - 1] != StartSession(id) {
      AskedWasWritten(wire[..|wire| - 1], id);
    }
  }

  /** What the server and the caller still owe the current session: the connection, its start, finish() and
      its result. */
  function Rest(c: Client, id: nat): seq<Event> {
    (if c.connection == Connecting then [Event.ConnectionStarted] else [])
    + ((if c.session == Starting then [SessionStarted(id)] else []) + [Finish, SessionFinished(id)])
  }

  /** The current session ended with its text, everything it had taken written between its start and its end. */
  ghost predicate EndsWithText(c: Client, d: Client, id: nat) {
    && d.ended == c.ended + [Ended(id, Final, c.given, d.said)] && d.current == None && d.session == Idle && d.socket
    && Trace(d.wire, id) == Full(id, c.given) && OthersKept(c, d, id)
  }

  /** After every run: a session that is current over an open socket, whatever chunks it has taken and however
      far it is, can be brought to its text. */
  lemma {:induction false} EverySessionCanEnd(events: seq<Event>)
    requires IsRun(Fresh(), events)
    ensures var c := Run(Fresh(), events);
      c.current.Some? && c.socket ==>
        IsRun(c, Rest(c, c.current.value)) && EndsWithText(c, Run(c, Rest(c, c.current.value)), c.current.value)
  {
    RunUnderway(Fresh(), events);
    var c := Run(Fresh(), events);
    hide Run, IsRun, Inv, Underway, EndsWithText;
    if c.current.Some? && c.socket {
      OpenEnds(c, c.current.value);
    }
  }

  /** The next session can be begun as soon as there is none, and is on its way over a socket. */
  lemma {:induction false} EveryBeginIsServed(events: seq<Event>)
    requires IsRun(Fresh(), events) && Run(Fresh(), events).session == Idle
    ensures var c := Step(Run(Fresh(), events), Begin); var id := Run(Fresh(), events).nextId;
      && c.current == Some(id) && c.given == [] && c.ended == Run(Fresh(), events).ended
      && IsRun(c, Rest(c, id)) && EndsWithText(c, Run(c, Rest(c, id)), id)
      && c.wire == Run(Fresh(), events).wire
           + match Run(Fresh(), events).connection
             case Disconnected => [StartConnection]
             case Connecting => []
             case Ready => [StartSession(id)]
  {
    RunUnderway(Fresh(), events);
    var b := Run(Fresh(), events);
    BeginUnderway(b);
    BeginKeeps(b);
    var c := Step(b, Begin);
    assert c.current == Some(b.nextId) && c.given == [] && c.ended == b.ended;
    assert b.wire + [] == b.wire;
    hide Run, IsRun, Inv, EndsWithText, Trace, Opens;
    OpenEnds(c, b.nextId);
  }

  // ---- the way to the end ----

  lemma {:induction false} FinishedEnds(c: Client, id: nat)
    requires Inv(c) && c.current == Some(id) && c.session == Finishing && c.socket
    ensures IsRun(c, [SessionFinished(id)]) && EndsWithText(c, Run(c, [SessionFinished(id)]), id)
  {
    hide Trace, Full, Legal, HasLast;
    RunCons(c, SessionFinished(id), []);
    assert [SessionFinished(id)] + [] == [SessionFinished(id)];
    assert Run(c, [SessionFinished(id)]) == Step(c, SessionFinished(id));
  }

  lemma {:induction false} StreamingEnds(c: Client, id: nat)
    requires Inv(c) && c.current == Some(id) && (c.session == Streaming || c.session == Finishing) && c.socket
    ensures IsRun(c, [Finish, SessionFinished(id)]) && EndsWithText(c, Run(c, [Finish, SessionFinished(id)]), id)
  {
    var d := Step(c, Finish);
    HeardKeeps(c, Closed(IsEarly(c)));
    FinishKeeps(Heard(c, Closed(IsEarly(c))));
    if c.session == Streaming {
      EmitTrace(c.(session := Finishing), FinishSession(id), id);
    }
    hide Trace, Inv, HasLast, Full;
    assert OthersKept(c, d, id);
    FinishedEnds(d, id);
    hide Step;
    RunCons(c, Finish, [SessionFinished(id)]);
    assert [Finish] + [SessionFinished(id)] == [Finish, SessionFinished(id)];
    hide Run, IsRun;
    assert d.given == c.given && d.ended == c.ended;
  }

  lemma {:induction false} AskedEnds(c: Client, id: nat)
    requires Inv(c) && Underway(c) && c.current == Some(id) && c.socket && c.connection == Ready
    ensures IsRun(c, Rest(c, id)) && EndsWithText(c, Run(c, Rest(c, id)), id)
  {
    var last := [Finish, SessionFinished(id)];
    assert [] + last == last;
    if c.session == Starting {
      AskedWasWritten(c.wire, id);
      StartedUnderway(c, id);
      StepKeeps(c, SessionStarted(id));
      var d := Step(c, SessionStarted(id));
      hide Trace, Inv, Step, Run, IsRun;
      StreamingEnds(d, id);
      RunCons(c, SessionStarted(id), last);
      assert [] + ([SessionStarted(id)] + last) == [SessionStarted(id)] + last;
    } else {
      assert [] + ([] + last) == last;
      assert c.session != Idle;
      StreamingEnds(c, id);
    }
  }

  lemma {:induction false} OpenEnds(c: Client, id: nat)
    requires Inv(c) && Underway(c) && c.current == Some(id) && c.socket
    ensures IsRun(c, Rest(c, id)) && EndsWithText(c, Run(c, Rest(c, id)), id)
  {
    if c.connection == Connecting {
      var d := Step(c, Event.ConnectionStarted);
      StepKeeps(c, Event.ConnectionStarted);
      StepUnderway(c, Event.ConnectionStarted);
      EmitTrace(c.(connection := Ready), StartSession(id), id);
      assert c.session == Starting;
      hide Trace, Inv, Underway, Run, IsRun;
      AskedEnds(d, id);
      RunCons(c, Event.ConnectionStarted, Rest(d, id));
      var rest := [SessionStarted(id)] + [Finish, SessionFinished(id)];
      assert [] + rest == rest;
    } else {
      AskedEnds(c, id);
    }
  }

  // ---- without a socket ----

  /** The caller goes on without cancelling and nothing fails. */
  ghost predicate GoesOn(c: Client, events: seq<Event>) {
    && IsRun(c, events)
    && forall k :: 0 <= k < |events| ==> !events[k].Cancel? && !events[k].Fails? && !events[k].ReceiveFails?
  }

  /** Whatever more comes, the current session does not end. */
  ghost predicate Stranded(c: Client) {
    forall events :: GoesOn(c, events) ==> Run(c, events).ended == c.ended && Run(c, events).current == c.current
  }

  /** After every run: a current session ends never again, short of a cancellation or failure, if and only if
      the server closed the connection under it while it was starting or finishing. No new session can be
      begun meanwhile. */
  lemma {:induction false} StrandedIff(events: seq<Event>)
    requires IsRun(Fresh(), events) && Run(Fresh(), events).current.Some?
    ensures var c := Run(Fresh(), events);
      Stranded(c) <==> !c.socket && (c.session == Starting || c.session == Finishing)
  {
    RunUnderway(Fresh(), events);
    var c := Run(Fresh(), events);
    ActiveIsNotIdle(c);
    hide Run, IsRun, Inv, Underway, Stranded;
    if c.socket {
      OpenIsNotStranded(c);
    } else if c.session == Streaming {
      WriteFails(c);
    } else {
      ClosedIsStranded(c);
    }
  }

  lemma {:induction false} OpenIsNotStranded(c: Client)
    requires Inv(c) && Underway(c) && c.current.Some? && c.socket
    ensures !Stranded(c)
  {
    var rest := Rest(c, c.current.value);
    hide Run, IsRun, Inv, Underway, Full, Trace;
    OpenEnds(c, c.current.value);
    assert GoesOn(c, rest);
  }

  lemma {:induction false} ClosedIsStranded(c: Client)
    requires !c.socket && (c.session == Starting || c.session == Finishing)
    ensures Stranded(c)
  {
    hide Run, IsRun, GoesOn;
    forall more | GoesOn(c, more)
      ensures Run(c, more).ended == c.ended && Run(c, more).current == c.current
    {
      StaysStranded(c, more);
    }
  }

  lemma {:induction false} ActiveIsNotIdle(c: Client)
    requires Inv(c)
    ensures c.current.Some? ==> c.session != Idle
  {
    hide Stage, EndedInv, FutureInv;
  }

  lemma {:induction false} WriteFails(c: Client)
    requires c.current.Some? && !c.socket && c.session == Streaming
    ensures !Stranded(c)
  {
    var e := Send(Chunk([], false));
    RunCons(c, e, []);
    assert [e] + [] == [e];
    hide Run, IsRun;
    assert GoesOn(c, [e]);
  }

  lemma {:induction false} StaysStranded(c: Client, events: seq<Event>)
    requires !c.socket && (c.session == Starting || c.session == Finishing) && GoesOn(c, events)
    ensures Run(c, events).ended == c.ended && Run(c, events).current == c.current
    decreases events
  {
    if events != [] {
      var d := Step(c, events[0]);
      assert d == c.(queued := d.queued, given := d.given, said := d.said) by { hide HasLast, IsRun, Run; }
      hide Step, Possible;
      assert forall k :: 0 <= k < |events[1..]| ==> events[1..][k] == events[k + 1];
      StaysStranded(d, events[1..]);
    }
  }

  // ---- how it ends ----

  /** Session id has ended, by event e, as that says. */
  predicate EndedBy(c: Client, d: Client, id: nat, e: Event) {
    && d.current.None? && |d.ended| == |c.ended| + 1 && d.ended[..|c.ended|] == c.ended
    && var last := d.ended[|c.ended|];
       && last.id == id
       && (last.how == Final <==> e == SessionFinished(id))
       && (last.how == Cancelled <==> e == SessionCanceled(id) || (e == Cancel && c.socket))
  }

  predicate MustEnd(id: nat, e: Event) {
    e == SessionFinished(id) || e == SessionCanceled(id) || e.Cancel? || e.Fails? || e.ReceiveFails?
  }

  /** A step from c to d ends the current session or none, and one that must end it does; the server is told
      of a cancellation. */
  predicate EndsAsItShould(c: Client, d: Client, e: Event) {
    if c.current.None? then d.ended == c.ended
    else
      && (d.ended == c.ended || EndedBy(c, d, c.current.value, e))
      && (MustEnd(c.current.value, e) ==> EndedBy(c, d, c.current.value, e))
      && (e == Cancel && c.socket ==> d.wire == c.wire + [CancelSession(c.current.value)])
  }

  /** After every run, for every step: how a session ends says why. It ends with its text when the server
      finishes it, cancelled when the server, or the caller over an open socket, cancels it, and failed
      otherwise. */
  lemma {:induction false} HowItEnds(events: seq<Event>, e: Event)
    requires IsRun(Fresh(), events) && Possible(Run(Fresh(), events), e)
    ensures EndsAsItShould(Run(Fresh(), events), Step(Run(Fresh(), events), e), e)
  {
    RunUnderway(Fresh(), events);
    var c := Run(Fresh(), events);
    hide Run, IsRun, EndsAsItShould;
    if e.SessionStarted? && c.current == Some(e.id) {
      StartEndsNone(c, e.id);
    } else {
      StepEnds(c, e);
    }
  }

  lemma {:induction false} StartEndsNone(c: Client, id: nat)
    requires Inv(c) && Underway(c) && Possible(c, SessionStarted(id)) && c.current == Some(id)
    ensures EndsAsItShould(c, Step(c, SessionStarted(id)), SessionStarted(id))
  {
    StartedUnderway(c, id);
    hide Step;
  }

  lemma {:induction false} StepEnds(c: Client, e: Event)
    requires (c.current.None? <==> c.session == Idle) && (c.socket <==> c.connection != Disconnected)
    requires e.ConnectionStarted? ==> c.socket
    requires e.SessionStarted? ==> c.current != Some(e.id)
    ensures EndsAsItShould(c, Step(c, e), e)
  {
    hide HasLast;
  }

  /** In every state a failure, told by the server or met in receiving, closes the connection along with any
      session, and a connection the server finished is closed, too: the next session makes a new one. */
  lemma {:induction false} FailureReconnects(c: Client, e: Event)
    requires e.Fails? || e.ReceiveFails? || (e.ConnectionFinished? && c.session == Idle)
    ensures var d := Step(c, e);
      && d.session == Idle && !d.socket && d.connection == Disconnected && d.wire == c.wire
      && Step(d, Begin).wire == c.wire + [StartConnection]
      && Step(d, Begin).connection == Connecting && Step(d, Begin).session == Starting
  {
  }

  /** Chunks handed over while there is no session are forgotten when one is begun. */
  lemma {:induction false} IdleChunksAreForgotten(c: Client, chunk: Chunk)
    requires c.session == Idle && c.current.None?
    ensures Step(Step(c, Send(chunk)), Begin) == Step(c, Begin)
  {
  }
}
