/**
 The recognition client of the macOS app: everything that runs on its serial queue, from a caller's
 start, chunks, finish and cancel to the server's events. Frames carry the number of their session.
 */
module AsrSession {
  import opened Optional

  datatype Connection = Disconnected | Connecting | Ready

  datatype Session = Idle | Starting | Streaming | Finishing

  datatype Chunk = Chunk(data: seq<int>, isLast: bool)

  datatype Frame =
    | StartConnection
    | StartSession(id: nat)
    | TaskRequest(id: nat, data: seq<int>)
    | FinishSession(id: nat)
    | CancelSession(id: nat)
  {
    predicate About(session: nat) {
      !StartConnection? && id == session
    }
  }

  datatype How = Final | Cancelled | Failed

  /** What a caller says to a session: a chunk handed over, or finish(). An early finish, before the session
      started and with no chunk marked last, stands for an empty last chunk. */
  datatype Word = Gave(chunk: Chunk) | Closed(early: bool)

  /** A session that is over: the chunks it had taken, and all that its caller had said by then. */
  datatype Ended = Ended(id: nat, how: How, given: seq<Chunk>, said: seq<Word>)

  /** current, queued and the two states are the client's fields. wire is what was written to any socket;
      given are the chunks the current session has taken, said is all its caller said, heeded or not; ended
      lists the sessions that are over, onFinal having been called for those that ended so; sessions are
      numbered by nextId. */
  datatype Client = Client(
    connection: Connection,
    session: Session,
    current: Option<nat>,
    queued: seq<Chunk>,
    socket: bool,
    nextId: nat,
    wire: seq<Frame>,
    given: seq<Chunk>,
    said: seq<Word>,
    ended: seq<Ended>)

  datatype Event =
    | Begin
    | Send(chunk: Chunk)
    | Finish
    | Cancel
    | ConnectionStarted
    | ConnectionFinished
    | SessionStarted(id: nat)
    | SessionFinished(id: nat)
    | SessionCanceled(id: nat)
    | Fails
    | ReceiveFails

  function Fresh(): Client {
    Client(Disconnected, Idle, None, [], false, 0, [], [], [], [])
  }

  /** The current session is over. */
  function Retire(c: Client, how: How): Client {
    c.(queued := [], current := None, session := Idle,
       ended := if c.current.Some? then c.ended + [Ended(c.current.value, how, c.given, c.said)] else c.ended)
  }

  function CloseSocket(c: Client): Client {
    c.(socket := false, connection := Disconnected)
  }

  function FailSession(c: Client): Client {
    CloseSocket(Retire(c, How.Failed))
  }

  /** A write without a socket fails the session. */
  function Emit(c: Client, frame: Frame): Client {
    if c.socket then c.(wire := c.wire + [frame]) else FailSession(c)
  }

  function Connect(c: Client): Client {
    Emit(c.(connection := Connecting, socket := true), StartConnection)
  }

  function SendStart(c: Client): Client {
    if c.current.None? then FailSession(c) else Emit(c, StartSession(c.current.value))
  }

  function Begun(c: Client): Client {
    c.(current := Some(c.nextId), nextId := c.nextId + 1, queued := [], given := [], said := [], session := Starting)
  }

  function BeginSession(c: Client): Client {
    if c.session != Idle then c
    else
      var begun := Begun(c);
      match c.connection
      case Ready => SendStart(begun)
      case Disconnected => Connect(begun)
      case Connecting => begun
  }

  function SendTask(c: Client, data: seq<int>): Client {
    if c.current.None? then c else Emit(c, TaskRequest(c.current.value, data))
  }

  predicate HasLast(chunks: seq<Chunk>) {
    chunks != [] && (chunks[0].isLast || HasLast(chunks[1..]))
  }

  /** A finish before the session started is remembered as an empty last chunk. */
  function FinishIfNeeded(c: Client): Client {
    if c.session == Starting then
      if HasLast(c.queued) then c
      else c.(queued := c.queued + [Chunk([], true)], given := c.given + [Chunk([], true)])
    else if c.session == Streaming && c.current.Some? then
      Emit(c.(session := Finishing), FinishSession(c.current.value))
    else c
  }

  function SendChunk(c: Client, chunk: Chunk): Client {
    match c.session
    case Starting => c.(queued := c.queued + [chunk], given := c.given + [chunk])
    case Streaming => Streamed(c.(given := c.given + [chunk]), chunk)
    case Finishing => c
    case Idle => c.(queued := c.queued + [chunk])
  }

  function Streamed(c: Client, chunk: Chunk): Client {
    var sent := SendTask(c, chunk.data);
    if chunk.isLast then FinishIfNeeded(sent) else sent
  }

  function Flush(c: Client, chunks: seq<Chunk>): Client
    decreases chunks
  {
    if chunks == [] then c else Flush(Streamed(c, chunks[0]), chunks[1..])
  }

  /** The caller speaks to the current session, if any. */
  function Heard(c: Client, w: Word): Client {
    if c.current.None? then c else c.(said := c.said + [w])
  }

  predicate IsEarly(c: Client) {
    c.session == Starting && !HasLast(c.queued)
  }

  function CancelCurrent(c: Client): Client {
    var told := if c.session != Idle && c.current.Some? then Emit(c, CancelSession(c.current.value)) else c;
    Retire(told, Cancelled)
  }

  function Step(c: Client, e: Event): Client {
    match e
    case Begin => BeginSession(c)
    case Send(chunk) => SendChunk(Heard(c, Gave(chunk)), chunk)
    case Finish => FinishIfNeeded(Heard(c, Closed(IsEarly(c))))
    case Cancel => CancelCurrent(c)
    case ConnectionStarted =>
      var ready := c.(connection := Ready);
      if c.session == Starting then SendStart(ready) else ready
    case ConnectionFinished => CloseSocket(c)
    case SessionStarted(id) =>
      if c.current != Some(id) then c else Flush(c.(session := Streaming, queued := []), c.queued)
    case SessionFinished(id) => if c.current != Some(id) then c else Retire(c, Final)
    case SessionCanceled(id) => if c.current != Some(id) then c else Retire(c, Cancelled)
    case Fails => FailSession(c)
    case ReceiveFails => if c.session == Idle then CloseSocket(c) else FailSession(c)
  }

  /** What is assumed of the server: events come over the current socket, a connection is confirmed once,
      and a session once, after it was asked for. */
  predicate Possible(c: Client, e: Event) {
    match e
    case ConnectionStarted => c.socket && c.connection == Connecting
    case SessionStarted(id) => c.socket && (c.current == Some(id) ==> c.session == Starting && StartSession(id) in c.wire)
    case ConnectionFinished => c.socket
    case SessionFinished(_) => c.socket
    case SessionCanceled(_) => c.socket
    case _ => true
  }

  ghost predicate IsRun(c: Client, events: seq<Event>)
    decreases events
  {
    events == [] || (Possible(c, events[0]) && IsRun(Step(c, events[0]), events[1..]))
  }

  function Run(c: Client, events: seq<Event>): Client
    decreases events
  {
    if events == [] then c else Run(Step(c, events[0]), events[1..])
  }

  /** What was written about one session, in order. */
  function Trace(wire: seq<Frame>, id: nat): seq<Frame> {
    if wire == [] then []
    else
      var last := wire[|wire| - 1];
      Trace(wire[..|wire| - 1], id) + if last.About(id) then [last] else []
  }
}
