/** The Windows sender of a firmware update in conversation with the device over an ordered, lossless link. */
module OtaWindows {
  import opened Optional
  import opened Bytes
  import opened OtaProtocol
  import opened OtaDevice
  import opened OtaStream

  // Unconfirmed data is limited; the device reports less often than that limit.

  const MAX_IN_FLIGHT: nat := 48 * 1024
  const DEFAULT_MAX_PDU: nat := 247

  datatype Transfer = Transfer(id: uint32, image: seq<byte>, chunkSize: nat, withoutResponse: bool, hasProgress: bool)
  {
    /** What UpdateFirmware checks before it starts. */
    predicate Valid(partitionSize: nat) {
      && |image| <= partitionSize <= LARGEST_PARTITION
      && 0 < chunkSize <= 244
    }

    predicate Writable(partitionSize: nat) {
      Valid(partitionSize) && image != []
    }
  }

  datatype Phase = Idle | AwaitBegin | Sending | AwaitData(end: nat) | AwaitEnd | Returned

  /** The sending coroutine and the update session the handlers see. */
  datatype Host = Host(phase: Phase, offset: nat, confirmed: nat, open: bool, cancelled: bool, completions: seq<bool>)

  datatype Reply = Status(status: AttStatus) | Note(notice: Notice)

  datatype System = System(host: Host, forward: seq<Command>, back: seq<Reply>, device: Device)

  datatype Event = HostActs | DeviceTakes | HostTakes | WaitTimesOut

  // ---- the host ----

  function ChunkSize(maxPdu: Option<nat>): nat {
    var pdu := if maxPdu.Some? then maxPdu.value else DEFAULT_MAX_PDU;
    var fitting := if pdu > 15 then pdu - 15 else 20;
    var capped := if fitting < 244 then fitting else 244;
    if capped > 20 then capped else 20
  }

  /** A data frame fits one ATT write exactly on links whose PDU is at least 35 octets, and then it fills the
      PDU, up to 244 octets of the image. */
  lemma {:induction false} DataFrameFitsIff(maxPdu: nat, id: uint32, offset: uint32, chunk: seq<byte>)
    requires |chunk| == ChunkSize(Some(maxPdu))
    ensures 20 <= ChunkSize(Some(maxPdu)) <= 244
    ensures |Frame(Data(id, offset, chunk))| + 3 <= maxPdu <==> maxPdu >= 35
    ensures maxPdu >= 35 ==> |chunk| == 244 || |Frame(Data(id, offset, chunk))| + 3 == maxPdu
  {
  }

  /** The window test of the sending loop. */
  predicate MustWait(t: Transfer, h: Host) {
    t.withoutResponse && h.offset > h.confirmed + MAX_IN_FLIGHT
  }

  function ChunkEnd(t: Transfer, h: Host): nat {
    if h.offset + t.chunkSize < |t.image| then h.offset + t.chunkSize else |t.image|
  }

  predicate CanAct(t: Transfer, h: Host) {
    match h.phase
    case Idle => true
    case Sending => if h.offset < |t.image| then !h.cancelled && !MustWait(t, h) else h.confirmed >= |t.image|
    case _ => false
  }

  /** What the coroutine writes next, and how it goes on. */
  function Act(t: Transfer, h: Host): (Host, Command)
    requires CanAct(t, h) && |t.image| < TWO_TO_THE_32
  {
    if h.phase.Idle? then (h.(phase := AwaitBegin), Begin(|t.image|, t.id))
    else if h.offset < |t.image| then
      var end := ChunkEnd(t, h);
      (if t.withoutResponse then h.(offset := end) else h.(phase := AwaitData(end)),
       Data(t.id, h.offset, t.image[h.offset..end]))
    else (h.(phase := AwaitEnd), End(t.id, |t.image|))
  }

  /** Everything is sent and the last report is missing; the wait for it ends after ten seconds. */
  predicate CanTimeOut(t: Transfer, h: Host) {
    h.phase.Sending? && !h.cancelled && h.offset >= |t.image| > h.confirmed
  }

  function TimeOut(h: Host): Host {
    Finish(h.(phase := Returned), false)
  }

  predicate WithResponse(t: Transfer, c: Command) {
    c.Begin? || c.End? || (c.Data? && !t.withoutResponse)
  }

  /** The session ends once; later endings find it gone. */
  function Finish(h: Host, success: bool): Host {
    if h.open then h.(open := false, completions := h.completions + [success]) else h
  }

  function OnStatus(h: Host, status: AttStatus): Host {
    match h.phase
    case AwaitBegin => if status == Success then h.(phase := Sending) else Finish(h.(phase := Returned), false)
    case AwaitData(end) =>
      if status == Success then h.(phase := Sending, offset := end) else Finish(h.(phase := Returned), false)
    case AwaitEnd => if status == Success then h.(phase := Returned) else Finish(h.(phase := Returned), false)
    case _ => h
  }

  /** State events of another transfer are ignored, and all events once the session is gone. */
  function OnNotice(t: Transfer, h: Host, notice: Notice): Host {
    if !h.open then h
    else
      match notice
      case Progress(id, written, _) => if id == t.id && t.hasProgress then h.(confirmed := written) else h
      case Done(id) => if id == t.id then Finish(h, true) else h
      case Error(_) => Finish(h, false)
      case _ => h
  }

  function OnReply(t: Transfer, h: Host, r: Reply): Host {
    match r
    case Status(status) => OnStatus(h, status)
    case Note(notice) => OnNotice(t, h, notice)
  }

  // ---- the conversation ----

  function Notes(notices: seq<Notice>): (replies: seq<Reply>)
    ensures |replies| == |notices|
  {
    seq(|notices|, i requires 0 <= i < |notices| => Note(notices[i]))
  }

  predicate Enabled(t: Transfer, s: System, e: Event) {
    match e
    case HostActs => CanAct(t, s.host)
    case DeviceTakes => s.forward != [] && !s.device.restarting
    case HostTakes => s.back != []
    case WaitTimesOut => CanTimeOut(t, s.host) && (t.hasProgress ==> s.forward == [] && s.back == [])
  }

  function Step(t: Transfer, partitionSize: nat, s: System, e: Event): System
    requires t.Valid(partitionSize) && Enabled(t, s, e)
  {
    match e
    case HostActs =>
      var (host, command) := Act(t, s.host);
      s.(host := host, forward := s.forward + [command])
    case DeviceTakes =>
      var c := s.forward[0];
      var o := Executed(partitionSize, s.device, c, SOUND);
      s.(device := o.device, forward := s.forward[1..],
         back := s.back + Notes(o.notices) + (if WithResponse(t, c) then [Status(o.status)] else []))
    case HostTakes => s.(host := OnReply(t, s.host, s.back[0]), back := s.back[1..])
    case WaitTimesOut => s.(host := TimeOut(s.host))
  }

  function Initial(): System {
    System(Host(Idle, 0, 0, true, false, []), [], [], Fresh())
  }

  ghost predicate IsRun(t: Transfer, partitionSize: nat, s: System, events: seq<Event>)
    requires t.Valid(partitionSize)
    decreases events
  {
    events == []
    || (Enabled(t, s, events[0]) && IsRun(t, partitionSize, Step(t, partitionSize, s, events[0]), events[1..]))
  }

  function Run(t: Transfer, partitionSize: nat, s: System, events: seq<Event>): System
    requires t.Valid(partitionSize) && IsRun(t, partitionSize, s, events)
    decreases events
  {
    if events == [] then s else Run(t, partitionSize, Step(t, partitionSize, s, events[0]), events[1..])
  }

  /** The device reads the frame of a queued command as that command. */
  lemma {:induction false} FrameIsCommand(partitionSize: nat, d: Device, c: Command, flash: Flash)
    requires c.Fits()
    ensures |Frame(c)| < 0x1_0000
    ensures Accessed(partitionSize, d, Frame(c), flash) == Executed(partitionSize, d, c, flash)
  {
    DecodeUndoesFrame(c);
    hide Frame, Decode, Executed;
  }

  // ---- what every run keeps ----

  /** Progress reports on their way: numbers of written octets, each above the one before. */
  ghost predicate Reports(t: Transfer, back: seq<Reply>, low: nat, high: nat)
    decreases back
  {
    if back == [] then low <= high
    else
      && back[0].Note? && back[0].notice.Progress? && back[0].notice.transferId == t.id
      && low < back[0].notice.written <= high
      && Reports(t, back[1..], back[0].notice.written, high)
  }

  /** What the host will have heard once it has taken everything in back. */
  function LastReport(back: seq<Reply>, confirmed: nat): nat
    decreases back
  {
    if back == [] then confirmed
    else LastReport(back[1..], if back[0].Note? && back[0].notice.Progress? then back[0].notice.written else confirmed)
  }

  /** The device's last report is less than a step behind what it has written, and not behind at the end. */
  predicate Recent(t: Transfer, d: Device, last: nat) {
    && Boundary(last) == Boundary(d.written)
    && (d.written == |t.image| ==> last == d.written)
  }

  ghost predicate Streaming(t: Transfer, partitionSize: nat, h: Host, d: Device, reports: seq<Reply>) {
    && Holds(t.id, t.image, partitionSize, d)
    && Reports(t, reports, h.confirmed, d.written)
    && (if t.hasProgress then Recent(t, d, LastReport(reports, h.confirmed)) else h.confirmed == 0)
    && h.open && !h.cancelled && h.completions == []
    && h.offset <= |t.image|
    && (t.withoutResponse ==> h.offset <= h.confirmed + MAX_IN_FLIGHT + t.chunkSize)
  }

  ghost predicate Committed(t: Transfer, s: System) {
    && s.device.restarting && !s.device.active && s.device.boot == Some(t.image) && s.forward == []
  }

  ghost predicate BeginInv(t: Transfer, partitionSize: nat, s: System)
    requires t.Writable(partitionSize)
  {
    && s.host == Host(AwaitBegin, 0, 0, true, false, [])
    && (|| (s.forward == [Begin(|t.image|, t.id)] && s.back == [] && s.device == Fresh())
        || (&& s.forward == [] && Holds(t.id, t.image, partitionSize, s.device) && s.device.written == 0
            && (s.back == [Note(Ready(t.id, |t.image|)), Status(Success)] || s.back == [Status(Success)])))
  }

  ghost predicate SendingInv(t: Transfer, partitionSize: nat, s: System) {
    && Streaming(t, partitionSize, s.host, s.device, s.back)
    && Chain(t.id, t.image, t.chunkSize, s.forward, s.device.written, s.host.offset)
    && (!t.withoutResponse ==> s.forward == [])
  }

  ghost predicate AwaitDataInv(t: Transfer, partitionSize: nat, s: System)
    requires s.host.phase.AwaitData?
  {
    var end := s.host.phase.end;
    && !t.withoutResponse && s.host.offset < end <= |t.image|
    && (|| (&& Streaming(t, partitionSize, s.host, s.device, s.back)
            && |s.forward| == 1 && Chain(t.id, t.image, t.chunkSize, s.forward, s.device.written, end) && s.device.written == s.host.offset)
        || (&& s.back != [] && s.back[|s.back| - 1] == Status(Success)
            && Streaming(t, partitionSize, s.host, s.device, s.back[..|s.back| - 1])
            && s.forward == [] && s.device.written == end))
  }

  ghost predicate EndInv(t: Transfer, partitionSize: nat, s: System)
    requires t.Writable(partitionSize)
  {
    && t.hasProgress && !s.host.cancelled && s.host.offset == s.host.confirmed == |t.image|
    && (|| (&& s.forward == [End(t.id, |t.image|)] && s.back == []
            && Holds(t.id, t.image, partitionSize, s.device) && s.device.written == |t.image|
            && s.host.open && s.host.completions == [])
        || (Committed(t, s) && s.back == [Note(Done(t.id)), Status(NoAnswer)] && s.host.open && s.host.completions == [])
        || (Committed(t, s) && s.back == [Status(NoAnswer)] && !s.host.open && s.host.completions == [true]))
  }

  /** Done, or given up by the final wait while the device goes on with what is under way. */
  ghost predicate ReturnedInv(t: Transfer, partitionSize: nat, s: System) {
    || (t.hasProgress && Committed(t, s) && s.back == []
        && s.host == Host(Returned, |t.image|, |t.image|, false, false, [true]))
    || (!t.hasProgress && s.host == Host(Returned, |t.image|, 0, false, false, [false])
        && SendingInv(t, partitionSize, s.(host := Deaf(t))))
  }

  /** The host of an unheard update before its final wait ended. */
  function Deaf(t: Transfer): Host {
    Host(Sending, |t.image|, 0, true, false, [])
  }

  ghost predicate Inv(t: Transfer, partitionSize: nat, s: System)
    requires t.Writable(partitionSize)
  {
    match s.host.phase
    case Idle => s == Initial()
    case AwaitBegin => BeginInv(t, partitionSize, s)
    case Sending => SendingInv(t, partitionSize, s)
    case AwaitData(_) => AwaitDataInv(t, partitionSize, s)
    case AwaitEnd => EndInv(t, partitionSize, s)
    case Returned => ReturnedInv(t, partitionSize, s)
  }

  // ---- queues ----

  lemma {:induction false} ReportsAppend(t: Transfer, back: seq<Reply>, low: nat, high: nat, written: nat, size: uint32)
    requires Reports(t, back, low, high) && high < written
    ensures Reports(t, back + [Note(Progress(t.id, written, size))], low, written)
    ensures forall c :: LastReport(back + [Note(Progress(t.id, written, size))], c) == written
    decreases back
  {
    var more := back + [Note(Progress(t.id, written, size))];
    if back == [] {
      assert more[1..] == [];
    } else {
      ReportsAppend(t, back[1..], back[0].notice.written, high, written, size);
      assert more[1..] == back[1..] + [Note(Progress(t.id, written, size))];
    }
  }

  lemma {:induction false} ReportsStretch(t: Transfer, back: seq<Reply>, low: nat, high: nat, higher: nat)
    requires Reports(t, back, low, high) && high <= higher
    ensures Reports(t, back, low, higher)
    decreases back
  {
    if back != [] {
      ReportsStretch(t, back[1..], back[0].notice.written, high, higher);
    }
  }

  lemma {:induction false} StreamingGoesOn(t: Transfer, partitionSize: nat, h: Host, d: Device, reports: seq<Reply>, c: Command)
    requires t.Writable(partitionSize) && Streaming(t, partitionSize, h, d, reports)
    requires c.Data? && Chain(t.id, t.image, 244, [c], d.written, d.written + |c.payload|)
    ensures var o := Executed(partitionSize, d, c, SOUND);
      && o.status == Success && o.device.written == d.written + |c.payload|
      && Streaming(t, partitionSize, h, o.device, reports + Notes(o.notices))
  {
    DataTaken(t.id, t.image, partitionSize, d, c);
    var o := Executed(partitionSize, d, c, SOUND);
    hide Executed, Chain, Boundary;
    if o.notices == [] {
      ReportsStretch(t, reports, h.confirmed, d.written, o.device.written);
      assert reports + Notes(o.notices) == reports;
    } else {
      ReportsAppend(t, reports, h.confirmed, d.written, o.device.written, |t.image|);
      assert reports + Notes(o.notices) == reports + [Note(Progress(t.id, o.device.written, |t.image|))];
    }
  }

  // ---- every step keeps the invariant ----

  lemma {:induction false} HostActsKeeps(t: Transfer, partitionSize: nat, s: System)
    requires t.Writable(partitionSize) && Inv(t, partitionSize, s) && Enabled(t, s, HostActs)
    ensures Inv(t, partitionSize, Step(t, partitionSize, s, HostActs))
  {
    var h, offset := s.host, s.host.offset;
    if h.phase.Sending? && offset < |t.image| {
      var end := ChunkEnd(t, h);
      ChainOfOne(t.id, t.image, t.chunkSize, offset, end);
      var data := [Data(t.id, offset, t.image[offset..end])];
      ChainJoin(t.id, t.image, t.chunkSize, s.forward, data, s.device.written, offset, end);
    } else if h.phase.Sending? {
      AllConfirmed(t, partitionSize, s);
    }
    hide Reports, LastReport, Holds, Recent, Chain;
  }

  /** END leaves the host only when everything is written, reported and heard. */
  lemma {:induction false} AllConfirmed(t: Transfer, partitionSize: nat, s: System)
    requires t.Writable(partitionSize) && SendingInv(t, partitionSize, s)
    requires s.host.offset == |t.image| <= s.host.confirmed
    ensures t.hasProgress && s.host.confirmed == s.device.written == |t.image|
    ensures s.forward == [] && s.back == []
  {
  }

  lemma {:induction false} DeviceTakesKeeps(t: Transfer, partitionSize: nat, s: System)
    requires t.Writable(partitionSize) && Inv(t, partitionSize, s) && Enabled(t, s, DeviceTakes)
    ensures Inv(t, partitionSize, Step(t, partitionSize, s, DeviceTakes))
  {
    match s.host.phase {
      case Idle =>
      case AwaitBegin =>
      case Sending => SendingTaken(t, partitionSize, s);
      case AwaitData(_) => AwaitedTaken(t, partitionSize, s);
      case AwaitEnd => EndTaken(t, partitionSize, s);
      case Returned => ReturnedTaken(t, partitionSize, s);
    }
  }

  lemma {:induction false} SendingTaken(t: Transfer, partitionSize: nat, s: System)
    requires t.Writable(partitionSize) && SendingInv(t, partitionSize, s) && Enabled(t, s, DeviceTakes)
    ensures SendingInv(t, partitionSize, Step(t, partitionSize, s, DeviceTakes))
  {
    var c := s.forward[0];
    ChainHead(t.id, t.image, t.chunkSize, s.forward, s.device.written, s.host.offset);
    StreamingGoesOn(t, partitionSize, s.host, s.device, s.back, c);
    hide Streaming, Executed;
    assert t.withoutResponse;
    var o := Executed(partitionSize, s.device, c, SOUND);
    assert s.back + Notes(o.notices) + [] == s.back + Notes(o.notices);
  }

  lemma {:induction false} AwaitedTaken(t: Transfer, partitionSize: nat, s: System)
    requires s.host.phase.AwaitData?
    requires t.Writable(partitionSize) && AwaitDataInv(t, partitionSize, s) && Enabled(t, s, DeviceTakes)
    ensures AwaitDataInv(t, partitionSize, Step(t, partitionSize, s, DeviceTakes))
  {
    var c := s.forward[0];
    assert s.forward == [c] && s.forward[1..] == [];
    ChainHead(t.id, t.image, t.chunkSize, s.forward, s.device.written, s.host.phase.end);
    StreamingGoesOn(t, partitionSize, s.host, s.device, s.back, c);
    hide Streaming, Executed;
    var o, next := Executed(partitionSize, s.device, c, SOUND), Step(t, partitionSize, s, DeviceTakes);
    assert next.back == s.back + Notes(o.notices) + [Status(Success)];
    assert next.back[..|next.back| - 1] == s.back + Notes(o.notices);
    assert next.forward == [];
  }

  lemma {:induction false} EndTaken(t: Transfer, partitionSize: nat, s: System)
    requires t.Writable(partitionSize) && EndInv(t, partitionSize, s) && Enabled(t, s, DeviceTakes)
    ensures EndInv(t, partitionSize, Step(t, partitionSize, s, DeviceTakes))
  {
    hide Boundary;
    assert t.image[..|t.image|] == t.image;
    var next := Step(t, partitionSize, s, DeviceTakes);
    assert next.back == [Note(Done(t.id)), Status(NoAnswer)];
  }

  lemma {:induction false} ReturnedTaken(t: Transfer, partitionSize: nat, s: System)
    requires t.Writable(partitionSize) && ReturnedInv(t, partitionSize, s) && Enabled(t, s, DeviceTakes)
    ensures ReturnedInv(t, partitionSize, Step(t, partitionSize, s, DeviceTakes))
  {
    assert !t.hasProgress;
    SendingTaken(t, partitionSize, s.(host := Deaf(t)));
    hide SendingInv, Committed, Executed;
  }

  lemma {:induction false} ReturnedHears(t: Transfer, partitionSize: nat, s: System)
    requires t.Writable(partitionSize) && ReturnedInv(t, partitionSize, s) && Enabled(t, s, HostTakes)
    ensures ReturnedInv(t, partitionSize, Step(t, partitionSize, s, HostTakes))
  {
    assert !t.hasProgress;
    ReportHeard(t, partitionSize, Deaf(t), s.device, s.back);
    hide Streaming, Committed;
  }

  lemma {:induction false} TimeOutKeeps(t: Transfer, partitionSize: nat, s: System)
    requires t.Writable(partitionSize) && Inv(t, partitionSize, s) && Enabled(t, s, WaitTimesOut)
    ensures !t.hasProgress && Inv(t, partitionSize, Step(t, partitionSize, s, WaitTimesOut))
  {
    if t.hasProgress {
      assert false;
    }
    hide Reports, LastReport, Holds, Chain;
  }

  lemma {:induction false} HostTakesKeeps(t: Transfer, partitionSize: nat, s: System)
    requires t.Writable(partitionSize) && Inv(t, partitionSize, s) && Enabled(t, s, HostTakes)
    ensures Inv(t, partitionSize, Step(t, partitionSize, s, HostTakes))
  {
    var r := s.back[0];
    match s.host.phase {
      case Idle =>
      case AwaitBegin => BeginHeard(t, partitionSize, s);
      case Sending =>
        ReportHeard(t, partitionSize, s.host, s.device, s.back);
        hide Streaming;
      case AwaitData(_) => AwaitedHeard(t, partitionSize, s);
      case AwaitEnd => hide Holds, Committed;
      case Returned => ReturnedHears(t, partitionSize, s);
    }
  }

  lemma {:induction false} BeginHeard(t: Transfer, partitionSize: nat, s: System)
    requires t.Writable(partitionSize) && BeginInv(t, partitionSize, s) && Enabled(t, s, HostTakes)
    ensures s.host.phase.AwaitBegin?
    ensures Inv(t, partitionSize, Step(t, partitionSize, s, HostTakes))
  {
    hide Boundary;
  }

  lemma {:induction false} ReportHeard(t: Transfer, partitionSize: nat, h: Host, d: Device, reports: seq<Reply>)
    requires t.Writable(partitionSize) && Streaming(t, partitionSize, h, d, reports) && reports != []
    ensures Streaming(t, partitionSize, OnReply(t, h, reports[0]), d, reports[1..])
    ensures OnReply(t, h, reports[0]).phase == h.phase && OnReply(t, h, reports[0]).offset == h.offset
  {
    ReportsLower(t, reports[1..], reports[0].notice.written, h.confirmed, d.written);
    hide Holds, Boundary;
  }

  lemma {:induction false} ReportsLower(t: Transfer, back: seq<Reply>, low: nat, lower: nat, high: nat)
    requires Reports(t, back, low, high) && lower <= low
    ensures Reports(t, back, lower, high)
  {
  }

  lemma {:induction false} AwaitedHeard(t: Transfer, partitionSize: nat, s: System)
    requires s.host.phase.AwaitData?
    requires t.Writable(partitionSize) && AwaitDataInv(t, partitionSize, s) && Enabled(t, s, HostTakes)
    ensures Inv(t, partitionSize, Step(t, partitionSize, s, HostTakes))
  {
    hide Streaming;
    var next, last := Step(t, partitionSize, s, HostTakes), |s.back| - 1;
    if s.forward != [] {
      ReportHeard(t, partitionSize, s.host, s.device, s.back);
    } else if last == 0 {
      StatusHeard(t, partitionSize, s);
    } else {
      ReportHeard(t, partitionSize, s.host, s.device, s.back[..last]);
      assert s.back[..last][0] == s.back[0];
      assert next.back[..last - 1] == s.back[..last][1..];
    }
  }

  lemma {:induction false} StatusHeard(t: Transfer, partitionSize: nat, s: System)
    requires s.host.phase.AwaitData?
    requires t.Writable(partitionSize) && AwaitDataInv(t, partitionSize, s) && s.forward == [] && |s.back| == 1
    ensures Inv(t, partitionSize, Step(t, partitionSize, s, HostTakes))
  {
    hide Holds, Boundary;
    assert s.back[..0] == [] && s.back[1..] == [];
  }

  lemma {:induction false} StepKeeps(t: Transfer, partitionSize: nat, s: System, e: Event)
    requires t.Writable(partitionSize) && Inv(t, partitionSize, s) && Enabled(t, s, e)
    ensures Inv(t, partitionSize, Step(t, partitionSize, s, e))
  {
    match e
    case HostActs => HostActsKeeps(t, partitionSize, s);
    case DeviceTakes => DeviceTakesKeeps(t, partitionSize, s);
    case HostTakes => HostTakesKeeps(t, partitionSize, s);
    case WaitTimesOut => TimeOutKeeps(t, partitionSize, s);
  }

  lemma {:induction false} RunKeeps(t: Transfer, partitionSize: nat, s: System, events: seq<Event>)
    requires t.Writable(partitionSize) && Inv(t, partitionSize, s) && IsRun(t, partitionSize, s, events)
    ensures Inv(t, partitionSize, Run(t, partitionSize, s, events))
    decreases events
  {
    if events != [] {
      StepKeeps(t, partitionSize, s, events[0]);
      hide Step, Enabled, Inv;
      RunKeeps(t, partitionSize, Step(t, partitionSize, s, events[0]), events[1..]);
    }
  }
}
