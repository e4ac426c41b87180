/** Frames of the firmware update channel: the hosts' builders and the device's access callback. */
module OtaProtocol {
  import opened Bytes

  const TYPE_BEGIN: byte := 0x20
  const TYPE_DATA: byte := 0x21
  const TYPE_END: byte := 0x22
  const TYPE_ABORT: byte := 0x23

  /** One attribute write, as long as the device's length variable can count. */
  type Write = w: seq<byte> | |w| < 0x1_0000

  datatype Command =
    | Begin(imageSize: uint32, transferId: uint32)
    | Data(transferId: uint32, offset: uint32, payload: seq<byte>)
    | End(transferId: uint32, imageSize: uint32)
    | Abort(transferId: uint32)
  {
    predicate Fits() {
      Data? ==> |payload| < 0x1_0000 - 12
    }
  }

  /** NoAnswer when the device restarts before it answers a write. */
  datatype AttStatus = Success | Unlikely | InvalidLength | InvalidOffset | NoAnswer

  datatype Access = Execute(command: Command) | Refuse(status: AttStatus)

  // ---- the hosts' payload builders ----

  function Frame(command: Command): seq<byte> {
    match command
    case Begin(imageSize, id) => [1, TYPE_BEGIN, 12, 0] + Le(imageSize, 4) + Le(id, 4)
    case Data(id, offset, chunk) => [1, TYPE_DATA, 12, 0] + Le(id, 4) + Le(offset, 4) + chunk
    case End(id, imageSize) => [1, TYPE_END, 12, 0] + Le(id, 4) + Le(imageSize, 4)
    case Abort(id) => [1, TYPE_ABORT, 8, 0] + Le(id, 4)
  }

  // ---- the device's reading of a write ----

  function Decode(buffer: Write): Access {
    if |buffer| < 4 then Refuse(InvalidLength)
    else
      var headerLen := ReadLe16(buffer[2..4]);
      if buffer[0] != 1 || headerLen > |buffer| then Refuse(Unlikely)
      else if buffer[1] == TYPE_BEGIN || buffer[1] == TYPE_DATA || buffer[1] == TYPE_END then
        if headerLen != 12 then Refuse(InvalidLength)
        else
          var first, second := ReadLe32(buffer[4..8]), ReadLe32(buffer[8..12]);
          if buffer[1] == TYPE_BEGIN then Execute(Begin(first, second))
          else if buffer[1] == TYPE_DATA then Execute(Data(first, second, buffer[12..]))
          else Execute(End(first, second))
      else if buffer[1] == TYPE_ABORT then
        if headerLen != 8 then Refuse(InvalidLength) else Execute(Abort(ReadLe32(buffer[4..8])))
      else Refuse(Unlikely)
  }

  // ---- what the two owe each other ----

  lemma {:induction false} PrefixReads(front: seq<byte>, first: uint32, second: uint32, rest: seq<byte>)
    requires |front| == 4
    ensures var w := front + Le(first, 4) + Le(second, 4) + rest;
      && w[0] == front[0] && w[1] == front[1] && w[2..4] == front[2..4]
      && ReadLe32(w[4..8]) == first && ReadLe32(w[8..12]) == second && w[12..] == rest
  {
    ReadOfLe32(first);
    ReadOfLe32(second);
    hide Le, ReadLe;
    PrefixSlices(front, Le(first, 4), Le(second, 4), rest);
  }

  lemma {:induction false} PrefixSlices<T>(a: seq<T>, b: seq<T>, c: seq<T>, rest: seq<T>)
    requires |a| == |b| == |c| == 4
    ensures var w := a + b + c + rest;
      w[0] == a[0] && w[1] == a[1] && w[2..4] == a[2..4] && w[4..8] == b && w[8..12] == c && w[12..] == rest
  {
  }

  /** The device reads every frame a host builds as the command it was built from. */
  lemma {:induction false} DecodeUndoesFrame(command: Command)
    requires command.Fits()
    ensures |Frame(command)| < 0x1_0000
    ensures Decode(Frame(command)) == Execute(command)
  {
    assert ReadLe([8, 0]) == 8 by {
      assert ReadLe([0]) == 0;
    }
    hide ReadLe, Le;
    match command {
      case Begin(imageSize, id) => ThreeWords(TYPE_BEGIN, imageSize, id, []);
      case Data(id, offset, chunk) => ThreeWords(TYPE_DATA, id, offset, chunk);
      case End(id, imageSize) => ThreeWords(TYPE_END, id, imageSize, []);
      case Abort(id) =>
        ReadOfLe32(id);
        assert Frame(command)[4..8] == Le(id, 4);
    }
  }

  lemma {:induction false} ThreeWords(kind: byte, first: uint32, second: uint32, rest: seq<byte>)
    requires |rest| < 0x1_0000 - 12
    ensures var w := [1, kind, 12, 0] + Le(first, 4) + Le(second, 4) + rest;
      && |w| == 12 + |rest| && w[0] == 1 && w[1] == kind && ReadLe16(w[2..4]) == 12
      && ReadLe32(w[4..8]) == first && ReadLe32(w[8..12]) == second && w[12..] == rest
    ensures rest == [] ==>
      [1, kind, 12, 0] + Le(first, 4) + Le(second, 4) == [1, kind, 12, 0] + Le(first, 4) + Le(second, 4) + rest
  {
    assert ReadLe([12, 0]) == 12 by {
      assert ReadLe([0]) == 0;
    }
    hide ReadLe, Le;
    PrefixReads([1, kind, 12, 0], first, second, rest);
    assert [1, kind, 12, 0][2..4] == [12, 0];
  }

  /** How many octets the device looks at: the rest of a BEGIN, END or ABORT write is ignored. */
  function Significant(buffer: Write): nat
    requires Decode(buffer).Execute?
  {
    match Decode(buffer).command
    case Data(_, _, _) => |buffer|
    case Abort(_) => 8
    case _ => 12
  }

  /** Rebuilding an accepted write gives its significant octets, so the frame form is canonical
      exactly for writes without trailing octets. */
  lemma {:induction false} FrameUndoesDecode(buffer: Write)
    requires Decode(buffer).Execute?
    ensures Significant(buffer) <= |buffer|
    ensures Frame(Decode(buffer).command) == buffer[..Significant(buffer)]
    ensures Frame(Decode(buffer).command) == buffer <==> |buffer| == Significant(buffer)
  {
    HeaderOctets(buffer[2..4]);
    assert buffer[2..4] == [buffer[2], buffer[3]];
    LeOfRead(buffer[4..8]);
    assert buffer[..4] == [buffer[0], buffer[1]] + buffer[2..4];
    if |buffer| >= 12 {
      LeOfRead(buffer[8..12]);
    }
    hide Le, ReadLe;
    assert buffer[..8] == buffer[..4] + buffer[4..8];
    if |buffer| >= 12 {
      assert buffer[..12] == buffer[..8] + buffer[8..12];
      assert buffer == buffer[..12] + buffer[12..];
    }
  }

  lemma {:induction false} HeaderOctets(two: seq<byte>)
    requires |two| == 2
    ensures var low: int, high: int := two[0], two[1]; ReadLe16(two) == low + 256 * high
  {
    assert ReadLe(two[1..]) == two[1] + 256 * ReadLe(two[1..][1..]);
  }
}
