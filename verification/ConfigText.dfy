/**
 Texts of the configuration file that are written by one function and read back by another.

 Quoted strings: escaping and unquoting. Lists of device ids: joined with commas, read back normalised and
 without repetitions. Maps from paired devices to values: printed without the default, read back for
 paired devices only. Paired-device lines: an id, a hexadecimal address, and what is known of the device.

 The loops of the source are methods here, proved to compute the functions that the round trips are about.
 */
module ConfigText {
  import opened Text

  // ---- quoting ----

  /** The escaping loop. */
  method TomlEscape(value: string) returns (out: string)
    ensures out == Escaped(value)
  {
    out := "";
    for i := 0 to |value|
      invariant out == Escaped(value[..i])
    {
      EscapedAppend(value[..i], value[i]);
      assert value[..i + 1] == value[..i] + [value[i]];
      if value[i] == '\\' || value[i] == '"' {
        out := out + ['\\'];
      }
      out := out + [value[i]];
    }
    assert value[..|value|] == value;
  }

  function EscapedChar(c: char): string {
    if c == '\\' || c == '"' then ['\\', c] else [c]
  }

  function Escaped(s: string): string {
    if s == "" then "" else EscapedChar(s[0]) + Escaped(s[1..])
  }

  /** What the reading loop makes of a text; escaped is its state. */
  function Unescaped(s: string, escaped: bool): string
    decreases |s|
  {
    if s == "" then ""
    else if !escaped && s[0] == '\\' then Unescaped(s[1..], true)
    else [s[0]] + Unescaped(s[1..], false)
  }

  function Unquoted(s: string): string {
    var value := Trim(s);
    if |value| >= 2 && value[0] == '"' && value[|value| - 1] == '"'
    then Unescaped(value[1..|value| - 1], false) else Unescaped(value, false)
  }

  method Unquote(value: string) returns (out: string)
    ensures out == Unquoted(value)
  {
    var inner := Trim(value);
    if |inner| >= 2 && inner[0] == '"' && inner[|inner| - 1] == '"' {
      inner := inner[1..|inner| - 1];
    }
    out := "";
    var escaped := false;
    assert inner[0..] == inner;
    for i := 0 to |inner|
      invariant out + Unescaped(inner[i..], escaped) == Unescaped(inner, false)
    {
      assert inner[i..][1..] == inner[i + 1..];
      ghost var before := out;
      if escaped {
        out := out + [inner[i]];
        escaped := false;
        assert before + ([inner[i]] + Unescaped(inner[i + 1..], false)) == out + Unescaped(inner[i + 1..], false);
      } else if inner[i] == '\\' {
        escaped := true;
      } else {
        out := out + [inner[i]];
        assert before + ([inner[i]] + Unescaped(inner[i + 1..], false)) == out + Unescaped(inner[i + 1..], false);
      }
    }
    assert out + [] == out;
  }

  lemma {:induction false} EscapedAppend(s: string, c: char)
    ensures Escaped(s + [c]) == Escaped(s) + EscapedChar(c)
  {
    if s == "" {
      assert s + [c] == [c];
      assert [c][1..] == "";
      assert EscapedChar(c) + "" == EscapedChar(c);
    } else {
      EscapedAppend(s[1..], c);
      assert (s + [c])[1..] == s[1..] + [c];
      hide EscapedChar;
      assert EscapedChar(s[0]) + (Escaped(s[1..]) + EscapedChar(c)) == EscapedChar(s[0]) + Escaped(s[1..]) + EscapedChar(c);
    }
  }

  lemma {:induction false} UnescapedOfEscaped(s: string)
    ensures Unescaped(Escaped(s), false) == s
  {
    if s != "" {
      UnescapedOfEscaped(s[1..]);
      var rest := Escaped(s[1..]);
      if s[0] == '\\' || s[0] == '"' {
        assert Escaped(s) == ['\\', s[0]] + rest;
        assert Escaped(s)[1..] == [s[0]] + rest;
        assert Escaped(s)[1..][1..] == rest;
      } else {
        assert Escaped(s) == [s[0]] + rest;
        assert Escaped(s)[1..] == rest;
      }
    }
  }

  lemma {:induction false} TrimOfTight(s: string)
    requires s != "" && !IsSpace(s[0]) && !IsSpace(s[|s| - 1])
    ensures Trim(s) == s
  {
  }

  /** Every string survives being escaped, put between quotes and read back. */
  lemma {:induction false} UnquoteUndoesQuoting(s: string)
    ensures Unquoted("\"" + Escaped(s) + "\"") == s
  {
    var quoted := "\"" + Escaped(s) + "\"";
    TrimOfTight(quoted);
    assert quoted[1..|quoted| - 1] == Escaped(s);
    UnescapedOfEscaped(s);
  }

  // ---- device ids ----

  predicate IsHexDigit(c: char) {
    '0' <= c <= '9' || 'A' <= c <= 'F' || 'a' <= c <= 'f'
  }

  function Upper(s: string): (u: string)
    ensures |u| == |s|
  {
    seq(|s|, i requires 0 <= i < |s| => if 'a' <= s[i] <= 'z' then s[i] - 'a' + 'A' else s[i])
  }

  predicate IsHex4(s: string) {
    |s| == 4 && forall i :: 0 <= i < 4 ==> IsHexDigit(s[i])
  }

  function Normalized(text: string): string {
    var value := Upper(Trim(text));
    var bare := if |value| >= 3 && value[..3] == "VS-" then value[3..] else value;
    var id := if |bare| > 4 then bare[..4] else bare;
    if IsHex4(id) then id else ""
  }

  predicate IsDeviceId(s: string) {
    IsHex4(s) && forall i :: 0 <= i < 4 ==> !('a' <= s[i] <= 'f')
  }

  lemma {:induction false} NormalizedIsId(text: string)
    ensures Normalized(text) == "" || IsDeviceId(Normalized(text))
  {
    var value := Upper(Trim(text));
    assert forall i :: 0 <= i < |value| ==> !('a' <= value[i] <= 'f');
  }

  lemma {:induction false} NormalizedOfId(s: string)
    requires IsDeviceId(s)
    ensures Normalized(s) == s && Lacks(s, ',') && Lacks(s, ':')
  {
    assert IsHexDigit(s[0]) && IsHexDigit(s[3]);
    TrimOfTight(s);
    assert forall i :: 0 <= i < 4 ==> IsHexDigit(s[i]);
    assert Upper(s) == s;
    assert s[..3][0] == s[0] != 'V';
  }

  /** The list without blanks and repetitions, in the order of first mention. */
  function Collected(ids: seq<string>, parts: seq<string>): seq<string>
    decreases parts
  {
    if parts == [] then ids
    else
      var id := Normalized(parts[0]);
      Collected(if id != "" && id !in ids then ids + [id] else ids, parts[1..])
  }

  method ParseDeviceIdList(text: string) returns (ids: seq<string>)
    ensures ids == Collected([], Split(text, ','))
  {
    hide Normalized, Split;
    ids := [];
    var start := 0;
    assert text[0..] == text;
    while start <= |text|
      invariant start <= |text|
      invariant Collected(ids, Split(text[start..], ',')) == Collected([], Split(text, ','))
      decreases |text| - start
    {
      var comma := Find(text, ',', start);
      SplitStep(text, ',', start);
      var part := text[start..comma];
      ghost var rest := if comma == |text| then [] else Split(text[comma + 1..], ',');
      assert comma == |text| ==> part == text[start..];
      assert Split(text[start..], ',') == [part] + rest;
      assert ([part] + rest)[1..] == rest;
      var id := Normalized(part);
      if id != "" && id !in ids {
        ids := ids + [id];
      }
      if comma == |text| {
        return;
      }
      start := comma + 1;
    }
    assert false;
  }

  ghost predicate Distinct(ids: seq<string>) {
    forall i, j :: 0 <= i < j < |ids| ==> ids[i] != ids[j]
  }

  lemma {:induction false} CollectedIsDistinct(ids: seq<string>, parts: seq<string>)
    requires Distinct(ids) && forall i :: 0 <= i < |ids| ==> IsDeviceId(ids[i])
    ensures Distinct(Collected(ids, parts))
    ensures forall i :: 0 <= i < |Collected(ids, parts)| ==> IsDeviceId(Collected(ids, parts)[i])
    decreases parts
  {
    if parts != [] {
      NormalizedIsId(parts[0]);
      hide Normalized, IsDeviceId;
      var id := Normalized(parts[0]);
      CollectedIsDistinct(if id != "" && id !in ids then ids + [id] else ids, parts[1..]);
    }
  }

  lemma {:induction false} CollectedOfIds(ids: seq<string>, parts: seq<string>)
    requires Distinct(ids + parts) && forall i :: 0 <= i < |parts| ==> IsDeviceId(parts[i])
    ensures Collected(ids, parts) == ids + parts
    decreases parts
  {
    if parts == [] {
      assert ids + parts == ids;
    } else {
      NormalizedOfId(parts[0]);
      assert parts[0] !in ids by {
        assert (ids + parts)[|ids|] == parts[0];
        assert forall i :: 0 <= i < |ids| ==> (ids + parts)[i] == ids[i];
      }
      hide Normalized, IsDeviceId;
      assert ids + [parts[0]] + parts[1..] == ids + parts;
      CollectedOfIds(ids + [parts[0]], parts[1..]);
    }
  }

  /** A list read from the configuration is written and read back unchanged exactly if its ids are distinct
      and normalised, and what is read always is. */
  lemma {:induction false} IdListReadsBackIff(ids: seq<string>)
    ensures Collected([], Split(Join(ids, ','), ',')) == ids
      <==> Distinct(ids) && forall i :: 0 <= i < |ids| ==> IsDeviceId(ids[i])
  {
    CollectedIsDistinct([], Split(Join(ids, ','), ','));
    if ids == [] {
      assert Split("", ',') == [""] && Normalized("") == "" && [""][1..] == [];
    } else if Distinct(ids) && forall i :: 0 <= i < |ids| ==> IsDeviceId(ids[i]) {
      forall i | 0 <= i < |ids|
        ensures Lacks(ids[i], ',')
      {
        NormalizedOfId(ids[i]);
      }
      SplitUndoesJoinIff(ids, ',');
      assert [] + ids == ids;
      CollectedOfIds([], ids);
    }
  }

  // ---- one value for each device ----

  function Lower(s: string): (l: string)
    ensures |l| == |s|
  {
    seq(|s|, i requires 0 <= i < |s| => if 'A' <= s[i] <= 'Z' then s[i] - 'A' + 'a' else s[i])
  }

  /** How a value's name must look to be read back: not empty, lower case, no comma, no blank at its ends. */
  predicate IsPlainName(s: string) {
    && s != "" && Lacks(s, ',') && Lower(s) == s
    && !IsSpace(s[0]) && !IsSpace(s[|s| - 1])
  }

  /** The entries that are written: those of paired devices whose value is not the default. */
  function Kept<V(==)>(entries: seq<(string, V)>, paired: seq<string>, usual: V): seq<(string, V)> {
    if entries == [] then []
    else
      (if entries[0].1 != usual && entries[0].0 in paired then [entries[0]] else [])
      + Kept(entries[1..], paired, usual)
  }

  function MapParts<V>(entries: seq<(string, V)>, format: V -> string): (parts: seq<string>)
    ensures |parts| == |entries|
  {
    seq(|entries|, i requires 0 <= i < |entries| => entries[i].0 + [':'] + format(entries[i].1))
  }

  function FormattedMap<V(==)>(entries: seq<(string, V)>, paired: seq<string>, usual: V, format: V -> string): string {
    Join(MapParts(Kept(entries, paired, usual), format), ',')
  }

  function WithPart<V>(m: map<string, V>, part: string, parse: string -> V): map<string, V> {
    var colon := IndexOf(part, ':');
    if colon == |part| then m
    else
      var id, value := Normalized(part[..colon]), Lower(Trim(part[colon + 1..]));
      if |id| == 4 && value != "" then m[id := parse(value)] else m
  }

  function ParsedMap<V>(parts: seq<string>, parse: string -> V): map<string, V> {
    if parts == [] then map[]
    else WithPart(ParsedMap(parts[..|parts| - 1], parse), parts[|parts| - 1], parse)
  }

  function MapOf<V>(entries: seq<(string, V)>): map<string, V> {
    if entries == [] then map[]
    else MapOf(entries[..|entries| - 1])[entries[|entries| - 1].0 := entries[|entries| - 1].1]
  }

  lemma {:induction false} PartReadsBack<V>(m: map<string, V>, id: string, value: V, format: V -> string, parse: string -> V)
    requires IsDeviceId(id) && IsPlainName(format(value)) && parse(format(value)) == value
    ensures WithPart(m, id + [':'] + format(value), parse) == m[id := value]
    ensures Lacks(id + [':'] + format(value), ',')
  {
    var part := id + [':'] + format(value);
    NormalizedOfId(id);
    TrimOfTight(format(value));
    IndexOfFirst(id, ':', format(value));
    assert part[..|id|] == id && part[|id| + 1..] == format(value);
    hide Normalized, Lower, Trim;
  }

  lemma {:induction false} PartsReadBack<V>(entries: seq<(string, V)>, format: V -> string, parse: string -> V)
    requires forall i :: 0 <= i < |entries| ==>
      IsDeviceId(entries[i].0) && IsPlainName(format(entries[i].1)) && parse(format(entries[i].1)) == entries[i].1
    ensures ParsedMap(MapParts(entries, format), parse) == MapOf(entries)
    ensures forall i :: 0 <= i < |entries| ==> Lacks(MapParts(entries, format)[i], ',')
    decreases entries
  {
    if entries != [] {
      var last := |entries| - 1;
      PartsReadBack(entries[..last], format, parse);
      hide Lacks;
      assert MapParts(entries, format)[..last] == MapParts(entries[..last], format);
      assert forall i :: 0 <= i < last ==> MapParts(entries, format)[i] == MapParts(entries[..last], format)[i];
      PartReadsBack(MapOf(entries[..last]), entries[last].0, entries[last].1, format, parse);
      hide WithPart, IsPlainName, IsDeviceId;
    }
  }

  lemma {:induction false} KeptArePaired<V>(entries: seq<(string, V)>, paired: seq<string>, usual: V)
    ensures forall i :: 0 <= i < |Kept(entries, paired, usual)| ==> Kept(entries, paired, usual)[i].0 in paired
  {
    if entries != [] {
      KeptArePaired(entries[1..], paired, usual);
    }
  }

  /** A written device-value map reads back as its entries for paired devices that are not the default. */
  lemma {:induction false} MapReadsBack<V(!new)>(entries: seq<(string, V)>, paired: seq<string>, usual: V,
                                           format: V -> string, parse: string -> V)
    requires forall i :: 0 <= i < |paired| ==> IsDeviceId(paired[i])
    requires forall v: V :: IsPlainName(format(v)) && parse(format(v)) == v
    ensures ParsedMap(Split(FormattedMap(entries, paired, usual, format), ','), parse)
         == MapOf(Kept(entries, paired, usual))
  {
    var kept := Kept(entries, paired, usual);
    KeptArePaired(entries, paired, usual);
    hide Kept, IsDeviceId, IsPlainName;
    forall i | 0 <= i < |kept|
      ensures IsDeviceId(kept[i].0) && IsPlainName(format(kept[i].1)) && parse(format(kept[i].1)) == kept[i].1
    {
      var j :| 0 <= j < |paired| && paired[j] == kept[i].0;
      assert IsDeviceId(paired[j]);
      var v: V := kept[i].1;
      assert IsPlainName(format(v)) && parse(format(v)) == v;
    }
    PartsReadBack(kept, format, parse);
    var parts := MapParts(kept, format);
    if kept == [] {
      assert parts == [] && Split("", ',') == [""];
      assert [""][..0] == [];
      assert WithPart(map[], "", parse) == map[];
    } else {
      SplitUndoesJoinIff(parts, ',');
    }
  }

  datatype ThemeColor = White | Pink | Green | Yellow | Blue | Purple

  datatype Position = Center | TopLeft | TopRight | BottomLeft | BottomRight

  function ThemeColorName(color: ThemeColor): string {
    match color
    case Pink => "pink"
    case Green => "green"
    case Yellow => "yellow"
    case Blue => "blue"
    case Purple => "purple"
    case White => "white"
  }

  function ThemeColorFromName(name: string): ThemeColor {
    if name == "pink" then Pink
    else if name == "green" then Green
    else if name == "yellow" then Yellow
    else if name == "blue" then Blue
    else if name == "purple" then Purple
    else White
  }

  function PositionName(position: Position): string {
    match position
    case TopLeft => "top_left"
    case TopRight => "top_right"
    case BottomLeft => "bottom_left"
    case BottomRight => "bottom_right"
    case Center => "center"
  }

  function PositionFromName(name: string): Position {
    if name == "top_left" then TopLeft
    else if name == "top_right" then TopRight
    else if name == "bottom_left" then BottomLeft
    else if name == "bottom_right" then BottomRight
    else Center
  }

  lemma {:induction false} PlainIf(s: string)
    requires s != "" && forall i :: 0 <= i < |s| ==> 'a' <= s[i] <= 'z' || s[i] == '_'
    ensures IsPlainName(s)
  {
    assert Lower(s) == s;
  }

  lemma {:induction false} ThemeColorNames(color: ThemeColor)
    ensures IsPlainName(ThemeColorName(color)) && ThemeColorFromName(ThemeColorName(color)) == color
  {
    PlainIf(ThemeColorName(color));
    hide IsPlainName;
  }

  lemma {:induction false} PositionNames(position: Position)
    ensures IsPlainName(PositionName(position)) && PositionFromName(PositionName(position)) == position
  {
    PlainIf(PositionName(position));
    hide IsPlainName;
  }

  /** The theme colors and the overlay positions of devices as the program writes and reads them. */
  lemma {:induction false} DeviceSettingsReadBack(
    colors: seq<(string, ThemeColor)>, positions: seq<(string, Position)>, paired: seq<string>)
    requires forall i :: 0 <= i < |paired| ==> IsDeviceId(paired[i])
    ensures ParsedMap(Split(FormattedMap(colors, paired, White, ThemeColorName), ','), ThemeColorFromName)
         == MapOf(Kept(colors, paired, White))
    ensures ParsedMap(Split(FormattedMap(positions, paired, Center, PositionName), ','), PositionFromName)
         == MapOf(Kept(positions, paired, Center))
  {
    forall color: ThemeColor
      ensures IsPlainName(ThemeColorName(color)) && ThemeColorFromName(ThemeColorName(color)) == color
    {
      ThemeColorNames(color);
    }
    forall position: Position
      ensures IsPlainName(PositionName(position)) && PositionFromName(PositionName(position)) == position
    {
      PositionNames(position);
    }
    hide IsPlainName, ThemeColorName, ThemeColorFromName, PositionName, PositionFromName;
    MapReadsBack(colors, paired, White, ThemeColorName, ThemeColorFromName);
    MapReadsBack(positions, paired, Center, PositionName, PositionFromName);
  }

  // ---- paired devices ----

  const TWO_TO_THE_64: nat := 0x1_0000_0000_0000_0000

  datatype Kind = Unspecified | Public | Random

  datatype Entry = Entry(deviceId: string, address: nat, kind: Kind, name: string, hardware: string, version: string)

  function Pow16(n: nat): (p: nat)
    ensures p > 0
  {
    if n == 0 then 1 else 16 * Pow16(n - 1)
  }

  function HexChar(d: nat): char
    requires d < 16
  {
    if d < 10 then '0' + d as char else 'A' + (d - 10) as char
  }

  function HexValue(c: char): nat {
    if '0' <= c <= '9' then c as int - '0' as int
    else if 'A' <= c <= 'F' then c as int - 'A' as int + 10
    else if 'a' <= c <= 'f' then c as int - 'a' as int + 10
    else 0
  }

  /** n digits, most significant first. */
  function Hex(value: nat, n: nat): (s: string)
    ensures |s| == n
  {
    if n == 0 then "" else Hex(value / 16, n - 1) + [HexChar(value % 16)]
  }

  /** At least twelve digits, more where the value needs them. */
  function Digits(value: nat, n: nat): nat
    requires n <= 16
    decreases 16 - n
  {
    if n == 16 || value < Pow16(n) then n else Digits(value, n + 1)
  }

  /** The number spelled by the leading hex digits, as far as 64 bits go. */
  function ReadHex(s: string, soFar: nat): nat
    decreases |s|
  {
    if s != "" && IsHexDigit(s[0]) then ReadHex(s[1..], 16 * soFar + HexValue(s[0]))
    else if soFar < TWO_TO_THE_64 then soFar else TWO_TO_THE_64 - 1
  }

  function KindDigit(k: Kind): string {
    match k
    case Unspecified => "0"
    case Public => "1"
    case Random => "2"
  }

  function Fields(e: Entry): seq<string>
    requires e.address < TWO_TO_THE_64
  {
    [e.deviceId, Hex(e.address, Digits(e.address, 12)), KindDigit(e.kind), e.name, e.hardware, e.version]
  }

  function Formatted(e: Entry): string
    requires e.address < TWO_TO_THE_64
  {
    Join(Fields(e), ',')
  }

  function Field(parts: seq<string>, i: nat): string {
    if i < |parts| then parts[i] else ""
  }

  function ParsedEntry(line: string): Entry {
    var parts := Split(line, ',');
    Entry(Field(parts, 0), ReadHex(Field(parts, 1), 0),
          if Field(parts, 2) == "1" then Public else if Field(parts, 2) == "2" then Random else Unspecified,
          Field(parts, 3), Field(parts, 4), Field(parts, 5))
  }

  lemma {:induction false} ReadOfHex(value: nat, n: nat)
    requires value < Pow16(n)
    ensures ReadHex(Hex(value, n), 0) == if value < TWO_TO_THE_64 then value else TWO_TO_THE_64 - 1
    ensures forall i :: 0 <= i < n ==> IsHexDigit(Hex(value, n)[i]) && Hex(value, n)[i] != ','
  {
    HexDigitsOnly(value, n);
    ReadHexAppend(Hex(value, n), "", 0);
    SpelledHex(value, n);
    assert Hex(value, n) + "" == Hex(value, n);
  }

  lemma {:induction false} HexDigitsOnly(value: nat, n: nat)
    ensures forall i :: 0 <= i < n ==> IsHexDigit(Hex(value, n)[i]) && Hex(value, n)[i] != ','
  {
    if n > 0 {
      HexDigitsOnly(value / 16, n - 1);
    }
  }

  /** The number a string of hex digits adds to what was read before it. */
  function Spelled(s: string, soFar: nat): nat
    decreases |s|
  {
    if s == "" then soFar else Spelled(s[1..], 16 * soFar + HexValue(s[0]))
  }

  lemma {:induction false} ReadHexAppend(s: string, rest: string, soFar: nat)
    requires forall i :: 0 <= i < |s| ==> IsHexDigit(s[i])
    ensures ReadHex(s + rest, soFar) == ReadHex(rest, Spelled(s, soFar))
    decreases |s|
  {
    if s == "" {
      assert s + rest == rest;
    } else {
      assert (s + rest)[1..] == s[1..] + rest;
      ReadHexAppend(s[1..], rest, 16 * soFar + HexValue(s[0]));
    }
  }

  lemma {:induction false} SpelledAppend(s: string, c: char, soFar: nat)
    ensures Spelled(s + [c], soFar) == 16 * Spelled(s, soFar) + HexValue(c)
    decreases |s|
  {
    if s == "" {
      assert s + [c] == [c];
      assert [c][1..] == "";
      assert Spelled([c], soFar) == Spelled("", 16 * soFar + HexValue(c));
    } else {
      assert (s + [c])[1..] == s[1..] + [c];
      SpelledAppend(s[1..], c, 16 * soFar + HexValue(s[0]));
    }
  }

  lemma {:induction false} SpelledHex(value: nat, n: nat)
    requires value < Pow16(n)
    ensures Spelled(Hex(value, n), 0) == value
  {
    if n > 0 {
      SpelledHex(value / 16, n - 1);
      SpelledAppend(Hex(value / 16, n - 1), HexChar(value % 16), 0);
      assert HexValue(HexChar(value % 16)) == value % 16;
    }
  }

  lemma {:induction false} DigitsSuffice(value: nat, n: nat)
    requires n <= 16 && value < TWO_TO_THE_64
    ensures value < Pow16(Digits(value, n))
    decreases 16 - n
  {
    if n == 16 {
      assert Pow16(4) == 0x1_0000;
      assert Pow16(8) == 0x1_0000_0000;
      assert Pow16(12) == 0x1_0000_0000_0000;
      assert Pow16(16) == TWO_TO_THE_64;
    } else if value >= Pow16(n) {
      DigitsSuffice(value, n + 1);
    }
  }

  /** A paired-device line reads back equal, for every 64-bit address, exactly if no text field has a comma. */
  lemma {:induction false} EntryReadsBackIff(e: Entry)
    requires e.address < TWO_TO_THE_64
    ensures ParsedEntry(Formatted(e)) == e
      <==> Lacks(e.deviceId, ',') && Lacks(e.name, ',') && Lacks(e.hardware, ',') && Lacks(e.version, ',')
  {
    DigitsSuffice(e.address, 12);
    ReadOfHex(e.address, Digits(e.address, 12));
    PartsLack(Formatted(e), ',');
    SplitUndoesJoinIff(Fields(e), ',');
    hide Split, Join, Hex, Digits, Pow16, ReadHex, Fields;
    var parts := Split(Formatted(e), ',');
    FieldLacks(parts, 0);
    FieldLacks(parts, 3);
    FieldLacks(parts, 4);
    FieldLacks(parts, 5);
    if Lacks(e.deviceId, ',') && Lacks(e.name, ',') && Lacks(e.hardware, ',') && Lacks(e.version, ',') {
      FieldsLack(e);
      EntryOfFields(e, parts);
    }
  }

  lemma {:induction false} FieldLacks(parts: seq<string>, i: nat)
    requires forall j :: 0 <= j < |parts| ==> Lacks(parts[j], ',')
    ensures Lacks(Field(parts, i), ',')
  {
  }

  lemma {:induction false} FieldsLack(e: Entry)
    requires e.address < TWO_TO_THE_64
    requires Lacks(e.deviceId, ',') && Lacks(e.name, ',') && Lacks(e.hardware, ',') && Lacks(e.version, ',')
    ensures forall i :: 0 <= i < |Fields(e)| ==> Lacks(Fields(e)[i], ',')
  {
    HexDigitsOnly(e.address, Digits(e.address, 12));
    hide Hex, Digits;
  }

  lemma {:induction false} EntryOfFields(e: Entry, parts: seq<string>)
    requires e.address < TWO_TO_THE_64 && parts == Fields(e) && Split(Formatted(e), ',') == parts
    requires ReadHex(Hex(e.address, Digits(e.address, 12)), 0) == e.address
    ensures ParsedEntry(Formatted(e)) == e
  {
    hide Split, Join, Hex, Digits, ReadHex, Formatted;
  }
}
