/** The order of firmware versions: numbers compared as if padded with zeros, a suffix before none. */
module FirmwareVersion {
  import opened Optional
  import opened Text

  datatype Version = Version(numbers: seq<nat>, suffix: Option<string>)

  const INT_MAX: nat := 0x7fff_ffff

  // ---- parsing ----

  predicate IsDigits(s: string) {
    s != "" && forall i :: 0 <= i < |s| ==> '0' <= s[i] <= '9'
  }

  function Value(s: string): nat {
    if s == "" then 0
    else
      var d := s[|s| - 1];
      10 * Value(s[..|s| - 1]) + if '0' <= d <= '9' then d as int - '0' as int else 0
  }

  function Number(part: string): Option<nat> {
    if IsDigits(part) && Value(part) <= INT_MAX then Some(Value(part)) else None
  }

  function Numbers(parts: seq<string>): Option<seq<nat>> {
    if parts == [] then Some([])
    else
      var first := Number(parts[0]);
      if first.None? then None
      else
        var rest := Numbers(parts[1..]);
        if rest.None? then None else Some([first.value] + rest.value)
  }

  function Parsed(text: string): Option<Version> {
    var trimmed := Trim(text);
    if trimmed == "" then None
    else
      var dash := IndexOf(trimmed, '-');
      var numbers := Numbers(Split(trimmed[..dash], '.'));
      if numbers.None? then None
      else Some(Version(numbers.value, if dash < |trimmed| then Some(trimmed[dash + 1..]) else None))
  }

  method ParseVersion(text: string) returns (version: Option<Version>)
    ensures version == Parsed(text)
  {
    var trimmed := Trim(text);
    if trimmed == "" {
      return None;
    }
    var dash := Find(trimmed, '-', 0);
    assert trimmed[0..] == trimmed;
    var numberText := trimmed[..dash];
    var suffix := if dash < |trimmed| then Some(trimmed[dash + 1..]) else None;

    var numbers := ParseNumbers(numberText);
    if numbers.None? {
      return None;
    }
    version := Some(Version(numbers.value, suffix));
  }

  /** The loop over the dots. */
  method ParseNumbers(text: string) returns (result: Option<seq<nat>>)
    ensures result == Numbers(Split(text, '.'))
  {
    hide Number, Split;
    var numbers: seq<nat> := [];
    var start := 0;
    ghost var whole := Numbers(Split(text, '.'));
    assert text[0..] == text;
    PrefixNothing(whole);
    while start <= |text|
      invariant start <= |text|
      invariant whole == Prefixed(numbers, Numbers(Split(text[start..], '.')))
      decreases |text| - start
    {
      var dot := Find(text, '.', start);
      SplitStep(text, '.', start);
      var part := text[start..dot];
      ghost var rest := if dot == |text| then [] else Split(text[dot + 1..], '.');
      assert dot == |text| ==> part == text[start..] && [part] + rest == [part];
      assert Split(text[start..], '.') == [part] + rest;
      NumbersStep(part, rest, numbers);
      var n := Number(part);
      if n.None? {
        return None;
      }
      numbers := numbers + [n.value];
      if dot == |text| {
        assert numbers + [] == numbers;
        return Some(numbers);
      }
      start := dot + 1;
    }
    assert false;
  }

  ghost function Prefixed(front: seq<nat>, back: Option<seq<nat>>): Option<seq<nat>> {
    if back.None? then None else Some(front + back.value)
  }

  lemma {:induction false} PrefixNothing(back: Option<seq<nat>>)
    ensures Prefixed([], back) == back
  {
    if back.Some? {
      assert [] + back.value == back.value;
    }
  }

  lemma {:induction false} NumbersStep(part: string, rest: seq<string>, front: seq<nat>)
    ensures Number(part).None? ==> Prefixed(front, Numbers([part] + rest)) == None
    ensures Number(part).Some? ==>
      Prefixed(front, Numbers([part] + rest)) == Prefixed(front + [Number(part).value], Numbers(rest))
  {
    assert ([part] + rest)[1..] == rest;
    if Number(part).Some? && Numbers(rest).Some? {
      assert front + ([Number(part).value] + Numbers(rest).value) == front + [Number(part).value] + Numbers(rest).value;
    }
  }

  // ---- comparing ----

  function Head(s: seq<nat>): nat {
    if s == [] then 0 else s[0]
  }

  function Tail(s: seq<nat>): seq<nat> {
    if s == [] then [] else s[1..]
  }

  /** -1, 0 or 1: missing components count as zero. */
  function Compare(l: seq<nat>, r: seq<nat>): int
    decreases |l| + |r|
  {
    if l == [] && r == [] then 0
    else if Head(l) < Head(r) then -1
    else if Head(l) > Head(r) then 1
    else Compare(Tail(l), Tail(r))
  }

  /** Lexicographic order of strings, a proper prefix first. */
  predicate StringLess(a: string, b: string) {
    b != "" && (a == "" || a[0] < b[0] || (a[0] == b[0] && StringLess(a[1..], b[1..])))
  }

  predicate SuffixLess(a: Option<string>, b: Option<string>) {
    a.Some? && (b.None? || StringLess(a.value, b.value))
  }

  predicate Less(l: Version, r: Version) {
    var c := Compare(l.numbers, r.numbers);
    c < 0 || (c == 0 && SuffixLess(l.suffix, r.suffix))
  }

  method VersionLess(left: Version, right: Version) returns (less: bool)
    ensures less == Less(left, right)
  {
    var count := if |left.numbers| > |right.numbers| then |left.numbers| else |right.numbers|;
    ghost var l, r := left.numbers, right.numbers;
    var i := 0;
    while i < count
      invariant 0 <= i <= count
      invariant l == (if i < |left.numbers| then left.numbers[i..] else [])
      invariant r == (if i < |right.numbers| then right.numbers[i..] else [])
      invariant Compare(l, r) == Compare(left.numbers, right.numbers)
    {
      var a := if i < |left.numbers| then left.numbers[i] else 0;
      var b := if i < |right.numbers| then right.numbers[i] else 0;
      if a != b {
        return a < b;
      }
      l, r := Tail(l), Tail(r);
      i := i + 1;
    }
    if left.suffix.Some? && right.suffix.None? {
      return true;
    }
    if left.suffix.None? && right.suffix.Some? {
      return false;
    }
    if left.suffix.Some? && right.suffix.Some? {
      return StringLess(left.suffix.value, right.suffix.value);
    }
    less := false;
  }

  /** IsOlderThan: a version that cannot be parsed is neither older nor newer. */
  predicate Older(current: string, latest: string) {
    Parsed(current).Some? && Parsed(latest).Some? && Less(Parsed(current).value, Parsed(latest).value)
  }

  // ---- it is a strict weak order ----

  lemma {:induction false} CompareFlips(a: seq<nat>, b: seq<nat>)
    ensures Compare(a, b) == 0 - Compare(b, a)
    decreases |a| + |b|
  {
    if a != [] || b != [] {
      CompareFlips(Tail(a), Tail(b));
    }
  }

  /** The order of numbers is transitive, and equal numbers compare alike with everything. */
  lemma {:induction false} CompareChains(a: seq<nat>, b: seq<nat>, c: seq<nat>)
    ensures Compare(a, b) <= 0 && Compare(b, c) <= 0 ==> Compare(a, c) <= 0
    ensures Compare(a, b) <= 0 && Compare(b, c) <= 0 && (Compare(a, b) < 0 || Compare(b, c) < 0) ==> Compare(a, c) < 0
    decreases |a| + |b| + |c|
  {
    if a != [] || b != [] || c != [] {
      CompareChains(Tail(a), Tail(b), Tail(c));
    }
  }

  lemma {:induction false} StringLessChains(a: string, b: string, c: string)
    ensures !StringLess(a, a)
    ensures StringLess(a, b) && StringLess(b, c) ==> StringLess(a, c)
    ensures StringLess(a, b) || StringLess(b, a) || a == b
    decreases |a| + |b| + |c|
  {
    if a != "" {
      StringLessChains(a[1..], if b == "" then "" else b[1..], if c == "" then "" else c[1..]);
      if b != "" && a[0] == b[0] && a[1..] == b[1..] {
        assert a == [a[0]] + a[1..] && b == [b[0]] + b[1..];
      }
    }
  }

  predicate Alike(a: string, b: string) {
    !Older(a, b) && !Older(b, a)
  }

  lemma {:induction false} LessChains(a: Version, b: Version, c: Version)
    ensures !Less(a, a)
    ensures Less(a, b) ==> !Less(b, a)
    ensures Less(a, b) && Less(b, c) ==> Less(a, c)
    ensures !Less(a, b) && !Less(b, a) && !Less(b, c) && !Less(c, b) ==> !Less(a, c) && !Less(c, a)
  {
    CompareFlips(a.numbers, a.numbers);
    CompareFlips(a.numbers, b.numbers);
    CompareFlips(b.numbers, c.numbers);
    CompareFlips(a.numbers, c.numbers);
    CompareChains(a.numbers, b.numbers, c.numbers);
    CompareChains(c.numbers, b.numbers, a.numbers);
    var x := if a.suffix.Some? then a.suffix.value else "";
    var y := if b.suffix.Some? then b.suffix.value else "";
    var z := if c.suffix.Some? then c.suffix.value else "";
    StringLessChains(x, y, x);
    StringLessChains(y, z, y);
    StringLessChains(x, z, x);
    StringLessChains(x, y, z);
    StringLessChains(z, y, x);
    hide Compare, StringLess;
  }

  /** IsOlderThan is irreflexive, asymmetric and transitive on all texts, and being neither older nor newer
      is transitive through any text that parses; it is so through b for all a and c only if b parses. */
  lemma {:induction false} OlderIsStrictWeakOrder(a: string, b: string, c: string)
    ensures !Older(a, a)
    ensures Older(a, b) ==> !Older(b, a)
    ensures Older(a, b) && Older(b, c) ==> Older(a, c)
    ensures Parsed(b).Some? && Alike(a, b) && Alike(b, c) ==> Alike(a, c)
    ensures Parsed(b).None? ==> Alike(a, b) && Alike(b, c)
  {
    hide Parsed, Less;
    assert Parsed(a).None? ==> !Older(a, b) && !Older(b, a) && !Older(a, c) && !Older(c, a);
    assert Parsed(c).None? ==> !Older(a, c) && !Older(c, a);
    if Parsed(a).Some? {
      LessChains(Parsed(a).value, Parsed(a).value, Parsed(a).value);
      if Parsed(b).Some? {
        LessChains(Parsed(a).value, Parsed(b).value, Parsed(a).value);
        if Parsed(c).Some? {
          LessChains(Parsed(a).value, Parsed(b).value, Parsed(c).value);
        }
      }
    }
  }

  /** A version's numbers may be followed by zeros without changing its place in the order. */
  lemma {:induction false} MissingCountsAsZero(l: seq<nat>, r: seq<nat>)
    ensures Compare(l + [0], r) == Compare(l, r)
    decreases |l| + |r|
  {
    if l == [] {
      if r == [] {
        assert Tail([0]) == [] && Compare([], []) == 0;
      } else {
        assert l + [0] == [0] && Tail([0]) == [];
        assert Tail(l) == [];
      }
    } else {
      assert (l + [0])[1..] == l[1..] + [0];
      MissingCountsAsZero(Tail(l), Tail(r));
    }
  }
}
