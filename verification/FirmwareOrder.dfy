/** Which of two firmware versions is older, in terms of their components and of what the texts say. */
module FirmwareOrder {
  import opened Optional
  import opened Text
  import opened FirmwareVersion

  // ---- numbers ----

  /** Component k, missing ones being zero. */
  function At(s: seq<nat>, k: nat): nat {
    if k < |s| then s[k] else 0
  }

  /** The first component that differs is k, and it is the smaller one in l. */
  ghost predicate SmallerAt(l: seq<nat>, r: seq<nat>, k: nat) {
    At(l, k) < At(r, k) && forall j: nat :: j < k ==> At(l, j) == At(r, j)
  }

  ghost predicate Smaller(l: seq<nat>, r: seq<nat>) {
    exists k: nat :: SmallerAt(l, r, k)
  }

  ghost predicate Equal(l: seq<nat>, r: seq<nat>) {
    forall k: nat :: At(l, k) == At(r, k)
  }

  lemma {:induction false} TailAt(s: seq<nat>, k: nat)
    ensures At(Tail(s), k) == At(s, k + 1) && At(s, 0) == Head(s)
  {
  }

  /** Numbers order by the first component that differs. */
  lemma {:induction false} CompareIff(l: seq<nat>, r: seq<nat>)
    ensures Compare(l, r) < 0 <==> Smaller(l, r)
    ensures Compare(l, r) > 0 <==> Smaller(r, l)
    ensures Compare(l, r) == 0 <==> Equal(l, r)
    decreases |l| + |r|
  {
    forall k: nat
      ensures At(Tail(l), k) == At(l, k + 1) && At(Tail(r), k) == At(r, k + 1)
    {
      TailAt(l, k);
      TailAt(r, k);
    }
    if l == [] && r == [] {
    } else if Head(l) != Head(r) {
      assert Head(l) == At(l, 0) && Head(r) == At(r, 0);
      assert Head(l) < Head(r) ==> SmallerAt(l, r, 0);
      assert Head(r) < Head(l) ==> SmallerAt(r, l, 0);
      forall k: nat
        ensures SmallerAt(l, r, k) ==> k == 0
        ensures SmallerAt(r, l, k) ==> k == 0
      {
        assert k > 0 ==> 0 < k;
      }
    } else {
      CompareIff(Tail(l), Tail(r));
      SmallerTail(l, r);
      SmallerTail(r, l);
      EqualTail(l, r);
    }
  }

  lemma {:induction false} SmallerTail(l: seq<nat>, r: seq<nat>)
    requires Head(l) == Head(r)
    ensures Smaller(l, r) <==> Smaller(Tail(l), Tail(r))
  {
    forall k: nat
      ensures At(Tail(l), k) == At(l, k + 1) && At(Tail(r), k) == At(r, k + 1)
    {
      TailAt(l, k);
      TailAt(r, k);
    }
    assert At(l, 0) == At(r, 0);
    if Smaller(l, r) {
      var k: nat :| SmallerAt(l, r, k);
      assert k != 0;
      assert SmallerAt(Tail(l), Tail(r), k - 1);
    }
    if Smaller(Tail(l), Tail(r)) {
      var k: nat :| SmallerAt(Tail(l), Tail(r), k);
      assert forall j: nat :: 0 < j < k + 1 ==> At(l, j) == At(Tail(l), j - 1) && At(r, j) == At(Tail(r), j - 1);
      assert SmallerAt(l, r, k + 1);
    }
  }

  lemma {:induction false} EqualTail(l: seq<nat>, r: seq<nat>)
    requires Head(l) == Head(r)
    ensures Equal(l, r) <==> Equal(Tail(l), Tail(r))
  {
    forall k: nat
      ensures At(Tail(l), k) == At(l, k + 1) && At(Tail(r), k) == At(r, k + 1)
    {
      TailAt(l, k);
      TailAt(r, k);
    }
    if Equal(Tail(l), Tail(r)) {
      forall k: nat
        ensures At(l, k) == At(r, k)
      {
        assert k > 0 ==> At(Tail(l), k - 1) == At(l, k);
      }
    }
  }

  // ---- suffixes ----

  ghost predicate SmallerCharAt(a: string, b: string, k: nat) {
    k < |a| && k < |b| && a[k] < b[k] && forall j :: 0 <= j < k ==> a[j] == b[j]
  }

  /** a is a proper beginning of b, or has the smaller character where they first differ. */
  ghost predicate Precedes(a: string, b: string) {
    a < b || exists k: nat :: SmallerCharAt(a, b, k)
  }

  lemma {:induction false} StringLessIff(a: string, b: string)
    ensures StringLess(a, b) <==> Precedes(a, b)
    decreases a
  {
    if a == "" || b == "" {
    } else if a[0] != b[0] {
      assert SmallerCharAt(a, b, 0) <==> a[0] < b[0];
    } else {
      StringLessIff(a[1..], b[1..]);
      PrecedesTail(a, b);
      hide Precedes;
    }
  }

  lemma {:induction false} SmallerCharTail(a: string, b: string, k: nat)
    requires a != "" && b != "" && a[0] == b[0]
    ensures SmallerCharAt(a[1..], b[1..], k) <==> SmallerCharAt(a, b, k + 1)
  {
    var s, t := a[1..], b[1..];
    if SmallerCharAt(s, t, k) {
      forall j | 0 <= j < k + 1
        ensures a[j] == b[j]
      {
        assert j > 0 ==> s[j - 1] == t[j - 1];
      }
    }
  }

  lemma {:induction false} PrecedesTail(a: string, b: string)
    requires a != "" && b != "" && a[0] == b[0]
    ensures Precedes(a, b) <==> Precedes(a[1..], b[1..])
  {
    var s, t := a[1..], b[1..];
    assert a == [a[0]] + s && b == [b[0]] + t;
    assert a < b <==> s < t;
    assert !SmallerCharAt(a, b, 0);
    hide SmallerCharAt;
    if k: nat :| SmallerCharAt(a, b, k) {
      SmallerCharTail(a, b, k - 1);
      assert SmallerCharAt(s, t, k - 1);
    }
    if k: nat :| SmallerCharAt(s, t, k) {
      SmallerCharTail(a, b, k);
      assert SmallerCharAt(a, b, k + 1);
    }
  }

  /** Of two versions the one is older whose first differing component is smaller or, where none differs, that
      has a suffix the other has not, or the suffix that comes first. */
  lemma {:induction false} LessIff(l: Version, r: Version)
    ensures Less(l, r) <==>
      || Smaller(l.numbers, r.numbers)
      || (Equal(l.numbers, r.numbers) && l.suffix.Some? && (r.suffix.None? || Precedes(l.suffix.value, r.suffix.value)))
  {
    CompareIff(l.numbers, r.numbers);
    hide Compare, Smaller, Equal, Precedes, StringLess;
    if l.suffix.Some? && r.suffix.Some? {
      StringLessIff(l.suffix.value, r.suffix.value);
    }
  }

  // ---- from texts ----

  function Digits(n: nat): (s: string)
    ensures IsDigits(s)
    decreases n
  {
    var last := ['0' + (n % 10) as char];
    if n < 10 then last else Digits(n / 10) + last
  }

  lemma {:induction false} ValueOfDigits(n: nat)
    ensures Value(Digits(n)) == n
    decreases n
  {
    var s := Digits(n);
    if n < 10 {
      assert s[..|s| - 1] == "" && Value("") == 0;
    } else {
      ValueOfDigits(n / 10);
      assert s[..|s| - 1] == Digits(n / 10);
    }
  }

  function Parts(numbers: seq<nat>): (parts: seq<string>)
    ensures |parts| == |numbers|
  {
    seq(|numbers|, i requires 0 <= i < |numbers| => Digits(numbers[i]))
  }

  /** A version as a manifest or a device spells it. */
  function Spelled(v: Version): string {
    Join(Parts(v.numbers), '.') + if v.suffix.Some? then "-" + v.suffix.value else ""
  }

  predicate Spellable(v: Version) {
    v.numbers != [] && forall i :: 0 <= i < |v.numbers| ==> v.numbers[i] <= INT_MAX
  }

  /** The text's last character belongs to the version. */
  predicate EndsInInk(v: Version) {
    v.suffix.Some? && v.suffix.value != "" ==> !IsSpace(v.suffix.value[|v.suffix.value| - 1])
  }

  lemma {:induction false} TrimRightCuts(s: string)
    ensures TrimRight(s) <= s
    ensures TrimRight(s) == s <==> s == "" || !IsSpace(s[|s| - 1])
  {
    if s != "" && IsSpace(s[|s| - 1]) {
      TrimRightCuts(s[..|s| - 1]);
    }
  }

  lemma {:induction false} NumbersOfParts(numbers: seq<nat>)
    requires forall i :: 0 <= i < |numbers| ==> numbers[i] <= INT_MAX
    ensures Numbers(Parts(numbers)) == Some(numbers)
  {
    if numbers != [] {
      ValueOfDigits(numbers[0]);
      assert Number(Digits(numbers[0])) == Some(numbers[0]);
      hide Number, Digits;
      NumbersOfParts(numbers[1..]);
      assert Parts(numbers)[1..] == Parts(numbers[1..]);
      assert [numbers[0]] + numbers[1..] == numbers;
    }
  }

  lemma {:induction false} JoinLacks(parts: seq<string>, sep: char, c: char)
    requires c != sep && forall i :: 0 <= i < |parts| ==> Lacks(parts[i], c)
    ensures Lacks(Join(parts, sep), c)
  {
    if |parts| > 1 {
      JoinLacks(parts[1..], sep, c);
    }
  }

  lemma {:induction false} FirstOfJoin(parts: seq<string>, sep: char)
    requires parts != [] && parts[0] != ""
    ensures Join(parts, sep) != "" && Join(parts, sep)[0] == parts[0][0]
  {
  }

  /** The dotted numbers of a version's text. */
  lemma {:induction false} DottedNumbers(v: Version)
    requires Spellable(v)
    ensures var dotted := Join(Parts(v.numbers), '.');
      && dotted != "" && !IsSpace(dotted[0]) && !IsSpace(dotted[|dotted| - 1]) && Lacks(dotted, '-')
      && Numbers(Split(dotted, '.')) == Some(v.numbers)
  {
    var parts := Parts(v.numbers);
    assert forall i :: 0 <= i < |parts| ==> IsDigits(parts[i]) && Lacks(parts[i], '-') && Lacks(parts[i], '.');
    JoinLacks(parts, '.', '-');
    FirstOfJoin(parts, '.');
    LastOfJoin(parts, '.');
    SplitOfJoin(parts, '.');
    NumbersOfParts(v.numbers);
    hide Numbers, Split, Join, Digits;
  }

  lemma {:induction false} LastOfJoin(parts: seq<string>, sep: char)
    requires parts != [] && forall i :: 0 <= i < |parts| ==> IsDigits(parts[i])
    ensures var joined := Join(parts, sep); joined != "" && '0' <= joined[|joined| - 1] <= '9'
  {
    if |parts| > 1 {
      LastOfJoin(parts[1..], sep);
    }
  }

  /** A version with at least one number, none above the range of int, is read back from its text if and only
      if its suffix does not end in white space. */
  lemma {:induction false} VersionReadsBackIff(v: Version)
    requires Spellable(v)
    ensures Parsed(Spelled(v)) == Some(v) <==> EndsInInk(v)
  {
    var dotted, text := Join(Parts(v.numbers), '.'), Spelled(v);
    DottedNumbers(v);
    TrimRightCuts(text);
    hide Numbers, Split, Join, Parts, TrimRight;
    assert text[0] == dotted[0] && TrimLeft(text) == text;
    var trimmed := Trim(text);
    assert trimmed == text <==> EndsInInk(v) by { LastOfText(v, dotted, text); }
    hide TrimLeft, IsSpace, EndsInInk, Trim, Spelled, Lacks;
    DashOfText(v, dotted, text, trimmed);
    assert Parsed(text) ==
      var numbers := Numbers(Split(trimmed[..IndexOf(trimmed, '-')], '.'));
      if trimmed == "" || numbers.None? then None
      else
        var dash := IndexOf(trimmed, '-');
        Some(Version(numbers.value, if dash < |trimmed| then Some(trimmed[dash + 1..]) else None));
    hide Parsed;
  }

  lemma {:induction false} LastOfText(v: Version, dotted: string, text: string)
    requires dotted != "" && !IsSpace(dotted[|dotted| - 1])
    requires text == dotted + if v.suffix.Some? then "-" + v.suffix.value else ""
    ensures !IsSpace(text[|text| - 1]) <==> EndsInInk(v)
  {
  }

  lemma {:induction false} DashOfText(v: Version, dotted: string, text: string, trimmed: string)
    requires dotted != "" && Lacks(dotted, '-') && trimmed <= text
    requires text == dotted + if v.suffix.Some? then "-" + v.suffix.value else ""
    ensures var dash := IndexOf(trimmed, '-');
      && (trimmed == text ==> trimmed[..dash] == dotted && (dash < |trimmed| <==> v.suffix.Some?))
      && (trimmed == text && v.suffix.Some? ==> trimmed[dash + 1..] == v.suffix.value)
      && (trimmed != text && v.suffix.Some? && dash < |trimmed| ==> trimmed[dash + 1..] != v.suffix.value)
  {
    var dash := IndexOf(trimmed, '-');
    assert forall j :: 0 <= j < |dotted| ==> text[j] == dotted[j];
    if v.suffix.Some? {
      assert text[|dotted|] == '-' && text[|dotted| + 1..] == v.suffix.value;
    }
  }

  /** The update check between two versions as they are spelled: current is older if and only if its first
      differing component is smaller or, where none differs, it has a suffix and latest has none or one that
      comes later. */
  lemma {:induction false} OlderIff(current: Version, latest: Version)
    requires Spellable(current) && Spellable(latest) && EndsInInk(current) && EndsInInk(latest)
    ensures Older(Spelled(current), Spelled(latest)) <==>
      || Smaller(current.numbers, latest.numbers)
      || (Equal(current.numbers, latest.numbers) && current.suffix.Some?
          && (latest.suffix.None? || Precedes(current.suffix.value, latest.suffix.value)))
  {
    VersionReadsBackIff(current);
    VersionReadsBackIff(latest);
    LessIff(current, latest);
    hide Parsed, Spelled, Less, Smaller, Equal, Precedes;
  }
}
