/** Text as the desktop's configuration code cuts and trims it; characters are octets of ASCII text. */
module Text {
  predicate IsSpace(c: char) {
    c == ' ' || '\t' <= c <= '\r'
  }

  function TrimLeft(s: string): string {
    if s != "" && IsSpace(s[0]) then TrimLeft(s[1..]) else s
  }

  function TrimRight(s: string): string {
    if s != "" && IsSpace(s[|s| - 1]) then TrimRight(s[..|s| - 1]) else s
  }

  function Trim(s: string): string {
    TrimRight(TrimLeft(s))
  }

  function IndexOf(text: string, c: char): (i: nat)
    ensures i <= |text|
    ensures forall j :: 0 <= j < i ==> text[j] != c
    ensures i < |text| ==> text[i] == c
  {
    if text == "" || text[0] == c then 0 else 1 + IndexOf(text[1..], c)
  }

  /** The parts between separators; a text without separator is one part. */
  function Split(text: string, sep: char): (parts: seq<string>)
    ensures parts != []
    decreases |text|
  {
    var i := IndexOf(text, sep);
    if i == |text| then [text] else [text[..i]] + Split(text[i + 1..], sep)
  }

  function Join(parts: seq<string>, sep: char): string {
    if parts == [] then ""
    else if |parts| == 1 then parts[0]
    else parts[0] + [sep] + Join(parts[1..], sep)
  }

  predicate Lacks(s: string, c: char) {
    forall j :: 0 <= j < |s| ==> s[j] != c
  }

  method Find(text: string, c: char, start: nat) returns (i: nat)
    requires start <= |text|
    ensures i == start + IndexOf(text[start..], c)
  {
    i := start;
    while i < |text| && text[i] != c
      invariant start <= i <= |text|
      invariant i + IndexOf(text[i..], c) == start + IndexOf(text[start..], c)
    {
      assert text[i..][1..] == text[i + 1..];
      i := i + 1;
    }
  }

  lemma {:induction false} IndexOfFirst(front: string, c: char, back: string)
    requires Lacks(front, c)
    ensures IndexOf(front + [c] + back, c) == |front|
  {
    var whole := front + [c] + back;
    assert whole[|front|] == c;
    assert forall j :: 0 <= j < |front| ==> whole[j] == front[j];
  }

  /** Cutting a joined list gives the list back exactly when no part holds the separator. */
  lemma {:induction false} SplitUndoesJoinIff(parts: seq<string>, sep: char)
    requires parts != []
    ensures Split(Join(parts, sep), sep) == parts <==> forall i :: 0 <= i < |parts| ==> Lacks(parts[i], sep)
  {
    if forall i :: 0 <= i < |parts| ==> Lacks(parts[i], sep) {
      SplitOfJoin(parts, sep);
    }
    PartsLack(Join(parts, sep), sep);
  }

  lemma {:induction false} SplitOfJoin(parts: seq<string>, sep: char)
    requires parts != [] && forall i :: 0 <= i < |parts| ==> Lacks(parts[i], sep)
    ensures Split(Join(parts, sep), sep) == parts
    decreases |parts|
  {
    if |parts| > 1 {
      var rest := Join(parts[1..], sep);
      SplitOfJoin(parts[1..], sep);
      IndexOfFirst(parts[0], sep, rest);
      assert (parts[0] + [sep] + rest)[|parts[0]| + 1..] == rest;
      assert (parts[0] + [sep] + rest)[..|parts[0]|] == parts[0];
    }
  }

  lemma {:induction false} PartsLack(text: string, sep: char)
    ensures forall i :: 0 <= i < |Split(text, sep)| ==> Lacks(Split(text, sep)[i], sep)
    decreases |text|
  {
    var i := IndexOf(text, sep);
    if i < |text| {
      PartsLack(text[i + 1..], sep);
    }
  }

  /** One round of a loop that cuts a text part by part. */
  lemma {:induction false} SplitStep(text: string, sep: char, start: nat)
    requires start <= |text|
    ensures var i := start + IndexOf(text[start..], sep);
      Split(text[start..], sep) == if i == |text| then [text[start..]] else [text[start..i]] + Split(text[i + 1..], sep)
  {
    var i := start + IndexOf(text[start..], sep);
    if i < |text| {
      assert text[start..][i - start + 1..] == text[i + 1..];
      assert text[start..][..i - start] == text[start..i];
    }
  }
}
