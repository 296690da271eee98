/** The few string operations of Go's strings package that the modelled code relies on. */
module Texts {
  /** strings.Split with a one-character separator. */
  function Split(text: string, sep: char): (parts: seq<string>)
    ensures parts != []
    ensures forall i :: 0 <= i < |parts| ==> sep !in parts[i]
  {
    if text == "" then [""]
    else
      var rest := Split(text[1..], sep);
      if text[0] == sep then [""] + rest else [[text[0]] + rest[0]] + rest[1..]
  }

  lemma {:induction false} SplitWhole(text: string, sep: char)
    requires sep !in text
    ensures Split(text, sep) == [text]
  {
    if text != "" {
      SplitWhole(text[1..], sep);
      assert text == [text[0]] + text[1..];
    }
  }

  lemma {:induction false} SplitJoined(a: string, b: string, sep: char)
    ensures Split(a + [sep] + b, sep) == Split(a, sep) + Split(b, sep)
  {
    var whole := a + [sep] + b;
    if a == "" {
      assert whole[1..] == b;
    } else {
      assert whole[1..] == a[1..] + [sep] + b;
      SplitJoined(a[1..], b, sep);
    }
  }

  /** strings.IndexByte; the length of the text if the character is absent. */
  function IndexOf(text: string, c: char): (k: nat)
    ensures k <= |text|
    ensures k < |text| ==> text[k] == c
    ensures c !in text[..k]
  {
    if text == "" || text[0] == c then 0
    else
      var k := 1 + IndexOf(text[1..], c);
      assert text[..k] == [text[0]] + text[1..][..k - 1];
      k
  }

  lemma {:induction false} IndexOfFirst(a: string, b: string, c: char)
    requires c !in a
    ensures IndexOf(a + [c] + b, c) == |a|
  {
    if a != "" {
      assert (a + [c] + b)[1..] == a[1..] + [c] + b;
      IndexOfFirst(a[1..], b, c);
    }
  }

  /** unicode.IsSpace. */
  predicate IsSpace(c: char) {
    var n := c as int;
    || 0x9 <= n <= 0xD || n == 0x20 || n == 0x85 || n == 0xA0 || n == 0x1680 || 0x2000 <= n <= 0x200A
    || n == 0x2028 || n == 0x2029 || n == 0x202F || n == 0x205F || n == 0x3000
  }

  function TrimLeft(text: string): (r: string)
    ensures |r| <= |text| && r == text[|text| - |r|..]
    ensures r != "" ==> !IsSpace(r[0])
  {
    if text != "" && IsSpace(text[0]) then TrimLeft(text[1..]) else text
  }

  function TrimRight(text: string): (r: string)
    ensures r <= text
    ensures r != "" ==> !IsSpace(r[|r| - 1])
  {
    if text != "" && IsSpace(text[|text| - 1]) then TrimRight(text[..|text| - 1]) else text
  }

  /** strings.TrimSpace. */
  function Trim(text: string): (r: string)
    ensures r != "" ==> !IsSpace(r[0]) && !IsSpace(r[|r| - 1])
  {
    TrimRight(TrimLeft(text))
  }

  predicate AreSpaces(text: string) {
    forall i :: 0 <= i < |text| ==> IsSpace(text[i])
  }

  lemma {:induction false} TrimLeftCuts(text: string, i: nat)
    requires i < |text| - |TrimLeft(text)|
    ensures IsSpace(text[i])
  {
    if i > 0 {
      TrimLeftCuts(text[1..], i - 1);
    }
  }

  lemma {:induction false} TrimRightCuts(text: string, i: nat)
    requires |TrimRight(text)| <= i < |text|
    ensures IsSpace(text[i])
  {
    if i < |text| - 1 {
      TrimRightCuts(text[..|text| - 1], i);
    }
  }

  lemma LeftCut(text: string) returns (left: string)
    ensures text == left + TrimLeft(text) && AreSpaces(left)
  {
    left := text[..|text| - |TrimLeft(text)|];
    forall i | 0 <= i < |left| ensures IsSpace(left[i]) {
      TrimLeftCuts(text, i);
    }
  }

  lemma RightCut(text: string) returns (right: string)
    ensures text == TrimRight(text) + right && AreSpaces(right)
  {
    right := text[|TrimRight(text)|..];
    forall i | 0 <= i < |right| ensures IsSpace(right[i]) {
      TrimRightCuts(text, |TrimRight(text)| + i);
    }
  }

  /** Trimming cuts white space off at both ends, and all of it. */
  lemma TrimCuts(text: string) returns (left: string, right: string)
    ensures text == left + Trim(text) + right && AreSpaces(left) && AreSpaces(right) && IsTrimmed(Trim(text))
  {
    left := LeftCut(text);
    right := RightCut(TrimLeft(text));
    Joined(left, Trim(text), right);
  }

  lemma Joined(a: string, b: string, c: string)
    ensures a + (b + c) == a + b + c
  {}

  lemma TrimAddsNothing(text: string, c: char)
    requires c !in text
    ensures c !in Trim(text)
  {
    assert c !in TrimLeft(text);
  }

  predicate IsTrimmed(text: string) {
    text != "" ==> !IsSpace(text[0]) && !IsSpace(text[|text| - 1])
  }

  lemma TrimNothing(text: string)
    requires IsTrimmed(text)
    ensures Trim(text) == text
  {}

  /** Trimming what follows the first space of a trimmed line leaves something. */
  lemma {:induction false} TrimLeftKeeps(text: string)
    requires text != "" && !IsSpace(text[|text| - 1])
    ensures TrimLeft(text) != "" && TrimLeft(text)[|TrimLeft(text)| - 1] == text[|text| - 1]
  {
    if IsSpace(text[0]) {
      TrimLeftKeeps(text[1..]);
    }
  }

  lemma TrimAfterSpace(text: string)
    requires text != "" && text[0] == ' '
    ensures Trim(text) == Trim(text[1..])
  {
    assert IsSpace(text[0]);
  }

  lemma {:induction false} SplitPrefixed(prefix: string, text: string, sep: char)
    requires sep !in prefix
    ensures Split(prefix + text, sep) == [prefix + Split(text, sep)[0]] + Split(text, sep)[1..]
  {
    if prefix == "" {
      assert prefix + text == text;
      assert prefix + Split(text, sep)[0] == Split(text, sep)[0];
    } else {
      assert (prefix + text)[1..] == prefix[1..] + text;
      SplitPrefixed(prefix[1..], text, sep);
      assert prefix + Split(text, sep)[0] == [prefix[0]] + (prefix[1..] + Split(text, sep)[0]);
    }
  }

  lemma {:induction false} TrimRightKeepsFirst(text: string)
    requires text != "" && !IsSpace(text[0])
    ensures TrimRight(text) != "" && TrimRight(text)[0] == text[0]
  {
    if IsSpace(text[|text| - 1]) {
      TrimRightKeepsFirst(text[..|text| - 1]);
    }
  }

  lemma TrimKeepsFirst(text: string)
    requires text != "" && !IsSpace(text[0])
    ensures Trim(text) != "" && Trim(text)[0] == text[0]
  {
    TrimRightKeepsFirst(text);
  }

  /** strings.Join with a one-character separator. */
  function Join(parts: seq<string>, sep: char): string {
    if parts == [] then ""
    else if |parts| == 1 then parts[0]
    else parts[0] + [sep] + Join(parts[1..], sep)
  }

  lemma {:induction false} SplitOfJoin(parts: seq<string>, sep: char)
    requires parts != [] && forall i :: 0 <= i < |parts| ==> sep !in parts[i]
    ensures Split(Join(parts, sep), sep) == parts
  {
    SplitWhole(parts[0], sep);
    if |parts| > 1 {
      SplitOfJoin(parts[1..], sep);
      SplitJoined(parts[0], Join(parts[1..], sep), sep);
    }
  }
}
