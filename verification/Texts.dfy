/** What the text functions that the plugin relies on amount to: splitting at a character
    undoes joining, and trimming takes the white space off both ends and nothing else. */
module Texts {
  import opened Options

  // ---- splitting ----

  lemma {:induction false} FirstAt(s: string, t: string, c: char)
    requires c !in s
    ensures IndexOf(s + [c] + t, c) == |s|
  {
    if s != "" {
      assert (s + [c] + t)[0] == s[0] && (s + [c] + t)[1..] == s[1..] + [c] + t;
      FirstAt(s[1..], t, c);
    }
  }

  lemma {:induction false} NotThere(s: string, c: char)
    requires c !in s
    ensures IndexOf(s, c) == |s|
  {
    if s != "" { NotThere(s[1..], c); }
  }

  lemma SplitNone(s: string, c: char)
    requires c !in s
    ensures Split(s, c) == [s]
  {
    NotThere(s, c);
  }

  lemma SplitFirst(s: string, t: string, c: char)
    requires c !in s
    ensures Split(s + [c] + t, c) == [s] + Split(t, c)
  {
    FirstAt(s, t, c);
    assert (s + [c] + t)[..|s|] == s && (s + [c] + t)[|s| + 1..] == t;
  }

  /** A last part without the separator is split off whole. */
  lemma {:induction false} SplitOff(s: string, t: string, c: char)
    requires c !in t
    ensures Split(s + [c] + t, c) == Split(s, c) + [t]
    decreases |s|
  {
    var i := IndexOf(s, c);
    if i == |s| {
      assert s[..i] == s;
      SplitFirst(s, t, c);
      SplitNone(t, c);
      SplitNone(s, c);
    } else {
      var head, rest := s[..i], s[i + 1..];
      assert s == head + [c] + rest && s + [c] + t == head + [c] + (rest + [c] + t);
      SplitFirst(head, rest, c);
      SplitFirst(head, rest + [c] + t, c);
      SplitOff(rest, t, c);
    }
  }

  /** Parts with the separator between them. */
  function Joined(parts: seq<string>, c: char): string
    requires parts != []
  {
    if |parts| == 1 then parts[0] else Joined(parts[..|parts| - 1], c) + [c] + parts[|parts| - 1]
  }

  /** Splitting gives the parts back. */
  lemma {:induction false} SplitJoined(parts: seq<string>, c: char)
    requires parts != [] && forall p | p in parts :: c !in p
    ensures Split(Joined(parts, c), c) == parts
  {
    if |parts| == 1 {
      SplitNone(parts[0], c);
    } else {
      var front, last := parts[..|parts| - 1], parts[|parts| - 1];
      SplitJoined(front, c);
      SplitOff(Joined(front, c), last, c);
    }
  }

  // ---- white space ----

  /** White space by code point, as Unicode 15 has it. */
  lemma SpacesByCode(c: char)
    ensures IsSpace(c) <==>
            var k := c as int;
            9 <= k <= 13 || k == 0x20 || k == 0x85 || k == 0xA0 || k == 0x1680 || 0x2000 <= k <= 0x200A ||
            k == 0x2028 || k == 0x2029 || k == 0x202F || k == 0x205F || k == 0x3000
  {
  }

  /** Outside of these bounds there is only white space, and they do not start or end with
      any. */
  predicate Bounds(s: string, i: nat, j: nat) {
    && i <= j <= |s|
    && (forall k | 0 <= k < i :: IsSpace(s[k]))
    && (forall k | j <= k < |s| :: IsSpace(s[k]))
    && (i < j ==> !IsSpace(s[i]) && !IsSpace(s[j - 1]))
  }

  lemma {:induction false} LeftTrimmed(s: string) returns (i: nat)
    ensures i <= |s| && TrimLeft(s) == s[i..] && (i < |s| ==> !IsSpace(s[i])) && forall k | 0 <= k < i :: IsSpace(s[k])
  {
    i := 0;
    if s != "" && IsSpace(s[0]) {
      var rest := LeftTrimmed(s[1..]);
      i := rest + 1;
      assert s[1..][rest..] == s[i..];
      assert forall k | 1 <= k < i :: s[k] == s[1..][k - 1];
    }
  }

  lemma FrontOf(s: string, front: string, j: nat)
    requires s != "" && front == s[..|s| - 1] && j <= |front|
    ensures front[..j] == s[..j] && forall k | 0 <= k < |front| :: front[k] == s[k]
  {
  }

  lemma {:induction false} RightTrimmed(s: string) returns (j: nat)
    ensures j <= |s| && TrimRight(s) == s[..j] && (j > 0 ==> !IsSpace(s[j - 1])) && forall k | j <= k < |s| :: IsSpace(s[k])
  {
    if s != "" && IsSpace(s[|s| - 1]) {
      var front := s[..|s| - 1];
      j := RightTrimmed(front);
      FrontOf(s, front, j);
    } else {
      j := |s|;
      assert s[..|s|] == s;
    }
  }

  /** Trimming takes white space off both ends until neither has any. */
  lemma TrimmedBothEnds(s: string) returns (i: nat, j: nat)
    ensures Bounds(s, i, j) && TrimSpace(s) == s[i..j]
  {
    i := LeftTrimmed(s);
    var t := s[i..];
    var l := RightTrimmed(t);
    j := i + l;
    assert t[..l] == s[i..j];
    forall k | j <= k < |s| ensures IsSpace(s[k]) { assert s[k] == t[k - i]; }
    assert i < j ==> s[j - 1] == t[l - 1];
  }

  /** And that says what the result is. */
  lemma TrimIsUnique(s: string, i: nat, j: nat)
    requires Bounds(s, i, j)
    ensures TrimSpace(s) == s[i..j]
  {
    var x, y := TrimmedBothEnds(s);
    assert s[x..y] == s[i..j];
  }
}
