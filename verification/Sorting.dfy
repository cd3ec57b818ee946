/** The order in which names are listed and written to the state file. */
module Sorting {

  /** Go's string order: lexicographic. */
  predicate Less(a: string, b: string) {
    b != "" && (a == "" || a[0] < b[0] || (a[0] == b[0] && Less(a[1..], b[1..])))
  }

  lemma {:induction false} LessIsTotal(a: string, b: string)
    ensures Less(a, b) || a == b || Less(b, a)
    ensures !(Less(a, b) && Less(b, a))
    ensures Less(a, b) ==> a != b
  {
    if a != "" && b != "" && a[0] == b[0] {
      LessIsTotal(a[1..], b[1..]);
      if a[1..] == b[1..] { assert a == [a[0]] + a[1..] == b; }
    }
  }

  /** One text comes before another if it is a proper prefix of it, or has the smaller
      character where they first differ. */
  lemma {:induction false} LessByFirstDifference(a: string, b: string, i: nat)
    requires i <= |a| && i <= |b| && a[..i] == b[..i]
    ensures i == |a| < |b| ==> Less(a, b) && !Less(b, a)
    ensures i < |a| && i < |b| && (a[i] as int) < b[i] as int ==> Less(a, b) && !Less(b, a)
  {
    if i > 0 {
      assert a[0] == a[..i][0] && b[0] == b[..i][0];
      assert a[1..][..i - 1] == a[..i][1..] && b[1..][..i - 1] == b[..i][1..];
      LessByFirstDifference(a[1..], b[1..], i - 1);
    }
  }

  lemma {:induction false} LessIsTransitive(a: string, b: string, c: string)
    requires Less(a, b) && Less(b, c)
    ensures Less(a, c)
  {
    if a != "" && a[0] == b[0] == c[0] {
      LessIsTransitive(a[1..], b[1..], c[1..]);
    }
  }

  /** Strictly ascending, hence without repetition. */
  predicate Ascending(s: seq<string>) {
    forall i, j | 0 <= i < j < |s| :: Less(s[i], s[j])
  }

  function Insert(x: string, s: seq<string>): (r: seq<string>)
    ensures multiset(r) == multiset(s) + multiset{x}
  {
    if s == [] || Less(x, s[0]) then
      assert [x] + s == [x] + s; [x] + s
    else
      assert s == [s[0]] + s[1..];
      [s[0]] + Insert(x, s[1..])
  }

  lemma {:induction false} InsertAscending(x: string, s: seq<string>)
    requires Ascending(s) && x !in s
    ensures Ascending(Insert(x, s))
    ensures forall y :: y in Insert(x, s) <==> y == x || y in s
  {
    var r := Insert(x, s);
    if s == [] || Less(x, s[0]) {
      forall j | 0 <= j < |s| ensures Less(x, s[j]) {
        if j > 0 { LessIsTransitive(x, s[0], s[j]); }
      }
    } else {
      InsertAscending(x, s[1..]);
      LessIsTotal(x, s[0]);
      forall j | 1 <= j < |r| ensures Less(r[0], r[j]) {
        assert r[j] in Insert(x, s[1..]);
        if r[j] != x { var k :| 0 <= k < |s[1..]| && s[1..][k] == r[j]; assert s[k + 1] == r[j]; }
      }
      forall i, j | 1 <= i < j < |r| ensures Less(r[i], r[j]) {
        assert r[i] == r[1..][i - 1] && r[j] == r[1..][j - 1];
      }
      assert s == [s[0]] + s[1..];
    }
  }

  /** `sort.Strings`. */
  function Sort(s: seq<string>): (r: seq<string>)
    ensures multiset(r) == multiset(s)
  {
    if s == [] then [] else
      assert s == s[..|s| - 1] + [s[|s| - 1]];
      Insert(s[|s| - 1], Sort(s[..|s| - 1]))
  }

  predicate Distinct(s: seq<string>) {
    forall i, j | 0 <= i < j < |s| :: s[i] != s[j]
  }

  lemma {:induction false} SortAscending(s: seq<string>)
    requires Distinct(s)
    ensures Ascending(Sort(s))
    ensures forall y :: y in Sort(s) <==> y in s
  {
    if s != [] {
      var front, x := s[..|s| - 1], s[|s| - 1];
      SortAscending(front);
      InsertAscending(x, Sort(front));
      assert s == front + [x];
    }
  }

  ghost predicate Lists(s: seq<string>, names: set<string>) {
    forall x :: x in s <==> x in names
  }

  lemma HeadIn(t: seq<string>)
    requires t != []
    ensures t[0] in t
  {
  }

  /** An ascending listing is determined by the set of names it lists. */
  lemma {:induction false} AscendingUnique(s: seq<string>, t: seq<string>)
    requires Ascending(s) && Ascending(t)
    requires forall x :: x in s <==> x in t
    ensures s == t
  {
    if s == [] {
      if t != [] { HeadIn(t); }
    } else {
      assert s[0] in t && (t == [] || t[0] in s);
      var i :| 0 <= i < |t| && t[i] == s[0];
      var j :| 0 <= j < |s| && s[j] == t[0];
      LessIsTotal(s[0], t[0]);
      assert s[0] == t[0];
      forall x ensures x in s[1..] <==> x in t[1..] {
        if x in s[1..] { LessIsTotal(s[0], x); assert x in t && x != t[0]; }
        if x in t[1..] { LessIsTotal(t[0], x); assert x in s && x != s[0]; }
      }
      AscendingUnique(s[1..], t[1..]);
    }
  }

  /** The ascending listing of a finite set. */
  ghost function Listing(names: set<string>): (s: seq<string>)
    ensures Ascending(s) && Lists(s, names) && Distinct(s)
  {
    if names == {} then [] else
      var x :| x in names;
      var rest := Listing(names - {x});
      InsertAscending(x, rest);
      AscendingIsDistinct(Insert(x, rest));
      Insert(x, rest)
  }

  lemma AscendingIsDistinct(s: seq<string>)
    requires Ascending(s)
    ensures Distinct(s)
  {
    forall i, j | 0 <= i < j < |s| ensures s[i] != s[j] {
      LessIsTotal(s[i], s[j]);
    }
  }
}
