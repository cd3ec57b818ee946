/** Instance references: the strings by which GCE names the users of a disk, and
    the helpers that decide whether two of them mean the same VM. */
module Refs {

  /** `sub` starts at position `i` of `s`. */
  predicate OccursAt(s: string, sub: string, i: int) {
    0 <= i && i + |sub| <= |s| && s[i..i + |sub|] == sub
  }

  /** Counting down from `i` to the first position where `sub` starts, or -1. */
  function LastAt(s: string, sub: string, i: int): (r: int)
    requires i + |sub| <= |s|
    ensures r == -1 || 0 <= r <= |s| - |sub|
    decreases i + 1
  {
    if i < 0 then -1
    else if s[i..i + |sub|] == sub then i
    else LastAt(s, sub, i - 1)
  }

  function LastIndexOf(s: string, sub: string): (r: int)
    ensures r == -1 || 0 <= r <= |s| - |sub|
  {
    LastAt(s, sub, |s| - |sub|)
  }

  lemma {:induction false} LastAtIsGreatest(s: string, sub: string, i: int)
    requires i + |sub| <= |s|
    ensures var r := LastAt(s, sub, i);
            (r == -1 || (OccursAt(s, sub, r) && r <= i)) && forall j :: OccursAt(s, sub, j) && j <= i ==> j <= r
    decreases i + 1
  {
    if i >= 0 && s[i..i + |sub|] != sub {
      LastAtIsGreatest(s, sub, i - 1);
    }
  }

  /** It is the greatest occurrence, or -1 if there is none. */
  lemma LastIndexIsGreatest(s: string, sub: string)
    ensures var r := LastIndexOf(s, sub);
            (r == -1 || OccursAt(s, sub, r)) && forall j :: OccursAt(s, sub, j) ==> j <= r
  {
    LastAtIsGreatest(s, sub, |s| - |sub|);
  }

  /** The counting loop of the source. Its result is the greatest occurrence. */
  method LastIndex(s: string, sub: string) returns (r: int)
    ensures r == LastIndexOf(s, sub)
    ensures r == -1 <==> forall j :: !OccursAt(s, sub, j)
    ensures r >= 0 ==> OccursAt(s, sub, r) && forall j :: OccursAt(s, sub, j) ==> j <= r
  {
    LastIndexIsGreatest(s, sub);
    var i := |s| - |sub|;
    while i >= 0
      invariant -1 <= i || i == |s| - |sub|
      invariant i + |sub| <= |s|
      invariant LastIndexOf(s, sub) == LastAt(s, sub, i)
      decreases i + 1
    {
      if s[i..i + |sub|] == sub {
        return i;
      }
      i := i - 1;
    }
    r := -1;
  }

  const PROJECTS_MARKER := "/projects/"

  function TrailingInstancePath(s: string): string {
    var i := LastIndexOf(s, PROJECTS_MARKER);
    if i >= 0 then s[i + 1..] else s
  }

  predicate SameInstance(a: string, b: string) {
    TrailingInstancePath(a) == TrailingInstancePath(b)
  }

  function LastURLSegment(s: string): string {
    var i := LastIndexOf(s, "/");
    if i >= 0 then s[i + 1..] else s
  }

  function InstanceNameFromRef(ref: string): string {
    LastURLSegment(TrailingInstancePath(ref))
  }

  /** Everything of a self-link except the instance name itself. */
  function LinkBase(project: string, zone: string): string {
    "projects/" + project + "/zones/" + zone + "/instances/"
  }

  function SelfLink(project: string, zone: string, instance: string): string {
    LinkBase(project, zone) + instance
  }

  /** The form in which GCE reports a user: the self-link behind a URL prefix. */
  function UserRef(prefix: string, project: string, zone: string, instance: string): string {
    prefix + "/" + SelfLink(project, zone, instance)
  }

  /** Both forms in full. */
  lemma ReferenceTexts(prefix: string, project: string, zone: string, instance: string)
    ensures SelfLink(project, zone, instance) == "projects/" + project + "/zones/" + zone + "/instances/" + instance
    ensures UserRef(prefix, project, zone, instance) ==
            prefix + "/projects/" + project + "/zones/" + zone + "/instances/" + instance
  {
    var link := "projects/" + project + "/zones/" + zone + "/instances/" + instance;
    assert prefix + "/" + link == prefix + "/projects/" + project + "/zones/" + zone + "/instances/" + instance;
  }

  predicate SlashFree(s: string) {
    '/' !in s
  }

  /** The decision of `diskReleasedBy`: no listed user is the holder. */
  predicate Released(users: seq<string>, project: string, zone: string, holder: string) {
    forall i | 0 <= i < |users| :: !SameInstance(users[i], SelfLink(project, zone, holder))
  }

  method CheckReleased(users: seq<string>, project: string, zone: string, holder: string) returns (released: bool)
    ensures released == Released(users, project, zone, holder)
  {
    for i := 0 to |users|
      invariant forall j | 0 <= j < i :: !SameInstance(users[j], SelfLink(project, zone, holder))
    {
      if SameInstance(users[i], SelfLink(project, zone, holder)) {
        return false;
      }
    }
    released := true;
  }

  method CheckSame(a: string, b: string) returns (same: bool)
    ensures same == SameInstance(a, b)
  {
    same := SameInstance(a, b);
  }

  method CheckListed(users: seq<string>, self: string) returns (listed: bool)
    ensures listed == exists i | 0 <= i < |users| :: SameInstance(users[i], self)
  {
    for i := 0 to |users|
      invariant forall j | 0 <= j < i :: !SameInstance(users[j], self)
    {
      if SameInstance(users[i], self) {
        return true;
      }
    }
    listed := false;
  }

  // ---- occurrences in concatenations ----

  lemma OccursBehind(p: string, s: string, sub: string, j: nat)
    ensures OccursAt(p + s, sub, |p| + j) <==> OccursAt(s, sub, j)
  {
    if j + |sub| <= |s| {
      assert (p + s)[|p| + j..|p| + j + |sub|] == s[j..j + |sub|];
    }
  }

  lemma OccursInFront(s: string, t: string, sub: string, j: nat)
    requires j + |sub| <= |s|
    ensures OccursAt(s + t, sub, j) <==> OccursAt(s, sub, j)
  {
    assert (s + t)[j..j + |sub|] == s[j..j + |sub|];
  }

  /** If `s` holds an occurrence, the last one of `p + s` is the last one of `s`. */
  lemma LastIndexBehind(p: string, s: string, sub: string)
    requires LastIndexOf(s, sub) >= 0
    ensures LastIndexOf(p + s, sub) == |p| + LastIndexOf(s, sub)
  {
    var i, k := LastIndexOf(s, sub), LastIndexOf(p + s, sub);
    LastIndexIsGreatest(s, sub);
    LastIndexIsGreatest(p + s, sub);
    OccursBehind(p, s, sub, i);
    OccursBehind(p, s, sub, k - |p|);
  }

  /** An appended text without the last character of `sub` changes nothing. */
  lemma LastIndexInFront(s: string, t: string, sub: string)
    requires |sub| > 0 && sub[|sub| - 1] !in t
    ensures LastIndexOf(s + t, sub) == LastIndexOf(s, sub)
  {
    var i, k := LastIndexOf(s, sub), LastIndexOf(s + t, sub);
    LastIndexIsGreatest(s, sub);
    LastIndexIsGreatest(s + t, sub);
    if i >= 0 { OccursInFront(s, t, sub, i); }
    if k >= 0 {
      assert (s + t)[k..k + |sub|][|sub| - 1] == (s + t)[k + |sub| - 1];
      assert k + |sub| <= |s|;
      OccursInFront(s, t, sub, k);
    }
  }

  // ---- the reduction to a trailing path ----

  /** A reference that has been reduced once stays as it is. */
  lemma TrailingIdempotent(s: string)
    ensures TrailingInstancePath(TrailingInstancePath(s)) == TrailingInstancePath(s)
  {
    var i := LastIndexOf(s, PROJECTS_MARKER);
    LastIndexIsGreatest(s, PROJECTS_MARKER);
    if i >= 0 {
      var j := LastIndexOf(s[i + 1..], PROJECTS_MARKER);
      LastIndexIsGreatest(s[i + 1..], PROJECTS_MARKER);
      if j >= 0 {
        assert s == s[..i + 1] + s[i + 1..];
        OccursBehind(s[..i + 1], s[i + 1..], PROJECTS_MARKER, j);
        assert false;
      }
    }
  }

  /** Whatever stands before a `/projects/` is ignored. */
  lemma PrefixIgnored(p: string, s: string)
    requires OccursAt(s, PROJECTS_MARKER, 0)
    ensures TrailingInstancePath(p + s) == TrailingInstancePath(s)
  {
    LastIndexIsGreatest(s, PROJECTS_MARKER);
    LastIndexBehind(p, s, PROJECTS_MARKER);
    var i := LastIndexOf(s, PROJECTS_MARKER);
    assert (p + s)[|p| + i + 1..] == s[i + 1..];
  }

  /** A slash-free name appended to a base never takes part in the reduction. */
  lemma TrailingKeepsName(base: string, name: string)
    requires SlashFree(name)
    ensures TrailingInstancePath(base + name) == TrailingInstancePath(base) + name
  {
    LastIndexInFront(base, name, PROJECTS_MARKER);
    var i := LastIndexOf(base, PROJECTS_MARKER);
    LastIndexIsGreatest(base, PROJECTS_MARKER);
    if i >= 0 {
      assert i + 1 <= |base|;
      assert (base + name)[i + 1..] == base[i + 1..] + name;
    }
  }

  /** One leading slash before `projects/` makes no difference. */
  lemma LeadingSlashIgnored(base: string)
    requires OccursAt("/" + base, PROJECTS_MARKER, 0)
    ensures TrailingInstancePath("/" + base) == TrailingInstancePath(base)
  {
    var i, k := LastIndexOf(base, PROJECTS_MARKER), LastIndexOf("/" + base, PROJECTS_MARKER);
    LastIndexIsGreatest(base, PROJECTS_MARKER);
    LastIndexIsGreatest("/" + base, PROJECTS_MARKER);
    if i >= 0 {
      LastIndexBehind("/", base, PROJECTS_MARKER);
      assert ("/" + base)[i + 2..] == base[i + 1..];
    } else {
      if k > 0 { OccursBehind("/", base, PROJECTS_MARKER, k - 1); }
      assert k == 0;
      assert ("/" + base)[1..] == base;
    }
  }

  lemma LinkBaseShape(project: string, zone: string)
    ensures OccursAt("/" + LinkBase(project, zone), PROJECTS_MARKER, 0)
    ensures |LinkBase(project, zone)| > 0 && LinkBase(project, zone)[|LinkBase(project, zone)| - 1] == '/'
  {
    var rest := project + "/zones/" + zone + "/instances/";
    assert LinkBase(project, zone) == "projects/" + rest;
    assert "/" + LinkBase(project, zone) == PROJECTS_MARKER + rest;
    assert (PROJECTS_MARKER + rest)[0..|PROJECTS_MARKER|] == PROJECTS_MARKER;
    var front := "projects/" + project + "/zones/" + zone;
    assert LinkBase(project, zone) == front + "/instances/";
  }

  /** A URL prefix makes no difference to a reference that starts with `projects/`. */
  lemma UrlPrefixIgnored(prefix: string, base: string, name: string)
    requires SlashFree(name) && OccursAt("/" + base, PROJECTS_MARKER, 0)
    ensures TrailingInstancePath(prefix + "/" + (base + name)) == TrailingInstancePath(base) + name
  {
    var tail := "/" + base;
    assert prefix + "/" + (base + name) == prefix + (tail + name);
    OccursInFront(tail, name, PROJECTS_MARKER, 0);
    PrefixIgnored(prefix, tail + name);
    TrailingKeepsName(tail, name);
    LeadingSlashIgnored(base);
  }

  lemma UserRefTrailing(prefix: string, project: string, zone: string, name: string)
    requires SlashFree(name)
    ensures TrailingInstancePath(UserRef(prefix, project, zone, name)) ==
            TrailingInstancePath(LinkBase(project, zone)) + name
    ensures TrailingInstancePath(SelfLink(project, zone, name)) ==
            TrailingInstancePath(LinkBase(project, zone)) + name
  {
    LinkBaseShape(project, zone);
    UrlPrefixIgnored(prefix, LinkBase(project, zone), name);
    TrailingKeepsName(LinkBase(project, zone), name);
  }

  /** In the client's own project and zone, two references name the same VM
      exactly when the instance names are equal. No condition on project or zone. */
  lemma SameInstanceIffSameName(prefix: string, project: string, zone: string, a: string, b: string)
    requires SlashFree(a) && SlashFree(b)
    ensures SameInstance(UserRef(prefix, project, zone, a), SelfLink(project, zone, b)) <==> a == b
  {
    UserRefTrailing(prefix, project, zone, a);
    UserRefTrailing(prefix, project, zone, b);
    var t := TrailingInstancePath(LinkBase(project, zone));
    if t + a == t + b {
      assert a == (t + a)[|t|..] == (t + b)[|t|..] == b;
    }
  }

  /** Behind a base that ends in a slash, the last URL segment is the name. */
  lemma LastSegment(t: string, name: string)
    requires |t| > 0 && t[|t| - 1] == '/' && SlashFree(name)
    ensures LastURLSegment(t + name) == name
  {
    LastIndexIsGreatest(t, "/");
    LastIndexInFront(t, name, "/");
    assert OccursAt(t, "/", |t| - 1);
    assert (t + name)[|t|..] == name;
  }

  function DiskTypeUrl(project: string, zone: string, diskType: string): string {
    "projects/" + project + "/zones/" + zone + "/diskTypes/" + diskType
  }

  /** The type a disk is asked for as a URL, behind whatever prefix GCE puts on it, is
      read back as the same short type: adoption compares like with like. */
  lemma DiskTypeRoundTrip(prefix: string, project: string, zone: string, diskType: string)
    requires SlashFree(diskType)
    ensures LastURLSegment(prefix + DiskTypeUrl(project, zone, diskType)) == diskType
  {
    var front := prefix + "projects/" + project + "/zones/" + zone;
    var base := front + "/diskTypes/";
    assert prefix + DiskTypeUrl(project, zone, diskType) == base + diskType;
    LastSegment(base, diskType);
  }

  lemma TrailingEndsWithSlash(base: string)
    requires |base| > 0 && base[|base| - 1] == '/'
    ensures var t := TrailingInstancePath(base); |t| > 0 && t[|t| - 1] == '/'
  {
    LastIndexIsGreatest(base, PROJECTS_MARKER);
  }

  /** The name inside a reference is recovered whole. */
  lemma InstanceNameRoundTrip(prefix: string, project: string, zone: string, name: string)
    requires SlashFree(name)
    ensures InstanceNameFromRef(UserRef(prefix, project, zone, name)) == name
    ensures InstanceNameFromRef(SelfLink(project, zone, name)) == name
  {
    UserRefTrailing(prefix, project, zone, name);
    LinkBaseShape(project, zone);
    TrailingEndsWithSlash(LinkBase(project, zone));
    LastSegment(TrailingInstancePath(LinkBase(project, zone)), name);
  }

  /** Recognition of the holder survives the trip through its short name: the
      disk counts as released exactly when the holder is no longer a user. */
  lemma ReleasedIffGone(prefix: string, project: string, zone: string, users: seq<string>, holder: string)
    requires SlashFree(holder) && forall u | u in users :: SlashFree(u)
    ensures var refs := seq(|users|, i requires 0 <= i < |users| => UserRef(prefix, project, zone, users[i]));
            Released(refs, project, zone, InstanceNameFromRef(UserRef(prefix, project, zone, holder)))
            <==> holder !in users
  {
    InstanceNameRoundTrip(prefix, project, zone, holder);
    var refs := seq(|users|, i requires 0 <= i < |users| => UserRef(prefix, project, zone, users[i]));
    forall i | 0 <= i < |users|
      ensures SameInstance(refs[i], SelfLink(project, zone, holder)) <==> users[i] == holder
    {
      SameInstanceIffSameName(prefix, project, zone, users[i], holder);
    }
    if holder in users {
      var i :| 0 <= i < |users| && users[i] == holder;
      assert refs[i] in refs;
    }
  }
}
