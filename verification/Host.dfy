/** The host of a VM: the commands the plugin runs there and what they mean, and the
    mount table. */
module Host {
  import opened Options
  import opened Names
  import opened Protocol
  import opened Texts

  function DevicePath(n: string): string {
    "/dev/disk/by-id/google-" + n
  }

  function MkfsArgs(fsType: string, device: string): Option<seq<string>> {
    if fsType == "ext4" then Some(["mkfs.ext4", "-F", device])
    else if fsType == "xfs" then Some(["mkfs.xfs", "-f", device])
    else None
  }

  /** Exactly the file systems that option parsing accepts can be made. */
  lemma MkfsKnowsFsTypes(fsType: string, device: string)
    ensures MkfsArgs(fsType, device).Some? <==> KnownFsType(fsType)
  {
  }

  /** The command line that carries out a request on the host. */
  function CommandOf(q: Query): Option<seq<string>> {
    match q
    case QProbe(n) => Some(["blkid", "-p", "-o", "value", "-s", "TYPE", DevicePath(n)])
    case QMkfs(n, fsType) => MkfsArgs(fsType, DevicePath(n))
    case QMount(n) => Some(["mount", DevicePath(n), MountpointFor(n)])
    case QUmount(n) => Some(["umount", MountpointFor(n)])
    case _ => None
  }

  /** What the exit code and output of the command mean. blkid reports a blank device
      with exit code 2. */
  function ResultOf(q: Query, code: int, output: string): Outcome {
    if q.QProbe? then
      if code == 0 then OFs(TrimSpace(output)) else if code == 2 then OFs("") else OError
    else if code == 0 then ODone
    else OError
  }

  // ---- paths ----

  /** The elements of a cleaned path: empty ones and dots are dropped, a double dot takes
      back the element before it, or is dropped at the root. */
  function Elements(parts: seq<string>, rooted: bool): seq<string> {
    if parts == [] then [] else
      var front, e := Elements(parts[..|parts| - 1], rooted), parts[|parts| - 1];
      if e == "" || e == "." then front
      else if e != ".." then front + [e]
      else if front != [] && front[|front| - 1] != ".." then front[..|front| - 1]
      else if rooted then front
      else front + [e]
  }

  function Join(elements: seq<string>): string {
    if elements == [] then ""
    else if |elements| == 1 then elements[0]
    else Join(elements[..|elements| - 1]) + "/" + elements[|elements| - 1]
  }

  /** The shortest path name equivalent to this one. */
  function Clean(path: string): string {
    var rooted := path != "" && path[0] == '/';
    var elements := Elements(Split(path, '/'), rooted);
    if rooted then "/" + Join(elements) else if elements == [] then "." else Join(elements)
  }

  predicate Ordinary(e: string) {
    e != "" && e != "." && e != ".."
  }

  lemma ElementAdded(parts: seq<string>, e: string)
    requires Ordinary(e)
    ensures Elements(parts + [e], true) == Elements(parts, true) + [e]
  {
    assert (parts + [e])[..|parts|] == parts;
  }

  lemma JoinAdded(elements: seq<string>, e: string)
    requires elements != []
    ensures Join(elements + [e]) == Join(elements) + "/" + e
  {
    assert (elements + [e])[..|elements|] == elements;
  }

  /** An absolute path of these parts. */
  function Path(parts: seq<string>): string {
    if parts == [] then "" else Path(parts[..|parts| - 1]) + "/" + parts[|parts| - 1]
  }

  predicate ProperParts(parts: seq<string>) {
    forall e | e in parts :: Ordinary(e) && '/' !in e
  }

  lemma {:induction false} SplitPath(parts: seq<string>)
    requires forall e | e in parts :: '/' !in e
    ensures Split(Path(parts), '/') == [""] + parts
  {
    if parts == [] {
      SplitNone("", '/');
    } else {
      var front, e := parts[..|parts| - 1], parts[|parts| - 1];
      SplitPath(front);
      SplitOff(Path(front), e, '/');
      assert [""] + parts == [""] + front + [e];
    }
  }

  lemma {:induction false} ProperElements(parts: seq<string>)
    requires ProperParts(parts)
    ensures Elements([""] + parts, true) == parts
  {
    if parts == [] {
      assert [""] + parts == [""] && [""][..0] == [];
    } else {
      var front, e := parts[..|parts| - 1], parts[|parts| - 1];
      ProperElements(front);
      ElementAdded([""] + front, e);
      assert [""] + parts == [""] + front + [e] && parts == front + [e];
    }
  }

  lemma {:induction false} PathJoins(parts: seq<string>)
    requires parts != []
    ensures Path(parts) == "/" + Join(parts)
  {
    var front, e := parts[..|parts| - 1], parts[|parts| - 1];
    if front != [] {
      PathJoins(front);
      assert parts == front + [e];
      JoinAdded(front, e);
    }
  }

  /** A path of proper parts is clean as it is. */
  lemma PathIsClean(parts: seq<string>)
    requires parts != [] && ProperParts(parts)
    ensures Clean(Path(parts)) == Path(parts)
  {
    SplitPath(parts);
    ProperElements(parts);
    PathJoins(parts);
  }

  // ---- cleaning any absolute path ----

  lemma CleanOfPath(parts: seq<string>)
    requires parts != [] && forall e | e in parts :: '/' !in e
    ensures Clean(Path(parts)) == "/" + Join(Elements([""] + parts, true))
  {
    SplitPath(parts);
    PathJoins(parts);
  }

  lemma NextElement(parts: seq<string>, e: string)
    ensures Elements(parts + [e], true) ==
            var front := Elements(parts, true);
            if e == "" || e == "." then front
            else if e != ".." then front + [e]
            else if front != [] && front[|front| - 1] != ".." then front[..|front| - 1]
            else front
  {
    assert (parts + [e])[..|parts|] == parts;
  }

  lemma ElementsGoOnce(a: seq<string>, b: seq<string>, e: string)
    requires Elements(a, true) == Elements(b, true)
    ensures Elements(a + [e], true) == Elements(b + [e], true)
  {
    NextElement(a, e);
    NextElement(b, e);
  }

  lemma Shifted(a: seq<string>, rest: seq<string>)
    requires rest != []
    ensures a + rest == (a + [rest[0]]) + rest[1..]
  {
  }

  /** What follows goes on from the elements so far. */
  lemma {:induction false} ElementsGoOn(a: seq<string>, b: seq<string>, rest: seq<string>)
    requires Elements(a, true) == Elements(b, true)
    ensures Elements(a + rest, true) == Elements(b + rest, true)
    decreases |rest|
  {
    if rest == [] {
      assert a + rest == a && b + rest == b;
    } else {
      ElementsGoOnce(a, b, rest[0]);
      ElementsGoOn(a + [rest[0]], b + [rest[0]], rest[1..]);
      Shifted(a, rest);
      Shifted(b, rest);
    }
  }

  lemma CleanFrom(a: seq<string>, rest: seq<string>)
    requires a + rest != [] && forall e | e in a + rest :: '/' !in e
    ensures Clean(Path(a + rest)) == "/" + Join(Elements([""] + a + rest, true))
  {
    CleanOfPath(a + rest);
    assert [""] + a + rest == [""] + (a + rest);
  }

  lemma SameClean(a: seq<string>, b: seq<string>, rest: seq<string>)
    requires Elements([""] + a, true) == Elements([""] + b, true) && a + rest != [] && b + rest != []
    requires (forall e | e in a + rest :: '/' !in e) && (forall e | e in b + rest :: '/' !in e)
    ensures Clean(Path(a + rest)) == Clean(Path(b + rest))
  {
    ElementsGoOn([""] + a, [""] + b, rest);
    CleanFrom(a, rest);
    CleanFrom(b, rest);
  }

  /** With what a proper path is cleaned to, these rules say it for every absolute path.
      Empty parts and dots are dropped. */
  lemma CleanDropsDots(front: seq<string>, e: string, rest: seq<string>)
    requires (e == "" || e == ".") && front + rest != [] && forall p | p in front + rest :: '/' !in p
    ensures Clean(Path(front + [e] + rest)) == Clean(Path(front + rest))
  {
    NextElement([""] + front, e);
    assert [""] + front + [e] == [""] + (front + [e]);
    SameClean(front + [e], front, rest);
  }

  /** A double dot takes back the ordinary part before it. */
  lemma CleanTakesBack(front: seq<string>, e: string, rest: seq<string>)
    requires Ordinary(e) && '/' !in e && front + rest != [] && forall p | p in front + rest :: '/' !in p
    ensures Clean(Path(front + [e] + [".."] + rest)) == Clean(Path(front + rest))
  {
    NextElement([""] + front, e);
    NextElement([""] + front + [e], "..");
    var was := Elements([""] + front, true);
    assert (was + [e])[..|was|] == was;
    assert [""] + front + [e] + [".."] == [""] + (front + [e] + [".."]);
    SameClean(front + [e] + [".."], front, rest);
  }

  /** The root is its own parent. */
  lemma CleanStopsAtRoot(rest: seq<string>)
    requires rest != [] && forall p | p in rest :: '/' !in p
    ensures Clean(Path([".."] + rest)) == Clean(Path(rest)) && Clean("/") == "/"
  {
    NextElement([""], "..");
    NextElement([], "");
    assert [] + [""] == [""] && [""] + [".."] == [""] + ([".."] + []) && [""] + [] == [""];
    SameClean([".."], [], rest);
    assert [] + rest == rest;
    CleanOfPath([""]);
    NextElement([""], "");
    assert Path([""]) == "/" by { assert [""][..0] == []; }
  }

  lemma PathAdded(parts: seq<string>, e: string)
    ensures Path(parts + [e]) == Path(parts) + "/" + e
  {
    assert (parts + [e])[..|parts|] == parts;
  }

  function Under(root: string, e: string): string {
    root + "/" + e
  }

  lemma PathOfFour(a: string, b: string, c: string, d: string)
    ensures Path([a] + [b] + [c] + [d]) == Under(Under(Under(Under("", a), b), c), d)
  {
    PathAdded([], a);
    assert [] + [a] == [a];
    PathAdded([a], b);
    PathAdded([a] + [b], c);
    PathAdded([a] + [b] + [c], d);
  }

  lemma RootPath()
    ensures Under(Under(Under(Under("", "var"), "lib"), "docker-gcepd"), "mounts") == MOUNT_ROOT
  {
  }

  /** The mount target of a valid name is clean as it is: cleaning never makes two
      volumes share one. */
  lemma TargetIsClean(n: string)
    requires ValidDiskName(n)
    ensures Clean(MountpointFor(n)) == MountpointFor(n)
  {
    assert forall i | 0 <= i < |n| :: n[i] != '/' && n[i] != '.';
    var root := ["var"] + ["lib"] + ["docker-gcepd"] + ["mounts"];
    PathOfFour("var", "lib", "docker-gcepd", "mounts");
    RootPath();
    PathAdded(root, n);
    PathIsClean(root + [n]);
  }

  // ---- /proc/mounts ----

  /** The fields of a line, separated by white space. */
  function Fields(line: string): seq<string>
    decreases |line|
  {
    if line == "" then []
    else if IsSpace(line[0]) then Fields(line[1..])
    else
      var k := WordLength(line);
      [line[..k]] + Fields(line[k..])
  }

  function WordLength(s: string): (k: nat)
    ensures k <= |s| && (s != "" && !IsSpace(s[0]) ==> k > 0)
  {
    if s == "" || IsSpace(s[0]) then 0 else 1 + WordLength(s[1..])
  }

  /** The line records a mount at this target, both paths cleaned. */
  predicate MountsAt(line: string, target: string) {
    |Fields(line)| >= 2 && Clean(Fields(line)[1]) == Clean(target)
  }

  predicate MountedIn(text: string, target: string) {
    exists i | 0 <= i < |Split(text, '\n')| :: MountsAt(Split(text, '\n')[i], target)
  }
}
