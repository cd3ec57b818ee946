/** Names: what may name a disk, how a snapshot is named after it, and the decimal
    rendering used in the retry error. */
module Names {

  predicate IsLower(c: char) { 'a' <= c <= 'z' }

  predicate IsDigit(c: char) { '0' <= c <= '9' }

  predicate NameChar(c: char) { IsLower(c) || IsDigit(c) || c == '-' }

  /** The pattern `^[a-z]([-a-z0-9]*[a-z0-9])?$` (section 2.3.1 of RFC 1035, in
      lower case) of at most 63 characters. */
  predicate ValidDiskName(name: string) {
    && 1 <= |name| <= 63
    && IsLower(name[0])
    && (forall i | 0 <= i < |name| :: NameChar(name[i]))
    && name[|name| - 1] != '-'
  }

  predicate Inner(s: string) {
    forall i | 0 <= i < |s| :: s[i] == '-' || 'a' <= s[i] <= 'z' || '0' <= s[i] <= '9'
  }

  /** The pattern read from left to right: a lower-case letter; alone, or followed by any
      number of letters, digits and hyphens and then one letter or digit. */
  ghost predicate Pattern(name: string) {
    exists head: char :: 'a' <= head <= 'z' && (name == [head] || LongPattern(name, head))
  }

  ghost predicate LongPattern(name: string, head: char) {
    exists mid: string, last: char ::
      name == [head] + mid + [last] && Inner(mid) && ('a' <= last <= 'z' || '0' <= last <= '9')
  }

  lemma PatternIsValid(name: string)
    requires |name| <= 63 && Pattern(name)
    ensures ValidDiskName(name)
  {
    var head: char :| 'a' <= head <= 'z' && (name == [head] || LongPattern(name, head));
    if name != [head] {
      var mid, last :| name == [head] + mid + [last] && Inner(mid) && ('a' <= last <= 'z' || '0' <= last <= '9');
      forall i | 0 <= i < |name| ensures NameChar(name[i]) {
        assert name[i] == if i == 0 then head else if i == |name| - 1 then last else mid[i - 1];
      }
    }
  }

  /** What may name a disk is what the pattern matches, up to 63 characters. */
  lemma NameByPattern(name: string)
    ensures ValidDiskName(name) <==> |name| <= 63 && Pattern(name)
  {
    if ValidDiskName(name) && |name| == 1 {
      assert name == [name[0]];
    } else if ValidDiskName(name) {
      var mid, last := name[1..|name| - 1], name[|name| - 1];
      assert name == [name[0]] + mid + [last];
      forall i | 0 <= i < |mid| ensures NameChar(mid[i]) { assert mid[i] == name[i + 1]; }
      assert NameChar(last) && LongPattern(name, name[0]);
    }
    if |name| <= 63 && Pattern(name) { PatternIsValid(name); }
  }

  function Truncate(s: string, n: nat): (r: string)
    ensures |r| <= n && r <= s && (r == s || |r| == n)
  {
    if |s| <= n then s else s[..n]
  }

  /** A compact UTC timestamp such as 20060102t150405. */
  predicate IsStamp(s: string) {
    |s| == 15 && s[8] == 't' && forall i | 0 <= i < 15 && i != 8 :: IsDigit(s[i])
  }

  function SnapshotName(disk: string, stamp: string): string {
    Truncate(disk, 40) + "-snap-" + stamp
  }

  /** A valid disk name gives a valid snapshot name, within the length limit. */
  lemma SnapshotNameIsValid(disk: string, stamp: string)
    requires ValidDiskName(disk) && IsStamp(stamp)
    ensures ValidDiskName(SnapshotName(disk, stamp)) && |SnapshotName(disk, stamp)| <= 61
    ensures SnapshotName(disk, stamp) == (if |disk| <= 40 then disk else disk[..40]) + "-snap-" + stamp
  {
    var t, mid := Truncate(disk, 40), "-snap-";
    var r := SnapshotName(disk, stamp);
    assert r == t + mid + stamp && t == disk[..|t|];
    forall i | 0 <= i < |r| ensures NameChar(r[i]) {
      if i < |t| { assert r[i] == disk[i]; }
      else if i < |t| + 6 { assert r[i] == mid[i - |t|]; }
      else { assert r[i] == stamp[i - |t| - 6]; }
    }
    assert r[|r| - 1] == stamp[14];
  }

  /** Disks whose names agree in the first 40 characters share a snapshot name
      exactly when their stamps are equal too. */
  lemma SnapshotNamesCollide(a: string, b: string, s: string, t: string)
    requires ValidDiskName(a) && ValidDiskName(b) && IsStamp(s) && IsStamp(t)
    ensures SnapshotName(a, s) == SnapshotName(b, t) <==> Truncate(a, 40) == Truncate(b, 40) && s == t
  {
    var x, y := SnapshotName(a, s), SnapshotName(b, t);
    assert x[..|x| - 21] == Truncate(a, 40) && y[..|y| - 21] == Truncate(b, 40);
    assert x[|x| - 15..] == s && y[|y| - 15..] == t;
  }

  const MOUNT_ROOT := "/var/lib/docker-gcepd/mounts"

  function MountpointFor(name: string): string {
    MOUNT_ROOT + "/" + name
  }

  /** The target in full. */
  lemma TargetText(name: string)
    ensures MountpointFor(name) == "/var/lib/docker-gcepd/mounts/" + name
  {
    assert MOUNT_ROOT + "/" == "/var/lib/docker-gcepd/mounts/";
  }

  /** Two volumes never share a mount target. */
  lemma MountpointInjective(a: string, b: string)
    ensures MountpointFor(a) == MountpointFor(b) <==> a == b
    ensures MountpointFor(a) != ""
  {
    var p := MOUNT_ROOT + "/";
    assert (p + a)[|p|..] == a && (p + b)[|p|..] == b;
    assert |p + a| > 0;
  }

  // ---- itoa ----

  function DigitChar(d: nat): char
    requires d < 10
  {
    '0' + d as char
  }

  function Decimal(n: nat): (s: string)
    ensures |s| > 0 && forall i | 0 <= i < |s| :: IsDigit(s[i])
  {
    if n < 10 then [DigitChar(n)] else Decimal(n / 10) + [DigitChar(n % 10)]
  }

  /** The value of a string of decimal digits. */
  function Value(s: string): nat
    requires forall i | 0 <= i < |s| :: IsDigit(s[i])
  {
    if s == "" then 0 else
      assert IsDigit(s[|s| - 1]);
      10 * Value(s[..|s| - 1]) + (s[|s| - 1] - '0') as nat
  }

  lemma {:induction false} DecimalEvaluates(n: nat)
    ensures Value(Decimal(n)) == n
    ensures Decimal(n)[0] == '0' <==> n == 0
  {
    if n >= 10 {
      DecimalEvaluates(n / 10);
      assert Decimal(n)[..|Decimal(n)| - 1] == Decimal(n / 10);
    } else {
      assert Decimal(n)[..0] == "";
      assert Value("") == 0;
    }
  }

  /** Decimal forms without a leading zero are unique. */
  lemma {:induction false} DecimalUnique(s: string)
    requires |s| > 0 && forall i | 0 <= i < |s| :: IsDigit(s[i])
    requires s[0] == '0' ==> |s| == 1
    ensures Decimal(Value(s)) == s
  {
    var front, d := s[..|s| - 1], (s[|s| - 1] - '0') as nat;
    assert IsDigit(s[|s| - 1]);
    if |s| == 1 {
      assert Value(front) == 0;
    } else {
      DecimalUnique(front);
      assert Value(s) == 10 * Value(front) + d;
      PositiveUnlessZero(front);
      assert Value(s) / 10 == Value(front) && Value(s) % 10 == d;
    }
  }

  lemma {:induction false} PositiveUnlessZero(s: string)
    requires |s| > 0 && forall i | 0 <= i < |s| :: IsDigit(s[i])
    requires s[0] != '0'
    ensures Value(s) > 0
  {
    assert IsDigit(s[0]);
    if |s| > 1 {
      PositiveUnlessZero(s[..|s| - 1]);
    }
  }

  lemma {:induction false} DecimalLength(n: nat, k: nat)
    requires n < Pow10(k) && k > 0
    ensures |Decimal(n)| <= k
  {
    if n >= 10 {
      DecimalLength(n / 10, k - 1);
    }
  }

  function Pow10(k: nat): nat {
    if k == 0 then 1 else 10 * Pow10(k - 1)
  }

  /** The digit loop over a 20-byte buffer, filled from the right. A 64-bit int has
      at most 19 digits, so the index never underruns; a negative number, for which
      the loop body never runs, renders as nothing. */
  method Itoa(n: int) returns (s: string)
    requires n < 0x8000_0000_0000_0000
    ensures n >= 0 ==> s == Decimal(n)
    ensures n < 0 ==> s == ""
  {
    if n == 0 {
      return "0";
    }
    var b := new char[20];
    var i, m := 20, n;
    if n > 0 { TwentyDigits(n); }
    while m > 0
      invariant 0 <= i <= 20
      invariant m > 0 ==> n >= 0 && |Decimal(m)| <= i
      invariant n >= 0 ==> m >= 0
      invariant n >= 0 ==> Decimal(n) == (if m > 0 then Decimal(m) else "") + b[i..]
      invariant n < 0 ==> i == 20
      decreases m
    {
      ghost var tail := b[i..];
      i := i - 1;
      b[i] := DigitChar(m % 10);
      assert b[i..] == [DigitChar(m % 10)] + tail;
      m := m / 10;
    }
    s := b[i..];
  }

  lemma TwentyDigits(n: nat)
    requires n < 0x8000_0000_0000_0000
    ensures |Decimal(n)| <= 19
  {
    assert Pow10(5) == 100000;
    assert Pow10(10) == 10000000000;
    assert Pow10(15) == 1000000000000000;
    assert Pow10(19) == 10000000000000000000;
    DecimalLength(n, 19);
  }
}
