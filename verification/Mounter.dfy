/** The host side of a mount: waiting for the device, formatting a blank disk, and
    mounting and unmounting, each proved to be a run of its call automaton. */
module Mounter {
  import opened Options
  import opened Names
  import opened Records
  import opened Protocol
  import opened Host
  import opened MountTable
  import opened World

  const POLL := 500 * MILLISECOND

  // ---- waiting for a device ----

  /** When the k-th probe happens, counting from 0, if only sleeping takes time. */
  function ProbeTime(start: int, k: int): int {
    start + k * 500_000_000
  }

  ghost predicate AllAbsent(device: int -> bool, start: int, probes: nat) {
    forall k | 0 <= k < probes :: !device(ProbeTime(start, k))
  }

  /** What a wait did: so many probes, of which only the last may have found the device;
      it gave up on its own only past the deadline. */
  ghost predicate Waited(device: int -> bool, start: int, timeout: int, ok: bool, cancelled: bool, probes: nat)
    requires timeout >= 0
  {
    && 1 <= probes <= timeout / 500_000_000 + 2
    && AllAbsent(device, start, probes - 1)
    && (ok <==> device(ProbeTime(start, probes - 1)))
    && (!ok && !cancelled ==> ProbeTime(start, probes - 1) > start + timeout)
  }

  datatype Probe = There | TooLate | Stopped | NotYet

  lemma ProbesBounded(k: nat, timeout: int)
    requires timeout >= 0 && (k > 0 ==> ProbeTime(0, k - 1) <= timeout)
    ensures k <= timeout / 500_000_000 + 1
  {
  }

  /** Every device that appears by the deadline and stays is found, cancellation aside. */
  lemma StayingDeviceIsFound(device: int -> bool, start: int, timeout: int, ok: bool, cancelled: bool, probes: nat, t0: int)
    requires timeout >= 0 && Waited(device, start, timeout, ok, cancelled, probes)
    requires t0 <= start + timeout && forall t | t >= t0 :: device(t)
    ensures ok || cancelled
  {
    assert device(ProbeTime(start, probes - 1)) || ProbeTime(start, probes - 1) <= start + timeout;
  }

  // ---- what a mount comes to, told by the commands that were run ----

  /** A file system is made by one run of the tool for it, which does not ask; of an
      unknown kind, by none. */
  predicate Formatted(runs: seq<Ran>, n: string, fsType: string) {
    if fsType == "ext4" then |runs| == 1 && runs[0].args == ["mkfs.ext4", "-F", "/dev/disk/by-id/google-" + n]
    else if fsType == "xfs" then |runs| == 1 && runs[0].args == ["mkfs.xfs", "-f", "/dev/disk/by-id/google-" + n]
    else runs == []
  }

  /** The probe, and what was run to make a file system. */
  datatype Formatting = Formatting(probe: Ran, runs: seq<Ran>)

  /** blkid has found nothing: it exits with 2, or with 0 and prints nothing. */
  predicate Blank(probe: Ran) {
    probe.code == 2 || (probe.code == 0 && TrimSpace(probe.output) == "")
  }

  /** A file system is made only on a device that the probe found blank. */
  predicate FormatTold(n: string, fsType: string, f: Formatting) {
    && f.probe.args == ["blkid", "-p", "-o", "value", "-s", "TYPE", "/dev/disk/by-id/google-" + n]
    && (if Blank(f.probe) then Formatted(f.runs, n, fsType) else f.runs == [])
  }

  predicate FormatOk(f: Formatting) {
    if Blank(f.probe) then |f.runs| == 1 && f.runs[0].code == 0 else f.probe.code == 0
  }

  /** Whether the target was mounted already, and the mount. */
  datatype Mounting = Mounting(was: Option<bool>, runs: seq<Ran>)

  predicate MountTold(n: string, m: Mounting) {
    m.runs == [] ||
    (m.was == Some(false) && |m.runs| == 1 &&
     m.runs[0].args == ["mount", "/dev/disk/by-id/google-" + n, "/var/lib/docker-gcepd/mounts/" + n])
  }

  predicate MountOk(m: Mounting) {
    m.was == Some(true) || (m.was == Some(false) && |m.runs| == 1 && m.runs[0].code == 0)
  }

  // ---- /proc/mounts ----

  /** Whether a line of the table has the target, whatever else the lines say. */
  method ScanMounts(text: string, target: string) returns (mounted: bool)
    ensures mounted == MountedIn(text, target)
    ensures forall entries: seq<Entry> | ProperTable(entries) && text == TextOf(entries) ::
              mounted <==> exists e | e in entries :: Clean(e.target) == Clean(target)
  {
    TextDecides(text, target);
    var lines := Split(text, '\n');
    for i := 0 to |lines|
      invariant forall j | 0 <= j < i :: !MountsAt(lines[j], target)
    {
      if MountsAt(lines[i], target) {
        return true;
      }
    }
    mounted := false;
  }

  class Mounter {
    const w: World
    const deviceTimeout: int

    constructor (w: World, deviceTimeout: int)
      requires deviceTimeout >= 0
      ensures this.w == w && this.deviceTimeout == deviceTimeout
    {
      this.w, this.deviceTimeout := w, deviceTimeout;
    }

    ghost predicate In(c: Call)
      reads w
    {
      w.Valid() && w.caller.ctl.Calling? && w.call == c && deviceTimeout >= 0
    }

    twostate predicate Kept()
      reads w
    {
      w.Kept()
    }

    /** The wait is over. */
    ghost method EndWait(n: string, o: Outcome)
      requires In(WaitDevice(n)) && (o.OBool? || o.OError?) && w.MayEnd(o)
      modifies w
      ensures Kept() && w.now == old(w.now) && w.stopped == old(w.stopped)
      ensures w.call == Return(if o == OBool(true) then ROk else RErr)
    {
      w.Settle(o);
    }

    /** The device node is not there: too late, cancelled, or not yet. */
    method GoOn(n: string, deadline: int) returns (v: Probe)
      requires In(WaitDevice(n)) && w.MayEnd(OBool(false))
      modifies w
      ensures Kept() && w.now == old(w.now)
      ensures w.call == if v.NotYet? then WaitDevice(n) else Return(RErr)
      ensures !v.There? && (v.TooLate? ==> w.now > deadline) && (v.Stopped? ==> w.stopped) && (v.NotYet? ==> w.now <= deadline)
    {
      if w.now > deadline {
        EndWait(n, OBool(false));
        return TooLate;
      }
      var cancelled := w.Cancelled();
      if cancelled {
        EndWait(n, OError);
        return Stopped;
      }
      v := NotYet;
    }

    /** One look at the device node: there, too late, cancelled, or not yet. */
    method ProbeOnce(n: string, deadline: int) returns (v: Probe)
      requires In(WaitDevice(n))
      modifies w
      ensures Kept() && w.now == old(w.now)
      ensures w.call == if v.NotYet? then WaitDevice(n) else Return(if v.There? then ROk else RErr)
      ensures v.There? <==> w.device(DevicePath(n), w.now)
      ensures (v.TooLate? ==> w.now > deadline) && (v.Stopped? ==> w.stopped)
      ensures v.NotYet? ==> w.now <= deadline
    {
      var there := w.Stat(DevicePath(n), n);
      if there {
        EndWait(n, OBool(true));
        v := There;
      } else {
        v := GoOn(n, deadline);
      }
    }

    /** Polls for the device node every half second, until it is there, the deadline is
        past, or the context is cancelled. */
    method WaitForDevice(n: string) returns (ok: bool, cancelled: bool, ghost probes: nat)
      requires In(WaitDevice(n))
      modifies w
      ensures Kept() && w.call == Return(if ok then ROk else RErr) && (cancelled ==> w.stopped)
      ensures Waited(t => w.device(DevicePath(n), t), old(w.now), deviceTimeout, ok, cancelled, probes)
    {
      var deadline := w.now + deviceTimeout;
      ghost var device := t => w.device(DevicePath(n), t);
      probes := 0;
      while true
        invariant Kept() && w.call == WaitDevice(n)
        invariant w.now == ProbeTime(old(w.now), probes) && AllAbsent(device, old(w.now), probes)
        invariant probes > 0 ==> ProbeTime(old(w.now), probes - 1) <= deadline
        decreases deadline - w.now + POLL
      {
        ProbesBounded(probes, deviceTimeout);
        probes := probes + 1;
        var v := ProbeOnce(n, deadline);
        if !v.NotYet? {
          return v.There?, v.Stopped?, probes;
        }
        w.Sleep(POLL);
      }
    }

    method Blkid(n: string) returns (code: int, output: string, ghost probe: Ran)
      requires In(w.call) && Awaits(w.cfg, w.call) == QProbe(n)
      modifies w
      ensures Kept() && w.call == old(w.call)
      ensures w.heard == Some(if code == 0 then OFs(TrimSpace(output)) else if code == 2 then OFs("") else OError)
      ensures w.ran == old(w.ran) + [probe] && probe.code == code && probe.output == output
      ensures probe.args == ["blkid", "-p", "-o", "value", "-s", "TYPE", "/dev/disk/by-id/google-" + n]
    {
      var args := ["blkid", "-p", "-o", "value", "-s", "TYPE", DevicePath(n)];
      code, output := w.Run(args);
      probe := Ran(args, code, output);
    }

    /** The file system on the device: "" if blkid finds none, which it reports with
        exit code 2; any other failure is an error. */
    method ProbeFSType(n: string) returns (t: Option<string>, ghost probe: Ran)
      requires In(w.call) && Awaits(w.cfg, w.call) == QProbe(n)
      modifies w
      ensures Kept()
      ensures w.call == After(w.cfg, old(w.call), if t.Some? then OFs(t.value) else OError)
      ensures w.ran == old(w.ran) + [probe]
      ensures probe.args == ["blkid", "-p", "-o", "value", "-s", "TYPE", "/dev/disk/by-id/google-" + n]
      ensures t == if probe.code == 0 then Some(TrimSpace(probe.output)) else if probe.code == 2 then Some("") else None
    {
      var code, output;
      code, output, probe := Blkid(n);
      if code == 0 {
        t := Some(TrimSpace(output));
      } else if code == 2 {
        t := Some("");
      } else {
        t := None;
      }
      w.Settle(if t.Some? then OFs(t.value) else OError);
    }

    /** Runs the command of the outstanding request, which succeeds with exit code 0. */
    method Execute(args: seq<string>) returns (r: Ret, ghost run: Ran)
      requires In(w.call) && CommandOf(Awaits(w.cfg, w.call)) == Some(args) && !Awaits(w.cfg, w.call).QProbe?
      requires Awaits(w.cfg, w.call).QMount? ==> w.made == Some(MountpointFor(Awaits(w.cfg, w.call).n))
      modifies w
      ensures Kept() && (r.ROk? || r.RErr?)
      ensures w.call == After(w.cfg, old(w.call), if r.ROk? then ODone else OError)
      ensures w.ran == old(w.ran) + [run] && run.args == args && (r.ROk? <==> run.code == 0)
    {
      var code, output := w.Run(args);
      run := Ran(args, code, output);
      r := if code == 0 then ROk else RErr;
      w.Settle(if r.ROk? then ODone else OError);
    }

    /** Makes a file system, of a kind that is known. */
    method Format(n: string, fsType: string) returns (r: Ret, ghost runs: seq<Ran>)
      requires if KnownFsType(fsType) then In(FormatMkfs(n, fsType)) else In(Return(RErr))
      modifies w
      ensures Kept() && w.call == Return(r) && (r.ROk? || r.RErr?)
      ensures w.ran == old(w.ran) + runs && Formatted(runs, n, fsType) && (r.ROk? <==> |runs| == 1 && runs[0].code == 0)
    {
      runs := [];
      var args := MkfsArgs(fsType, DevicePath(n));
      if args.None? {
        return RErr, runs;
      }
      ghost var run;
      r, run := Execute(args.value);
      runs := [run];
    }

    /** Formats the device only if it has no file system. */
    method EnsureFormatted(n: string, fsType: string) returns (r: Ret, ghost f: Formatting)
      requires In(FormatProbe(n, fsType))
      modifies w
      ensures Kept() && w.call == Return(r) && (r.ROk? || r.RErr?)
      ensures w.ran == old(w.ran) + [f.probe] + f.runs && FormatTold(n, fsType, f) && (r.ROk? <==> FormatOk(f))
      ensures f.runs != [] ==> f.probe.code == 2 || (f.probe.code == 0 && TrimSpace(f.probe.output) == "")
    {
      var existing, probe := ProbeFSType(n);
      f := Formatting(probe, []);
      if existing.None? {
        return RErr, f;
      }
      if existing.value != "" {
        return ROk, f;
      }
      ghost var runs;
      r, runs := Format(n, fsType);
      f := Formatting(probe, runs);
    }

    /** Scans /proc/mounts for the target of the volume. */
    method IsMounted(n: string) returns (mounted: Option<bool>)
      requires In(w.call) && Awaits(w.cfg, w.call) == QMounted(n)
      modifies w
      ensures Kept() && w.ran == old(w.ran)
      ensures w.call == After(w.cfg, old(w.call), if mounted.Some? then OBool(mounted.value) else OError)
      ensures w.settled == old(w.settled) + [Asked(QMounted(n), if mounted.Some? then OBool(mounted.value) else OError, w.now)]
    {
      var text := w.ReadMounts(n);
      if text.None? {
        w.Settle(OError);
        return None;
      }
      var b := ScanMounts(text.value, MountpointFor(n));
      w.Settle(OBool(b));
      mounted := Some(b);
    }

    /** Creates the target if need be. */
    method MakeTarget(n: string) returns (ok: bool)
      requires In(MountRun(n))
      modifies w
      ensures Kept() && w.ran == old(w.ran) && w.call == if ok then MountRun(n) else Return(RErr)
      ensures ok ==> w.made == Some(MountpointFor(n))
    {
      ok := w.MkdirAll(MountpointFor(n));
      if !ok {
        w.Settle(OError);
      }
    }

    /** Creates the target if need be and mounts the device there. */
    method MountAtTarget(n: string) returns (r: Ret, ghost runs: seq<Ran>)
      requires In(MountRun(n))
      modifies w
      ensures Kept() && w.call == Return(r) && (r.ROk? || r.RErr?)
      ensures w.ran == old(w.ran) + runs && (r.ROk? <==> |runs| == 1 && runs[0].code == 0)
      ensures runs == [] || (|runs| == 1 && runs[0].args == ["mount", "/dev/disk/by-id/google-" + n, "/var/lib/docker-gcepd/mounts/" + n])
    {
      runs := [];
      var made := MakeTarget(n);
      if !made {
        return RErr, runs;
      }
      ghost var run;
      TargetText(n);
      r, run := Execute(["mount", DevicePath(n), MountpointFor(n)]);
      runs := [run];
    }

    /** Mounts the device at the target, unless something is mounted there already. */
    method Mount(n: string) returns (r: Ret, ghost m: Mounting)
      requires In(MountCheck(n))
      modifies w
      ensures Kept() && w.call == Return(r) && (r.ROk? || r.RErr?)
      ensures w.ran == old(w.ran) + m.runs && MountTold(n, m) && (r.ROk? <==> MountOk(m))
    {
      var mounted := IsMounted(n);
      m := Mounting(mounted, []);
      if mounted.None? {
        return RErr, m;
      }
      if mounted.value {
        return ROk, m;
      }
      ghost var runs;
      r, runs := MountAtTarget(n);
      m := Mounting(mounted, runs);
    }

    /** Unmounts the target; a target that is not mounted is fine. */
    method Unmount(n: string) returns (r: Ret, ghost was: Option<bool>, ghost runs: seq<Ran>)
      requires In(UnmountCheck(n))
      modifies w
      ensures Kept() && w.call == Return(r) && (r.ROk? || r.RErr?)
      ensures w.ran == old(w.ran) + runs
      ensures if was == Some(true) then |runs| == 1 && runs[0].args == ["umount", "/var/lib/docker-gcepd/mounts/" + n] else runs == []
      ensures r.ROk? <==> was == Some(false) || (was == Some(true) && runs[0].code == 0)
    {
      var mounted := IsMounted(n);
      was, runs := mounted, [];
      if mounted.None? {
        return RErr, was, runs;
      }
      if !mounted.value {
        return ROk, was, runs;
      }
      ghost var run;
      TargetText(n);
      r, run := Execute(["umount", MountpointFor(n)]);
      runs := [run];
    }
  }
}
