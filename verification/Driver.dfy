/** The volume driver: Create, Remove, Mount, Unmount and the startup reconciliation,
    on top of the GCE client, the mounter and the store. Each operation is proved to
    follow the protocol from its first step to the reply it gives. */
module Driver {
  import opened Options
  import opened Names
  import opened Records
  import opened Protocol
  import opened World
  import C = Client
  import M = Mounter
  import S = Store
  import opened Reconciling
  import opened Requests
  import OptionTexts
  import Sorting

  /** One scan of the mount table for each of these volumes, in this order. */
  predicate ScansOf(scans: seq<Asked>, names: seq<string>) {
    |scans| == |names| && forall i | 0 <= i < |scans| :: scans[i].q == QMounted(names[i])
  }

  /** The volumes whose scan answered that they are mounted. */
  function FoundMounted(scans: seq<Asked>): set<string> {
    set a | a in scans && a.q.QMounted? && a.o == OBool(true) :: a.q.n
  }

  lemma FoundNext(scans: seq<Asked>, a: Asked)
    requires a.q.QMounted?
    ensures FoundMounted(scans + [a]) == FoundMounted(scans) + if a.o == OBool(true) then {a.q.n} else {}
  {
    assert forall x :: x in scans + [a] <==> x in scans || x == a;
  }

  /** One more scan: what it adds to the set, and to the records. */
  lemma ScanAdds(vols: Vols, names: seq<string>, scans: seq<Asked>, scan: Asked)
    requires |scans| < |names| && Sorting.Distinct(names) && ScansOf(scans, names[..|scans|])
    requires scan.q == QMounted(names[|scans|]) && names[|scans|] in vols
    ensures ScansOf(scans + [scan], names[..|scans| + 1])
    ensures var n, was := names[|scans|], Restored(vols, FoundMounted(scans));
            n in was && Restored(vols, FoundMounted(scans + [scan])) ==
            if scan.o == OBool(true) then was[n := SetMountedd(was[n], MountpointFor(n))] else was
  {
    var i, n := |scans|, names[|scans|];
    forall m | m in FoundMounted(scans) ensures m != n {
      var a :| a in scans && a.q.QMounted? && a.q.n == m;
      var j :| 0 <= j < i && scans[j] == a;
      assert a.q == QMounted(names[..i][j]);
    }
    FoundNext(scans, scan);
    RestoredNext(vols, FoundMounted(scans), n);
    assert names[..i + 1] == names[..i] + [n];
  }

  /** The next listed disk is either resumed or kept. */
  lemma ListingNext(disks: seq<Listed>, i: nat, before: seq<Delete>)
    requires i < |disks|
    ensures var l, was, now := disks[i], disks[..i], disks[..i + 1];
            if Marked(l.disk.labels) then
              Available(now) == Available(was) && ImportTable(now) == ImportTable(was) &&
              before + Resumable(now) == before + Resumable(was) + [Delete(l.name, false)]
            else
              Available(now) == Available(was) + [l.name] && Resumable(now) == Resumable(was) &&
              ImportTable(now) == ImportTable(was)[l.name := ImportOptions(l.disk)]
  {
    assert disks[..i + 1][..i] == disks[..i];
  }

  lemma BeforeScan(vols: Vols, names: seq<string>)
    ensures Restored(vols, FoundMounted([])) == vols
    ensures names[0..] == names && names[..|names|] == names && ScanNext(names[|names|..]) == Idle(Fine)
  {
  }

  lemma ScanResumes(t: Thread, n: string, todo: seq<string>, b: Option<bool>)
    requires t.ctl.Calling? && t.ctl.k == KScan(n, todo)
    ensures AfterCall(t, KScan(n, todo), if b.Some? then RBool(b.value) else RErr) ==
            t.(ctl := if b == Some(true) then Storing(OpSetMounted(n, MountpointFor(n)), SScan(todo)) else ScanNext(todo))
  {
  }

  lemma Appended(before: seq<Asked>, scans: seq<Asked>, scan: Asked)
    ensures before + scans + [scan] == before + (scans + [scan])
  {
  }

  /** What follows the attach: whether the device was found, the formatting if it was, and
      the mount if that left a file system. */
  datatype Bringing = Bringing(found: bool, format: Option<M.Formatting>, mount: Option<M.Mounting>)

  /** Each step is taken exactly if the one before it went well, and the reply is a success
      exactly if the last one did and the count was written. */
  predicate Brought(n: string, fsType: string, b: Bringing, fine: bool, persisted: bool) {
    && (b.format.Some? <==> b.found)
    && (b.format.Some? ==> M.FormatTold(n, fsType, b.format.value))
    && (b.mount.Some? <==> b.format.Some? && M.FormatOk(b.format.value))
    && (b.mount.Some? ==> M.MountTold(n, b.mount.value))
    && (fine <==> b.mount.Some? && M.MountOk(b.mount.value) && persisted)
  }

  /** A first use: the attach and how it ended, what followed, and the release. */
  datatype FirstUse = FirstUse(attach: Attaching, attached: Ret, bring: Option<Bringing>, release: Option<Release>)

  class Driver {
    const w: World
    const gce: C.Client
    const mount: M.Mounter
    const state: S.Store
    /** Background deletes started so far. */
    var bg: seq<Delete>

    constructor (w: World, gce: C.Client, mount: M.Mounter, state: S.Store)
      requires gce.w == w && mount.w == w
      ensures this.w == w && this.gce == gce && this.mount == mount && this.state == state && bg == []
    {
      this.w, this.gce, this.mount, this.state, this.bg := w, gce, mount, state, [];
    }

    /** The collaborators share one world, and the protocol's view of the records and
        of the background deletes is the real one. */
    ghost predicate Valid()
      reads this, w, state
    {
      && gce.w == w && mount.w == w && C.ValidBackoff(gce.backoff) && gce.forceDetachAfter >= 0 && mount.deviceTimeout >= 0
      && w.Valid() && state.Valid()
      && w.Entered(w.thread) && w.thread.vols == state.vols && w.thread.bg == bg
    }

    /** The driver serves: it holds no lock and has no request open. */
    ghost predicate Serving()
      reads this, w, state
    {
      Valid() && w.thread.ctl.Idle?
    }

    /** The operation took its first step from the state before the call, and the walk
        from there has come to this reply. */
    twostate predicate Completed(op: Op, reply: Reply)
      reads this, w, state
      requires old(w.thread.ctl.Idle?)
    {
      && Serving() && w.Extends()
      && |w.threads| > |old(w.threads)|
      && w.threads[|old(w.threads)|] == Moved(w.cfg, old(w.thread), MBegin(op))
      && w.thread.ctl == Idle(reply)
    }

    /** Takes the first step of an operation. */
    ghost method Start(op: Op)
      requires Serving()
      modifies w
      ensures Valid() && Continues() && w.Entered(Moved(w.cfg, old(w.thread), MBegin(op)))
      ensures |w.threads| > |old(w.threads)| && w.threads[|old(w.threads)|] == w.thread
      ensures w.first.None? && w.failed == old(w.failed) && w.settled == old(w.settled)
    {
      w.Advance(MBegin(op));
    }

    /** Within an operation: the walk goes on. */
    twostate predicate Continues()
      reads this, w, state
    {
      Valid() && w.Extends()
    }

    /** The records are as before, or changed to `after`: on a success they are changed, on
        a refusal exactly if a persist has failed in the meantime. */
    twostate predicate AllOrNothing(after: Vols, reply: Reply)
      reads this, w, state
    {
      (reply.Fine? ==> w.failed == old(w.failed)) &&
      state.vols == if reply.Fine? || w.failed != old(w.failed) then after else old(state.vols)
    }

    // ---- Create ----

    /** Records a disk that exists in GCE, if it is ours and fits the options. */
    method AdoptExistingDisk(n: string, d: DiskView, options: DiskOptions, stamp: string) returns (reply: Reply)
      requires Valid() && n !in state.vols
      requires w.thread.ctl == if Adoptable(d, options) then Storing(OpAdd(NewRecord(n, options, stamp)), SAdopt) else Idle(Refuse)
      modifies w, state, state.fs
      ensures Continues() && bg == old(bg) && w.thread.ctl == Idle(reply)
      ensures w.first == old(w.first) && w.settled == old(w.settled)
      ensures if "managed-by" in d.labels && d.labels["managed-by"] == "docker-gcepd" &&
                 d.sizeGb == options.sizeGb && d.diskType == options.diskType
              then reply.Fine? <==> w.failed == old(w.failed)
              else reply.Refuse? && w.failed == old(w.failed)
      ensures AllOrNothing(old(state.vols)[n := NewRecord(n, options, stamp)], reply)
    {
      if !Managed(d.labels) {
        return Refuse;
      }
      if d.sizeGb != options.sizeGb || d.diskType != options.diskType {
        return Refuse;
      }
      var ok := state.Add(NewRecord(n, options, stamp));
      w.Advance(MStore(ok));
      reply := if ok then Fine else Refuse;
    }

    /** Deletes the disk of a volume that could not be recorded. */
    method RollBack(n: string) returns (reply: Reply)
      requires Valid() && w.thread.ctl == Calling(KCreateRollback(n), DeleteGet(n, false))
      modifies w
      ensures Continues() && w.thread.ctl == Idle(reply) && reply.Refuse? && Unchanged()
      ensures old(w.settled) <= w.settled
    {
      var _, _ := gce.DeleteDisk(n, false);
      w.Resume();
      reply := Refuse;
    }

    /** A call has been made and nothing stored. */
    twostate predicate Unchanged()
      reads this, w
    {
      w.failed == old(w.failed) && w.thread.vols == old(w.thread.vols) && (old(w.first).Some? ==> w.first == old(w.first))
    }

    /** Records a disk that was created; if it cannot be recorded, the next step is to
        delete it again, and the reply is a refusal. */
    method RecordNew(n: string, options: DiskOptions, stamp: string) returns (reply: Reply)
      requires Valid() && n !in state.vols && w.first.Some?
      requires w.thread.ctl == Storing(OpAdd(NewRecord(n, options, stamp)), SCreate(n))
      modifies w, state, state.fs
      ensures Continues() && bg == old(bg) && w.thread.ctl == Idle(reply) && w.first == old(w.first)
      ensures (reply.Fine? <==> w.failed == old(w.failed)) && state.vols == old(state.vols)[n := NewRecord(n, options, stamp)]
      ensures |w.threads| > |old(w.threads)| && w.threads[|old(w.threads)|].ctl ==
              if reply.Fine? then Idle(Fine) else Calling(KCreateRollback(n), DeleteGet(n, false))
      ensures old(w.settled) <= w.settled
    {
      var ok := state.Add(NewRecord(n, options, stamp));
      w.Advance(MStore(ok));
      if ok {
        return Fine;
      }
      reply := RollBack(n);
    }

    /** Creates the disk and records it. */
    method Provision(n: string, options: DiskOptions, stamp: string) returns (reply: Reply, ghost requests: seq<Asked>)
      requires Valid() && n !in state.vols && ValidDiskName(n) && w.first.Some?
      requires w.thread.ctl == Calling(KCreateDisk(n, options, stamp), CreateInsert(n, options))
      modifies w, state, state.fs
      ensures Continues() && bg == old(bg) && w.thread.ctl == Idle(reply) && w.first == old(w.first)
      ensures AllOrNothing(old(state.vols)[n := NewRecord(n, options, stamp)], reply)
      ensures old(w.settled) + requests <= w.settled
      ensures reply.Fine? <==> CreatedBy(requests, n, options) && w.failed == old(w.failed)
    {
      var r;
      r, requests := gce.CreateDisk(n, options);
      w.Resume();
      if r.RErr? {
        return Refuse, requests;
      }
      reply := RecordNew(n, options, stamp);
    }

    /** What the look at GCE decides. A disk that is there is adopted if it is the plugin's,
        is not being deleted, and has the size and the type asked for, and refused without a
        trace otherwise. One that is missing is created; an error means refusal. */
    ghost predicate LookDecides(n: string, o: Outcome, options: DiskOptions, requests: seq<Asked>, reply: Reply, persisted: bool) {
      match o
      case OFound(d) =>
        var fits :=
          "managed-by" in d.labels && d.labels["managed-by"] == "docker-gcepd" &&
          !("gcepd-deleting" in d.labels && d.labels["gcepd-deleting"] == "true") &&
          d.sizeGb == options.sizeGb && d.diskType == options.diskType;
        requests == [] && (reply.Fine? <==> fits && persisted) && (!fits ==> persisted)
      case OMissing => reply.Fine? <==> CreatedBy(requests, n, options) && persisted
      case _ => requests == [] && reply.Refuse? && persisted
    }

    /** Looks for the disk in GCE. */
    method LookUp(n: string, options: DiskOptions, stamp: string) returns (o: Outcome)
      requires Valid() && w.first.None? && ValidDiskName(n)
      requires w.thread.ctl == Calling(KCreateGet(n, options, stamp), Call.GetDisk(n))
      modifies w
      ensures Continues() && w.failed == old(w.failed) && w.thread.vols == old(w.thread.vols)
      ensures w.first == Some(Asked(QGet(n), o, w.now)) && (o.OFound? || o.OMissing? || o.OError?)
      ensures w.settled == old(w.settled) + [w.first.value]
      ensures w.thread.ctl ==
              if o.OMissing? then Calling(KCreateDisk(n, options, stamp), CreateInsert(n, options))
              else if o.OFound? && !Marked(o.disk.labels) && Adoptable(o.disk, options)
              then Storing(OpAdd(NewRecord(n, options, stamp)), SAdopt)
              else Idle(Refuse)
    {
      o := gce.GetDisk(n);
      w.Resume();
    }

    /** A volume that is not tracked: an existing disk is adopted unless it is being
        deleted, and only a disk that is definitely missing is created. */
    method CreateOrAdopt(n: string, options: DiskOptions, stamp: string) returns (reply: Reply, ghost requests: seq<Asked>)
      requires Valid() && n !in state.vols && ValidDiskName(n) && w.first.None?
      requires w.thread.ctl == Calling(KCreateGet(n, options, stamp), Call.GetDisk(n))
      modifies w, state, state.fs
      ensures Continues() && bg == old(bg) && w.thread.ctl == Idle(reply)
      ensures w.first.Some? && w.first.value.q == QGet(n) && old(w.settled) + [w.first.value] + requests <= w.settled
      ensures LookDecides(n, w.first.value.o, options, requests, reply, w.failed == old(w.failed))
      ensures AllOrNothing(old(state.vols)[n := NewRecord(n, options, stamp)], reply)
    {
      var o := LookUp(n, options, stamp);
      requests := [];
      if o.OMissing? {
        reply, requests := Provision(n, options, stamp);
      } else if !o.OFound? || Marked(o.disk.labels) {
        reply := Refuse;
      } else {
        reply := AdoptExistingDisk(n, o.disk, options, stamp);
      }
    }

    /** Idempotent against the records: a known volume is only compared. */
    method CreateVolume(n: string, options: DiskOptions, stamp: string) returns (reply: Reply, ghost requests: seq<Asked>)
      requires Serving() && ValidDiskName(n)
      modifies w, state, state.fs
      ensures Completed(Op.Create(n, options, stamp), reply) && bg == old(bg)
      ensures n in old(state.vols) ==>
                state.vols == old(state.vols) && reply.Fine? == Matches(old(state.vols)[n].options, options)
      ensures n !in old(state.vols) ==>
                AllOrNothing(old(state.vols)[n := Volume(n, options, Created, "", 0, stamp)], reply) &&
                w.first.Some? && w.first.value.q == QGet(n) && old(w.settled) + [w.first.value] + requests <= w.settled &&
                LookDecides(n, w.first.value.o, options, requests, reply, w.failed == old(w.failed))
    {
      requests := [];
      Start(Op.Create(n, options, stamp));
      var existing := state.Get(n);
      if existing.Some? {
        var same := CheckMatches(existing.value.options, options);
        return if same then Fine else Refuse, requests;
      }
      reply, requests := CreateOrAdopt(n, options, stamp);
    }

    /** Refuses bad options and bad names before anything else. */
    method Create(n: string, raw: map<string, string>, stamp: string)
      returns (reply: Reply, ghost order: seq<string>, ghost requests: seq<Asked>)
      requires Serving()
      modifies w, state, state.fs
      ensures VisitingOrder(raw, order)
      ensures var opts := ParseInOrder(raw, order);
              if opts.Failure? || !ValidDiskName(n) then reply.Refuse? && w.thread == old(w.thread) && state.vols == old(state.vols)
              else Completed(Op.Create(n, opts.value, stamp), reply) &&
                   (n in old(state.vols) ==>
                      state.vols == old(state.vols) && reply.Fine? == Matches(old(state.vols)[n].options, opts.value)) &&
                   (n !in old(state.vols) ==>
                      AllOrNothing(old(state.vols)[n := Volume(n, opts.value, Created, "", 0, stamp)], reply) &&
                      w.first.Some? && w.first.value.q == QGet(n) && old(w.settled) + [w.first.value] + requests <= w.settled &&
                      LookDecides(n, w.first.value.o, opts.value, requests, reply, w.failed == old(w.failed)))
      ensures ParseInOrder(raw, order).Success? ==> OptionTexts.Tells(raw, order, ParseInOrder(raw, order).value)
      ensures Serving() && bg == old(bg)
    {
      var opts;
      opts, order := ParseDiskOptions(raw);
      OptionTexts.ParseTells(raw, order);
      requests := [];
      if opts.Failure? || !ValidDiskName(n) {
        return Refuse, order, requests;
      }
      reply, requests := CreateVolume(n, opts.value, stamp);
    }

    // ---- Remove ----

    /** Starts a delete that goes on after the reply, outside of any operation. */
    method DeleteInBackground(n: string, snapshot: bool)
      modifies this`bg
      ensures bg == old(bg) + [Delete(n, snapshot)]
    {
      bg := bg + [Delete(n, snapshot)];
    }

    /** What a background delete does, in a world of its own. */
    static method RunBackground(gce: C.Client, n: string, snapshot: bool)
      requires gce.In(DeleteGet(n, snapshot)) && gce.w.caller.ctl.k == KBackground
      modifies gce.w
      ensures gce.w.Valid() && gce.w.Extends() && gce.w.thread.ctl.Idle?
    {
      var _, _ := gce.DeleteDisk(n, snapshot);
      gce.w.Resume();
    }

    /** Refuses a volume in use; otherwise drops the record and, unless the disk is
        retained, starts its deletion, but only once the record is gone for good. */
    method Remove(n: string) returns (reply: Reply)
      requires Serving()
      modifies this`bg, w, state, state.fs
      ensures Completed(Op.Remove(n), reply)
      ensures n !in old(state.vols) || old(state.vols)[n].refCount > 0 ==>
                reply.Refuse? && state.vols == old(state.vols) && bg == old(bg)
      ensures n in old(state.vols) && old(state.vols)[n].refCount <= 0 ==>
                var v := old(state.vols)[n];
                AllOrNothing(old(state.vols) - {n}, reply) && state.vols == old(state.vols) - {n} &&
                bg == if reply.Fine? && v.options.reclaimPolicy != "retain"
                      then old(bg) + [Delete(n, v.options.snapshotOnRemove)] else old(bg)
    {
      Start(Op.Remove(n));
      var v := state.Get(n);
      if v.None? || v.value.refCount > 0 {
        return Refuse;
      }
      var ok := state.Remove(n);
      if ok && v.value.options.reclaimPolicy != RETAIN {
        DeleteInBackground(n, v.value.options.snapshotOnRemove);
      }
      w.Advance(MStore(ok));
      reply := if ok then Fine else Refuse;
    }

    // ---- Mount ----

    /** The last thing done was to release the disk. */
    ghost predicate GaveBack(n: string, rel: Option<Release>)
      reads w
    {
      rel.Some? && Releases(w.cfg, n, rel.value) && EndsReleasing(w.settled, rel.value)
    }

    /** Best-effort detach after a failed step. */
    method GiveBack(n: string, ghost k: Kont) returns (reply: Reply, ghost rel: Release)
      requires Valid() && w.thread.ctl == Calling(k, DetachGet(n)) && (k == KMountDetach(n) || k == KUndoDetach(n))
      modifies w
      ensures Continues() && w.thread.ctl == Idle(reply) && reply.Refuse? && Unchanged()
      ensures GaveBack(n, Some(rel))
    {
      var _, back := gce.DetachDisk(n);
      rel := back;
      w.Resume();
      reply := Refuse;
    }

    /** Unwinds a mount that could not be recorded. */
    method Unwind(n: string) returns (reply: Reply, ghost rel: Release)
      requires Valid() && w.thread.ctl == Calling(KUndoUnmount(n), UnmountCheck(n))
      modifies w
      ensures Continues() && w.thread.ctl == Idle(reply) && reply.Refuse? && Unchanged() && GaveBack(n, Some(rel))
    {
      var _, _, _ := mount.Unmount(n);
      w.Resume();
      reply, rel := GiveBack(n, KUndoDetach(n));
    }

    /** Counts the first reference in the records. */
    method StoreFirst(n: string) returns (ok: bool)
      requires Valid() && n in state.vols
      requires w.thread.ctl == Storing(OpIncRef(n, MountpointFor(n)), SMountNew(n))
      modifies w, state, state.fs
      ensures Continues() && bg == old(bg) && (ok <==> w.failed == old(w.failed))
      ensures w.thread.ctl == if ok then Idle(Fine) else Calling(KUndoUnmount(n), UnmountCheck(n))
      ensures state.vols == old(state.vols)[n := IncRefd(old(state.vols)[n], MountpointFor(n))]
    {
      var _, done := state.IncRef(n, MountpointFor(n));
      w.Advance(MStore(done));
      ok := done;
    }

    /** The disk is mounted: count it, or undo everything if that cannot be recorded. */
    method CountFirst(n: string) returns (reply: Reply, ghost rel: Option<Release>)
      requires Valid() && n in state.vols
      requires w.thread.ctl == Storing(OpIncRef(n, MountpointFor(n)), SMountNew(n))
      modifies w, state, state.fs
      ensures Continues() && bg == old(bg) && w.thread.ctl == Idle(reply) && (reply.Fine? <==> w.failed == old(w.failed))
      ensures state.vols == old(state.vols)[n := IncRefd(old(state.vols)[n], MountpointFor(n))]
      ensures reply.Refuse? ==> GaveBack(n, rel)
    {
      var ok := StoreFirst(n);
      if ok {
        return Fine, None;
      }
      ghost var back;
      reply, back := Unwind(n);
      rel := Some(back);
    }

    /** Formats the device if it is blank. */
    method FormatStep(n: string, fsType: string) returns (ok: bool, ghost f: M.Formatting)
      requires Valid() && n in state.vols && w.thread.ctl == Calling(KMountFormat(n), FormatProbe(n, fsType))
      modifies w
      ensures Continues() && Unchanged()
      ensures w.thread.ctl == if ok then Calling(KMountMount(n), MountCheck(n)) else Calling(KMountDetach(n), DetachGet(n))
      ensures M.FormatTold(n, fsType, f) && (ok <==> M.FormatOk(f))
    {
      var r, run := mount.EnsureFormatted(n, fsType);
      f := run;
      w.Resume();
      ok := r.ROk?;
    }

    /** The device has a file system: mount it and count, or give the disk back. */
    method MountDevice(n: string) returns (reply: Reply, ghost rel: Option<Release>, ghost m: M.Mounting)
      requires Valid() && n in state.vols && w.thread.ctl == Calling(KMountMount(n), MountCheck(n))
      modifies w, state, state.fs
      ensures Continues() && bg == old(bg) && w.thread.ctl == Idle(reply)
      ensures AllOrNothing(old(state.vols)[n := IncRefd(old(state.vols)[n], MountpointFor(n))], reply)
      ensures reply.Refuse? ==> GaveBack(n, rel)
      ensures M.MountTold(n, m) && (reply.Fine? <==> M.MountOk(m) && w.failed == old(w.failed))
    {
      var r, run := mount.Mount(n);
      m := run;
      w.Resume();
      if r.RErr? {
        ghost var back;
        reply, back := GiveBack(n, KMountDetach(n));
        rel := Some(back);
      } else {
        reply, rel := CountFirst(n);
      }
    }

    /** The device is there: format it if blank, then mount it. */
    method FormatAndMount(n: string, fsType: string) returns (reply: Reply, ghost rel: Option<Release>, ghost b: Bringing)
      requires Valid() && n in state.vols
      requires w.thread.ctl == Calling(KMountFormat(n), FormatProbe(n, fsType))
      modifies w, state, state.fs
      ensures Continues() && bg == old(bg) && w.thread.ctl == Idle(reply)
      ensures AllOrNothing(old(state.vols)[n := IncRefd(old(state.vols)[n], MountpointFor(n))], reply)
      ensures reply.Refuse? ==> GaveBack(n, rel)
      ensures b.found && Brought(n, fsType, b, reply.Fine?, w.failed == old(w.failed))
    {
      var ok, f := FormatStep(n, fsType);
      if ok {
        ghost var m;
        reply, rel, m := MountDevice(n);
        b := Bringing(true, Some(f), Some(m));
      } else {
        ghost var back;
        reply, back := GiveBack(n, KMountDetach(n));
        rel, b := Some(back), Bringing(true, Some(f), None);
      }
    }

    /** The disk is attached: wait for the device before anything else. */
    method BringUp(n: string, fsType: string) returns (reply: Reply, ghost rel: Option<Release>, ghost b: Bringing)
      requires Valid() && n in state.vols && state.vols[n].options.fsType == fsType
      requires w.thread.ctl == Calling(KMountWait(n), WaitDevice(n))
      modifies w, state, state.fs
      ensures Continues() && bg == old(bg) && w.thread.ctl == Idle(reply)
      ensures AllOrNothing(old(state.vols)[n := IncRefd(old(state.vols)[n], MountpointFor(n))], reply)
      ensures reply.Refuse? ==> GaveBack(n, rel)
      ensures Brought(n, fsType, b, reply.Fine?, w.failed == old(w.failed))
    {
      var ok := WaitStep(n, fsType);
      if !ok {
        ghost var back;
        reply, back := GiveBack(n, KMountDetach(n));
        return reply, Some(back), Bringing(false, None, None);
      }
      reply, rel, b := FormatAndMount(n, fsType);
    }

    /** Waits for the device. */
    method WaitStep(n: string, fsType: string) returns (ok: bool)
      requires Valid() && n in state.vols && state.vols[n].options.fsType == fsType
      requires w.thread.ctl == Calling(KMountWait(n), WaitDevice(n))
      modifies w
      ensures Continues() && Unchanged()
      ensures w.thread.ctl ==
              if ok then Calling(KMountFormat(n), FormatProbe(n, fsType)) else Calling(KMountDetach(n), DetachGet(n))
    {
      var found, _, _ := mount.WaitForDevice(n);
      w.Resume();
      ok := found;
    }

    /** Attaches the disk. */
    method AttachStep(n: string) returns (ok: bool, ghost r: Ret, ghost a: Attaching)
      requires Valid() && n in state.vols && w.thread.ctl == Calling(KMountAttach(n), AttachGet(n))
      modifies w
      ensures Continues() && Unchanged()
      ensures w.thread.ctl == if ok then Calling(KMountWait(n), WaitDevice(n)) else Idle(Refuse)
      ensures Attached(w.cfg, n, a, r, gce.forceDetachAfter) && r == if ok then ROk else RErr
    {
      var attached, story := gce.AttachDisk(n);
      r, a := attached, story;
      w.Resume();
      ok := attached.ROk?;
    }

    /** First use: attach the disk before anything else. */
    method MountFirst(n: string, fsType: string) returns (reply: Reply, ghost u: FirstUse)
      requires Valid() && n in state.vols && state.vols[n].options.fsType == fsType
      requires w.thread.ctl == Calling(KMountAttach(n), AttachGet(n))
      modifies w, state, state.fs
      ensures Continues() && bg == old(bg) && w.thread.ctl == Idle(reply)
      ensures AllOrNothing(old(state.vols)[n := IncRefd(old(state.vols)[n], MountpointFor(n))], reply)
      ensures FirstUsed(n, fsType, u, reply, w.failed == old(w.failed))
    {
      var ok, r, a := AttachStep(n);
      if ok {
        ghost var rel, b;
        reply, rel, b := BringUp(n, fsType);
        u := FirstUse(a, r, Some(b), rel);
      } else {
        reply, u := Refuse, FirstUse(a, r, None, None);
      }
    }

    /** What a first use comes to: the attach decides whether anything follows; what follows
        decides the reply; and a refusal after a successful attach ends with a release. */
    ghost predicate FirstUsed(n: string, fsType: string, u: FirstUse, reply: Reply, persisted: bool)
      reads w
    {
      && gce.forceDetachAfter >= 0 && Attached(w.cfg, n, u.attach, u.attached, gce.forceDetachAfter)
      && (u.bring.Some? <==> u.attached.ROk?)
      && (if u.bring.Some? then Brought(n, fsType, u.bring.value, reply.Fine?, persisted) else reply.Refuse? && persisted)
      && (u.attached.ROk? && reply.Refuse? ==> GaveBack(n, u.release))
    }

    /** In use already: just count. */
    method CountAgain(n: string) returns (reply: Reply)
      requires Valid() && n in state.vols
      requires w.thread.ctl == Storing(OpIncRef(n, MountpointFor(n)), SMountAgain)
      modifies w, state, state.fs
      ensures Continues() && bg == old(bg) && w.thread.ctl == Idle(reply) && (reply.Fine? <==> w.failed == old(w.failed))
      ensures state.vols == old(state.vols)[n := IncRefd(old(state.vols)[n], MountpointFor(n))]
    {
      var _, ok := state.IncRef(n, MountpointFor(n));
      w.Advance(MStore(ok));
      reply := if ok then Fine else Refuse;
    }

    /** Attaches, formats if blank and mounts on the first use; only counts afterwards. */
    method Mount(n: string) returns (reply: Reply, mountpoint: string, ghost u: Option<FirstUse>)
      requires Serving()
      modifies w, state, state.fs
      ensures Completed(Op.Mount(n), reply) && bg == old(bg)
      ensures n !in old(state.vols) ==> reply.Refuse? && state.vols == old(state.vols)
      ensures n in old(state.vols) ==>
                AllOrNothing(old(state.vols)[n := IncRefd(old(state.vols)[n], MountpointFor(n))], reply)
      ensures n in old(state.vols) ==>
                var v := old(state.vols)[n];
                (u.Some? <==> v.refCount <= 0) &&
                (if u.Some? then FirstUsed(n, v.options.fsType, u.value, reply, w.failed == old(w.failed))
                 else reply.Fine? <==> w.failed == old(w.failed))
      ensures reply.Fine? ==> mountpoint == MountpointFor(n)
    {
      mountpoint, u := MountpointFor(n), None;
      Start(Op.Mount(n));
      var v := state.Get(n);
      if v.None? {
        reply := Refuse;
      } else if v.value.refCount > 0 {
        reply := CountAgain(n);
      } else {
        ghost var first;
        reply, first := MountFirst(n, v.value.options.fsType);
        u := Some(first);
      }
    }

    // ---- Unmount ----

    /** The volume is unmounted: detach its disk, and say whether that was done. */
    method GiveUp(n: string) returns (reply: Reply, ghost rel: Release)
      requires Valid() && w.thread.ctl == Calling(KUnmountDetach(n), DetachGet(n))
      modifies w
      ensures Continues() && w.thread.ctl == Idle(reply) && Unchanged() && w.ran == old(w.ran)
      ensures GaveBack(n, Some(rel)) && (reply.Fine? <==> Requests.Released(rel))
    {
      var r, back := gce.DetachDisk(n);
      rel := back;
      w.Resume();
      reply := if r.ROk? then Fine else Refuse;
    }

    /** The last reference is gone: unmount, and detach only what is unmounted. */
    method TakeDown(n: string) returns (reply: Reply, ghost t: Requests.TakeDown)
      requires Valid() && w.thread.ctl == Calling(KUnmountUnmount(n), UnmountCheck(n))
      modifies w
      ensures Continues() && w.thread.ctl == Idle(reply) && w.failed == old(w.failed)
      ensures TakenDown(w.cfg, n, t, reply.Fine?) && w.ran == old(w.ran) + t.runs
      ensures t.release.Some? ==> EndsReleasing(w.settled, t.release.value)
    {
      var r, was, runs := mount.Unmount(n);
      w.Resume();
      t := Requests.TakeDown(was, runs, None);
      if r.RErr? {
        return Refuse, t;
      }
      ghost var rel;
      reply, rel := GiveUp(n);
      t := Requests.TakeDown(was, runs, Some(rel));
    }

    /** Counts one reference less in the records. */
    method StoreOneLess(n: string) returns (left: int, ok: bool)
      requires Valid() && n in state.vols && w.thread.ctl == Storing(OpDecRef(n), SUnmount(n))
      modifies w, state, state.fs
      ensures Continues() && bg == old(bg)
      ensures w.thread.ctl == if !ok then Idle(Refuse) else if left > 0 then Idle(Fine)
                              else Calling(KUnmountUnmount(n), UnmountCheck(n))
      ensures (ok <==> w.failed == old(w.failed)) && (ok ==> left == DecRefd(old(state.vols)[n]).refCount)
      ensures state.vols == old(state.vols)[n := DecRefd(old(state.vols)[n])]
    {
      left, ok := state.DecRef(n);
      w.Advance(MStore(ok));
    }

    /** With the last reference, unless that could not be written, the volume is taken down,
        and the reply says whether all of that was done; before that it only says whether
        the count was written. */
    ghost predicate UnmountDecides(n: string, count: int, t: Option<Requests.TakeDown>, reply: Reply, persisted: bool) {
      && (t.Some? <==> persisted && count <= 1)
      && (if t.Some? then TakenDown(w.cfg, n, t.value, reply.Fine?) else reply.Fine? <==> persisted)
    }

    /** Counts one reference less, and takes the volume down with the last one. */
    method ReleaseOne(n: string) returns (reply: Reply, ghost t: Option<Requests.TakeDown>)
      requires Valid() && n in state.vols && w.thread.ctl == Storing(OpDecRef(n), SUnmount(n))
      modifies w, state, state.fs
      ensures Continues() && bg == old(bg) && w.thread.ctl == Idle(reply)
      ensures state.vols == old(state.vols)[n := DecRefd(old(state.vols)[n])]
      ensures UnmountDecides(n, old(state.vols)[n].refCount, t, reply, w.failed == old(w.failed))
    {
      var left, ok := StoreOneLess(n);
      t := None;
      if !ok {
        reply := Refuse;
      } else if left > 0 {
        reply := Fine;
      } else {
        ghost var down;
        reply, down := TakeDown(n);
        t := Some(down);
      }
    }

    /** Drops one reference; with the last one, unmounts and detaches. */
    method Unmount(n: string) returns (reply: Reply, ghost t: Option<Requests.TakeDown>)
      requires Serving()
      modifies w, state, state.fs
      ensures Completed(Op.Unmount(n), reply) && bg == old(bg)
      ensures n !in old(state.vols) ==> reply.Refuse? && state.vols == old(state.vols)
      ensures n in old(state.vols) && old(state.vols)[n].refCount == 0 ==> reply.Fine? && state.vols == old(state.vols)
      ensures n in old(state.vols) && old(state.vols)[n].refCount != 0 ==>
                state.vols == old(state.vols)[n := DecRefd(old(state.vols)[n])] &&
                UnmountDecides(n, old(state.vols)[n].refCount, t, reply, w.failed == old(w.failed))
    {
      Start(Op.Unmount(n));
      t := None;
      var v := state.Get(n);
      if v.None? {
        return Refuse, t;
      }
      if v.value.refCount == 0 {
        return Fine, t;
      }
      reply, t := ReleaseOne(n);
    }

    // ---- startup reconciliation ----

    /** Sorts the listed disks: an interrupted delete is resumed, without a snapshot;
        any other disk is kept or imported, with its real size and type. */
    method SortListing(disks: seq<Listed>) returns (names: seq<string>, byName: map<string, DiskOptions>)
      modifies this`bg
      ensures names == Available(disks) && byName == ImportTable(disks)
      ensures bg == old(bg) + Resumable(disks)
    {
      names, byName := [], map[];
      for i := 0 to |disks|
        invariant names == Available(disks[..i]) && byName == ImportTable(disks[..i])
        invariant bg == old(bg) + Resumable(disks[..i])
      {
        var l := disks[i];
        ListingNext(disks, i, old(bg));
        if Marked(l.disk.labels) {
          DeleteInBackground(l.name, false);
        } else {
          names := names + [l.name];
          byName := byName[l.name := ImportOptions(l.disk)];
        }
      }
      assert disks[..|disks|] == disks;
    }

    method FetchListing() returns (r: Ret, ghost listing: Asked)
      requires Valid() && w.thread.ctl == Calling(KList, ListManaged)
      modifies w
      ensures w.Valid() && w.Extends() && w.Entered(w.thread) && w.thread.vols == old(w.thread.vols)
      ensures if r.RList? then
                w.thread.ctl == Storing(OpReconcile(Available(r.disks), ImportTable(r.disks)), SReconcile) &&
                w.thread.bg == old(w.thread.bg) + Resumable(r.disks)
              else w.thread.ctl == Exited && w.thread.bg == old(w.thread.bg)
      ensures w.settled == old(w.settled) + [listing] && listing.q == QList && (r.RList? ==> listing.o == OList(r.disks))
    {
      r := gce.ListManagedDisks();
      listing := Asked(QList, if r.RList? then OList(r.disks) else OError, w.now);
      w.Resume();
    }

    /** Lists the disks and starts the deletes to resume. */
    method ListDisks()
      returns (ok: bool, names: seq<string>, byName: map<string, DiskOptions>, ghost disks: seq<Listed>, ghost listing: Asked)
      requires Valid() && w.thread.ctl == Calling(KList, ListManaged)
      modifies this`bg, w
      ensures Continues() && state.vols == old(state.vols)
      ensures if ok then w.thread.ctl == Storing(OpReconcile(names, byName), SReconcile) else w.thread.ctl == Exited
      ensures ok ==> names == Available(disks) && byName == ImportTable(disks) && bg == old(bg) + Resumable(disks)
      ensures w.settled == old(w.settled) + [listing] && listing.q == QList && (ok ==> listing.o == OList(disks))
    {
      var r;
      r, listing := FetchListing();
      names, byName, disks := [], map[], [];
      ok := r.RList?;
      if ok {
        disks := r.disks;
        names, byName := SortListing(r.disks);
      }
    }

    method Align(names: seq<string>, byName: map<string, DiskOptions>) returns (ok: bool)
      requires Valid() && (forall n | n in names :: n in byName)
      requires w.thread.ctl == Storing(OpReconcile(names, byName), SReconcile)
      modifies w, state, state.fs
      ensures Continues() && bg == old(bg) && state.vols == Reconciled(old(state.vols), names, byName)
      ensures (if ok then w.thread.ctl == Storing(OpReset, SReset) else w.thread.ctl == Exited) && w.settled == old(w.settled)
    {
      var _, done := state.Reconcile(names, byName);
      w.Advance(MStore(done));
      ok := done;
    }

    /** First stage: the records become exactly the available disks. */
    method AlignRecords() returns (ok: bool, ghost disks: seq<Listed>, ghost listing: Asked)
      requires Valid() && w.thread.ctl == Calling(KList, ListManaged)
      modifies this`bg, w, state, state.fs
      ensures Continues()
      ensures if ok then w.thread.ctl == Storing(OpReset, SReset) else w.thread.ctl == Exited
      ensures ok ==> state.vols == Reconciled(old(state.vols), Available(disks), ImportTable(disks)) &&
                     bg == old(bg) + Resumable(disks)
      ensures w.settled == old(w.settled) + [listing] && listing.q == QList && (ok ==> listing.o == OList(disks))
    {
      var listed, names, byName;
      listed, names, byName, disks, listing := ListDisks();
      if !listed {
        return false, disks, listing;
      }
      ok := Align(names, byName);
    }

    /** The volume is still mounted: its count is 1 again. */
    method Recount(n: string, ghost todo: seq<string>)
      requires Valid() && n in state.vols
      requires w.thread.ctl == Storing(OpSetMounted(n, MountpointFor(n)), SScan(todo))
      modifies w, state, state.fs
      ensures Continues() && bg == old(bg) && w.thread.ctl == ScanNext(todo) && w.settled == old(w.settled)
      ensures state.vols == old(state.vols)[n := SetMountedd(old(state.vols)[n], MountpointFor(n))]
    {
      var ok := state.SetMounted(n, MountpointFor(n));
      w.Advance(MStore(ok));
    }

    /** Looks for the volume in the mount table. */
    method ScanOne(n: string, ghost todo: seq<string>) returns (b: Option<bool>, ghost scan: Asked)
      requires Valid() && w.thread.ctl == Calling(KScan(n, todo), Call.IsMounted(n))
      modifies w
      ensures Continues() && w.thread.vols == old(w.thread.vols)
      ensures w.thread.ctl == if b == Some(true) then Storing(OpSetMounted(n, MountpointFor(n)), SScan(todo)) else ScanNext(todo)
      ensures w.settled == old(w.settled) + [scan] && scan.q == QMounted(n) && (scan.o == OBool(true) <==> b == Some(true))
    {
      ghost var t := w.caller;
      b := mount.IsMounted(n);
      scan := Asked(QMounted(n), if b.Some? then OBool(b.value) else OError, w.now);
      ScanResumes(t, n, todo, b);
      w.Resume();
    }

    /** One volume of the second stage: counted exactly if its scan says mounted. */
    method RestoreOne(n: string, ghost todo: seq<string>) returns (ghost scan: Asked)
      requires Valid() && n in state.vols && w.thread.ctl == Calling(KScan(n, todo), Call.IsMounted(n))
      modifies w, state, state.fs
      ensures Continues() && bg == old(bg) && w.thread.ctl == ScanNext(todo)
      ensures w.settled == old(w.settled) + [scan] && scan.q == QMounted(n)
      ensures state.vols == if scan.o == OBool(true) then old(state.vols)[n := SetMountedd(old(state.vols)[n], MountpointFor(n))]
                            else old(state.vols)
    {
      var b;
      b, scan := ScanOne(n, todo);
      if b == Some(true) {
        Recount(n, todo);
      }
    }

    /** One round of the second stage: the next volume of the listing. */
    method RestoreNext(n: string, ghost names: seq<string>, ghost before: seq<Asked>, ghost scans: seq<Asked>, ghost was: Vols)
      returns (ghost now: seq<Asked>)
      requires Valid() && |scans| < |names| && Sorting.Distinct(names) && n == names[|scans|] && n in was
      requires w.thread.ctl == ScanNext(names[|scans|..]) && ScansOf(scans, names[..|scans|])
      requires state.vols == Restored(was, FoundMounted(scans)) && w.settled == before + scans
      modifies w, state, state.fs
      ensures Continues() && bg == old(bg) && w.thread.ctl == ScanNext(names[|scans| + 1..])
      ensures |now| == |scans| + 1 && ScansOf(now, names[..|scans| + 1]) && w.settled == before + now
      ensures state.vols == Restored(was, FoundMounted(now))
    {
      ScanSplits(names, |scans|);
      ghost var scan := RestoreOne(n, names[|scans| + 1..]);
      ScanAdds(was, names, scans, scan);
      Appended(before, scans, scan);
      now := scans + [scan];
    }

    /** After the reset: exactly the volumes whose scan says mounted get a count. */
    method RestoreCounts() returns (ghost scans: seq<Asked>)
      requires Valid() && w.thread.ctl == ScanNext(Sorting.Listing(state.vols.Keys))
      modifies w, state, state.fs
      ensures Continues() && bg == old(bg) && w.thread.ctl == Idle(Fine)
      ensures ScansOf(scans, Sorting.Listing(old(state.vols).Keys)) && w.settled == old(w.settled) + scans
      ensures state.vols == Restored(old(state.vols), FoundMounted(scans))
    {
      ghost var names := Sorting.Listing(state.vols.Keys);
      var all := state.List();
      BeforeScan(state.vols, names);
      scans := ScanAll(all, names);
    }

    method ScanAll(all: seq<Volume>, ghost names: seq<string>) returns (ghost scans: seq<Asked>)
      requires Valid() && |all| == |names| && Sorting.Distinct(names)
      requires forall i | 0 <= i < |all| :: names[i] in state.vols && all[i].name == names[i]
      requires w.thread.ctl == ScanNext(names[0..])
      modifies w, state, state.fs
      ensures Continues() && bg == old(bg) && w.thread.ctl == ScanNext(names[|names|..])
      ensures ScansOf(scans, names[..|names|]) && w.settled == old(w.settled) + scans
      ensures state.vols == Restored(old(state.vols), FoundMounted(scans))
    {
      scans := [];
      BeforeScan(state.vols, names);
      for i := 0 to |all|
        invariant Continues() && bg == old(bg)
        invariant w.thread.ctl == ScanNext(names[i..])
        invariant |scans| == i && ScansOf(scans, names[..i]) && w.settled == old(w.settled) + scans
        invariant state.vols == Restored(old(state.vols), FoundMounted(scans))
      {
        scans := RestoreNext(all[i].name, names, old(w.settled), scans, old(state.vols));
      }
    }

    method ResetCounts() returns (ok: bool)
      requires Valid() && w.thread.ctl == Storing(OpReset, SReset)
      modifies w, state, state.fs
      ensures Continues() && bg == old(bg) && state.vols == Apply(old(state.vols), OpReset) && w.settled == old(w.settled)
      ensures w.thread.ctl == if ok then ScanNext(Sorting.Listing(state.vols.Keys)) else Exited
    {
      ok := state.ResetRefCounts();
      w.Advance(MStore(ok));
    }

    /** Second stage: no count survives a restart but those of volumes still mounted. */
    method Recover() returns (ok: bool, ghost scans: seq<Asked>)
      requires Valid() && w.thread.ctl == Storing(OpReset, SReset)
      modifies w, state, state.fs
      ensures Continues() && bg == old(bg) && w.thread.ctl == if ok then Idle(Fine) else Exited
      ensures ok ==> state.vols == Restored(Apply(old(state.vols), OpReset), FoundMounted(scans)) &&
                     ScansOf(scans, Sorting.Listing(state.vols.Keys))
      ensures w.settled == old(w.settled) + scans
    {
      scans := [];
      ok := ResetCounts();
      if ok {
        ghost var names := state.vols.Keys;
        scans := RestoreCounts();
        assert state.vols.Keys == names;
      }
    }

    /** Both stages, with the requests they sent. */
    method Rebuild() returns (ok: bool, ghost disks: seq<Listed>, ghost listing: Asked, ghost scans: seq<Asked>)
      requires Valid() && w.thread.ctl == Calling(KList, ListManaged)
      modifies this`bg, w, state, state.fs
      ensures Continues() && w.thread.ctl == if ok then Idle(Fine) else Exited
      ensures w.settled == old(w.settled) + [listing] + scans && listing.q == QList
      ensures ok ==> listing.o == OList(disks) && ScansOf(scans, Sorting.Listing(state.vols.Keys)) &&
                     bg == old(bg) + Resumable(disks) &&
                     state.vols == AfterReconcile(old(state.vols), disks, FoundMounted(scans))
    {
      scans := [];
      ok, disks, listing := AlignRecords();
      if ok {
        ok, scans := Recover();
      }
    }

    /** Aligns the records with GCE and the mount table before the driver serves. Fails,
        so that the plugin exits, if the disks cannot be listed or the records written.
        Otherwise it has sent one listing and one scan per tracked volume, and the records
        are what their answers make them. */
    method Reconcile() returns (ok: bool, ghost disks: seq<Listed>, ghost listing: Asked, ghost scans: seq<Asked>)
      requires Serving()
      modifies this`bg, w, state, state.fs
      ensures Valid() && (if ok then Completed(Op.Reconcile, Fine) else w.thread.ctl == Exited)
      ensures w.settled == old(w.settled) + [listing] + scans && listing.q == QList
      ensures ok ==> listing.o == OList(disks) && ScansOf(scans, Sorting.Listing(state.vols.Keys)) &&
                     bg == old(bg) + Resumable(disks) &&
                     state.vols == AfterReconcile(old(state.vols), disks, FoundMounted(scans))
    {
      Start(Op.Reconcile);
      ok, disks, listing, scans := Rebuild();
    }
  }
}
