/** Why a disk was deleted. In every run, with any number of VMs, crashes, restarts,
    failed persists and interleaved background deletes, a disk is only deleted under
    a name that was removed with reclaimPolicy=delete, rolled back, or marked. */
module Causality {
  import opened Options
  import opened Records
  import opened Protocol
  import opened Cluster

  // ---- causes ----

  /** Somebody asked for a volume of this name whose disk is not to be retained. */
  ghost predicate AskedToDelete(log: seq<Entry>, n: string) {
    exists o :: Requested(n, o) in log && o.reclaimPolicy == DELETE
  }

  /** A user put the deleting label on the disk with the `labels` option. */
  ghost predicate AskedMarked(log: seq<Entry>, n: string) {
    exists o :: Requested(n, o) in log && Marked(EffectiveLabels(o))
  }

  ghost predicate Caused(log: seq<Entry>, n: string) {
    Removed(n, DELETE) in log || RolledBack(n) in log || FoundMarked(n) in log || AskedMarked(log, n)
  }

  /** Every deletion has an earlier cause, and every removal that deletes an earlier
      request for a volume of that policy. */
  ghost predicate LogOk(log: seq<Entry>) {
    forall i | 0 <= i < |log| ::
      (log[i].Deleted? ==> Caused(log[..i], log[i].n)) &&
      (log[i].Removed? ==> log[i].policy == DELETE && AskedToDelete(log[..i], log[i].n))
  }

  lemma CausesStay(log: seq<Entry>, more: seq<Entry>, n: string)
    ensures Caused(log, n) ==> Caused(log + more, n)
    ensures AskedToDelete(log, n) ==> AskedToDelete(log + more, n)
  {
    assert forall x | x in log :: x in log + more;
  }

  lemma LogOkExtended(log: seq<Entry>, more: seq<Entry>)
    requires LogOk(log) && |more| <= 1
    requires more != [] && more[0].Deleted? ==> Caused(log, more[0].n)
    requires more != [] && more[0].Removed? ==> more[0].policy == DELETE && AskedToDelete(log, more[0].n)
    ensures LogOk(log + more)
  {
    forall i | 0 <= i < |log + more|
      ensures (log + more)[..i] == if i < |log| then log[..i] else log
    {
    }
  }

  // ---- the invariant ----

  ghost predicate PolicyOk(log: seq<Entry>, n: string, o: DiskOptions) {
    o.reclaimPolicy == RETAIN || (o.reclaimPolicy == DELETE && AskedToDelete(log, n))
  }

  ghost predicate VolsOk(log: seq<Entry>, vols: Vols) {
    forall n | n in vols :: PolicyOk(log, n, vols[n].options)
  }

  ghost predicate ControlOk(log: seq<Entry>, ctl: Control) {
    match ctl
    case Calling(k, _) =>
      (match k
       case KCreateGet(n, o, _) => Requested(n, o) in log && ValidOptions(o)
       case KCreateDisk(n, o, _) => Requested(n, o) in log && ValidOptions(o)
       case KCreateRollback(n) => Caused(log, n)
       case KBackground => false
       case _ => true)
    case Storing(op, sk) =>
      (op.OpAdd? ==> PolicyOk(log, op.v.name, op.v.options)) &&
      (op.OpReconcile? ==> forall n | n in op.byName :: op.byName[n].reclaimPolicy == RETAIN) &&
      (sk.SRemoveDelete? ==> Removed(sk.n, DELETE) in log)
    case _ => true
  }

  ghost predicate ThreadOk(log: seq<Entry>, t: Thread) {
    WellFormed(t.ctl) && VolsOk(log, t.vols) && ControlOk(log, t.ctl) && forall d | d in t.bg :: Caused(log, d.n)
  }

  ghost predicate DeletesOk(log: seq<Entry>, deletes: seq<Call>) {
    forall j | 0 <= j < |deletes| :: DeleteCall(deletes[j]) && Caused(log, deletes[j].n)
  }

  ghost predicate VmOk(log: seq<Entry>, vm: Vm) {
    && VolsOk(log, vm.file)
    && (vm.thread.Some? ==> ThreadOk(log, vm.thread.value) && vm.thread.value.bg == [])
    && DeletesOk(log, vm.deletes)
  }

  ghost predicate MarksOk(log: seq<Entry>, cloud: Cloud) {
    forall n | n in cloud.disks && Marked(cloud.disks[n].labels) :: Caused(log, n)
  }

  ghost predicate Traceable(s: Sys) {
    LogOk(s.log) && MarksOk(s.log, s.cloud) && forall i | 0 <= i < |s.vms| :: VmOk(s.log, s.vms[i])
  }

  lemma VmOkStays(log: seq<Entry>, more: seq<Entry>, vm: Vm)
    requires VmOk(log, vm)
    ensures VmOk(log + more, vm)
  {
    forall n: string
      ensures Caused(log, n) ==> Caused(log + more, n)
      ensures AskedToDelete(log, n) ==> AskedToDelete(log + more, n)
    {
      CausesStay(log, more, n);
    }
    assert forall x | x in log :: x in log + more;
  }

  lemma MarksOkStays(log: seq<Entry>, more: seq<Entry>, cloud: Cloud)
    requires MarksOk(log, cloud)
    ensures MarksOk(log + more, cloud)
  {
    forall n | n in cloud.disks && Marked(cloud.disks[n].labels) ensures Caused(log + more, n) {
      CausesStay(log, more, n);
    }
  }

  // ---- one step ----

  lemma ApplyKeepsVolsOk(log: seq<Entry>, vols: Vols, op: StoreOp)
    requires VolsOk(log, vols) && CoherentOp(op)
    requires op.OpAdd? ==> PolicyOk(log, op.v.name, op.v.options)
    requires op.OpReconcile? ==> forall n | n in op.byName :: op.byName[n].reclaimPolicy == RETAIN
    ensures VolsOk(log, Apply(vols, op))
  {
  }

  /** Deletions resumed by the reconciliation are of marked disks, hence caused. */
  lemma ResumedAreCaused(log: seq<Entry>, cfg: Config, cloud: Cloud, ds: seq<Listed>)
    requires MarksOk(log, cloud) && IsListing(cfg, cloud, ds)
    ensures forall d | d in Resumable(ds) :: Caused(log, d.n)
    ensures forall n | n in ImportTable(ds) :: ImportTable(ds)[n].reclaimPolicy == RETAIN
  {
    forall d | d in Resumable(ds) ensures Caused(log, d.n) {
      var l :| l in ds && l.name == d.n && Marked(l.disk.labels);
      assert l.disk == View(cfg, cloud.disks[l.name]);
    }
  }

  lemma AfterCallOk(log: seq<Entry>, t: Thread, k: Kont, c: Call, r: Ret)
    requires ThreadOk(log, t) && t.ctl == Calling(k, c)
    requires r.RList? ==> forall d | d in Resumable(r.disks) :: Caused(log, d.n)
    requires r.RList? ==> forall n | n in ImportTable(r.disks) :: ImportTable(r.disks)[n].reclaimPolicy == RETAIN
    ensures ThreadOk(log, AfterCall(t, k, r))
  {
    AfterCallWellFormed(t, k, r);
    var t' := AfterCall(t, k, r);
    assert forall d | d in t'.bg :: d in t.bg || (r.RList? && d in Resumable(r.disks));
  }

  /** Only the listing call returns a listing, the one it was given. */
  lemma ListingComesFromList(cfg: Config, k: Kont, c: Call, o: Outcome)
    requires Belongs(k, c) && After(cfg, c, o).Return? && After(cfg, c, o).r.RList?
    ensures c.ListManaged? && o == OList(After(cfg, c, o).r.disks)
  {
  }

  lemma AnswerOk(log: seq<Entry>, cloud: Cloud, vm: Vm, o: Outcome, e: Effect)
    requires VmOk(log, vm) && MarksOk(log, cloud)
    requires vm.thread.Some? && vm.thread.value.ctl.Calling?
    requires Permits(cloud, vm, Awaits(vm.cfg, vm.thread.value.ctl.c), o, e)
    ensures ThreadOk(log, Moved(vm.cfg, vm.thread.value, MAnswer(o)))
  {
    var t := vm.thread.value;
    var c' := After(vm.cfg, t.ctl.c, o);
    AfterKeepsBelongs(vm.cfg, t.ctl.k, t.ctl.c, o);
    if c'.Return? {
      if c'.r.RList? {
        ListingComesFromList(vm.cfg, t.ctl.k, t.ctl.c, o);
        ResumedAreCaused(log, vm.cfg, cloud, o.disks);
      }
      AfterCallOk(log, t, t.ctl.k, t.ctl.c, c'.r);
    }
  }

  lemma PersistOk(log: seq<Entry>, vm: Vm, ok: bool)
    requires VmOk(log, vm) && vm.thread.Some? && CanMove(vm.cfg, vm.thread.value, MStore(ok))
    requires !ok && vm.thread.value.ctl.sk.SCreate? ==> RolledBack(vm.thread.value.ctl.sk.n) in log
    ensures ThreadOk(log, Moved(vm.cfg, vm.thread.value, MStore(ok)))
  {
    var t := vm.thread.value;
    MovedWellFormed(vm.cfg, t, MStore(ok));
    ApplyKeepsVolsOk(log, t.vols, t.ctl.op);
    if t.ctl.sk.SRemoveDelete? {
      assert Caused(log, t.ctl.sk.n);
    }
  }

  lemma DeleteCallAfter(cfg: Config, c: Call, o: Outcome)
    requires DeleteCall(c)
    ensures var c' := After(cfg, c, o); c'.Return? || (DeleteCall(c') && c'.n == c.n)
  {
  }

  /** Only a delete marks, and only a delete or a marked request leaves a mark. */
  lemma CloudAfterOk(log: seq<Entry>, cfg: Config, cloud: Cloud, c: Call, e: Effect)
    requires MarksOk(log, cloud)
    requires DeleteCall(c) ==> Caused(log, c.n)
    requires c.CreateInsert? ==> Requested(c.n, c.options) in log
    ensures MarksOk(log, CloudAfter(cloud, Awaits(cfg, c), e))
    ensures forall x | x in LogOf(cloud, Awaits(cfg, c), e) :: x.Deleted? ==> Caused(log, x.n)
  {
  }

  lemma RequestOk(log: seq<Entry>, vm: Vm, op: Op, cloud: Cloud, a: Action)
    requires VmOk(log, vm) && a.Request? && a.op == op && CanAct(cloud, vm, a)
    requires forall x | x in LogStep(cloud, vm, a) :: x in log
    ensures ThreadOk(log, Moved(vm.cfg, vm.thread.value, MBegin(op)))
  {
    var t := vm.thread.value;
    MovedWellFormed(vm.cfg, t, MBegin(op));
    var more := LogStep(cloud, vm, a);
    if more != [] { assert more[0] in log; }
    if op.Remove? && op.n in t.vols { assert PolicyOk(log, op.n, t.vols[op.n].options); }
  }

  lemma HandOver(log: seq<Entry>, deletes: seq<Call>, bg: seq<Delete>)
    requires DeletesOk(log, deletes) && forall d | d in bg :: Caused(log, d.n)
    ensures DeletesOk(log, deletes + Spawned(bg))
  {
    forall j | 0 <= j < |bg| ensures Caused(log, Spawned(bg)[j].n) { assert bg[j] in bg; }
  }

  lemma BackgroundOk(log: seq<Entry>, vm: Vm, cloud: Cloud, a: Action)
    requires VmOk(log, vm) && a.Background? && CanAct(cloud, vm, a)
    ensures VmOk(log, VmStep(cloud, vm, a))
  {
    DeleteCallAfter(vm.cfg, vm.deletes[a.j], a.o);
  }

  lemma BootOk(log: seq<Entry>, file: Vols)
    requires VolsOk(log, file)
    ensures ThreadOk(log, Booted(file))
  {
  }

  lemma VmStepOk(log: seq<Entry>, cloud: Cloud, vm: Vm, a: Action)
    requires VmOk(log, vm) && MarksOk(log, cloud) && CanAct(cloud, vm, a)
    requires forall x | x in LogStep(cloud, vm, a) :: x in log
    ensures VmOk(log, VmStep(cloud, vm, a))
  {
    match a
    case Start(_) => BootOk(log, vm.file);
    case Crash(_) =>
    case Reboot(_) =>
    case Request(_, op) =>
      RequestOk(log, vm, op, cloud, a);
      HandOver(log, vm.deletes, Moved(vm.cfg, vm.thread.value, MBegin(op)).bg);
    case Answer(_, o, e) =>
      AnswerOk(log, cloud, vm, o, e);
      HandOver(log, vm.deletes, Moved(vm.cfg, vm.thread.value, MAnswer(o)).bg);
    case Background(_, _, _, _) => BackgroundOk(log, vm, cloud, a);
    case Persist(_, ok) =>
      var sk := vm.thread.value.ctl.sk;
      if sk.SCreate? && !ok { assert LogStep(cloud, vm, a)[0] == RolledBack(sk.n); }
      PersistOk(log, vm, ok);
      HandOver(log, vm.deletes, Moved(vm.cfg, vm.thread.value, MStore(ok)).bg);
  }

  lemma RemovalIsAskedFor(log: seq<Entry>, cloud: Cloud, vm: Vm, a: Action)
    requires VmOk(log, vm) && CanAct(cloud, vm, a) && a.Request?
    ensures forall x | x in LogStep(cloud, vm, a) ::
              !x.Deleted? && (x.Removed? ==> x.policy == DELETE && AskedToDelete(log, x.n))
  {
    if a.op.Remove? && a.op.n in vm.thread.value.vols {
      assert PolicyOk(log, a.op.n, vm.thread.value.vols[a.op.n].options);
    }
  }

  lemma CloudStepOk(log: seq<Entry>, cloud: Cloud, vm: Vm, a: Action)
    requires VmOk(log, vm) && MarksOk(log, cloud) && CanAct(cloud, vm, a)
    ensures MarksOk(log, CloudStep(cloud, vm, a))
    ensures forall x | x in LogStep(cloud, vm, a) ::
              (x.Deleted? ==> Caused(log, x.n)) &&
              (x.Removed? ==> x.policy == DELETE && AskedToDelete(log, x.n))
  {
    match a
    case Answer(_, o, e) => CloudAfterOk(log, vm.cfg, cloud, vm.thread.value.ctl.c, e);
    case Background(_, j, o, e) => CloudAfterOk(log, vm.cfg, cloud, vm.deletes[j], e);
    case Request(_, op) => RemovalIsAskedFor(log, cloud, vm, a);
    case _ =>
  }

  lemma StepKeepsTraceable(s: Sys, a: Action)
    requires Traceable(s) && CanStep(s, a)
    ensures Traceable(Step(s, a))
  {
    var vm, more, s' := s.vms[a.i], LogStep(s.cloud, s.vms[a.i], a), Step(s, a);
    CloudStepOk(s.log, s.cloud, vm, a);
    MarksOkStays(s.log, more, CloudStep(s.cloud, vm, a));
    MarksOkStays(s.log, more, s.cloud);
    assert |more| <= 1;
    LogOkExtended(s.log, more);
    forall i | 0 <= i < |s.vms| ensures VmOk(s'.log, s'.vms[i]) {
      VmOkStays(s.log, more, s.vms[i]);
      if i == a.i { VmStepOk(s'.log, s.cloud, vm, a); }
    }
  }

  // ---- every run ----

  lemma InitTraceable(s: Sys)
    requires Init(s)
    ensures Traceable(s)
  {
    forall i | 0 <= i < |s.log| ensures s.log[i].FoundMarked? { assert s.log[i] in s.log; }
  }

  lemma {:induction false} TraceableAlways(r: Run, k: nat)
    requires IsRun(r) && k < |r.states|
    ensures Traceable(r.states[k])
  {
    if k == 0 {
      InitTraceable(r.states[0]);
    } else {
      TraceableAlways(r, k - 1);
      StepKeepsTraceable(r.states[k - 1], r.actions[k - 1]);
    }
  }

  /** Deletion causality. In every state of every run, each logged deletion of a disk
      was preceded by a removal under reclaimPolicy=delete, by the rollback of a
      Create, or by a mark that was there from the start or that a user asked for;
      and that removal was preceded by a Create of that name with that policy. */
  lemma EveryDeletionHasACause(r: Run, k: nat, i: nat)
    requires IsRun(r) && k < |r.states| && i < |r.states[k].log|
    ensures var log := r.states[k].log;
            log[i].Deleted? ==>
              var n := log[i].n;
              RolledBack(n) in log[..i] || FoundMarked(n) in log[..i] || AskedMarked(log[..i], n) ||
              (Removed(n, DELETE) in log[..i] && AskedToDelete(log[..i], n))
  {
    TraceableAlways(r, k);
    var log := r.states[k].log;
    if log[i].Deleted? && Removed(log[i].n, DELETE) in log[..i] {
      var j :| 0 <= j < i && log[j] == Removed(log[i].n, DELETE);
      assert log[..i] == log[..j] + log[j..i];
      CausesStay(log[..j], log[j..i], log[i].n);
    }
  }

  /** A disk can disappear from GCE in no other way than a logged deletion. */
  lemma DisappearanceIsLogged(s: Sys, a: Action, n: string)
    requires CanStep(s, a) && n in s.cloud.disks && n !in Step(s, a).cloud.disks
    ensures Step(s, a).log == s.log + [Deleted(n, s.cloud.disks[n].id)]
  {
  }

  lemma LastDeletionCaused(log: seq<Entry>, n: string, id: nat)
    requires LogOk(log + [Deleted(n, id)])
    ensures Caused(log, n)
  {
    var all := log + [Deleted(n, id)];
    assert all[|log|].Deleted? && all[..|log|] == log;
  }

  /** Hence a name that was never removed for deletion, rolled back or marked keeps
      its disk, the same incarnation of it, through the whole run. */
  lemma {:induction false} UntouchedDiskSurvives(r: Run, n: string, k: nat)
    requires IsRun(r) && k < |r.states| && n in r.states[0].cloud.disks
    requires !Caused(r.states[k].log, n)
    ensures n in r.states[k].cloud.disks && r.states[k].cloud.disks[n].id == r.states[0].cloud.disks[n].id
  {
    if k > 0 {
      var s, a := r.states[k - 1], r.actions[k - 1];
      CausesStay(s.log, LogStep(s.cloud, s.vms[a.i], a), n);
      UntouchedDiskSurvives(r, n, k - 1);
      TraceableAlways(r, k);
      if n !in r.states[k].cloud.disks {
        DisappearanceIsLogged(s, a, n);
        LastDeletionCaused(s.log, n, s.cloud.disks[n].id);
      }
      IdStays(s, a, n);
    }
  }

  lemma IdStays(s: Sys, a: Action, n: string)
    requires CanStep(s, a) && n in s.cloud.disks && n in Step(s, a).cloud.disks
    ensures Step(s, a).cloud.disks[n].id == s.cloud.disks[n].id
  {
  }
}
