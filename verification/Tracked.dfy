/** Which volumes are tracked. A record never stands for somebody else's disk, and one
    whose disk is not there stands for a disk that was deleted: over every run, failed
    persists included, in memory and in the file. */
module Tracked {
  import opened Options
  import opened Records
  import opened Protocol
  import opened Cluster
  import Causality
  import DeleteProtocol

  /** If the disk exists, the plugin created or adopted it. */
  ghost predicate Ours(cloud: Cloud, n: string) {
    n in cloud.disks ==> Managed(cloud.disks[n].labels)
  }

  ghost predicate Gone(log: seq<Entry>, n: string) {
    exists id :: Deleted(n, id) in log
  }

  /** The record of `n` is backed by a disk, or was until that was deleted. */
  ghost predicate Backed(cloud: Cloud, log: seq<Entry>, n: string) {
    Ours(cloud, n) && (n in cloud.disks || Gone(log, n))
  }

  ghost predicate AllBacked(cloud: Cloud, log: seq<Entry>, names: set<string>) {
    forall n | n in names :: Backed(cloud, log, n)
  }

  /** What the control state is about to record. */
  ghost predicate ToRecord(cloud: Cloud, log: seq<Entry>, ctl: Control) {
    match ctl
    case Calling(k, _) => k.KCreateDisk? ==> Ours(cloud, k.n)
    case Storing(op, _) =>
      (op.OpAdd? ==> Backed(cloud, log, op.v.name)) &&
      (op.OpReconcile? ==> forall n | n in op.names :: Backed(cloud, log, n))
    case _ => true
  }

  ghost predicate ThreadTracked(cloud: Cloud, log: seq<Entry>, t: Thread) {
    WellFormed(t.ctl) && AllBacked(cloud, log, t.vols.Keys) && ToRecord(cloud, log, t.ctl)
  }

  ghost predicate VmTracked(cloud: Cloud, log: seq<Entry>, vm: Vm) {
    AllBacked(cloud, log, vm.file.Keys) && (vm.thread.Some? ==> ThreadTracked(cloud, log, vm.thread.value))
  }

  // ---- what any step keeps ----

  ghost predicate Keeps(was: Cloud, log: seq<Entry>, now: Cloud, log': seq<Entry>) {
    forall n :: (Ours(was, n) ==> Ours(now, n)) && (Backed(was, log, n) ==> Backed(now, log', n))
  }

  lemma GoneStays(log: seq<Entry>, more: seq<Entry>, n: string)
    requires Gone(log, n)
    ensures Gone(log + more, n)
  {
    var id :| Deleted(n, id) in log;
    assert Deleted(n, id) in log + more;
  }

  lemma VanishedIsLogged(cloud: Cloud, log: seq<Entry>, q: Query, e: Effect, n: string)
    requires n in cloud.disks && n !in CloudAfter(cloud, q, e).disks
    ensures Gone(log + LogOf(cloud, q, e), n)
  {
    var more := LogOf(cloud, q, e);
    assert more == [Deleted(n, cloud.disks[n].id)];
    assert (log + more)[|log|] == Deleted(n, cloud.disks[n].id);
  }

  /** A new disk carries the managed-by label, an old one keeps it. */
  lemma CallKeepsOurs(cloud: Cloud, vm: Vm, c: Call, o: Outcome, e: Effect, n: string)
    requires CloudOk(cloud) && DeleteProtocol.Knows(cloud, c) && Ours(cloud, n)
    requires Permits(cloud, vm, Awaits(vm.cfg, c), o, e)
    ensures Ours(CloudAfter(cloud, Awaits(vm.cfg, c), e), n)
  {
    var now := CloudAfter(cloud, Awaits(vm.cfg, c), e);
    DeleteProtocol.CloudAfterEvolves(vm.cfg, cloud, c, e, o, vm);
    if n in now.disks { assert DeleteProtocol.DiskEvolves(cloud, now, n); }
  }

  lemma CallKeeps(cloud: Cloud, log: seq<Entry>, vm: Vm, c: Call, o: Outcome, e: Effect)
    requires CloudOk(cloud) && DeleteProtocol.Knows(cloud, c) && Permits(cloud, vm, Awaits(vm.cfg, c), o, e)
    ensures var q := Awaits(vm.cfg, c); Keeps(cloud, log, CloudAfter(cloud, q, e), log + LogOf(cloud, q, e))
  {
    var q := Awaits(vm.cfg, c);
    forall n | Ours(cloud, n)
      ensures Ours(CloudAfter(cloud, q, e), n)
      ensures Backed(cloud, log, n) ==> Backed(CloudAfter(cloud, q, e), log + LogOf(cloud, q, e), n)
    {
      CallKeepsOurs(cloud, vm, c, o, e, n);
      if n in cloud.disks && n !in CloudAfter(cloud, q, e).disks { VanishedIsLogged(cloud, log, q, e, n); }
      if Gone(log, n) { GoneStays(log, LogOf(cloud, q, e), n); }
    }
  }

  lemma LogKeeps(cloud: Cloud, log: seq<Entry>, more: seq<Entry>)
    ensures Keeps(cloud, log, cloud, log + more)
  {
    forall n | Gone(log, n) ensures Gone(log + more, n) { GoneStays(log, more, n); }
  }

  lemma VmStaysTracked(was: Cloud, log: seq<Entry>, now: Cloud, log': seq<Entry>, vm: Vm)
    requires VmTracked(was, log, vm) && Keeps(was, log, now, log')
    ensures VmTracked(now, log', vm)
  {
  }

  // ---- one step of the VM itself ----

  /** What the end of a call shows of the disk that is about to be recorded. */
  ghost predicate Seen(cloud: Cloud, k: Kont, r: Ret) {
    match k
    case KCreateGet(n, _, _) =>
      (r.RNotFound? ==> n !in cloud.disks) && (r.RInfo? ==> n in cloud.disks && r.disk.labels == cloud.disks[n].labels)
    case KCreateDisk(n, _, _) => r.ROk? ==> n in cloud.disks
    case KList => r.RList? ==> forall n | n in Available(r.disks) :: n in cloud.disks && Managed(cloud.disks[n].labels)
    case _ => true
  }

  lemma EndSees(cloud: Cloud, vm: Vm, k: Kont, c: Call, o: Outcome, e: Effect)
    requires Belongs(k, c) && Permits(cloud, vm, Awaits(vm.cfg, c), o, e) && After(vm.cfg, c, o).Return?
    ensures Seen(CloudAfter(cloud, Awaits(vm.cfg, c), e), k, After(vm.cfg, c, o).r)
  {
    if k.KList? && o.OList? {
      forall n | n in Available(o.disks) ensures n in cloud.disks && Managed(cloud.disks[n].labels) {
        var l :| l in o.disks && l.name == n;
      }
    }
  }

  lemma ContinueTracked(cloud: Cloud, log: seq<Entry>, t: Thread, k: Kont, r: Ret)
    requires ThreadTracked(cloud, log, t) && t.ctl.Calling? && t.ctl.k == k && Seen(cloud, k, r)
    ensures ThreadTracked(cloud, log, AfterCall(t, k, r))
  {
    AfterCallWellFormed(t, k, r);
  }

  lemma AnswerTracked(cloud: Cloud, log: seq<Entry>, vm: Vm, a: Action)
    requires CloudOk(cloud) && VmTracked(cloud, log, vm) && CanAct(cloud, vm, a) && a.Answer?
    requires DeleteProtocol.Knows(cloud, vm.thread.value.ctl.c)
    ensures VmTracked(CloudStep(cloud, vm, a), log + LogStep(cloud, vm, a), VmStep(cloud, vm, a))
  {
    var t, now, log' := vm.thread.value, CloudStep(cloud, vm, a), log + LogStep(cloud, vm, a);
    CallKeeps(cloud, log, vm, t.ctl.c, a.o, a.e);
    VmStaysTracked(cloud, log, now, log', vm);
    AfterKeepsBelongs(vm.cfg, t.ctl.k, t.ctl.c, a.o);
    var c := After(vm.cfg, t.ctl.c, a.o);
    if c.Return? {
      EndSees(cloud, vm, t.ctl.k, t.ctl.c, a.o, a.e);
      ContinueTracked(now, log', t, t.ctl.k, c.r);
    }
  }

  lemma MoveTracked(cloud: Cloud, log: seq<Entry>, cfg: Config, t: Thread, m: Move)
    requires ThreadTracked(cloud, log, t) && CanMove(cfg, t, m) && !m.MAnswer?
    ensures ThreadTracked(cloud, log, Moved(cfg, t, m))
  {
    MovedWellFormed(cfg, t, m);
    if m.MStore? { assert forall n | n in Apply(t.vols, t.ctl.op) :: Backed(cloud, log, n); }
  }

  lemma BackgroundTracked(cloud: Cloud, log: seq<Entry>, vm: Vm, a: Action)
    requires CloudOk(cloud) && VmTracked(cloud, log, vm) && CanAct(cloud, vm, a) && a.Background?
    requires DeleteProtocol.Knows(cloud, vm.deletes[a.j])
    ensures VmTracked(CloudStep(cloud, vm, a), log + LogStep(cloud, vm, a), VmStep(cloud, vm, a))
  {
    CallKeeps(cloud, log, vm, vm.deletes[a.j], a.o, a.e);
    VmStaysTracked(cloud, log, CloudStep(cloud, vm, a), log + LogStep(cloud, vm, a), vm);
  }

  lemma QuietTracked(cloud: Cloud, log: seq<Entry>, vm: Vm, a: Action)
    requires VmTracked(cloud, log, vm) && CanAct(cloud, vm, a) && !a.Answer? && !a.Background?
    ensures VmTracked(cloud, log, VmStep(cloud, vm, a))
  {
    if a.Request? { MoveTracked(cloud, log, vm.cfg, vm.thread.value, MBegin(a.op)); }
    if a.Persist? { MoveTracked(cloud, log, vm.cfg, vm.thread.value, MStore(a.ok)); }
  }

  lemma OwnStepTracked(cloud: Cloud, log: seq<Entry>, vm: Vm, a: Action)
    requires CloudOk(cloud) && VmTracked(cloud, log, vm) && CanAct(cloud, vm, a) && DeleteProtocol.VmKnows(cloud, vm)
    ensures VmTracked(CloudStep(cloud, vm, a), log + LogStep(cloud, vm, a), VmStep(cloud, vm, a))
  {
    match a
    case Answer(_, _, _) => AnswerTracked(cloud, log, vm, a);
    case Background(_, _, _, _) => BackgroundTracked(cloud, log, vm, a);
    case _ =>
      QuietTracked(cloud, log, vm, a);
      LogKeeps(cloud, log, LogStep(cloud, vm, a));
      VmStaysTracked(cloud, log, cloud, log + LogStep(cloud, vm, a), VmStep(cloud, vm, a));
  }

  // ---- every run ----

  ghost predicate AllTracked(s: Sys) {
    forall i | 0 <= i < |s.vms| :: VmTracked(s.cloud, s.log, s.vms[i])
  }

  lemma StepKeeps(s: Sys, a: Action)
    requires CanStep(s, a) && DeleteProtocol.Protocolled(s)
    ensures Keeps(s.cloud, s.log, Step(s, a).cloud, Step(s, a).log)
  {
    var vm := s.vms[a.i];
    match a
    case Answer(_, o, e) => CallKeeps(s.cloud, s.log, vm, vm.thread.value.ctl.c, o, e);
    case Background(_, j, o, e) => CallKeeps(s.cloud, s.log, vm, vm.deletes[j], o, e);
    case _ => LogKeeps(s.cloud, s.log, LogStep(s.cloud, vm, a));
  }

  lemma StepKeepsTracked(s: Sys, a: Action)
    requires AllTracked(s) && CanStep(s, a) && DeleteProtocol.Protocolled(s)
    ensures AllTracked(Step(s, a))
  {
    StepKeeps(s, a);
    var s' := Step(s, a);
    forall i | 0 <= i < |s.vms| ensures VmTracked(s'.cloud, s'.log, s'.vms[i]) {
      if i == a.i {
        OwnStepTracked(s.cloud, s.log, s.vms[i], a);
      } else {
        VmStaysTracked(s.cloud, s.log, s'.cloud, s'.log, s.vms[i]);
      }
    }
  }

  lemma {:induction false} TrackedAlways(r: Run, k: nat)
    requires IsRun(r) && k < |r.states|
    ensures AllTracked(r.states[k])
  {
    if k > 0 {
      TrackedAlways(r, k - 1);
      DeleteProtocol.ProtocolledAlways(r, k - 1);
      StepKeepsTracked(r.states[k - 1], r.actions[k - 1]);
    }
  }

  /** No phantom without a history. In every state of every run, a tracked volume whose
      disk is not in GCE had one, and its deletion is on record, with its cause. */
  lemma PhantomWasDeleted(r: Run, k: nat, i: nat, vols: Vols, n: string) returns (j: nat)
    requires IsRun(r) && k < |r.states| && i < |r.states[k].vms|
    requires var vm := r.states[k].vms[i]; vols == vm.file || (vm.thread.Some? && vols == vm.thread.value.vols)
    requires n in vols && n !in r.states[k].cloud.disks
    ensures j < |r.states[k].log| && r.states[k].log[j].Deleted? && r.states[k].log[j].n == n
    ensures Causality.Caused(r.states[k].log[..j], n)
  {
    TrackedAlways(r, k);
    assert Backed(r.states[k].cloud, r.states[k].log, n);
    var log := r.states[k].log;
    var id :| Deleted(n, id) in log;
    j :| 0 <= j < |log| && log[j] == Deleted(n, id);
    Causality.TraceableAlways(r, k);
  }

  /** And a tracked volume never stands for a disk the plugin does not manage. */
  lemma TrackedIsManaged(r: Run, k: nat, i: nat, vols: Vols, n: string)
    requires IsRun(r) && k < |r.states| && i < |r.states[k].vms|
    requires var vm := r.states[k].vms[i]; vols == vm.file || (vm.thread.Some? && vols == vm.thread.value.vols)
    requires n in vols && n in r.states[k].cloud.disks
    ensures Managed(r.states[k].cloud.disks[n].labels)
  {
    TrackedAlways(r, k);
    assert Backed(r.states[k].cloud, r.states[k].log, n);
  }
}
