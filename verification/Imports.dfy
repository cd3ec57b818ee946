/** Records that a reconciliation imports. They carry the managed-by label of their disk,
    which no option list can contain, for as long as they are tracked: through mounts,
    failed persists, crashes and restarts. So no Create ever reuses one. */
module Imports {
  import opened Options
  import opened Records
  import opened Protocol
  import opened Cluster

  // ---- what a reconciliation brings ----

  predicate AllManaged(t: map<string, DiskOptions>) {
    forall n | n in t :: Managed(t[n].labels.Entries())
  }

  /** At start-up the records are those of the file, and what is to be imported is managed. */
  ghost predicate Fetched(file: Vols, t: Thread) {
    match t.ctl
    case Calling(k, _) => k.KList? ==> t.vols == Loaded(file)
    case Storing(op, _) => op.OpReconcile? ==> t.vols == Loaded(file) && AllManaged(op.byName)
    case _ => true
  }

  ghost predicate VmFetched(vm: Vm) {
    vm.thread.Some? ==> WellFormed(vm.thread.value.ctl) && Fetched(vm.file, vm.thread.value)
  }

  lemma ListingIsManaged(cfg: Config, cloud: Cloud, ds: seq<Listed>)
    requires IsListing(cfg, cloud, ds)
    ensures AllManaged(ImportTable(ds))
  {
  }

  lemma ContinueFetched(file: Vols, t: Thread, k: Kont, r: Ret)
    requires Fetched(file, t) && t.ctl.Calling? && t.ctl.k == k && (k.KList? && r.RList? ==> AllManaged(ImportTable(r.disks)))
    ensures Fetched(file, AfterCall(t, k, r))
  {
  }

  lemma MovesFetchNothing(cfg: Config, file: Vols, t: Thread, m: Move)
    requires CanMove(cfg, t, m) && !m.MAnswer? && m != MBegin(Reconcile)
    ensures Fetched(file, Moved(cfg, t, m))
  {
  }

  lemma AnswerFetches(cloud: Cloud, vm: Vm, a: Action)
    requires VmFetched(vm) && CanAct(cloud, vm, a) && a.Answer?
    ensures VmFetched(VmStep(cloud, vm, a))
  {
    var t := vm.thread.value;
    var c := After(vm.cfg, t.ctl.c, a.o);
    MovedWellFormed(vm.cfg, t, MAnswer(a.o));
    AnswerShape(cloud, vm, a);
    if c.Return? {
      if t.ctl.k.KList? && c.r.RList? { ListingIsManaged(vm.cfg, cloud, a.o.disks); }
      ContinueFetched(vm.file, t, t.ctl.k, c.r);
    }
  }

  lemma StepFetches(cloud: Cloud, vm: Vm, a: Action)
    requires VmFetched(vm) && CanAct(cloud, vm, a)
    ensures VmFetched(VmStep(cloud, vm, a))
  {
    match a
    case Request(_, op) =>
      MovedWellFormed(vm.cfg, vm.thread.value, MBegin(op));
      MovesFetchNothing(vm.cfg, vm.file, vm.thread.value, MBegin(op));
    case Persist(_, ok) =>
      MovedWellFormed(vm.cfg, vm.thread.value, MStore(ok));
      MovesFetchNothing(vm.cfg, VmStep(cloud, vm, a).file, vm.thread.value, MStore(ok));
    case Answer(_, _, _) => AnswerFetches(cloud, vm, a);
    case _ =>
  }

  ghost predicate AllFetched(s: Sys) {
    forall i | 0 <= i < |s.vms| :: VmFetched(s.vms[i])
  }

  lemma {:induction false} FetchedAlways(r: Run, k: nat)
    requires IsRun(r) && k < |r.states|
    ensures AllFetched(r.states[k])
  {
    if k > 0 {
      FetchedAlways(r, k - 1);
      var s, a := r.states[k - 1], r.actions[k - 1];
      StepFetches(s.cloud, s.vms[a.i], a);
    }
  }

  // ---- what stays of it ----

  predicate Carries(vols: Vols, n: string) {
    n in vols ==> Managed(vols[n].options.labels.Entries())
  }

  ghost predicate VmCarries(vm: Vm, n: string) {
    Carries(vm.file, n) && (vm.thread.Some? ==> Carries(vm.thread.value.vols, n))
  }

  /** The volume has a record: in memory while the plugin is up, else in the file. */
  ghost predicate Tracks(vm: Vm, n: string) {
    if vm.thread.Some? then n in vm.thread.value.vols else n in vm.file
  }

  lemma ApplyCarries(vols: Vols, op: StoreOp, n: string)
    requires WellFormedOp(op) && Carries(vols, n) && n in vols
    ensures Carries(Apply(vols, op), n)
  {
  }

  lemma MoveCarries(cfg: Config, t: Thread, m: Move, n: string)
    requires CanMove(cfg, t, m) && Carries(t.vols, n) && n in t.vols
    ensures Carries(Moved(cfg, t, m).vols, n)
  {
    if m.MStore? { ApplyCarries(t.vols, t.ctl.op, n); }
  }

  lemma StepCarries(cloud: Cloud, vm: Vm, a: Action, n: string)
    requires CanAct(cloud, vm, a) && VmCarries(vm, n) && Tracks(vm, n)
    ensures VmCarries(VmStep(cloud, vm, a), n)
  {
    match a
    case Answer(_, o, _) => MoveCarries(vm.cfg, vm.thread.value, MAnswer(o), n);
    case Request(_, op) => MoveCarries(vm.cfg, vm.thread.value, MBegin(op), n);
    case Persist(_, ok) => MoveCarries(vm.cfg, vm.thread.value, MStore(ok), n);
    case _ =>
  }

  /** VM `i` carries out the first store operation of its start-up, and with it gets a
      record of `n` that it did not have. */
  ghost predicate ImportsAt(r: Run, j: nat, i: nat, n: string)
    requires IsRun(r)
  {
    j < |r.actions| && r.actions[j].Persist? && r.actions[j].i == i && r.states[j].vms[i].thread.value.ctl.op.OpReconcile? &&
    n !in r.states[j].vms[i].thread.value.vols && Tracks(r.states[j + 1].vms[i], n)
  }

  lemma ImportCarries(r: Run, j: nat, i: nat, n: string)
    requires IsRun(r) && ImportsAt(r, j, i, n)
    ensures i < |r.states[j + 1].vms| && VmCarries(r.states[j + 1].vms[i], n)
  {
    FetchedAlways(r, j);
    assert VmFetched(r.states[j].vms[i]);
  }

  lemma SystemStepCarries(s: Sys, a: Action, i: nat, n: string)
    requires CanStep(s, a) && i < |s.vms| && VmCarries(s.vms[i], n) && Tracks(s.vms[i], n)
    ensures VmCarries(Step(s, a).vms[i], n)
  {
    if a.i == i { StepCarries(s.cloud, s.vms[i], a, n); }
  }

  lemma {:induction false} CarriedSince(r: Run, j: nat, k: nat, i: nat, n: string)
    requires IsRun(r) && j <= k < |r.states| && i < |r.states[j].vms| && VmCarries(r.states[j].vms[i], n)
    requires forall m | j <= m < k :: i < |r.states[m].vms| && Tracks(r.states[m].vms[i], n)
    ensures i < |r.states[k].vms| && VmCarries(r.states[k].vms[i], n)
  {
    if j < k {
      CarriedSince(r, j, k - 1, i, n);
      SystemStepCarries(r.states[k - 1], r.actions[k - 1], i, n);
    }
  }

  lemma CreateRefused(vols: Vols, n: string, options: DiskOptions, stamp: string)
    requires n in vols && Carries(vols, n) && ValidOptions(options)
    ensures Begin(vols, Create(n, options, stamp)) == Idle(Refuse)
  {
    assert options.labels.Lookup(MANAGED_BY_KEY) == "" != vols[n].options.labels.Entries()[MANAGED_BY_KEY];
  }

  /** An imported record is never reused. Over every run, from the reconciliation that
      imports a volume to the last state that tracks it without a gap, its record carries
      the managed-by label, in memory and in the file, and a Create of the volume is
      refused and changes nothing, whatever its options. */
  lemma ImportedIsNeverReused(r: Run, j: nat, k: nat, i: nat, n: string)
    requires IsRun(r) && ImportsAt(r, j, i, n) && j < k < |r.states|
    requires forall m | j < m <= k :: i < |r.states[m].vms| && Tracks(r.states[m].vms[i], n)
    ensures VmCarries(r.states[k].vms[i], n)
    ensures k < |r.actions| && r.actions[k].Request? && r.actions[k].i == i && r.actions[k].op.Create? && r.actions[k].op.n == n ==>
              r.states[k + 1].cloud == r.states[k].cloud &&
              r.states[k + 1].vms[i].thread == Some(r.states[k].vms[i].thread.value.(ctl := Idle(Refuse), bg := []))
  {
    ImportCarries(r, j, i, n);
    CarriedSince(r, j + 1, k, i, n);
    if k < |r.actions| && r.actions[k].Request? && r.actions[k].i == i && r.actions[k].op.Create? && r.actions[k].op.n == n {
      var op := r.actions[k].op;
      CreateRefused(r.states[k].vms[i].thread.value.vols, n, op.options, op.stamp);
    }
  }
}
