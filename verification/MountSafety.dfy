/** What a reference count is worth: the record says mounted exactly if it is positive,
    and exactly when the target is mounted too, through restarts, crashes and failures
    of any kind. */
module MountSafety {
  import opened Options
  import opened Names
  import opened Records
  import opened Protocol
  import opened Cluster
  import Sorting

  // ---- the record itself: no assumption at all ----

  ghost predicate RecordsCoherent(vm: Vm) {
    && CoherentVols(vm.file)
    && (vm.thread.Some? ==> CoherentVols(vm.thread.value.vols) && WellFormed(vm.thread.value.ctl))
  }

  lemma StepKeepsCoherent(cloud: Cloud, vm: Vm, a: Action)
    requires RecordsCoherent(vm) && CanAct(cloud, vm, a)
    ensures RecordsCoherent(VmStep(cloud, vm, a))
  {
    match a
    case Request(_, op) => MovedWellFormed(vm.cfg, vm.thread.value, MBegin(op));
    case Answer(_, o, _) => MovedWellFormed(vm.cfg, vm.thread.value, MAnswer(o));
    case Persist(_, ok) =>
      MovedWellFormed(vm.cfg, vm.thread.value, MStore(ok));
      ApplyKeepsCoherent(vm.thread.value.vols, vm.thread.value.ctl.op);
    case _ =>
  }

  ghost predicate AllCoherent(s: Sys) {
    forall i | 0 <= i < |s.vms| :: RecordsCoherent(s.vms[i])
  }

  lemma StepKeepsAllCoherent(s: Sys, a: Action)
    requires AllCoherent(s) && CanStep(s, a)
    ensures AllCoherent(Step(s, a))
  {
    StepKeepsCoherent(s.cloud, s.vms[a.i], a);
  }

  lemma {:induction false} CoherentAlways(r: Run, k: nat)
    requires IsRun(r) && k < |r.states|
    ensures AllCoherent(r.states[k])
  {
    if k > 0 {
      CoherentAlways(r, k - 1);
      StepKeepsAllCoherent(r.states[k - 1], r.actions[k - 1]);
    }
  }

  /** In every state of every run, persisting or not, in memory and in the file: the
      status is mounted iff the count is positive iff the mountpoint is the target. */
  lemma StatusFollowsCount(r: Run, k: nat, i: nat, vols: Vols, n: string)
    requires IsRun(r) && k < |r.states| && i < |r.states[k].vms| && n in vols
    requires var vm := r.states[k].vms[i]; vols == vm.file || (vm.thread.Some? && vols == vm.thread.value.vols)
    ensures vols[n].name == n && vols[n].refCount >= 0
    ensures vols[n].status == Mounted <==> vols[n].refCount > 0
    ensures vols[n].mountpoint == MountpointFor(n) <==> vols[n].refCount > 0
    ensures vols[n].mountpoint == "" <==> vols[n].refCount == 0
  {
    CoherentAlways(r, k);
    MountpointInjective(n, n);
  }

  // ---- where an operation stands ----

  /** The counts are in force: the startup reconciliation has reset them. */
  predicate Counting(ctl: Control) {
    match ctl
    case Exited => false
    case Calling(k, _) => !k.KList?
    case Storing(_, sk) => !sk.SReconcile? && !sk.SReset?
    case Idle(_) => true
  }

  /** The plugin is starting up, or has given up doing so. */
  predicate Starting(ctl: Control) {
    match ctl
    case Exited => true
    case Calling(k, _) => k.KList? || k.KScan?
    case Storing(_, sk) => sk.SReconcile? || sk.SReset? || sk.SScan?
    case Idle(_) => false
  }

  /** The operation in progress is about to bring count and mount table together. */
  predicate Flux(ctl: Control, n: string) {
    match ctl
    case Calling(k, _) =>
      (match k
       case KUnmountUnmount(m) => m == n
       case KScan(m, todo) => m == n || n in todo
       case _ => false)
    case Storing(op, sk) =>
      (match sk
       case SMountNew(m) => m == n
       case SScan(todo) => (op.OpSetMounted? && op.n == n) || n in todo
       case _ => false)
    case _ => false
  }

  predicate Positive(vols: Vols, n: string) {
    n in vols && vols[n].refCount > 0
  }

  predicate Zero(vols: Vols, n: string) {
    n in vols && vols[n].refCount == 0
  }

  /** Names still to be scanned, each once. */
  predicate Unscanned(vols: Vols, names: seq<string>) {
    (forall n | n in names :: Zero(vols, n)) && (forall i, j | 0 <= i < j < |names| :: names[i] != names[j])
  }

  /** What the driver has found out on its way here. */
  predicate Prepared(vols: Vols, mounts: set<string>, ctl: Control) {
    match ctl
    case Calling(k, _) =>
      (match k
       case KMountAttach(n) => Zero(vols, n)
       case KMountWait(n) => Zero(vols, n)
       case KMountFormat(n) => Zero(vols, n)
       case KMountMount(n) => Zero(vols, n)
       case KUndoUnmount(n) => Positive(vols, n)
       case KUnmountUnmount(n) => Zero(vols, n)
       case KScan(n, todo) => Unscanned(vols, [n] + todo)
       case _ => true)
    case Storing(op, sk) =>
      (match op
       case OpRemove(n) => !Positive(vols, n)
       case OpIncRef(n, _) => if sk.SMountNew? then Zero(vols, n) && n in mounts else Positive(vols, n)
       case OpDecRef(n) => Positive(vols, n)
       case OpSetMounted(n, _) => sk.SScan? && n in mounts && Unscanned(vols, [n] + sk.todo)
       case _ => true)
    case _ => true
  }

  /** A counted volume is mounted, unless it is lost. */
  ghost predicate Counted(vols: Vols, mounts: set<string>, lost: set<string>, ctl: Control) {
    && (Starting(ctl) ==> lost == {})
    && (forall n | n in lost :: Positive(vols, n))
    && (Counting(ctl) ==> forall n | Positive(vols, n) :: n in mounts <==> n !in lost)
  }

  /** A mounted volume is counted, unless it is stray. */
  ghost predicate Covered(vols: Vols, mounts: set<string>, stray: set<string>, ctl: Control) {
    if Counting(ctl) then forall n | n in mounts && !Flux(ctl, n) :: Positive(vols, n) <==> n !in stray
    else if ctl.Exited? then true
    else if ctl.Storing? && ctl.sk.SReset? then forall n | n in mounts :: n in vols <==> n !in stray
    else stray == {}
  }

  ghost predicate ThreadAgrees(t: Thread, mounts: set<string>, d: Drift) {
    WellFormed(t.ctl) && CoherentVols(t.vols) && Prepared(t.vols, mounts, t.ctl) &&
    Counted(t.vols, mounts, d.lost, t.ctl) && Covered(t.vols, mounts, d.stray, t.ctl)
  }

  ghost predicate VmAgrees(vm: Vm) {
    vm.thread.Some? ==> ThreadAgrees(vm.thread.value, vm.mounts, vm.drift)
  }

  // ---- the end of a call ----

  /** The mount table changes only by a mount or an unmount of the volume itself. */
  lemma MountsChange(cfg: Config, mounts: set<string>, c: Call, e: Effect)
    ensures var m := MountsAfter(mounts, Awaits(cfg, c), e);
            if c.MountRun? then m == mounts || m == mounts + {c.n}
            else if c.UnmountRun? then m == mounts || m == mounts - {c.n}
            else m == mounts
  {
  }

  /** How the calls that touch the mount table end. */
  lemma MountOutcome(cloud: Cloud, vm: Vm, c: Call, o: Outcome, e: Effect)
    requires Permits(cloud, vm, Awaits(vm.cfg, c), o, e)
    requires c.MountCheck? || c.MountRun? || c.UnmountCheck? || c.UnmountRun? || c.IsMounted?
    ensures var c', m := After(vm.cfg, c, o), MountsAfter(vm.mounts, Awaits(vm.cfg, c), e);
            && (c'.Return? || m == vm.mounts)
            && (c' == Return(ROk) && (c.MountCheck? || c.MountRun?) ==> c.n in m)
            && (c' == Return(ROk) && (c.UnmountCheck? || c.UnmountRun?) ==> c.n !in m)
            && (c' == Return(RErr) ==> m == vm.mounts)
            && (c.IsMounted? ==> m == vm.mounts && (c' == Return(RErr) || c' == Return(RBool(c.n in m))))
            && (c.IsMounted? || c'.Return? ==> !c'.MountRun? && !c'.UnmountRun?)
  {
  }

  /** What the result of a call says about the mount table before and after its last
      answer. */
  predicate Shown(k: Kont, r: Ret, was: set<string>, m: set<string>) {
    match k
    case KMountMount(n) => m == if r.ROk? then was + {n} else was
    case KUnmountUnmount(n) => (r.ROk? || r.RErr?) && m == if r.ROk? then was - {n} else was
    case KUndoUnmount(n) => (r.ROk? || r.RErr?) && m == if r.ROk? then was - {n} else was
    case KScan(n, _) => was == m && (r == RErr || r == RBool(n in m))
    case _ => was == m
  }

  lemma EndShows(cloud: Cloud, vm: Vm, k: Kont, c: Call, o: Outcome, e: Effect)
    requires Belongs(k, c) && Permits(cloud, vm, Awaits(vm.cfg, c), o, e) && After(vm.cfg, c, o).Return?
    ensures Shown(k, After(vm.cfg, c, o).r, vm.mounts, MountsAfter(vm.mounts, Awaits(vm.cfg, c), e))
  {
    MountsChange(vm.cfg, vm.mounts, c, e);
    if k.KMountMount? || k.KUnmountUnmount? || k.KUndoUnmount? || k.KScan? { MountOutcome(cloud, vm, c, o, e); }
  }

  /** The answer moves the call on: the mount table has not changed. */
  lemma MountsStay(cloud: Cloud, vm: Vm, c: Call, o: Outcome, e: Effect)
    requires Permits(cloud, vm, Awaits(vm.cfg, c), o, e) && !After(vm.cfg, c, o).Return?
    ensures MountsAfter(vm.mounts, Awaits(vm.cfg, c), e) == vm.mounts
  {
    MountsChange(vm.cfg, vm.mounts, c, e);
    if c.MountRun? || c.UnmountRun? { MountOutcome(cloud, vm, c, o, e); }
  }

  lemma ScanNextPrepared(vols: Vols, mounts: set<string>, todo: seq<string>)
    requires Unscanned(vols, todo)
    ensures Prepared(vols, mounts, ScanNext(todo))
  {
    if todo != [] { assert [todo[0]] + todo[1..] == todo; }
  }

  lemma ScanNextFlux(todo: seq<string>)
    ensures forall n :: Flux(ScanNext(todo), n) <==> n in todo
  {
    if todo != [] { assert [todo[0]] + todo[1..] == todo; }
  }

  lemma RestUnscanned(vols: Vols, n: string, todo: seq<string>)
    requires Unscanned(vols, [n] + todo)
    ensures Unscanned(vols, todo) && n !in todo && Zero(vols, n)
  {
    var all := [n] + todo;
    assert all[0] == n && forall i | 0 <= i < |todo| :: todo[i] == all[i + 1];
  }

  lemma ContinuePrepared(t: Thread, k: Kont, r: Ret, was: set<string>, m: set<string>)
    requires Prepared(t.vols, was, t.ctl) && t.ctl.Calling? && t.ctl.k == k && Shown(k, r, was, m)
    ensures var t' := AfterCall(t, k, r); t'.vols == t.vols && Prepared(t'.vols, m, t'.ctl)
  {
    if k.KScan? {
      RestUnscanned(t.vols, k.n, k.todo);
      ScanNextPrepared(t.vols, m, k.todo);
    }
  }

  lemma ContinueCounted(t: Thread, k: Kont, r: Ret, was: set<string>, m: set<string>, lost: set<string>)
    requires Prepared(t.vols, was, t.ctl) && t.ctl.Calling? && t.ctl.k == k && Shown(k, r, was, m)
    requires Counted(t.vols, was, lost, t.ctl)
    ensures var t' := AfterCall(t, k, r); Counted(t'.vols, m, LostAfter(lost, k, Return(r)), t'.ctl)
  {
  }

  lemma ContinueCovered(t: Thread, k: Kont, r: Ret, was: set<string>, m: set<string>, stray: set<string>)
    requires Prepared(t.vols, was, t.ctl) && t.ctl.Calling? && t.ctl.k == k && Shown(k, r, was, m)
    requires Covered(t.vols, was, stray, t.ctl)
    ensures var t' := AfterCall(t, k, r); Covered(t'.vols, m, StrayAfter(stray, k, Return(r)), t'.ctl)
  {
    if k.KScan? {
      RestUnscanned(t.vols, k.n, k.todo);
      ScanNextFlux(k.todo);
    }
  }

  lemma AnswerAgrees(cloud: Cloud, vm: Vm, a: Action)
    requires VmAgrees(vm) && CanAct(cloud, vm, a) && a.Answer?
    ensures VmAgrees(VmStep(cloud, vm, a))
  {
    var t := vm.thread.value;
    var c := After(vm.cfg, t.ctl.c, a.o);
    MovedWellFormed(vm.cfg, t, MAnswer(a.o));
    AnswerShape(cloud, vm, a);
    if c.Return? {
      var m := MountsAfter(vm.mounts, Awaits(vm.cfg, t.ctl.c), a.e);
      EndShows(cloud, vm, t.ctl.k, t.ctl.c, a.o, a.e);
      ContinuePrepared(t, t.ctl.k, c.r, vm.mounts, m);
      ContinueCounted(t, t.ctl.k, c.r, vm.mounts, m, vm.drift.lost);
      ContinueCovered(t, t.ctl.k, c.r, vm.mounts, m, vm.drift.stray);
    } else {
      MountsStay(cloud, vm, t.ctl.c, a.o, a.e);
    }
  }

  // ---- the end of a store operation ----

  lemma StorePrepared(t: Thread, mounts: set<string>, ok: bool)
    requires t.ctl.Storing? && WellFormed(t.ctl) && CoherentVols(t.vols) && Prepared(t.vols, mounts, t.ctl)
    ensures var t' := AfterStore(t.(vols := Apply(t.vols, t.ctl.op)), t.ctl.sk, ok);
            t'.vols == Apply(t.vols, t.ctl.op) && Prepared(t'.vols, mounts, t'.ctl)
  {
    var vols := Apply(t.vols, t.ctl.op);
    match t.ctl.sk
    case SReset =>
      assert Unscanned(vols, Sorting.Listing(vols.Keys));
      ScanNextPrepared(vols, mounts, Sorting.Listing(vols.Keys));
    case SScan(todo) =>
      RestUnscanned(t.vols, t.ctl.op.n, todo);
      ScanNextPrepared(vols, mounts, todo);
    case _ =>
  }

  /** Which counts become positive. */
  lemma CountsRise(vols: Vols, op: StoreOp, n: string)
    requires CoherentVols(vols) && WellFormedOp(op) && !op.OpReconcile? && (op.OpAdd? ==> op.v.refCount == 0)
    requires Positive(Apply(vols, op), n)
    ensures Positive(vols, n) || ((op.OpIncRef? || op.OpSetMounted?) && n == op.n)
  {
  }

  lemma StoreCounted(t: Thread, mounts: set<string>, lost: set<string>, ok: bool)
    requires t.ctl.Storing? && WellFormed(t.ctl) && CoherentVols(t.vols) && Prepared(t.vols, mounts, t.ctl)
    requires Counted(t.vols, mounts, lost, t.ctl)
    ensures var t' := AfterStore(t.(vols := Apply(t.vols, t.ctl.op)), t.ctl.sk, ok);
            Counted(t'.vols, mounts, LostStored(lost, t'.vols), t'.ctl)
  {
    var vols := Apply(t.vols, t.ctl.op);
    if !t.ctl.op.OpReconcile? && !t.ctl.op.OpReset? {
      forall n | Positive(vols, n) ensures n in mounts <==> n !in lost { CountsRise(t.vols, t.ctl.op, n); }
    }
  }

  /** Dropping a reference, or a record without one, covers and uncovers nothing else. */
  lemma CountDownCovered(t: Thread, mounts: set<string>, stray: set<string>, ok: bool)
    requires t.ctl.Storing? && WellFormed(t.ctl) && CoherentVols(t.vols) && Prepared(t.vols, mounts, t.ctl)
    requires Covered(t.vols, mounts, stray, t.ctl) && (t.ctl.op.OpDecRef? || t.ctl.op.OpRemove? || t.ctl.op.OpAdd?)
    ensures var t' := AfterStore(t.(vols := Apply(t.vols, t.ctl.op)), t.ctl.sk, ok);
            Covered(t'.vols, mounts, StrayStored(stray, mounts, t.ctl.op, ok, t'.vols), t'.ctl)
  {
  }

  lemma StoreCovered(t: Thread, mounts: set<string>, stray: set<string>, ok: bool)
    requires t.ctl.Storing? && WellFormed(t.ctl) && CoherentVols(t.vols) && Prepared(t.vols, mounts, t.ctl)
    requires Covered(t.vols, mounts, stray, t.ctl)
    ensures var t' := AfterStore(t.(vols := Apply(t.vols, t.ctl.op)), t.ctl.sk, ok);
            Covered(t'.vols, mounts, StrayStored(stray, mounts, t.ctl.op, ok, t'.vols), t'.ctl)
  {
    var vols := Apply(t.vols, t.ctl.op);
    if t.ctl.op.OpDecRef? || t.ctl.op.OpRemove? || t.ctl.op.OpAdd? {
      CountDownCovered(t, mounts, stray, ok);
    } else if t.ctl.sk.SReset? {
      ScanNextFlux(Sorting.Listing(vols.Keys));
    } else if t.ctl.sk.SScan? {
      RestUnscanned(t.vols, t.ctl.op.n, t.ctl.sk.todo);
      ScanNextFlux(t.ctl.sk.todo);
    }
  }

  lemma PersistAgrees(cloud: Cloud, vm: Vm, a: Action)
    requires VmAgrees(vm) && CanAct(cloud, vm, a) && a.Persist?
    ensures VmAgrees(VmStep(cloud, vm, a))
  {
    var t := vm.thread.value;
    MovedWellFormed(vm.cfg, t, MStore(a.ok));
    ApplyKeepsCoherent(t.vols, t.ctl.op);
    StorePrepared(t, vm.mounts, a.ok);
    StoreCounted(t, vm.mounts, vm.drift.lost, a.ok);
    StoreCovered(t, vm.mounts, vm.drift.stray, a.ok);
  }

  // ---- every step ----

  lemma BeginAgrees(vols: Vols, mounts: set<string>, d: Drift, last: Reply, op: Op)
    requires Counted(vols, mounts, d.lost, Idle(last)) && Covered(vols, mounts, d.stray, Idle(last)) && CoherentVols(vols)
    requires !op.Reconcile?
    ensures var ctl := Begin(vols, op);
            Prepared(vols, mounts, ctl) && Counted(vols, mounts, d.lost, ctl) && Covered(vols, mounts, d.stray, ctl)
  {
  }

  lemma RequestAgrees(cloud: Cloud, vm: Vm, a: Action)
    requires VmAgrees(vm) && CanAct(cloud, vm, a) && a.Request?
    ensures VmAgrees(VmStep(cloud, vm, a))
  {
    var t := vm.thread.value;
    MovedWellFormed(vm.cfg, t, MBegin(a.op));
    BeginAgrees(t.vols, vm.mounts, vm.drift, t.ctl.last, a.op);
  }

  lemma VmStepAgrees(cloud: Cloud, vm: Vm, a: Action)
    requires VmAgrees(vm) && CanAct(cloud, vm, a) && CoherentVols(vm.file)
    ensures VmAgrees(VmStep(cloud, vm, a))
  {
    match a
    case Request(_, _) => RequestAgrees(cloud, vm, a);
    case Answer(_, _, _) => AnswerAgrees(cloud, vm, a);
    case Persist(_, _) => PersistAgrees(cloud, vm, a);
    case Background(_, _, _, _) =>
      assert VmStep(cloud, vm, a).thread == vm.thread;
    case Start(_) =>
      assert !Counting(Booted(vm.file).ctl) && CoherentVols(Loaded(vm.file));
    case _ =>
  }

  // ---- without a failed persist nothing is lost ----

  predicate Undoing(ctl: Control) {
    ctl.Calling? && ctl.k.KUndoUnmount?
  }

  ghost predicate LossExplained(vm: Vm) {
    PersistFailed !in vm.faults ==> vm.drift.lost == {} && (vm.thread.Some? ==> !Undoing(vm.thread.value.ctl))
  }

  lemma ContinuationsUndoNothing(t: Thread, k: Kont, r: Ret)
    ensures !Undoing(AfterCall(t, k, r).ctl)
  {
  }

  lemma MovesUndoNothing(cfg: Config, t: Thread, m: Move)
    requires CanMove(cfg, t, m) && !m.MAnswer? && m != MStore(false)
    ensures !Undoing(Moved(cfg, t, m).ctl)
  {
  }

  lemma StepExplainsLoss(cloud: Cloud, vm: Vm, a: Action)
    requires LossExplained(vm) && CanAct(cloud, vm, a)
    ensures LossExplained(VmStep(cloud, vm, a))
  {
    match a
    case Request(_, op) => MovesUndoNothing(vm.cfg, vm.thread.value, MBegin(op));
    case Persist(_, ok) => if ok { MovesUndoNothing(vm.cfg, vm.thread.value, MStore(ok)); }
    case Answer(_, o, _) =>
      var t := vm.thread.value;
      var c := After(vm.cfg, t.ctl.c, o);
      AnswerShape(cloud, vm, a);
      if c.Return? { ContinuationsUndoNothing(t, t.ctl.k, c.r); }
    case _ =>
  }

  // ---- every run ----

  ghost predicate AllAgree(s: Sys) {
    forall i | 0 <= i < |s.vms| :: VmAgrees(s.vms[i]) && LossExplained(s.vms[i])
  }

  lemma StepKeepsAgreement(s: Sys, a: Action)
    requires AllAgree(s) && AllCoherent(s) && CanStep(s, a)
    ensures AllAgree(Step(s, a))
  {
    VmStepAgrees(s.cloud, s.vms[a.i], a);
    StepExplainsLoss(s.cloud, s.vms[a.i], a);
  }

  lemma {:induction false} AgreedAlways(r: Run, k: nat)
    requires IsRun(r) && k < |r.states|
    ensures AllAgree(r.states[k])
  {
    if k > 0 {
      AgreedAlways(r, k - 1);
      CoherentAlways(r, k - 1);
      StepKeepsAgreement(r.states[k - 1], r.actions[k - 1]);
    }
  }

  /** In every state of every run from the first scan at start-up on, in any scope,
      whatever attach, device, format, mount, unmount, detach or persist did: a volume
      with a positive count is mounted at its target if and only if it is not lost, that
      is, no unwinding has unmounted it since it was last counted from zero. */
  lemma CountedIsMounted(r: Run, k: nat, i: nat, n: string)
    requires IsRun(r) && k < |r.states| && i < |r.states[k].vms|
    requires var vm := r.states[k].vms[i];
             vm.thread.Some? && Counting(vm.thread.value.ctl) &&
             n in vm.thread.value.vols && vm.thread.value.vols[n].refCount > 0
    ensures var vm := r.states[k].vms[i]; n in vm.mounts <==> n !in vm.drift.lost
  {
    AgreedAlways(r, k);
    assert VmAgrees(r.states[k].vms[i]);
  }

  /** Conversely, between operations a mounted volume is counted if and only if it is not
      stray; and so the count of a tracked volume is positive exactly if it is mounted
      and not stray, or lost. */
  lemma MountedIsCounted(r: Run, k: nat, i: nat, n: string)
    requires IsRun(r) && k < |r.states| && i < |r.states[k].vms|
    requires var vm := r.states[k].vms[i]; vm.thread.Some? && vm.thread.value.ctl.Idle?
    ensures var vm := r.states[k].vms[i]; var vols := vm.thread.value.vols;
            && (n in vm.mounts ==> (n in vols && vols[n].refCount > 0 <==> n !in vm.drift.stray))
            && (n in vols && vols[n].refCount > 0 <==> (n in vm.mounts && n !in vm.drift.stray) || n in vm.drift.lost)
  {
    AgreedAlways(r, k);
    assert VmAgrees(r.states[k].vms[i]);
  }
}
