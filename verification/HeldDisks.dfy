/** Exactly when a positive count means mounted and attached; and that, with every VM in
    local scope, it always does, through restarts, crashes, racing deletes and other VMs,
    unless a persist, an unmount or a scan has failed since the VM was last booted. */
module HeldDisks {
  import opened Options
  import opened Names
  import opened Records
  import opened Protocol
  import opened Cluster
  import opened MountSafety
  import opened Attachment
  import opened Tracked
  import DeleteProtocol
  import Refs
  import Sorting

  // ---- the invariant ----

  ghost predicate IsMarked(cloud: Cloud, n: string) {
    n in cloud.disks && Marked(cloud.disks[n].labels)
  }

  /** What the control state knows about volume, mount table and disk. */
  ghost predicate Control(cloud: Cloud, instance: string, vols: Vols, mounts: set<string>, ctl: Control) {
    match ctl
    case Calling(k, _) =>
      (match k
       case KCreateGet(n, _, _) => n !in vols
       case KCreateDisk(n, _, _) => n !in vols && n !in mounts && Ours(cloud, n)
       case KMountAttach(n) => n in vols && n !in mounts
       case KMountWait(n) => n in vols && n !in mounts && Uses(cloud, n, instance)
       case KMountFormat(n) => n in vols && n !in mounts && Uses(cloud, n, instance)
       case KMountMount(n) => n in vols && n !in mounts && Uses(cloud, n, instance)
       case KMountDetach(n) => n !in mounts
       case KUnmountDetach(n) => n !in mounts
       case KCreateRollback(_) => false
       case KUndoUnmount(_) => false
       case KUndoDetach(_) => false
       case _ => true)
    case Storing(op, sk) =>
      (match op
       case OpAdd(v) => v.name !in vols && v.name !in mounts && Ours(cloud, v.name)
       case OpRemove(n) => n !in mounts
       case OpIncRef(n, _) => n in vols && (sk.SMountNew? ==> n in mounts)
       case OpReconcile(names, _) =>
         sk.SReconcile? &&
         (forall n | n in mounts :: n in names || IsMarked(cloud, n)) && (forall n | n in names :: Ours(cloud, n))
       case _ => true)
    case _ => true
  }

  ghost predicate Held(cloud: Cloud, instance: string, vols: Vols, mounts: set<string>, ctl: Control) {
    && Control(cloud, instance, vols, mounts, ctl)
    && (Counting(ctl) ==> forall n | n in vols && n in mounts && !Flux(ctl, n) :: vols[n].refCount > 0)
  }

  /** Tracked disks are ours; mounted ones are attached here; a mounted disk that is
      no longer tracked is marked for deletion. */
  ghost predicate Base(cloud: Cloud, instance: string, tracked: set<string>, mounts: set<string>) {
    && (forall n | n in tracked :: Ours(cloud, n))
    && (forall n | n in mounts :: Uses(cloud, n, instance) && Managed(cloud.disks[n].labels))
    && (forall n | n in mounts && n !in tracked :: Marked(cloud.disks[n].labels))
  }

  ghost predicate VmHeld(cloud: Cloud, vm: Vm) {
    vm.faults == {} ==>
      && Base(cloud, vm.cfg.instance, vm.file.Keys, vm.mounts)
      && (vm.thread.Some? ==>
            vm.thread.value.vols.Keys == vm.file.Keys &&
            Held(cloud, vm.cfg.instance, vm.thread.value.vols, vm.mounts, vm.thread.value.ctl))
  }

  // ---- what the others may do ----

  /** Attachments to the VM stay, except possibly the disk `but`; labels are kept and
      what was ours stays ours. */
  ghost predicate Keeps(was: Cloud, now: Cloud, instance: string, but: Option<string>) {
    && (forall n | Uses(was, n, instance) && but != Some(n) ::
          Uses(now, n, instance) && DeleteProtocol.LabelsKept(was.disks[n].labels, now.disks[n].labels))
    && (forall n | Ours(was, n) :: Ours(now, n))
  }

  lemma CallKeeps(cloud: Cloud, vm: Vm, c: Call, o: Outcome, e: Effect, instance: string)
    requires CloudOk(cloud) && DeleteProtocol.Knows(cloud, c) && !FailoverCall(c)
    requires Permits(cloud, vm, Awaits(vm.cfg, c), o, e)
    ensures var now := CloudAfter(cloud, Awaits(vm.cfg, c), e);
            Keeps(cloud, now, instance, if c.DetachDetach? && instance == vm.cfg.instance then Some(c.n) else None)
  {
    var now := CloudAfter(cloud, Awaits(vm.cfg, c), e);
    DeleteProtocol.CloudAfterEvolves(vm.cfg, cloud, c, e, o, vm);
    forall n | Uses(cloud, n, instance) && !(c == DetachDetach(n) && instance == vm.cfg.instance)
      ensures Uses(now, n, instance) && DeleteProtocol.LabelsKept(cloud.disks[n].labels, now.disks[n].labels)
    {
      CallKeepsUses(cloud, vm, c, o, e, n, instance);
      assert DeleteProtocol.DiskEvolves(cloud, now, n);
    }
    forall n | Ours(cloud, n) ensures Ours(now, n) { CallKeepsOurs(cloud, vm, c, o, e, n); }
  }

  lemma BaseStays(was: Cloud, now: Cloud, instance: string, tracked: set<string>, mounts: set<string>, but: Option<string>)
    requires Base(was, instance, tracked, mounts) && Keeps(was, now, instance, but)
    requires but.Some? ==> but.value !in mounts
    ensures Base(now, instance, tracked, mounts)
  {
  }

  lemma HeldStays(was: Cloud, now: Cloud, instance: string, tracked: set<string>, vols: Vols, mounts: set<string>, ctl: Control)
    requires Base(was, instance, tracked, mounts) && Held(was, instance, vols, mounts, ctl)
    requires Keeps(was, now, instance, None)
    ensures Held(now, instance, vols, mounts, ctl)
  {
  }

  lemma VmHeldStays(was: Cloud, now: Cloud, vm: Vm)
    requires VmHeld(was, vm) && Keeps(was, now, vm.cfg.instance, None)
    ensures VmHeld(now, vm)
  {
    if vm.faults == {} {
      BaseStays(was, now, vm.cfg.instance, vm.file.Keys, vm.mounts, None);
      if vm.thread.Some? {
        HeldStays(was, now, vm.cfg.instance, vm.file.Keys, vm.thread.value.vols, vm.mounts, vm.thread.value.ctl);
      }
    }
  }

  // ---- answers ----

  /** What an answer that ends a call establishes in the state after it. */
  ghost predicate Learned(cloud: Cloud, instance: string, k: Kont, r: Ret, was: set<string>, mounts: set<string>) {
    match k
    case KCreateGet(n, _, _) =>
      was == mounts && (r.RNotFound? ==> n !in cloud.disks) &&
      (r.RInfo? ==> n in cloud.disks && r.disk.labels == cloud.disks[n].labels)
    case KMountAttach(n) => was == mounts && (r.ROk? ==> Uses(cloud, n, instance))
    case KMountMount(n) =>
      if r.ROk? then mounts == was + {n} && Uses(cloud, n, instance) else was == mounts
    case KUnmountUnmount(n) => r.ROk? && mounts == was - {n}
    case KScan(n, _) => was == mounts && r == RBool(n in mounts)
    case KList =>
      was == mounts &&
      (r.RList? ==>
         (forall n | n in mounts :: n in Available(r.disks) || IsMarked(cloud, n)) &&
         (forall n | n in Available(r.disks) :: Ours(cloud, n)))
    case _ => was == mounts
  }

  lemma ContinueHeld(cloud: Cloud, instance: string, t: Thread, k: Kont, r: Ret, was: set<string>, m: set<string>)
    requires t.ctl.Calling? && t.ctl.k == k && Learned(cloud, instance, k, r, was, m)
    requires Base(cloud, instance, t.vols.Keys, was)
    requires Held(cloud, instance, t.vols, was, t.ctl)
    ensures Base(cloud, instance, t.vols.Keys, m)
    ensures var t' := AfterCall(t, k, r); t'.vols == t.vols && Held(cloud, instance, t'.vols, m, t'.ctl)
  {
    var t' := AfterCall(t, k, r);
    if k.KMountMount? && r.ROk? {
      assert Ours(cloud, k.n);
    }
    if k.KList? && r.RList? {
      ImportIsWellFormed(r.disks);
    }
  }

  /** The thread's own call leaves what it knows intact. */
  lemma OwnCallKeeps(cloud: Cloud, vm: Vm, o: Outcome, e: Effect)
    requires VmHeld(cloud, vm) && vm.faults == {} && vm.thread.Some? && vm.thread.value.ctl.Calling?
    requires WellFormed(vm.thread.value.ctl) && NoFailover(vm) && !vm.cfg.global
    requires CloudOk(cloud) && DeleteProtocol.Knows(cloud, vm.thread.value.ctl.c)
    requires Permits(cloud, vm, Awaits(vm.cfg, vm.thread.value.ctl.c), o, e)
    ensures var t := vm.thread.value; var now := CloudAfter(cloud, Awaits(vm.cfg, t.ctl.c), e);
            Base(now, vm.cfg.instance, vm.file.Keys, vm.mounts) && Held(now, vm.cfg.instance, t.vols, vm.mounts, t.ctl)
  {
    var t := vm.thread.value;
    var now := CloudAfter(cloud, Awaits(vm.cfg, t.ctl.c), e);
    CallKeeps(cloud, vm, t.ctl.c, o, e, vm.cfg.instance);
    if t.ctl.c.DetachDetach? {
      BaseStays(cloud, now, vm.cfg.instance, vm.file.Keys, vm.mounts, Some(t.ctl.c.n));
    } else {
      BaseStays(cloud, now, vm.cfg.instance, vm.file.Keys, vm.mounts, None);
      HeldStays(cloud, now, vm.cfg.instance, vm.file.Keys, t.vols, vm.mounts, t.ctl);
    }
  }

  /** A listing shows every mounted disk, as available or as marked. */
  lemma ListingCoversMounts(cfg: Config, cloud: Cloud, ds: seq<Listed>, tracked: set<string>, mounts: set<string>)
    requires IsListing(cfg, cloud, ds) && Base(cloud, cfg.instance, tracked, mounts)
    ensures forall n | n in mounts :: n in Available(ds) || IsMarked(cloud, n)
    ensures forall n | n in Available(ds) :: Ours(cloud, n)
  {
    forall n | n in mounts ensures n in Available(ds) || IsMarked(cloud, n) {
      DeleteProtocol.ListedMarked(cfg, cloud, ds, n);
    }
    forall n | n in Available(ds) ensures Ours(cloud, n) {
      var l :| l in ds && l.name == n;
    }
  }

  /** Attaching ends well only with the disk attached here. */
  lemma AttachLearns(cloud: Cloud, vm: Vm, c: Call, o: Outcome, e: Effect)
    requires CloudOk(cloud) && Refs.SlashFree(vm.cfg.instance) && Permits(cloud, vm, Awaits(vm.cfg, c), o, e)
    requires c.AttachGet? || c.AttachAttach?
    requires After(vm.cfg, c, o) == Return(ROk)
    ensures Uses(CloudAfter(cloud, Awaits(vm.cfg, c), e), c.n, vm.cfg.instance)
  {
    if c.AttachGet? {
      var d := cloud.disks[c.n];
      assert DiskOk(cloud, d);
      assert o.disk.users == View(vm.cfg, d).users && d.users != [];
      assert d.users[0] in d.users;
      ViewShowsOwner(vm.cfg, d);
    }
  }

  /** What an attach or a listing shows. */
  lemma LearnsFromCloud(cloud: Cloud, vm: Vm, k: Kont, c: Call, o: Outcome, e: Effect)
    requires Base(cloud, vm.cfg.instance, vm.file.Keys, vm.mounts) && CloudOk(cloud) && Refs.SlashFree(vm.cfg.instance)
    requires Belongs(k, c) && Permits(cloud, vm, Awaits(vm.cfg, c), o, e) && After(vm.cfg, c, o).Return?
    requires k.KList? || (k.KMountAttach? && !FailoverCall(c))
    ensures var q := Awaits(vm.cfg, c);
            Learned(CloudAfter(cloud, q, e), vm.cfg.instance, k, After(vm.cfg, c, o).r, vm.mounts, vm.mounts)
  {
    if k.KMountAttach? {
      if After(vm.cfg, c, o).r.ROk? { AttachLearns(cloud, vm, c, o, e); }
    } else if o.OList? {
      ListingCoversMounts(vm.cfg, cloud, o.disks, vm.file.Keys, vm.mounts);
    }
  }

  /** What the end of a mount, or of an unmount or a scan, shows of the mount table. */
  lemma LearnsFromMount(cloud: Cloud, vm: Vm, k: Kont, c: Call, o: Outcome, e: Effect)
    requires Belongs(k, c) && Permits(cloud, vm, Awaits(vm.cfg, c), o, e) && After(vm.cfg, c, o).Return?
    requires k.KMountMount? && Uses(cloud, k.n, vm.cfg.instance)
    ensures var q := Awaits(vm.cfg, c);
            Learned(CloudAfter(cloud, q, e), vm.cfg.instance, k, After(vm.cfg, c, o).r, vm.mounts, MountsAfter(vm.mounts, q, e))
  {
    MountsChange(vm.cfg, vm.mounts, c, e);
    MountOutcome(cloud, vm, c, o, e);
    assert CloudAfter(cloud, Awaits(vm.cfg, c), e) == cloud;
  }

  lemma LearnsFromTable(cloud: Cloud, vm: Vm, k: Kont, c: Call, o: Outcome, e: Effect)
    requires Belongs(k, c) && Permits(cloud, vm, Awaits(vm.cfg, c), o, e)
    requires After(vm.cfg, c, o).Return? && FaultOf(c, After(vm.cfg, c, o)) == {}
    requires k.KUnmountUnmount? || k.KScan?
    ensures var q := Awaits(vm.cfg, c);
            Learned(CloudAfter(cloud, q, e), vm.cfg.instance, k, After(vm.cfg, c, o).r, vm.mounts, MountsAfter(vm.mounts, q, e))
  {
    MountsChange(vm.cfg, vm.mounts, c, e);
    MountOutcome(cloud, vm, c, o, e);
  }

  lemma Learns(cloud: Cloud, vm: Vm, o: Outcome, e: Effect)
    requires VmHeld(cloud, vm) && vm.faults == {} && vm.thread.Some? && vm.thread.value.ctl.Calling?
    requires WellFormed(vm.thread.value.ctl) && NoFailover(vm) && !vm.cfg.global
    requires CloudOk(cloud) && Refs.SlashFree(vm.cfg.instance)
    requires Permits(cloud, vm, Awaits(vm.cfg, vm.thread.value.ctl.c), o, e)
    requires var c := vm.thread.value.ctl.c;
             After(vm.cfg, c, o).Return? && FaultOf(c, After(vm.cfg, c, o)) == {}
    ensures var ctl := vm.thread.value.ctl; var q := Awaits(vm.cfg, ctl.c);
            Learned(CloudAfter(cloud, q, e), vm.cfg.instance, ctl.k, After(vm.cfg, ctl.c, o).r,
                    vm.mounts, MountsAfter(vm.mounts, q, e))
  {
    var k, c := vm.thread.value.ctl.k, vm.thread.value.ctl.c;
    if k.KMountMount? {
      LearnsFromMount(cloud, vm, k, c, o, e);
    } else if k.KUnmountUnmount? || k.KScan? {
      LearnsFromTable(cloud, vm, k, c, o, e);
    } else {
      MountsChange(vm.cfg, vm.mounts, c, e);
      if k.KList? || k.KMountAttach? { LearnsFromCloud(cloud, vm, k, c, o, e); }
    }
  }

  /** The answer ends the call. */
  lemma EndHeld(cloud: Cloud, vm: Vm, o: Outcome, e: Effect)
    requires VmHeld(cloud, vm) && vm.faults == {} && vm.thread.Some? && vm.thread.value.ctl.Calling?
    requires WellFormed(vm.thread.value.ctl) && NoFailover(vm) && !vm.cfg.global
    requires CloudOk(cloud) && DeleteProtocol.Knows(cloud, vm.thread.value.ctl.c) && Refs.SlashFree(vm.cfg.instance)
    requires Permits(cloud, vm, Awaits(vm.cfg, vm.thread.value.ctl.c), o, e)
    requires var c := vm.thread.value.ctl.c;
             After(vm.cfg, c, o).Return? && FaultOf(c, After(vm.cfg, c, o)) == {}
    ensures var t := vm.thread.value; var q := Awaits(vm.cfg, t.ctl.c);
            var t', now, m := Moved(vm.cfg, t, MAnswer(o)), CloudAfter(cloud, q, e), MountsAfter(vm.mounts, q, e);
            t'.vols == t.vols && Base(now, vm.cfg.instance, vm.file.Keys, m) && Held(now, vm.cfg.instance, t'.vols, m, t'.ctl)
  {
    var t := vm.thread.value;
    var q := Awaits(vm.cfg, t.ctl.c);
    OwnCallKeeps(cloud, vm, o, e);
    Learns(cloud, vm, o, e);
    ContinueHeld(CloudAfter(cloud, q, e), vm.cfg.instance, t, t.ctl.k, After(vm.cfg, t.ctl.c, o).r, vm.mounts,
                 MountsAfter(vm.mounts, q, e));
  }

  /** The answer moves the call on. */
  lemma GoOnHeld(cloud: Cloud, vm: Vm, o: Outcome, e: Effect)
    requires VmHeld(cloud, vm) && vm.faults == {} && vm.thread.Some? && vm.thread.value.ctl.Calling?
    requires WellFormed(vm.thread.value.ctl) && NoFailover(vm) && !vm.cfg.global
    requires CloudOk(cloud) && DeleteProtocol.Knows(cloud, vm.thread.value.ctl.c)
    requires Permits(cloud, vm, Awaits(vm.cfg, vm.thread.value.ctl.c), o, e)
    requires !After(vm.cfg, vm.thread.value.ctl.c, o).Return?
    ensures var t := vm.thread.value; var q := Awaits(vm.cfg, t.ctl.c);
            var t', now, m := Moved(vm.cfg, t, MAnswer(o)), CloudAfter(cloud, q, e), MountsAfter(vm.mounts, q, e);
            t'.vols == t.vols && Base(now, vm.cfg.instance, vm.file.Keys, m) && Held(now, vm.cfg.instance, t'.vols, m, t'.ctl)
  {
    OwnCallKeeps(cloud, vm, o, e);
    MountsStay(cloud, vm, vm.thread.value.ctl.c, o, e);
  }

  lemma AnswerHeld(cloud: Cloud, vm: Vm, a: Action)
    requires VmHeld(cloud, vm) && CanAct(cloud, vm, a) && a.Answer?
    requires WellFormed(vm.thread.value.ctl) && NoFailover(vm) && !vm.cfg.global
    requires CloudOk(cloud) && DeleteProtocol.Knows(cloud, vm.thread.value.ctl.c) && Refs.SlashFree(vm.cfg.instance)
    ensures VmHeld(CloudStep(cloud, vm, a), VmStep(cloud, vm, a))
  {
    AnswerShape(cloud, vm, a);
    var c := After(vm.cfg, vm.thread.value.ctl.c, a.o);
    if VmStep(cloud, vm, a).faults == {} {
      assert vm.faults == {} && FaultOf(vm.thread.value.ctl.c, c) == {};
      if c.Return? { EndHeld(cloud, vm, a.o, a.e); } else { GoOnHeld(cloud, vm, a.o, a.e); }
    }
  }

  // ---- store operations and requests ----

  lemma ScanNextHeld(cloud: Cloud, instance: string, vols: Vols, mounts: set<string>, todo: seq<string>)
    requires forall n | n in vols && n in mounts && n !in todo :: vols[n].refCount > 0
    ensures Held(cloud, instance, vols, mounts, ScanNext(todo))
  {
    if todo != [] { assert todo == [todo[0]] + todo[1..]; }
  }

  ghost predicate StoreEnds(cloud: Cloud, instance: string, t: Thread, mounts: set<string>)
    requires t.ctl.Storing? && WellFormed(t.ctl)
  {
    var t' := AfterStore(t.(vols := Apply(t.vols, t.ctl.op)), t.ctl.sk, true);
    Base(cloud, instance, t'.vols.Keys, mounts) && Held(cloud, instance, t'.vols, mounts, t'.ctl)
  }

  lemma StartupStoreHeld(cloud: Cloud, instance: string, t: Thread, mounts: set<string>)
    requires t.ctl.Storing? && WellFormed(t.ctl) && CoherentVols(t.vols)
    requires t.ctl.sk.SReconcile? || t.ctl.sk.SReset? || t.ctl.sk.SScan?
    requires Base(cloud, instance, t.vols.Keys, mounts) && Held(cloud, instance, t.vols, mounts, t.ctl)
    ensures StoreEnds(cloud, instance, t, mounts)
  {
    var vols := Apply(t.vols, t.ctl.op);
    match t.ctl.sk
    case SReconcile =>
    case SReset =>
      assert vols.Keys == t.vols.Keys;
      ScanNextHeld(cloud, instance, vols, mounts, Sorting.Listing(vols.Keys));
    case SScan(todo) =>
      assert vols.Keys == t.vols.Keys;
      ScanNextHeld(cloud, instance, vols, mounts, todo);
  }

  /** A record comes or goes. */
  lemma RecordStoreHeld(cloud: Cloud, instance: string, t: Thread, mounts: set<string>)
    requires t.ctl.Storing? && WellFormed(t.ctl) && CoherentVols(t.vols)
    requires t.ctl.op.OpAdd? || t.ctl.op.OpRemove?
    requires Base(cloud, instance, t.vols.Keys, mounts) && Held(cloud, instance, t.vols, mounts, t.ctl)
    ensures StoreEnds(cloud, instance, t, mounts)
  {
  }

  /** One reference more. */
  lemma CountUpHeld(cloud: Cloud, instance: string, t: Thread, mounts: set<string>)
    requires t.ctl.Storing? && WellFormed(t.ctl) && CoherentVols(t.vols) && t.ctl.op.OpIncRef?
    requires Base(cloud, instance, t.vols.Keys, mounts) && Held(cloud, instance, t.vols, mounts, t.ctl)
    ensures StoreEnds(cloud, instance, t, mounts)
  {
    var vols := Apply(t.vols, t.ctl.op);
    var ctl := AfterStore(t.(vols := vols), t.ctl.sk, true).ctl;
    assert vols.Keys == t.vols.Keys && Counting(t.ctl);
    forall m | m in vols && m in mounts && !Flux(ctl, m) ensures vols[m].refCount > 0 {
      if m != t.ctl.op.n { assert vols[m] == t.vols[m] && !Flux(t.ctl, m); }
    }
  }

  /** One reference less; with the last one the unmount begins. */
  lemma CountDownHeld(cloud: Cloud, instance: string, t: Thread, mounts: set<string>)
    requires t.ctl.Storing? && WellFormed(t.ctl) && CoherentVols(t.vols) && t.ctl.op.OpDecRef?
    requires Base(cloud, instance, t.vols.Keys, mounts) && Held(cloud, instance, t.vols, mounts, t.ctl)
    ensures StoreEnds(cloud, instance, t, mounts)
  {
    var vols := Apply(t.vols, t.ctl.op);
    var ctl := AfterStore(t.(vols := vols), t.ctl.sk, true).ctl;
    assert vols.Keys == t.vols.Keys && Counting(t.ctl);
    forall m | m in vols && m in mounts && !Flux(ctl, m) ensures vols[m].refCount > 0 {
      if m != t.ctl.op.n { assert vols[m] == t.vols[m] && !Flux(t.ctl, m); }
    }
  }

  lemma StoreHeld(cloud: Cloud, instance: string, t: Thread, mounts: set<string>)
    requires t.ctl.Storing? && WellFormed(t.ctl) && CoherentVols(t.vols)
    requires Base(cloud, instance, t.vols.Keys, mounts) && Held(cloud, instance, t.vols, mounts, t.ctl)
    ensures StoreEnds(cloud, instance, t, mounts)
  {
    if t.ctl.sk.SReconcile? || t.ctl.sk.SReset? || t.ctl.sk.SScan? {
      StartupStoreHeld(cloud, instance, t, mounts);
    } else if t.ctl.op.OpAdd? || t.ctl.op.OpRemove? {
      RecordStoreHeld(cloud, instance, t, mounts);
    } else if t.ctl.op.OpIncRef? {
      CountUpHeld(cloud, instance, t, mounts);
    } else {
      CountDownHeld(cloud, instance, t, mounts);
    }
  }

  lemma PersistHeld(cloud: Cloud, vm: Vm, a: Action)
    requires VmHeld(cloud, vm) && CanAct(cloud, vm, a) && a.Persist?
    requires WellFormed(vm.thread.value.ctl) && CoherentVols(vm.thread.value.vols)
    ensures VmHeld(cloud, VmStep(cloud, vm, a))
  {
    if a.ok && vm.faults == {} {
      StoreHeld(cloud, vm.cfg.instance, vm.thread.value, vm.mounts);
    }
  }

  lemma RequestHeld(cloud: Cloud, vm: Vm, a: Action)
    requires VmHeld(cloud, vm) && CanAct(cloud, vm, a) && a.Request?
    requires CoherentVols(vm.thread.value.vols)
    ensures VmHeld(cloud, VmStep(cloud, vm, a))
  {
  }

  lemma BackgroundHeld(cloud: Cloud, vm: Vm, a: Action)
    requires VmHeld(cloud, vm) && CanAct(cloud, vm, a) && a.Background?
    requires NoFailover(vm) && CloudOk(cloud) && DeleteProtocol.VmKnows(cloud, vm)
    ensures VmHeld(CloudStep(cloud, vm, a), VmStep(cloud, vm, a))
  {
    var now := CloudStep(cloud, vm, a);
    CallKeeps(cloud, vm, vm.deletes[a.j], a.o, a.e, vm.cfg.instance);
    VmHeldStays(cloud, now, vm);
    assert forall deletes :: VmHeld(now, vm.(deletes := deletes)) <==> VmHeld(now, vm);
  }

  lemma OwnStepHeld(cloud: Cloud, vm: Vm, a: Action)
    requires VmHeld(cloud, vm) && CanAct(cloud, vm, a) && RecordsCoherent(vm)
    requires NoFailover(vm) && !vm.cfg.global && CloudOk(cloud) && Refs.SlashFree(vm.cfg.instance)
    requires DeleteProtocol.VmKnows(cloud, vm) && forall n | n in vm.file :: Ours(cloud, n)
    ensures VmHeld(CloudStep(cloud, vm, a), VmStep(cloud, vm, a))
  {
    match a
    case Request(_, _) => RequestHeld(cloud, vm, a);
    case Answer(_, _, _) => AnswerHeld(cloud, vm, a);
    case Persist(_, _) => PersistHeld(cloud, vm, a);
    case Background(_, _, _, _) => BackgroundHeld(cloud, vm, a);
    case _ =>
  }

  // ---- every run ----

  ghost predicate AllHeld(s: Sys) {
    forall i | 0 <= i < |s.vms| :: VmHeld(s.cloud, s.vms[i])
  }

  /** Another VM's step, seen from here. */
  lemma OtherStepHeld(s: Sys, a: Action, vm: Vm)
    requires CanStep(s, a) && VmHeld(s.cloud, vm) && vm.cfg.instance != s.vms[a.i].cfg.instance
    requires DeleteProtocol.Protocolled(s) && Settled(s) && AllLocal(s)
    ensures VmHeld(Step(s, a).cloud, vm)
  {
    var other := s.vms[a.i];
    match a
    case Answer(_, o, e) =>
      CallKeeps(s.cloud, other, other.thread.value.ctl.c, o, e, vm.cfg.instance);
      VmHeldStays(s.cloud, Step(s, a).cloud, vm);
    case Background(_, j, o, e) =>
      CallKeeps(s.cloud, other, other.deletes[j], o, e, vm.cfg.instance);
      VmHeldStays(s.cloud, Step(s, a).cloud, vm);
    case _ =>
  }

  lemma StepKeepsAllHeld(s: Sys, a: Action)
    requires AllHeld(s) && CanStep(s, a) && AllCoherent(s) && AllTracked(s)
    requires DeleteProtocol.Protocolled(s) && Settled(s) && AllLocal(s)
    ensures AllHeld(Step(s, a))
  {
    forall i | 0 <= i < |s.vms| ensures VmHeld(Step(s, a).cloud, Step(s, a).vms[i]) {
      if i == a.i {
        assert VmTracked(s.cloud, s.log, s.vms[i]);
        OwnStepHeld(s.cloud, s.vms[i], a);
      } else {
        OtherStepHeld(s, a, s.vms[i]);
      }
    }
  }

  lemma {:induction false} HeldAlways(r: Run, k: nat)
    requires IsRun(r) && k < |r.states| && AllLocal(r.states[0])
    ensures AllHeld(r.states[k])
  {
    if k > 0 {
      HeldAlways(r, k - 1);
      LocalAlways(r, k - 1);
      CoherentAlways(r, k - 1);
      TrackedAlways(r, k - 1);
      SettledAlways(r, k - 1);
      DeleteProtocol.ProtocolledAlways(r, k - 1);
      StepKeepsAllHeld(r.states[k - 1], r.actions[k - 1]);
    }
  }

  /** What a positive count is worth. In every state of every run from the first scan at
      start-up on, whatever the scopes, whatever failed and whatever restarts lie behind:
      a volume with a positive count is mounted at its target with its disk attached here
      if and only if it is not lost, not adrift and not taken; in local scope the last
      never happens. */
  lemma CountedIsAttached(r: Run, k: nat, i: nat, n: string)
    requires IsRun(r) && k < |r.states| && i < |r.states[k].vms|
    requires var vm := r.states[k].vms[i];
             vm.thread.Some? && Counting(vm.thread.value.ctl) &&
             n in vm.thread.value.vols && vm.thread.value.vols[n].refCount > 0
    ensures var vm := r.states[k].vms[i];
            n in vm.mounts && Uses(r.states[k].cloud, n, vm.cfg.instance) <==>
              n !in vm.drift.lost && n !in vm.drift.adrift && !Taken(r, k, i, n)
    ensures AllLocal(r.states[0]) ==> !Taken(r, k, i, n)
  {
    CountedIsMounted(r, k, i, n);
    if n in r.states[k].vms[i].mounts { MountedIsAttached(r, k, i, n); }
    if AllLocal(r.states[0]) { LocalTakesNothing(r, k, i, n); }
  }

  /** Only failures make records, mount table and attachments come apart: as long as no
      persist, unmount or scan has failed on a VM since it was last booted, nothing is
      lost or adrift there, and between operations a stray volume is one that is no
      longer tracked because it is being deleted. */
  lemma FaultlessStaysInStep(r: Run, k: nat, i: nat)
    requires IsRun(r) && k < |r.states| && i < |r.states[k].vms| && AllLocal(r.states[0])
    requires r.states[k].vms[i].faults == {}
    ensures var vm := r.states[k].vms[i];
            && vm.drift.lost == {} && vm.drift.adrift == {}
            && (vm.thread.Some? && vm.thread.value.ctl.Idle? ==>
                  forall n | n in vm.mounts && n in vm.drift.stray ::
                    n !in vm.thread.value.vols && IsMarked(r.states[k].cloud, n))
  {
    var vm := r.states[k].vms[i];
    HeldAlways(r, k);
    AgreedAlways(r, k);
    assert LossExplained(vm) && VmAgrees(vm) && VmHeld(r.states[k].cloud, vm);
    forall n ensures n !in vm.drift.adrift {
      MooredAlways(r, k, i, n);
    }
  }

  /** So in an idle state without failures the count of a tracked volume is positive
      exactly when it is mounted; a mounted volume that is not tracked is being deleted. */
  lemma IdleCountsAreExact(r: Run, k: nat, i: nat, n: string)
    requires IsRun(r) && k < |r.states| && i < |r.states[k].vms| && AllLocal(r.states[0])
    requires var vm := r.states[k].vms[i]; vm.thread.Some? && vm.thread.value.ctl.Idle? && vm.faults == {}
    ensures var vm := r.states[k].vms[i]; var vols := vm.thread.value.vols;
            (n in vols ==> (vols[n].refCount > 0 <==> n in vm.mounts)) &&
            (n in vm.mounts && n !in vols ==> IsMarked(r.states[k].cloud, n))
  {
    FaultlessStaysInStep(r, k, i);
    MountedIsCounted(r, k, i, n);
  }
}
