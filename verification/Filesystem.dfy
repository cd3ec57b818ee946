/** A file system is never overwritten: whatever the record says, however often a
    mount is retried, on whichever VM, and wherever a crash hits. */
module Filesystem {
  import opened Options
  import opened Records
  import opened Protocol
  import opened Cluster
  import DeleteProtocol

  /** A disk is formatted at most once, and then has a file system. */
  predicate FormattedOnce(d: Disk) {
    d.formats <= 1 && (d.formats == 1 ==> d.fs != "")
  }

  /** A VM about to run mkfs: if the disk is (still) attached to it, it is blank. */
  ghost predicate MkfsOnBlank(cloud: Cloud, vm: Vm) {
    vm.thread.Some? && vm.thread.value.ctl.Calling? && vm.thread.value.ctl.c.FormatMkfs? ==>
      var c := vm.thread.value.ctl.c;
      KnownFsType(c.fsType) &&
      (Uses(cloud, c.n, vm.cfg.instance) ==> cloud.disks[c.n].fs == "")
  }

  ghost predicate Formatting(s: Sys) {
    && CloudOk(s.cloud) && Named(s)
    && (forall n | n in s.cloud.disks :: FormattedOnce(s.cloud.disks[n]))
    && (forall i | 0 <= i < |s.vms| :: MkfsOnBlank(s.cloud, s.vms[i]) && DeletesOnly(s.vms[i]))
  }

  ghost predicate DeletesOnly(vm: Vm) {
    forall j | 0 <= j < |vm.deletes| :: DeleteCall(vm.deletes[j])
  }

  /** Only attaching to the VM itself, or formatting on it, can change what it sees. */
  ghost predicate KeepsDisksOf(was: Cloud, now: Cloud, instance: string) {
    forall n | Uses(now, n, instance) :: Uses(was, n, instance) && now.disks[n].fs == was.disks[n].fs
  }

  /** What a step may do to a file system. */
  ghost predicate FsKept(was: Cloud, now: Cloud) {
    forall n | n in was.disks && n in now.disks && was.disks[n].id == now.disks[n].id && was.disks[n].fs != "" ::
      now.disks[n].fs == was.disks[n].fs && now.disks[n].formats == was.disks[n].formats
  }

  lemma RequestKeepsFs(cloud: Cloud, vm: Vm, q: Query, o: Outcome, e: Effect)
    requires CloudOk(cloud) && Permits(cloud, vm, q, o, e)
    requires forall n | n in cloud.disks :: FormattedOnce(cloud.disks[n])
    requires q.QMkfs? ==> KnownFsType(q.fsType) && (Uses(cloud, q.n, vm.cfg.instance) ==> cloud.disks[q.n].fs == "")
    ensures FsKept(cloud, CloudAfter(cloud, q, e))
    ensures forall n | n in CloudAfter(cloud, q, e).disks :: FormattedOnce(CloudAfter(cloud, q, e).disks[n])
  {
    if q.QInsert? && e.Effect? { assert q.n !in cloud.disks; }
  }

  lemma OnlyMkfsFormats(cfg: Config, c: Call)
    requires Awaits(cfg, c).QMkfs?
    ensures c.FormatMkfs? && Awaits(cfg, c) == QMkfs(c.n, c.fsType)
  {
  }

  lemma CallKeepsFs(cloud: Cloud, vm: Vm, c: Call, o: Outcome, e: Effect)
    requires CloudOk(cloud) && Permits(cloud, vm, Awaits(vm.cfg, c), o, e)
    requires forall n | n in cloud.disks :: FormattedOnce(cloud.disks[n])
    requires c.FormatMkfs? ==> KnownFsType(c.fsType) && (Uses(cloud, c.n, vm.cfg.instance) ==> cloud.disks[c.n].fs == "")
    ensures var now := CloudAfter(cloud, Awaits(vm.cfg, c), e);
            FsKept(cloud, now) && forall n | n in now.disks :: FormattedOnce(now.disks[n])
  {
    if Awaits(vm.cfg, c).QMkfs? { OnlyMkfsFormats(vm.cfg, c); }
    RequestKeepsFs(cloud, vm, Awaits(vm.cfg, c), o, e);
  }

  lemma RequestKeepsOthers(cloud: Cloud, vm: Vm, q: Query, o: Outcome, e: Effect, instance: string)
    requires CloudOk(cloud) && Permits(cloud, vm, q, o, e)
    requires q.QAttach? ==> q.instance != instance
    requires q.QMkfs? ==> vm.cfg.instance != instance
    ensures KeepsDisksOf(cloud, CloudAfter(cloud, q, e), instance)
  {
    if (q.QMkfs? || q.QAttach?) && q.n in cloud.disks { assert DiskOk(cloud, cloud.disks[q.n]); }
  }

  lemma OnlyOwnAttach(cfg: Config, c: Call)
    ensures Awaits(cfg, c).QAttach? ==> Awaits(cfg, c).instance == cfg.instance
    ensures DeleteCall(c) ==> !Awaits(cfg, c).QAttach? && !Awaits(cfg, c).QMkfs?
  {
  }

  /** With at most one user per disk, a call made by one VM leaves the disks attached
      to another VM, and their contents, alone. A delete leaves all VMs' alone. */
  lemma CallKeepsOthers(cloud: Cloud, vm: Vm, c: Call, o: Outcome, e: Effect, instance: string)
    requires CloudOk(cloud) && Permits(cloud, vm, Awaits(vm.cfg, c), o, e)
    requires instance != vm.cfg.instance || DeleteCall(c)
    ensures KeepsDisksOf(cloud, CloudAfter(cloud, Awaits(vm.cfg, c), e), instance)
  {
    OnlyOwnAttach(vm.cfg, c);
    RequestKeepsOthers(cloud, vm, Awaits(vm.cfg, c), o, e, instance);
  }

  lemma OthersStayBlank(was: Cloud, now: Cloud, vm: Vm)
    requires MkfsOnBlank(was, vm) && KeepsDisksOf(was, now, vm.cfg.instance)
    ensures MkfsOnBlank(now, vm)
  {
  }

  /** mkfs is only entered from a probe of the attached disk that found it blank. */
  lemma MkfsOnlyAfterProbe(cfg: Config, c: Call, o: Outcome)
    requires Fits(Awaits(cfg, c), o) && After(cfg, c, o).FormatMkfs?
    ensures var c' := After(cfg, c, o);
            KnownFsType(c'.fsType) && c == FormatProbe(c'.n, c'.fsType) && o == OFs("")
  {
  }

  lemma ContinuationsDoNotFormat(t: Thread, k: Kont, r: Ret)
    ensures var ctl := AfterCall(t, k, r).ctl; !(ctl.Calling? && ctl.c.FormatMkfs?)
  {
  }

  lemma AnswerStaysOnBlank(cloud: Cloud, vm: Vm, a: Action)
    requires CanAct(cloud, vm, a) && a.Answer?
    ensures MkfsOnBlank(CloudStep(cloud, vm, a), VmStep(cloud, vm, a))
  {
    var t := vm.thread.value;
    var c := After(vm.cfg, t.ctl.c, a.o);
    if c.Return? { ContinuationsDoNotFormat(t, t.ctl.k, c.r); }
    if c.FormatMkfs? { MkfsOnlyAfterProbe(vm.cfg, t.ctl.c, a.o); }
  }

  lemma StoreAndRequestDoNotFormat(vm: Vm, m: Move)
    requires vm.thread.Some? && !m.MAnswer? && CanMove(vm.cfg, vm.thread.value, m)
    ensures var ctl := Moved(vm.cfg, vm.thread.value, m).ctl; !(ctl.Calling? && ctl.c.FormatMkfs?)
  {
  }

  lemma ThreadStaysOnBlank(cloud: Cloud, vm: Vm, a: Action)
    requires CloudOk(cloud) && CanAct(cloud, vm, a) && MkfsOnBlank(cloud, vm) && DeletesOnly(vm)
    ensures MkfsOnBlank(CloudStep(cloud, vm, a), VmStep(cloud, vm, a))
  {
    match a
    case Answer(_, _, _) => AnswerStaysOnBlank(cloud, vm, a);
    case Background(_, j, o, e) => CallKeepsOthers(cloud, vm, vm.deletes[j], o, e, vm.cfg.instance);
    case Request(_, op) => StoreAndRequestDoNotFormat(vm, MBegin(op));
    case Persist(_, ok) => StoreAndRequestDoNotFormat(vm, MStore(ok));
    case _ =>
  }

  lemma DeletesStay(cloud: Cloud, vm: Vm, a: Action)
    requires CanAct(cloud, vm, a) && DeletesOnly(vm)
    ensures DeletesOnly(VmStep(cloud, vm, a))
  {
  }

  lemma StepKeepsFormatting(s: Sys, a: Action)
    requires Formatting(s) && CanStep(s, a) && DeleteProtocol.Protocolled(s)
    ensures Formatting(Step(s, a)) && FsKept(s.cloud, Step(s, a).cloud)
  {
    var vm, s' := s.vms[a.i], Step(s, a);
    DeleteProtocol.StepKeepsProtocolled(s, a);
    if a.Answer? { CallKeepsFs(s.cloud, vm, vm.thread.value.ctl.c, a.o, a.e); }
    if a.Background? { CallKeepsFs(s.cloud, vm, vm.deletes[a.j], a.o, a.e); }
    ThreadStaysOnBlank(s.cloud, vm, a);
    DeletesStay(s.cloud, vm, a);
    forall i | 0 <= i < |s.vms| && i != a.i ensures MkfsOnBlank(s'.cloud, s'.vms[i]) {
      if a.Answer? { CallKeepsOthers(s.cloud, vm, vm.thread.value.ctl.c, a.o, a.e, s.vms[i].cfg.instance); }
      if a.Background? { CallKeepsOthers(s.cloud, vm, vm.deletes[a.j], a.o, a.e, s.vms[i].cfg.instance); }
      OthersStayBlank(s.cloud, s'.cloud, s.vms[i]);
    }
  }

  lemma {:induction false} FormattingAlways(r: Run, k: nat)
    requires IsRun(r) && k < |r.states|
    ensures Formatting(r.states[k])
  {
    if k > 0 {
      FormattingAlways(r, k - 1);
      DeleteProtocol.ProtocolledAlways(r, k - 1);
      StepKeepsFormatting(r.states[k - 1], r.actions[k - 1]);
    }
  }

  /** In every run each incarnation of a disk is formatted at most once. */
  lemma FormattedAtMostOnce(r: Run, k: nat, n: string)
    requires IsRun(r) && k < |r.states| && n in r.states[k].cloud.disks
    ensures r.states[k].cloud.disks[n].formats <= 1
  {
    FormattingAlways(r, k);
  }

  ghost predicate FsEvolving(cs: seq<Cloud>) {
    DeleteProtocol.Evolving(cs) && forall k | 0 <= k < |cs| - 1 :: FsKept(cs[k], cs[k + 1])
  }

  lemma CloudsKeepFs(r: Run)
    requires IsRun(r)
    ensures FsEvolving(DeleteProtocol.Clouds(r.states))
  {
    DeleteProtocol.CloudsEvolve(r);
    forall k | 0 <= k < |r.states| - 1 ensures FsKept(r.states[k].cloud, r.states[k + 1].cloud) {
      FormattingAlways(r, k);
      DeleteProtocol.ProtocolledAlways(r, k);
      StepKeepsFormatting(r.states[k], r.actions[k]);
    }
  }

  lemma {:induction false} FsAcross(cs: seq<Cloud>, j: nat, k: nat, n: string)
    requires FsEvolving(cs) && j <= k < |cs|
    requires n in cs[j].disks && n in cs[k].disks && cs[j].disks[n].id == cs[k].disks[n].id
    requires cs[j].disks[n].fs != ""
    ensures cs[k].disks[n].fs == cs[j].disks[n].fs && cs[k].disks[n].formats == cs[j].disks[n].formats
  {
    if j < k {
      assert DiskOk(cs[j], cs[j].disks[n]);
      DeleteProtocol.NextGrows(cs, j, k - 1);
      assert DeleteProtocol.Evolves(cs[k - 1], cs[k - 1 + 1]);
      assert FsKept(cs[k - 1], cs[k - 1 + 1]);
      DeleteProtocol.WasThere(cs[k - 1], cs[k], n, cs[j].disks[n].id);
      FsAcross(cs, j, k - 1, n);
    }
  }

  /** A file system once present is never overwritten: until the disk itself is
      deleted it keeps that file system, and no mkfs runs on it again. */
  lemma FilesystemNeverOverwritten(r: Run, j: nat, k: nat, n: string)
    requires IsRun(r) && j <= k < |r.states|
    requires n in r.states[j].cloud.disks && n in r.states[k].cloud.disks
    requires r.states[j].cloud.disks[n].id == r.states[k].cloud.disks[n].id
    requires r.states[j].cloud.disks[n].fs != ""
    ensures r.states[k].cloud.disks[n].fs == r.states[j].cloud.disks[n].fs
    ensures r.states[k].cloud.disks[n].formats == r.states[j].cloud.disks[n].formats
  {
    CloudsKeepFs(r);
    FsAcross(DeleteProtocol.Clouds(r.states), j, k, n);
  }
}
