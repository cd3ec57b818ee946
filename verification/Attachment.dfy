/** Who ends an attachment. Under any interleaving of get, attach and detach steps, a disk
    leaves a VM only by that VM's own detach or in the failover of a VM in global scope;
    with every VM in local scope, a mounted disk is attached unless the VM gave it back. */
module Attachment {
  import opened Options
  import opened Records
  import opened Protocol
  import opened Cluster
  import DeleteProtocol
  import Refs

  /** The steps of a failover. */
  predicate FailoverCall(c: Call) {
    c.AttachStatus? || c.AttachDetachDown? || c.AttachDetachClean? || c.AttachPoll? || c.AttachGrace? ||
    c.AttachForce? || c.AttachRefetch?
  }

  /** In local scope a VM is never in a failover, and its background work is deletes. */
  ghost predicate NoFailover(vm: Vm) {
    && (forall j | 0 <= j < |vm.deletes| :: DeleteCall(vm.deletes[j]))
    && (!vm.cfg.global && vm.thread.Some? && vm.thread.value.ctl.Calling? ==> !FailoverCall(vm.thread.value.ctl.c))
  }

  ghost predicate AllLocal(s: Sys) {
    forall i | 0 <= i < |s.vms| :: !s.vms[i].cfg.global
  }

  ghost predicate Settled(s: Sys) {
    forall i | 0 <= i < |s.vms| :: NoFailover(s.vms[i])
  }

  lemma LocalStaysOut(cfg: Config, c: Call, o: Outcome)
    requires !cfg.global && !FailoverCall(c)
    ensures !FailoverCall(After(cfg, c, o))
  {
  }

  lemma ContinuationsStartOutside(t: Thread, k: Kont, r: Ret)
    ensures var ctl := AfterCall(t, k, r).ctl; ctl.Calling? ==> !FailoverCall(ctl.c)
  {
  }

  lemma OperationsStartOutside(cfg: Config, t: Thread, m: Move)
    requires CanMove(cfg, t, m) && !m.MAnswer?
    ensures var ctl := Moved(cfg, t, m).ctl; ctl.Calling? ==> !FailoverCall(ctl.c)
  {
  }

  lemma DeletesStayDeletes(cfg: Config, c: Call, o: Outcome)
    requires DeleteCall(c)
    ensures var c' := After(cfg, c, o); c'.Return? || DeleteCall(c')
  {
  }

  lemma VmStaysOut(cloud: Cloud, vm: Vm, a: Action)
    requires NoFailover(vm) && CanAct(cloud, vm, a)
    ensures NoFailover(VmStep(cloud, vm, a))
  {
    match a
    case Answer(_, o, e) =>
      var t := vm.thread.value;
      var c := After(vm.cfg, t.ctl.c, o);
      if !vm.cfg.global { LocalStaysOut(vm.cfg, t.ctl.c, o); }
      if c.Return? { ContinuationsStartOutside(t, t.ctl.k, c.r); }
    case Background(_, j, o, _) => DeletesStayDeletes(vm.cfg, vm.deletes[j], o);
    case Request(_, op) => OperationsStartOutside(vm.cfg, vm.thread.value, MBegin(op));
    case Persist(_, ok) => OperationsStartOutside(vm.cfg, vm.thread.value, MStore(ok));
    case _ =>
  }

  lemma {:induction false} SettledAlways(r: Run, k: nat)
    requires IsRun(r) && k < |r.states|
    ensures Settled(r.states[k])
  {
    if k > 0 {
      SettledAlways(r, k - 1);
      var s, a := r.states[k - 1], r.actions[k - 1];
      VmStaysOut(s.cloud, s.vms[a.i], a);
    }
  }

  /** One call ends an attachment only as the VM's own detach, or in a failover. */
  lemma CallKeepsUses(cloud: Cloud, vm: Vm, c: Call, o: Outcome, e: Effect, n: string, instance: string)
    requires Permits(cloud, vm, Awaits(vm.cfg, c), o, e) && !FailoverCall(c)
    requires Uses(cloud, n, instance)
    ensures var now := CloudAfter(cloud, Awaits(vm.cfg, c), e);
            (Uses(now, n, instance) && now.disks[n].id == cloud.disks[n].id) ||
            (c == DetachDetach(n) && instance == vm.cfg.instance)
  {
  }

  /** The step of a failover that takes a disk away from its holder. */
  predicate Seizes(c: Call, n: string, holder: string) {
    c == AttachDetachDown(n, holder) || c == AttachDetachClean(n, holder) || c == AttachForce(n, holder)
  }

  lemma FailoverKeepsUses(cloud: Cloud, vm: Vm, c: Call, o: Outcome, e: Effect, n: string, instance: string)
    requires Permits(cloud, vm, Awaits(vm.cfg, c), o, e) && FailoverCall(c)
    requires Uses(cloud, n, instance)
    ensures var now := CloudAfter(cloud, Awaits(vm.cfg, c), e);
            (Uses(now, n, instance) && now.disks[n].id == cloud.disks[n].id) || Seizes(c, n, instance)
  {
  }

  /** Who can take a disk from a VM. In any run, whatever the scopes, an attachment ends
      only in a step of the VM's own detach, or in a detach that a VM in global scope
      makes in a failover away from that very holder. */
  lemma AttachmentEndsByOwnerOrFailover(r: Run, k: nat, n: string, instance: string)
    requires IsRun(r) && k < |r.actions|
    requires Uses(r.states[k].cloud, n, instance)
    requires !(Uses(r.states[k + 1].cloud, n, instance) &&
               r.states[k + 1].cloud.disks[n].id == r.states[k].cloud.disks[n].id)
    ensures var a := r.actions[k]; var vm := r.states[k].vms[a.i];
            a.Answer? &&
            var c := vm.thread.value.ctl.c;
            (vm.cfg.instance == instance && c == DetachDetach(n)) || (vm.cfg.global && Seizes(c, n, instance))
  {
    SettledAlways(r, k);
    var s, a := r.states[k], r.actions[k];
    var vm := s.vms[a.i];
    match a
    case Answer(_, o, e) =>
      var c := vm.thread.value.ctl.c;
      if FailoverCall(c) {
        FailoverKeepsUses(s.cloud, vm, c, o, e, n, instance);
      } else {
        CallKeepsUses(s.cloud, vm, c, o, e, n, instance);
      }
    case Background(_, j, o, e) => CallKeepsUses(s.cloud, vm, vm.deletes[j], o, e, n, instance);
    case _ =>
  }

  /** Stability of attachments: with every VM in local scope only the owner ends one. */
  lemma AttachmentEndsOnlyByOwner(r: Run, k: nat, n: string, instance: string)
    requires IsRun(r) && k < |r.actions| && AllLocal(r.states[k])
    requires Uses(r.states[k].cloud, n, instance)
    requires !(Uses(r.states[k + 1].cloud, n, instance) &&
               r.states[k + 1].cloud.disks[n].id == r.states[k].cloud.disks[n].id)
    ensures var a := r.actions[k]; var vm := r.states[k].vms[a.i];
            vm.cfg.instance == instance && a.Answer? && vm.thread.value.ctl.c == DetachDetach(n)
  {
    AttachmentEndsByOwnerOrFailover(r, k, n, instance);
  }

  // ---- mounted and attached ----

  /** Outside of a failover, a call changes the attachments of its own VM only: an attach
      or a detach that takes effect. */
  lemma CallChangesUses(cloud: Cloud, vm: Vm, c: Call, o: Outcome, e: Effect, n: string, instance: string)
    requires Permits(cloud, vm, Awaits(vm.cfg, c), o, e) && !FailoverCall(c)
    ensures var now := CloudAfter(cloud, Awaits(vm.cfg, c), e);
            Uses(now, n, instance) <==>
              if e.Effect? && instance == vm.cfg.instance && c == AttachAttach(n) then true
              else if e.Effect? && instance == vm.cfg.instance && c == DetachDetach(n) then false
              else Uses(cloud, n, instance)
  {
  }

  lemma FailoverChangesUses(cloud: Cloud, vm: Vm, c: Call, o: Outcome, e: Effect, n: string, instance: string)
    requires Permits(cloud, vm, Awaits(vm.cfg, c), o, e) && FailoverCall(c)
    ensures var now := CloudAfter(cloud, Awaits(vm.cfg, c), e);
            Uses(now, n, instance) <==> Uses(cloud, n, instance) && !(e.Effect? && Seizes(c, n, instance))
  {
  }

  /** In this step a VM in global scope takes the disk from the holder. */
  ghost predicate SeizesAt(s: Sys, a: Action, n: string, holder: string) {
    CanStep(s, a) && a.Answer? && a.e.Effect? && s.vms[a.i].cfg.global && Seizes(s.vms[a.i].thread.value.ctl.c, n, holder)
  }

  /** The VM's own request takes effect. */
  ghost predicate Does(s: Sys, a: Action, i: nat, c: Call)
    requires CanStep(s, a)
  {
    a.i == i && a.Answer? && a.e.Effect? && s.vms[i].thread.value.ctl.c == c
  }

  /** What one call makes of an attachment of the VM called `instance`. */
  ghost predicate Becomes(was: bool, now: bool, attached: bool, detached: bool, seized: bool) {
    now <==> !seized && (attached || (was && !detached))
  }

  lemma CallUses(cloud: Cloud, vm: Vm, c: Call, o: Outcome, e: Effect, n: string, instance: string)
    requires Permits(cloud, vm, Awaits(vm.cfg, c), o, e)
    ensures var own := e.Effect? && instance == vm.cfg.instance;
            Becomes(Uses(cloud, n, instance), Uses(CloudAfter(cloud, Awaits(vm.cfg, c), e), n, instance),
                    own && c == AttachAttach(n), own && c == DetachDetach(n), e.Effect? && FailoverCall(c) && Seizes(c, n, instance))
  {
    if FailoverCall(c) {
      FailoverChangesUses(cloud, vm, c, o, e, n, instance);
    } else {
      CallChangesUses(cloud, vm, c, o, e, n, instance);
    }
  }

  /** In a step of the call `c` of a VM: only one in global scope is ever in a failover. */
  lemma CallStepUses(s: Sys, a: Action, c: Call, n: string, instance: string)
    requires CanStep(s, a) && Settled(s) && Acting(s, a) == Some(c)
    ensures var own := a.Answer? && a.e.Effect? && instance == s.vms[a.i].cfg.instance;
            Becomes(Uses(s.cloud, n, instance), Uses(Step(s, a).cloud, n, instance),
                    own && c == AttachAttach(n), own && c == DetachDetach(n), SeizesAt(s, a, n, instance))
  {
    assert NoFailover(s.vms[a.i]);
    CallUses(s.cloud, s.vms[a.i], c, a.o, a.e, n, instance);
  }

  lemma SameName(s: Sys, i: nat, j: nat)
    requires Named(s) && i < |s.vms| && j < |s.vms|
    ensures s.vms[i].cfg.instance == s.vms[j].cfg.instance <==> i == j
  {
  }

  /** What one step of the system does to an attachment, whatever the scopes. */
  lemma StepUses(s: Sys, a: Action, i: nat, n: string)
    requires CanStep(s, a) && i < |s.vms| && Named(s) && Settled(s)
    ensures var instance := s.vms[i].cfg.instance;
            Becomes(Uses(s.cloud, n, instance), Uses(Step(s, a).cloud, n, instance),
                    Does(s, a, i, AttachAttach(n)), Does(s, a, i, DetachDetach(n)), SeizesAt(s, a, n, instance))
  {
    if Acting(s, a).Some? {
      CallStepUses(s, a, Acting(s, a).value, n, s.vms[i].cfg.instance);
      SameName(s, a.i, i);
    }
  }

  /** What a VM does to its mount table and to what is adrift there. */
  ghost predicate Shifts(vm: Vm, vm': Vm, n: string, attached: bool, detached: bool, uses: bool) {
    && vm'.drift.adrift <= vm'.mounts
    && (n in vm'.mounts && n !in vm.mounts ==> uses)
    && (n in vm'.mounts ==>
          (n in vm'.drift.adrift <==> !attached && (n in vm.drift.adrift || (n in vm.mounts && detached))))
  }

  lemma AnswerShifts(cloud: Cloud, vm: Vm, a: Action, n: string)
    requires CanAct(cloud, vm, a) && a.Answer? && vm.drift.adrift <= vm.mounts
    ensures var c := vm.thread.value.ctl.c;
            Shifts(vm, VmStep(cloud, vm, a), n, a.e.Effect? && c == AttachAttach(n), a.e.Effect? && c == DetachDetach(n),
                   Uses(CloudStep(cloud, vm, a), n, vm.cfg.instance))
  {
    AnswerShape(cloud, vm, a);
  }

  lemma StepShifts(s: Sys, a: Action, i: nat, n: string)
    requires CanStep(s, a) && i < |s.vms| && s.vms[i].drift.adrift <= s.vms[i].mounts
    ensures Shifts(s.vms[i], Step(s, a).vms[i], n, Does(s, a, i, AttachAttach(n)), Does(s, a, i, DetachDetach(n)),
                   Uses(Step(s, a).cloud, n, s.vms[i].cfg.instance))
  {
    if a.i == i && a.Answer? { AnswerShifts(s.cloud, s.vms[i], a, n); }
  }

  /** A failover has taken disk `n` away from VM `i`, which has not attached it since. */
  ghost predicate Taken(r: Run, k: nat, i: nat, n: string)
    requires IsRun(r) && k < |r.states|
  {
    k > 0 && i < |r.states[k - 1].vms| &&
    (TakenNow(r, k - 1, i, n) || (Taken(r, k - 1, i, n) && !Does(r.states[k - 1], r.actions[k - 1], i, AttachAttach(n))))
  }

  ghost predicate TakenNow(r: Run, k: nat, i: nat, n: string)
    requires IsRun(r) && k < |r.actions| && i < |r.states[k].vms|
  {
    SeizesAt(r.states[k], r.actions[k], n, r.states[k].vms[i].cfg.instance)
  }

  /** A mounted disk is attached here, unless it is adrift or taken away. */
  predicate Moored(uses: bool, mounted: bool, adrift: bool, taken: bool) {
    (uses ==> !taken) && (mounted ==> (uses <==> !adrift && !taken))
  }

  ghost predicate VmMoored(r: Run, k: nat, i: nat, n: string)
    requires IsRun(r) && k < |r.states|
  {
    i < |r.states[k].vms| &&
    var vm := r.states[k].vms[i];
    vm.drift.adrift <= vm.mounts &&
    Moored(Uses(r.states[k].cloud, n, vm.cfg.instance), n in vm.mounts, n in vm.drift.adrift, Taken(r, k, i, n))
  }

  /** What a step of a run does to an attachment, to a mount, and to what is adrift and
      what is taken. */
  lemma StepFacts(r: Run, k: nat, i: nat, n: string) returns (attached: bool, detached: bool, seized: bool)
    requires IsRun(r) && k < |r.actions| && i < |r.states[k].vms| && r.states[k].vms[i].drift.adrift <= r.states[k].vms[i].mounts
    ensures i < |r.states[k + 1].vms| && r.states[k + 1].vms[i].cfg == r.states[k].vms[i].cfg
    ensures var instance := r.states[k].vms[i].cfg.instance;
            var was, now := Uses(r.states[k].cloud, n, instance), Uses(r.states[k + 1].cloud, n, instance);
            && Shifts(r.states[k].vms[i], r.states[k + 1].vms[i], n, attached, detached, now)
            && Becomes(was, now, attached, detached, seized)
            && (Taken(r, k + 1, i, n) <==> seized || (Taken(r, k, i, n) && !attached))
  {
    var s, a := r.states[k], r.actions[k];
    DeleteProtocol.ProtocolledAlways(r, k);
    SettledAlways(r, k);
    StepUses(s, a, i, n);
    StepShifts(s, a, i, n);
    attached, detached, seized := Does(s, a, i, AttachAttach(n)), Does(s, a, i, DetachDetach(n)), TakenNow(r, k, i, n);
  }

  lemma StepMoored(r: Run, k: nat, i: nat, n: string)
    requires IsRun(r) && k < |r.actions| && VmMoored(r, k, i, n)
    ensures VmMoored(r, k + 1, i, n)
  {
    var attached, detached, seized := StepFacts(r, k, i, n);
  }

  lemma {:induction false} MooredAlways(r: Run, k: nat, i: nat, n: string)
    requires IsRun(r) && k < |r.states| && i < |r.states[k].vms|
    ensures VmMoored(r, k, i, n)
  {
    if k > 0 {
      MooredAlways(r, k - 1, i, n);
      StepMoored(r, k - 1, i, n);
    }
  }

  /** In every state of every run, whatever the scopes, up or down, serving or not, and
      whatever failed: a disk mounted on a VM is attached to it if and only if it is
      neither adrift nor taken, that is, unless a detach of the VM itself has taken effect
      under the mount, or a failover of another one, with no attach since. */
  lemma MountedIsAttached(r: Run, k: nat, i: nat, n: string)
    requires IsRun(r) && k < |r.states| && i < |r.states[k].vms| && n in r.states[k].vms[i].mounts
    ensures var vm := r.states[k].vms[i];
            Uses(r.states[k].cloud, n, vm.cfg.instance) <==> n !in vm.drift.adrift && !Taken(r, k, i, n)
  {
    MooredAlways(r, k, i, n);
  }

  lemma {:induction false} LocalAlways(r: Run, k: nat)
    requires IsRun(r) && k < |r.states| && AllLocal(r.states[0])
    ensures AllLocal(r.states[k])
  {
    if k > 0 {
      LocalAlways(r, k - 1);
      assert forall i | 0 <= i < |r.states[k].vms| :: r.states[k].vms[i].cfg == r.states[k - 1].vms[i].cfg;
    }
  }

  /** With all VMs in local scope nobody takes a disk away. */
  lemma {:induction false} LocalTakesNothing(r: Run, k: nat, i: nat, n: string)
    requires IsRun(r) && k < |r.states| && AllLocal(r.states[0])
    ensures !Taken(r, k, i, n)
  {
    if k > 0 {
      LocalAlways(r, k - 1);
      LocalTakesNothing(r, k - 1, i, n);
    }
  }

  /** A disk never has two users, in any scope: the second attach is refused, and a
      failover attaches only after its detach. */
  lemma SingleWriter(r: Run, k: nat, n: string, x: string, y: string)
    requires IsRun(r) && k < |r.states|
    requires Uses(r.states[k].cloud, n, x) && Uses(r.states[k].cloud, n, y)
    ensures x == y
  {
    DeleteProtocol.ProtocolledAlways(r, k);
    assert DiskOk(r.states[k].cloud, r.states[k].cloud.disks[n]);
  }

  /** What AttachDisk finds: "already attached here" means what it says. */
  lemma ViewShowsOwner(cfg: Config, d: Disk)
    requires |d.users| > 0 && Refs.SlashFree(cfg.instance) && Refs.SlashFree(d.users[0])
    ensures Refs.SameInstance(View(cfg, d).users[0], Here(cfg)) <==> d.users[0] == cfg.instance
    ensures Refs.InstanceNameFromRef(View(cfg, d).users[0]) == d.users[0]
  {
    Refs.SameInstanceIffSameName(API_PREFIX, cfg.project, cfg.zone, d.users[0], cfg.instance);
    Refs.InstanceNameRoundTrip(API_PREFIX, cfg.project, cfg.zone, d.users[0]);
  }

  lemma ForeignUserRefused(cfg: Config, n: string, v: DiskView)
    requires !cfg.global && v.users != [] && !Refs.SameInstance(v.users[0], Here(cfg))
    ensures After(cfg, AttachGet(n), OFound(v)) == Return(RErr)
  {
  }

  lemma ForeignHolderRefused(cfg: Config, n: string, d: Disk)
    requires !cfg.global && d.users != [] && Refs.SlashFree(cfg.instance) && Refs.SlashFree(d.users[0])
    requires cfg.instance !in d.users
    ensures After(cfg, AttachGet(n), OFound(View(cfg, d))) == Return(RErr)
  {
    assert d.users[0] in d.users;
    ViewShowsOwner(cfg, d);
    ForeignUserRefused(cfg, n, View(cfg, d));
  }

  /** A VM in local scope refuses a disk that another VM holds, and touches nothing. */
  lemma LocalRefusesForeignHolder(cloud: Cloud, vm: Vm, a: Action, n: string)
    requires CanAct(cloud, vm, a) && CloudOk(cloud) && Refs.SlashFree(vm.cfg.instance) && a.Answer? && a.o.OFound?
    requires !vm.cfg.global && vm.thread.value.ctl == Calling(KMountAttach(n), AttachGet(n))
    requires n in cloud.disks && cloud.disks[n].users != [] && !Uses(cloud, n, vm.cfg.instance)
    ensures CloudStep(cloud, vm, a) == cloud && VmStep(cloud, vm, a).thread.value.ctl == Idle(Refuse)
  {
    assert DiskOk(cloud, cloud.disks[n]);
    ForeignHolderRefused(vm.cfg, n, cloud.disks[n]);
  }
}
