/** The whole system: one zone of GCE disks and any number of VMs, each running the
    plugin with its background deletes. Every step is one atomic interaction; a VM
    may crash between any two of them. */
module Cluster {
  import opened Options
  import opened Names
  import opened Records
  import opened Protocol
  import Refs

  /** A disk in GCE together with what is on it. `users` are instance names; `fs` is
      "" for a blank disk; `formats` counts the file systems made on it. */
  datatype Disk = Disk(
    id: nat,
    sizeGb: int,
    diskType: string,
    users: seq<string>,
    labels: map<string, string>,
    fingerprint: nat,
    fs: string,
    formats: nat)

  /** `next` is a number that no disk id or fingerprint has used yet. */
  datatype Cloud = Cloud(disks: map<string, Disk>, next: nat)

  /** Things that went wrong on a VM since it was last booted. */
  datatype Fault = PersistFailed | UnmountFailed | ScanFailed

  /** Where records, mount table and GCE have come apart on a VM: volumes that an
      unwinding unmounted although they count as mounted; volumes left mounted that no
      count covers; mounted volumes whose disk the VM has given back. */
  datatype Drift = Drift(lost: set<string>, stray: set<string>, adrift: set<string>)

  const IN_STEP := Drift({}, {}, {})

  datatype Vm = Vm(
    cfg: Config,
    file: Vols,               // the last state file renamed into place
    thread: Option<Thread>,   // None while the plugin is down
    deletes: seq<Call>,       // background deletes in flight
    mounts: set<string>,      // volumes mounted at their mountpoint
    faults: set<Fault>,       // since the last boot
    drift: Drift)             // what has come apart

  /** What the log remembers of a run. */
  datatype Entry =
    | Requested(n: string, options: DiskOptions)  // a Create that was accepted
    | Removed(n: string, policy: string)          // a Remove that goes on to delete
    | RolledBack(n: string)                       // a Create that undoes its disk
    | FoundMarked(n: string)                      // marked before the run started
    | Snapshotted(n: string, id: nat)
    | Deleted(n: string, id: nat)

  datatype Sys = Sys(cloud: Cloud, vms: seq<Vm>, log: seq<Entry>)

  const API_PREFIX := "https://www.googleapis.com/compute/v1"

  function View(cfg: Config, d: Disk): DiskView {
    DiskView(d.id, d.sizeGb, d.diskType,
      seq(|d.users|, i requires 0 <= i < |d.users| => Refs.UserRef(API_PREFIX, cfg.project, cfg.zone, d.users[i])),
      d.labels, d.fingerprint)
  }

  /** Whether a request took effect. A new disk made from a snapshot or an image
      comes with the file system `fs`. */
  datatype Effect = NoEffect | Effect(fs: string)

  predicate Uses(cloud: Cloud, n: string, instance: string) {
    n in cloud.disks && instance in cloud.disks[n].users
  }

  /** The listing of all managed disks, in some order. */
  ghost predicate IsListing(cfg: Config, cloud: Cloud, ds: seq<Listed>) {
    && (forall l | l in ds :: l.name in cloud.disks && l.disk == View(cfg, cloud.disks[l.name]))
    && (forall n | n in cloud.disks && Managed(cloud.disks[n].labels) :: exists l | l in ds :: l.name == n)
    && (forall l | l in ds :: Managed(l.disk.labels))
    && (forall i, j | 0 <= i < j < |ds| :: ds[i].name != ds[j].name)
  }

  /** What GCE and the host may answer. Any request may fail, with or without having
      taken effect; a request reported done has taken effect, except that a detached
      holder may linger. GCE refuses a second read-write attach, the deletion of an
      attached disk, and a label update with a stale fingerprint. */
  ghost predicate Permits(cloud: Cloud, vm: Vm, q: Query, o: Outcome, e: Effect) {
    && Fits(q, o)
    && (o.ODone? && !q.QDetach? ==> e.Effect?)
    && match q
       case QGet(n) =>
         e.NoEffect? &&
         (o.OFound? ==> n in cloud.disks && o.disk == View(vm.cfg, cloud.disks[n])) &&
         (o.OMissing? ==> n !in cloud.disks)
       case QInsert(n, options, _) =>
         (e.Effect? ==> n !in cloud.disks) &&
         (e.Effect? && options.sourceSnapshot == "" && options.sourceImage == "" ==> e.fs == "")
       case QSetLabels(n, fp, _) => e.Effect? ==> n in cloud.disks && cloud.disks[n].fingerprint == fp
       case QSnapshot(n) => e.Effect? ==> n in cloud.disks
       case QDelete(n) => e.Effect? ==> n in cloud.disks && cloud.disks[n].users == []
       case QAttach(n, _) => e.Effect? ==> n in cloud.disks && cloud.disks[n].users == []
       case QDetach(n, inst) => e.Effect? ==> Uses(cloud, n, inst)
       case QList => e.NoEffect? && (o.OList? ==> IsListing(vm.cfg, cloud, o.disks))
       case QProbe(n) =>
         e.NoEffect? && (o.OFs? ==> Uses(cloud, n, vm.cfg.instance) && o.fsType == cloud.disks[n].fs)
       case QMkfs(n, fs) => e.Effect? ==> Uses(cloud, n, vm.cfg.instance)
       case QMounted(n) => e.NoEffect? && (o.OBool? ==> (o.b <==> n in vm.mounts))
       case QMount(n) => (e.Effect? <==> o.ODone?) && (e.Effect? ==> Uses(cloud, n, vm.cfg.instance))
       case QUmount(n) => e.Effect? <==> o.ODone?
       case _ => e.NoEffect?
  }

  function Without(users: seq<string>, instance: string): (r: seq<string>)
    ensures forall u :: u in r <==> u in users && u != instance
    ensures |r| <= |users|
  {
    if users == [] then [] else
      var rest := Without(users[1..], instance);
      assert users == [users[0]] + users[1..];
      if users[0] == instance then rest else [users[0]] + rest
  }

  function NewDisk(cloud: Cloud, options: DiskOptions, labels: map<string, string>, fs: string): Disk {
    Disk(cloud.next, options.sizeGb, options.diskType, [], labels, cloud.next, fs, 0)
  }

  function CloudAfter(cloud: Cloud, q: Query, e: Effect): Cloud {
    if e.NoEffect? then cloud else
    match q
    case QInsert(n, options, labels) => Cloud(cloud.disks[n := NewDisk(cloud, options, labels, e.fs)], cloud.next + 1)
    case QSetLabels(n, _, labels) =>
      if n in cloud.disks then
        Cloud(cloud.disks[n := cloud.disks[n].(labels := labels, fingerprint := cloud.next)], cloud.next + 1)
      else cloud
    case QDelete(n) => cloud.(disks := cloud.disks - {n})
    case QAttach(n, inst) =>
      if n in cloud.disks then cloud.(disks := cloud.disks[n := cloud.disks[n].(users := cloud.disks[n].users + [inst])])
      else cloud
    case QDetach(n, inst) =>
      if n in cloud.disks then cloud.(disks := cloud.disks[n := cloud.disks[n].(users := Without(cloud.disks[n].users, inst))])
      else cloud
    case QMkfs(n, fs) =>
      if n in cloud.disks then
        cloud.(disks := cloud.disks[n := cloud.disks[n].(fs := fs, formats := cloud.disks[n].formats + 1)])
      else cloud
    case _ => cloud
  }

  function MountsAfter(mounts: set<string>, q: Query, e: Effect): set<string> {
    if e.NoEffect? then mounts
    else if q.QMount? then mounts + {q.n}
    else if q.QUmount? then mounts - {q.n}
    else mounts
  }

  function LogOf(cloud: Cloud, q: Query, e: Effect): seq<Entry> {
    if e.NoEffect? then []
    else if q.QDelete? && q.n in cloud.disks then [Deleted(q.n, cloud.disks[q.n].id)]
    else if q.QSnapshot? && q.n in cloud.disks then [Snapshotted(q.n, cloud.disks[q.n].id)]
    else []
  }

  function FaultOf(c: Call, c': Call): set<Fault> {
    if c' != Return(RErr) then {}
    else if c.UnmountCheck? || c.UnmountRun? then {UnmountFailed}
    else if c.IsMounted? then {ScanFailed}
    else {}
  }

  /** The unwinding of a mount has unmounted the volume. */
  function LostAfter(lost: set<string>, k: Kont, c': Call): set<string> {
    if k.KUndoUnmount? && c' == Return(ROk) then lost + {k.n} else lost
  }

  /** An unmount after the last reference, or a scan at start-up, has failed. */
  function StrayAfter(stray: set<string>, k: Kont, c': Call): set<string> {
    if (k.KUnmountUnmount? || k.KScan?) && c' == Return(RErr) then stray + {k.n} else stray
  }

  /** A detach has taken effect while the volume is mounted; an attach or an unmount
      mends that. */
  function AdriftAfter(adrift: set<string>, mounts: set<string>, c: Call, e: Effect): set<string> {
    if e.NoEffect? then adrift
    else if c.DetachDetach? && c.n in mounts then adrift + {c.n}
    else if c.AttachAttach? || c.UnmountRun? then adrift - {c.n}
    else adrift
  }

  function DriftAnswered(d: Drift, mounts: set<string>, k: Kont, c: Call, c': Call, e: Effect): Drift {
    Drift(LostAfter(d.lost, k, c'), StrayAfter(d.stray, k, c'), AdriftAfter(d.adrift, mounts, c, e))
  }

  /** Only what is still counted can be lost. */
  function LostStored(lost: set<string>, vols: Vols): set<string> {
    set n | n in lost && n in vols && vols[n].refCount > 0
  }

  /** A count covers the volume again; or the last reference was dropped and that could
      not be persisted, so no unmount follows; or a reconciliation leaves mounted
      volumes out. `vols` are the records after the operation. */
  function StrayStored(stray: set<string>, mounts: set<string>, op: StoreOp, ok: bool, vols: Vols): set<string> {
    match op
    case OpIncRef(n, _) => stray - {n}
    case OpSetMounted(n, _) => stray - {n}
    case OpDecRef(n) => if !ok && n in vols && vols[n].refCount == 0 then stray + {n} else stray
    case OpReconcile(_, _) => stray + (mounts - vols.Keys)
    case _ => stray
  }

  function DriftStored(d: Drift, mounts: set<string>, op: StoreOp, ok: bool, vols: Vols): Drift {
    Drift(LostStored(d.lost, vols), StrayStored(d.stray, mounts, op, ok, vols), d.adrift)
  }

  // ---- steps ----

  datatype Action =
    | Start(i: nat)
    | Crash(i: nat)
    | Reboot(i: nat)
    | Request(i: nat, op: Op)
    | Answer(i: nat, o: Outcome, e: Effect)
    | Background(i: nat, j: nat, o: Outcome, e: Effect)
    | Persist(i: nat, ok: bool)

  /** Requests that reach the driver: Create has parsed its options and the name. */
  predicate Acceptable(op: Op) {
    match op
    case Create(n, options, _) => ValidDiskName(n) && ValidOptions(options)
    case Reconcile => false
    case _ => true
  }

  /** Background deletes that the driver has just asked for are started. */
  function Spawned(bg: seq<Delete>): (calls: seq<Call>)
    ensures |calls| == |bg|
    ensures forall i | 0 <= i < |bg| :: calls[i] == DeleteGet(bg[i].n, bg[i].snapshot)
  {
    seq(|bg|, i requires 0 <= i < |bg| => DeleteGet(bg[i].n, bg[i].snapshot))
  }

  ghost predicate CanAct(cloud: Cloud, vm: Vm, a: Action) {
    match a
    case Start(_) => vm.thread.None?
    case Crash(_) => true
    case Reboot(_) => true
    case Request(_, op) => vm.thread.Some? && vm.thread.value.ctl.Idle? && Acceptable(op)
    case Answer(_, o, e) =>
      vm.thread.Some? && vm.thread.value.ctl.Calling? &&
      Permits(cloud, vm, Awaits(vm.cfg, vm.thread.value.ctl.c), o, e)
    case Background(_, j, o, e) =>
      j < |vm.deletes| && Permits(cloud, vm, Awaits(vm.cfg, vm.deletes[j]), o, e)
    case Persist(_, ok) => vm.thread.Some? && CanMove(vm.cfg, vm.thread.value, MStore(ok))
  }

  /** A thread after a move, with the deletes it asked for handed over. */
  ghost function WithThread(vm: Vm, t: Thread): Vm {
    vm.(thread := Some(t.(bg := [])), deletes := vm.deletes + Spawned(t.bg))
  }

  ghost function Booted(file: Vols): Thread {
    Thread(Loaded(file), Begin(Loaded(file), Reconcile), [])
  }

  ghost function VmStep(cloud: Cloud, vm: Vm, a: Action): Vm
    requires CanAct(cloud, vm, a)
  {
    match a
    case Start(_) => vm.(thread := Some(Booted(vm.file)), drift := Drift({}, {}, vm.drift.adrift))
    case Crash(_) => vm.(thread := None, deletes := [])
    case Reboot(_) => vm.(thread := None, deletes := [], mounts := {}, faults := {}, drift := IN_STEP)
    case Request(_, op) => WithThread(vm, Moved(vm.cfg, vm.thread.value, MBegin(op)))
    case Answer(_, o, e) =>
      var ctl := vm.thread.value.ctl;
      var c' := After(vm.cfg, ctl.c, o);
      WithThread(vm, Moved(vm.cfg, vm.thread.value, MAnswer(o)))
        .(mounts := MountsAfter(vm.mounts, Awaits(vm.cfg, ctl.c), e),
          faults := vm.faults + FaultOf(ctl.c, c'),
          drift := DriftAnswered(vm.drift, vm.mounts, ctl.k, ctl.c, c', e))
    case Background(_, j, o, e) =>
      var c := After(vm.cfg, vm.deletes[j], o);
      if c.Return? then vm.(deletes := vm.deletes[..j] + vm.deletes[j + 1..])
      else vm.(deletes := vm.deletes[j := c])
    case Persist(_, ok) =>
      var t := Moved(vm.cfg, vm.thread.value, MStore(ok));
      var drift := DriftStored(vm.drift, vm.mounts, vm.thread.value.ctl.op, ok, t.vols);
      if ok then WithThread(vm, t).(file := t.vols, drift := drift)
      else WithThread(vm, t).(faults := vm.faults + {PersistFailed}, drift := drift)
  }

  /** An answer changes the thread, the mount table, the faults and the drift, and hands
      over deletes. */
  lemma AnswerShape(cloud: Cloud, vm: Vm, a: Action)
    requires CanAct(cloud, vm, a) && a.Answer?
    ensures var vm', t := VmStep(cloud, vm, a), vm.thread.value;
            var t' := Moved(vm.cfg, t, MAnswer(a.o));
            vm' == vm.(thread := Some(t'.(bg := [])), deletes := vm.deletes + Spawned(t'.bg),
                       mounts := MountsAfter(vm.mounts, Awaits(vm.cfg, t.ctl.c), a.e),
                       faults := vm.faults + FaultOf(t.ctl.c, After(vm.cfg, t.ctl.c, a.o)),
                       drift := DriftAnswered(vm.drift, vm.mounts, t.ctl.k, t.ctl.c, After(vm.cfg, t.ctl.c, a.o), a.e))
  {
  }

  ghost function CloudStep(cloud: Cloud, vm: Vm, a: Action): Cloud
    requires CanAct(cloud, vm, a)
  {
    match a
    case Answer(_, o, e) => CloudAfter(cloud, Awaits(vm.cfg, vm.thread.value.ctl.c), e)
    case Background(_, j, o, e) => CloudAfter(cloud, Awaits(vm.cfg, vm.deletes[j]), e)
    case _ => cloud
  }

  /** What a step adds to the log. */
  ghost function LogStep(cloud: Cloud, vm: Vm, a: Action): seq<Entry>
    requires CanAct(cloud, vm, a)
  {
    match a
    case Request(_, op) =>
      var ctl := Begin(vm.thread.value.vols, op);
      if ctl.Calling? && ctl.k.KCreateGet? then [Requested(ctl.k.n, ctl.k.options)]
      else if ctl.Storing? && ctl.sk.SRemoveDelete? && ctl.sk.n in vm.thread.value.vols then
        [Removed(ctl.sk.n, vm.thread.value.vols[ctl.sk.n].options.reclaimPolicy)]
      else []
    case Answer(_, o, e) => LogOf(cloud, Awaits(vm.cfg, vm.thread.value.ctl.c), e)
    case Background(_, j, o, e) => LogOf(cloud, Awaits(vm.cfg, vm.deletes[j]), e)
    case Persist(_, ok) =>
      var sk := vm.thread.value.ctl.sk;
      if sk.SCreate? && !ok then [RolledBack(sk.n)] else []
    case _ => []
  }

  ghost predicate CanStep(s: Sys, a: Action) {
    a.i < |s.vms| && CanAct(s.cloud, s.vms[a.i], a)
  }

  ghost function Step(s: Sys, a: Action): Sys
    requires CanStep(s, a)
  {
    Sys(CloudStep(s.cloud, s.vms[a.i], a),
        s.vms[a.i := VmStep(s.cloud, s.vms[a.i], a)],
        s.log + LogStep(s.cloud, s.vms[a.i], a))
  }

  /** The call that a step brings an answer to. */
  ghost function Acting(s: Sys, a: Action): Option<Call>
    requires CanStep(s, a)
  {
    if a.Answer? then Some(s.vms[a.i].thread.value.ctl.c)
    else if a.Background? then Some(s.vms[a.i].deletes[a.j])
    else None
  }

  // ---- runs ----

  /** A zone whose disks have at most one user, and VMs that have never run the plugin. */
  ghost predicate Init(s: Sys) {
    && CloudOk(s.cloud)
    && (forall n | n in s.cloud.disks :: s.cloud.disks[n].formats == 0)
    && (forall n | n in s.cloud.disks && Marked(s.cloud.disks[n].labels) :: FoundMarked(n) in s.log)
    && (forall x | x in s.log :: x.FoundMarked?)
    && (forall i | 0 <= i < |s.vms| :: Fresh(s.vms[i]))
    && Named(s)
  }

  predicate Fresh(vm: Vm) {
    vm.file == map[] && vm.thread.None? && vm.deletes == [] && vm.mounts == {} && vm.faults == {} &&
    vm.drift == IN_STEP
  }

  /** The VMs of one zone: instance names are distinct and contain no slash. */
  ghost predicate Named(s: Sys) {
    && (forall i | 0 <= i < |s.vms| :: Refs.SlashFree(s.vms[i].cfg.instance))
    && (forall i, j | 0 <= i < j < |s.vms| :: s.vms[i].cfg.instance != s.vms[j].cfg.instance)
    && (forall i, j | 0 <= i < j < |s.vms| ::
          s.vms[i].cfg.project == s.vms[j].cfg.project && s.vms[i].cfg.zone == s.vms[j].cfg.zone)
  }

  ghost predicate CloudOk(cloud: Cloud) {
    forall n | n in cloud.disks :: DiskOk(cloud, cloud.disks[n])
  }

  ghost predicate DiskOk(cloud: Cloud, d: Disk) {
    d.id < cloud.next && d.fingerprint < cloud.next && |d.users| <= 1 &&
    forall u | u in d.users :: Refs.SlashFree(u)
  }

  /** A run: its states, and the actions between them. */
  datatype Run = Run(states: seq<Sys>, actions: seq<Action>)

  ghost predicate IsRun(r: Run) {
    && |r.states| == |r.actions| + 1
    && Init(r.states[0])
    && forall k | 0 <= k < |r.actions| ::
         CanStep(r.states[k], r.actions[k]) && r.states[k + 1] == Step(r.states[k], r.actions[k])
  }
}
