/** What the plugin may do next. Every operation is a control automaton: `Awaits`
    says which request is outstanding, `After` how its answer moves the call on,
    `AfterCall` and `AfterStore` how the driver carries on when a call or a store
    operation has ended. The classes of the plugin are proved to follow it. */
module Protocol {
  import opened Options
  import opened Names
  import opened Records
  import Refs
  import Sorting

  datatype Config = Config(project: string, zone: string, instance: string, global: bool)

  /** A disk as the GCE API shows it. `id` identifies the incarnation: a disk
      created anew under an old name has another one. */
  datatype DiskView = DiskView(
    id: nat,
    sizeGb: int,
    diskType: string,
    users: seq<string>,
    labels: map<string, string>,
    fingerprint: nat)

  datatype Listed = Listed(name: string, disk: DiskView)

  // ---- requests and answers ----

  datatype Query =
    | QGet(n: string)
    | QInsert(n: string, options: DiskOptions, labels: map<string, string>)
    | QSetLabels(n: string, fingerprint: nat, labels: map<string, string>)
    | QSnapshot(n: string)
    | QDelete(n: string)
    | QAttach(n: string, instance: string)
    | QDetach(n: string, instance: string)
    | QStatus(instance: string)
    | QList
    | QGrace
    | QDevice(n: string)
    | QProbe(n: string)
    | QMkfs(n: string, fsType: string)
    | QMounted(n: string)
    | QMount(n: string)
    | QUmount(n: string)
    | QNothing

  /** ORetry is a retryable error: the request will be repeated. OError also covers
      giving up and cancellation; OMissing is a definite 404. */
  datatype Outcome =
    | ODone
    | ORetry
    | OError
    | OMissing
    | OFound(disk: DiskView)
    | OList(disks: seq<Listed>)
    | OStatus(status: string)
    | OBool(b: bool)
    | OFs(fsType: string)

  /** The shape of answer each request can get. */
  predicate Fits(q: Query, o: Outcome) {
    o.OError? ||
    match q
    case QGet(_) => o.ORetry? || o.OFound? || o.OMissing?
    case QList => o.ORetry? || o.OList?
    case QStatus(_) => o.ORetry? || o.OStatus? || o.OMissing?
    case QGrace => o.OBool?
    case QDevice(_) => o.OBool?
    case QProbe(_) => o.OFs?
    case QMounted(_) => o.OBool?
    case QMkfs(_, _) => o.ODone?
    case QMount(_) => o.ODone?
    case QUmount(_) => o.ODone?
    case QNothing => false
    case _ => o.ODone? || o.ORetry? || o.OMissing?
  }

  // ---- calls into the GCE client and the mounter ----

  datatype Ret =
    | ROk
    | RErr
    | RNotFound
    | RInfo(disk: DiskView)
    | RList(disks: seq<Listed>)
    | RBool(b: bool)

  datatype Call =
    | Return(r: Ret)
    | GetDisk(n: string)
    | CreateInsert(n: string, options: DiskOptions)
    | CreateRead(n: string)
    | DeleteGet(n: string, snapshot: bool)
    | DeleteMarkGet(n: string, snapshot: bool)
    | DeleteSet(n: string, snapshot: bool, id: nat, fingerprint: nat, labels: map<string, string>)
    | DeleteSnapshot(n: string, id: nat)
    | DeleteDelete(n: string, snapshot: bool, id: nat)
    | AttachGet(n: string)
    | AttachStatus(n: string, holder: string)
    | AttachDetachDown(n: string, holder: string)
    | AttachDetachClean(n: string, holder: string)
    | AttachPoll(n: string, holder: string)
    | AttachGrace(n: string, holder: string)
    | AttachForce(n: string, holder: string)
    | AttachRefetch(n: string)
    | AttachAttach(n: string)
    | DetachGet(n: string)
    | DetachDetach(n: string)
    | ListManaged
    | WaitDevice(n: string)
    | FormatProbe(n: string, fsType: string)
    | FormatMkfs(n: string, fsType: string)
    | MountCheck(n: string)
    | MountRun(n: string)
    | UnmountCheck(n: string)
    | UnmountRun(n: string)
    | IsMounted(n: string)

  /** The request a call has outstanding. */
  function Awaits(cfg: Config, c: Call): Query {
    match c
    case Return(_) => QNothing
    case GetDisk(n) => QGet(n)
    case CreateInsert(n, options) => QInsert(n, options, EffectiveLabels(options))
    case CreateRead(n) => QGet(n)
    case DeleteGet(n, _) => QGet(n)
    case DeleteMarkGet(n, _) => QGet(n)
    case DeleteSet(n, _, _, fp, labels) => QSetLabels(n, fp, labels)
    case DeleteSnapshot(n, _) => QSnapshot(n)
    case DeleteDelete(n, _, _) => QDelete(n)
    case AttachGet(n) => QGet(n)
    case AttachStatus(_, holder) => QStatus(holder)
    case AttachDetachDown(n, holder) => QDetach(n, holder)
    case AttachDetachClean(n, holder) => QDetach(n, holder)
    case AttachPoll(n, _) => QGet(n)
    case AttachGrace(_, _) => QGrace
    case AttachForce(n, holder) => QDetach(n, holder)
    case AttachRefetch(n) => QGet(n)
    case AttachAttach(n) => QAttach(n, cfg.instance)
    case DetachGet(n) => QGet(n)
    case DetachDetach(n) => QDetach(n, cfg.instance)
    case ListManaged => QList
    case WaitDevice(n) => QDevice(n)
    case FormatProbe(n, _) => QProbe(n)
    case FormatMkfs(n, fs) => QMkfs(n, fs)
    case MountCheck(n) => QMounted(n)
    case MountRun(n) => QMount(n)
    case UnmountCheck(n) => QMounted(n)
    case UnmountRun(n) => QUmount(n)
    case IsMounted(n) => QMounted(n)
  }

  function CreateDisk(n: string, options: DiskOptions): Call {
    if ValidDiskName(n) then CreateInsert(n, options) else Return(RErr)
  }

  /** Past the marking: a snapshot first if asked for, then the deletion. */
  function DeleteMarked(n: string, snapshot: bool, id: nat): Call {
    if snapshot then DeleteSnapshot(n, id) else DeleteDelete(n, false, id)
  }

  function WithDeleting(labels: map<string, string>): map<string, string> {
    labels[DELETING_KEY := "true"]
  }

  const DOWN := {"", "TERMINATED", "STOPPED", "STOPPING", "SUSPENDED", "SUSPENDING"}

  /** A holder in one of these states, or gone, cannot be writing. */
  predicate IsHolderDown(status: string) {
    status in DOWN
  }

  function Here(cfg: Config): string {
    Refs.SelfLink(cfg.project, cfg.zone, cfg.instance)
  }

  predicate AttachedHere(cfg: Config, users: seq<string>) {
    exists i | 0 <= i < |users| :: Refs.SameInstance(users[i], Here(cfg))
  }

  /** Only the first user is ever looked at. */
  function AfterAttachGet(cfg: Config, n: string, users: seq<string>): Call {
    if users == [] then AttachAttach(n)
    else if Refs.SameInstance(users[0], Here(cfg)) then Return(ROk)
    else if !cfg.global then Return(RErr)
    else AttachStatus(n, Refs.InstanceNameFromRef(users[0]))
  }

  function AfterStatus(n: string, holder: string, status: string): Call {
    if IsHolderDown(status) then AttachDetachDown(n, holder) else AttachDetachClean(n, holder)
  }

  function DoneOrErr(o: Outcome, next: Call): Call {
    if o.ODone? then next else Return(RErr)
  }

  function FoundOrErr(o: Outcome, next: Call): Call {
    if o.OFound? then next else Return(RErr)
  }

  /** How the answer `o` moves the call on. A retryable error repeats the request. */
  function After(cfg: Config, c: Call, o: Outcome): Call {
    if o.ORetry? then c else
    match c
    case Return(_) => c
    case GetDisk(_) => Return(if o.OFound? then RInfo(o.disk) else if o.OMissing? then RNotFound else RErr)
    case CreateInsert(n, _) => DoneOrErr(o, CreateRead(n))
    case CreateRead(_) => FoundOrErr(o, Return(ROk))
    case DeleteGet(n, snap) =>
      if o.OMissing? then Return(ROk)
      else if !o.OFound? || o.disk.users != [] then Return(RErr)
      else if Marked(o.disk.labels) then DeleteMarked(n, snap, o.disk.id)
      else DeleteMarkGet(n, snap)
    case DeleteMarkGet(n, snap) =>
      if o.OFound? then DeleteSet(n, snap, o.disk.id, o.disk.fingerprint, WithDeleting(o.disk.labels))
      else Return(RErr)
    case DeleteSet(n, snap, id, _, _) => DoneOrErr(o, DeleteMarked(n, snap, id))
    case DeleteSnapshot(n, id) => DoneOrErr(o, DeleteDelete(n, true, id))
    case DeleteDelete(_, _, _) => Return(if o.ODone? || o.OMissing? then ROk else RErr)
    case AttachGet(n) => if o.OFound? then AfterAttachGet(cfg, n, o.disk.users) else Return(RErr)
    case AttachStatus(n, holder) =>
      if o.OStatus? then AfterStatus(n, holder, o.status)
      else if o.OMissing? then AfterStatus(n, holder, "")
      else Return(RErr)
    case AttachDetachDown(n, _) => DoneOrErr(o, AttachRefetch(n))
    case AttachDetachClean(n, holder) => DoneOrErr(o, AttachPoll(n, holder))
    case AttachPoll(n, holder) =>
      if !o.OFound? then Return(RErr)
      else if Refs.Released(o.disk.users, cfg.project, cfg.zone, holder) then AttachRefetch(n)
      else AttachGrace(n, holder)
    case AttachGrace(n, holder) =>
      if !o.OBool? then Return(RErr) else if o.b then AttachForce(n, holder) else AttachPoll(n, holder)
    case AttachForce(n, _) => DoneOrErr(o, AttachRefetch(n))
    case AttachRefetch(n) => FoundOrErr(o, AttachAttach(n))
    case AttachAttach(_) => DoneOrErr(o, Return(ROk))
    case DetachGet(n) =>
      if !o.OFound? then Return(RErr)
      else if AttachedHere(cfg, o.disk.users) then DetachDetach(n)
      else Return(ROk)
    case DetachDetach(_) => DoneOrErr(o, Return(ROk))
    case ListManaged => Return(if o.OList? then RList(o.disks) else RErr)
    case WaitDevice(_) => Return(if o.OBool? && o.b then ROk else RErr)
    case FormatProbe(n, fs) =>
      if !o.OFs? then Return(RErr)
      else if o.fsType != "" then Return(ROk)
      else if KnownFsType(fs) then FormatMkfs(n, fs)
      else Return(RErr)
    case FormatMkfs(_, _) => DoneOrErr(o, Return(ROk))
    case MountCheck(n) =>
      if !o.OBool? then Return(RErr) else if o.b then Return(ROk) else MountRun(n)
    case MountRun(_) => DoneOrErr(o, Return(ROk))
    case UnmountCheck(n) =>
      if !o.OBool? then Return(RErr) else if o.b then UnmountRun(n) else Return(ROk)
    case UnmountRun(_) => DoneOrErr(o, Return(ROk))
    case IsMounted(_) => Return(if o.OBool? then RBool(o.b) else RErr)
  }

  // ---- driver operations ----

  datatype Op =
    | Create(n: string, options: DiskOptions, stamp: string)
    | Remove(n: string)
    | Mount(n: string)
    | Unmount(n: string)
    | Reconcile

  /** What the driver does once the call it is in has returned. */
  datatype Kont =
    | KCreateGet(n: string, options: DiskOptions, stamp: string)
    | KCreateDisk(n: string, options: DiskOptions, stamp: string)
    | KCreateRollback(n: string)
    | KMountAttach(n: string)
    | KMountWait(n: string)
    | KMountFormat(n: string)
    | KMountMount(n: string)
    | KMountDetach(n: string)
    | KUndoUnmount(n: string)
    | KUndoDetach(n: string)
    | KUnmountUnmount(n: string)
    | KUnmountDetach(n: string)
    | KList
    | KScan(n: string, todo: seq<string>)
    | KBackground

  /** What the driver does once a store operation has ended. */
  datatype StoreKont =
    | SCreate(n: string)
    | SAdopt
    | SRemoveRetain
    | SRemoveDelete(n: string, snapshot: bool)
    | SMountAgain
    | SMountNew(n: string)
    | SUnmount(n: string)
    | SReconcile
    | SReset
    | SScan(todo: seq<string>)

  datatype Reply = Fine | Refuse

  datatype Control =
    | Idle(last: Reply)
    | Calling(k: Kont, c: Call)
    | Storing(op: StoreOp, sk: StoreKont)
    | Exited

  /** A background delete to be started. */
  datatype Delete = Delete(n: string, snapshot: bool)

  datatype Thread = Thread(vols: Vols, ctl: Control, bg: seq<Delete>)

  function NewRecord(n: string, options: DiskOptions, stamp: string): Volume {
    Volume(n, options, Created, "", 0, stamp)
  }

  /** The first step of an operation that has passed option parsing. */
  function Begin(vols: Vols, op: Op): Control {
    match op
    case Create(n, options, stamp) =>
      if n in vols then Idle(if Matches(vols[n].options, options) then Fine else Refuse)
      else Calling(KCreateGet(n, options, stamp), GetDisk(n))
    case Remove(n) =>
      if n !in vols || vols[n].refCount > 0 then Idle(Refuse)
      else if vols[n].options.reclaimPolicy == RETAIN then Storing(OpRemove(n), SRemoveRetain)
      else Storing(OpRemove(n), SRemoveDelete(n, vols[n].options.snapshotOnRemove))
    case Mount(n) =>
      if n !in vols then Idle(Refuse)
      else if vols[n].refCount > 0 then Storing(OpIncRef(n, MountpointFor(n)), SMountAgain)
      else Calling(KMountAttach(n), AttachGet(n))
    case Unmount(n) =>
      if n !in vols then Idle(Refuse)
      else if vols[n].refCount == 0 then Idle(Fine)
      else Storing(OpDecRef(n), SUnmount(n))
    case Reconcile => Calling(KList, ListManaged)
  }

  predicate Adoptable(d: DiskView, options: DiskOptions) {
    Managed(d.labels) && d.sizeGb == options.sizeGb && d.diskType == options.diskType
  }

  /** Names of the listed disks that are not being deleted. */
  function Available(disks: seq<Listed>): (names: seq<string>)
    ensures forall n :: n in names <==> exists l | l in disks :: l.name == n && !Marked(l.disk.labels)
  {
    if disks == [] then [] else
      var l := disks[|disks| - 1];
      var front := Available(disks[..|disks| - 1]);
      assert disks == disks[..|disks| - 1] + [l];
      if Marked(l.disk.labels) then front else front + [l.name]
  }

  /** The interrupted deletes to resume, without a snapshot. */
  function Resumable(disks: seq<Listed>): (ds: seq<Delete>)
    ensures forall d :: d in ds <==> !d.snapshot && exists l | l in disks :: l.name == d.n && Marked(l.disk.labels)
  {
    if disks == [] then [] else
      var l := disks[|disks| - 1];
      var front := Resumable(disks[..|disks| - 1]);
      assert disks == disks[..|disks| - 1] + [l];
      if Marked(l.disk.labels) then front + [Delete(l.name, false)] else front
  }

  /** The options of an imported record: size and type are real, the rest defaults. */
  function ImportOptions(d: DiskView): DiskOptions {
    DiskOptions(d.sizeGb, d.diskType, "ext4", Made(d.labels), "", "", false, RETAIN)
  }

  function ImportTable(disks: seq<Listed>): (t: map<string, DiskOptions>)
    ensures forall n :: n in t <==> exists l | l in disks :: l.name == n && !Marked(l.disk.labels)
    ensures forall n | n in t :: exists l | l in disks :: l.name == n && !Marked(l.disk.labels) && t[n] == ImportOptions(l.disk)
  {
    if disks == [] then map[] else
      var l := disks[|disks| - 1];
      var front := ImportTable(disks[..|disks| - 1]);
      assert disks == disks[..|disks| - 1] + [l];
      if Marked(l.disk.labels) then front else front[l.name := ImportOptions(l.disk)]
  }

  function ScanNext(todo: seq<string>): Control {
    if todo == [] then Idle(Fine) else Calling(KScan(todo[0], todo[1..]), IsMounted(todo[0]))
  }

  function ReplyOf(r: Ret): Reply {
    if r.ROk? then Fine else Refuse
  }

  /** The call has returned `r`. */
  ghost function AfterCall(t: Thread, k: Kont, r: Ret): Thread {
    match k
    case KCreateGet(n, options, stamp) =>
      if r.RNotFound? then Proceed(t, KCreateDisk(n, options, stamp), CreateDisk(n, options))
      else if !r.RInfo? || Marked(r.disk.labels) || !Adoptable(r.disk, options) then t.(ctl := Idle(Refuse))
      else t.(ctl := Storing(OpAdd(NewRecord(n, options, stamp)), SAdopt))
    case KCreateDisk(n, options, stamp) =>
      t.(ctl := if r.ROk? then Storing(OpAdd(NewRecord(n, options, stamp)), SCreate(n)) else Idle(Refuse))
    case KCreateRollback(_) => t.(ctl := Idle(Refuse))
    case KMountAttach(n) =>
      t.(ctl := if r.ROk? then Calling(KMountWait(n), WaitDevice(n)) else Idle(Refuse))
    case KMountWait(n) =>
      t.(ctl := if r.ROk? && n in t.vols then Calling(KMountFormat(n), FormatProbe(n, t.vols[n].options.fsType))
                else Calling(KMountDetach(n), DetachGet(n)))
    case KMountFormat(n) =>
      t.(ctl := if r.ROk? then Calling(KMountMount(n), MountCheck(n)) else Calling(KMountDetach(n), DetachGet(n)))
    case KMountMount(n) =>
      t.(ctl := if r.ROk? then Storing(OpIncRef(n, MountpointFor(n)), SMountNew(n))
                else Calling(KMountDetach(n), DetachGet(n)))
    case KMountDetach(_) => t.(ctl := Idle(Refuse))
    case KUndoUnmount(n) => t.(ctl := Calling(KUndoDetach(n), DetachGet(n)))
    case KUndoDetach(_) => t.(ctl := Idle(Refuse))
    case KUnmountUnmount(n) =>
      t.(ctl := if r.ROk? then Calling(KUnmountDetach(n), DetachGet(n)) else Idle(Refuse))
    case KUnmountDetach(_) => t.(ctl := Idle(ReplyOf(r)))
    case KList =>
      if r.RList? then
        t.(ctl := Storing(OpReconcile(Available(r.disks), ImportTable(r.disks)), SReconcile),
           bg := t.bg + Resumable(r.disks))
      else t.(ctl := Exited)
    case KScan(n, todo) =>
      t.(ctl := if r == RBool(true) then Storing(OpSetMounted(n, MountpointFor(n)), SScan(todo)) else ScanNext(todo))
    case KBackground => t.(ctl := Idle(ReplyOf(r)))
  }

  /** Enter a call, which may return at once. */
  ghost function Proceed(t: Thread, k: Kont, c: Call): Thread
    requires k.KCreateDisk?
  {
    if c.Return? then t.(ctl := Idle(Refuse)) else t.(ctl := Calling(k, c))
  }

  /** The store operation has ended: the records are those of `t`, `ok` says
      whether they were persisted. */
  ghost function AfterStore(t: Thread, sk: StoreKont, ok: bool): Thread {
    match sk
    case SCreate(n) => t.(ctl := if ok then Idle(Fine) else Calling(KCreateRollback(n), DeleteGet(n, false)))
    case SAdopt => t.(ctl := Idle(if ok then Fine else Refuse))
    case SRemoveRetain => t.(ctl := Idle(if ok then Fine else Refuse))
    case SRemoveDelete(n, snap) =>
      if ok then t.(ctl := Idle(Fine), bg := t.bg + [Delete(n, snap)]) else t.(ctl := Idle(Refuse))
    case SMountAgain => t.(ctl := Idle(if ok then Fine else Refuse))
    case SMountNew(n) => t.(ctl := if ok then Idle(Fine) else Calling(KUndoUnmount(n), UnmountCheck(n)))
    case SUnmount(n) =>
      t.(ctl := if !ok then Idle(Refuse)
                else if n in t.vols && t.vols[n].refCount > 0 then Idle(Fine)
                else Calling(KUnmountUnmount(n), UnmountCheck(n)))
    case SReconcile => t.(ctl := if ok then Storing(OpReset, SReset) else Exited)
    case SReset => t.(ctl := if ok then ScanNext(Sorting.Listing(t.vols.Keys)) else Exited)
    case SScan(todo) => t.(ctl := ScanNext(todo))
  }

  // ---- one move of a thread ----

  datatype Move =
    | MBegin(op: Op)
    | MAnswer(o: Outcome)
    | MStore(ok: bool)

  predicate CanMove(cfg: Config, t: Thread, m: Move) {
    match m
    case MBegin(op) => t.ctl.Idle?
    case MAnswer(o) => t.ctl.Calling? && Fits(Awaits(cfg, t.ctl.c), o)
    case MStore(ok) => t.ctl.Storing? && WellFormedOp(t.ctl.op) && (ok ==> !Refused(t.vols, t.ctl.op))
  }

  ghost function Moved(cfg: Config, t: Thread, m: Move): Thread
    requires CanMove(cfg, t, m)
  {
    match m
    case MBegin(op) => t.(ctl := Begin(t.vols, op))
    case MAnswer(o) =>
      At(t, After(cfg, t.ctl.c, o))
    case MStore(ok) => AfterStore(t.(vols := Apply(t.vols, t.ctl.op)), t.ctl.sk, ok)
  }

  // ---- well-formed control ----

  /** The steps of `DeleteDisk`. */
  predicate DeleteCall(c: Call) {
    c.DeleteGet? || c.DeleteMarkGet? || c.DeleteSet? || c.DeleteSnapshot? || c.DeleteDelete?
  }

  /** The steps of `AttachDisk`. */
  predicate AttachCall(c: Call) {
    c.AttachGet? || c.AttachStatus? || c.AttachDetachDown? || c.AttachDetachClean? || c.AttachPoll? ||
    c.AttachGrace? || c.AttachForce? || c.AttachRefetch? || c.AttachAttach?
  }

  /** The call is one that the continuation waits for, about the same volume. */
  predicate Belongs(k: Kont, c: Call) {
    match k
    case KCreateGet(n, _, _) => c == GetDisk(n)
    case KCreateDisk(n, options, _) => c == CreateInsert(n, options) || c == CreateRead(n)
    case KCreateRollback(n) => DeleteCall(c) && c.n == n
    case KMountAttach(n) => AttachCall(c) && c.n == n
    case KMountWait(n) => c == WaitDevice(n)
    case KMountFormat(n) => (c.FormatProbe? || c.FormatMkfs?) && c.n == n
    case KMountMount(n) => c == MountCheck(n) || c == MountRun(n)
    case KMountDetach(n) => c == DetachGet(n) || c == DetachDetach(n)
    case KUndoUnmount(n) => c == UnmountCheck(n) || c == UnmountRun(n)
    case KUndoDetach(n) => c == DetachGet(n) || c == DetachDetach(n)
    case KUnmountUnmount(n) => c == UnmountCheck(n) || c == UnmountRun(n)
    case KUnmountDetach(n) => c == DetachGet(n) || c == DetachDetach(n)
    case KList => c == ListManaged
    case KScan(n, _) => c == IsMounted(n)
    case KBackground => DeleteCall(c)
  }

  predicate BelongsStore(op: StoreOp, sk: StoreKont) {
    match sk
    case SCreate(n) => op.OpAdd? && op.v.name == n && op.v.refCount == 0
    case SAdopt => op.OpAdd? && op.v.refCount == 0
    case SRemoveRetain => op.OpRemove?
    case SRemoveDelete(n, _) => op == OpRemove(n)
    case SMountAgain => op.OpIncRef?
    case SMountNew(n) => op == OpIncRef(n, MountpointFor(n))
    case SUnmount(n) => op == OpDecRef(n)
    case SReconcile => op.OpReconcile?
    case SReset => op == OpReset
    case SScan(_) => op.OpSetMounted?
  }

  predicate WellFormed(ctl: Control) {
    match ctl
    case Calling(k, c) => Belongs(k, c)
    case Storing(op, sk) => BelongsStore(op, sk) && CoherentOp(op)
    case _ => true
  }

  /** A call keeps its volume until it returns. */
  lemma AfterKeepsBelongs(cfg: Config, k: Kont, c: Call, o: Outcome)
    requires Belongs(k, c)
    ensures var c' := After(cfg, c, o); c'.Return? || Belongs(k, c')
  {
  }

  lemma ImportIsWellFormed(disks: seq<Listed>)
    ensures WellFormedOp(OpReconcile(Available(disks), ImportTable(disks)))
  {
  }

  lemma AfterCallWellFormed(t: Thread, k: Kont, r: Ret)
    ensures WellFormed(AfterCall(t, k, r).ctl)
  {
    if k.KList? && r.RList? { ImportIsWellFormed(r.disks); }
  }

  /** Every move leads to a well-formed control state. */
  lemma MovedWellFormed(cfg: Config, t: Thread, m: Move)
    requires WellFormed(t.ctl) && CanMove(cfg, t, m)
    ensures WellFormed(Moved(cfg, t, m).ctl)
  {
    match m
    case MBegin(op) =>
    case MAnswer(o) =>
      AfterKeepsBelongs(cfg, t.ctl.k, t.ctl.c, o);
      var c := After(cfg, t.ctl.c, o);
      if c.Return? { AfterCallWellFormed(t, t.ctl.k, c.r); }
    case MStore(ok) =>
  }

  // ---- sequences of moves ----

  ghost predicate IsMove(cfg: Config, t: Thread, m: Move, t': Thread) {
    CanMove(cfg, t, m) && t' == Moved(cfg, t, m)
  }

  /** The states a thread went through, and the moves between them. */
  ghost predicate IsWalk(cfg: Config, threads: seq<Thread>, moves: seq<Move>) {
    |threads| == |moves| + 1 &&
    forall k | 0 <= k < |moves| :: IsMove(cfg, threads[k], moves[k], threads[k + 1])
  }

  /** Where a thread in a call stands when the call has moved on to `c`: if it has
      returned, the driver has carried on. */
  ghost function At(t: Thread, c: Call): Thread
    requires t.ctl.Calling?
  {
    if c.Return? then AfterCall(t, t.ctl.k, c.r) else t.(ctl := Calling(t.ctl.k, c))
  }

  lemma AtNext(cfg: Config, t: Thread, c: Call, o: Outcome)
    requires t.ctl.Calling? && !c.Return? && Fits(Awaits(cfg, c), o)
    ensures CanMove(cfg, At(t, c), MAnswer(o))
    ensures Moved(cfg, At(t, c), MAnswer(o)) == At(t, After(cfg, c, o))
  {
    var t' := t.(ctl := Calling(t.ctl.k, c));
    assert At(t, c) == t' && t'.ctl.k == t.ctl.k && t'.ctl.c == c;
    var c' := After(cfg, c, o);
    assert At(t', c') == At(t, c');
  }
}
