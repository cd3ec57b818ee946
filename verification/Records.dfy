/** Volume records, and the pure effect of every operation of the state store. */
module Records {
  import opened Options
  import opened Names

  datatype Status = Created | Mounted

  datatype Volume = Volume(
    name: string,
    options: DiskOptions,
    status: Status,
    mountpoint: string,
    refCount: int,
    createdAt: string)

  type Vols = map<string, Volume>

  function IncRefd(v: Volume, mountpoint: string): Volume {
    v.(refCount := v.refCount + 1, status := Mounted, mountpoint := mountpoint)
  }

  function DecRefd(v: Volume): Volume {
    var n := if v.refCount > 0 then v.refCount - 1 else v.refCount;
    if n == 0 then v.(refCount := 0, status := Created, mountpoint := "") else v.(refCount := n)
  }

  function Resetted(v: Volume): Volume {
    v.(refCount := 0, status := Created, mountpoint := "")
  }

  function SetMountedd(v: Volume, mountpoint: string): Volume {
    v.(refCount := 1, status := Mounted, mountpoint := mountpoint)
  }

  function Imported(name: string, options: DiskOptions): Volume {
    Volume(name, options, Created, "", 0, "")
  }

  /** The store after reconciling with the names found in GCE: exactly those names,
      known records untouched, the others imported. */
  function Reconciled(vols: Vols, names: seq<string>, byName: map<string, DiskOptions>): Vols
    requires forall n | n in names :: n in byName
  {
    map n | n in names :: if n in vols then vols[n] else Imported(n, byName[n])
  }

  /** The mutating operations of the store. */
  datatype StoreOp =
    | OpAdd(v: Volume)
    | OpRemove(n: string)
    | OpIncRef(n: string, mountpoint: string)
    | OpDecRef(n: string)
    | OpReset
    | OpSetMounted(n: string, mountpoint: string)
    | OpReconcile(names: seq<string>, byName: map<string, DiskOptions>)

  predicate WellFormedOp(op: StoreOp) {
    op.OpReconcile? ==> forall n | n in op.names :: n in op.byName
  }

  /** What an operation does to the records in memory. An operation on a missing
      record, or the addition of one that exists, changes nothing. */
  function Apply(vols: Vols, op: StoreOp): Vols
    requires WellFormedOp(op)
  {
    match op
    case OpAdd(v) => if v.name in vols then vols else vols[v.name := v]
    case OpRemove(n) => vols - {n}
    case OpIncRef(n, mp) => if n in vols then vols[n := IncRefd(vols[n], mp)] else vols
    case OpDecRef(n) => if n in vols then vols[n := DecRefd(vols[n])] else vols
    case OpReset => map n | n in vols :: Resetted(vols[n])
    case OpSetMounted(n, mp) => if n in vols then vols[n := SetMountedd(vols[n], mp)] else vols
    case OpReconcile(names, byName) => Reconciled(vols, names, byName)
  }

  /** The operation does not even reach the file: it reports an error (or, for a
      removal, success) without persisting. */
  predicate Refused(vols: Vols, op: StoreOp) {
    match op
    case OpAdd(v) => v.name in vols
    case OpIncRef(n, _) => n !in vols
    case OpDecRef(n) => n !in vols
    case OpSetMounted(n, _) => n !in vols
    case _ => false
  }

  // ---- what every store operation keeps ----

  /** A record filed under its own name whose status, count and mountpoint agree. */
  predicate Coherent(n: string, v: Volume) {
    && v.name == n
    && v.refCount >= 0
    && (v.status == Mounted <==> v.refCount > 0)
    && v.mountpoint == (if v.refCount > 0 then MountpointFor(n) else "")
  }

  predicate CoherentVols(vols: Vols) {
    forall n | n in vols :: Coherent(n, vols[n])
  }

  /** The arguments with which the driver calls the operation. */
  predicate CoherentOp(op: StoreOp) {
    match op
    case OpAdd(v) => Coherent(v.name, v)
    case OpIncRef(n, mp) => mp == MountpointFor(n)
    case OpSetMounted(n, mp) => mp == MountpointFor(n)
    case _ => WellFormedOp(op)
  }

  lemma ApplyKeepsCoherent(vols: Vols, op: StoreOp)
    requires CoherentVols(vols) && CoherentOp(op)
    ensures CoherentVols(Apply(vols, op))
  {
  }

  /** What a record says of its volume never changes; only its count does, with status and
      mountpoint: by one up, by one down but not below zero, to zero, or to one. */
  lemma ApplyKeepsTheRest(vols: Vols, op: StoreOp, n: string)
    requires WellFormedOp(op) && n in vols && n in Apply(vols, op)
    ensures var was, now := vols[n], Apply(vols, op)[n];
            && now.name == was.name && now.options == was.options && now.createdAt == was.createdAt
            && (now != was ==> op.OpReset? || ((op.OpIncRef? || op.OpDecRef? || op.OpSetMounted?) && op.n == n))
            && (op.OpIncRef? && op.n == n ==> now.refCount == was.refCount + 1)
            && (op.OpDecRef? && op.n == n && was.refCount > 0 ==> now.refCount == was.refCount - 1)
            && (op.OpDecRef? && op.n == n && was.refCount == 0 ==> now.refCount == 0)
            && (op.OpReset? ==> now.refCount == 0)
            && (op.OpSetMounted? && op.n == n ==> now.refCount == 1)
  {
  }

  // ---- what a record looks like after a trip through the file ----

  function NormalOptions(o: DiskOptions): DiskOptions {
    o.(labels := if o.labels.Entries() == map[] then Nil else o.labels)
  }

  function Normal(v: Volume): Volume {
    v.(options := NormalOptions(v.options))
  }

  /** Loading the state file: an empty label map comes back as nil. */
  function Loaded(file: Vols): Vols {
    map n | n in file :: Normal(file[n])
  }

  /** The difference is invisible to the option comparison, on either side. */
  lemma NormalKeepsMatches(o: DiskOptions, p: DiskOptions)
    ensures Matches(NormalOptions(o), p) <==> Matches(o, p)
    ensures Matches(p, NormalOptions(o)) <==> Matches(p, o)
    ensures EffectiveLabels(NormalOptions(o)) == EffectiveLabels(o)
  {
    assert NormalOptions(o).labels.Entries() == o.labels.Entries();
    assert forall k :: NormalOptions(o).labels.Lookup(k) == o.labels.Lookup(k);
  }
}
