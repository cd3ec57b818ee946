/** Runs that break what one might expect of the plugin, and what one of its comments
    promises. Each is a run of the system as modelled, with a single VM, from an empty
    zone; the instance, its scope, and the name and options of the volume are any. */
module Counterexamples {
  import opened Options
  import opened Names
  import opened Records
  import opened Protocol
  import opened Cluster
  import Attachment
  import DeleteProtocol
  import Refs
  import Sorting

  // ---- runs with one VM and one volume ----

  /** The state of a run about a volume `n`. */
  datatype One = One(n: string, cloud: Cloud, vm: Vm, log: seq<Entry>)

  predicate Fit(cfg: Config, n: string) {
    Refs.SlashFree(cfg.instance) && ValidDiskName(n)
  }

  function First(cfg: Config, n: string): One {
    One(n, Cloud(map[], 0), Vm(cfg, map[], None, [], {}, {}, IN_STEP), [])
  }

  ghost predicate Can(x: One, a: Action) {
    a.i == 0 && CanAct(x.cloud, x.vm, a)
  }

  ghost function Do(x: One, a: Action): One
    requires Can(x, a)
  {
    One(x.n, CloudStep(x.cloud, x.vm, a), VmStep(x.cloud, x.vm, a), x.log + LogStep(x.cloud, x.vm, a))
  }

  datatype Trace = Nothing(cfg: Config, n: string) | Then(before: Trace, a: Action)

  ghost function End(t: Trace): Option<One> {
    match t
    case Nothing(cfg, n) => if Fit(cfg, n) then Some(First(cfg, n)) else None
    case Then(before, a) =>
      var x := End(before);
      if x.Some? && Can(x.value, a) then Some(Do(x.value, a)) else None
  }

  ghost predicate Reached(x: One) {
    exists t :: End(t) == Some(x)
  }

  /** Closed under what a run may do. Whatever leads from one state of a run to another
      is shown for any such set, then used for the states that are reached. */
  ghost predicate Closed(R: iset<One>) {
    (forall cfg, n | Fit(cfg, n) :: First(cfg, n) in R) &&
    (forall x, a | x in R && Can(x, a) :: Do(x, a) in R)
  }

  ghost function Reachable(): (R: iset<One>)
    ensures Closed(R) && forall x | x in R :: Reached(x)
  {
    var R := iset x | Reached(x);
    assert Closed(R) by {
      forall cfg, n | Fit(cfg, n) ensures First(cfg, n) in R {
        assert End(Nothing(cfg, n)) == Some(First(cfg, n));
      }
      forall x, a | x in R && Can(x, a) ensures Do(x, a) in R {
        var t :| End(t) == Some(x);
        assert End(Then(t, a)) == Some(Do(x, a));
      }
    }
    R
  }

  function Whole(x: One): Sys {
    Sys(x.cloud, [x.vm], x.log)
  }

  lemma WholeStep(x: One, a: Action)
    requires Can(x, a)
    ensures CanStep(Whole(x), a) && Step(Whole(x), a) == Whole(Do(x, a))
  {
    assert [x.vm][0 := VmStep(x.cloud, x.vm, a)] == [VmStep(x.cloud, x.vm, a)];
  }

  lemma RunOn(r: Run, a: Action, s: Sys)
    requires IsRun(r) && CanStep(r.states[|r.actions|], a) && s == Step(r.states[|r.actions|], a)
    ensures IsRun(Run(r.states + [s], r.actions + [a]))
  {
    var states, actions := r.states + [s], r.actions + [a];
    forall k | 0 <= k < |actions|
      ensures CanStep(states[k], actions[k]) && states[k + 1] == Step(states[k], actions[k])
    {
      assert states[k] == r.states[k];
      if k < |r.actions| { assert states[k + 1] == r.states[k + 1] && actions[k] == r.actions[k]; }
    }
  }

  /** What is reached this way is the last state of a run of the whole system. */
  lemma {:induction false} TraceIsRun(t: Trace) returns (r: Run)
    requires End(t).Some?
    ensures IsRun(r) && r.states[|r.actions|] == Whole(End(t).value)
  {
    match t
    case Nothing(cfg, n) => r := Run([Whole(First(cfg, n))], []);
    case Then(before, a) =>
      var front := TraceIsRun(before);
      var x := End(before).value;
      WholeStep(x, a);
      RunOn(front, a, Whole(Do(x, a)));
      r := Run(front.states + [Whole(Do(x, a))], front.actions + [a]);
  }

  lemma ReachedIsRun(x: One) returns (r: Run)
    requires Reached(x)
    ensures IsRun(r) && r.states[|r.actions|] == Whole(x)
  {
    var t :| End(t) == Some(x);
    r := TraceIsRun(t);
  }

  // ---- single steps ----

  /** The plugin runs with these records, and stands here. */
  predicate Stands(x: One, vols: Vols, ctl: Control) {
    x.vm.thread == Some(Thread(vols, ctl, []))
  }

  /** And nothing has come apart. */
  predicate In(x: One, vols: Vols, ctl: Control) {
    Stands(x, vols, ctl) && x.vm.drift == IN_STEP
  }

  function Set(vm: Vm, vols: Vols, ctl: Control): Vm {
    vm.(thread := Some(Thread(vols, ctl, [])))
  }

  lemma Requests(R: iset<One>, x: One, vols: Vols, last: Reply, op: Op) returns (y: One)
    requires Closed(R) && x in R && Stands(x, vols, Idle(last)) && Cluster.Acceptable(op)
    ensures y in R
    ensures y == x.(vm := Set(x.vm, vols, Begin(vols, op)), log := x.log + LogStep(x.cloud, x.vm, Request(0, op)))
  {
    y := Do(x, Request(0, op));
    assert x.vm.deletes + Spawned([]) == x.vm.deletes;
  }

  lemma VmAnswers(cloud: Cloud, vm: Vm, vols: Vols, k: Kont, c: Call, q: Query, o: Outcome, e: Effect, to: Call, next: Control)
    requires vm.thread == Some(Thread(vols, Calling(k, c), [])) && Awaits(vm.cfg, c) == q
    requires After(vm.cfg, c, o) == to && Permits(cloud, vm, q, o, e)
    requires At(Thread(vols, Calling(k, c), []), to) == Thread(vols, next, [])
    ensures CanAct(cloud, vm, Answer(0, o, e))
    ensures VmStep(cloud, vm, Answer(0, o, e)) ==
            Set(vm, vols, next).(mounts := MountsAfter(vm.mounts, q, e), faults := vm.faults + FaultOf(c, to),
                                 drift := DriftAnswered(vm.drift, vm.mounts, k, c, to, e))
  {
    AnswerShape(cloud, vm, Answer(0, o, e));
    assert vm.deletes + Spawned([]) == vm.deletes;
  }

  /** An answer moves the call on, or ends it. */
  lemma Hears(R: iset<One>, x: One, vols: Vols, k: Kont, c: Call, q: Query, o: Outcome, e: Effect, to: Call, next: Control) returns (y: One)
    requires Closed(R) && x in R && Stands(x, vols, Calling(k, c)) && Awaits(x.vm.cfg, c) == q
    requires After(x.vm.cfg, c, o) == to && Permits(x.cloud, x.vm, q, o, e)
    requires At(Thread(vols, Calling(k, c), []), to) == Thread(vols, next, [])
    ensures y in R
    ensures y == x.(cloud := CloudAfter(x.cloud, q, e), log := x.log + LogOf(x.cloud, q, e),
                    vm := Set(x.vm, vols, next).(mounts := MountsAfter(x.vm.mounts, q, e),
                                                 faults := x.vm.faults + FaultOf(c, to),
                                                 drift := DriftAnswered(x.vm.drift, x.vm.mounts, k, c, to, e)))
  {
    VmAnswers(x.cloud, x.vm, vols, k, c, q, o, e, to, next);
    y := Do(x, Answer(0, o, e));
  }

  /** Nothing comes apart with the answer. */
  predicate Harmless(k: Kont, c: Call, e: Effect, to: Call) {
    FaultOf(c, to) == {} && (k.KUndoUnmount? ==> to != Return(ROk)) && (c.DetachDetach? ==> e.NoEffect?)
  }

  lemma StaysInStep(mounts: set<string>, k: Kont, c: Call, e: Effect, to: Call)
    requires Harmless(k, c, e, to) && Belongs(k, c)
    ensures DriftAnswered(IN_STEP, mounts, k, c, to, e) == IN_STEP
  {
    assert forall n: string :: {} - {n} == {};
  }

  /** An answer with which nothing comes apart. */
  lemma Answers(R: iset<One>, x: One, vols: Vols, k: Kont, c: Call, q: Query, o: Outcome, e: Effect, to: Call, next: Control) returns (y: One)
    requires Closed(R) && x in R && In(x, vols, Calling(k, c)) && Awaits(x.vm.cfg, c) == q
    requires After(x.vm.cfg, c, o) == to && Permits(x.cloud, x.vm, q, o, e)
    requires At(Thread(vols, Calling(k, c), []), to) == Thread(vols, next, [])
    requires Belongs(k, c) && Harmless(k, c, e, to)
    ensures y in R
    ensures y == x.(cloud := CloudAfter(x.cloud, q, e), log := x.log + LogOf(x.cloud, q, e),
                    vm := Set(x.vm, vols, next).(mounts := MountsAfter(x.vm.mounts, q, e)))
  {
    StaysInStep(x.vm.mounts, k, c, e, to);
    y := Hears(R, x, vols, k, c, q, o, e, to, next);
  }

  lemma StoresInStep(mounts: set<string>, op: StoreOp, ok: bool, vols: Vols)
    requires (op.OpReconcile? ==> mounts == {}) && (op.OpDecRef? ==> ok)
    ensures DriftStored(IN_STEP, mounts, op, ok, vols) == IN_STEP
  {
  }

  lemma Persists(R: iset<One>, x: One, vols: Vols, op: StoreOp, sk: StoreKont) returns (y: One)
    requires Closed(R) && x in R && In(x, vols, Storing(op, sk)) && WellFormedOp(op) && !Refused(vols, op)
    requires op.OpReconcile? ==> x.vm.mounts == {}
    ensures y in R
    ensures var t := AfterStore(Thread(Apply(vols, op), Storing(op, sk), []), sk, true);
            y == x.(vm := Set(x.vm, t.vols, t.ctl).(file := t.vols, deletes := x.vm.deletes + Spawned(t.bg)))
  {
    StoresInStep(x.vm.mounts, op, true, Apply(vols, op));
    y := Do(x, Persist(0, true));
    assert x.log + [] == x.log;
  }

  lemma FailsToPersist(R: iset<One>, x: One, vols: Vols, op: StoreOp, sk: StoreKont) returns (y: One)
    requires Closed(R) && x in R && In(x, vols, Storing(op, sk)) && WellFormedOp(op)
    requires (sk.SCreate? || sk.SMountNew?) && BelongsStore(op, sk)
    ensures y in R
    ensures var t := AfterStore(Thread(Apply(vols, op), Storing(op, sk), []), sk, false);
            y == x.(vm := Set(x.vm, t.vols, t.ctl).(faults := x.vm.faults + {PersistFailed}),
                    log := x.log + (if sk.SCreate? then [RolledBack(sk.n)] else []))
  {
    StoresInStep(x.vm.mounts, op, false, Apply(vols, op));
    y := Do(x, Persist(0, false));
    assert x.vm.deletes + Spawned([]) == x.vm.deletes;
  }

  /** The one background delete takes a step. */
  lemma Deletes(R: iset<One>, x: One, c: Call, q: Query, o: Outcome, e: Effect) returns (y: One)
    requires Closed(R) && x in R && x.vm.deletes == [c] && Awaits(x.vm.cfg, c) == q && Permits(x.cloud, x.vm, q, o, e)
    ensures y in R
    ensures var c' := After(x.vm.cfg, c, o);
            y == x.(cloud := CloudAfter(x.cloud, q, e), log := x.log + LogOf(x.cloud, q, e),
                    vm := x.vm.(deletes := if c'.Return? then [] else [c']))
  {
    y := Do(x, Background(0, 0, o, e));
  }

  // ---- starting up ----

  const NONE: Vols := map[]

  /** A VM on which nothing has gone wrong, serving these records. */
  function Serving(cfg: Config, vols: Vols, deletes: seq<Call>): Vm {
    Vm(cfg, vols, Some(Thread(vols, Idle(Fine), [])), deletes, {}, {}, IN_STEP)
  }

  /** From nothing to serving an empty zone. */
  lemma Boots(R: iset<One>, cfg: Config, n: string) returns (y: One)
    requires Closed(R) && Fit(cfg, n)
    ensures y in R && y == First(cfg, n).(vm := Serving(cfg, NONE, []))
  {
    var first := First(cfg, n);
    assert End(Nothing(cfg, n)) == Some(first);
    var x := Do(first, Start(0));
    assert Loaded(NONE) == NONE;
    var listed := ListsNothing(R, x);
    var aligned := Aligns(R, listed);
    y := Resets(R, aligned);
  }

  lemma NothingListed()
    ensures At(Thread(NONE, Calling(KList, ListManaged), []), Return(RList([]))) ==
            Thread(NONE, Storing(OpReconcile([], map[]), SReconcile), [])
  {
    assert Available([]) == [] && ImportTable([]) == map[] && [] + Resumable([]) == [];
  }

  lemma NothingToScan()
    ensures AfterStore(Thread(Apply(NONE, OpReset), Storing(OpReset, SReset), []), SReset, true) ==
            Thread(NONE, Idle(Fine), [])
  {
    assert Apply(NONE, OpReset) == NONE && NONE.Keys == {};
    assert Sorting.Listing({}) == [];
  }

  lemma ListsNothing(R: iset<One>, x: One) returns (y: One)
    requires Closed(R) && x in R && In(x, NONE, Calling(KList, ListManaged)) && x.cloud.disks == map[]
    ensures y in R && y == x.(vm := Set(x.vm, NONE, Storing(OpReconcile([], map[]), SReconcile)))
  {
    NothingListed();
    assert x.log + [] == x.log;
    y := Answers(R, x, NONE, KList, ListManaged, QList, OList([]), NoEffect, Return(RList([])),
                 Storing(OpReconcile([], map[]), SReconcile));
  }

  lemma Aligns(R: iset<One>, x: One) returns (y: One)
    requires Closed(R) && x in R && In(x, NONE, Storing(OpReconcile([], map[]), SReconcile)) && x.vm.deletes == [] && x.vm.file == NONE && x.vm.mounts == {}
    ensures y in R && y == x.(vm := Set(x.vm, NONE, Storing(OpReset, SReset)))
  {
    assert Apply(NONE, OpReconcile([], map[])) == NONE && [] + Spawned([]) == [];
    y := Persists(R, x, NONE, OpReconcile([], map[]), SReconcile);
  }

  lemma Resets(R: iset<One>, x: One) returns (y: One)
    requires Closed(R) && x in R && In(x, NONE, Storing(OpReset, SReset)) && x.vm.deletes == [] && x.vm.file == NONE
    ensures y in R && y == x.(vm := Set(x.vm, NONE, Idle(Fine)))
  {
    NothingToScan();
    assert [] + Spawned([]) == [];
    y := Persists(R, x, NONE, OpReset, SReset);
  }

  // ---- Create and Remove ----

  /** Valid options without a source: the disk starts out blank. */
  predicate Plain(o: DiskOptions) {
    ValidOptions(o) && o.sourceSnapshot == "" && o.sourceImage == ""
  }

  function Record(n: string, o: DiskOptions): Volume {
    NewRecord(n, o, "")
  }

  function WithDisk(cloud: Cloud, n: string, o: DiskOptions): Cloud {
    Cloud(cloud.disks[n := NewDisk(cloud, o, EffectiveLabels(o), "")], cloud.next + 1)
  }

  lemma FindsNothing(R: iset<One>, x: One, vols: Vols, o: DiskOptions) returns (y: One)
    requires Closed(R) && x in R && In(x, vols, Idle(Fine)) && x.n !in vols && x.n !in x.cloud.disks
    requires ValidDiskName(x.n) && Plain(o)
    ensures y in R
    ensures y == x.(vm := Set(x.vm, vols, Calling(KCreateDisk(x.n, o, ""), CreateInsert(x.n, o))),
                    log := x.log + [Requested(x.n, o)])
  {
    var asked := Requests(R, x, vols, Fine, Create(x.n, o, ""));
    y := Answers(R, asked, vols, KCreateGet(x.n, o, ""), GetDisk(x.n), QGet(x.n), OMissing, NoEffect, Return(RNotFound),
                 Calling(KCreateDisk(x.n, o, ""), CreateInsert(x.n, o)));
    assert asked.log + [] == asked.log;
  }

  lemma Inserts(R: iset<One>, x: One, vols: Vols, o: DiskOptions) returns (y: One)
    requires Closed(R) && x in R && In(x, vols, Calling(KCreateDisk(x.n, o, ""), CreateInsert(x.n, o)))
    requires x.n !in x.cloud.disks && Plain(o)
    ensures y in R
    ensures y == x.(vm := Set(x.vm, vols, Calling(KCreateDisk(x.n, o, ""), CreateRead(x.n))), cloud := WithDisk(x.cloud, x.n, o))
  {
    var k := KCreateDisk(x.n, o, "");
    assert x.log + [] == x.log;
    y := Answers(R, x, vols, k, CreateInsert(x.n, o), QInsert(x.n, o, EffectiveLabels(o)), ODone, Effect(""), CreateRead(x.n),
                 Calling(k, CreateRead(x.n)));
  }

  lemma MakesDisk(R: iset<One>, x: One, vols: Vols, o: DiskOptions) returns (y: One)
    requires Closed(R) && x in R && In(x, vols, Calling(KCreateDisk(x.n, o, ""), CreateInsert(x.n, o)))
    requires x.n !in x.cloud.disks && Plain(o)
    ensures y in R
    ensures y == x.(vm := Set(x.vm, vols, Storing(OpAdd(Record(x.n, o)), SCreate(x.n))), cloud := WithDisk(x.cloud, x.n, o))
  {
    var k := KCreateDisk(x.n, o, "");
    var made := Inserts(R, x, vols, o);
    var found := OFound(View(x.vm.cfg, made.cloud.disks[x.n]));
    assert x.log + [] == x.log;
    y := Answers(R, made, vols, k, CreateRead(x.n), QGet(x.n), found, NoEffect, Return(ROk),
                 Storing(OpAdd(Record(x.n, o)), SCreate(x.n)));
  }

  lemma Creates(R: iset<One>, x: One, o: DiskOptions) returns (y: One)
    requires Closed(R) && x in R && In(x, NONE, Idle(Fine)) && x.n !in x.cloud.disks && ValidDiskName(x.n) && Plain(o)
    ensures y in R
    ensures var vols := map[x.n := Record(x.n, o)];
            y == x.(vm := Set(x.vm, vols, Idle(Fine)).(file := vols), cloud := WithDisk(x.cloud, x.n, o),
                    log := x.log + [Requested(x.n, o)])
  {
    var asked := FindsNothing(R, x, NONE, o);
    var made := MakesDisk(R, asked, NONE, o);
    y := Persists(R, made, NONE, OpAdd(Record(x.n, o)), SCreate(x.n));
    assert x.vm.deletes + Spawned([]) == x.vm.deletes;
    assert NONE[x.n := Record(x.n, o)] == map[x.n := Record(x.n, o)];
  }

  /** After start-up and one Create. */
  lemma CreatesFirst(R: iset<One>, cfg: Config, n: string, o: DiskOptions) returns (y: One)
    requires Closed(R) && Fit(cfg, n) && Plain(o)
    ensures y in R
    ensures y == One(n, WithDisk(Cloud(map[], 0), n, o), Serving(cfg, map[n := Record(n, o)], []), [Requested(n, o)])
  {
    var x := Boots(R, cfg, n);
    y := Creates(R, x, o);
  }

  lemma Removes(R: iset<One>, x: One, last: Reply, o: DiskOptions) returns (y: One)
    requires Closed(R) && x in R && In(x, map[x.n := Record(x.n, o)], Idle(last)) && x.vm.deletes == [] && o.reclaimPolicy == DELETE
    ensures y in R
    ensures y == x.(vm := Set(x.vm, NONE, Idle(Fine)).(file := NONE, deletes := [DeleteGet(x.n, o.snapshotOnRemove)]),
                    log := x.log + [Removed(x.n, DELETE)])
  {
    var vols := map[x.n := Record(x.n, o)];
    var asked := Requests(R, x, vols, last, Remove(x.n));
    assert Apply(vols, OpRemove(x.n)) == NONE;
    assert [] + Spawned([Delete(x.n, o.snapshotOnRemove)]) == [DeleteGet(x.n, o.snapshotOnRemove)];
    y := Persists(R, asked, vols, OpRemove(x.n), SRemoveDelete(x.n, o.snapshotOnRemove));
  }

  // ---- background deletes ----

  function WithMark(cloud: Cloud, n: string): Cloud
    requires n in cloud.disks
  {
    var d := cloud.disks[n];
    Cloud(cloud.disks[n := d.(labels := WithDeleting(d.labels), fingerprint := cloud.next)], cloud.next + 1)
  }

  predicate Unattached(x: One) {
    x.n in x.cloud.disks && x.cloud.disks[x.n].users == []
  }

  lemma LooksAtDisk(R: iset<One>, x: One, snapshot: bool) returns (y: One)
    requires Closed(R) && x in R && x.vm.deletes == [DeleteGet(x.n, snapshot)] && Unattached(x)
    ensures y in R
    ensures var d := x.cloud.disks[x.n];
            y == x.(vm := x.vm.(deletes := [if Marked(d.labels) then DeleteMarked(x.n, snapshot, d.id)
                                            else DeleteMarkGet(x.n, snapshot)]))
  {
    var found := OFound(View(x.vm.cfg, x.cloud.disks[x.n]));
    assert found.disk.users == [] && x.log + [] == x.log;
    y := Deletes(R, x, DeleteGet(x.n, snapshot), QGet(x.n), found, NoEffect);
  }

  /** The update of the labels of disk `d`, as the delete that read it will send it. */
  function Update(n: string, snapshot: bool, d: Disk): Call {
    DeleteSet(n, snapshot, d.id, d.fingerprint, WithDeleting(d.labels))
  }

  /** Looks at an unattached disk and marks it. */
  lemma Marks(R: iset<One>, x: One, snapshot: bool) returns (y: One)
    requires Closed(R) && x in R && x.vm.deletes == [DeleteGet(x.n, snapshot)] && Unattached(x)
    requires !Marked(x.cloud.disks[x.n].labels)
    ensures y in R
    ensures y == x.(cloud := WithMark(x.cloud, x.n),
                    vm := x.vm.(deletes := [DeleteMarked(x.n, snapshot, x.cloud.disks[x.n].id)]))
  {
    var d := x.cloud.disks[x.n];
    var looked := LooksAtDisk(R, x, snapshot);
    var read := Deletes(R, looked, DeleteMarkGet(x.n, snapshot), QGet(x.n), OFound(View(x.vm.cfg, d)), NoEffect);
    assert x.log + [] == x.log;
    y := Deletes(R, read, Update(x.n, snapshot, d), QSetLabels(x.n, d.fingerprint, WithDeleting(d.labels)), ODone, Effect(""));
  }

  /** The Delete request takes effect; it is reported as done, or as to be retried. */
  lemma DeletesDisk(R: iset<One>, x: One, id: nat, o: Outcome) returns (y: One)
    requires Closed(R) && x in R && x.vm.deletes == [DeleteDelete(x.n, false, id)] && Unattached(x) && (o.ODone? || o.ORetry?)
    ensures y in R
    ensures y == x.(cloud := x.cloud.(disks := x.cloud.disks - {x.n}),
                    vm := if o.ODone? then x.vm.(deletes := []) else x.vm,
                    log := x.log + [Deleted(x.n, x.cloud.disks[x.n].id)])
  {
    y := Deletes(R, x, DeleteDelete(x.n, false, id), QDelete(x.n), o, Effect(""));
  }

  // ---- crash and restart ----

  lemma Restarts(R: iset<One>, x: One) returns (y: One)
    requires Closed(R) && x in R
    ensures y in R && y == x.(vm := x.vm.(thread := Some(Booted(x.vm.file)), deletes := [], drift := Drift({}, {}, x.vm.drift.adrift)))
  {
    var down := Do(x, Crash(0));
    y := Do(down, Start(0));
    assert x.log + [] + [] == x.log;
  }

  /** The start-up reconciliation lists the disks and starts the deletes to resume. */
  lemma Lists(R: iset<One>, x: One, ds: seq<Listed>) returns (y: One)
    requires Closed(R) && x in R && x.vm.thread == Some(Booted(x.vm.file)) && x.vm.deletes == []
    requires IsListing(x.vm.cfg, x.cloud, ds)
    ensures y in R && y.n == x.n && y.cloud == x.cloud && y.log == x.log
    ensures y.vm.deletes == [] + Spawned(Resumable(ds))
  {
    var a := Answer(0, OList(ds), NoEffect);
    y := Do(x, a);
    DeleteProtocol.ListAnswerSpawns(x.cloud, x.vm, a);
    assert x.log + [] == x.log;
  }

  lemma OneMarked(cfg: Config, cloud: Cloud, n: string, d: Disk)
    requires cloud.disks == map[n := d] && Managed(d.labels) && Marked(d.labels)
    ensures var ds := [Listed(n, View(cfg, d))];
            IsListing(cfg, cloud, ds) && [] + Spawned(Resumable(ds)) == [DeleteGet(n, false)]
  {
    var l := Listed(n, View(cfg, d));
    assert l in [l] && [l][..0] == [] && Resumable([]) == [];
    assert Resumable([l]) == [Delete(n, false)];
  }

  /** A crash, and the deletion of the marked disk is resumed and completed. */
  lemma DeletesAfterRestart(R: iset<One>, x: One, d: Disk) returns (y: One)
    requires Closed(R) && x in R && x.cloud.disks == map[x.n := d]
    requires Managed(d.labels) && Marked(d.labels) && d.users == []
    ensures y in R && y.log == x.log + [Deleted(x.n, d.id)]
  {
    var up := Restarts(R, x);
    OneMarked(x.vm.cfg, up.cloud, x.n, d);
    var resumed := Lists(R, up, [Listed(x.n, View(x.vm.cfg, d))]);
    var looked := LooksAtDisk(R, resumed, false);
    y := DeletesDisk(R, looked, d.id, ODone);
  }

  // ---- the runs ----

  lemma MarksRemoved(R: iset<One>, cfg: Config, n: string, o: DiskOptions) returns (y: One)
    requires Closed(R) && Fit(cfg, n) && Plain(o) && !Marked(EffectiveLabels(o)) && o.reclaimPolicy == DELETE
    ensures y in R && y.n == n && y.log == [Requested(n, o), Removed(n, DELETE)]
    ensures y.cloud == WithMark(WithDisk(Cloud(map[], 0), n, o), n)
    ensures y.vm == Serving(cfg, NONE, [DeleteMarked(n, o.snapshotOnRemove, 0)])
  {
    var created := CreatesFirst(R, cfg, n, o);
    var removed := Removes(R, created, Fine, o);
    y := Marks(R, removed, o.snapshotOnRemove);
  }

  lemma MarkedAlone(n: string, o: DiskOptions) returns (d: Disk)
    requires Plain(o)
    ensures WithMark(WithDisk(Cloud(map[], 0), n, o), n).disks == map[n := d]
    ensures Managed(d.labels) && Marked(d.labels) && d.users == [] && d.id == 0
  {
    d := WithMark(WithDisk(Cloud(map[], 0), n, o), n).disks[n];
  }

  /** Despite snapshotOnRemove a disk can be deleted without a snapshot: a crash after
      the mark and before the snapshot is enough, since a resumed delete takes none. */
  lemma SnapshotCanBeLost(cfg: Config, n: string, o: DiskOptions) returns (r: Run)
    requires Fit(cfg, n) && Plain(o) && !Marked(EffectiveLabels(o))
    requires o.reclaimPolicy == DELETE && o.snapshotOnRemove
    ensures IsRun(r) && r.states[|r.actions|].log == [Requested(n, o), Removed(n, DELETE), Deleted(n, 0)]
  {
    var R := Reachable();
    var marked := MarksRemoved(R, cfg, n, o);
    var d := MarkedAlone(n, o);
    var deleted := DeletesAfterRestart(R, marked, d);
    r := ReachedIsRun(deleted);
  }

  /** A disk can be deleted although nobody removed it: the user labels it with the
      plugin's own deleting label, and the plugin restarts. */
  lemma LabelledDiskIsDeleted(cfg: Config, n: string, o: DiskOptions) returns (r: Run)
    requires Fit(cfg, n) && Plain(o) && Marked(EffectiveLabels(o))
    ensures IsRun(r) && r.states[|r.actions|].log == [Requested(n, o), Deleted(n, 0)]
  {
    var R := Reachable();
    var created := CreatesFirst(R, cfg, n, o);
    var deleted := DeletesAfterRestart(R, created, created.cloud.disks[n]);
    r := ReachedIsRun(deleted);
  }

  lemma GoneButRetried(R: iset<One>, cfg: Config, n: string, o: DiskOptions) returns (y: One)
    requires Closed(R) && Fit(cfg, n) && Plain(o) && !Marked(EffectiveLabels(o))
    requires o.reclaimPolicy == DELETE && !o.snapshotOnRemove
    ensures y in R
    ensures y == One(n, Cloud(map[], 2), Serving(cfg, NONE, [DeleteDelete(n, false, 0)]),
                     [Requested(n, o), Removed(n, DELETE), Deleted(n, 0)])
  {
    var marked := MarksRemoved(R, cfg, n, o);
    y := DeletesDisk(R, marked, 0, ORetry);
    assert y.cloud.disks == map[];
  }

  /** A delete can hit a disk it never looked at and that was never marked: its request
      took effect behind a retryable error, a Create made the disk anew and recorded
      it, and the repeated request deletes that one. */
  lemma NewDiskIsDeleted(cfg: Config, n: string, o: DiskOptions) returns (r: Run)
    requires Fit(cfg, n) && Plain(o) && !Marked(EffectiveLabels(o))
    requires o.reclaimPolicy == DELETE && !o.snapshotOnRemove
    ensures IsRun(r) && |r.states[|r.actions|].vms| == 1
    ensures var s := r.states[|r.actions|];
            s.log == [Requested(n, o), Removed(n, DELETE), Deleted(n, 0), Requested(n, o), Deleted(n, 2)] &&
            n !in s.cloud.disks && s.vms[0].thread == Some(Thread(map[n := Record(n, o)], Idle(Fine), []))
  {
    var R := Reachable();
    var gone := GoneButRetried(R, cfg, n, o);
    var again := Creates(R, gone, o);
    var deleted := DeletesDisk(R, again, 0, ODone);
    r := ReachedIsRun(deleted);
  }

  // ---- failed persists ----

  lemma RollbackLooks(R: iset<One>, x: One, vols: Vols) returns (y: One)
    requires Closed(R) && x in R && In(x, vols, Calling(KCreateRollback(x.n), DeleteGet(x.n, false))) && Unattached(x)
    requires !Marked(x.cloud.disks[x.n].labels)
    ensures y in R && y == x.(vm := Set(x.vm, vols, Calling(KCreateRollback(x.n), DeleteMarkGet(x.n, false))))
  {
    var k: Kont, found := KCreateRollback(x.n), OFound(View(x.vm.cfg, x.cloud.disks[x.n]));
    assert found.disk.users == [] && x.log + [] == x.log;
    y := Answers(R, x, vols, k, DeleteGet(x.n, false), QGet(x.n), found, NoEffect, DeleteMarkGet(x.n, false),
                 Calling(k, DeleteMarkGet(x.n, false)));
  }

  lemma RollbackReads(R: iset<One>, x: One, vols: Vols) returns (y: One)
    requires Closed(R) && x in R && In(x, vols, Calling(KCreateRollback(x.n), DeleteMarkGet(x.n, false))) && Unattached(x)
    ensures y in R
    ensures y == x.(vm := Set(x.vm, vols, Calling(KCreateRollback(x.n), Update(x.n, false, x.cloud.disks[x.n]))))
  {
    var k: Kont, d := KCreateRollback(x.n), x.cloud.disks[x.n];
    var found, update := OFound(View(x.vm.cfg, d)), Update(x.n, false, d);
    assert x.log + [] == x.log;
    y := Answers(R, x, vols, k, DeleteMarkGet(x.n, false), QGet(x.n), found, NoEffect, update, Calling(k, update));
  }

  lemma RollbackDeletes(R: iset<One>, x: One, vols: Vols) returns (y: One)
    requires Closed(R) && x in R && Unattached(x)
    requires In(x, vols, Calling(KCreateRollback(x.n), Update(x.n, false, x.cloud.disks[x.n])))
    ensures y in R && x.n !in y.cloud.disks && y.vm == Set(x.vm, vols, Idle(Refuse))
  {
    var k: Kont, d := KCreateRollback(x.n), x.cloud.disks[x.n];
    var marked := Answers(R, x, vols, k, Update(x.n, false, d), QSetLabels(x.n, d.fingerprint, WithDeleting(d.labels)),
                          ODone, Effect(""), DeleteDelete(x.n, false, d.id), Calling(k, DeleteDelete(x.n, false, d.id)));
    y := Answers(R, marked, vols, k, DeleteDelete(x.n, false, d.id), QDelete(x.n), ODone, Effect(""), Return(ROk), Idle(Refuse));
  }

  lemma RollsBack(R: iset<One>, x: One, vols: Vols) returns (y: One)
    requires Closed(R) && x in R && In(x, vols, Calling(KCreateRollback(x.n), DeleteGet(x.n, false))) && Unattached(x)
    requires !Marked(x.cloud.disks[x.n].labels)
    ensures y in R && x.n !in y.cloud.disks && y.vm == Set(x.vm, vols, Idle(Refuse))
  {
    var looked := RollbackLooks(R, x, vols);
    var read := RollbackReads(R, looked, vols);
    y := RollbackDeletes(R, read, vols);
  }

  lemma CannotRecord(R: iset<One>, cfg: Config, n: string, o: DiskOptions) returns (y: One)
    requires Closed(R) && Fit(cfg, n) && Plain(o)
    ensures y in R && y.n == n && y.cloud == WithDisk(Cloud(map[], 0), n, o)
    ensures y.vm == Set(Serving(cfg, NONE, []), map[n := Record(n, o)], Calling(KCreateRollback(n), DeleteGet(n, false)))
                      .(faults := {PersistFailed})
  {
    var x := Boots(R, cfg, n);
    var asked := FindsNothing(R, x, NONE, o);
    var made := MakesDisk(R, asked, NONE, o);
    y := FailsToPersist(R, made, NONE, OpAdd(Record(n, o)), SCreate(n));
    assert NONE[n := Record(n, o)] == map[n := Record(n, o)];
  }

  /** After a Create that was refused because its record could not be written, the
      driver still tracks the volume, though its disk is gone and the file does not
      have it. */
  lemma RolledBackStaysTracked(cfg: Config, n: string, o: DiskOptions) returns (r: Run)
    requires Fit(cfg, n) && Plain(o) && !Marked(EffectiveLabels(o))
    ensures IsRun(r) && |r.states[|r.actions|].vms| == 1
    ensures var s := r.states[|r.actions|];
            n !in s.cloud.disks && s.vms[0].file == map[] &&
            s.vms[0].thread == Some(Thread(map[n := Record(n, o)], Idle(Refuse), []))
  {
    var R := Reachable();
    var x := CannotRecord(R, cfg, n, o);
    var undone := RollsBack(R, x, map[n := Record(n, o)]);
    r := ReachedIsRun(undone);
  }

  // ---- a mount that cannot be counted ----

  /** The disk is attached to this VM, and blank. */
  predicate AttachedBlank(x: One) {
    Uses(x.cloud, x.n, x.vm.cfg.instance) && x.cloud.disks[x.n].fs == ""
  }

  lemma Attaches(R: iset<One>, x: One, vols: Vols) returns (y: One)
    requires Closed(R) && x in R && In(x, vols, Idle(Fine)) && x.n in vols && vols[x.n].refCount == 0
    requires Unattached(x) && x.cloud.disks[x.n].fs == ""
    ensures y in R && y.n == x.n && AttachedBlank(y) && y.cloud.disks[x.n].labels == x.cloud.disks[x.n].labels
    ensures y.vm == Set(x.vm, vols, Calling(KMountWait(x.n), WaitDevice(x.n)))
  {
    var k: Kont, found := KMountAttach(x.n), OFound(View(x.vm.cfg, x.cloud.disks[x.n]));
    assert found.disk.users == [];
    var asked := Requests(R, x, vols, Fine, Mount(x.n));
    var free := Answers(R, asked, vols, k, AttachGet(x.n), QGet(x.n), found, NoEffect, AttachAttach(x.n),
                        Calling(k, AttachAttach(x.n)));
    y := Answers(R, free, vols, k, AttachAttach(x.n), QAttach(x.n, x.vm.cfg.instance), ODone, Effect(""), Return(ROk),
                 Calling(KMountWait(x.n), WaitDevice(x.n)));
  }

  lemma Waits(R: iset<One>, x: One, vols: Vols, fs: string) returns (y: One)
    requires Closed(R) && x in R && In(x, vols, Calling(KMountWait(x.n), WaitDevice(x.n)))
    requires x.n in vols && vols[x.n].options.fsType == fs
    ensures y in R && y == x.(vm := Set(x.vm, vols, Calling(KMountFormat(x.n), FormatProbe(x.n, fs))))
  {
    assert x.log + [] == x.log;
    y := Answers(R, x, vols, KMountWait(x.n), WaitDevice(x.n), QDevice(x.n), OBool(true), NoEffect, Return(ROk),
                 Calling(KMountFormat(x.n), FormatProbe(x.n, fs)));
  }

  lemma Formats(R: iset<One>, x: One, vols: Vols, fs: string) returns (y: One)
    requires Closed(R) && x in R && In(x, vols, Calling(KMountFormat(x.n), FormatProbe(x.n, fs)))
    requires KnownFsType(fs) && AttachedBlank(x)
    ensures y in R && y.n == x.n && Uses(y.cloud, x.n, x.vm.cfg.instance)
    ensures y.vm == Set(x.vm, vols, Calling(KMountMount(x.n), MountCheck(x.n)))
  {
    var k: Kont := KMountFormat(x.n);
    var blank := Answers(R, x, vols, k, FormatProbe(x.n, fs), QProbe(x.n), OFs(""), NoEffect, FormatMkfs(x.n, fs),
                         Calling(k, FormatMkfs(x.n, fs)));
    y := Answers(R, blank, vols, k, FormatMkfs(x.n, fs), QMkfs(x.n, fs), ODone, Effect(""), Return(ROk),
                 Calling(KMountMount(x.n), MountCheck(x.n)));
  }

  function Counts(n: string): Control {
    Storing(OpIncRef(n, MountpointFor(n)), SMountNew(n))
  }

  lemma Mounts(R: iset<One>, x: One, vols: Vols) returns (y: One)
    requires Closed(R) && x in R && In(x, vols, Calling(KMountMount(x.n), MountCheck(x.n)))
    requires Uses(x.cloud, x.n, x.vm.cfg.instance) && x.vm.mounts == {}
    ensures y in R && y.n == x.n && y.cloud == x.cloud
    ensures y.vm == Set(x.vm, vols, Counts(x.n)).(mounts := {x.n})
  {
    var k: Kont := KMountMount(x.n);
    var checked := Answers(R, x, vols, k, MountCheck(x.n), QMounted(x.n), OBool(false), NoEffect, MountRun(x.n),
                           Calling(k, MountRun(x.n)));
    y := Answers(R, checked, vols, k, MountRun(x.n), QMount(x.n), ODone, Effect(""), Return(ROk), Counts(x.n));
    assert {} + {x.n} == {x.n};
  }

  lemma MountsFirst(R: iset<One>, cfg: Config, n: string, o: DiskOptions) returns (y: One)
    requires Closed(R) && Fit(cfg, n) && Plain(o)
    ensures y in R && y.n == n && Uses(y.cloud, n, cfg.instance)
    ensures var vols := map[n := Record(n, o)];
            y.vm == Set(Serving(cfg, vols, []), vols, Counts(n)).(mounts := {n})
  {
    var vols := map[n := Record(n, o)];
    var created := CreatesFirst(R, cfg, n, o);
    var attached := Attaches(R, created, vols);
    var there := Waits(R, attached, vols, o.fsType);
    var formatted := Formats(R, there, vols, o.fsType);
    y := Mounts(R, formatted, vols);
  }

  lemma SeesMount(R: iset<One>, x: One, vols: Vols, k: Kont) returns (y: One)
    requires Closed(R) && x in R && In(x, vols, Calling(k, UnmountCheck(x.n))) && x.n in x.vm.mounts
    requires k == KUndoUnmount(x.n) || k == KUnmountUnmount(x.n)
    ensures y in R && y == x.(vm := Set(x.vm, vols, Calling(k, UnmountRun(x.n))))
  {
    assert x.log + [] == x.log;
    y := Answers(R, x, vols, k, UnmountCheck(x.n), QMounted(x.n), OBool(true), NoEffect, UnmountRun(x.n),
                 Calling(k, UnmountRun(x.n)));
  }

  lemma UndoesMount(R: iset<One>, x: One, vols: Vols) returns (y: One)
    requires Closed(R) && x in R && In(x, vols, Calling(KUndoUnmount(x.n), UnmountCheck(x.n))) && x.vm.mounts == {x.n}
    ensures y in R && y.n == x.n
    ensures y.vm == Set(x.vm, vols, Calling(KUndoDetach(x.n), DetachGet(x.n))).(mounts := {}, drift := Drift({x.n}, {}, {}))
  {
    var k: Kont := KUndoUnmount(x.n);
    var mounted := SeesMount(R, x, vols, k);
    y := Hears(R, mounted, vols, k, UnmountRun(x.n), QUmount(x.n), ODone, Effect(""), Return(ROk),
               Calling(KUndoDetach(x.n), DetachGet(x.n)));
    assert {x.n} - {x.n} == {} && {} + {x.n} == {x.n};
  }

  /** The count cannot be written: the mount is undone, the count is not. */
  lemma Unwinds(R: iset<One>, x: One, vols: Vols) returns (y: One)
    requires Closed(R) && x in R && In(x, vols, Calling(KUndoUnmount(x.n), UnmountCheck(x.n))) && x.vm.mounts == {x.n}
    ensures y in R && y.vm == Set(x.vm, vols, Idle(Refuse)).(mounts := {}, drift := Drift({x.n}, {}, {}))
  {
    var unmounted := UndoesMount(R, x, vols);
    y := Hears(R, unmounted, vols, KUndoDetach(x.n), DetachGet(x.n), QGet(x.n), OError, NoEffect, Return(RErr), Idle(Refuse));
  }

  /** The volume with a count that is in memory only. */
  function CountedOnce(n: string, o: DiskOptions): Vols {
    map[n := IncRefd(Record(n, o), MountpointFor(n))]
  }

  /** A mount whose count cannot be written is about to be undone. */
  lemma CannotCount(R: iset<One>, cfg: Config, n: string, o: DiskOptions) returns (y: One)
    requires Closed(R) && Fit(cfg, n) && Plain(o)
    ensures y in R && y.n == n && Uses(y.cloud, n, cfg.instance)
    ensures y.vm == Set(Serving(cfg, map[n := Record(n, o)], []), CountedOnce(n, o), Calling(KUndoUnmount(n), UnmountCheck(n)))
                      .(mounts := {n}, faults := {PersistFailed})
  {
    var x := MountsFirst(R, cfg, n, o);
    var was := map[n := Record(n, o)];
    y := FailsToPersist(R, x, was, OpIncRef(n, MountpointFor(n)), SMountNew(n));
    assert was[n := IncRefd(was[n], MountpointFor(n))] == CountedOnce(n, o);
    assert {} + {PersistFailed} == {PersistFailed};
  }

  /** After a Mount that was refused because its count could not be written, the count
      is 1 and the volume is not mounted: the next Mount will find it in use, and
      reply with a mountpoint that nothing is mounted at. */
  lemma UnwoundStaysCounted(cfg: Config, n: string, o: DiskOptions) returns (r: Run)
    requires Fit(cfg, n) && Plain(o)
    ensures IsRun(r) && |r.states[|r.actions|].vms| == 1
    ensures var vm := r.states[|r.actions|].vms[0];
            vm.mounts == {} && n in vm.drift.lost &&
            vm.thread == Some(Thread(CountedOnce(n, o), Idle(Refuse), []))
  {
    var R := Reachable();
    var x := CannotCount(R, cfg, n, o);
    var undone := Unwinds(R, x, CountedOnce(n, o));
    r := ReachedIsRun(undone);
  }

  // ---- a mounted disk given back ----

  lemma ShownToAttach(cfg: Config, n: string, v: DiskView)
    requires v.users != [] && Refs.SameInstance(v.users[0], Here(cfg))
    ensures After(cfg, AttachGet(n), OFound(v)) == Return(ROk)
  {
  }

  lemma ShownToDetach(cfg: Config, n: string, v: DiskView)
    requires v.users != [] && Refs.SameInstance(v.users[0], Here(cfg))
    ensures After(cfg, DetachGet(n), OFound(v)) == DetachDetach(n)
  {
  }

  /** What both looks show of a disk that is attached here. */
  lemma ShownHere(cfg: Config, n: string, d: Disk)
    requires Refs.SlashFree(cfg.instance) && d.users == [cfg.instance]
    ensures After(cfg, AttachGet(n), OFound(View(cfg, d))) == Return(ROk)
    ensures After(cfg, DetachGet(n), OFound(View(cfg, d))) == DetachDetach(n)
  {
    Attachment.ViewShowsOwner(cfg, d);
    ShownToAttach(cfg, n, View(cfg, d));
    ShownToDetach(cfg, n, View(cfg, d));
  }

  lemma OnlyUser(x: One)
    requires Reached(x) && Uses(x.cloud, x.n, x.vm.cfg.instance)
    ensures x.cloud.disks[x.n].users == [x.vm.cfg.instance]
  {
    var r := ReachedIsRun(x);
    DeleteProtocol.ProtocolledAlways(r, |r.actions|);
    assert DiskOk(x.cloud, x.cloud.disks[x.n]);
  }

  /** The disk is attached here, and to no other VM. */
  predicate AttachedHereOnly(x: One) {
    x.n in x.cloud.disks && x.cloud.disks[x.n].users == [x.vm.cfg.instance] && Refs.SlashFree(x.vm.cfg.instance)
  }

  /** The disk as a look shows it; nothing else changes with the answer. */
  lemma Looks(R: iset<One>, x: One, vols: Vols, k: Kont, c: Call, to: Call, next: Control) returns (y: One)
    requires Closed(R) && x in R && Stands(x, vols, Calling(k, c)) && x.n in x.cloud.disks
    requires c == AttachGet(x.n) || c == DetachGet(x.n)
    requires After(x.vm.cfg, c, OFound(View(x.vm.cfg, x.cloud.disks[x.n]))) == to
    requires !k.KUndoUnmount? && !k.KUnmountUnmount? && !k.KScan?
    requires At(Thread(vols, Calling(k, c), []), to) == Thread(vols, next, [])
    ensures y in R && y == x.(vm := Set(x.vm, vols, next))
  {
    assert x.log + [] == x.log && x.vm.faults + {} == x.vm.faults;
    y := Hears(R, x, vols, k, c, QGet(x.n), OFound(View(x.vm.cfg, x.cloud.disks[x.n])), NoEffect, to, next);
  }

  /** The detach of a failed Mount, while the disk is mounted. */
  lemma GivesBack(R: iset<One>, x: One, vols: Vols, k: Kont) returns (y: One)
    requires Closed(R) && x in R && Stands(x, vols, Calling(k, DetachGet(x.n))) && (k.KMountDetach? || k.KUndoDetach?)
    requires AttachedHereOnly(x) && x.vm.mounts == {x.n} && x.vm.drift.adrift == {}
    ensures y in R && !Uses(y.cloud, x.n, x.vm.cfg.instance)
    ensures y.vm == Set(x.vm, vols, Idle(Refuse)).(drift := x.vm.drift.(adrift := {x.n}))
  {
    ShownHere(x.vm.cfg, x.n, x.cloud.disks[x.n]);
    var found := Looks(R, x, vols, k, DetachGet(x.n), DetachDetach(x.n), Calling(k, DetachDetach(x.n)));
    y := Detaches(R, found, vols, k);
  }

  lemma Detaches(R: iset<One>, x: One, vols: Vols, k: Kont) returns (y: One)
    requires Closed(R) && x in R && Stands(x, vols, Calling(k, DetachDetach(x.n))) && (k.KMountDetach? || k.KUndoDetach?)
    requires Uses(x.cloud, x.n, x.vm.cfg.instance) && x.vm.mounts == {x.n} && x.vm.drift.adrift == {}
    ensures y in R && !Uses(y.cloud, x.n, x.vm.cfg.instance)
    ensures y.vm == Set(x.vm, vols, Idle(Refuse)).(drift := x.vm.drift.(adrift := {x.n}))
  {
    assert x.vm.faults + {} == x.vm.faults && {} + {x.n} == {x.n};
    y := Hears(R, x, vols, k, DetachDetach(x.n), QDetach(x.n, x.vm.cfg.instance), ODone, Effect(""), Return(ROk), Idle(Refuse));
  }

  lemma StrayIfLast(mounts: set<string>, k: Kont, n: string)
    requires k == KUndoUnmount(n) || k == KUnmountUnmount(n)
    ensures DriftAnswered(IN_STEP, mounts, k, UnmountRun(n), Return(RErr), NoEffect) ==
            Drift({}, if k.KUnmountUnmount? then {n} else {}, {})
  {
    assert {} + {n} == {n};
  }

  /** umount fails. */
  lemma StaysMounted(R: iset<One>, x: One, vols: Vols, k: Kont, next: Control) returns (y: One)
    requires Closed(R) && x in R && In(x, vols, Calling(k, UnmountCheck(x.n))) && x.vm.mounts == {x.n}
    requires k == KUndoUnmount(x.n) || k == KUnmountUnmount(x.n)
    requires At(Thread(vols, Calling(k, UnmountRun(x.n)), []), Return(RErr)) == Thread(vols, next, [])
    ensures y in R
    ensures y == x.(vm := Set(x.vm, vols, next).(faults := x.vm.faults + {UnmountFailed},
                                                 drift := Drift({}, if k.KUnmountUnmount? then {x.n} else {}, {})))
  {
    var mounted := SeesMount(R, x, vols, k);
    assert x.log + [] == x.log;
    StrayIfLast(x.vm.mounts, k, x.n);
    y := Hears(R, mounted, vols, k, UnmountRun(x.n), QUmount(x.n), OError, NoEffect, Return(RErr), next);
  }

  /** A counted volume can be mounted without its disk: the count of a first Mount could
      not be written, the unmount of its unwinding failed, and its detach did not. The
      next Mount will find the volume in use, and hand it out. */
  lemma CountedDiskIsGivenBack(cfg: Config, n: string, o: DiskOptions) returns (r: Run)
    requires Fit(cfg, n) && Plain(o)
    ensures IsRun(r) && |r.states[|r.actions|].vms| == 1
    ensures var s := r.states[|r.actions|]; var vm := s.vms[0];
            vm.mounts == {n} && n in vm.drift.adrift && !Uses(s.cloud, n, cfg.instance) &&
            vm.thread == Some(Thread(CountedOnce(n, o), Idle(Refuse), []))
  {
    var R := Reachable();
    var x := CannotCount(R, cfg, n, o);
    OnlyUser(x);
    var mounted := StaysMounted(R, x, CountedOnce(n, o), KUndoUnmount(n), Calling(KUndoDetach(n), DetachGet(n)));
    var detached := GivesBack(R, mounted, CountedOnce(n, o), KUndoDetach(n));
    r := ReachedIsRun(detached);
  }

  // ---- a mount that nobody counts ----

  /** Mounted and counted, once. */
  lemma MountsAndCounts(R: iset<One>, cfg: Config, n: string, o: DiskOptions) returns (y: One)
    requires Closed(R) && Fit(cfg, n) && Plain(o)
    ensures y in R && y.n == n && Uses(y.cloud, n, cfg.instance)
    ensures y.vm == Serving(cfg, CountedOnce(n, o), []).(mounts := {n})
  {
    var x := MountsFirst(R, cfg, n, o);
    var was := map[n := Record(n, o)];
    assert was[n := IncRefd(was[n], MountpointFor(n))] == CountedOnce(n, o) && [] + Spawned([]) == [];
    y := Persists(R, x, was, OpIncRef(n, MountpointFor(n)), SMountNew(n));
  }

  lemma DropsLast(R: iset<One>, x: One, o: DiskOptions) returns (y: One)
    requires Closed(R) && x in R && In(x, CountedOnce(x.n, o), Idle(Fine)) && x.vm.deletes == []
    ensures y in R
    ensures var vols := map[x.n := Record(x.n, o)];
            y == x.(vm := Set(x.vm, vols, Calling(KUnmountUnmount(x.n), UnmountCheck(x.n))).(file := vols))
  {
    var was, vols := CountedOnce(x.n, o), map[x.n := Record(x.n, o)];
    var asked := Requests(R, x, was, Fine, Unmount(x.n));
    assert was[x.n := DecRefd(was[x.n])] == vols && [] + Spawned([]) == [] && x.log + [] == x.log;
    y := Persists(R, asked, was, OpDecRef(x.n), SUnmount(x.n));
  }

  /** The last Unmount, whose umount fails. */
  lemma LeavesStray(R: iset<One>, cfg: Config, n: string, o: DiskOptions) returns (y: One)
    requires Closed(R) && Fit(cfg, n) && Plain(o)
    ensures y in R && y.n == n && Uses(y.cloud, n, cfg.instance)
    ensures var vols := map[n := Record(n, o)];
            y.vm == Set(Serving(cfg, vols, []), vols, Idle(Refuse))
                      .(mounts := {n}, faults := {UnmountFailed}, drift := Drift({}, {n}, {}))
  {
    var x := MountsAndCounts(R, cfg, n, o);
    var dropped := DropsLast(R, x, o);
    y := StaysMounted(R, dropped, map[n := Record(n, o)], KUnmountUnmount(n), Idle(Refuse));
    assert {} + {UnmountFailed} == {UnmountFailed};
  }

  lemma DeviceIsMissing(R: iset<One>, x: One, vols: Vols) returns (y: One)
    requires Closed(R) && x in R && Stands(x, vols, Calling(KMountWait(x.n), WaitDevice(x.n)))
    ensures y in R && y == x.(vm := Set(x.vm, vols, Calling(KMountDetach(x.n), DetachGet(x.n))))
  {
    assert x.log + [] == x.log && x.vm.faults + {} == x.vm.faults;
    y := Hears(R, x, vols, KMountWait(x.n), WaitDevice(x.n), QDevice(x.n), OBool(false), NoEffect, Return(RErr),
               Calling(KMountDetach(x.n), DetachGet(x.n)));
  }

  /** A Mount of a disk that is still attached here, whose device does not show up. */
  lemma FindsNoDevice(R: iset<One>, x: One, vols: Vols, last: Reply) returns (y: One)
    requires Closed(R) && x in R && Stands(x, vols, Idle(last)) && x.n in vols && vols[x.n].refCount == 0
    requires AttachedHereOnly(x)
    ensures y in R && y == x.(vm := Set(x.vm, vols, Calling(KMountDetach(x.n), DetachGet(x.n))))
  {
    var asked := Requests(R, x, vols, last, Mount(x.n));
    assert x.log + [] == x.log;
    ShownHere(x.vm.cfg, x.n, x.cloud.disks[x.n]);
    var here := Looks(R, asked, vols, KMountAttach(x.n), AttachGet(x.n), Return(ROk), Calling(KMountWait(x.n), WaitDevice(x.n)));
    y := DeviceIsMissing(R, here, vols);
  }

  /** A volume that is left mounted by a failed umount loses its disk at the next Mount, if
      that one fails too: its cleanup detaches the disk under the mounted file system. */
  lemma StrayDiskIsGivenBack(cfg: Config, n: string, o: DiskOptions) returns (r: Run)
    requires Fit(cfg, n) && Plain(o)
    ensures IsRun(r) && |r.states[|r.actions|].vms| == 1
    ensures var s := r.states[|r.actions|]; var vm := s.vms[0];
            vm.mounts == {n} && n in vm.drift.stray && n in vm.drift.adrift && !Uses(s.cloud, n, cfg.instance) &&
            vm.thread == Some(Thread(map[n := Record(n, o)], Idle(Refuse), []))
  {
    var R := Reachable();
    var vols := map[n := Record(n, o)];
    var stray := LeavesStray(R, cfg, n, o);
    OnlyUser(stray);
    var failing := FindsNoDevice(R, stray, vols, Refuse);
    var detached := GivesBack(R, failing, vols, KMountDetach(n));
    r := ReachedIsRun(detached);
  }

  // ---- a delete that leaves no mark ----

  /** A Mount fails at the device, and its cleanup cannot look at the disk. */
  lemma StaysAttached(R: iset<One>, cfg: Config, n: string, o: DiskOptions) returns (y: One)
    requires Closed(R) && Fit(cfg, n) && Plain(o)
    ensures y in R && y.n == n && Uses(y.cloud, n, cfg.instance) && y.cloud.disks[n].labels == EffectiveLabels(o)
    ensures var vols := map[n := Record(n, o)]; y.vm == Set(Serving(cfg, vols, []), vols, Idle(Refuse))
  {
    var vols := map[n := Record(n, o)];
    var created := CreatesFirst(R, cfg, n, o);
    var attached := Attaches(R, created, vols);
    var absent := DeviceIsMissing(R, attached, vols);
    y := Answers(R, absent, vols, KMountDetach(n), DetachGet(n), QGet(n), OError, NoEffect, Return(RErr), Idle(Refuse));
  }

  lemma IsRefused(R: iset<One>, x: One, snapshot: bool) returns (y: One)
    requires Closed(R) && x in R && x.vm.deletes == [DeleteGet(x.n, snapshot)]
    requires x.n in x.cloud.disks && x.cloud.disks[x.n].users != []
    ensures y in R && y == x.(vm := x.vm.(deletes := []))
  {
    var d := x.cloud.disks[x.n];
    assert |View(x.vm.cfg, d).users| == |d.users| > 0 && x.log + [] == x.log;
    y := Deletes(R, x, DeleteGet(x.n, snapshot), QGet(x.n), OFound(View(x.vm.cfg, d)), NoEffect);
  }

  /** A failed background delete need not leave the disk marked. The disk is still
      attached after a Mount that failed and could not clean up; the volume is not in
      use and can be removed; the delete finds the disk attached and gives up. In the end
      the disk is there, without a mark, a record or a delete in flight. */
  lemma RefusedDeleteLeavesUnmarked(cfg: Config, n: string, o: DiskOptions) returns (r: Run)
    requires Fit(cfg, n) && Plain(o) && !Marked(EffectiveLabels(o)) && o.reclaimPolicy == DELETE
    ensures IsRun(r) && |r.states[|r.actions|].vms| == 1
    ensures var s := r.states[|r.actions|]; var vm := s.vms[0];
            n in s.cloud.disks && !Marked(s.cloud.disks[n].labels) &&
            vm.file == map[] && vm.thread == Some(Thread(map[], Idle(Fine), [])) && vm.deletes == []
  {
    var R := Reachable();
    var x := StaysAttached(R, cfg, n, o);
    var removed := Removes(R, x, Refuse, o);
    var refused := IsRefused(R, removed, o.snapshotOnRemove);
    r := ReachedIsRun(refused);
  }
}
