/** The delete protocol under interleaving: what a mark means, how long it lasts, and
    which disk the Delete request of a run can hit. */
module DeleteProtocol {
  import opened Options
  import opened Records
  import opened Protocol
  import opened Cluster
  import Causality
  import Refs

  // ---- labels over the life of a disk ----

  /** Every label but the deleting one keeps its value; a mark stays. */
  predicate LabelsKept(was: map<string, string>, now: map<string, string>) {
    && (forall k | k in was && k != DELETING_KEY :: k in now && now[k] == was[k])
    && (Marked(was) ==> Marked(now))
  }

  /** What any step may do to the disks: keep a disk, mark it under a new
      fingerprint, drop it, or create one under a new id. */
  ghost predicate DiskEvolves(was: Cloud, now: Cloud, n: string)
    requires n in now.disks
  {
    var d' := now.disks[n];
    if n in was.disks && d'.id == was.disks[n].id then
      var d := was.disks[n];
      LabelsKept(d.labels, d'.labels) &&
      ((d'.fingerprint == d.fingerprint && d'.labels == d.labels) || was.next <= d'.fingerprint)
    else was.next <= d'.id && was.next <= d'.fingerprint
  }

  ghost predicate Evolves(was: Cloud, now: Cloud) {
    was.next <= now.next && forall n | n in now.disks :: DiskEvolves(was, now, n)
  }

  // ---- what a delete in flight knows ----

  /** Past its look at the disk, a delete knows: as long as the fingerprint it read is
      current, the labels it will write are the current ones plus the mark; once
      marked, the incarnation it saw is marked, and any other is a later one. */
  ghost predicate Knows(cloud: Cloud, c: Call) {
    match c
    case DeleteSet(n, _, id, fp, labels) =>
      id < cloud.next && fp < cloud.next &&
      (n in cloud.disks ==> id <= cloud.disks[n].id) &&
      (n in cloud.disks && cloud.disks[n].fingerprint == fp ==>
         cloud.disks[n].id == id && labels == WithDeleting(cloud.disks[n].labels))
    case DeleteSnapshot(n, id) => KnowsMarked(cloud, n, id)
    case DeleteDelete(n, _, id) => KnowsMarked(cloud, n, id)
    case _ => true
  }

  ghost predicate KnowsMarked(cloud: Cloud, n: string, id: nat) {
    id < cloud.next &&
    (n in cloud.disks ==> id <= cloud.disks[n].id) &&
    (n in cloud.disks && cloud.disks[n].id == id ==> Marked(cloud.disks[n].labels))
  }

  ghost predicate VmKnows(cloud: Cloud, vm: Vm) {
    && (vm.thread.Some? && vm.thread.value.ctl.Calling? ==> Knows(cloud, vm.thread.value.ctl.c))
    && (forall j | 0 <= j < |vm.deletes| :: Knows(cloud, vm.deletes[j]))
  }

  ghost predicate Protocolled(s: Sys) {
    CloudOk(s.cloud) && Named(s) && forall i | 0 <= i < |s.vms| :: VmKnows(s.cloud, s.vms[i])
  }

  /** Knowledge outlives whatever the others do. */
  lemma KnowsStays(was: Cloud, now: Cloud, c: Call)
    requires Evolves(was, now) && Knows(was, c)
    ensures Knows(now, c)
  {
    if c.DeleteSet? || c.DeleteSnapshot? || c.DeleteDelete? {
      if c.n in now.disks { assert DiskEvolves(was, now, c.n); }
    }
  }

  /** The fingerprint check makes the label update lose nothing. */
  lemma CloudAfterEvolves(cfg: Config, cloud: Cloud, c: Call, e: Effect, o: Outcome, vm: Vm)
    requires CloudOk(cloud) && Knows(cloud, c) && vm.cfg == cfg && Permits(cloud, vm, Awaits(cfg, c), o, e)
    ensures Evolves(cloud, CloudAfter(cloud, Awaits(cfg, c), e))
  {
  }

  lemma RequestKeepsOk(cloud: Cloud, q: Query, o: Outcome, e: Effect, vm: Vm)
    requires CloudOk(cloud) && Permits(cloud, vm, q, o, e)
    requires q.QAttach? ==> Refs.SlashFree(q.instance)
    ensures CloudOk(CloudAfter(cloud, q, e))
  {
    var cloud' := CloudAfter(cloud, q, e);
    forall n | n in cloud'.disks ensures DiskOk(cloud', cloud'.disks[n]) {
      if n in cloud.disks { assert DiskOk(cloud, cloud.disks[n]); }
      if q.QAttach? && e.Effect? && n == q.n { assert cloud'.disks[n].users == [q.instance]; }
    }
  }

  lemma CloudAfterOk(cfg: Config, cloud: Cloud, c: Call, e: Effect, o: Outcome, vm: Vm)
    requires CloudOk(cloud) && vm.cfg == cfg && Permits(cloud, vm, Awaits(cfg, c), o, e)
    requires Refs.SlashFree(cfg.instance)
    ensures CloudOk(CloudAfter(cloud, Awaits(cfg, c), e))
  {
    RequestKeepsOk(cloud, Awaits(cfg, c), o, e, vm);
  }

  lemma KnowsAfter(cfg: Config, cloud: Cloud, c: Call, e: Effect, o: Outcome, vm: Vm)
    requires CloudOk(cloud) && Knows(cloud, c) && vm.cfg == cfg && Permits(cloud, vm, Awaits(cfg, c), o, e)
    ensures Knows(CloudAfter(cloud, Awaits(cfg, c), e), After(cfg, c, o))
  {
    if DeleteCall(c) && c.n in cloud.disks { assert DiskOk(cloud, cloud.disks[c.n]); }
  }

  /** A call that is just starting knows nothing yet. */
  lemma AfterCallKnows(cloud: Cloud, t: Thread, k: Kont, r: Ret)
    ensures var ctl := AfterCall(t, k, r).ctl; ctl.Calling? ==> Knows(cloud, ctl.c)
  {
  }

  lemma DeletesKnow(was: Cloud, now: Cloud, deletes: seq<Call>, bg: seq<Delete>)
    requires Evolves(was, now) && forall j | 0 <= j < |deletes| :: Knows(was, deletes[j])
    ensures forall j | 0 <= j < |deletes + Spawned(bg)| :: Knows(now, (deletes + Spawned(bg))[j])
  {
    forall j | 0 <= j < |deletes| ensures Knows(now, deletes[j]) { KnowsStays(was, now, deletes[j]); }
  }

  lemma AnswerKnows(cloud: Cloud, vm: Vm, a: Action)
    requires CloudOk(cloud) && VmKnows(cloud, vm) && a.Answer? && CanAct(cloud, vm, a)
    ensures Evolves(cloud, CloudStep(cloud, vm, a))
    ensures VmKnows(CloudStep(cloud, vm, a), VmStep(cloud, vm, a))
  {
    var t, cloud' := vm.thread.value, CloudStep(cloud, vm, a);
    CloudAfterEvolves(vm.cfg, cloud, t.ctl.c, a.e, a.o, vm);
    KnowsAfter(vm.cfg, cloud, t.ctl.c, a.e, a.o, vm);
    var c := After(vm.cfg, t.ctl.c, a.o);
    if c.Return? { AfterCallKnows(cloud', t, t.ctl.k, c.r); }
    DeletesKnow(cloud, cloud', vm.deletes, Moved(vm.cfg, t, MAnswer(a.o)).bg);
  }

  lemma BackgroundKnows(cloud: Cloud, vm: Vm, a: Action)
    requires CloudOk(cloud) && VmKnows(cloud, vm) && a.Background? && CanAct(cloud, vm, a)
    ensures Evolves(cloud, CloudStep(cloud, vm, a))
    ensures VmKnows(CloudStep(cloud, vm, a), VmStep(cloud, vm, a))
  {
    var cloud', c := CloudStep(cloud, vm, a), vm.deletes[a.j];
    CloudAfterEvolves(vm.cfg, cloud, c, a.e, a.o, vm);
    KnowsAfter(vm.cfg, cloud, c, a.e, a.o, vm);
    DeletesKnow(cloud, cloud', vm.deletes, []);
    assert vm.deletes + Spawned([]) == vm.deletes;
    if vm.thread.Some? && vm.thread.value.ctl.Calling? { KnowsStays(cloud, cloud', vm.thread.value.ctl.c); }
  }

  /** An operation that starts or goes on after the store knows nothing of a delete. */
  lemma MoveKnows(cloud: Cloud, vm: Vm, m: Move)
    requires vm.thread.Some? && CanMove(vm.cfg, vm.thread.value, m) && !m.MAnswer?
    ensures var ctl := Moved(vm.cfg, vm.thread.value, m).ctl; ctl.Calling? ==> Knows(cloud, ctl.c)
  {
  }

  lemma QuietKnows(cloud: Cloud, vm: Vm, a: Action)
    requires CloudOk(cloud) && VmKnows(cloud, vm) && !a.Answer? && !a.Background? && CanAct(cloud, vm, a)
    ensures Evolves(cloud, cloud) && VmKnows(cloud, VmStep(cloud, vm, a))
  {
    assert forall n | n in cloud.disks :: DiskEvolves(cloud, cloud, n);
    if a.Request? || a.Persist? {
      var m := if a.Request? then MBegin(a.op) else MStore(a.ok);
      MoveKnows(cloud, vm, m);
      DeletesKnow(cloud, cloud, vm.deletes, Moved(vm.cfg, vm.thread.value, m).bg);
    }
  }

  lemma VmStepKnows(cloud: Cloud, vm: Vm, a: Action)
    requires CloudOk(cloud) && VmKnows(cloud, vm) && CanAct(cloud, vm, a) && Refs.SlashFree(vm.cfg.instance)
    ensures VmKnows(CloudStep(cloud, vm, a), VmStep(cloud, vm, a))
    ensures Evolves(cloud, CloudStep(cloud, vm, a)) && CloudOk(CloudStep(cloud, vm, a))
  {
    match a
    case Answer(_, o, e) =>
      AnswerKnows(cloud, vm, a);
      CloudAfterOk(vm.cfg, cloud, vm.thread.value.ctl.c, e, o, vm);
    case Background(_, j, o, e) =>
      BackgroundKnows(cloud, vm, a);
      CloudAfterOk(vm.cfg, cloud, vm.deletes[j], e, o, vm);
    case _ => QuietKnows(cloud, vm, a);
  }

  lemma StepKeepsProtocolled(s: Sys, a: Action)
    requires Protocolled(s) && CanStep(s, a)
    ensures Protocolled(Step(s, a)) && Evolves(s.cloud, Step(s, a).cloud)
  {
    VmStepKnows(s.cloud, s.vms[a.i], a);
    var s' := Step(s, a);
    forall i | 0 <= i < |s'.vms| ensures VmKnows(s'.cloud, s'.vms[i]) && s'.vms[i].cfg == s.vms[i].cfg {
      if i != a.i {
        var vm := s.vms[i];
        if vm.thread.Some? && vm.thread.value.ctl.Calling? { KnowsStays(s.cloud, s'.cloud, vm.thread.value.ctl.c); }
        forall j | 0 <= j < |vm.deletes| ensures Knows(s'.cloud, vm.deletes[j]) { KnowsStays(s.cloud, s'.cloud, vm.deletes[j]); }
      }
    }
  }

  lemma {:induction false} ProtocolledAlways(r: Run, k: nat)
    requires IsRun(r) && k < |r.states|
    ensures Protocolled(r.states[k])
  {
    if k > 0 {
      ProtocolledAlways(r, k - 1);
      StepKeepsProtocolled(r.states[k - 1], r.actions[k - 1]);
    }
  }

  // ---- the mark over a run ----

  /** A disk that evolves by one step and has an id from before the step was there. */
  lemma WasThere(was: Cloud, now: Cloud, n: string, id: nat)
    requires Evolves(was, now) && n in now.disks && now.disks[n].id == id < was.next
    ensures n in was.disks && was.disks[n].id == id
    ensures LabelsKept(was.disks[n].labels, now.disks[n].labels)
  {
    assert DiskEvolves(was, now, n);
  }

  /** The clouds of a run, and what holds between neighbours. */
  ghost predicate Evolving(cs: seq<Cloud>) {
    (forall k | 0 <= k < |cs| :: CloudOk(cs[k])) &&
    (forall k | 0 <= k < |cs| - 1 :: Evolves(cs[k], cs[k + 1]))
  }

  function Clouds(states: seq<Sys>): seq<Cloud> {
    seq(|states|, k requires 0 <= k < |states| => states[k].cloud)
  }

  lemma CloudsEvolve(r: Run)
    requires IsRun(r)
    ensures Evolving(Clouds(r.states))
  {
    forall k | 0 <= k < |r.states| ensures CloudOk(r.states[k].cloud) { ProtocolledAlways(r, k); }
    forall k | 0 <= k < |r.states| - 1 ensures Evolves(r.states[k].cloud, r.states[k + 1].cloud) {
      ProtocolledAlways(r, k);
      StepKeepsProtocolled(r.states[k], r.actions[k]);
    }
  }

  lemma {:induction false} NextGrows(cs: seq<Cloud>, j: nat, k: nat)
    requires Evolving(cs) && j <= k < |cs|
    ensures cs[j].next <= cs[k].next
  {
    if j < k {
      NextGrows(cs, j, k - 1);
      assert Evolves(cs[k - 1], cs[k - 1 + 1]);
    }
  }

  /** Ids are never reused, so an incarnation seen twice was there all along. */
  lemma {:induction false} LabelsAcross(cs: seq<Cloud>, j: nat, k: nat, n: string)
    requires Evolving(cs) && j <= k < |cs|
    requires n in cs[j].disks && n in cs[k].disks && cs[j].disks[n].id == cs[k].disks[n].id
    ensures LabelsKept(cs[j].disks[n].labels, cs[k].disks[n].labels)
  {
    if j < k {
      assert DiskOk(cs[j], cs[j].disks[n]);
      NextGrows(cs, j, k - 1);
      assert Evolves(cs[k - 1], cs[k - 1 + 1]);
      WasThere(cs[k - 1], cs[k], n, cs[j].disks[n].id);
      LabelsAcross(cs, j, k - 1, n);
    }
  }

  /** Once marked, a disk stays marked and keeps its managed-by label as long as it
      exists: no run unmarks it, no label update loses a label. */
  lemma MarkIsForever(r: Run, j: nat, k: nat, n: string)
    requires IsRun(r) && j <= k < |r.states|
    requires n in r.states[j].cloud.disks && n in r.states[k].cloud.disks
    requires r.states[j].cloud.disks[n].id == r.states[k].cloud.disks[n].id
    ensures Marked(r.states[j].cloud.disks[n].labels) ==> Marked(r.states[k].cloud.disks[n].labels)
    ensures Managed(r.states[j].cloud.disks[n].labels) ==> Managed(r.states[k].cloud.disks[n].labels)
  {
    CloudsEvolve(r);
    LabelsAcross(Clouds(r.states), j, k, n);
  }

  lemma OnlyDeleteRemoves(cfg: Config, cloud: Cloud, c: Call, e: Effect, n: string)
    requires n in cloud.disks && n !in CloudAfter(cloud, Awaits(cfg, c), e).disks
    ensures c.DeleteDelete? && c.n == n
  {
  }

  /** The Delete request that removes a disk comes from a delete that saw some
      incarnation. If that is the one it removes, the disk is marked; otherwise the
      disk was created under the name after the delete had looked. */
  lemma DeletedDiskWasMarked(r: Run, k: nat, n: string) returns (c: Call)
    requires IsRun(r) && k < |r.actions|
    requires n in r.states[k].cloud.disks && n !in r.states[k + 1].cloud.disks
    ensures Acting(r.states[k], r.actions[k]) == Some(c) && c.DeleteDelete? && c.n == n
    ensures c.id <= r.states[k].cloud.disks[n].id
    ensures c.id == r.states[k].cloud.disks[n].id ==> Marked(r.states[k].cloud.disks[n].labels)
  {
    ProtocolledAlways(r, k);
    var a := r.actions[k];
    var vm := r.states[k].vms[a.i];
    c := if a.Answer? then vm.thread.value.ctl.c else vm.deletes[a.j];
    OnlyDeleteRemoves(vm.cfg, r.states[k].cloud, c, a.e, n);
  }

  // ---- one run of DeleteDisk ----

  /** A call after a sequence of answers. */
  function Replay(cfg: Config, c: Call, answers: seq<Outcome>): Call {
    if answers == [] then c
    else After(cfg, Replay(cfg, c, answers[..|answers| - 1]), answers[|answers| - 1])
  }

  /** The answer at position i was a successful snapshot of the disk. */
  predicate SnapshotDone(cfg: Config, c: Call, answers: seq<Outcome>, i: nat, n: string)
    requires i < |answers|
  {
    Awaits(cfg, Replay(cfg, c, answers[..i])) == QSnapshot(n) && answers[i].ODone?
  }

  lemma {:induction false} SnapshotPhases(cfg: Config, n: string, snapshot: bool, answers: seq<Outcome>)
    ensures var start := DeleteGet(n, snapshot); var c := Replay(cfg, start, answers);
            var done := exists i | 0 <= i < |answers| :: SnapshotDone(cfg, start, answers, i, n);
            match c
            case DeleteGet(m, snap) => m == n && snap == snapshot && !done
            case DeleteMarkGet(m, snap) => m == n && snap == snapshot && !done
            case DeleteSet(m, snap, _, _, _) => m == n && snap == snapshot && !done
            case DeleteSnapshot(m, _) => m == n && snapshot && !done
            case DeleteDelete(m, snap, _) => m == n && snap == snapshot && (done <==> snapshot)
            case Return(_) => true
            case _ => false
  {
    if answers != [] {
      var start, front := DeleteGet(n, snapshot), answers[..|answers| - 1];
      SnapshotPhases(cfg, n, snapshot, front);
      assert answers[..|front|] == front;
      forall i | 0 <= i < |front|
        ensures SnapshotDone(cfg, start, answers, i, n) <==> SnapshotDone(cfg, start, front, i, n)
      {
        assert answers[..i] == front[..i];
      }
      assert SnapshotDone(cfg, start, answers, |front|, n) <==>
             Awaits(cfg, Replay(cfg, start, front)) == QSnapshot(n) && answers[|front|].ODone?;
    }
  }

  /** Whatever GCE answers, a delete that gets to its Delete request has had a successful
      snapshot of the same disk exactly if it was started with snapshotFirst. A resumed
      delete is started without. */
  lemma SnapshotPrecedesDelete(cfg: Config, n: string, snapshot: bool, answers: seq<Outcome>)
    requires Awaits(cfg, Replay(cfg, DeleteGet(n, snapshot), answers)).QDelete?
    ensures Awaits(cfg, Replay(cfg, DeleteGet(n, snapshot), answers)) == QDelete(n)
    ensures (exists i | 0 <= i < |answers| :: SnapshotDone(cfg, DeleteGet(n, snapshot), answers, i, n)) <==> snapshot
  {
    SnapshotPhases(cfg, n, snapshot, answers);
  }

  lemma FailedDelete(s: Sys, a: Action, c: Call)
    requires CanStep(s, a) && Protocolled(s) && a.Background? && s.vms[a.i].deletes[a.j] == c && DeleteCall(c)
    requires After(s.vms[a.i].cfg, c, a.o) == Return(RErr) && c.n in Step(s, a).cloud.disks
    ensures c.n in s.cloud.disks
    ensures var was, now := s.cloud.disks[c.n], Step(s, a).cloud.disks[c.n];
            && (Marked(now.labels) <==> Marked(was.labels) || (c.DeleteSet? && a.e.Effect?))
            && ((c.DeleteSnapshot? || c.DeleteDelete?) && now.id == c.id ==> Marked(now.labels))
            && (c.DeleteGet? ==> now == was)
  {
    assert Knows(s.cloud, c);
  }

  /** The last step of a background delete that fails, in every run. The disk is marked
      exactly if it was before the last answer, or that answer is a label update that
      took effect after all; a delete that fails at its look changes nothing. */
  lemma FailedDeleteStep(r: Run, k: nat) returns (c: Call)
    requires IsRun(r) && k < |r.actions| && r.actions[k].Background?
    requires var vm := r.states[k].vms[r.actions[k].i];
             After(vm.cfg, vm.deletes[r.actions[k].j], r.actions[k].o) == Return(RErr)
    ensures c == r.states[k].vms[r.actions[k].i].deletes[r.actions[k].j] && DeleteCall(c)
    ensures c.n in r.states[k + 1].cloud.disks ==> c.n in r.states[k].cloud.disks
    ensures c.n in r.states[k + 1].cloud.disks ==>
              var was, now := r.states[k].cloud.disks[c.n], r.states[k + 1].cloud.disks[c.n];
              && (Marked(now.labels) <==> Marked(was.labels) || (c.DeleteSet? && r.actions[k].e.Effect?))
              && ((c.DeleteSnapshot? || c.DeleteDelete?) && now.id == c.id ==> Marked(now.labels))
              && (c.DeleteGet? ==> now == was)
  {
    var s, a := r.states[k], r.actions[k];
    ProtocolledAlways(r, k);
    Causality.TraceableAlways(r, k);
    assert Causality.VmOk(s.log, s.vms[a.i]);
    c := s.vms[a.i].deletes[a.j];
    if c.n in r.states[k + 1].cloud.disks { FailedDelete(s, a, c); }
  }

  // ---- Create and Reconcile against the mark ----

  /** A Create whose look at GCE falls after the mark adds no record: it waits or refuses. */
  lemma CreateRefusesMarked(s: Sys, a: Action, n: string)
    requires CanStep(s, a) && a.Answer? && n in s.cloud.disks && Marked(s.cloud.disks[n].labels)
    requires var ctl := s.vms[a.i].thread.value.ctl; ctl.k.KCreateGet? && ctl.k.n == n && ctl.c == GetDisk(n)
    ensures var t, t' := s.vms[a.i].thread.value, Step(s, a).vms[a.i].thread.value;
            t'.vols == t.vols && (t'.ctl == t.ctl || t'.ctl == Idle(Refuse))
  {
  }

  lemma {:induction false} ResumableDistinct(ds: seq<Listed>)
    requires forall j, k | 0 <= j < k < |ds| :: ds[j].name != ds[k].name
    ensures forall j, k | 0 <= j < k < |Resumable(ds)| :: Resumable(ds)[j] != Resumable(ds)[k]
  {
    if ds != [] {
      var front, l := ds[..|ds| - 1], ds[|ds| - 1];
      ResumableDistinct(front);
      forall l' | l' in front ensures l'.name != l.name {
        var j :| 0 <= j < |front| && front[j] == l';
        assert ds[j].name != ds[|front|].name;
      }
    }
  }

  /** The listing decides each name one way: resumed if marked, else imported. */
  lemma ListedMarked(cfg: Config, cloud: Cloud, ds: seq<Listed>, n: string)
    requires IsListing(cfg, cloud, ds) && n in cloud.disks && Managed(cloud.disks[n].labels)
    ensures Marked(cloud.disks[n].labels) <==> Delete(n, false) in Resumable(ds)
    ensures Marked(cloud.disks[n].labels) <==> n !in Available(ds)
  {
    var l :| l in ds && l.name == n;
    assert forall l' | l' in ds && l'.name == n :: l'.disk == View(cfg, cloud.disks[n]);
  }

  lemma SpawnedOnce(deletes: seq<Call>, bg: seq<Delete>, d: Delete)
    requires forall j, k | 0 <= j < k < |bg| :: bg[j] != bg[k]
    requires d in bg
    ensures exists j | |deletes| <= j < |deletes + Spawned(bg)| :: (deletes + Spawned(bg))[j] == DeleteGet(d.n, d.snapshot)
    ensures forall i, j | |deletes| <= i < j < |deletes + Spawned(bg)| :: (deletes + Spawned(bg))[i] != (deletes + Spawned(bg))[j]
  {
    var all := deletes + Spawned(bg);
    var j :| 0 <= j < |bg| && bg[j] == d;
    assert all[|deletes| + j] == Spawned(bg)[j];
    forall i, k | |deletes| <= i < k < |all| ensures all[i] != all[k] {
      assert all[i] == Spawned(bg)[i - |deletes|] && all[k] == Spawned(bg)[k - |deletes|];
      assert bg[i - |deletes|] != bg[k - |deletes|];
    }
  }

  lemma ListAnswerSpawns(cloud: Cloud, vm: Vm, a: Action)
    requires CanAct(cloud, vm, a) && a.Answer? && a.o.OList?
    requires vm.thread.value.ctl == Calling(KList, ListManaged) && vm.thread.value.bg == []
    ensures var vm' := VmStep(cloud, vm, a); var ds := a.o.disks;
            vm'.deletes == vm.deletes + Spawned(Resumable(ds)) &&
            vm'.thread.value.ctl == Storing(OpReconcile(Available(ds), ImportTable(ds)), SReconcile)
  {
    assert [] + Resumable(a.o.disks) == Resumable(a.o.disks);
  }

  /** A reconciliation that sees a marked, managed disk resumes its deletion exactly
      once, without a snapshot, and does not import it. */
  lemma ReconcileResumesMarked(cloud: Cloud, vm: Vm, a: Action, n: string)
    requires CanAct(cloud, vm, a) && a.Answer? && a.o.OList?
    requires vm.thread.value.ctl == Calling(KList, ListManaged) && vm.thread.value.bg == []
    requires n in cloud.disks && Marked(cloud.disks[n].labels) && Managed(cloud.disks[n].labels)
    ensures var vm', ds := VmStep(cloud, vm, a), a.o.disks;
            && vm'.deletes == vm.deletes + Spawned(Resumable(ds))
            && (exists j | |vm.deletes| <= j < |vm'.deletes| :: vm'.deletes[j] == DeleteGet(n, false))
            && (forall i, j | |vm.deletes| <= i < j < |vm'.deletes| :: vm'.deletes[i] != vm'.deletes[j])
            && vm'.thread.value.ctl == Storing(OpReconcile(Available(ds), ImportTable(ds)), SReconcile)
            && n !in Available(ds)
  {
    var ds := a.o.disks;
    ListedMarked(vm.cfg, cloud, ds, n);
    ResumableDistinct(ds);
    SpawnedOnce(vm.deletes, Resumable(ds), Delete(n, false));
    ListAnswerSpawns(cloud, vm, a);
  }

  /** A marked disk is not forgotten: over every run, whichever VM restarts, every
      reconciliation after the mark resumes its deletion, exactly once. */
  lemma LaterReconcileResumes(r: Run, j: nat, k: nat, n: string)
    requires IsRun(r) && j <= k < |r.actions|
    requires n in r.states[j].cloud.disks && n in r.states[k].cloud.disks
    requires r.states[j].cloud.disks[n].id == r.states[k].cloud.disks[n].id
    requires Marked(r.states[j].cloud.disks[n].labels) && Managed(r.states[j].cloud.disks[n].labels)
    requires r.actions[k].Answer? && r.actions[k].o.OList?
    requires r.states[k].vms[r.actions[k].i].thread.value.ctl == Calling(KList, ListManaged)
    ensures var was, now := r.states[k].vms[r.actions[k].i].deletes, r.states[k + 1].vms[r.actions[k].i].deletes;
            |was| <= |now| && now[..|was|] == was &&
            (exists i | |was| <= i < |now| :: now[i] == DeleteGet(n, false)) &&
            (forall i, l | |was| <= i < l < |now| :: now[i] != now[l])
  {
    var s, a := r.states[k], r.actions[k];
    MarkIsForever(r, j, k, n);
    Causality.TraceableAlways(r, k);
    assert Causality.VmOk(s.log, s.vms[a.i]);
    ReconcileResumesMarked(s.cloud, s.vms[a.i], a, n);
  }

  /** No Create adopts a disk that is being deleted: over every run, once a disk is marked,
      a Create on any VM that looks it up adds no record and refuses, or looks again. */
  lemma LaterCreateRefuses(r: Run, j: nat, k: nat, n: string)
    requires IsRun(r) && j <= k < |r.actions|
    requires n in r.states[j].cloud.disks && n in r.states[k].cloud.disks
    requires r.states[j].cloud.disks[n].id == r.states[k].cloud.disks[n].id
    requires Marked(r.states[j].cloud.disks[n].labels) && r.actions[k].Answer?
    requires var ctl := r.states[k].vms[r.actions[k].i].thread.value.ctl;
             ctl.k.KCreateGet? && ctl.k.n == n && ctl.c == GetDisk(n)
    ensures r.states[k + 1].vms[r.actions[k].i].thread.Some?
    ensures var t, t' := r.states[k].vms[r.actions[k].i].thread.value, r.states[k + 1].vms[r.actions[k].i].thread.value;
            t'.vols == t.vols && (t'.ctl == t.ctl || t'.ctl == Idle(Refuse))
  {
    MarkIsForever(r, j, k, n);
    CreateRefusesMarked(r.states[k], r.actions[k], n);
  }
}
