/** Which incarnation of a disk a Delete request hits. A name may be used again while a
    delete of the disk that had it is still in flight; the log of the run tells the two
    apart. */
module Incarnations {
  import opened Options
  import opened Records
  import opened Protocol
  import opened Cluster
  import DeleteProtocol

  /** The incarnation the delete has looked at is there, or its deletion is on record. */
  ghost predicate Accounted(cloud: Cloud, log: seq<Entry>, n: string, id: nat) {
    (n in cloud.disks && cloud.disks[n].id == id) || Deleted(n, id) in log
  }

  ghost predicate CallAccounted(cloud: Cloud, log: seq<Entry>, c: Call) {
    match c
    case DeleteSet(n, _, id, _, _) => Accounted(cloud, log, n, id)
    case DeleteSnapshot(n, id) => Accounted(cloud, log, n, id)
    case DeleteDelete(n, snapshot, id) =>
      Accounted(cloud, log, n, id) && (snapshot ==> Snapshotted(n, id) in log || Deleted(n, id) in log)
    case _ => true
  }

  ghost predicate VmAccounted(cloud: Cloud, log: seq<Entry>, vm: Vm) {
    && (vm.thread.Some? && vm.thread.value.ctl.Calling? ==> CallAccounted(cloud, log, vm.thread.value.ctl.c))
    && (forall j | 0 <= j < |vm.deletes| :: CallAccounted(cloud, log, vm.deletes[j]))
  }

  /** Deleted incarnations are older than the one that has the name now. */
  ghost predicate OlderAreGone(cloud: Cloud, log: seq<Entry>) {
    forall n, id: nat | Deleted(n, id) in log :: id < cloud.next && (n in cloud.disks ==> id < cloud.disks[n].id)
  }

  ghost predicate AllAccounted(s: Sys) {
    OlderAreGone(s.cloud, s.log) && forall i | 0 <= i < |s.vms| :: VmAccounted(s.cloud, s.log, s.vms[i])
  }

  // ---- what any step keeps ----

  ghost predicate Keeps(was: Cloud, log: seq<Entry>, now: Cloud, log': seq<Entry>) {
    (forall x | x in log :: x in log') &&
    (forall n | n in was.disks :: Accounted(now, log', n, was.disks[n].id))
  }

  lemma RequestKeeps(cloud: Cloud, log: seq<Entry>, vm: Vm, q: Query, o: Outcome, e: Effect)
    requires Permits(cloud, vm, q, o, e)
    ensures Keeps(cloud, log, CloudAfter(cloud, q, e), log + LogOf(cloud, q, e))
  {
    var now, more := CloudAfter(cloud, q, e), LogOf(cloud, q, e);
    forall n | n in cloud.disks ensures Accounted(now, log + more, n, cloud.disks[n].id) {
      if n !in now.disks {
        assert more == [Deleted(n, cloud.disks[n].id)];
        assert (log + more)[|log|] == Deleted(n, cloud.disks[n].id);
      }
    }
  }

  lemma CallStays(was: Cloud, log: seq<Entry>, now: Cloud, log': seq<Entry>, c: Call)
    requires Keeps(was, log, now, log') && CallAccounted(was, log, c)
    ensures CallAccounted(now, log', c)
  {
  }

  lemma RequestKeepsOrder(cloud: Cloud, log: seq<Entry>, vm: Vm, q: Query, o: Outcome, e: Effect)
    requires Permits(cloud, vm, q, o, e) && CloudOk(cloud) && OlderAreGone(cloud, log)
    ensures OlderAreGone(CloudAfter(cloud, q, e), log + LogOf(cloud, q, e))
  {
    var now, more := CloudAfter(cloud, q, e), LogOf(cloud, q, e);
    forall n, id: nat | Deleted(n, id) in log + more ensures id < now.next && (n in now.disks ==> id < now.disks[n].id) {
      if Deleted(n, id) !in log {
        assert more == [Deleted(n, id)] && DiskOk(cloud, cloud.disks[n]);
      }
    }
  }

  /** What a delete learns from the answer it gets. */
  lemma CallGoesOn(cloud: Cloud, log: seq<Entry>, vm: Vm, c: Call, o: Outcome, e: Effect)
    requires Permits(cloud, vm, Awaits(vm.cfg, c), o, e) && CallAccounted(cloud, log, c)
    ensures var q := Awaits(vm.cfg, c);
            CallAccounted(CloudAfter(cloud, q, e), log + LogOf(cloud, q, e), After(vm.cfg, c, o))
  {
    var q := Awaits(vm.cfg, c);
    RequestKeeps(cloud, log, vm, q, o, e);
    CallStays(cloud, log, CloudAfter(cloud, q, e), log + LogOf(cloud, q, e), c);
    if c.DeleteSnapshot? && o.ODone? {
      var x := Snapshotted(c.n, cloud.disks[c.n].id);
      assert LogOf(cloud, q, e) == [x] && (log + [x])[|log|] == x;
    }
  }

  lemma VmStays(was: Cloud, log: seq<Entry>, now: Cloud, log': seq<Entry>, vm: Vm)
    requires Keeps(was, log, now, log') && VmAccounted(was, log, vm)
    ensures VmAccounted(now, log', vm)
  {
    if vm.thread.Some? && vm.thread.value.ctl.Calling? { CallStays(was, log, now, log', vm.thread.value.ctl.c); }
    forall j | 0 <= j < |vm.deletes| ensures CallAccounted(now, log', vm.deletes[j]) {
      CallStays(was, log, now, log', vm.deletes[j]);
    }
  }

  // ---- one step ----

  /** A call that is just starting has looked at nothing yet. */
  lemma ContinuationsAreFresh(cloud: Cloud, log: seq<Entry>, t: Thread, k: Kont, r: Ret)
    ensures var ctl := AfterCall(t, k, r).ctl; ctl.Calling? ==> CallAccounted(cloud, log, ctl.c)
  {
  }

  lemma MovesAreFresh(cloud: Cloud, log: seq<Entry>, cfg: Config, t: Thread, m: Move)
    requires CanMove(cfg, t, m) && !m.MAnswer?
    ensures var ctl := Moved(cfg, t, m).ctl; ctl.Calling? ==> CallAccounted(cloud, log, ctl.c)
  {
  }

  lemma AnswerAccounted(cloud: Cloud, log: seq<Entry>, vm: Vm, a: Action)
    requires VmAccounted(cloud, log, vm) && CanAct(cloud, vm, a) && a.Answer?
    ensures VmAccounted(CloudStep(cloud, vm, a), log + LogStep(cloud, vm, a), VmStep(cloud, vm, a))
  {
    var t, now, log' := vm.thread.value, CloudStep(cloud, vm, a), log + LogStep(cloud, vm, a);
    RequestKeeps(cloud, log, vm, Awaits(vm.cfg, t.ctl.c), a.o, a.e);
    VmStays(cloud, log, now, log', vm);
    CallGoesOn(cloud, log, vm, t.ctl.c, a.o, a.e);
    var c := After(vm.cfg, t.ctl.c, a.o);
    if c.Return? { ContinuationsAreFresh(now, log', t, t.ctl.k, c.r); }
  }

  lemma BackgroundAccounted(cloud: Cloud, log: seq<Entry>, vm: Vm, a: Action)
    requires VmAccounted(cloud, log, vm) && CanAct(cloud, vm, a) && a.Background?
    ensures VmAccounted(CloudStep(cloud, vm, a), log + LogStep(cloud, vm, a), VmStep(cloud, vm, a))
  {
    RequestKeeps(cloud, log, vm, Awaits(vm.cfg, vm.deletes[a.j]), a.o, a.e);
    VmStays(cloud, log, CloudStep(cloud, vm, a), log + LogStep(cloud, vm, a), vm);
    CallGoesOn(cloud, log, vm, vm.deletes[a.j], a.o, a.e);
  }

  lemma QuietAccounted(cloud: Cloud, log: seq<Entry>, vm: Vm, a: Action)
    requires VmAccounted(cloud, log, vm) && CanAct(cloud, vm, a) && !a.Answer? && !a.Background?
    ensures VmAccounted(cloud, log, VmStep(cloud, vm, a))
  {
    if a.Request? { MovesAreFresh(cloud, log, vm.cfg, vm.thread.value, MBegin(a.op)); }
    if a.Persist? { MovesAreFresh(cloud, log, vm.cfg, vm.thread.value, MStore(a.ok)); }
  }

  lemma LogKeeps(cloud: Cloud, log: seq<Entry>, more: seq<Entry>)
    requires forall x | x in more :: !x.Deleted?
    ensures Keeps(cloud, log, cloud, log + more)
    ensures OlderAreGone(cloud, log) ==> OlderAreGone(cloud, log + more)
  {
  }

  lemma OwnStepAccounted(cloud: Cloud, log: seq<Entry>, vm: Vm, a: Action)
    requires VmAccounted(cloud, log, vm) && CanAct(cloud, vm, a)
    ensures VmAccounted(CloudStep(cloud, vm, a), log + LogStep(cloud, vm, a), VmStep(cloud, vm, a))
  {
    match a
    case Answer(_, _, _) => AnswerAccounted(cloud, log, vm, a);
    case Background(_, _, _, _) => BackgroundAccounted(cloud, log, vm, a);
    case _ =>
      QuietAccounted(cloud, log, vm, a);
      LogKeeps(cloud, log, LogStep(cloud, vm, a));
      VmStays(cloud, log, cloud, log + LogStep(cloud, vm, a), VmStep(cloud, vm, a));
  }

  lemma StepKeeps(s: Sys, a: Action)
    requires CanStep(s, a) && CloudOk(s.cloud) && OlderAreGone(s.cloud, s.log)
    ensures Keeps(s.cloud, s.log, Step(s, a).cloud, Step(s, a).log)
    ensures OlderAreGone(Step(s, a).cloud, Step(s, a).log)
  {
    var vm := s.vms[a.i];
    if Acting(s, a).Some? {
      var q := Awaits(vm.cfg, Acting(s, a).value);
      RequestKeeps(s.cloud, s.log, vm, q, a.o, a.e);
      RequestKeepsOrder(s.cloud, s.log, vm, q, a.o, a.e);
    } else {
      LogKeeps(s.cloud, s.log, LogStep(s.cloud, vm, a));
    }
  }

  lemma StepKeepsAccounted(s: Sys, a: Action)
    requires AllAccounted(s) && CanStep(s, a) && CloudOk(s.cloud)
    ensures AllAccounted(Step(s, a))
  {
    StepKeeps(s, a);
    var s' := Step(s, a);
    forall i | 0 <= i < |s.vms| ensures VmAccounted(s'.cloud, s'.log, s'.vms[i]) {
      if i == a.i {
        OwnStepAccounted(s.cloud, s.log, s.vms[i], a);
      } else {
        VmStays(s.cloud, s.log, s'.cloud, s'.log, s.vms[i]);
      }
    }
  }

  // ---- every run ----

  lemma {:induction false} AccountedAlways(r: Run, k: nat)
    requires IsRun(r) && k < |r.states|
    ensures AllAccounted(r.states[k])
  {
    if k > 0 {
      AccountedAlways(r, k - 1);
      DeleteProtocol.ProtocolledAlways(r, k - 1);
      StepKeepsAccounted(r.states[k - 1], r.actions[k - 1]);
    }
  }

  lemma CallOf(s: Sys, a: Action, c: Call)
    requires CanStep(s, a) && AllAccounted(s) && Acting(s, a) == Some(c)
    ensures CallAccounted(s.cloud, s.log, c)
  {
    assert VmAccounted(s.cloud, s.log, s.vms[a.i]);
  }

  /** Exactly when a Delete request goes astray. In every run, the disk it removes is the
      incarnation the delete had looked at if and only if the deletion of that one is
      not on record yet, and then that disk is marked. Otherwise the disk that was looked
      at has been deleted already, behind a retryable error or by another delete, and
      the request hits a later one. */
  lemma DeleteHitsWhatItMarked(r: Run, k: nat, n: string) returns (c: Call)
    requires IsRun(r) && k < |r.actions|
    requires n in r.states[k].cloud.disks && n !in r.states[k + 1].cloud.disks
    ensures Acting(r.states[k], r.actions[k]) == Some(c) && c.DeleteDelete? && c.n == n
    ensures var s := r.states[k]; var d := s.cloud.disks[n];
            && (c.id == d.id <==> Deleted(n, c.id) !in s.log)
            && (c.id == d.id ==> Marked(d.labels))
            && (c.id != d.id ==> c.id < d.id)
  {
    c := DeleteProtocol.DeletedDiskWasMarked(r, k, n);
    AccountedAlways(r, k);
    CallOf(r.states[k], r.actions[k], c);
  }

  /** A delete started with snapshotFirst has a snapshot of the very incarnation it
      removes on record, unless it goes astray. */
  lemma SnapshotOfDeleted(r: Run, k: nat, n: string)
    requires IsRun(r) && k < |r.actions|
    requires n in r.states[k].cloud.disks && n !in r.states[k + 1].cloud.disks
    requires Acting(r.states[k], r.actions[k]).Some?
    requires var c := Acting(r.states[k], r.actions[k]).value;
             c.DeleteDelete? && c.snapshot && Deleted(n, c.id) !in r.states[k].log
    ensures Snapshotted(n, r.states[k].cloud.disks[n].id) in r.states[k].log
  {
    var c := DeleteHitsWhatItMarked(r, k, n);
    AccountedAlways(r, k);
    CallOf(r.states[k], r.actions[k], c);
  }
}
