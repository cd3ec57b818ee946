/** What a failed background delete leaves behind. A delete is followed through the run by
    its slot among the deletes in flight on its VM, from its look at the disk to the
    request it fails on. */
module FailedDeletes {
  import opened Options
  import opened Records
  import opened Protocol
  import opened Cluster
  import opened DeleteProtocol

  // ---- where a mark comes from ----

  /** The step is an update of the labels of `n` that takes effect, whosever it is and
      whatever is reported. */
  ghost predicate Updates(s: Sys, a: Action, n: string) {
    CanStep(s, a) && Acting(s, a).Some? && a.e.Effect? && Acting(s, a).value.DeleteSet? && Acting(s, a).value.n == n
  }

  lemma UpdateMarks(cloud: Cloud, vm: Vm, c: Call, o: Outcome, e: Effect, n: string)
    requires CloudOk(cloud) && Knows(cloud, c) && Permits(cloud, vm, Awaits(vm.cfg, c), o, e)
    requires var now := CloudAfter(cloud, Awaits(vm.cfg, c), e);
             n in cloud.disks && n in now.disks && cloud.disks[n].id == now.disks[n].id
    ensures var now := CloudAfter(cloud, Awaits(vm.cfg, c), e);
            Marked(now.disks[n].labels) <==>
              Marked(cloud.disks[n].labels) || (e.Effect? && c.DeleteSet? && c.n == n)
  {
  }

  lemma StepMarks(s: Sys, a: Action, n: string)
    requires CanStep(s, a) && Protocolled(s)
    requires n in s.cloud.disks && n in Step(s, a).cloud.disks && s.cloud.disks[n].id == Step(s, a).cloud.disks[n].id
    ensures Marked(Step(s, a).cloud.disks[n].labels) <==> Marked(s.cloud.disks[n].labels) || Updates(s, a, n)
  {
    if Acting(s, a).Some? {
      assert VmKnows(s.cloud, s.vms[a.i]);
      UpdateMarks(s.cloud, s.vms[a.i], Acting(s, a).value, a.o, a.e, n);
    }
  }

  /** Which steps of a run are updates of the labels of `n`. */
  ghost function UpdatesOf(r: Run, n: string): (us: seq<bool>)
    requires |r.states| == |r.actions| + 1
  {
    seq(|r.actions|, l requires 0 <= l < |r.actions| => Updates(r.states[l], r.actions[l], n))
  }

  /** The labels of `n` were updated between two states of the run. */
  ghost predicate UpdatedBetween(r: Run, j: nat, k: nat, n: string)
    requires k < |r.states| == |r.actions| + 1
  {
    exists l: nat | j <= l < k :: UpdatesOf(r, n)[l]
  }

  /** An incarnation that a state has and that an earlier one had, or that is younger
      than everything there was then. */
  lemma {:induction false} SameOrYounger(cs: seq<Cloud>, j: nat, k: nat, n: string)
    requires Evolving(cs) && j <= k < |cs| && n in cs[k].disks
    ensures (n in cs[j].disks && cs[j].disks[n].id == cs[k].disks[n].id) || cs[j].next <= cs[k].disks[n].id
  {
    if j < k {
      assert Evolves(cs[k - 1], cs[k - 1 + 1]) && DiskEvolves(cs[k - 1], cs[k], n);
      if n in cs[k - 1].disks && cs[k - 1].disks[n].id == cs[k].disks[n].id {
        SameOrYounger(cs, j, k - 1, n);
      } else {
        NextGrows(cs, j, k - 1);
      }
    }
  }

  lemma IdsGrow(r: Run, j: nat, k: nat, n: string)
    requires IsRun(r) && j <= k < |r.states| && n in r.states[j].cloud.disks && n in r.states[k].cloud.disks
    ensures r.states[j].cloud.disks[n].id <= r.states[k].cloud.disks[n].id
  {
    CloudsEvolve(r);
    ProtocolledAlways(r, j);
    assert DiskOk(r.states[j].cloud, r.states[j].cloud.disks[n]);
    SameOrYounger(Clouds(r.states), j, k, n);
  }

  /** A disk that is seen twice was there in between. */
  lemma ThereBefore(cs: seq<Cloud>, j: nat, k: nat, n: string)
    requires Evolving(cs) && j < k < |cs| && n in cs[j].disks && n in cs[k].disks && cs[j].disks[n].id == cs[k].disks[n].id
    ensures n in cs[k - 1].disks && cs[k - 1].disks[n].id == cs[k].disks[n].id
  {
    assert DiskOk(cs[j], cs[j].disks[n]);
    NextGrows(cs, j, k - 1);
    assert Evolves(cs[k - 1], cs[k - 1 + 1]);
    WasThere(cs[k - 1], cs[k], n, cs[j].disks[n].id);
  }

  /** The updates in a stretch of a run, one more step of it, and the marks they leave:
      `us` says which steps are updates. */
  lemma {:induction false} MarksFollow(cs: seq<Cloud>, us: seq<bool>, j: nat, k: nat, n: string)
    requires Evolving(cs) && |us| == |cs| - 1 && j <= k < |cs|
    requires n in cs[j].disks && n in cs[k].disks && cs[j].disks[n].id == cs[k].disks[n].id
    requires forall l: nat | l < |us| && n in cs[l].disks && n in cs[l + 1].disks && cs[l].disks[n].id == cs[l + 1].disks[n].id ::
               Marked(cs[l + 1].disks[n].labels) <==> Marked(cs[l].disks[n].labels) || us[l]
    ensures Marked(cs[k].disks[n].labels) <==> Marked(cs[j].disks[n].labels) || exists l: nat | j <= l < k :: us[l]
  {
    if j < k {
      ThereBefore(cs, j, k, n);
      MarksFollow(cs, us, j, k - 1, n);
      assert us[k - 1] || !us[k - 1];
    }
  }

  /** Marks come from label updates and from nothing else, and every update marks. */
  lemma MarkedByUpdates(r: Run, j: nat, k: nat, n: string)
    requires IsRun(r) && j <= k < |r.states| && n in r.states[j].cloud.disks && n in r.states[k].cloud.disks
    requires r.states[j].cloud.disks[n].id == r.states[k].cloud.disks[n].id
    ensures Marked(r.states[k].cloud.disks[n].labels) <==>
              Marked(r.states[j].cloud.disks[n].labels) || UpdatedBetween(r, j, k, n)
  {
    CloudsEvolve(r);
    var cs, us := Clouds(r.states), UpdatesOf(r, n);
    forall l: nat | l < |us| && n in cs[l].disks && n in cs[l + 1].disks && cs[l].disks[n].id == cs[l + 1].disks[n].id
      ensures Marked(cs[l + 1].disks[n].labels) <==> Marked(cs[l].disks[n].labels) || us[l]
    {
      ProtocolledAlways(r, l);
      StepMarks(r.states[l], r.actions[l], n);
    }
    MarksFollow(cs, us, j, k, n);
  }

  // ---- following one delete ----

  /** Where the delete in slot `p` of VM `i` is after a step, if it is still in flight. */
  ghost function Next(s: Sys, a: Action, i: nat, p: nat): Option<nat>
    requires CanStep(s, a)
  {
    if a.i != i then Some(p)
    else if a.Crash? || a.Reboot? then None
    else if a.Background? && After(s.vms[i].cfg, s.vms[i].deletes[a.j], a.o).Return? then
      if a.j < p then Some(p - 1) else if a.j == p then None else Some(p)
    else Some(p)
  }

  lemma NextDelete(s: Sys, a: Action, i: nat, p: nat)
    requires CanStep(s, a) && i < |s.vms| && p < |s.vms[i].deletes| && Next(s, a, i, p).Some?
    ensures var vm, vm' := s.vms[i], Step(s, a).vms[i];
            var q, c := Next(s, a, i, p).value, vm.deletes[p];
            q < |vm'.deletes| && vm'.cfg == vm.cfg &&
            vm'.deletes[q] == if a.Background? && a.i == i && a.j == p then After(vm.cfg, c, a.o) else c
  {
  }

  /** Where the delete that VM `i` had in slot `p` at state `j` is at state `k`. */
  ghost function Slot(r: Run, i: nat, p: nat, j: nat, k: nat): Option<nat>
    requires IsRun(r) && j <= k < |r.states|
    decreases k - j
  {
    if k == j then Some(p) else
      var was := Slot(r, i, p, j, k - 1);
      if was.Some? then Next(r.states[k - 1], r.actions[k - 1], i, was.value) else None
  }

  /** VM `i` makes a step for the delete in slot `p`. */
  ghost predicate Acts(r: Run, k: nat, i: nat, p: nat)
    requires IsRun(r)
  {
    k < |r.actions| && r.actions[k].Background? && r.actions[k].i == i && r.actions[k].j == p
  }

  ghost function CallIn(r: Run, k: nat, i: nat, p: nat): Call
    requires IsRun(r) && Acts(r, k, i, p)
  {
    r.states[k].vms[i].deletes[p]
  }

  /** The delete's first look, which found the disk `d`. */
  ghost predicate LooksAt(r: Run, j: nat, i: nat, p: nat, n: string, d: DiskView)
    requires IsRun(r)
  {
    Acts(r, j, i, p) && CallIn(r, j, i, p).DeleteGet? && CallIn(r, j, i, p).n == n && r.actions[j].o == OFound(d)
  }

  ghost predicate Fails(r: Run, k: nat, i: nat, p: nat)
    requires IsRun(r)
  {
    Acts(r, k, i, p) && After(r.states[k].vms[i].cfg, CallIn(r, k, i, p), r.actions[k].o) == Return(RErr)
  }

  /** What a delete that has looked at `d` may be doing. */
  predicate Looked(c: Call, n: string, d: DiskView) {
    d.users == [] &&
    match c
    case DeleteMarkGet(m, _) => m == n && !Marked(d.labels)
    case DeleteSet(m, _, id, _, _) => m == n && !Marked(d.labels) && d.id <= id
    case DeleteSnapshot(m, id) => m == n && d.id <= id
    case DeleteDelete(m, _, id) => m == n && d.id <= id
    case _ => false
  }

  lemma StaysLooked(cfg: Config, c: Call, o: Outcome, n: string, d: DiskView)
    requires Looked(c, n, d) && Fits(Awaits(cfg, c), o) && !After(cfg, c, o).Return?
    requires o.OFound? ==> d.id <= o.disk.id
    ensures Looked(After(cfg, c, o), n, d)
  {
  }

  lemma FirstLook(cfg: Config, n: string, snapshot: bool, d: DiskView)
    ensures var c := After(cfg, DeleteGet(n, snapshot), OFound(d));
            if d.users != [] then c == Return(RErr) else Looked(c, n, d)
  {
  }

  lemma LookIsTrue(r: Run, k: nat, i: nat, p: nat)
    requires IsRun(r) && Acts(r, k, i, p) && r.actions[k].o.OFound? && DeleteCall(CallIn(r, k, i, p))
    ensures var s, n := r.states[k], CallIn(r, k, i, p).n;
            n in s.cloud.disks && r.actions[k].o.disk == View(s.vms[i].cfg, s.cloud.disks[n])
  {
  }

  /** One step of the delete itself, after its look. */
  lemma ActsLooked(r: Run, j: nat, k: nat, i: nat, p: nat, q: nat, n: string, d: DiskView)
    requires IsRun(r) && j < k && LooksAt(r, j, i, p, n, d) && Acts(r, k, i, q) && Looked(CallIn(r, k, i, q), n, d)
    ensures var c := After(r.states[k].vms[i].cfg, CallIn(r, k, i, q), r.actions[k].o); c.Return? || Looked(c, n, d)
  {
    var o := r.actions[k].o;
    if o.OFound? && !After(r.states[k].vms[i].cfg, CallIn(r, k, i, q), o).Return? {
      LookIsTrue(r, j, i, p);
      LookIsTrue(r, k, i, q);
      IdsGrow(r, j, k, n);
    }
    if !After(r.states[k].vms[i].cfg, CallIn(r, k, i, q), o).Return? {
      StaysLooked(r.states[k].vms[i].cfg, CallIn(r, k, i, q), o, n, d);
    }
  }

  /** As long as it is in flight, a delete past its look does one of these things. */
  lemma {:induction false} FollowsLook(r: Run, j: nat, k: nat, i: nat, p: nat, n: string, d: DiskView)
    requires IsRun(r) && j < k < |r.states| && LooksAt(r, j, i, p, n, d) && Slot(r, i, p, j, k).Some?
    ensures i < |r.states[k].vms| && Slot(r, i, p, j, k).value < |r.states[k].vms[i].deletes|
    ensures Looked(r.states[k].vms[i].deletes[Slot(r, i, p, j, k).value], n, d)
  {
    var was := Slot(r, i, p, j, k - 1);
    assert was.Some?;
    if j < k - 1 { FollowsLook(r, j, k - 1, i, p, n, d); }
    NextDelete(r.states[k - 1], r.actions[k - 1], i, was.value);
    if j == k - 1 {
      FirstLook(r.states[j].vms[i].cfg, n, CallIn(r, j, i, p).snapshot, d);
    } else if Acts(r, k - 1, i, was.value) {
      ActsLooked(r, j, k - 1, i, p, was.value, n, d);
    }
  }

  // ---- what is left ----

  /** A delete that is in flight later did not fail at its look. */
  lemma {:induction false} FirstStaysInFlight(r: Run, j: nat, k: nat, i: nat, p: nat)
    requires IsRun(r) && j < k < |r.states| && Acts(r, j, i, p) && Slot(r, i, p, j, k).Some?
    ensures !After(r.states[j].vms[i].cfg, CallIn(r, j, i, p), r.actions[j].o).Return?
  {
    if j < k - 1 { FirstStaysInFlight(r, j, k - 1, i, p); } else { assert Slot(r, i, p, j, j) == Some(p); }
  }

  /** A look changes nothing. */
  lemma MarkedSinceLook(r: Run, j: nat, k: nat, i: nat, p: nat, n: string, d: DiskView)
    requires IsRun(r) && j < k < |r.states| && LooksAt(r, j, i, p, n, d)
    requires n in r.states[k].cloud.disks && r.states[k].cloud.disks[n].id == d.id
    ensures Marked(r.states[k].cloud.disks[n].labels) <==> Marked(d.labels) || UpdatedBetween(r, j + 1, k, n)
    ensures k == j + 1 ==> r.states[k].cloud.disks[n].labels == d.labels
  {
    LookIsTrue(r, j, i, p);
    assert r.states[j + 1].cloud == r.states[j].cloud;
    MarkedByUpdates(r, j + 1, k, n);
  }

  lemma FailsAfterLook(r: Run, k: nat, i: nat, q: nat, n: string, d: DiskView)
    requires IsRun(r) && Fails(r, k, i, q) && Looked(CallIn(r, k, i, q), n, d)
    requires n in r.states[k + 1].cloud.disks && r.states[k + 1].cloud.disks[n].id == d.id
    ensures var c, labels := CallIn(r, k, i, q), r.states[k + 1].cloud.disks[n].labels;
            && (Marked(d.labels) ==> c.DeleteSnapshot? || c.DeleteDelete?)
            && (c.DeleteSnapshot? || c.DeleteDelete? ==> Marked(labels))
            && (c.DeleteSet? && r.actions[k].e.Effect? ==> Marked(labels))
  {
    ProtocolledAlways(r, k);
    FailedDelete(r.states[k], r.actions[k], CallIn(r, k, i, q));
    assert Knows(r.states[k].cloud, CallIn(r, k, i, q));
  }

  /** What a failed background delete leaves behind, in every run. The delete looked at
      the disk at step `j`, found `d`, and fails at step `k`; the disk is still there.
      It ends up marked if and only if it had the label when the delete looked, or its
      labels have been updated since: by this delete, perhaps behind a retryable error,
      or by another one. If the look found users the delete fails there and then, and
      leaves no mark of its own; one that found the label already fails on its snapshot
      or its Delete request; and one that fails on either of these leaves the mark. */
  lemma FailedDeleteMark(r: Run, j: nat, k: nat, i: nat, p: nat, n: string, d: DiskView) returns (q: nat, c: Call)
    requires IsRun(r) && j <= k && LooksAt(r, j, i, p, n, d)
    requires k < |r.actions| && Slot(r, i, p, j, k).Some? && Fails(r, k, i, Slot(r, i, p, j, k).value)
    requires n in r.states[k + 1].cloud.disks && r.states[k + 1].cloud.disks[n].id == d.id
    ensures Slot(r, i, p, j, k) == Some(q) && c == CallIn(r, k, i, q)
    ensures var labels := r.states[k + 1].cloud.disks[n].labels;
            && (Marked(labels) <==> Marked(d.labels) || UpdatedBetween(r, j + 1, k + 1, n))
            && (d.users != [] <==> j == k)
            && (j == k ==> labels == d.labels)
            && (j < k && Marked(d.labels) ==> c.DeleteSnapshot? || c.DeleteDelete?)
            && (c.DeleteSnapshot? || c.DeleteDelete? ==> Marked(labels))
            && (c.DeleteSet? && r.actions[k].e.Effect? ==> Marked(labels))
  {
    q := Slot(r, i, p, j, k).value;
    c := CallIn(r, k, i, q);
    MarkedSinceLook(r, j, k + 1, i, p, n, d);
    FirstLook(r.states[j].vms[i].cfg, n, CallIn(r, j, i, p).snapshot, d);
    if j < k {
      FollowsLook(r, j, k, i, p, n, d);
      FailsAfterLook(r, k, i, q, n, d);
    }
  }
}
