/** What a refused operation leaves behind. Create, Remove and Mount change the records
    in one store operation, which acts on memory before it acts on the file: they are all
    or nothing exactly as long as no persist fails. A refused Mount gives its disk back, and
    a start-up that cannot write its records does not serve. */
module Refusals {
  import opened Options
  import opened Names
  import opened Records
  import opened Protocol

  // ---- walks of a single operation ----

  /** The operation gets past its look at the records: the volume to be created is not
      tracked, the one to be mounted is, the one to be removed is, and is not in use. */
  predicate Proceeds(vols: Vols, op: Op) {
    match op
    case Create(n, _, _) => n !in vols
    case Mount(n) => n in vols
    case Remove(n) => n in vols && vols[n].refCount <= 0
    case _ => false
  }

  /** The one store operation by which it changes the records. */
  function Change(op: Op): StoreOp
    requires op.Create? || op.Mount? || op.Remove?
  {
    match op
    case Create(n, options, stamp) => OpAdd(NewRecord(n, options, stamp))
    case Mount(n) => OpIncRef(n, MountpointFor(n))
    case Remove(n) => OpRemove(n)
  }

  /** The thread goes through this operation, from idle, and begins no other. */
  ghost predicate OneOperation(cfg: Config, threads: seq<Thread>, moves: seq<Move>, op: Op) {
    && IsWalk(cfg, threads, moves)
    && threads[0].ctl.Idle? && |moves| > 0 && moves[0] == MBegin(op)
    && forall k | 1 <= k < |moves| :: !moves[k].MBegin?
  }

  ghost predicate PersistFails(moves: seq<Move>, k: nat)
    requires k <= |moves|
  {
    exists j | 0 <= j < k :: moves[j] == MStore(false)
  }

  // ---- where the operation may stand ----

  predicate Working(op: Op, k: Kont) {
    match op
    case Create(n, options, stamp) => k == KCreateGet(n, options, stamp) || k == KCreateDisk(n, options, stamp)
    case Mount(n) =>
      k == KMountAttach(n) || k == KMountWait(n) || k == KMountFormat(n) || k == KMountMount(n) || k == KMountDetach(n)
    case _ => false
  }

  predicate Undoing(op: Op, k: Kont) {
    match op
    case Create(n, _, _) => k == KCreateRollback(n)
    case Mount(n) => k == KUndoUnmount(n) || k == KUndoDetach(n)
    case _ => false
  }

  predicate Changing(op: Op, sk: StoreKont) {
    match op
    case Create(n, _, _) => sk == SCreate(n) || sk == SAdopt
    case Mount(n) => sk == SMountAgain || sk == SMountNew(n)
    case Remove(n) => sk == SRemoveRetain || (sk.SRemoveDelete? && sk.n == n)
    case _ => false
  }

  /** Before the change the records are as they were; afterwards they are changed, and
      either the operation has succeeded or the change was not persisted. */
  predicate OnCourse(before: Vols, op: Op, t: Thread, failed: bool)
    requires Proceeds(before, op)
  {
    var after := Apply(before, Change(op));
    match t.ctl
    case Idle(reply) =>
      (reply.Fine? ==> !failed) && t.vols == if reply.Fine? || failed then after else before
    case Calling(k, c) =>
      Belongs(k, c) &&
      if failed then t.vols == after && Undoing(op, k) else t.vols == before && Working(op, k)
    case Storing(change, sk) => !failed && t.vols == before && change == Change(op) && Changing(op, sk)
    case Exited => false
  }

  lemma BeginsOnCourse(t: Thread, op: Op)
    requires Proceeds(t.vols, op)
    ensures OnCourse(t.vols, op, t.(ctl := Begin(t.vols, op)), false)
  {
  }

  lemma ResumesOnCourse(before: Vols, op: Op, t: Thread, r: Ret, failed: bool)
    requires Proceeds(before, op) && OnCourse(before, op, t, failed) && t.ctl.Calling?
    ensures OnCourse(before, op, AfterCall(t, t.ctl.k, r), failed)
  {
  }

  lemma AnswerOnCourse(cfg: Config, before: Vols, op: Op, t: Thread, o: Outcome, failed: bool)
    requires Proceeds(before, op) && OnCourse(before, op, t, failed) && CanMove(cfg, t, MAnswer(o))
    ensures OnCourse(before, op, Moved(cfg, t, MAnswer(o)), failed)
  {
    var c := After(cfg, t.ctl.c, o);
    AfterKeepsBelongs(cfg, t.ctl.k, t.ctl.c, o);
    if c.Return? { ResumesOnCourse(before, op, t, c.r, failed); }
  }

  lemma StoreOnCourse(cfg: Config, before: Vols, op: Op, t: Thread, ok: bool)
    requires Proceeds(before, op) && OnCourse(before, op, t, false) && CanMove(cfg, t, MStore(ok))
    ensures OnCourse(before, op, Moved(cfg, t, MStore(ok)), !ok)
  {
  }

  lemma {:induction false} StaysOnCourse(cfg: Config, threads: seq<Thread>, moves: seq<Move>, op: Op, k: nat)
    requires OneOperation(cfg, threads, moves, op) && Proceeds(threads[0].vols, op) && 1 <= k <= |moves|
    ensures OnCourse(threads[0].vols, op, threads[k], PersistFails(moves, k))
  {
    var before, t, m := threads[0].vols, threads[k - 1], moves[k - 1];
    assert IsMove(cfg, threads[k - 1], moves[k - 1], threads[k - 1 + 1]);
    if k == 1 {
      BeginsOnCourse(t, op);
    } else {
      StaysOnCourse(cfg, threads, moves, op, k - 1);
      var failed := PersistFails(moves, k - 1);
      match m
      case MBegin(_) =>
      case MAnswer(o) => AnswerOnCourse(cfg, before, op, t, o, failed);
      case MStore(ok) => StoreOnCourse(cfg, before, op, t, ok);
      assert PersistFails(moves, k) <==> failed || m == MStore(false);
    }
  }

  lemma ChangeIsSeen(vols: Vols, op: Op)
    requires Proceeds(vols, op)
    ensures Apply(vols, Change(op)) != vols
  {
    var after := Apply(vols, Change(op));
    match op
    case Create(n, _, _) => assert n in after && n !in vols;
    case Mount(n) => assert after[n].refCount == vols[n].refCount + 1;
    case Remove(n) => assert n !in after && n in vols;
    case _ =>
  }

  /** Exactly when a refused operation leaves a trace. Over every walk that is one Create,
      Mount or Remove past its look at the records: a success has changed the records and
      persisted them; a refusal has changed them if and only if a persist failed on the
      way, and then by the very record, count or removal that was refused. */
  lemma RefusedLeavesTraceIffPersistFailed(cfg: Config, threads: seq<Thread>, moves: seq<Move>, op: Op)
    requires OneOperation(cfg, threads, moves, op) && Proceeds(threads[0].vols, op) && threads[|moves|].ctl.Idle?
    ensures var before, t := threads[0].vols, threads[|moves|]; var after := Apply(before, Change(op));
            && (t.ctl.last.Fine? ==> t.vols == after && !PersistFails(moves, |moves|))
            && (t.ctl.last.Refuse? ==> (t.vols != before <==> PersistFails(moves, |moves|)))
            && (t.vols != before ==> t.vols == after)
  {
    StaysOnCourse(cfg, threads, moves, op, |moves|);
    ChangeIsSeen(threads[0].vols, op);
  }

  // ---- what a refused Mount gives back ----

  /** Attached, and neither counted nor on the way to being given back. */
  predicate Holding(ctl: Control, n: string) {
    match ctl
    case Calling(k, _) => k == KMountWait(n) || k == KMountFormat(n) || k == KMountMount(n) || k == KUndoUnmount(n)
    case Storing(_, sk) => sk == SMountNew(n)
    case _ => false
  }

  /** DetachDisk is called. */
  predicate GivesBack(ctl: Control, n: string) {
    ctl == Calling(KMountDetach(n), DetachGet(n)) || ctl == Calling(KUndoDetach(n), DetachGet(n))
  }

  lemma HoldsOrGivesBack(cfg: Config, t: Thread, m: Move, n: string)
    requires CanMove(cfg, t, m) && Holding(t.ctl, n)
    ensures var ctl := Moved(cfg, t, m).ctl; Holding(ctl, n) || GivesBack(ctl, n) || ctl == Idle(Fine)
  {
  }

  lemma {:induction false} HoldsSoFar(cfg: Config, threads: seq<Thread>, moves: seq<Move>, n: string, k: nat)
    requires IsWalk(cfg, threads, moves) && Holding(threads[0].ctl, n) && k <= |moves|
    requires forall m | m in moves :: !m.MBegin?
    ensures (exists i | 0 <= i <= k :: GivesBack(threads[i].ctl, n)) || Holding(threads[k].ctl, n) || threads[k].ctl == Idle(Fine)
  {
    if k > 0 {
      HoldsSoFar(cfg, threads, moves, n, k - 1);
      assert IsMove(cfg, threads[k - 1], moves[k - 1], threads[k - 1 + 1]) && !moves[k - 1].MBegin?;
      if Holding(threads[k - 1].ctl, n) {
        HoldsOrGivesBack(cfg, threads[k - 1], moves[k - 1], n);
      }
    }
  }

  /** Every Mount past a successful AttachDisk that is refused has called DetachDisk first:
      whichever step failed, over every walk from the wait for the device to the reply. */
  lemma RefusedMountGivesBack(cfg: Config, threads: seq<Thread>, moves: seq<Move>, n: string) returns (i: nat)
    requires IsWalk(cfg, threads, moves) && threads[0].ctl == Calling(KMountWait(n), WaitDevice(n))
    requires (forall m | m in moves :: !m.MBegin?) && threads[|moves|].ctl == Idle(Refuse)
    ensures i < |moves| && GivesBack(threads[i].ctl, n)
  {
    HoldsSoFar(cfg, threads, moves, n, |moves|);
    i :| 0 <= i <= |moves| && GivesBack(threads[i].ctl, n);
  }

  // ---- what a start-up that serves has persisted ----

  /** A plugin that serves has written the reconciled records and the reset counts: over
      every walk that comes to an idle state, neither of the two was a failure. */
  lemma StartupNeedsItsRecords(cfg: Config, threads: seq<Thread>, moves: seq<Move>, k: nat)
    requires IsWalk(cfg, threads, moves) && threads[|moves|].ctl.Idle? && k < |moves|
    requires threads[k].ctl.Storing? && (threads[k].ctl.sk.SReconcile? || threads[k].ctl.sk.SReset?)
    ensures moves[k] == MStore(true)
  {
    assert IsMove(cfg, threads[k], moves[k], threads[k + 1]);
    if k + 1 < |moves| { assert IsMove(cfg, threads[k + 1], moves[k + 1], threads[k + 2]); }
  }
}
