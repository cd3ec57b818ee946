/** Reference counts are conserved: over every failure-free walk of a driver thread,
    whatever it does to other volumes in between, the count of a volume is what the
    mounts and unmounts make it, and attaches and detaches cancel out to whether it
    is in use. */
module Conservation {
  import opened Options
  import opened Names
  import opened Records
  import opened Protocol

  // ---- failure-free moves ----

  /** The operation is not one that creates or removes `n`, nor a reconciliation. */
  predicate LeavesRecord(op: Op, n: string) {
    match op
    case Create(m, _, _) => m != n
    case Remove(m) => m != n
    case Reconcile => false
    case _ => true
  }

  /** No call fails, every persist succeeds, and `n` stays tracked. */
  predicate Smooth(cfg: Config, t: Thread, m: Move, n: string) {
    match m
    case MBegin(op) => LeavesRecord(op, n)
    case MAnswer(o) => t.ctl.Calling? && After(cfg, t.ctl.c, o) != Return(RErr)
    case MStore(ok) => ok
  }

  // ---- what is under way ----

  predicate Mounting(ctl: Control, n: string) {
    (ctl.Calling? && (ctl.k == KMountAttach(n) || ctl.k == KMountWait(n) || ctl.k == KMountFormat(n) || ctl.k == KMountMount(n))) ||
    (ctl.Storing? && (ctl.sk == SMountNew(n) || (ctl.sk.SMountAgain? && ctl.op.OpIncRef? && ctl.op.n == n)))
  }

  predicate Unmounting(ctl: Control, n: string) {
    ctl.Storing? && ctl.sk == SUnmount(n)
  }

  /** The disk is attached, but the count does not say so (yet, or any more). */
  predicate AttachedUncounted(ctl: Control, n: string) {
    (ctl.Calling? && (ctl.k == KMountWait(n) || ctl.k == KMountFormat(n) || ctl.k == KMountMount(n) ||
                      ctl.k == KUnmountUnmount(n) || ctl.k == KUnmountDetach(n))) ||
    (ctl.Storing? && ctl.sk == SMountNew(n))
  }

  function One(b: bool): int {
    if b then 1 else 0
  }

  /** The count once the operation under way has been counted. */
  function Owed(t: Thread, n: string): int
    requires n in t.vols
  {
    t.vols[n].refCount + One(Mounting(t.ctl, n)) - One(Unmounting(t.ctl, n))
  }

  function Attachments(t: Thread, n: string): int
    requires n in t.vols
  {
    One(t.vols[n].refCount > 0) + One(AttachedUncounted(t.ctl, n))
  }

  /** Where the thread may be, given the count. */
  predicate Consistent(t: Thread, n: string) {
    n in t.vols && t.vols[n].refCount >= 0 && WellFormed(t.ctl) &&
    match t.ctl
    case Idle(_) => true
    case Exited => false
    case Calling(k, _) =>
      !k.KList? && !k.KScan? && !k.KUndoUnmount? && !k.KUndoDetach? && !k.KBackground? &&
      (match k
       case KCreateGet(m, _, _) => m != n
       case KCreateDisk(m, _, _) => m != n
       case _ => AttachedUncounted(t.ctl, n) || k == KMountAttach(n) ==> t.vols[n].refCount == 0)
    case Storing(op, sk) =>
      (match sk
       case SMountNew(m) => m == n ==> t.vols[n].refCount == 0
       case SMountAgain => op.OpIncRef? && op.n == n ==> t.vols[n].refCount > 0
       case SUnmount(m) => m == n ==> t.vols[n].refCount > 0
       case SCreate(m) => m != n
       case SAdopt => op.OpAdd? && op.v.name != n
       case SRemoveRetain => op.OpRemove? && op.n != n
       case SRemoveDelete(m, _) => m != n
       case _ => false)
  }

  // ---- the tally of a walk ----

  datatype Tally = Tally(mounts: int, unmounts: int, attaches: int, detaches: int)

  /** Mounts begun, unmounts begun on a positive count, and AttachDisk and DetachDisk
      calls that have returned, all of volume `n`. */
  function Delta(cfg: Config, t: Thread, m: Move, n: string): Tally
    requires n in t.vols
  {
    var ended := m.MAnswer? && t.ctl.Calling? && After(cfg, t.ctl.c, m.o).Return?;
    Tally(One(m == MBegin(Mount(n))),
          One(m == MBegin(Unmount(n)) && t.vols[n].refCount > 0),
          One(ended && t.ctl.k == KMountAttach(n)),
          One(ended && t.ctl.k == KUnmountDetach(n)))
  }

  /** One failure-free move keeps the books. */
  ghost predicate Kept(cfg: Config, t: Thread, m: Move, n: string)
    requires CanMove(cfg, t, m) && n in t.vols
  {
    var t', d := Moved(cfg, t, m), Delta(cfg, t, m, n);
    Consistent(t', n) &&
    Owed(t', n) == Owed(t, n) + d.mounts - d.unmounts &&
    Attachments(t', n) == Attachments(t, n) + d.attaches - d.detaches
  }

  lemma BeginKeeps(cfg: Config, t: Thread, op: Op, n: string)
    requires Consistent(t, n) && CanMove(cfg, t, MBegin(op)) && LeavesRecord(op, n)
    ensures Kept(cfg, t, MBegin(op), n)
  {
    MovedWellFormed(cfg, t, MBegin(op));
  }

  lemma StoreKeeps(cfg: Config, t: Thread, n: string)
    requires Consistent(t, n) && CanMove(cfg, t, MStore(true))
    ensures Kept(cfg, t, MStore(true), n)
  {
    MovedWellFormed(cfg, t, MStore(true));
  }

  /** Serving calls other than the look-up of a Create return nothing but success or failure. */
  lemma EndsWell(cfg: Config, k: Kont, c: Call, o: Outcome)
    requires Belongs(k, c) && !k.KList? && !k.KScan? && !k.KCreateGet?
    requires After(cfg, c, o).Return? && After(cfg, c, o).r != RErr
    ensures After(cfg, c, o).r.ROk?
  {
  }

  /** A call that ends well. */
  lemma ReturnKeeps(t: Thread, r: Ret, n: string)
    requires Consistent(t, n) && t.ctl.Calling? && (r.ROk? || t.ctl.k.KCreateGet?)
    ensures var t' := AfterCall(t, t.ctl.k, r);
            t'.vols == t.vols && (WellFormed(t'.ctl) ==> Consistent(t', n)) &&
            Owed(t', n) == Owed(t, n) &&
            Attachments(t', n) ==
              Attachments(t, n) + One(t.ctl.k == KMountAttach(n)) - One(t.ctl.k == KUnmountDetach(n))
  {
  }

  lemma AnswerKeeps(cfg: Config, t: Thread, o: Outcome, n: string)
    requires Consistent(t, n) && CanMove(cfg, t, MAnswer(o)) && Smooth(cfg, t, MAnswer(o), n)
    ensures Kept(cfg, t, MAnswer(o), n)
  {
    MovedWellFormed(cfg, t, MAnswer(o));
    var c := After(cfg, t.ctl.c, o);
    if c.Return? {
      if !t.ctl.k.KCreateGet? { EndsWell(cfg, t.ctl.k, t.ctl.c, o); }
      ReturnKeeps(t, c.r, n);
    } else {
      assert Moved(cfg, t, MAnswer(o)) == t.(ctl := Calling(t.ctl.k, c));
    }
  }

  lemma MoveKeeps(cfg: Config, t: Thread, m: Move, n: string)
    requires Consistent(t, n) && CanMove(cfg, t, m) && Smooth(cfg, t, m, n)
    ensures Kept(cfg, t, m, n)
  {
    match m
    case MBegin(op) => BeginKeeps(cfg, t, op, n);
    case MAnswer(o) => AnswerKeeps(cfg, t, o, n);
    case MStore(_) => StoreKeeps(cfg, t, n);
  }

  /** The walk is failure-free for `n` and starts between operations. */
  ghost predicate SmoothWalk(cfg: Config, threads: seq<Thread>, moves: seq<Move>, n: string) {
    && IsWalk(cfg, threads, moves)
    && threads[0].ctl.Idle? && Consistent(threads[0], n)
    && forall k | 0 <= k < |moves| :: Smooth(cfg, threads[k], moves[k], n)
  }

  /** The tally of the first k moves; a state without a record of `n` adds nothing. */
  function TallyOf(cfg: Config, threads: seq<Thread>, moves: seq<Move>, n: string, k: nat): Tally
    requires k <= |moves| && |threads| == |moves| + 1
  {
    if k == 0 then Tally(0, 0, 0, 0)
    else
      var sum, t := TallyOf(cfg, threads, moves, n, k - 1), threads[k - 1];
      if n !in t.vols then sum
      else
        var d := Delta(cfg, t, moves[k - 1], n);
        Tally(sum.mounts + d.mounts, sum.unmounts + d.unmounts, sum.attaches + d.attaches, sum.detaches + d.detaches)
  }

  lemma {:induction false} BooksKept(cfg: Config, threads: seq<Thread>, moves: seq<Move>, n: string, k: nat)
    requires SmoothWalk(cfg, threads, moves, n) && k <= |moves|
    ensures var sum := TallyOf(cfg, threads, moves, n, k);
            && Consistent(threads[k], n)
            && Owed(threads[k], n) == Owed(threads[0], n) + sum.mounts - sum.unmounts
            && Attachments(threads[k], n) == Attachments(threads[0], n) + sum.attaches - sum.detaches
  {
    if k > 0 {
      BooksKept(cfg, threads, moves, n, k - 1);
      assert IsMove(cfg, threads[k - 1], moves[k - 1], threads[k - 1 + 1]);
      MoveKeeps(cfg, threads[k - 1], moves[k - 1], n);
    }
  }

  /** Conservation. Whenever the thread is between operations, the count of `n` is the
      initial one plus the mounts minus the unmounts that found it positive; and the
      disk has been attached once more than detached, or as often, exactly as the
      volume has come into use, gone out of it, or neither. */
  lemma CountsAreConserved(cfg: Config, threads: seq<Thread>, moves: seq<Move>, n: string, k: nat)
    requires SmoothWalk(cfg, threads, moves, n) && k <= |moves| && threads[k].ctl.Idle?
    ensures n in threads[k].vols
    ensures var sum := TallyOf(cfg, threads, moves, n, k);
            var before, after := threads[0].vols[n].refCount, threads[k].vols[n].refCount;
            after == before + sum.mounts - sum.unmounts &&
            One(before > 0) + sum.attaches - sum.detaches == One(after > 0)
  {
    BooksKept(cfg, threads, moves, n, k);
  }
}
