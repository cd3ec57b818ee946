/** What a failover may do to the VM that holds a disk: which requests it sends, in which
    order, and when the disk counts as freed. */
module Failovers {
  import opened Options
  import opened Records
  import opened Protocol
  import opened World
  import Refs

  function Count(log: seq<Asked>, q: Query): nat {
    if log == [] then 0 else Count(log[..|log| - 1], q) + if log[|log| - 1].q == q then 1 else 0
  }

  lemma {:induction false} CountConcat(a: seq<Asked>, b: seq<Asked>, q: Query)
    ensures Count(a + b, q) == Count(a, q) + Count(b, q)
  {
    if b == [] {
      assert a + b == a;
    } else {
      assert (a + b)[..|a + b| - 1] == a + b[..|b| - 1];
      CountConcat(a, b[..|b| - 1], q);
    }
  }

  lemma CountOne(a: Asked, q: Query)
    ensures Count([a], q) == if a.q == q then 1 else 0
  {
    assert [a][..0] == [];
  }

  lemma CountTwo(a: Asked, b: Asked, q: Query)
    ensures Count([a], q) == if a.q == q then 1 else 0
    ensures Count([a] + [b], q) == Count([a], q) + if b.q == q then 1 else 0
  {
    CountOne(a, q);
    CountOne(b, q);
    CountConcat([a], [b], q);
  }

  lemma CountThree(a: Asked, b: Asked, c: Asked, q: Query)
    ensures Count([a] + [b] + [c], q) ==
            (if a.q == q then 1 else 0) + (if b.q == q then 1 else 0) + (if c.q == q then 1 else 0)
  {
    CountTwo(a, b, q);
    CountOne(c, q);
    CountConcat([a] + [b], [c], q);
  }

  /** So many polls, each of which found the disk and let the grace period go on. */
  predicate OnlyPolls(log: seq<Asked>, n: string, polls: nat) {
    |log| == 2 * polls &&
    forall i | 0 <= i < polls :: log[2 * i].q == QGet(n) && log[2 * i + 1].q == QGrace
  }

  lemma {:induction false} CountPolls(log: seq<Asked>, n: string, holder: string, polls: nat)
    requires OnlyPolls(log, n, polls)
    ensures Count(log, QGet(n)) == polls && Count(log, QDetach(n, holder)) == 0
  {
    if polls > 0 {
      var front := log[..2 * (polls - 1)];
      CountPolls(front, n, holder, polls - 1);
      assert log[..|log| - 1][..|log| - 2] == front;
      assert log[2 * (polls - 1)].q == QGet(n) && log[2 * (polls - 1) + 1].q == QGrace;
    }
  }

  /** The answer shows the disk, and that the holder is not among its users. */
  predicate Relinquished(cfg: Config, o: Outcome, holder: string) {
    o.OFound? && Refs.Released(o.disk.users, cfg.project, cfg.zone, holder)
  }

  /** The answer shows the disk attached to the holder. */
  predicate StillHeld(cfg: Config, o: Outcome, holder: string) {
    o.OFound? && !Refs.Released(o.disk.users, cfg.project, cfg.zone, holder)
  }

  /** The last three entries: a poll saw the disk still held, the clock was past the
      grace period, and only then was the holder detached by force. */
  predicate ForcedLate(cfg: Config, log: seq<Asked>, n: string, holder: string, since: int, grace: int) {
    var k := |log|;
    k >= 3 &&
    log[k - 3].q == QGet(n) && StillHeld(cfg, log[k - 3].o, holder) &&
    log[k - 2].q == QGrace && log[k - 2].at > since + grace &&
    log[k - 1].q == QDetach(n, holder)
  }

  /** At most one detach, and a late one; and a bounded number of polls. */
  predicate GraceKept(cfg: Config, log: seq<Asked>, n: string, holder: string, since: int, grace: int)
    requires grace >= 0
  {
    Count(log, QDetach(n, holder)) <= 1 &&
    (Count(log, QDetach(n, holder)) == 1 ==> ForcedLate(cfg, log, n, holder, since, grace)) &&
    Count(log, QGet(n)) <= grace / SECOND + 2
  }

  /** How one round of the grace loop ends. */
  datatype Verdict = Gone | Broken | Waiting | TooLate

  function VerdictCall(v: Verdict, n: string, holder: string): Call {
    match v
    case Gone => AttachRefetch(n)
    case Broken => Return(RErr)
    case Waiting => AttachPoll(n, holder)
    case TooLate => AttachForce(n, holder)
  }

  /** The requests of one round: a look at the disk, and unless that ended the loop,
      the decision whether to go on; too late only if the disk was still held and the
      deadline past. */
  predicate Rounded(cfg: Config, round: seq<Asked>, n: string, holder: string, v: Verdict, deadline: int) {
    && 1 <= |round| <= 2
    && round[0].q == QGet(n)
    && (|round| == 2 ==> round[1].q == QGrace)
    && (v.Waiting? ==> |round| == 2)
    && (v.Gone? ==> |round| == 1 && Relinquished(cfg, round[0].o, holder))
    && (v.Broken? ==> |round| == 1 ==> !round[0].o.OFound?)
    && (v.TooLate? ==>
          |round| == 2 && round[1].at > deadline && StillHeld(cfg, round[0].o, holder))
  }

  lemma RoundAdded(log: seq<Asked>, round: seq<Asked>, n: string, polls: nat)
    requires OnlyPolls(log, n, polls) && |round| == 2 && round[0].q == QGet(n) && round[1].q == QGrace
    ensures OnlyPolls(log + round, n, polls + 1)
  {
  }

  lemma Regrouped(a: seq<Asked>, b: seq<Asked>, c: seq<Asked>)
    ensures a + b + c == a + (b + c)
  {
  }

  /** The loop ends without force: after some polls and one last look. */
  lemma EndsUnforced(cfg: Config, log: seq<Asked>, rest: seq<Asked>, n: string, holder: string, polls: nat, since: int, grace: int)
    requires OnlyPolls(log, n, polls) && grace >= 0 && polls * SECOND <= grace + SECOND
    requires 1 <= |rest| <= 2 && rest[0].q == QGet(n) && (|rest| == 2 ==> rest[1].q == QGrace)
    ensures GraceKept(cfg, log + rest, n, holder, since, grace)
  {
    CountPolls(log, n, holder, polls);
    CountConcat(log, rest, QGet(n));
    CountConcat(log, rest, QDetach(n, holder));
    assert rest[..|rest| - 1] == if |rest| == 1 then [] else [rest[0]];
    assert Count([rest[0]], QGet(n)) == 1 && Count([rest[0]], QDetach(n, holder)) == 0 by { assert [rest[0]][..0] == []; }
  }

  /** The loop ends with a forced detach: the last poll saw the disk held, too late. */
  lemma EndsForced(cfg: Config, log: seq<Asked>, round: seq<Asked>, detach: Asked, n: string, holder: string, polls: nat, since: int, grace: int)
    requires OnlyPolls(log, n, polls) && grace >= 0 && polls * SECOND <= grace + SECOND
    requires Rounded(cfg, round, n, holder, TooLate, since + grace) && detach.q == QDetach(n, holder)
    ensures GraceKept(cfg, log + round + [detach], n, holder, since, grace)
  {
    var get, late := round[0], round[1];
    var rest := [get] + [late] + [detach];
    assert log + round + [detach] == log + rest;
    CountPolls(log, n, holder, polls);
    CountConcat(log, rest, QGet(n));
    CountConcat(log, rest, QDetach(n, holder));
    CountThree(get, late, detach, QGet(n));
    CountThree(get, late, detach, QDetach(n, holder));
    var all := log + rest;
    assert all[|all| - 3] == get && all[|all| - 2] == late && all[|all| - 1] == detach;
  }

  /** A whole failover: the holder's state could not be read; or it was down and was
      detached; or it was up, was detached cleanly, and the grace period followed. */
  datatype Failover =
    | Unreadable(read: Asked)
    | HolderDown(read: Asked, only: Asked)
    | HolderUp(read: Asked, clean: Asked, rest: seq<Asked>)

  function LogOf(f: Failover): seq<Asked> {
    match f
    case Unreadable(read) => [read]
    case HolderDown(read, only) => [read] + [only]
    case HolderUp(read, clean, rest) => [read] + [clean] + rest
  }

  /** A missing instance reads as the empty status. */
  function StatusIn(o: Outcome): string {
    if o.OStatus? then o.status else ""
  }

  predicate FailoverKept(cfg: Config, f: Failover, n: string, holder: string, grace: int)
    requires grace >= 0
  {
    f.read.q == QStatus(holder) &&
    match f
    case Unreadable(read) => read.o.OError?
    case HolderDown(read, only) =>
      !read.o.OError? && IsHolderDown(StatusIn(read.o)) && only.q == QDetach(n, holder)
    case HolderUp(read, clean, rest) =>
      !IsHolderDown(StatusIn(read.o)) && clean.q == QDetach(n, holder) &&
      GraceKept(cfg, rest, n, holder, clean.at, grace)
  }

  /** What the grace loop did has freed the disk: a poll found it released, or the forced
      detach was done. */
  predicate LetGo(cfg: Config, tail: seq<Asked>, n: string, holder: string) {
    tail != [] &&
    var last := tail[|tail| - 1];
    (last.q == QGet(n) && Relinquished(cfg, last.o, holder)) || (last.q == QDetach(n, holder) && last.o.ODone?)
  }

  /** The disk is free for this VM. */
  predicate Freed(cfg: Config, f: Failover, n: string, holder: string) {
    match f
    case Unreadable(_) => false
    case HolderDown(_, only) => only.o.ODone?
    case HolderUp(_, clean, rest) => clean.o.ODone? && LetGo(cfg, rest, n, holder)
  }

  /** Which holders count as down: one that is gone, and one whose status is among these.
      Every other one, running, starting or of unknown status, is given a clean detach and
      the grace period. */
  lemma DownByStatus(cfg: Config, f: Failover, n: string, holder: string, grace: int)
    requires grace >= 0 && FailoverKept(cfg, f, n, holder, grace) && Fits(QStatus(holder), f.read.o) && !f.read.o.ORetry?
    ensures f.Unreadable? <==> f.read.o.OError?
    ensures f.HolderDown? <==>
              f.read.o.OMissing? ||
              (f.read.o.OStatus? && f.read.o.status in {"", "TERMINATED", "STOPPED", "STOPPING", "SUSPENDED", "SUSPENDING"})
    ensures f.read.o.OStatus? && f.read.o.status in {"RUNNING", "PROVISIONING", "STAGING", "REPAIRING"} ==> f.HolderUp?
  {
  }

  /** Failover fencing: a down holder gets exactly one detach; an up holder at least one
      and at most two, the second only after a poll saw the disk still held and the
      clock was strictly past the first one plus the grace period; and the number of
      polls is bounded by the grace period. */
  lemma FailoverFenced(cfg: Config, f: Failover, n: string, holder: string, grace: int)
    requires grace >= 0 && FailoverKept(cfg, f, n, holder, grace) && Fits(QStatus(holder), f.read.o) && !f.read.o.ORetry?
    ensures f.HolderDown? <==>
              f.read.o.OMissing? ||
              (f.read.o.OStatus? && f.read.o.status in {"", "TERMINATED", "STOPPED", "STOPPING", "SUSPENDED", "SUSPENDING"})
    ensures var detaches := Count(LogOf(f), QDetach(n, holder));
            match f
            case Unreadable(_) => detaches == 0
            case HolderDown(_, _) => detaches == 1
            case HolderUp(_, clean, _) =>
              1 <= detaches <= 2 && (detaches == 2 ==> ForcedLate(cfg, LogOf(f), n, holder, clean.at, grace))
    ensures Count(LogOf(f), QGet(n)) <= if f.HolderUp? then grace / 1_000_000_000 + 2 else 0
  {
    DownByStatus(cfg, f, n, holder, grace);
    LogCounts(f, QDetach(n, holder));
    LogCounts(f, QGet(n));
    if f.HolderUp? && Count(f.rest, QDetach(n, holder)) == 1 {
      LateBehind(cfg, [f.read] + [f.clean], f.rest, n, holder, f.clean.at, grace);
    }
  }

  lemma LogCounts(f: Failover, q: Query)
    ensures Count(LogOf(f), q) ==
            (if f.read.q == q then 1 else 0) +
            (if f.HolderDown? && f.only.q == q then 1 else 0) +
            (if f.HolderUp? && f.clean.q == q then 1 else 0) + (if f.HolderUp? then Count(f.rest, q) else 0)
  {
    match f
    case Unreadable(read) => CountOne(read, q);
    case HolderDown(read, only) => CountTwo(read, only, q);
    case HolderUp(read, clean, rest) =>
      CountTwo(read, clean, q);
      CountConcat([read] + [clean], rest, q);
  }

  lemma LateBehind(cfg: Config, before: seq<Asked>, log: seq<Asked>, n: string, holder: string, since: int, grace: int)
    requires ForcedLate(cfg, log, n, holder, since, grace)
    ensures ForcedLate(cfg, before + log, n, holder, since, grace)
  {
    var all, k := before + log, |log|;
    assert all[|all| - 3] == log[k - 3] && all[|all| - 2] == log[k - 2] && all[|all| - 1] == log[k - 1];
  }
}
