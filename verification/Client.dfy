/** The GCE client: every operation as the source performs it, on top of the retry
    loop. Each is proved to be a run of its call automaton. */
module Client {
  import opened Options
  import opened Names
  import opened Records
  import opened Protocol
  import opened World
  import opened Failovers
  import opened Requests
  import Refs

  // ---- the retry loop ----

  /** Times are nanoseconds. */
  datatype Backoff = Backoff(initial: int, max: int, multiplier: real, maxElapsed: int)

  predicate ValidBackoff(b: Backoff) {
    0 <= b.initial && 0 <= b.max && 0.0 <= b.multiplier
  }

  const DEFAULT_BACKOFF := Backoff(500 * MILLISECOND, 30 * SECOND, 2.0, 120 * SECOND)

  function Min(a: int, b: int): int {
    if a < b then a else b
  }

  function Pow2(k: nat): nat {
    if k == 0 then 1 else 2 * Pow2(k - 1)
  }

  /** How the loop ended: with an answer; with the first error that is not worth a
      retry; giving up after a number of attempts, with the last error; or cancelled. */
  datatype Retried =
    | Answered(o: Outcome)
    | Definite(e: ApiError)
    | Exhausted(attempts: nat, last: ApiError)
    | Cancelled

  /** What the caller makes of it. */
  function OutcomeOf(q: Query, r: Retried): Outcome {
    match r
    case Answered(o) => o
    case Definite(e) => Heard(q, Bad(e))
    case Exhausted(_, _) => OError
    case Cancelled => OError
  }

  predicate Repeatable(raw: Raw) {
    raw.Bad? && IsRetryable(raw.e)
  }

  /** The first k entries are attempts at `q` that met a retryable error. */
  predicate Retries(tail: seq<Sent>, q: Query, k: nat)
    requires k <= |tail|
  {
    forall i | 0 <= i < k :: tail[i].q == q && Repeatable(tail[i].raw)
  }

  /** The loop ends this way at an attempt with this result, after so many attempts. */
  predicate EndsAs(raw: Raw, r: Retried, attempts: nat) {
    match r
    case Answered(o) => raw == Good(o)
    case Definite(e) => raw == Bad(e) && !IsRetryable(e)
    case Exhausted(n, last) => raw == Bad(last) && IsRetryable(last) && n == attempts
    case Cancelled => Repeatable(raw)
  }

  lemma OutcomeIsFinal(q: Query, raw: Raw, r: Retried, attempts: nat)
    requires EndsAs(raw, r, attempts) && Proper(q, raw)
    ensures var o := OutcomeOf(q, r);
            Fits(q, o) && !o.ORetry? && (Heard(q, raw) == o || (o.OError? && Heard(q, raw) == ORetry))
    ensures OutcomeOf(q, r).OMissing? <==> r == Definite(Http(404)) && Fits(q, OMissing)
  {
  }

  /** What the world saw of the attempts: all but the last met a retryable error, and
      the last one decided how the loop ended. */
  predicate SeenAs(tail: seq<Sent>, q: Query, r: Retried) {
    && |tail| >= 1
    && Retries(tail, q, |tail| - 1)
    && tail[|tail| - 1].q == q
    && EndsAs(tail[|tail| - 1].raw, r, |tail|)
  }

  /** Which errors are worth another attempt, by status and by code; and which one ends a
      loop at once. */
  lemma RetriedByCode(tail: seq<Sent>, q: Query, r: Retried)
    requires SeenAs(tail, q, r)
    ensures forall i | 0 <= i < |tail| - 1 ::
              tail[i].raw.Bad? && !tail[i].raw.e.Unclassified? &&
              (tail[i].raw.e.Http? ==> tail[i].raw.e.status in {429, 500, 502, 503, 504}) &&
              (tail[i].raw.e.Grpc? ==> tail[i].raw.e.code in {Unavailable, ResourceExhausted, Aborted, Internal})
    ensures r.Definite? && r.e.Http? ==> r.e.status !in {429, 500, 502, 503, 504}
    ensures r.Definite? && r.e.Grpc? ==> r.e.code !in {Unavailable, ResourceExhausted, Aborted, Internal}
  {
  }

  /** The interval multiplied, rounded to a whole number and capped. */
  function Grown(b: Backoff, interval: int): int {
    Min((interval as real * b.multiplier).Floor, b.max)
  }

  /** The interval in force at the k-th sleep, counting from 0. */
  function Interval(b: Backoff, k: nat): int {
    if k == 0 then b.initial else Grown(b, Interval(b, k - 1))
  }

  lemma GrownIsProper(b: Backoff, interval: int)
    requires ValidBackoff(b) && 0 <= interval
    ensures 0 <= Grown(b, interval) <= b.max
  {
    assert interval as real * b.multiplier >= 0.0;
  }

  lemma TimesPow2(i: int, k: nat)
    requires k > 0
    ensures i * Pow2(k) == 2 * (i * Pow2(k - 1))
  {
  }

  lemma GrownDoubles(b: Backoff, interval: int)
    requires b.multiplier == 2.0
    ensures Grown(b, interval) == Min(2 * interval, b.max)
  {
    assert interval as real * 2.0 == (2 * interval) as real;
  }

  /** With multiplier 2, in closed form: the first interval doubled k times, up to the cap. */
  lemma {:induction false} IntervalClosed(b: Backoff, k: nat)
    requires ValidBackoff(b) && b.multiplier == 2.0 && b.initial <= b.max
    ensures Interval(b, k) == Min(b.initial * Pow2(k), b.max)
  {
    if k > 0 {
      IntervalClosed(b, k - 1);
      GrownDoubles(b, Interval(b, k - 1));
      TimesPow2(b.initial, k);
    }
  }

  predicate SleepsBounded(b: Backoff, sleeps: seq<int>) {
    forall k | 0 <= k < |sleeps| :: 0 <= sleeps[k] <= Interval(b, k)
  }

  /** The intervals in force with the default: half a second, doubled each time, up to half
      a minute. */
  lemma DefaultIntervals(k: nat)
    ensures ValidBackoff(DEFAULT_BACKOFF)
    ensures Interval(DEFAULT_BACKOFF, k) == Min(500_000_000 * Pow2(k), 30_000_000_000)
  {
    IntervalClosed(DEFAULT_BACKOFF, k);
  }

  /** The loop before attempt k: how long it has run, and how long it had when it last
      looked at the clock. */
  predicate Paced(b: Backoff, k: nat, interval: int, elapsed: int, checked: int) {
    && 0 <= checked <= elapsed
    && (if k == 0 then elapsed == 0 else checked < b.maxElapsed)
    && (b.initial <= b.max ==> interval <= b.max && (k > 0 ==> elapsed < b.maxElapsed + b.max))
  }

  lemma PaceKept(b: Backoff, k: nat, interval: int, elapsed: int, sleep: int)
    requires ValidBackoff(b) && 0 <= elapsed < b.maxElapsed && 0 <= sleep <= interval
    requires b.initial <= b.max ==> interval <= b.max
    ensures Paced(b, k + 1, Grown(b, interval), elapsed + sleep, elapsed)
  {
    GrownIsProper(b, interval);
  }

  lemma SleepAdded(b: Backoff, sleeps: seq<int>, sleep: int)
    requires SleepsBounded(b, sleeps) && 0 <= sleep <= Interval(b, |sleeps|)
    requires ValidBackoff(b) && 0 <= Interval(b, |sleeps|)
    ensures SleepsBounded(b, sleeps + [sleep])
    ensures 0 <= Interval(b, |sleeps| + 1) == Grown(b, Interval(b, |sleeps|))
  {
    GrownIsProper(b, Interval(b, |sleeps|));
  }

  /** The loop before one more attempt, after the attempts in `tail`. */
  predicate Looping(b: Backoff, q: Query, tail: seq<Sent>, sleeps: seq<int>, interval: int, elapsed: int, checked: int) {
    && ValidBackoff(b)
    && Retries(tail, q, |tail|)
    && |sleeps| == |tail| && SleepsBounded(b, sleeps)
    && interval == Interval(b, |tail|) >= 0
    && Paced(b, |tail|, interval, elapsed, checked)
  }

  /** One more attempt, which met a retryable error at a time `at` since the start. */
  lemma LoopGoesOn(b: Backoff, q: Query, tail: seq<Sent>, sleeps: seq<int>, interval: int, elapsed: int, checked: int,
                   a: Sent, at: int, sleep: int)
    requires Looping(b, q, tail, sleeps, interval, elapsed, checked)
    requires a.q == q && Repeatable(a.raw) && elapsed < at < b.maxElapsed && 0 <= sleep <= interval
    ensures Looping(b, q, tail + [a], sleeps + [sleep], Grown(b, interval), at + sleep, at)
  {
    SleepAdded(b, sleeps, sleep);
    PaceKept(b, |tail|, interval, at, sleep);
  }

  /** One more attempt, which ends the loop. */
  lemma LoopEnds(b: Backoff, q: Query, tail: seq<Sent>, sleeps: seq<int>, interval: int, elapsed: int, checked: int,
                 a: Sent, r: Retried)
    requires Looping(b, q, tail, sleeps, interval, elapsed, checked)
    requires a.q == q && EndsAs(a.raw, r, |tail| + 1)
    ensures SeenAs(tail + [a], q, r) && |sleeps| == |tail + [a]| - 1 && SleepsBounded(b, sleeps)
    ensures if tail == [] then elapsed == 0 else b.initial <= b.max ==> elapsed < b.maxElapsed + b.max
  {
  }

  lemma Appended(asked: seq<Sent>, tail: seq<Sent>, a: Sent)
    ensures asked + tail + [a] == asked + (tail + [a])
  {
  }

  lemma DetachDecides(cfg: Config, n: string, d: DiskView)
    ensures After(cfg, DetachGet(n), OFound(d)) == if AttachedHere(cfg, d.users) then DetachDetach(n) else Return(ROk)
  {
  }

  class Client {
    const w: World
    const backoff: Backoff
    const forceDetachAfter: int

    constructor (w: World, backoff: Backoff, forceDetachAfter: int)
      requires ValidBackoff(backoff) && forceDetachAfter >= 0
      ensures this.w == w && this.backoff == backoff && this.forceDetachAfter == forceDetachAfter
    {
      this.w, this.backoff, this.forceDetachAfter := w, backoff, forceDetachAfter;
    }

    /** The thread is in this call. */
    ghost predicate In(c: Call)
      reads w
    {
      w.Valid() && w.caller.ctl.Calling? && w.call == c && ValidBackoff(backoff) && forceDetachAfter >= 0
    }

    /** The thread is in a call that has this request outstanding. */
    ghost predicate Awaiting(q: Query)
      reads w
    {
      In(w.call) && Awaits(w.cfg, w.call) == q != QNothing && Fits(q, ORetry)
    }

    /** Still within the same call of the driver, and no command has been run. */
    twostate predicate Kept()
      reads w
    {
      w.Kept() && w.ran == old(w.ran)
    }

    /** Exactly this request has been brought to an end. */
    twostate predicate Ended(a: Asked)
      reads w
    {
      w.settled == old(w.settled) + [a] && w.first == if old(w.first).None? then Some(a) else old(w.first)
    }

    /** The outstanding request may end the way the loop has ended. */
    ghost predicate MayEndAs(q: Query, r: Retried)
      reads w
    {
      Fits(q, OutcomeOf(q, r)) && !OutcomeOf(q, r).ORetry? && w.MayEnd(OutcomeOf(q, r)) &&
      (OutcomeOf(q, r).OMissing? <==> r == Definite(Http(404)) && Fits(q, OMissing))
    }

    /** Sleeps for a random time of up to an interval, unless cancelled. */
    method Pause(interval: int) returns (cancelled: bool, ghost sleep: int)
      requires w.Valid() && interval >= 0
      modifies w`now, w`stopped
      ensures w.Valid() && 0 <= sleep <= interval && w.now == old(w.now) + if cancelled then 0 else sleep
      ensures cancelled ==> w.stopped
    {
      var d :| 0 <= d <= interval;
      sleep := d;
      cancelled := w.Cancelled();
      if !cancelled {
        w.Sleep(d);
      }
    }

    /** Sends the request once, and decides whether that was the last time. */
    method Attempt(q: Query, start: int, attempt: nat) returns (ended: Option<Retried>, ghost a: Sent)
      requires Awaiting(q) && start <= w.now
      modifies w
      ensures w.Pending() && w.now > old(w.now)
      ensures w.asked == old(w.asked) + [a] && a.q == q && a.at == w.now && Proper(q, a.raw) && w.heard == Some(Heard(q, a.raw))
      ensures match ended
              case Some(r) => EndsAs(a.raw, r, attempt + 1) && !r.Cancelled? && (r.Exhausted? ==> w.now - start >= backoff.maxElapsed)
              case None => Repeatable(a.raw) && w.now - start < backoff.maxElapsed
    {
      var raw := w.Ask(q);
      a := Sent(q, raw, w.now);
      if raw.Good? {
        ended := Some(Answered(raw.o));
      } else if !IsRetryable(raw.e) {
        ended := Some(Definite(raw.e));
      } else if w.now - start >= backoff.maxElapsed {
        ended := Some(Exhausted(attempt + 1, raw.e));
      } else {
        ended := None;
      }
    }

    /** One round of the retry loop: an attempt and, if it is to be repeated, a pause. */
    method Try(q: Query, start: int, attempt: nat, interval: int)
      returns (ended: Option<Retried>, ghost a: Sent, ghost sleep: int)
      requires Awaiting(q) && start <= w.now && interval >= 0
      modifies w
      ensures w.Pending()
      ensures w.asked == old(w.asked) + [a] && a.q == q
      ensures old(w.now) < a.at <= w.now
      ensures match ended
              case Some(r) => EndsAs(a.raw, r, attempt + 1) && MayEndAs(q, r) &&
                              (r.Cancelled? ==> w.stopped) && (r.Exhausted? ==> w.now - start >= backoff.maxElapsed)
              case None => Repeatable(a.raw) && a.at - start < backoff.maxElapsed && 0 <= sleep <= interval && w.now == a.at + sleep
    {
      sleep := 0;
      ended, a := Attempt(q, start, attempt);
      if ended.None? {
        var cancelled;
        cancelled, sleep := Pause(interval);
        if cancelled {
          ended := Some(Cancelled);
        }
      }
      if ended.Some? {
        OutcomeIsFinal(q, a.raw, ended.value, attempt + 1);
      }
    }

    /** Exponential backoff with full jitter: sends the request until an answer or an
        error is final, the time is up, or the context is cancelled. Returns the attempts
        as the world saw them, the sleeps between, and when the last attempt started. */
    method Retry(q: Query)
      returns (r: Retried, ghost tail: seq<Sent>, ghost sleeps: seq<int>, ghost lastStart: int)
      requires Awaiting(q)
      modifies w
      ensures w.Pending()
      ensures w.asked == old(w.asked) + tail && SeenAs(tail, q, r) && MayEndAs(q, r)
      ensures r.Exhausted? ==> w.now - old(w.now) >= backoff.maxElapsed
      ensures r.Cancelled? ==> w.stopped
      ensures |sleeps| == |tail| - 1 && SleepsBounded(backoff, sleeps)
      ensures |tail| == 1 ==> lastStart == old(w.now)
      ensures |tail| > 1 && backoff.initial <= backoff.max ==>
                lastStart - old(w.now) < backoff.maxElapsed + backoff.max
    {
      var start := w.now;
      var interval := backoff.initial;
      var attempt := 0;
      ghost var checked := 0;
      sleeps, tail := [], [];
      while true
        invariant w.Pending()
        invariant w.asked == old(w.asked) + tail && |tail| == attempt
        invariant Looping(backoff, q, tail, sleeps, interval, w.now - start, checked)
        decreases backoff.maxElapsed - checked
      {
        lastStart := w.now;
        var ended, a, sleep := Try(q, start, attempt, interval);
        Appended(old(w.asked), tail, a);
        if ended.Some? {
          LoopEnds(backoff, q, tail, sleeps, interval, lastStart - start, checked, a, ended.value);
          return ended.value, tail + [a], sleeps, lastStart;
        }
        LoopGoesOn(backoff, q, tail, sleeps, interval, lastStart - start, checked, a, a.at - start, sleep);
        tail, sleeps, checked := tail + [a], sleeps + [sleep], a.at - start;
        interval := Grown(backoff, interval);
        attempt := attempt + 1;
      }
    }

    /** One request, repeated as needed and settled, on the record: it ends with the answer,
        with the first definite error, or, exhausted or cancelled, with an error. */
    method Send(q: Query) returns (o: Outcome, ghost r: Retried, ghost tail: seq<Sent>)
      requires Awaiting(q)
      modifies w
      ensures Kept() && Fits(q, o) && !o.ORetry?
      ensures w.call == After(w.cfg, old(w.call), o)
      ensures Ended(Asked(q, o, w.now))
      ensures w.asked == old(w.asked) + tail && SeenAs(tail, q, r) && o == OutcomeOf(q, r)
      ensures o.OMissing? <==> r == Definite(Http(404)) && Fits(q, OMissing)
      ensures r.Exhausted? ==> w.now - old(w.now) >= backoff.maxElapsed
      ensures r.Cancelled? ==> w.stopped
    {
      var ended, seen, _, _ := Retry(q);
      r, tail := ended, seen;
      o := OutcomeOf(q, ended);
      w.Settle(o);
    }

    method Call(q: Query) returns (o: Outcome)
      requires Awaiting(q)
      modifies w
      ensures Kept() && Fits(q, o) && !o.ORetry?
      ensures w.call == After(w.cfg, old(w.call), o) && Ended(Asked(q, o, w.now))
    {
      var answer, _, _ := Send(q);
      o := answer;
    }

    // ---- disks ----

    method GetDisk(n: string) returns (o: Outcome)
      requires Awaiting(QGet(n))
      modifies w
      ensures Kept() && (o.OFound? || o.OMissing? || o.OError?)
      ensures w.call == After(w.cfg, old(w.call), o) && Ended(Asked(QGet(n), o, w.now))
    {
      o := Call(QGet(n));
    }

    /** Sends the insertion with the effective labels. */
    method InsertDisk(n: string, options: DiskOptions) returns (ok: bool, ghost request: Asked)
      requires In(CreateInsert(n, options))
      modifies w
      ensures Kept() && w.call == if ok then CreateRead(n) else Return(RErr)
      ensures w.settled == old(w.settled) + [request] && request.q == QInsert(n, options, EffectiveLabels(options))
      ensures ok <==> request.o.ODone?
    {
      var labels := BuildEffectiveLabels(options);
      var o := Call(QInsert(n, options, labels));
      request := Asked(QInsert(n, options, labels), o, w.now);
      ok := o.ODone?;
    }

    /** Inserts the disk and reads it back. */
    method InsertAndRead(n: string, options: DiskOptions) returns (r: Ret, ghost requests: seq<Asked>)
      requires In(CreateInsert(n, options))
      modifies w
      ensures Kept() && (r.ROk? || r.RErr?) && w.settled == old(w.settled) + requests && w.call == Return(r)
      ensures r.ROk? <==> CreatedBy(requests, n, options)
    {
      var ok, insertion := InsertDisk(n, options);
      requests := [insertion];
      if !ok {
        return RErr, requests;
      }
      var o := GetDisk(n);
      ghost var reading := Asked(QGet(n), o, w.now);
      Regrouped(old(w.settled), requests, [reading]);
      requests := requests + [reading];
      r := if o.OFound? then ROk else RErr;
    }

    /** Creates the disk with the managed-by label and reads it back. A name that GCE would
        not accept is refused without a request. */
    method CreateDisk(n: string, options: DiskOptions) returns (r: Ret, ghost requests: seq<Asked>)
      requires ValidDiskName(n) ==> In(CreateInsert(n, options))
      requires !ValidDiskName(n) ==> w.Valid()
      modifies w
      ensures Kept() && (r.ROk? || r.RErr?) && w.settled == old(w.settled) + requests
      ensures if ValidDiskName(n) then w.call == Return(r) else r.RErr? && w.call == old(w.call) && requests == []
      ensures r.ROk? <==> CreatedBy(requests, n, options)
    {
      requests := [];
      if !ValidDiskName(n) {
        return RErr, requests;
      }
      r, requests := InsertAndRead(n, options);
    }

    /** Sets the deleting label, keeping all others, under the fingerprint read. */
    method MarkDeleting(n: string, snapshot: bool)
      returns (ok: bool, ghost id: nat, ghost read: Asked, ghost mark: Option<Asked>)
      requires In(DeleteMarkGet(n, snapshot))
      modifies w
      ensures Kept()
      ensures w.call == if ok then DeleteMarked(n, snapshot, id) else Return(RErr)
      ensures w.settled == old(w.settled) + ([read] + Maybe(mark)) && Marking(n, read, mark)
      ensures ok <==> mark.Some? && mark.value.o.ODone?
    {
      var o := GetDisk(n);
      id, read, mark := 0, Asked(QGet(n), o, w.now), None;
      if !o.OFound? {
        return false, id, read, mark;
      }
      id := o.disk.id;
      var labels := CopyLabels(o.disk.labels);
      labels := labels[DELETING_KEY := "true"];
      ok, mark := SetLabels(n, o.disk.fingerprint, labels, snapshot, id);
      Regrouped(old(w.settled), [read], Maybe(mark));
    }

    /** Copies the labels one by one. */
    static method CopyLabels(from: map<string, string>) returns (labels: map<string, string>)
      ensures labels == from
    {
      labels := map[];
      var todo := from.Keys;
      while todo != {}
        invariant todo <= from.Keys
        invariant labels == map k | k in from.Keys - todo :: from[k]
        decreases todo
      {
        var k :| k in todo;
        labels := labels[k := from[k]];
        todo := todo - {k};
      }
    }

    method SetLabels(n: string, fingerprint: nat, labels: map<string, string>, ghost snapshot: bool, ghost id: nat)
      returns (ok: bool, ghost mark: Option<Asked>)
      requires In(DeleteSet(n, snapshot, id, fingerprint, labels))
      modifies w
      ensures Kept() && w.call == if ok then DeleteMarked(n, snapshot, id) else Return(RErr)
      ensures mark.Some? && mark.value.q == QSetLabels(n, fingerprint, labels) && w.settled == old(w.settled) + Maybe(mark)
      ensures ok <==> mark.value.o.ODone?
    {
      var done := Call(QSetLabels(n, fingerprint, labels));
      mark := Some(Asked(QSetLabels(n, fingerprint, labels), done, w.now));
      ok := done.ODone?;
    }

    method SnapshotDisk(n: string, ghost id: nat) returns (ok: bool, ghost snap: Option<Asked>)
      requires In(DeleteSnapshot(n, id))
      modifies w
      ensures Kept() && w.call == if ok then DeleteDelete(n, true, id) else Return(RErr)
      ensures snap.Some? && snap.value.q == QSnapshot(n) && w.settled == old(w.settled) + Maybe(snap)
      ensures ok <==> snap.value.o.ODone?
    {
      var o := Call(QSnapshot(n));
      snap := Some(Asked(QSnapshot(n), o, w.now));
      ok := o.ODone?;
    }

    method SendDelete(n: string, ghost snapshot: bool, ghost id: nat) returns (r: Ret, ghost delete: Option<Asked>)
      requires In(DeleteDelete(n, snapshot, id))
      modifies w
      ensures Kept() && w.call == Return(r) && (r.ROk? || r.RErr?)
      ensures delete.Some? && delete.value.q == QDelete(n) && w.settled == old(w.settled) + Maybe(delete)
      ensures r.ROk? <==> delete.value.o.ODone? || delete.value.o.OMissing?
    {
      var d := Call(QDelete(n));
      delete := Some(Asked(QDelete(n), d, w.now));
      r := if d.ODone? || d.OMissing? then ROk else RErr;
    }

    /** The disk is marked: a snapshot first if asked for, and only then the deletion. */
    method FinishDelete(n: string, snapshot: bool, ghost id: nat)
      returns (r: Ret, ghost snap: Option<Asked>, ghost delete: Option<Asked>)
      requires In(DeleteMarked(n, snapshot, id))
      modifies w
      ensures Kept() && w.call == Return(r) && (r.ROk? || r.RErr?)
      ensures w.settled == old(w.settled) + (Maybe(snap) + Maybe(delete)) && Finishing(n, snapshot, snap, delete, r)
    {
      snap, delete := None, None;
      if snapshot {
        var ok;
        ok, snap := SnapshotDisk(n, id);
        if !ok {
          return RErr, snap, delete;
        }
      }
      r, delete := SendDelete(n, snapshot, id);
      Regrouped(old(w.settled), Maybe(snap), Maybe(delete));
    }

    /** Marks the disk unless it is marked already. */
    method EnsureMarked(n: string, snapshot: bool, marked: bool, ghost seen: nat)
      returns (ok: bool, ghost id: nat, ghost read: Option<Asked>, ghost mark: Option<Asked>)
      requires if marked then In(DeleteMarked(n, snapshot, seen)) else In(DeleteMarkGet(n, snapshot))
      modifies w
      ensures Kept()
      ensures w.call == if ok then DeleteMarked(n, snapshot, id) else Return(RErr)
      ensures w.settled == old(w.settled) + (Maybe(read) + Maybe(mark)) && (read.Some? <==> !marked)
      ensures if read.Some? then Marking(n, read.value, mark) else mark.None?
      ensures ok <==> marked || (mark.Some? && mark.value.o.ODone?)
    {
      if marked {
        return true, seen, None, None;
      }
      ghost var first;
      ok, id, first, mark := MarkDeleting(n, snapshot);
      read := Some(first);
    }

    /** Deletes a disk that is attached nowhere: marks it unless it is marked already,
        snapshots it if asked to, and only then deletes it. A disk that is not there
        is a success. */
    method DeleteDisk(n: string, snapshot: bool) returns (r: Ret, ghost d: Deleting)
      requires In(DeleteGet(n, snapshot))
      modifies w
      ensures Kept() && w.call == Return(r) && (r.ROk? || r.RErr?)
      ensures w.settled == old(w.settled) + DeleteLog(d) && Deleted(n, snapshot, d, r)
    {
      var o := GetDisk(n);
      ghost var look := Asked(QGet(n), o, w.now);
      d := Deleting(look, None, None, None, None);
      if !Loose(o) {
        EndsAtLook(n, snapshot, look);
      }
      if o.OMissing? {
        return ROk, d;
      }
      if !o.OFound? || o.disk.users != [] {
        return RErr, d;
      }
      ghost var rest;
      r, d, rest := DeleteLoose(n, snapshot, o, look);
      Regrouped(old(w.settled), [look], rest);
    }

    /** The disk is attached nowhere: mark it, then finish. */
    method DeleteLoose(n: string, snapshot: bool, o: Outcome, ghost look: Asked)
      returns (r: Ret, ghost d: Deleting, ghost rest: seq<Asked>)
      requires Loose(o) && look.q == QGet(n) && look.o == o
      requires if Marked(o.disk.labels) then In(DeleteMarked(n, snapshot, o.disk.id)) else In(DeleteMarkGet(n, snapshot))
      modifies w
      ensures Kept() && w.call == Return(r) && (r.ROk? || r.RErr?)
      ensures w.settled == old(w.settled) + rest && [look] + rest == DeleteLog(d) && Deleted(n, snapshot, d, r)
    {
      ghost var id, read, mark, snap, delete;
      var ok;
      ok, id, read, mark := EnsureMarked(n, snapshot, Marked(o.disk.labels), o.disk.id);
      if !ok {
        EndsUnmarked(n, snapshot, look, read.value, mark);
        return RErr, Deleting(look, read, mark, None, None), Maybe(read) + Maybe(mark);
      }
      r, snap, delete := FinishDelete(n, snapshot, id);
      d := Deleting(look, read, mark, snap, delete);
      EndsFinished(n, snapshot, d, r);
      rest := (Maybe(read) + Maybe(mark)) + (Maybe(snap) + Maybe(delete));
      Regrouped(old(w.settled), Maybe(read) + Maybe(mark), Maybe(snap) + Maybe(delete));
    }

    method ListManagedDisks() returns (r: Ret)
      requires In(ListManaged)
      modifies w
      ensures Kept() && w.call == Return(r) && (r.RList? || r.RErr?)
      ensures Ended(Asked(QList, if r.RList? then OList(r.disks) else OError, w.now))
    {
      var o := Call(QList);
      r := if o.OList? then RList(o.disks) else RErr;
    }

    // ---- attach and detach ----

    method DetachFromInstance(n: string, instance: string) returns (o: Outcome)
      requires Awaiting(QDetach(n, instance))
      modifies w
      ensures Kept() && Fits(QDetach(n, instance), o) && !o.ORetry?
      ensures w.call == After(w.cfg, old(w.call), o)
      ensures w.settled == old(w.settled) + [Asked(QDetach(n, instance), o, w.now)]
    {
      var answer, _, _ := Send(QDetach(n, instance));
      o := answer;
    }

    /** Whether the disk is no longer attached to the holder; None if that cannot be
        told. */
    method DiskReleasedBy(n: string, holder: string) returns (released: Option<bool>, ghost o: Outcome)
      requires In(AttachPoll(n, holder))
      modifies w
      ensures Kept() && w.settled == old(w.settled) + [Asked(QGet(n), o, w.now)]
      ensures released.None? ==> w.call == Return(RErr) && !o.OFound?
      ensures released == Some(true) ==> w.call == AttachRefetch(n) && Relinquished(w.cfg, o, holder)
      ensures released == Some(false) ==> w.call == AttachGrace(n, holder) && StillHeld(w.cfg, o, holder)
    {
      var g, _, _ := Send(QGet(n));
      o := g;
      if !g.OFound? {
        return None, o;
      }
      var b := Refs.CheckReleased(g.disk.users, w.cfg.project, w.cfg.zone, holder);
      released := Some(b);
    }

    /** The disk is still held: force it, give up, or wait. */
    method Patience(n: string, holder: string, deadline: int) returns (v: Verdict, ghost ask: Asked)
      requires In(AttachGrace(n, holder))
      modifies w
      ensures Kept() && w.now == old(w.now) && w.call == VerdictCall(v, n, holder) && !v.Gone?
      ensures v.Waiting? ==> w.now <= deadline
      ensures (v.TooLate? ==> w.now > deadline) && (v.Broken? ==> w.stopped)
      ensures ask.q == QGrace && ask.at == w.now && w.settled == old(w.settled) + [ask]
    {
      if w.now > deadline {
        w.Settle(OBool(true));
        return TooLate, Asked(QGrace, OBool(true), w.now);
      }
      var cancelled := w.Cancelled();
      ghost var o := if cancelled then OError else OBool(false);
      w.Settle(o);
      return if cancelled then Broken else Waiting, Asked(QGrace, o, w.now);
    }

    /** One round of the grace loop. */
    method Poll(n: string, holder: string, deadline: int) returns (v: Verdict, ghost round: seq<Asked>)
      requires In(AttachPoll(n, holder))
      modifies w
      ensures Kept() && w.call == VerdictCall(v, n, holder)
      ensures v.Waiting? ==> w.now <= deadline
      ensures w.settled == old(w.settled) + round && Rounded(w.cfg, round, n, holder, v, deadline)
    {
      var released, o := DiskReleasedBy(n, holder);
      ghost var look := Asked(QGet(n), o, w.now);
      if released.None? {
        return Broken, [look];
      }
      if released.value {
        return Gone, [look];
      }
      ghost var ask;
      v, ask := Patience(n, holder, deadline);
      round := [look] + [ask];
      Regrouped(old(w.settled), [look], [ask]);
    }

    /** The next round, a second later; the last one was a poll that let the wait go on. */
    method SleepAndPoll(n: string, holder: string, deadline: int, ghost log: seq<Asked>, ghost last: seq<Asked>, ghost polls: nat)
      returns (v: Verdict, ghost round: seq<Asked>)
      requires In(AttachPoll(n, holder))
      requires OnlyPolls(log, n, polls) && Rounded(w.cfg, last, n, holder, Waiting, deadline)
      modifies w
      ensures OnlyPolls(log + last, n, polls + 1)
      ensures Kept() && w.call == VerdictCall(v, n, holder) && w.now >= old(w.now) + SECOND
      ensures v.Waiting? ==> w.now <= deadline
      ensures w.settled == old(w.settled) + round && Rounded(w.cfg, round, n, holder, v, deadline)
    {
      RoundAdded(log, last, n, polls);
      w.Sleep(SECOND);
      v, round := Poll(n, holder, deadline);
    }

    /** The grace loop: polls once a second while the holder keeps the disk and the
        deadline is not past. */
    method PollUntil(n: string, holder: string, deadline: int)
      returns (v: Verdict, ghost log: seq<Asked>, ghost round: seq<Asked>, ghost polls: nat)
      requires In(AttachPoll(n, holder)) && w.now <= deadline
      modifies w
      ensures Kept() && w.call == VerdictCall(v, n, holder) && !v.Waiting?
      ensures w.settled == old(w.settled) + (log + round)
      ensures OnlyPolls(log, n, polls) && Rounded(w.cfg, round, n, holder, v, deadline)
      ensures polls * SECOND <= deadline - old(w.now) + SECOND
    {
      polls, log := 0, [];
      v, round := Poll(n, holder, deadline);
      while v.Waiting?
        invariant Kept() && w.call == VerdictCall(v, n, holder)
        invariant v.Waiting? ==> w.now <= deadline
        invariant w.settled == old(w.settled) + (log + round)
        invariant OnlyPolls(log, n, polls) && Rounded(w.cfg, round, n, holder, v, deadline)
        invariant w.now >= old(w.now) + polls * SECOND && polls * SECOND <= deadline - old(w.now) + SECOND
        decreases v.Waiting?, deadline - w.now
      {
        ghost var before := log + round;
        v, round := SleepAndPoll(n, holder, deadline, log, round, polls);
        Regrouped(old(w.settled), before, round);
        polls, log := polls + 1, before;
      }
    }

    /** One detach that settles the matter: of a holder that is down, or by force. */
    method Detach(n: string, holder: string) returns (ok: bool, ghost only: Asked)
      requires In(AttachDetachDown(n, holder)) || In(AttachForce(n, holder))
      modifies w
      ensures Kept() && w.call == if ok then AttachRefetch(n) else Return(RErr)
      ensures w.settled == old(w.settled) + [only] && only.q == QDetach(n, holder) && (ok <==> only.o.ODone?)
    {
      var d := DetachFromInstance(n, holder);
      only := Asked(QDetach(n, holder), d, w.now);
      ok := d.ODone?;
    }

    /** After a clean detach: waits for the holder to release the disk, and detaches it
        a second time once a poll saw it still held after the grace period. */
    method AwaitRelease(n: string, holder: string) returns (ok: bool, ghost tail: seq<Asked>)
      requires In(AttachPoll(n, holder))
      modifies w
      ensures Kept() && w.call == if ok then AttachRefetch(n) else Return(RErr)
      ensures w.settled == old(w.settled) + tail
      ensures GraceKept(w.cfg, tail, n, holder, old(w.now), forceDetachAfter) && (ok <==> LetGo(w.cfg, tail, n, holder))
    {
      ghost var since := w.now;
      var v, log, round, polls := PollUntil(n, holder, w.now + forceDetachAfter);
      tail := log + round;
      if v.TooLate? {
        ghost var last;
        ok, last := Detach(n, holder);
        EndsForced(w.cfg, log, round, last, n, holder, polls, since, forceDetachAfter);
        tail := tail + [last];
        assert tail[|tail| - 1] == last;
      } else {
        ok := v.Gone?;
        EndsUnforced(w.cfg, log, round, n, holder, polls, since, forceDetachAfter);
        assert tail[|tail| - 1] == round[|round| - 1];
      }
    }

    /** The holder is up: a clean detach, then the grace period. */
    method DetachCleanly(n: string, holder: string) returns (ok: bool, ghost first: Asked, ghost rest: seq<Asked>)
      requires In(AttachDetachClean(n, holder))
      modifies w
      ensures Kept() && w.call == if ok then AttachRefetch(n) else Return(RErr)
      ensures w.settled == old(w.settled) + [first] + rest && first.q == QDetach(n, holder)
      ensures GraceKept(w.cfg, rest, n, holder, first.at, forceDetachAfter)
      ensures ok <==> first.o.ODone? && LetGo(w.cfg, rest, n, holder)
    {
      var d := DetachFromInstance(n, holder);
      first, rest := Asked(QDetach(n, holder), d, w.now), [];
      if !d.ODone? {
        return false, first, rest;
      }
      ok, rest := AwaitRelease(n, holder);
    }

    /** The status of the holder, empty if it is gone; None if it cannot be read. */
    method InstanceState(n: string, holder: string) returns (status: Option<string>, ghost read: Asked)
      requires In(AttachStatus(n, holder))
      modifies w
      ensures Kept() && w.settled == old(w.settled) + [read] && read.q == QStatus(holder)
      ensures Fits(QStatus(holder), read.o) && !read.o.ORetry?
      ensures status == if read.o.OError? then None else Some(StatusIn(read.o))
      ensures w.call == if status.Some? then AfterStatus(n, holder, status.value) else Return(RErr)
    {
      var s, _, _ := Send(QStatus(holder));
      read := Asked(QStatus(holder), s, w.now);
      status := if s.OError? then None else Some(StatusIn(s));
    }

    /** The holder is in this state: one detach and no waiting if it is down, otherwise a
        clean detach and the grace period. */
    method FreeFrom(n: string, holder: string, status: string, ghost read: Asked)
      returns (ok: bool, ghost rest: seq<Asked>, ghost f: Failover)
      requires In(AfterStatus(n, holder, status))
      requires read.q == QStatus(holder) && !read.o.OError? && StatusIn(read.o) == status
      modifies w
      ensures f.read == read
      ensures Kept() && w.call == if ok then AttachRefetch(n) else Return(RErr)
      ensures w.settled == old(w.settled) + rest && LogOf(f) == [read] + rest
      ensures FailoverKept(w.cfg, f, n, holder, forceDetachAfter) && (ok <==> Freed(w.cfg, f, n, holder))
    {
      ghost var first;
      if IsHolderDown(status) {
        ok, first := Detach(n, holder);
        f, rest := HolderDown(read, first), [first];
      } else {
        ok, first, rest := DetachCleanly(n, holder);
        f := HolderUp(read, first, rest);
        Regrouped(old(w.settled), [first], rest);
        Regrouped([read], [first], rest);
        rest := [first] + rest;
      }
    }

    /** Frees a disk from the instance that holds it: at once if the holder is down,
        otherwise by a clean detach, a grace period and, if need be, force. */
    method EnsureDetachedFromHolder(n: string, holder: string) returns (ok: bool, ghost f: Failover)
      requires In(AttachStatus(n, holder))
      modifies w
      ensures Kept() && w.call == if ok then AttachRefetch(n) else Return(RErr)
      ensures w.settled == old(w.settled) + LogOf(f)
      ensures FailoverKept(w.cfg, f, n, holder, forceDetachAfter) && (ok <==> Freed(w.cfg, f, n, holder))
      ensures f.HolderDown? <==>
                f.read.o.OMissing? ||
                (f.read.o.OStatus? && f.read.o.status in {"", "TERMINATED", "STOPPED", "STOPPING", "SUSPENDED", "SUSPENDING"})
      ensures f.Unreadable? <==> f.read.o.OError?
    {
      var status, read := InstanceState(n, holder);
      if status.None? {
        return false, Unreadable(read);
      }
      ghost var rest;
      ok, rest, f := FreeFrom(n, holder, status.value, read);
      Regrouped(old(w.settled), [read], rest);
      DownByStatus(w.cfg, f, n, holder, forceDetachAfter);
    }

    /** Looks at the disk again, as it has changed hands. */
    method Refetch(n: string) returns (ended: Option<Ret>, ghost again: Asked)
      requires In(AttachRefetch(n))
      modifies w
      ensures Kept() && w.call == if ended.Some? then Return(ended.value) else AttachAttach(n)
      ensures ended == (if again.o.OFound? then None else Some(RErr)) && again.q == QGet(n)
      ensures w.settled == old(w.settled) + [again]
    {
      var o := GetDisk(n);
      again := Asked(QGet(n), o, w.now);
      ended := if o.OFound? then None else Some(RErr);
    }

    /** Another VM holds the disk, in global scope: free it and look again. */
    method FailOver(n: string, holder: string) returns (ended: Option<Ret>, ghost f: Failover, ghost again: Option<Asked>)
      requires In(AttachStatus(n, holder))
      modifies w
      ensures Kept() && w.call == if ended.Some? then Return(ended.value) else AttachAttach(n)
      ensures w.settled == old(w.settled) + (LogOf(f) + Maybe(again))
      ensures FailoverKept(w.cfg, f, n, holder, forceDetachAfter) && (again.Some? <==> Freed(w.cfg, f, n, holder))
      ensures again.Some? ==> again.value.q == QGet(n)
      ensures ended == if again.Some? && again.value.o.OFound? then None else Some(RErr)
    {
      var ok;
      ok, f := EnsureDetachedFromHolder(n, holder);
      again := None;
      if !ok {
        return Some(RErr), f, again;
      }
      ghost var look;
      ended, look := Refetch(n);
      again := Some(look);
      Regrouped(old(w.settled), LogOf(f), [look]);
    }

    /** First half of AttachDisk, up to the attach request: only the first user decides.
        This VM means there is nothing to do, another one means refusal or, in global
        scope, a failover. */
    method ReadyToAttach(n: string) returns (ended: Option<Ret>, ghost a: Attaching)
      requires In(AttachGet(n))
      modifies w
      ensures Kept() && w.call == if ended.Some? then Return(ended.value) else AttachAttach(n)
      ensures w.settled == old(w.settled) + AttachLog(a) && Readied(w.cfg, n, a, ended, forceDetachAfter)
    {
      var o := GetDisk(n);
      ghost var look := Asked(QGet(n), o, w.now);
      a := Attaching(look, None, None, None);
      if !MayTake(w.cfg, o) {
        ReadiedAtOnce(w.cfg, n, look, forceDetachAfter);
      }
      if !o.OFound? {
        return Some(RErr), a;
      }
      if o.disk.users == [] {
        return None, a;
      }
      ghost var rest;
      ended, a, rest := JudgeHolder(n, o.disk.users[0], look);
      Regrouped(old(w.settled), [look], rest);
    }

    /** The disk has a user. */
    method JudgeHolder(n: string, u: string, ghost look: Asked)
      returns (ended: Option<Ret>, ghost a: Attaching, ghost rest: seq<Asked>)
      requires look.q == QGet(n) && look.o.OFound? && look.o.disk.users != [] && u == look.o.disk.users[0]
      requires In(AfterAttachGet(w.cfg, n, look.o.disk.users))
      modifies w
      ensures Kept() && w.call == if ended.Some? then Return(ended.value) else AttachAttach(n)
      ensures w.settled == old(w.settled) + rest && [look] + rest == AttachLog(a)
      ensures Readied(w.cfg, n, a, ended, forceDetachAfter)
    {
      a, rest := Attaching(look, None, None, None), [];
      if !MayTake(w.cfg, look.o) {
        ReadiedAtOnce(w.cfg, n, look, forceDetachAfter);
      }
      var same := Refs.CheckSame(u, Here(w.cfg));
      if same {
        return Some(ROk), a, rest;
      }
      if !w.cfg.global {
        return Some(RErr), a, rest;
      }
      ghost var f, again;
      ended, f, again := FailOver(n, Refs.InstanceNameFromRef(u));
      rest := LogOf(f) + Maybe(again);
      AttachLogSoFar(look, f, again);
      ReadiedByFailover(w.cfg, n, look, f, again, forceDetachAfter);
      a := Attaching(look, Some(f), again, None);
    }

    method SendAttach(n: string) returns (r: Ret, ghost attach: Asked)
      requires In(AttachAttach(n))
      modifies w
      ensures Kept() && w.call == Return(r) && (r.ROk? || r.RErr?)
      ensures w.settled == old(w.settled) + [attach] && attach.q == QAttach(n, w.cfg.instance) && (r.ROk? <==> attach.o.ODone?)
    {
      var o := Call(QAttach(n, w.cfg.instance));
      attach := Asked(QAttach(n, w.cfg.instance), o, w.now);
      r := if o.ODone? then ROk else RErr;
    }

    method AttachDisk(n: string) returns (r: Ret, ghost a: Attaching)
      requires In(AttachGet(n))
      modifies w
      ensures Kept() && w.call == Return(r) && (r.ROk? || r.RErr?)
      ensures w.settled == old(w.settled) + AttachLog(a) && Attached(w.cfg, n, a, r, forceDetachAfter)
    {
      var ended;
      ended, a := ReadyToAttach(n);
      if ended.Some? {
        return ended.value, a;
      }
      ghost var attach;
      r, attach := SendAttach(n);
      AttachLogDone(old(w.settled), a, attach);
      a := a.(attach := Some(attach));
    }

    /** Whether the disk is attached to this VM; None if that cannot be told. */
    method AttachedToUs(n: string) returns (here: Option<bool>, ghost look: Asked)
      requires In(DetachGet(n))
      modifies w
      ensures Kept()
      ensures w.call == match here
                        case None => Return(RErr)
                        case Some(yes) => if yes then DetachDetach(n) else Return(ROk)
      ensures w.settled == old(w.settled) + [look] && look.q == QGet(n)
      ensures here == if look.o.OFound? then Some(ListsUs(w.cfg, look.o.disk.users)) else None
    {
      var o := GetDisk(n);
      look := Asked(QGet(n), o, w.now);
      if !o.OFound? {
        return None, look;
      }
      var yes := Refs.CheckListed(o.disk.users, Here(w.cfg));
      DetachDecides(w.cfg, n, o.disk);
      here := Some(yes);
    }

    /** Detaches the disk from this VM, and from no other. */
    method DetachDisk(n: string) returns (r: Ret, ghost rel: Release)
      requires In(DetachGet(n))
      modifies w
      ensures Kept() && w.call == Return(r) && (r.ROk? || r.RErr?)
      ensures w.settled == old(w.settled) + ReleaseLog(rel) && Releases(w.cfg, n, rel) && (r.ROk? <==> Requests.Released(rel))
    {
      var here, look := AttachedToUs(n);
      rel := Release(look, None);
      if here.None? {
        return RErr, rel;
      }
      if !here.value {
        return ROk, rel;
      }
      var d := DetachFromInstance(n, w.cfg.instance);
      rel := Release(look, Some(Asked(QDetach(n, w.cfg.instance), d, w.now)));
      Regrouped(old(w.settled), [look], Maybe(rel.detach));
      r := if d.ODone? then ROk else RErr;
    }
  }
}
