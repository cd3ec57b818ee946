/** The outside of one thread of the plugin: GCE and the host answer its requests as
    they please. The world remembers what the thread has done and refuses anything
    the protocol does not allow, so that a method that only talks through it is
    proved to follow the protocol. */
module World {
  import opened Options
  import opened Names
  import opened Records
  import opened Protocol
  import opened Host

  const SECOND := 1_000_000_000
  const MILLISECOND := 1_000_000

  // ---- API errors ----

  datatype Code = Unavailable | ResourceExhausted | Aborted | Internal | OtherCode

  /** An error of the API: over REST with its HTTP status, over gRPC with its code, or
      anything else. */
  datatype ApiError = Http(status: int) | Grpc(code: Code) | Unclassified

  predicate IsRetryable(e: ApiError) {
    match e
    case Http(status) => status == 429 || status == 500 || status == 502 || status == 503 || status == 504
    case Grpc(code) => !code.OtherCode?
    case Unclassified => false
  }

  predicate IsNotFound(e: ApiError) {
    e.Http? && e.status == 404
  }

  datatype Raw = Good(o: Outcome) | Bad(e: ApiError)

  /** What an answer amounts to. A 404 counts as one where a missing disk or instance is
      possible. */
  function Heard(q: Query, raw: Raw): Outcome {
    match raw
    case Good(o) => o
    case Bad(e) => if IsRetryable(e) then ORetry else if IsNotFound(e) && Fits(q, OMissing) then OMissing else OError
  }

  predicate Proper(q: Query, raw: Raw) {
    raw.Good? ==> Fits(q, raw.o) && !raw.o.ORetry? && !raw.o.OMissing? && !raw.o.OError?
  }

  /** A request brought to an end, with how and when. */
  datatype Asked = Asked(q: Query, o: Outcome, at: int)

  /** A request sent once, the answer or the error that came back, and when. */
  datatype Sent = Sent(q: Query, raw: Raw, at: int)

  /** A command that was run, with its exit code, -1 if it could not run, and its output. */
  datatype Ran = Ran(args: seq<string>, code: int, output: string)

  /** A thread that enters a call has not returned from it yet. */
  lemma ContinuationsAreOpen(t: Thread, k: Kont, r: Ret)
    ensures var ctl := AfterCall(t, k, r).ctl; ctl.Calling? ==> !ctl.c.Return?
  {
  }

  lemma CallsAreOpen(cfg: Config, t: Thread, m: Move)
    requires CanMove(cfg, t, m) && !m.MAnswer?
    ensures var ctl := Moved(cfg, t, m).ctl; ctl.Calling? ==> !ctl.c.Return?
  {
  }

  class World {
    const cfg: Config
    /** Whether a device node exists at a given time. */
    const device: (string, int) -> bool
    var now: int
    /** Where the thread stands, and how it got there. */
    ghost var thread: Thread
    ghost var threads: seq<Thread>
    ghost var moves: seq<Move>
    /** The call in progress, or its result, and the thread that entered it. */
    ghost var call: Call
    ghost var caller: Thread
    /** Every request sent to GCE, with its answer, and every request brought to an end. */
    ghost var asked: seq<Sent>
    ghost var settled: seq<Asked>
    /** Every command run on the host, as it came out. */
    ghost var ran: seq<Ran>
    /** The last answer to the outstanding request, whether the context has been seen
        cancelled, and the last directory made. */
    ghost var heard: Option<Outcome>
    ghost var stopped: bool
    ghost var made: Option<string>
    /** The first request brought to an end since the operation began, and the number of
        store operations so far that could not be persisted. */
    ghost var first: Option<Asked>
    ghost var failed: nat

    /** The thread got where it is by the moves it made, the last of them within the
        call in progress. */
    ghost predicate Valid()
      reads this`thread, this`threads, this`moves, this`caller, this`call
    {
      && IsWalk(cfg, threads, moves) && thread == threads[|moves|]
      && (forall t | t == thread :: Stands(t))
    }

    ghost predicate Stands(t: Thread)
      reads this`caller, this`call
    {
      if caller.ctl.Calling? then t == At(caller, call) else t == caller && call == Return(RErr)
    }

    /** The thread has just come to `t`: it enters the call that `t` makes, if any. */
    ghost predicate Entered(t: Thread)
      reads this
    {
      thread == t && caller == t && call == if t.ctl.Calling? then t.ctl.c else Return(RErr)
    }

    constructor (cfg: Config, device: (string, int) -> bool, now: int, ghost t: Thread)
      requires t.ctl.Calling? ==> !t.ctl.c.Return?
      ensures Valid() && this.cfg == cfg && this.device == device && this.now == now
      ensures Entered(t) && threads == [t] && moves == [] && asked == [] && settled == [] && ran == []
      ensures heard == None && !stopped && made == None && first == None && failed == 0
    {
      this.cfg, this.device, this.now := cfg, device, now;
      thread, threads, moves, asked, settled, ran := t, [t], [], [], [], [];
      heard, stopped, made, first, failed := None, false, None, None, 0;
      caller, call := t, if t.ctl.Calling? then t.ctl.c else Return(RErr);
    }

    /** The walk is only ever continued. */
    twostate predicate Extends()
      reads this
    {
      |old(threads)| <= |threads| && old(now) <= now &&
      forall i | 0 <= i < |old(threads)| :: threads[i] == old(threads)[i]
    }

    /** Still within the same call of the driver. */
    twostate predicate Kept()
      reads this
    {
      Valid() && Extends() && caller == old(caller) && failed == old(failed) && (old(first).Some? ==> first == old(first))
    }

    /** And within the same request. */
    twostate predicate Pending()
      reads this
    {
      Kept() && call == old(call) && settled == old(settled) && first == old(first) && ran == old(ran)
    }

    /** Outside of any call: the thread begins an operation, or a store operation ends. */
    ghost method Advance(m: Move)
      requires Valid() && CanMove(cfg, thread, m) && !m.MAnswer?
      modifies this`thread, this`threads, this`moves, this`caller, this`call, this`first, this`failed
      ensures Valid() && Extends() && Entered(Moved(cfg, old(thread), m))
      ensures threads == old(threads) + [thread]
      ensures first == if m.MBegin? then None else old(first)
      ensures failed == old(failed) + if m == MStore(false) then 1 else 0
    {
      first := if m.MBegin? then None else first;
      failed := failed + if m == MStore(false) then 1 else 0;
      thread := Moved(cfg, thread, m);
      threads, moves := threads + [thread], moves + [m];
      caller, call := thread, if thread.ctl.Calling? then thread.ctl.c else Return(RErr);
      CallsAreOpen(cfg, threads[|moves| - 1], m);
    }

    /** The call has returned, and the driver carries on with its result. */
    ghost method Resume()
      requires Valid() && caller.ctl.Calling? && call.Return?
      modifies this`caller, this`call
      ensures Valid() && Extends() && Entered(AfterCall(old(caller), old(caller).ctl.k, old(call).r))
    {
      assert Stands(thread);
      ContinuationsAreOpen(caller, caller.ctl.k, call.r);
      caller, call := thread, if thread.ctl.Calling? then thread.ctl.c else Return(RErr);
    }

    /** Sends the request the call expects to GCE. Any answer of the right shape may come
        back, after some time. The request stays open until it is settled. */
    method Ask(q: Query) returns (raw: Raw)
      requires Valid() && caller.ctl.Calling? && Awaits(cfg, call) == q != QNothing && Fits(q, ORetry)
      modifies this
      ensures Pending() && now > old(now) && Proper(q, raw)
      ensures asked == old(asked) + [Sent(q, raw, now)] && heard == Some(Heard(q, raw))
    {
      raw := *;
      if !Proper(q, raw) {
        raw := Bad(Unclassified);
      }
      ghost var o := Heard(q, raw);
      var d :| d > 0;
      now := now + d;
      asked, heard := asked + [Sent(q, raw, now)], Some(o);
      if o.ORetry? {
        Answer(o);
      }
    }

    /** How the outstanding request may end: with the answer that came; with an error
        after a retryable one or a cancellation; and the end of the grace period is
        for the thread itself to judge. */
    ghost predicate MayEnd(o: Outcome)
      reads this`call, this`heard, this`stopped
    {
      heard == Some(o) || (o.OError? && (heard == Some(ORetry) || stopped)) || (o.OBool? && Awaits(cfg, call).QGrace?)
    }

    /** Ends the outstanding request. */
    ghost method Settle(o: Outcome)
      requires Valid() && caller.ctl.Calling? && Awaits(cfg, call) != QNothing && Fits(Awaits(cfg, call), o)
      requires MayEnd(o)
      modifies this`thread, this`threads, this`moves, this`call, this`settled, this`heard, this`first
      ensures Valid() && Extends() && call == After(cfg, old(call), o) && heard == None
      ensures var a := Asked(Awaits(cfg, old(call)), o, now);
              settled == old(settled) + [a] && first == if old(first).None? then Some(a) else old(first)
    {
      var a := Asked(Awaits(cfg, call), o, now);
      settled, heard := settled + [a], None;
      first := if first.None? then Some(a) else first;
      Answer(o);
    }

    ghost method Answer(o: Outcome)
      requires Valid() && caller.ctl.Calling? && Awaits(cfg, call) != QNothing && Fits(Awaits(cfg, call), o)
      modifies this`thread, this`threads, this`moves, this`call
      ensures Valid() && call == After(cfg, old(call), o)
      ensures threads == old(threads) + [thread] && moves == old(moves) + [MAnswer(o)]
    {
      assert Stands(thread);
      AtNext(cfg, caller, call, o);
      thread := Moved(cfg, thread, MAnswer(o));
      threads, moves := threads + [thread], moves + [MAnswer(o)];
      call := After(cfg, call, o);
    }

    method Sleep(d: int)
      requires Valid() && d >= 0
      modifies this`now
      ensures Valid() && now == old(now) + d
    {
      now := now + d;
    }

    /** Whether the device node of the volume exists now. */
    method Stat(path: string, ghost n: string) returns (there: bool)
      requires path == DevicePath(n) && Awaits(cfg, call) == QDevice(n)
      modifies this`heard
      ensures there == device(path, now) && heard == Some(OBool(there))
    {
      there := device(path, now);
      heard := Some(OBool(there));
    }

    /** Runs the command that the outstanding request stands for, and no other: its exit
        code and output, whatever they are. A mount needs its target first. */
    method Run(args: seq<string>) returns (code: int, output: string)
      requires CommandOf(Awaits(cfg, call)) == Some(args)
      requires Awaits(cfg, call).QMount? ==> made == Some(MountpointFor(Awaits(cfg, call).n))
      modifies this`heard, this`ran
      ensures heard == Some(ResultOf(Awaits(cfg, call), code, output)) && ran == old(ran) + [Ran(args, code, output)]
    {
      code := *;
      output := *;
      ran := ran + [Ran(args, code, output)];
      heard := Some(ResultOf(Awaits(cfg, call), code, output));
    }

    method MkdirAll(path: string) returns (ok: bool)
      modifies this`made, this`heard
      ensures if ok then made == Some(path) && heard == old(heard) else heard == Some(OError)
    {
      ok := *;
      if ok {
        made := Some(path);
      } else {
        heard := Some(OError);
      }
    }

    /** The contents of /proc/mounts, if it can be read. */
    method ReadMounts(ghost n: string) returns (text: Option<string>)
      requires Awaits(cfg, call) == QMounted(n)
      modifies this`heard
      ensures heard == Some(if text.Some? then OBool(MountedIn(text.value, MountpointFor(n))) else OError)
    {
      text := *;
      heard := Some(if text.Some? then OBool(MountedIn(text.value, MountpointFor(n))) else OError);
    }

    /** Whether the context of the operation has been cancelled. */
    method Cancelled() returns (c: bool)
      modifies this`stopped
      ensures stopped == c
    {
      c := *;
      stopped := c;
    }
  }
}
