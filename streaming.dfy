/**
 * The cursor decision and the demand-driven fetch loop of
 * PgLocalConnection.execute. The driver and the subscriber are observed
 * rather than called: each check of the subscriber's outstanding demand
 * (emitter.requested() with emitter.isCancelled()) is one Tick, and each
 * driver call (exec.execute, then each exec.fetch) is one Reply: the handler
 * still holds a cursor, no longer holds one, or the call threw.
 */
module Streaming {
  import opened Primitives
  import opened Faults

  // QueryExecutor flag bits as pgjdbc defines them.
  const QUERY_ONESHOT: bv32 := 1
  const QUERY_NO_METADATA: bv32 := 2
  const QUERY_NO_RESULTS: bv32 := 4
  const QUERY_FORWARD_CURSOR: bv32 := 8
  const QUERY_SUPPRESS_BEGIN: bv32 := 16

  datatype Settings = Settings(flags: bv32, fetchRows: int32)

  /**
   * A positive fetch size asks for a forward cursor and fetches that many rows
   * at a time; otherwise the caller's flags go through untouched and all rows
   * come at once.
   */
  function CursorSettings(fetchSize: int32, flags: bv32): (s: Settings)
    ensures s.fetchRows > 0 <==> fetchSize > 0
    ensures fetchSize > 0 ==> s.fetchRows == fetchSize && s.flags & QUERY_FORWARD_CURSOR == QUERY_FORWARD_CURSOR
    ensures s.flags & !QUERY_FORWARD_CURSOR == flags & !QUERY_FORWARD_CURSOR
    ensures fetchSize <= 0 ==> s.flags == flags && s.fetchRows == 0
  {
    Settings(if fetchSize > 0 then flags | QUERY_FORWARD_CURSOR else flags,
             if fetchSize > 0 then fetchSize else 0)
  }

  /** One check of the subscriber: its outstanding demand and whether it has cancelled. */
  datatype Tick = Tick(requested: int64, cancelled: bool)

  /** What a driver call left behind: the handler still holds a cursor, holds none, or the call threw an SQLException. */
  datatype Reply = Kept | Gone | Threw(fault: Fault)

  /** What the loop asks of the driver: fetch the next rows (with the demand seen), or close the cursor. */
  datatype Action = Fetch(rows: int32, demand: int64) | Close

  /**
   * The loop left because the cursor is gone, because the subscriber
   * cancelled, because a driver call threw (the exception leaves execute
   * with the cursor still open), or it is still waiting.
   */
  datatype End = Drained | Cancelled | Faulted(fault: Fault) | Pending

  datatype Outcome = Outcome(trace: seq<Action>, end: End)

  function Prepend(trace: seq<Action>, o: Outcome): Outcome
  {
    Outcome(trace + o.trace, o.end)
  }

  /** Moving one action from the outcome onto the trace before it changes nothing. */
  lemma PrependSnoc(trace: seq<Action>, a: Action, o: Outcome)
    ensures Prepend(trace, Prepend([a], o)) == Prepend(trace + [a], o)
  {
    assert trace + ([a] + o.trace) == (trace + [a]) + o.trace;
  }

  /**
   * The fetch loop on observations, starting from what the handler holds:
   * while it holds a cursor, wait for a tick with positive demand (a tick
   * without demand that shows cancellation closes the cursor and ends the
   * loop), then fetch fetchRows rows; the fetch's reply says what the handler
   * holds next. Running out of ticks or replies leaves the loop Pending.
   */
  function Run(held: Reply, fetchRows: int32, ticks: seq<Tick>, replies: seq<Reply>): (o: Outcome)
    ensures held.Gone? ==> o == Outcome([], Drained)
    ensures held.Threw? ==> o == Outcome([], Faulted(held.fault))
    ensures |o.trace| <= |ticks|
    decreases |ticks|
  {
    match held
    case Gone => Outcome([], Drained)
    case Threw(e) => Outcome([], Faulted(e))
    case Kept =>
      if ticks == [] then Outcome([], Pending)
      else if ticks[0].requested <= 0 then
        if ticks[0].cancelled then Outcome([Close], Cancelled)
        else Run(Kept, fetchRows, ticks[1..], replies)
      else if replies == [] then Outcome([Fetch(fetchRows, ticks[0].requested)], Pending)
      else Prepend([Fetch(fetchRows, ticks[0].requested)], Run(replies[0], fetchRows, ticks[1..], replies[1..]))
  }

  /**
   * The labelled `fetch:` loop with its inner wait loop, over the observations
   * the driver and the subscriber supply; a Threw reply is the exception that
   * leaves the loop.
   */
  method FetchLoop(start: Reply, fetchRows: int32, ticks: seq<Tick>, replies: seq<Reply>)
    returns (trace: seq<Action>, end: End)
    ensures Outcome(trace, end) == Run(start, fetchRows, ticks, replies)
  {
    var held := start;
    var t, r := 0, 0;
    trace, end := [], Drained;
    label fetch: while held.Kept?
      invariant 0 <= t <= |ticks| && 0 <= r <= |replies|
      invariant Prepend(trace, Run(held, fetchRows, ticks[t..], replies[r..])) == Run(start, fetchRows, ticks, replies)
      invariant end == Drained
      decreases |ticks| - t
    {
      if t == |ticks| {
        end := Pending;
        return;
      }
      while ticks[t].requested <= 0
        invariant t < |ticks|
        invariant Prepend(trace, Run(Kept, fetchRows, ticks[t..], replies[r..])) == Run(start, fetchRows, ticks, replies)
        decreases |ticks| - t
      {
        if ticks[t].cancelled {
          assert Run(Kept, fetchRows, ticks[t..], replies[r..]) == Outcome([Close], Cancelled);
          trace := trace + [Close];
          end := Cancelled;
          break fetch;
        }
        assert ticks[t..][1..] == ticks[t + 1..];
        t := t + 1;
        if t == |ticks| {
          end := Pending;
          return;
        }
      }
      var fetched := Fetch(fetchRows, ticks[t].requested);
      assert ticks[t..][1..] == ticks[t + 1..];
      if r == |replies| {
        assert Run(Kept, fetchRows, ticks[t..], replies[r..]) == Outcome([fetched], Pending);
        trace := trace + [fetched];
        end := Pending;
        return;
      }
      assert replies[r..][1..] == replies[r + 1..];
      ghost var next := Run(replies[r], fetchRows, ticks[t + 1..], replies[r + 1..]);
      assert Run(Kept, fetchRows, ticks[t..], replies[r..]) == Prepend([fetched], next);
      PrependSnoc(trace, fetched, next);
      trace := trace + [fetched];
      t := t + 1;
      held := replies[r];
      r := r + 1;
    }
    if held.Threw? {
      end := Faulted(held.fault);
    }
  }

  /** Every fetch asks for fetchRows rows and happens only under positive demand. */
  lemma {:induction false} FetchOnlyOnDemand(held: Reply, fetchRows: int32, ticks: seq<Tick>, replies: seq<Reply>)
    ensures forall a :: a in Run(held, fetchRows, ticks, replies).trace && a.Fetch? ==>
      a.demand > 0 && a.rows == fetchRows
    decreases |ticks|
  {
    if held.Kept? && ticks != [] {
      if ticks[0].requested <= 0 {
        if !ticks[0].cancelled {
          FetchOnlyOnDemand(Kept, fetchRows, ticks[1..], replies);
        }
      } else if replies != [] {
        FetchOnlyOnDemand(replies[0], fetchRows, ticks[1..], replies[1..]);
      }
    }
  }

  /**
   * Cancellation closes the cursor once, as the last action and only then;
   * every earlier action is a fetch.
   */
  lemma {:induction false} CloseOnlyOnCancel(held: Reply, fetchRows: int32, ticks: seq<Tick>, replies: seq<Reply>)
    ensures var o := Run(held, fetchRows, ticks, replies);
      (o.end == Cancelled <==> o.trace != [] && o.trace[|o.trace| - 1] == Close) &&
      forall k :: 0 <= k < |o.trace| - 1 ==> o.trace[k].Fetch?
    decreases |ticks|
  {
    if held.Kept? && ticks != [] {
      if ticks[0].requested <= 0 {
        if !ticks[0].cancelled {
          CloseOnlyOnCancel(Kept, fetchRows, ticks[1..], replies);
        }
      } else if replies != [] {
        var rest := Run(replies[0], fetchRows, ticks[1..], replies[1..]);
        CloseOnlyOnCancel(replies[0], fetchRows, ticks[1..], replies[1..]);
        assert Run(held, fetchRows, ticks, replies).trace == [Fetch(fetchRows, ticks[0].requested)] + rest.trace;
      }
    }
  }

  /** The loop closes the cursor only after a tick without demand that shows the cancellation. */
  lemma {:induction false} CancelledOnlyWhileWaiting(held: Reply, fetchRows: int32, ticks: seq<Tick>, replies: seq<Reply>)
    ensures Run(held, fetchRows, ticks, replies).end == Cancelled ==>
      exists k :: 0 <= k < |ticks| && ticks[k].requested <= 0 && ticks[k].cancelled
    decreases |ticks|
  {
    if held.Kept? && ticks != [] && !(ticks[0].requested <= 0 && ticks[0].cancelled) {
      if ticks[0].requested <= 0 {
        CancelledOnlyWhileWaiting(Kept, fetchRows, ticks[1..], replies);
      } else if replies != [] {
        CancelledOnlyWhileWaiting(replies[0], fetchRows, ticks[1..], replies[1..]);
      }
      if Run(held, fetchRows, ticks, replies).end == Cancelled {
        var k :| 0 <= k < |ticks[1..]| && ticks[1..][k].requested <= 0 && ticks[1..][k].cancelled;
        assert ticks[k + 1] == ticks[1..][k];
      }
    }
  }

  /** Ticks that show neither demand nor cancellation: the subscriber keeps the loop waiting. */
  predicate Idle(waits: seq<Tick>)
  {
    forall k :: 0 <= k < |waits| ==> waits[k].requested <= 0 && !waits[k].cancelled
  }

  /**
   * While the loop waits, the first tick without demand that shows the
   * cancellation closes the cursor and ends the loop, whatever comes after.
   */
  lemma {:induction false} CancelWhileWaitingCloses(fetchRows: int32, waits: seq<Tick>, t: Tick, rest: seq<Tick>, replies: seq<Reply>)
    requires Idle(waits)
    requires t.requested <= 0 && t.cancelled
    ensures Run(Kept, fetchRows, waits + [t] + rest, replies) == Outcome([Close], Cancelled)
  {
    if waits != [] {
      assert (waits + [t] + rest)[1..] == waits[1..] + [t] + rest;
      CancelWhileWaitingCloses(fetchRows, waits[1..], t, rest, replies);
    } else {
      assert (waits + [t] + rest)[0] == t;
    }
  }

  /**
   * While the loop waits, the first check that shows demand makes it fetch
   * fetchRows rows; the reply to that fetch decides what comes next.
   */
  lemma {:induction false} WaitThenFetch(fetchRows: int32, waits: seq<Tick>, t: Tick, rest: seq<Tick>, replies: seq<Reply>)
    requires Idle(waits)
    requires t.requested > 0
    ensures Run(Kept, fetchRows, waits + [t] + rest, replies) ==
      if replies == [] then Outcome([Fetch(fetchRows, t.requested)], Pending)
      else Prepend([Fetch(fetchRows, t.requested)], Run(replies[0], fetchRows, rest, replies[1..]))
  {
    if waits != [] {
      assert (waits + [t] + rest)[1..] == waits[1..] + [t] + rest;
      WaitThenFetch(fetchRows, waits[1..], t, rest, replies);
    } else {
      assert (waits + [t] + rest)[0] == t;
      assert (waits + [t] + rest)[1..] == rest;
    }
  }

  /** Checks that show neither demand nor cancellation keep the loop waiting: nothing happens. */
  lemma {:induction false} WaitRunsOut(fetchRows: int32, waits: seq<Tick>, replies: seq<Reply>)
    requires Idle(waits)
    ensures Run(Kept, fetchRows, waits, replies) == Outcome([], Pending)
  {
    if waits != [] {
      WaitRunsOut(fetchRows, waits[1..], replies);
    }
  }

  /** The fetches the given demands cause, one per tick. */
  function Fetches(fetchRows: int32, demands: seq<Tick>): (fs: seq<Action>)
    ensures |fs| == |demands|
  {
    if demands == [] then [] else [Fetch(fetchRows, demands[0].requested)] + Fetches(fetchRows, demands[1..])
  }

  /**
   * The same after fetches: ticks with demand, each answered by a reply that
   * keeps the cursor, fetch once each; then a wait that ends in a
   * cancellation closes the cursor and ends the loop.
   */
  lemma {:induction false} CancelAfterFetches(fetchRows: int32, demands: seq<Tick>, kept: seq<Reply>,
                                              waits: seq<Tick>, t: Tick, rest: seq<Tick>, replies: seq<Reply>)
    requires |kept| == |demands|
    requires forall k :: 0 <= k < |demands| ==> demands[k].requested > 0 && kept[k] == Kept
    requires Idle(waits)
    requires t.requested <= 0 && t.cancelled
    ensures Run(Kept, fetchRows, demands + waits + [t] + rest, kept + replies) ==
      Outcome(Fetches(fetchRows, demands) + [Close], Cancelled)
  {
    if demands == [] {
      assert demands + waits + [t] + rest == waits + [t] + rest;
      assert kept + replies == replies;
      CancelWhileWaitingCloses(fetchRows, waits, t, rest, replies);
    } else {
      assert (demands + waits + [t] + rest)[1..] == demands[1..] + waits + [t] + rest;
      assert (kept + replies)[1..] == kept[1..] + replies;
      CancelAfterFetches(fetchRows, demands[1..], kept[1..], waits, t, rest, replies);
    }
  }

  /** Every fetch but the last one was answered with a reply that kept the cursor. */
  lemma {:induction false} KeptOpenBeforeLast(held: Reply, fetchRows: int32, ticks: seq<Tick>, replies: seq<Reply>)
    ensures var o := Run(held, fetchRows, ticks, replies);
      |o.trace| <= |replies| + 1 &&
      forall k :: 0 <= k < |o.trace| - 1 ==> replies[k] == Kept
    decreases |ticks|
  {
    var o := Run(held, fetchRows, ticks, replies);
    if held.Kept? && ticks != [] {
      if ticks[0].requested <= 0 {
        if !ticks[0].cancelled {
          assert o == Run(Kept, fetchRows, ticks[1..], replies);
          KeptOpenBeforeLast(Kept, fetchRows, ticks[1..], replies);
        }
      } else if replies != [] {
        var tail := replies[1..];
        var rest := Run(replies[0], fetchRows, ticks[1..], tail);
        assert o.trace == [Fetch(fetchRows, ticks[0].requested)] + rest.trace;
        KeptOpenBeforeLast(replies[0], fetchRows, ticks[1..], tail);
        assert |rest.trace| <= |tail| + 1;
        assert forall j :: 0 <= j < |rest.trace| - 1 ==> tail[j] == Kept;
        forall k | 1 <= k < |o.trace| - 1
          ensures replies[k] == Kept
        {
          assert replies[k] == tail[k - 1];
        }
        if |o.trace| > 1 {
          assert rest.trace != [];
          assert replies[0] == Kept;
        }
      }
    }
  }

  /**
   * A reply that drops the cursor ends the loop at once, Drained; a reply that
   * throws ends it at once with that fault.
   */
  lemma {:induction false} ReplyEndsLoop(held: Reply, fetchRows: int32, ticks: seq<Tick>, replies: seq<Reply>, n: nat)
    requires var o := Run(held, fetchRows, ticks, replies);
      0 < n <= |o.trace| && n <= |replies| && o.trace[n - 1].Fetch?
    ensures var o := Run(held, fetchRows, ticks, replies);
      (replies[n - 1] == Gone ==> |o.trace| == n && o.end == Drained) &&
      (replies[n - 1].Threw? ==> |o.trace| == n && o.end == Faulted(replies[n - 1].fault))
    decreases |ticks|
  {
    if ticks[0].requested <= 0 {
      ReplyEndsLoop(Kept, fetchRows, ticks[1..], replies, n);
    } else if n > 1 {
      var rest := Run(replies[0], fetchRows, ticks[1..], replies[1..]);
      assert Run(held, fetchRows, ticks, replies).trace[n - 1] == rest.trace[n - 2];
      ReplyEndsLoop(replies[0], fetchRows, ticks[1..], replies[1..], n - 1);
    }
  }

  /**
   * The loop ends Drained exactly when the handler held no cursor to begin
   * with, or after n fetches whose first n - 1 replies kept the cursor and
   * whose last reply dropped it.
   */
  lemma {:induction false} DrainedWhenCursorGone(held: Reply, fetchRows: int32, ticks: seq<Tick>, replies: seq<Reply>)
    ensures var o := Run(held, fetchRows, ticks, replies);
      o.end == Drained ==>
        (held == Gone && o.trace == []) ||
        (held == Kept && 0 < |o.trace| <= |replies| && replies[|o.trace| - 1] == Gone &&
         forall k :: 0 <= k < |o.trace| - 1 ==> replies[k] == Kept)
    decreases |ticks|
  {
    if held.Kept? && ticks != [] {
      if ticks[0].requested <= 0 {
        if !ticks[0].cancelled {
          DrainedWhenCursorGone(Kept, fetchRows, ticks[1..], replies);
        }
      } else if replies != [] {
        DrainedWhenCursorGone(replies[0], fetchRows, ticks[1..], replies[1..]);
      }
    }
  }

  /**
   * A driver exception ends the loop only as the answer to exec.execute
   * (before any action) or to the last fetch, and carries that exception.
   */
  lemma {:induction false} FaultedWhenDriverThrew(held: Reply, fetchRows: int32, ticks: seq<Tick>, replies: seq<Reply>)
    ensures var o := Run(held, fetchRows, ticks, replies);
      o.end.Faulted? ==>
        (held == Threw(o.end.fault) && o.trace == []) ||
        (held == Kept && 0 < |o.trace| <= |replies| && replies[|o.trace| - 1] == Threw(o.end.fault))
    decreases |ticks|
  {
    if held.Kept? && ticks != [] {
      if ticks[0].requested <= 0 {
        if !ticks[0].cancelled {
          FaultedWhenDriverThrew(Kept, fetchRows, ticks[1..], replies);
        }
      } else if replies != [] {
        FaultedWhenDriverThrew(replies[0], fetchRows, ticks[1..], replies[1..]);
      }
    }
  }

  /** Every fetch but the last consumes a reply, so the loop runs at most one fetch past the driver's answers. */
  lemma {:induction false} TraceBoundedByReplies(held: Reply, fetchRows: int32, ticks: seq<Tick>, replies: seq<Reply>)
    ensures |Run(held, fetchRows, ticks, replies).trace| <= |replies| + 1
    decreases |ticks|
  {
    if held.Kept? && ticks != [] {
      if ticks[0].requested <= 0 {
        if !ticks[0].cancelled {
          TraceBoundedByReplies(Kept, fetchRows, ticks[1..], replies);
        }
      } else if replies != [] {
        TraceBoundedByReplies(replies[0], fetchRows, ticks[1..], replies[1..]);
      }
    }
  }

  /**
   * A fetch asks for fetchRows rows whatever the demand: any demand below
   * fetchRows still fetches a full batch.
   */
  lemma FetchIgnoresDemandSize(fetchRows: int32, demand: int64, cancelled: bool, rest: seq<Tick>, replies: seq<Reply>)
    requires 0 < demand < fetchRows
    ensures var a := Run(Kept, fetchRows, [Tick(demand, cancelled)] + rest, replies).trace[0];
      a.Fetch? && a.rows > a.demand
  {
    assert ([Tick(demand, cancelled)] + rest)[0] == Tick(demand, cancelled);
  }

  /** A cancellation seen while demand is positive does not stop the fetch. */
  lemma CancelIgnoredUnderDemand(fetchRows: int32, demand: int64, rest: seq<Tick>, replies: seq<Reply>)
    requires demand > 0
    ensures Run(Kept, fetchRows, [Tick(demand, true)] + rest, replies).trace[0] == Fetch(fetchRows, demand)
  {
    assert ([Tick(demand, true)] + rest)[0] == Tick(demand, true);
  }
}
