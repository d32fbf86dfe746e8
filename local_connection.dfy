/**
 * PgLocalConnection: how execute turns a query and its parameters into one
 * submission to the driver (compiled statements, a bound parameter list, the
 * cursor flags and the fetch loop), how a COPY's outcome becomes subscriber
 * signals, and the LISTEN and SET batches that notifications and blockingSet
 * submit. The driver is observed through a Driver record instead of called.
 */
module LocalConnection {
  import opened Wrappers
  import opened Primitives
  import opened Faults
  import opened QueryParameters
  import opened CombinedQueries
  import opened ParameterEncoding
  import opened Streaming
  import ErrorResults
  import Text

  /** A query as execute receives it: a single statement, a batch, or a COPY ... FROM STDIN with its data. */
  datatype Query =
    | Single(simple: SimpleQuery)
    | Batch(combined: CombinedQuery)
    | CopyIn(command: string, data: seq<octet>)

  /** getSubqueries(): a simple statement is its own only subquery. */
  function Subqueries(q: Query): (qs: seq<SimpleQuery>)
    requires !q.CopyIn?
    ensures q.Single? ==> qs == [q.simple]
    ensures q.Batch? ==> qs == GetSubqueries(q.combined)
  {
    if q.Single? then [q.simple] else GetSubqueries(q.combined)
  }

  /** A statement as the driver compiles it: its SQL and the number of parameters it binds. */
  datatype NativeQuery = NativeQuery(sql: string, bindCount: nat)

  /** The driver's query object: the native statements it wraps, in order. */
  datatype Compiled = Compiled(natives: seq<NativeQuery>)

  /** The size of the parameter list the compiled query creates: all bind slots of all statements. */
  function ParameterSlots(natives: seq<NativeQuery>): nat
  {
    if natives == [] then 0 else natives[0].bindCount + ParameterSlots(natives[1..])
  }

  /** The cache loader: one native statement per subquery, with its SQL and parameter count. */
  function Load(q: Query): (c: Compiled)
    requires !q.CopyIn?
    ensures |c.natives| == |Subqueries(q)|
    ensures forall i :: 0 <= i < |c.natives| ==>
      c.natives[i].sql == Subqueries(q)[i].sql && c.natives[i].bindCount == Subqueries(q)[i].parameterCount
  {
    var qs := Subqueries(q);
    Compiled(seq(|qs|, i requires 0 <= i < |qs| => NativeQuery(qs[i].sql, qs[i].parameterCount)))
  }

  lemma {:induction false} SlotsOfNatives(natives: seq<NativeQuery>, qs: seq<SimpleQuery>)
    requires |natives| == |qs|
    requires forall i :: 0 <= i < |qs| ==> natives[i].bindCount == qs[i].parameterCount
    ensures ParameterSlots(natives) == SumParams(qs)
  {
    if qs != [] {
      SlotsOfNatives(natives[1..], qs[1..]);
    }
  }

  /**
   * The compiled query has one bind slot for every parameter the query
   * declares: a batch's parameterCount(), a simple statement's own count.
   */
  lemma LoadKeepsParameterCount(q: Query)
    requires !q.CopyIn?
    ensures q.Batch? ==> ParameterSlots(Load(q).natives) == ParameterCount(q.combined)
    ensures q.Single? ==> ParameterSlots(Load(q).natives) == q.simple.parameterCount
  {
    SlotsOfNatives(Load(q).natives, Subqueries(q));
  }

  /**
   * A CommandStatus result, by its four constructor arguments. The names
   * (statement id, command tag, update count, OID) are read off the call
   * CommandStatus(0, "COPY", rows, 0); only the argument order is certain.
   */
  datatype CommandStatus = CommandStatus(statementId: int32, command: string, updateCount: int32, oid: int32)

  /** What the subscriber receives. */
  datatype Signal = OnNext(status: CommandStatus) | OnComplete | OnError(error: ErrorResults.Throwable)

  /** The driver's copyIn: the number of rows copied, or the SQLException / IOException it threw. */
  datatype CopyOutcome = CopyDone(rows: int64) | CopyFailed(error: ErrorResults.Throwable)

  predicate Terminal(s: Signal)
  {
    s.OnComplete? || s.OnError?
  }

  /** A signal sequence ends in exactly one terminal signal. */
  predicate Terminated(signals: seq<Signal>)
  {
    signals != [] && Terminal(signals[|signals| - 1]) &&
    forall k :: 0 <= k < |signals| - 1 ==> !Terminal(signals[k])
  }

  /**
   * copy: a finished COPY reports its row count as one CommandStatus and
   * completes; a failed one reports only the error. A row count beyond int
   * fails Ints.checkedCast, which copy does not catch, so nothing is emitted.
   */
  function Copy(outcome: CopyOutcome): (r: Result<seq<Signal>, Fault>)
    ensures r.Failure? <==> outcome.CopyDone? && CheckedCast(outcome.rows).None?
    ensures r.Failure? ==> r.error == IllegalArgument
    ensures r.Success? ==> Terminated(r.value)
    ensures r.Success? ==> (r.value[|r.value| - 1] == OnComplete <==> outcome.CopyDone?)
    ensures r.Success? && outcome.CopyDone? ==> r.value == [OnNext(CommandStatus(0, "COPY", outcome.rows, 0)), OnComplete]
    ensures outcome.CopyFailed? ==> r == Success([OnError(outcome.error)])
  {
    match outcome
    case CopyFailed(e) => Success([OnError(e)])
    case CopyDone(rows) =>
      match CheckedCast(rows)
      case None => Failure(IllegalArgument)
      case Some(n) => Success([OnNext(CommandStatus(0, "COPY", n, 0)), OnComplete])
  }

  /** The statuses a signal sequence carries. */
  function Statuses(signals: seq<Signal>): (ss: seq<CommandStatus>)
    ensures |ss| <= |signals|
  {
    if signals == [] then []
    else (if signals[0].OnNext? then [signals[0].status] else []) + Statuses(signals[1..])
  }

  /** A successful COPY delivers exactly one status, and its update count is the number of rows copied. */
  lemma CopyReportsRows(rows: int64)
    requires INT32_MIN <= rows <= INT32_MAX
    ensures Copy(CopyDone(rows)).Success?
    ensures var ss := Statuses(Copy(CopyDone(rows)).value);
      |ss| == 1 && ss[0].command == "COPY" && ss[0].updateCount as int == rows as int
  {
    var sigs := Copy(CopyDone(rows)).value;
    assert sigs[1..][1..] == [];
  }

  /** What the driver and the subscriber do, as the model observes them. */
  datatype Driver = Driver(
    escapeArrayElement: string -> string,  // PgArray.escapeArrayElement
    executeReply: Reply,                   // after exec.execute: cursor held, none, or the SQLException thrown
    ticks: seq<Tick>,                      // the subscriber's demand and cancellation, check by check
    replies: seq<Reply>,                   // after each exec.fetch: cursor held, none, or the SQLException thrown
    copyOutcome: CopyOutcome)              // what copyIn returns or throws

  /**
   * What the handler holds once exec.execute returns: pgjdbc hands back a
   * cursor only for a positive fetch size, so a driver claiming one without it
   * is read as holding none; an exception is passed on as thrown.
   */
  function AfterExecute(reply: Reply, fetchRows: int32): (held: Reply)
    ensures held.Kept? ==> reply.Kept? && fetchRows > 0
    ensures held.Threw? <==> reply.Threw?
    ensures held.Threw? ==> held == reply
    ensures reply.Kept? && fetchRows > 0 ==> held.Kept?
  {
    if reply.Kept? && fetchRows <= 0 then Gone else reply
  }

  /** What one call of execute does. */
  datatype Execution =
    | Copied(signals: Result<seq<Signal>, Fault>)
    | Rejected(fault: Fault)
    | Submitted(compiled: Compiled, bound: Option<seq<Option<Bound>>>, flags: bv32, fetchRows: int32, outcome: Outcome)

  /** Whether a parameter list is built at all: only for a non-null, non-empty QueryParameters. */
  predicate HasParameters(params: Option<seq<Param>>)
  {
    params.Some? && |params.value| > 0
  }

  /**
   * execute: a COPY goes to copy. Any other query is compiled through the
   * cache loader; when parameters are given, every slot is encoded and bound
   * (an encoding failure rejects the query before anything is submitted).
   * The query is then submitted with the cursor settings, and the fetch loop
   * runs while the handler holds a cursor; pgjdbc hands one back only for a
   * forward-cursor execution with a positive fetch size. An SQLException from
   * exec.execute or exec.fetch ends the outcome Faulted.
   */
  method Execute(query: Query, params: Option<seq<Param>>, fetchSize: int32, flags: bv32, driver: Driver)
    returns (x: Execution)
    ensures query.CopyIn? <==> x.Copied?
    ensures query.CopyIn? ==> x.signals == Copy(driver.copyOutcome)
    ensures !query.CopyIn? && !HasParameters(params) ==> x.Submitted? && x.bound.None?
    ensures !query.CopyIn? && HasParameters(params) ==>
      var encoded := EncodeAll(params.value, ParameterSlots(Load(query).natives), driver.escapeArrayElement);
      (x.Rejected? <==> encoded.Failure?) &&
      (x.Rejected? ==> x.fault == encoded.error) &&
      (x.Submitted? ==> x.bound.Some? && |x.bound.value| == ParameterSlots(Load(query).natives)) &&
      (x.Submitted? ==> forall k :: 0 <= k < |params.value| ==> x.bound.value[k] == Some(encoded.value[k])) &&
      (x.Submitted? ==> forall k :: |params.value| <= k < |x.bound.value| ==> x.bound.value[k].None?)
    ensures x.Submitted? ==>
      var settings := CursorSettings(fetchSize, flags);
      x.compiled == Load(query) && x.flags == settings.flags && x.fetchRows == settings.fetchRows &&
      x.outcome == Run(AfterExecute(driver.executeReply, settings.fetchRows), settings.fetchRows, driver.ticks, driver.replies)
  {
    if query.CopyIn? {
      return Copied(Copy(driver.copyOutcome));
    }
    var compiled := Load(query);
    var bound: Option<seq<Option<Bound>>> := None;
    if HasParameters(params) {
      var pl := new ParameterList(ParameterSlots(compiled.natives));
      var encoded := EncodeParameters(params.value, pl, driver.escapeArrayElement);
      if encoded.Failure? {
        return Rejected(encoded.error);
      }
      bound := Some(pl.slots);
    }
    var settings := CursorSettings(fetchSize, flags);
    var trace, end := FetchLoop(AfterExecute(driver.executeReply, settings.fetchRows), settings.fetchRows, driver.ticks, driver.replies);
    x := Submitted(compiled, bound, settings.flags, settings.fetchRows, Outcome(trace, end));
  }

  /** What notifications and blockingSet hand to execute. */
  datatype Submission = Submission(query: Query, params: Option<seq<Param>>, fetchSize: int32, flags: bv32)

  function ListenStatements(channels: seq<string>, escapeIdentifier: string -> string): (qs: seq<SimpleQuery>)
    ensures |qs| == |channels|
    ensures forall i :: 0 <= i < |channels| ==> qs[i] == SimpleQuery("LISTEN " + escapeIdentifier(channels[i]), 0)
  {
    seq(|channels|, i requires 0 <= i < |channels| => SimpleQuery("LISTEN " + escapeIdentifier(channels[i]), 0))
  }

  /** notifications: one LISTEN per channel, in channel order, run without parameters and without a cursor. */
  function ListenSubmission(channels: seq<string>, escapeIdentifier: string -> string): (s: Submission)
    ensures s.query.Batch? && GetSubqueries(s.query.combined) == ListenStatements(channels, escapeIdentifier)
    ensures s.params.None? && s.fetchSize == 0 && s.flags == 0
  {
    Submission(Batch(Make(ListenStatements(channels, escapeIdentifier))), None, 0, 0)
  }

  function SetStatements(properties: seq<(string, string)>): (qs: seq<SimpleQuery>)
    ensures |qs| == |properties|
    ensures forall i :: 0 <= i < |properties| ==>
      qs[i] == SimpleQuery("SET " + properties[i].0 + " TO " + properties[i].1, 0)
  {
    seq(|properties|, i requires 0 <= i < |properties| => SimpleQuery("SET " + properties[i].0 + " TO " + properties[i].1, 0))
  }

  /** blockingSet: one SET per property, in the map's iteration order, run with SuppressBegin. */
  function SetSubmission(properties: seq<(string, string)>): (s: Submission)
    ensures s.query.Batch? && GetSubqueries(s.query.combined) == SetStatements(properties)
    ensures s.params.None? && s.fetchSize == 0 && s.flags == QUERY_SUPPRESS_BEGIN
  {
    Submission(Batch(Make(SetStatements(properties))), None, 0, QUERY_SUPPRESS_BEGIN)
  }

  /**
   * A LISTEN or SET batch declares no parameters, so execute binds none.
   */
  lemma CommandBatchesBindNothing(channels: seq<string>, escapeIdentifier: string -> string, properties: seq<(string, string)>)
    ensures ParameterCount(ListenSubmission(channels, escapeIdentifier).query.combined) == 0
    ensures ParameterCount(SetSubmission(properties).query.combined) == 0
  {
    ZeroParams(ListenStatements(channels, escapeIdentifier));
    ZeroParams(SetStatements(properties));
  }

  lemma {:induction false} ZeroParams(qs: seq<SimpleQuery>)
    requires forall i :: 0 <= i < |qs| ==> qs[i].parameterCount == 0
    ensures SumParams(qs) == 0
  {
    if qs != [] {
      ZeroParams(qs[1..]);
    }
  }
}
