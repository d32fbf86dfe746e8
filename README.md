# jpgsql-client connection core, modelled in Dafny

This project models the execution core of the jpgsql-client PostgreSQL client. The core is `PgLocalConnection`, `ErrorResult` and `CombinedQuery`. The model covers:

- **Parameter encoding.** `execute` binds each parameter slot into the driver's parameter list according to the slot's type OID.
- **The cursor decision.** `execute` chooses the flags and the fetch size.
- **The fetch loop.** It is demand-driven and runs while the result handler holds a cursor.
- **COPY.** `copy` maps a COPY outcome onto subscriber signals.
- **The cache loader.** It compiles a query into native statements.
- **Command batches.** `notifications` and `blockingSet` build LISTEN and SET batches.
- **`ErrorResult`.** Its constructor, accessors, `internal`, `getKind`, and the field-by-field `toString` renderer.
- **`CombinedQuery`.** Its summed parameter count, accessors, statement lookup, text and value equality.

Modules:

| file | module | what it holds |
|---|---|---|
| `wrappers.dfy` | `Wrappers` | `Option`, `Result` |
| `faults.dfy` | `Faults` | the exceptions the core can throw, as values |
| `primitives.dfy` | `Primitives` | Java `int`/`long`, octets, Guava's `Ints.checkedCast` and `Longs.toByteArray` |
| `text.dfy` | `Text` | joining with a separator, splitting, `Integer.toString` and its parser |
| `query_parameters.dfy` | `QueryParameters` | the (OID, value) slots of a `QueryParameters` |
| `combined_queries.dfy` | `CombinedQueries` | `CombinedQuery` |
| `error_results.dfy` | `ErrorResults` | `ErrorResult` and its renderer |
| `parameter_encoding.dfy` | `ParameterEncoding` | the OID switch, array literals, the driver's `ParameterList` (a class) and the binding loop |
| `streaming.dfy` | `Streaming` | cursor flags and fetch size, the `fetch:` loop (a method) and the pure `Run` it is proved against |
| `local_connection.dfy` | `LocalConnection` | `execute`, `copy`, the cache loader, the LISTEN/SET batches |

The model treats the driver and the subscriber as observations, not calls:

- Each check of `emitter.requested()` with `emitter.isCancelled()` is a `Tick`.
- Each reply of `exec.execute` and `exec.fetch` is a `Reply`. The handler still holds a cursor (`Kept`), holds none (`Gone`), or the call threw an `SQLException` (`Threw`), which leaves the loop and `execute` with an end of `Faulted`.
- Finite sequences of these stand for the unbounded waiting of the source. When they run out, the loop ends `Pending`.
- `PgArray.escapeArrayElement` and `escapeString` are uninterpreted string functions passed as parameters.

Constants follow pgjdbc's:

- type OIDs: `int4` 23, `int8` 20, `text` 25, `bytea` 17, `json` 114, `varchar` 1043, `uuid` 2950, `int4[]` 1007, `text[]` 1009, `varchar[]` 1015, `jsonb[]` 3807
- `QueryExecutor` flags: `QUERY_ONESHOT` 1, `QUERY_NO_METADATA` 2, `QUERY_NO_RESULTS` 4, `QUERY_FORWARD_CURSOR` 8, `QUERY_SUPPRESS_BEGIN` 16

The array literals follow section 8.15.2 "Array Value Input" of the PostgreSQL documentation.

The fetch loop is modelled as the code behaves:

- **A fetch is not capped at the demand.** A fetch always asks for `fetchRows` rows, whatever the outstanding demand is. One outstanding row still fetches a full batch (`Streaming.FetchIgnoresDemandSize`).
- **Cancellation is seen only while waiting.** The loop checks for it only while there is no demand. A subscriber that cancels while demand is still positive gets one more fetch (`Streaming.CancelIgnoredUnderDemand`).
- **A drained cursor is never closed by the loop.** The loop leaves when the handler drops the cursor and does not call `close` itself. Only cancellation closes it.

## Model

| member | source | states |
|---|---|---|
| `CombinedQueries.Make` | src/main/java/io/zrz/jpgsql/client/CombinedQuery.java:18-21 | the list is stored as given (the Java object keeps the caller's reference) and the parameter count bounds each part's count; the subset type `CombinedQuery` fixes `params` to the sum |
| `CombinedQueries.SumParamsAppend` | src/main/java/io/zrz/jpgsql/client/CombinedQuery.java:20 | the parameter sum of a concatenation is the sum of the two sums |
| `CombinedQueries.MakeAccessors` | src/main/java/io/zrz/jpgsql/client/CombinedQuery.java:18-36 | `getSubqueries` returns the constructor's list; `parameterCount` is the sum of the parts, 0 for no parts |
| `CombinedQueries.ParameterCountOfConcat` | src/main/java/io/zrz/jpgsql/client/CombinedQuery.java:18-21 | combining two lists adds their parameter counts |
| `CombinedQueries.MakeEqualIff` | src/main/java/io/zrz/jpgsql/client/CombinedQuery.java:12-16 | two combined queries are equal exactly when their lists are equal |
| `CombinedQueries.GetSubqueries` | src/main/java/io/zrz/jpgsql/client/CombinedQuery.java:28-31 | the returned list's parameter sum is the query's parameter count |
| `CombinedQueries.ParameterCount` | src/main/java/io/zrz/jpgsql/client/CombinedQuery.java:33-36 | at least each part's count; 0 for an empty list |
| `CombinedQueries.CreateParameters` | src/main/java/io/zrz/jpgsql/client/CombinedQuery.java:23-26 | one unset slot per declared parameter |
| `CombinedQueries.Statement` | src/main/java/io/zrz/jpgsql/client/CombinedQuery.java:38-41 | succeeds exactly for 0 <= id < number of parts, with the id-th part; otherwise IndexOutOfBounds(id, size) |
| `CombinedQueries.ToString` | src/main/java/io/zrz/jpgsql/client/CombinedQuery.java:43-45 | empty for no parts, the one SQL for one part, starts with the first part's SQL and ends with the last's |
| `CombinedQueries.ToStringSnoc` | src/main/java/io/zrz/jpgsql/client/CombinedQuery.java:43-45 | adding a part adds exactly ";\n" and its SQL at the end: separators only between parts |
| `ErrorResults.AccessorsReturnArguments` | src/main/java/io/zrz/jpgsql/client/ErrorResult.java:22-50 | statementId, message, state, serverErrorMessage and cause return the constructor's arguments |
| `ErrorResults.Internal` | src/main/java/io/zrz/jpgsql/client/ErrorResult.java:57-59 | statement id -1, state "", no server message, the exception's message, the exception as cause |
| `ErrorResults.GetKind` | src/main/java/io/zrz/jpgsql/client/ErrorResult.java:52-55 | always ERROR |
| `ErrorResults.OrderIndex` | src/main/java/io/zrz/jpgsql/client/ErrorResult.java:131-186 | every field has a place in the render order |
| `ErrorResults.RenderOrderCoversEachFieldOnce` | src/main/java/io/zrz/jpgsql/client/ErrorResult.java:131-186 | the render order lists each of the 17 fields exactly once |
| `ErrorResults.Label` | src/main/java/io/zrz/jpgsql/client/ErrorResult.java:133-184 | each key is non-empty and ends with "=" |
| `ErrorResults.GetField` | src/main/java/io/zrz/jpgsql/client/ErrorResult.java:61-128 | a getter fails with a NullPointerException exactly when there is no server message; otherwise it returns the server message's field |
| `ErrorResults.Shown` | src/main/java/io/zrz/jpgsql/client/ErrorResult.java:133-184 | a string field is shown when non-null; an int field (internalPosition, position, line) only when non-zero |
| `ErrorResults.ShownIntReadsBack` | src/main/java/io/zrz/jpgsql/client/ErrorResult.java:157-168 | a shown int field reads back as the same int |
| `ErrorResults.Token` | src/main/java/io/zrz/jpgsql/client/ErrorResult.java:133-184 | empty exactly when the field is absent, else key, "=", value and one space |
| `ErrorResults.Rendering` | src/main/java/io/zrz/jpgsql/client/ErrorResult.java:130-186 | a non-empty rendering ends with a space |
| `ErrorResults.RenderingAt` | src/main/java/io/zrz/jpgsql/client/ErrorResult.java:131-186 | each field's token sits after the tokens of the fields before it in the fixed order and before those after it |
| `ErrorResults.RenderingEmptyIff` | src/main/java/io/zrz/jpgsql/client/ErrorResult.java:131-186 | the rendering is "" exactly when every field is absent |
| `ErrorResults.RenderingEndsWithSpace` | src/main/java/io/zrz/jpgsql/client/ErrorResult.java:131-186 | a non-empty rendering ends with the space that closes its last token |
| `ErrorResults.RenderingSpelledOut` | src/main/java/io/zrz/jpgsql/client/ErrorResult.java:131-186 | the rendering is the 17 tokens in the order detail, where, schema, table, column, datatype, constraint, internalQuery, internalPosition, position, file, line, hint, routine, severity, sqlstate, message |
| `ErrorResults.AppendIfPresent` | src/main/java/io/zrz/jpgsql/client/ErrorResult.java:133-135 | one conditional append adds the field's token and nothing else |
| `ErrorResults.ToString` | src/main/java/io/zrz/jpgsql/client/ErrorResult.java:130-186 | fails with a NullPointerException exactly when there is no server message, else yields the rendering |
| `ErrorResults.InternalToStringThrows` | src/main/java/io/zrz/jpgsql/client/ErrorResult.java:57-59 | toString of an internal error always throws |
| `ErrorResults.Describe` | src/main/java/io/zrz/jpgsql/client/ErrorResult.java:131-186 | the total renderer: "" exactly when there is no server message or no field is present, else the rendering |
| `Primitives.CheckedCast` | src/main/java/io/zrz/jpgsql/client/opj/PgLocalConnection.java:329 | a value comes back exactly when it fits in an int, and unchanged |
| `Primitives.LongBytesRoundTrip` | src/main/java/io/zrz/jpgsql/client/opj/PgLocalConnection.java:202-203 | eight big-endian two's-complement bytes read back as the long |
| `Primitives.LongToBytesSign` | src/main/java/io/zrz/jpgsql/client/opj/PgLocalConnection.java:202-203 | the first byte is 128 or more exactly when the long is negative |
| `Primitives.FromBigEndianOfBigEndian` | src/main/java/io/zrz/jpgsql/client/opj/PgLocalConnection.java:202-203 | n big-endian bytes of a number below 256^n read back as the number |
| `Primitives.LongToBytes` | src/main/java/io/zrz/jpgsql/client/opj/PgLocalConnection.java:202-203 | `Longs.toByteArray` gives exactly 8 bytes |
| `Text.JoinSnoc` | src/main/java/io/zrz/jpgsql/client/opj/PgLocalConnection.java:198 | joining one more part adds one separator, in front of it |
| `Text.SplitJoin` | src/main/java/io/zrz/jpgsql/client/opj/PgLocalConnection.java:198 | splitting a join of separator-free parts at the separator gives the parts back |
| `Text.IntToStringRoundTrip` | src/main/java/io/zrz/jpgsql/client/opj/PgLocalConnection.java:198 | Integer.toString reads back as the same int |
| `ParameterEncoding.BuildTextArray` | src/main/java/io/zrz/jpgsql/client/opj/PgLocalConnection.java:218-233 | the builder loop yields "{", the escaped elements with "," only between neighbours, and "}" |
| `ParameterEncoding.TextArrayLiteralShape` | src/main/java/io/zrz/jpgsql/client/opj/PgLocalConnection.java:218-233 | an empty array gives "{}"; otherwise the literal's length is 2 + the total length of the escaped elements + n - 1, and it starts with "{" and the first escaped element |
| `ParameterEncoding.TextArrayRoundTrip` | src/main/java/io/zrz/jpgsql/client/opj/PgLocalConnection.java:218-233 | the literal is braced; when no escaped element holds a comma, splitting between the braces at the commas gives the escaped elements back, in order |
| `ParameterEncoding.Int4ArrayRoundTrip` | src/main/java/io/zrz/jpgsql/client/opj/PgLocalConnection.java:196-200 | parsing the int[] literal gives the original ints |
| `ParameterEncoding.IntArrayLiteral` | src/main/java/io/zrz/jpgsql/client/opj/PgLocalConnection.java:196-200 | the literal is "{}" exactly for the empty array |
| `ParameterEncoding.Int8Encoding` | src/main/java/io/zrz/jpgsql/client/opj/PgLocalConnection.java:202-203 | an int8 slot is bound as exactly 8 bytes, tagged INT8, that read back as the long |
| `ParameterEncoding.EncodeSlot` | src/main/java/io/zrz/jpgsql/client/opj/PgLocalConnection.java:178-237 | a slot encodes exactly when its value is null, pre-encoded binary, or the right Java type for a handled OID; null binds as null with the slot's OID; binary binds with the value's own OID; an unhandled OID fails with UnsupportedOid; a failed cast fails with ClassCast. Per OID: int4 binds the int; int4[] binds its "{...}" literal as a string with OID int4[]; int8 binds the long's 8 bytes as binary; uuid binds its bytes as binary; bytea binds its bytes with setBytea; text, json and varchar bind the string with their OID; text[], varchar[] and jsonb[] bind the escaped text-array literal with their OID |
| `ParameterEncoding.EncodeAll` | src/main/java/io/zrz/jpgsql/client/opj/PgLocalConnection.java:174-240 | on success there is one encoding per parameter, and the list has room for all of them |
| `ParameterEncoding.EncodeAllSlots` | src/main/java/io/zrz/jpgsql/client/opj/PgLocalConnection.java:174-240 | encoding succeeds exactly when the list has room for every slot and every slot encodes; slot i then holds parameter i's encoding |
| `ParameterEncoding.UnsupportedOidRejects` | src/main/java/io/zrz/jpgsql/client/opj/PgLocalConnection.java:235-236 | any slot with an unhandled OID (not null, not pre-encoded) rejects the whole list |
| `ParameterEncoding.EncodeAllPrefixFailure` | src/main/java/io/zrz/jpgsql/client/opj/PgLocalConnection.java:174-240 | the first failing slot decides the error |
| `ParameterEncoding.ParameterList.constructor` | src/main/java/io/zrz/jpgsql/client/opj/PgLocalConnection.java:174 | a list of the compiled query's size with every slot unset and never written |
| `ParameterEncoding.ParameterList.Bind` | src/main/java/io/zrz/jpgsql/client/opj/PgLocalConnection.java:182-230 | sets slot index (1-based) and counts the write; an index outside the list changes nothing |
| `ParameterEncoding.EncodeParameters` | src/main/java/io/zrz/jpgsql/client/opj/PgLocalConnection.java:176-240 | succeeds exactly when `EncodeAll` succeeds, with its error otherwise; on success slots 1..count hold the encodings, each written exactly once, and the rest are untouched |
| `Streaming.CursorSettings` | src/main/java/io/zrz/jpgsql/client/opj/PgLocalConnection.java:269-273 | a positive fetch size sets FORWARD_CURSOR and fetches that many rows; otherwise flags are unchanged and fetchRows is 0; other flag bits never change |
| `Streaming.Run` | src/main/java/io/zrz/jpgsql/client/opj/PgLocalConnection.java:277-297 | a handler without a cursor ends Drained at once, one whose driver call threw ends Faulted with that exception at once; never more actions than demand checks. Whether a fetch happens is stated in two directions: `FetchOnlyOnDemand` (only under positive demand) and `WaitThenFetch` (the first check with demand after any idle checks fetches) |
| `Streaming.FetchLoop` | src/main/java/io/zrz/jpgsql/client/opj/PgLocalConnection.java:279-297 | the labelled loop produces exactly the actions and end of `Run` on the same observations |
| `Streaming.FetchOnlyOnDemand` | src/main/java/io/zrz/jpgsql/client/opj/PgLocalConnection.java:281-295 | every fetch happens under positive demand and asks for fetchRows rows |
| `Streaming.CloseOnlyOnCancel` | src/main/java/io/zrz/jpgsql/client/opj/PgLocalConnection.java:288-291 | the loop ends Cancelled exactly when its last action is a close; every earlier action is a fetch, so the cursor is closed at most once |
| `Streaming.CancelledOnlyWhileWaiting` | src/main/java/io/zrz/jpgsql/client/opj/PgLocalConnection.java:281-292 | cancellation is acted on only when seen on a check with no demand |
| `Streaming.WaitThenFetch` | src/main/java/io/zrz/jpgsql/client/opj/PgLocalConnection.java:281-295 | after any number of checks without demand or cancellation, the first check with positive demand makes the loop fetch fetchRows rows with that demand; the reply to that fetch decides the rest |
| `Streaming.WaitRunsOut` | src/main/java/io/zrz/jpgsql/client/opj/PgLocalConnection.java:281-292 | checks without demand or cancellation alone produce no action and leave the loop Pending |
| `Streaming.CancelWhileWaitingCloses` | src/main/java/io/zrz/jpgsql/client/opj/PgLocalConnection.java:281-292 | conversely, checks without demand or cancellation followed by one without demand that shows cancellation close the cursor and end the loop Cancelled, whatever follows |
| `Streaming.CancelAfterFetches` | src/main/java/io/zrz/jpgsql/client/opj/PgLocalConnection.java:279-295 | the same after any number of fetches under demand whose replies kept the cursor: those fetches, then the close |
| `Streaming.KeptOpenBeforeLast` | src/main/java/io/zrz/jpgsql/client/opj/PgLocalConnection.java:279-295 | the loop takes at most one action more than there are replies, and every fetch but the last was answered by a reply that kept the cursor |
| `Streaming.ReplyEndsLoop` | src/main/java/io/zrz/jpgsql/client/opj/PgLocalConnection.java:279-295 | conversely, a fetch answered by a reply that drops the cursor is the last action and the loop ends Drained; one answered by an exception is the last action and the loop ends Faulted with it |
| `Streaming.DrainedWhenCursorGone` | src/main/java/io/zrz/jpgsql/client/opj/PgLocalConnection.java:279 | the loop ends Drained only when the handler held no cursor after execute, or after n fetches whose first n - 1 replies kept it and whose n-th dropped it |
| `Streaming.FaultedWhenDriverThrew` | src/main/java/io/zrz/jpgsql/client/opj/PgLocalConnection.java:277-295 | the loop ends Faulted only with the exception exec.execute threw (before any action) or the one the last fetch threw |
| `Streaming.TraceBoundedByReplies` | src/main/java/io/zrz/jpgsql/client/opj/PgLocalConnection.java:279-297 | the loop takes at most one action more than the driver gave replies |
| `Streaming.FetchIgnoresDemandSize` | src/main/java/io/zrz/jpgsql/client/opj/PgLocalConnection.java:295 | any demand below fetchRows still fetches fetchRows rows, more than asked for |
| `Streaming.CancelIgnoredUnderDemand` | src/main/java/io/zrz/jpgsql/client/opj/PgLocalConnection.java:281-295 | a cancellation seen while demand is positive does not stop the next fetch |
| `LocalConnection.Subqueries` | src/main/java/io/zrz/jpgsql/client/CombinedQuery.java:28-31 | a simple statement is its own only subquery; a batch gives its list |
| `LocalConnection.Load` | src/main/java/io/zrz/jpgsql/client/opj/PgLocalConnection.java:135-140 | one native statement per subquery, in order, with its SQL and parameter count |
| `LocalConnection.LoadKeepsParameterCount` | src/main/java/io/zrz/jpgsql/client/opj/PgLocalConnection.java:135-140 | the compiled query has as many bind slots as the query declares parameters |
| `LocalConnection.Copy` | src/main/java/io/zrz/jpgsql/client/opj/PgLocalConnection.java:323-337 | a finished COPY emits CommandStatus(0, "COPY", rows, 0) then completion; a failed one only the error; a row count beyond int throws and emits nothing; what is emitted ends in exactly one terminal signal |
| `LocalConnection.CopyReportsRows` | src/main/java/io/zrz/jpgsql/client/opj/PgLocalConnection.java:327-331 | a successful COPY delivers exactly one status, whose update count is the rows copied |
| `LocalConnection.AfterExecute` | src/main/java/io/zrz/jpgsql/client/opj/PgLocalConnection.java:269-279 | the handler holds a cursor after exec.execute only when the driver reports one and fetchRows is positive; an exception from exec.execute is passed on unchanged |
| `LocalConnection.Execute` | src/main/java/io/zrz/jpgsql/client/opj/PgLocalConnection.java:158-321 | a COPY goes to copy; with no or zero parameters no list is built; encoding failure rejects before anything is submitted; otherwise the list holds the encodings and the rest unset, the flags and fetchRows are the cursor settings, and the loop runs as `Run` from what exec.execute left (an exception from exec.execute or exec.fetch ends it Faulted) |
| `LocalConnection.ListenStatements` | src/main/java/io/zrz/jpgsql/client/opj/PgLocalConnection.java:363-366 | one "LISTEN " + escaped channel per channel, in channel order, without parameters |
| `LocalConnection.ListenSubmission` | src/main/java/io/zrz/jpgsql/client/opj/PgLocalConnection.java:363-368 | the LISTEN batch is executed without parameters, flags 0 and fetch size 0 |
| `LocalConnection.SetStatements` | src/main/java/io/zrz/jpgsql/client/opj/PgLocalConnection.java:404-408 | one "SET k TO v" per property, in order, without parameters |
| `LocalConnection.SetSubmission` | src/main/java/io/zrz/jpgsql/client/opj/PgLocalConnection.java:404-410 | the SET batch is executed without parameters and with SuppressBegin |
| `LocalConnection.CommandBatchesBindNothing` | src/main/java/io/zrz/jpgsql/client/opj/PgLocalConnection.java:363-410 | LISTEN and SET batches declare no parameters, so execute binds none |

## Left out

- CombinedQueries.Make: the Java constructor stores the caller's `List` by reference, and `getSubqueries` hands that same list out. A caller that mutates it later changes the statements and their text, while `params` keeps the old sum. The model holds an immutable sequence, so the sum invariant and the text hold only while no caller mutates the list.
- CombinedQueries.Make: the sum is an unbounded natural. Java's `int` sum would wrap past 2^31 - 1, and that wrap is not modelled.
- `SimpleQuery.java` is not part of this model. A statement is its SQL and its declared parameter count, and its one-argument constructor (used for the LISTEN and SET statements) is taken to declare no parameters.
- `DefaultParametersList` is not part of this model. Its unset slot is taken as type OID 0 with a null value (`QueryParameters.UNSET`).
- `CommandStatus.java` is not part of this model. `CommandStatus` is modelled by its four constructor arguments in order; their names (statement id, command tag, update count, OID) are inferred from the call in `copy`.
- `QueryResultKind` is modelled only up to the constants the core uses (ROWS, STATUS, ERROR).
- `PgArray.escapeArrayElement` and `PgConnection.escapeString` are opaque string functions, passed in as parameters.
- pgjdbc's `QueryExecutor.execute`, `fetch`, `cursor.close`, `copyIn` and `wrap` are foreign calls. The effects of `execute` and `fetch` are `Reply` observations: a cursor held, none, or an `SQLException`. `copyIn` is a `CopyOutcome`: a row count or an exception. `cursor.close` is an action in the trace with no observed result.
- Streaming.FetchLoop: `cursor.close()` is taken never to throw. pgjdbc's `ResultCursor.close` declares no checked exception. Runtime exceptions from any driver call are not modelled.
- LocalConnection.Execute: an `SQLException` is modelled only for `exec.execute` and `exec.fetch` (as `Threw`). Runtime exceptions from the driver and the `SQLException`s of `getWarnings` and `commit` after the loop are not modelled.
- ParameterEncoding.ParameterList.Bind: pgjdbc's own range check on `setX` is modelled as a refusal outside 1..size, reported as ParameterIndexOutOfRange.
- LocalConnection.Execute: a cursor is taken to exist after `exec.execute` only when the driver reports one and fetchRows > 0. pgjdbc opens a portal only for a forward-cursor execution with a positive fetch size.
- Streaming.FetchLoop: the unbounded waiting in the `Thread.sleep(10)` poll is cut at the end of the observations, and the loop then ends `Pending`. The `InterruptedException` rethrow is not modelled.
- Null elements inside a `String[]` or `int[]` parameter are not modelled.
- Bytes are octets (0..255). Java's signed `byte` holds the same eight bits.
- The text of the message a failed cast, an unhandled OID or an out-of-range index would carry is not modelled; each becomes a `Fault` value.
- The notification polling loop is left out because it is I/O and timing: `getNotifications(1000)`, `setCancellable`, `cancelQuery` and `NotifyMessage` delivery. Only the LISTEN batch it submits is modelled.
- The Guava cache's weak references, size bound and five-minute expiry are left out; only the loader mapping is modelled.
- The following are left out as side-effect plumbing: `blockingExecute`, `commit`, `rollback`, `transactionState`, `close`, logging, listener callbacks and `getWarnings`.
- The RxJava emitter and `Flowable.create` wrappers are left out. `Flowable.create` turns an exception thrown by `execute` into `onError`; the model reports the exception itself (`Rejected`, `Failure`).
- blockingSet iterates a `Map`'s entry set. The model takes the entries as a sequence in iteration order.

## Findings

| source | as written | input that shows it | evidently intended | confidence | as-written member | corrected member |
|---|---|---|---|---|---|---|
| src/main/java/io/zrz/jpgsql/client/ErrorResult.java:57-59, 130-186 | `internal(ex)` builds an error with a null server message, and `toString` (like `getMessage`) dereferences it in its first getter | `ErrorResult.internal(new RuntimeException("x")).toString()` throws NullPointerException | rendering an internal error does not throw; with no server message there is no field to show | medium, not executed | `ErrorResults.InternalToStringThrows` | `ErrorResults.Describe` |
