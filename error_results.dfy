/**
 * ErrorResult: the structured error value a statement or the connection
 * reports. It carries the statement id, SQLSTATE, message, cause and the
 * server's ErrorResponse fields (section "Error and Notice Message Fields"
 * of the PostgreSQL Frontend/Backend Protocol), and renders the fields that
 * are present as "key=value " tokens in a fixed order.
 */
module ErrorResults {
  import opened Wrappers
  import opened Primitives
  import opened Faults
  import Text

  /** The kinds of result a query stream carries; an error is always ERROR. */
  datatype QueryResultKind = ROWS | STATUS | ERROR

  /**
   * The fields of a server ErrorResponse as pgjdbc's ServerErrorMessage
   * exposes them: a text field is absent (null) when the server did not send
   * it, a numeric field reads 0.
   */
  datatype ServerErrorMessage = ServerErrorMessage(
    severity: Option<string>,
    sqlState: Option<string>,
    message: Option<string>,
    detail: Option<string>,
    hint: Option<string>,
    position: int32,
    whereText: Option<string>,
    internalPosition: int32,
    internalQuery: Option<string>,
    schema: Option<string>,
    table: Option<string>,
    column: Option<string>,
    dataType: Option<string>,
    constraint: Option<string>,
    file: Option<string>,
    line: int32,
    routine: Option<string>)

  /** An exception, seen only through its (possibly null) message. */
  datatype Throwable = Throwable(message: Option<string>)

  /** The five values the constructor takes, which the accessors return. */
  datatype ErrorResult = ErrorResult(
    statementId: int32,
    message: Option<string>,
    state: Option<string>,
    serverErrorMessage: Option<ServerErrorMessage>,
    cause: Option<Throwable>)

  /** statementId, message, state, serverErrorMessage and cause return the constructor's arguments. */
  lemma AccessorsReturnArguments(id: int32, msg: Option<string>, st: Option<string>,
                                 sem: Option<ServerErrorMessage>, cause: Option<Throwable>)
    ensures var e := ErrorResult(id, msg, st, sem, cause);
      e.statementId == id && e.message == msg && e.state == st &&
      e.serverErrorMessage == sem && e.cause == cause
  {
  }

  /** internal(ex): an error that no statement and no server message stands behind. */
  function Internal(ex: Throwable): (e: ErrorResult)
    ensures e.statementId == -1
    ensures e.state == Some("")
    ensures e.serverErrorMessage.None?
    ensures e.message == ex.message && e.cause == Some(ex)
  {
    ErrorResult(-1, ex.message, Some(""), None, Some(ex))
  }

  function GetKind(e: ErrorResult): (k: QueryResultKind)
    ensures k == ERROR
  {
    ERROR
  }

  /** The server fields, named as toString names them. */
  datatype Field =
    | Detail | Where | Schema | Table | Column | Datatype | Constraint
    | InternalQuery | InternalPosition | Position | File | Line | Hint
    | Routine | Severity | SqlState | Message

  /** The order in which toString emits the fields. */
  const RENDER_ORDER: seq<Field> := [
    Detail, Where, Schema, Table, Column, Datatype, Constraint,
    InternalQuery, InternalPosition, Position, File, Line, Hint,
    Routine, Severity, SqlState, Message]

  /** Where a field stands in the render order. */
  function OrderIndex(f: Field): (i: nat)
    ensures i < |RENDER_ORDER| && RENDER_ORDER[i] == f
  {
    match f
    case Detail => 0
    case Where => 1
    case Schema => 2
    case Table => 3
    case Column => 4
    case Datatype => 5
    case Constraint => 6
    case InternalQuery => 7
    case InternalPosition => 8
    case Position => 9
    case File => 10
    case Line => 11
    case Hint => 12
    case Routine => 13
    case Severity => 14
    case SqlState => 15
    case Message => 16
  }

  /** Every field appears in the render order, and only once. */
  lemma RenderOrderCoversEachFieldOnce()
    ensures forall f: Field :: f in RENDER_ORDER
    ensures forall i, j :: 0 <= i < j < |RENDER_ORDER| ==> RENDER_ORDER[i] != RENDER_ORDER[j]
  {
    forall f: Field ensures f in RENDER_ORDER {
      var i := OrderIndex(f);
    }
  }

  /** What toString writes in front of a field's value: its key and "=". */
  function Label(f: Field): (k: string)
    ensures |k| > 1 && k[|k| - 1] == '='
  {
    match f
    case Detail => "detail="
    case Where => "where="
    case Schema => "schema="
    case Table => "table="
    case Column => "column="
    case Datatype => "datatype="
    case Constraint => "constraint="
    case InternalQuery => "internalQuery="
    case InternalPosition => "internalPosition="
    case Position => "position="
    case File => "file="
    case Line => "line="
    case Hint => "hint="
    case Routine => "routine="
    case Severity => "severity="
    case SqlState => "sqlstate="
    case Message => "message="
  }

  /** A field's value: text that may be null, or an int. */
  datatype FieldValue = StringField(s: Option<string>) | IntField(n: int32)

  /** The getters of ServerErrorMessage. */
  function Get(m: ServerErrorMessage, f: Field): FieldValue
  {
    match f
    case Detail => StringField(m.detail)
    case Where => StringField(m.whereText)
    case Schema => StringField(m.schema)
    case Table => StringField(m.table)
    case Column => StringField(m.column)
    case Datatype => StringField(m.dataType)
    case Constraint => StringField(m.constraint)
    case InternalQuery => StringField(m.internalQuery)
    case InternalPosition => IntField(m.internalPosition)
    case Position => IntField(m.position)
    case File => StringField(m.file)
    case Line => IntField(m.line)
    case Hint => StringField(m.hint)
    case Routine => StringField(m.routine)
    case Severity => StringField(m.severity)
    case SqlState => StringField(m.sqlState)
    case Message => StringField(m.message)
  }

  /**
   * getDetail, getWhere, ..., getMessage of ErrorResult: the server message's
   * field, and a NullPointerException when there is no server message.
   */
  function GetField(e: ErrorResult, f: Field): (r: Result<FieldValue, Fault>)
    ensures r.Failure? <==> e.serverErrorMessage.None?
    ensures r.Failure? ==> r.error == NullPointer
    ensures r.Success? ==> r.value == Get(e.serverErrorMessage.value, f)
  {
    match e.serverErrorMessage
    case None => Failure(NullPointer)
    case Some(m) => Success(Get(m, f))
  }

  /** The text toString shows for a value: a string when non-null, an int in decimal when non-zero. */
  function Shown(v: FieldValue): (r: Option<string>)
    ensures v.StringField? ==> r == v.s
    ensures v.IntField? ==> (r.Some? <==> v.n != 0)
  {
    match v
    case StringField(s) => s
    case IntField(n) =>
      if n != 0 then Some(Text.IntToString(n)) else None
  }

  /** An int field is shown in decimal that reads back as the same int. */
  lemma ShownIntReadsBack(n: int32)
    requires n != 0
    ensures Shown(IntField(n)).Some? && Text.ParseInt(Shown(IntField(n)).value) == Some(n as int)
  {
    Text.IntToStringRoundTrip(n);
  }

  /** "key=value " for a field that is present, nothing for one that is absent. */
  function Token(m: ServerErrorMessage, f: Field): (t: string)
    ensures t == "" <==> Shown(Get(m, f)).None?
    ensures t != "" ==> t == Label(f) + Shown(Get(m, f)).value + " "
  {
    match Shown(Get(m, f))
    case None => ""
    case Some(v) => Label(f) + v + " "
  }

  /** The tokens of the given fields, in the given order. */
  function Tokens(m: ServerErrorMessage, fields: seq<Field>): (ts: seq<string>)
    ensures |ts| == |fields|
    ensures forall i :: 0 <= i < |fields| ==> ts[i] == Token(m, fields[i])
  {
    seq(|fields|, i requires 0 <= i < |fields| => Token(m, fields[i]))
  }

  /** What toString produces for a server message: the tokens of all fields, in the render order. */
  function Rendering(m: ServerErrorMessage): (s: string)
    ensures s != "" ==> s[|s| - 1] == ' '
  {
    RenderingEndsWithSpace(m, RENDER_ORDER);
    Text.Concat(Tokens(m, RENDER_ORDER))
  }

  /**
   * Each field's token sits in its fixed place: after the tokens of the
   * fields before it in the render order and before those after it.
   */
  lemma RenderingAt(m: ServerErrorMessage, i: nat)
    requires i < |RENDER_ORDER|
    ensures Rendering(m) == Text.Concat(Tokens(m, RENDER_ORDER[..i])) + Token(m, RENDER_ORDER[i])
                            + Text.Concat(Tokens(m, RENDER_ORDER[i + 1..]))
  {
    var ts := Tokens(m, RENDER_ORDER);
    assert ts == Tokens(m, RENDER_ORDER[..i]) + [Token(m, RENDER_ORDER[i])] + Tokens(m, RENDER_ORDER[i + 1..]);
    Text.ConcatAppend(Tokens(m, RENDER_ORDER[..i]) + [Token(m, RENDER_ORDER[i])], Tokens(m, RENDER_ORDER[i + 1..]));
    Text.ConcatAppend(Tokens(m, RENDER_ORDER[..i]), [Token(m, RENDER_ORDER[i])]);
    assert Text.Concat([Token(m, RENDER_ORDER[i])]) == Token(m, RENDER_ORDER[i]) by {
      assert [Token(m, RENDER_ORDER[i])][..0] == [];
    }
  }

  /** The rendering is empty exactly when no field of the server message is present. */
  lemma RenderingEmptyIff(m: ServerErrorMessage)
    ensures Rendering(m) == "" <==> forall f: Field :: Shown(Get(m, f)).None?
  {
    var ts := Tokens(m, RENDER_ORDER);
    Text.ConcatEmptyIff(ts);
    if Rendering(m) == "" {
      forall f: Field ensures Shown(Get(m, f)).None? {
        var i := OrderIndex(f);
        assert ts[i] == "";
      }
    }
  }

  /** A non-empty rendering ends with the space that closes its last token. */
  lemma {:induction false} RenderingEndsWithSpace(m: ServerErrorMessage, fields: seq<Field>)
    ensures var s := Text.Concat(Tokens(m, fields)); s != "" ==> s[|s| - 1] == ' '
  {
    if fields != [] {
      var init := fields[..|fields| - 1];
      assert Tokens(m, fields)[..|fields| - 1] == Tokens(m, init);
      RenderingEndsWithSpace(m, init);
    }
  }

  /**
   * The rendering as toString builds it: the empty builder, then each token
   * in the render order. The leading "" is kept because each step of the
   * proof then matches one ConcatStep as written, which keeps it cheap for the
   * solver; RenderingSpelledOut drops it.
   */
  lemma RenderingFromEmpty(m: ServerErrorMessage)
    ensures Rendering(m) == "" + Token(m, Detail) + Token(m, Where) + Token(m, Schema) + Token(m, Table) + Token(m, Column) + Token(m, Datatype) + Token(m, Constraint) + Token(m, InternalQuery) + Token(m, InternalPosition) + Token(m, Position) + Token(m, File) + Token(m, Line) + Token(m, Hint) + Token(m, Routine) + Token(m, Severity) + Token(m, SqlState) + Token(m, Message)
  {
    var ts := Tokens(m, RENDER_ORDER);
    assert ts[..0] == [];
    Text.ConcatStep(ts, 0);
    Text.ConcatStep(ts, 1);
    Text.ConcatStep(ts, 2);
    Text.ConcatStep(ts, 3);
    Text.ConcatStep(ts, 4);
    Text.ConcatStep(ts, 5);
    Text.ConcatStep(ts, 6);
    Text.ConcatStep(ts, 7);
    Text.ConcatStep(ts, 8);
    Text.ConcatStep(ts, 9);
    Text.ConcatStep(ts, 10);
    Text.ConcatStep(ts, 11);
    Text.ConcatStep(ts, 12);
    Text.ConcatStep(ts, 13);
    Text.ConcatStep(ts, 14);
    Text.ConcatStep(ts, 15);
    Text.ConcatStep(ts, 16);
    assert ts[..17] == ts;
  }

  /** The rendering written out field by field, in the render order. */
  lemma RenderingSpelledOut(m: ServerErrorMessage)
    ensures Rendering(m) == Token(m, Detail) + Token(m, Where) + Token(m, Schema) + Token(m, Table) + Token(m, Column) + Token(m, Datatype) + Token(m, Constraint) + Token(m, InternalQuery) + Token(m, InternalPosition) + Token(m, Position) + Token(m, File) + Token(m, Line) + Token(m, Hint) + Token(m, Routine) + Token(m, Severity) + Token(m, SqlState) + Token(m, Message)
  {
    RenderingFromEmpty(m);
    assert "" + Token(m, Detail) == Token(m, Detail);
  }

  /**
   * One step of toString: when the field is present (a string that is not
   * null, an int that is not 0), append its label, its value and a space.
   */
  method AppendIfPresent(sb: string, m: ServerErrorMessage, f: Field) returns (r: string)
    ensures r == sb + Token(m, f)
  {
    match Shown(Get(m, f))
    case None =>
      r := sb;
    case Some(v) =>
      r := sb + Label(f) + v + " ";
  }

  /**
   * toString, appending field by field as the source does. Every getter
   * dereferences the server message, so without one the first getter throws.
   */
  method ToString(e: ErrorResult) returns (r: Result<string, Fault>)
    ensures r.Failure? <==> e.serverErrorMessage.None?
    ensures r.Failure? ==> r.error == NullPointer
    ensures r.Success? ==> r.value == Rendering(e.serverErrorMessage.value)
  {
    if e.serverErrorMessage.None? {
      return Failure(NullPointer);
    }
    var m := e.serverErrorMessage.value;
    var sb := "";
    sb := AppendIfPresent(sb, m, Detail);
    sb := AppendIfPresent(sb, m, Where);
    sb := AppendIfPresent(sb, m, Schema);
    sb := AppendIfPresent(sb, m, Table);
    sb := AppendIfPresent(sb, m, Column);
    sb := AppendIfPresent(sb, m, Datatype);
    sb := AppendIfPresent(sb, m, Constraint);
    sb := AppendIfPresent(sb, m, InternalQuery);
    sb := AppendIfPresent(sb, m, InternalPosition);
    sb := AppendIfPresent(sb, m, Position);
    sb := AppendIfPresent(sb, m, File);
    sb := AppendIfPresent(sb, m, Line);
    sb := AppendIfPresent(sb, m, Hint);
    sb := AppendIfPresent(sb, m, Routine);
    sb := AppendIfPresent(sb, m, Severity);
    sb := AppendIfPresent(sb, m, SqlState);
    sb := AppendIfPresent(sb, m, Message);
    RenderingFromEmpty(m);
    r := Success(sb);
  }

  /** The as-written renderer applied to internal(ex) throws: there is no server message to read. */
  method InternalToStringThrows(ex: Throwable) returns (r: Result<string, Fault>)
    ensures r == Failure(NullPointer)
  {
    r := ToString(Internal(ex));
  }

  /**
   * The renderer as evidently intended: it never throws, and an error without
   * a server message has no fields to show.
   */
  function Describe(e: ErrorResult): (s: string)
    ensures s == "" <==> e.serverErrorMessage.None? || forall f: Field :: Shown(Get(e.serverErrorMessage.value, f)).None?
    ensures e.serverErrorMessage.Some? ==> s == Rendering(e.serverErrorMessage.value)
  {
    match e.serverErrorMessage
    case None => ""
    case Some(m) =>
      RenderingEmptyIff(m);
      Rendering(m)
  }
}
