/**
 * The parameter encoder inside PgLocalConnection.execute: for each slot
 * 1..count it binds the driver's parameter list according to the slot's type
 * OID, after two shortcuts (a null value, a pre-encoded BinaryParamValue)
 * that bypass the type switch. An OID outside the handled set is rejected.
 */
module ParameterEncoding {
  import opened Wrappers
  import opened Primitives
  import opened Faults
  import opened QueryParameters
  import Text

  // Type OIDs as PostgreSQL's pg_type assigns them (pgjdbc's Oid constants).
  const BYTEA: int32 := 17
  const INT8: int32 := 20
  const INT4: int32 := 23
  const TEXT: int32 := 25
  const JSON: int32 := 114
  const INT4_ARRAY: int32 := 1007
  const TEXT_ARRAY: int32 := 1009
  const VARCHAR_ARRAY: int32 := 1015
  const VARCHAR: int32 := 1043
  const UUID: int32 := 2950
  const JSONB_ARRAY: int32 := 3807

  /** The OIDs the type switch has a case for. */
  predicate Handled(oid: int32)
  {
    oid == INT4 || oid == INT4_ARRAY || oid == INT8 || oid == UUID || oid == BYTEA ||
    oid == TEXT || oid == JSON || oid == VARCHAR ||
    oid == JSONB_ARRAY || oid == TEXT_ARRAY || oid == VARCHAR_ARRAY
  }

  /** Whether the cast the OID's case applies to the value succeeds. */
  predicate Matches(oid: int32, v: Value)
  {
    if oid == INT4 then v.IntValue?
    else if oid == INT4_ARRAY then v.IntArrayValue?
    else if oid == INT8 then v.LongValue?
    else if oid == UUID || oid == BYTEA then v.BytesValue?
    else if oid == TEXT || oid == JSON || oid == VARCHAR then v.StringValue?
    else if oid == JSONB_ARRAY || oid == TEXT_ARRAY || oid == VARCHAR_ARRAY then v.StringArrayValue?
    else false
  }

  /** What one of the driver's ParameterList setters records for a slot. */
  datatype Bound =
    | NullParam(oid: int32)                      // setNull
    | IntParam(i: int32)                         // setIntParameter
    | StringParam(text: string, oid: int32)      // setStringParameter
    | BinaryParam(bytes: seq<octet>, oid: int32) // setBinaryParameter
    | ByteaParam(bytes: seq<octet>)              // setBytea

  function Decimals(ints: seq<int32>): (ds: seq<string>)
    ensures |ds| == |ints|
    ensures forall k :: 0 <= k < |ints| ==> ds[k] == Text.IntToString(ints[k])
  {
    seq(|ints|, k requires 0 <= k < |ints| => Text.IntToString(ints[k]))
  }

  /** An int[] as an array literal: the decimal elements joined by "," inside braces. */
  function IntArrayLiteral(ints: seq<int32>): (s: string)
    ensures s == "{}" <==> ints == []
  {
    "{" + Text.Join(Decimals(ints), ",") + "}"
  }

  /** The elements as PgArray.escapeArrayElement writes them. */
  function Escaped(strs: seq<string>, escape: string -> string): (es: seq<string>)
    ensures |es| == |strs|
    ensures forall k :: 0 <= k < |strs| ==> es[k] == escape(strs[k])
  {
    seq(|strs|, k requires 0 <= k < |strs| => escape(strs[k]))
  }

  /** A String[] as an array literal: the escaped elements, "," between them, inside braces. */
  function TextArrayLiteral(strs: seq<string>, escape: string -> string): string
  {
    "{" + Text.Join(Escaped(strs, escape), ",") + "}"
  }

  /**
   * The text-array case: a StringBuilder that opens with "{", puts "," before
   * every element but the first (the pi counter), appends each escaped
   * element, and closes with "}".
   */
  method BuildTextArray(strs: seq<string>, escape: string -> string) returns (s: string)
    ensures s == TextArrayLiteral(strs, escape)
  {
    s := "{";
    var pi := 0;
    for k := 0 to |strs|
      invariant pi == k
      invariant s == "{" + ElementsUpTo(strs, k, escape)
    {
      ghost var before := ElementsUpTo(strs, k, escape);
      ElementsStep(strs, k, escape);
      if pi > 0 {
        s := s + ",";
      }
      pi := pi + 1;
      s := s + escape(strs[k]);
      BuilderStep(before, if k == 0 then "" else ",", escape(strs[k]));
    }
    ElementsAll(strs, escape);
    s := s + "}";
  }

  /** Appending to a builder that holds "{" + body extends the body. */
  lemma BuilderStep(body: string, sep: string, element: string)
    ensures "{" + body + sep + element == "{" + (body + sep + element)
  {
  }

  /** The escaped elements before index k, "," between them. */
  ghost function ElementsUpTo(strs: seq<string>, k: nat, escape: string -> string): string
    requires k <= |strs|
  {
    Text.Join(Escaped(strs[..k], escape), ",")
  }

  lemma ElementsStep(strs: seq<string>, k: nat, escape: string -> string)
    requires k < |strs|
    ensures k == 0 ==> ElementsUpTo(strs, k, escape) == ""
    ensures ElementsUpTo(strs, k + 1, escape) ==
      ElementsUpTo(strs, k, escape) + (if k == 0 then "" else ",") + escape(strs[k])
  {
    var before, after := Escaped(strs[..k], escape), Escaped(strs[..k + 1], escape);
    assert after == before + [escape(strs[k])];
    if k > 0 {
      Text.JoinSnoc(before, escape(strs[k]), ",");
    } else {
      assert after == [escape(strs[0])];
    }
  }

  lemma ElementsAll(strs: seq<string>, escape: string -> string)
    ensures "{" + ElementsUpTo(strs, |strs|, escape) + "}" == TextArrayLiteral(strs, escape)
  {
    assert strs[..|strs|] == strs;
  }

  /** The shape of a text-array literal: braces around the elements with one "," between neighbours. */
  lemma TextArrayLiteralShape(strs: seq<string>, escape: string -> string)
    ensures strs == [] ==> TextArrayLiteral(strs, escape) == "{}"
    ensures strs != [] ==>
      |TextArrayLiteral(strs, escape)| == 2 + Text.TotalLength(Escaped(strs, escape)) + (|strs| - 1)
    ensures strs != [] ==>
      TextArrayLiteral(strs, escape)[..1 + |escape(strs[0])|] == "{" + escape(strs[0])
  {
    if strs != [] {
      var es := Escaped(strs, escape);
      var j := Text.Join(es, ",");
      Text.JoinLength(es, ",");
      assert |j| == Text.TotalLength(es) + (|es| - 1);
      var first := escape(strs[0]);
      assert es[0] == first;
      assert |first| <= |j| && j[..|first|] == first;
      assert ("{" + j + "}")[..1 + |first|] == "{" + j[..|first|];
    }
  }

  /**
   * A text-array literal is "{", the escaped elements and "}"; when no escaped
   * element holds a comma, splitting what is between the braces at the commas
   * gives the escaped elements back, in order.
   */
  lemma TextArrayRoundTrip(strs: seq<string>, escape: string -> string)
    requires forall k :: 0 <= k < |strs| ==> ',' !in escape(strs[k])
    ensures var s := TextArrayLiteral(strs, escape);
      |s| >= 2 && s[0] == '{' && s[|s| - 1] == '}' &&
      (strs != [] ==> Text.Split(s[1..|s| - 1], ',') == Escaped(strs, escape))
  {
    var es := Escaped(strs, escape);
    var j := Text.Join(es, ",");
    var s := TextArrayLiteral(strs, escape);
    assert s[1..|s| - 1] == j;
    if strs != [] {
      assert "," == [','];
      Text.SplitJoin(es, ',');
    }
  }

  /** The integers a PostgreSQL int[] literal without quotes, spaces or NULLs denotes. */
  function ParseIntArray(s: string): Option<seq<int>>
  {
    if |s| < 2 || s[0] != '{' || s[|s| - 1] != '}' then None
    else
      var body := s[1..|s| - 1];
      if body == "" then Some([]) else ParseInts(Text.Split(body, ','))
  }

  function ParseInts(parts: seq<string>): Option<seq<int>>
  {
    if parts == [] then Some([])
    else
      match (Text.ParseInt(parts[0]), ParseInts(parts[1..]))
      case (Some(x), Some(xs)) => Some([x] + xs)
      case _ => None
  }

  function AsInts(ints: seq<int32>): (xs: seq<int>)
    ensures |xs| == |ints| && forall k :: 0 <= k < |ints| ==> xs[k] == ints[k] as int
  {
    seq(|ints|, k requires 0 <= k < |ints| => ints[k] as int)
  }

  lemma {:induction false} ParseDecimals(ints: seq<int32>)
    ensures ParseInts(Decimals(ints)) == Some(AsInts(ints))
  {
    if ints != [] {
      var ds := Decimals(ints);
      assert ds[0] == Text.IntToString(ints[0]);
      assert ds[1..] == Decimals(ints[1..]);
      Text.IntToStringRoundTrip(ints[0]);
      ParseDecimals(ints[1..]);
      assert ParseInts(ds) == Some([ints[0] as int] + AsInts(ints[1..]));
      assert AsInts(ints) == [ints[0] as int] + AsInts(ints[1..]);
    }
  }

  /** No decimal form contains the element separator. */
  lemma DecimalsCommaFree(ints: seq<int32>)
    ensures forall k :: 0 <= k < |ints| ==> ',' !in Decimals(ints)[k]
  {
  }

  /** Reading a braced literal looks only at what lies between the braces. */
  lemma ParseBraced(body: string)
    ensures ParseIntArray("{" + body + "}") == if body == "" then Some([]) else ParseInts(Text.Split(body, ','))
    ensures |"{" + body + "}"| == |body| + 2
  {
    var s := "{" + body + "}";
    assert s[0] == '{' && s[|s| - 1] == '}';
    assert s[1..|s| - 1] == body;
  }

  /** Reading an int[] literal back gives the original integers. */
  lemma Int4ArrayRoundTrip(ints: seq<int32>)
    ensures ParseIntArray(IntArrayLiteral(ints)) == Some(AsInts(ints))
  {
    var ds := Decimals(ints);
    ParseBraced(Text.Join(ds, ","));
    if ints != [] {
      assert |ds[0]| > 0;
      DecimalsCommaFree(ints);
      Text.SplitJoin(ds, ',');
      ParseDecimals(ints);
    }
  }

  /** Eight big-endian bytes, read back as the original long. */
  lemma Int8Encoding(i: int, v: int64)
    ensures var r := EncodeSlot(i, Param(INT8, LongValue(v)), _ => "");
      r.Success? && r.value.BinaryParam? && r.value.oid == INT8 &&
      |r.value.bytes| == 8 && BytesToLong(r.value.bytes) == v
  {
    LongBytesRoundTrip(v);
  }

  /**
   * The type switch for one slot (index i, 1-based): a null is bound as null
   * with the slot's OID, a BinaryParamValue as binary with its own OID; any
   * other value by the slot's OID, which must be handled and whose cast must
   * succeed.
   */
  function EncodeSlot(i: int, p: Param, escape: string -> string): (r: Result<Bound, Fault>)
    ensures r.Success? <==> p.value.Null? || p.value.BinaryParamValue? || (Handled(p.oid) && Matches(p.oid, p.value))
    ensures p.value.Null? ==> r == Success(NullParam(p.oid))
    ensures p.value.BinaryParamValue? ==> r == Success(BinaryParam(p.value.payload, p.value.payloadOid))
    ensures r.Failure? && !Handled(p.oid) ==> r.error == UnsupportedOid(p.oid)
    ensures r.Failure? && Handled(p.oid) ==> r.error == ClassCast(i)
    ensures p.oid == INT4 && p.value.IntValue? ==> r == Success(IntParam(p.value.i))
    ensures p.oid == INT4_ARRAY && p.value.IntArrayValue? ==>
      r == Success(StringParam(IntArrayLiteral(p.value.ints), INT4_ARRAY))
    ensures p.oid == INT8 && p.value.LongValue? ==> r == Success(BinaryParam(LongToBytes(p.value.l), INT8))
    ensures p.oid == UUID && p.value.BytesValue? ==> r == Success(BinaryParam(p.value.bytes, UUID))
    ensures p.oid == BYTEA && p.value.BytesValue? ==> r == Success(ByteaParam(p.value.bytes))
    ensures (p.oid == TEXT || p.oid == JSON || p.oid == VARCHAR) && p.value.StringValue? ==>
      r == Success(StringParam(p.value.s, p.oid))
    ensures (p.oid == JSONB_ARRAY || p.oid == TEXT_ARRAY || p.oid == VARCHAR_ARRAY) && p.value.StringArrayValue? ==>
      r == Success(StringParam(TextArrayLiteral(p.value.strs, escape), p.oid))
  {
    var oid, v := p.oid, p.value;
    if v.Null? then Success(NullParam(oid))
    else if v.BinaryParamValue? then Success(BinaryParam(v.payload, v.payloadOid))
    else if !Handled(oid) then Failure(UnsupportedOid(oid))
    else if !Matches(oid, v) then Failure(ClassCast(i))
    else if oid == INT4 then Success(IntParam(v.i))
    else if oid == INT4_ARRAY then Success(StringParam(IntArrayLiteral(v.ints), oid))
    else if oid == INT8 then Success(BinaryParam(LongToBytes(v.l), INT8))
    else if oid == UUID then Success(BinaryParam(v.bytes, oid))
    else if oid == BYTEA then Success(ByteaParam(v.bytes))
    else if oid == TEXT || oid == JSON || oid == VARCHAR then Success(StringParam(v.s, oid))
    else Success(StringParam(TextArrayLiteral(v.strs, escape), oid))
  }

  /** One iteration of the loop: encode slot i, then bind it, which fails past the list's size. */
  function SlotStep(i: int, p: Param, size: nat, escape: string -> string): (r: Result<Bound, Fault>)
  {
    match EncodeSlot(i, p, escape)
    case Failure(e) => Failure(e)
    case Success(b) => if 1 <= i <= size then Success(b) else Failure(ParameterIndexOutOfRange(i, size))
  }

  /** Slots 1..|params| in order; the first slot that fails decides the error. */
  function EncodeAll(params: seq<Param>, size: nat, escape: string -> string): (r: Result<seq<Bound>, Fault>)
    ensures r.Success? ==> |r.value| == |params| <= size
  {
    if params == [] then Success([])
    else
      var n := |params|;
      match EncodeAll(params[..n - 1], size, escape)
      case Failure(e) => Failure(e)
      case Success(prefix) =>
        match SlotStep(n, params[n - 1], size, escape)
        case Failure(e) => Failure(e)
        case Success(b) => Success(prefix + [b])
  }

  /**
   * Encoding succeeds exactly when the list has room for every slot and every
   * slot encodes; slot i then holds the encoding of parameter i.
   */
  lemma {:induction false} EncodeAllSlots(params: seq<Param>, size: nat, escape: string -> string)
    ensures EncodeAll(params, size, escape).Success? <==>
      |params| <= size && forall k :: 0 <= k < |params| ==> EncodeSlot(k + 1, params[k], escape).Success?
    ensures EncodeAll(params, size, escape).Success? ==>
      forall k :: 0 <= k < |params| ==> EncodeAll(params, size, escape).value[k] == EncodeSlot(k + 1, params[k], escape).value
  {
    if params != [] {
      var n := |params|;
      var init := params[..n - 1];
      EncodeAllSlots(init, size, escape);
      assert forall k :: 0 <= k < n - 1 ==> init[k] == params[k];
    }
  }

  /** A slot whose OID has no case (and whose value is neither null nor pre-encoded) rejects the whole list. */
  lemma UnsupportedOidRejects(params: seq<Param>, size: nat, escape: string -> string, k: nat)
    requires k < |params| && !Handled(params[k].oid)
    requires !params[k].value.Null? && !params[k].value.BinaryParamValue?
    ensures EncodeAll(params, size, escape).Failure?
  {
    EncodeAllSlots(params, size, escape);
  }

  /** Once a prefix fails, the whole list fails with the same error. */
  lemma {:induction false} EncodeAllPrefixFailure(params: seq<Param>, k: nat, size: nat, escape: string -> string)
    requires k <= |params|
    requires EncodeAll(params[..k], size, escape).Failure?
    ensures EncodeAll(params, size, escape) == EncodeAll(params[..k], size, escape)
  {
    if k < |params| {
      var n := |params|;
      assert params[..n - 1][..k] == params[..k];
      EncodeAllPrefixFailure(params[..n - 1], k, size, escape);
    } else {
      assert params[..k] == params;
    }
  }

  /**
   * The driver's ParameterList: one slot per declared parameter. The ghost
   * counter records how many times each slot has been set.
   */
  class ParameterList {
    var slots: seq<Option<Bound>>
    ghost var writes: seq<nat>

    ghost predicate Valid()
      reads this
    {
      |writes| == |slots|
    }

    constructor (size: nat)
      ensures Valid() && |slots| == size
      ensures forall k :: 0 <= k < size ==> slots[k].None? && writes[k] == 0
    {
      slots := seq(size, _ => None);
      writes := seq(size, _ => 0);
    }

    /** setNull, setIntParameter, setStringParameter, setBinaryParameter, setBytea: bind slot index (1-based). */
    method Bind(index: int, b: Bound) returns (ok: bool)
      requires Valid()
      modifies this
      ensures Valid() && |slots| == old(|slots|)
      ensures ok <==> 1 <= index <= |slots|
      ensures ok ==> slots == old(slots)[index - 1 := Some(b)]
      ensures ok ==> writes == old(writes)[index - 1 := old(writes)[index - 1] + 1]
      ensures !ok ==> slots == old(slots) && writes == old(writes)
    {
      ok := 1 <= index <= |slots|;
      if ok {
        slots := slots[index - 1 := Some(b)];
        writes := writes[index - 1 := writes[index - 1] + 1];
      }
    }
  }

  /**
   * The `for i = 1..count` loop of execute: each slot is bound exactly once,
   * in order, and the first failure (an unhandled OID, a failed cast, a slot
   * past the list's size) stops the loop.
   */
  method EncodeParameters(params: seq<Param>, pl: ParameterList, escape: string -> string) returns (r: Result<(), Fault>)
    requires pl.Valid()
    modifies pl
    ensures pl.Valid() && |pl.slots| == old(|pl.slots|)
    ensures r.Success? <==> EncodeAll(params, old(|pl.slots|), escape).Success?
    ensures r.Failure? ==> r.error == EncodeAll(params, old(|pl.slots|), escape).error
    ensures r.Success? ==> forall k :: 0 <= k < |params| ==>
      pl.slots[k] == Some(EncodeAll(params, old(|pl.slots|), escape).value[k]) &&
      pl.writes[k] == old(pl.writes[k]) + 1
    ensures r.Success? ==> forall k :: |params| <= k < |pl.slots| ==>
      pl.slots[k] == old(pl.slots[k]) && pl.writes[k] == old(pl.writes[k])
  {
    r := Success(());
    var size := |pl.slots|;
    for i := 1 to |params| + 1
      invariant pl.Valid() && |pl.slots| == size
      invariant EncodeAll(params[..i - 1], size, escape).Success?
      invariant forall k :: 0 <= k < i - 1 ==>
        pl.slots[k] == Some(EncodeAll(params[..i - 1], size, escape).value[k]) &&
        pl.writes[k] == old(pl.writes[k]) + 1
      invariant forall k :: i - 1 <= k < size ==> pl.slots[k] == old(pl.slots[k]) && pl.writes[k] == old(pl.writes[k])
    {
      var oid, val := params[i - 1].oid, params[i - 1].value;
      // a failed cast in a case below is the ClassCastException the cast throws
      var encoded: Result<Bound, Fault>;
      if val.Null? {
        encoded := Success(NullParam(oid));
      } else if val.BinaryParamValue? {
        encoded := Success(BinaryParam(val.payload, val.payloadOid));
      } else if oid == INT4 {
        encoded := if val.IntValue? then Success(IntParam(val.i)) else Failure(ClassCast(i));
      } else if oid == INT4_ARRAY {
        encoded := if val.IntArrayValue? then Success(StringParam(IntArrayLiteral(val.ints), oid)) else Failure(ClassCast(i));
      } else if oid == INT8 {
        encoded := if val.LongValue? then Success(BinaryParam(LongToBytes(val.l), INT8)) else Failure(ClassCast(i));
      } else if oid == UUID {
        encoded := if val.BytesValue? then Success(BinaryParam(val.bytes, oid)) else Failure(ClassCast(i));
      } else if oid == BYTEA {
        encoded := if val.BytesValue? then Success(ByteaParam(val.bytes)) else Failure(ClassCast(i));
      } else if oid == TEXT || oid == JSON || oid == VARCHAR {
        encoded := if val.StringValue? then Success(StringParam(val.s, oid)) else Failure(ClassCast(i));
      } else if oid == JSONB_ARRAY || oid == TEXT_ARRAY || oid == VARCHAR_ARRAY {
        if val.StringArrayValue? {
          var strval := BuildTextArray(val.strs, escape);
          encoded := Success(StringParam(strval, oid));
        } else {
          encoded := Failure(ClassCast(i));
        }
      } else {
        encoded := Failure(UnsupportedOid(oid));
      }
      assert encoded == EncodeSlot(i, params[i - 1], escape);
      if encoded.Failure? {
        StepFailure(params, i, size, escape);
        return Failure(encoded.error);
      }
      var ok := pl.Bind(i, encoded.value);
      if !ok {
        StepFailure(params, i, size, escape);
        return Failure(ParameterIndexOutOfRange(i, size));
      }
      StepSuccess(params, i, size, escape);
    }
    assert params[..|params|] == params;
  }

  lemma StepFailure(params: seq<Param>, i: nat, size: nat, escape: string -> string)
    requires 1 <= i <= |params|
    requires EncodeAll(params[..i - 1], size, escape).Success?
    requires SlotStep(i, params[i - 1], size, escape).Failure?
    ensures EncodeAll(params, size, escape) == Failure(SlotStep(i, params[i - 1], size, escape).error)
  {
    assert params[..i][..i - 1] == params[..i - 1];
    EncodeAllPrefixFailure(params, i, size, escape);
  }

  lemma StepSuccess(params: seq<Param>, i: nat, size: nat, escape: string -> string)
    requires 1 <= i <= |params|
    requires EncodeAll(params[..i - 1], size, escape).Success?
    requires SlotStep(i, params[i - 1], size, escape).Success?
    ensures EncodeAll(params[..i], size, escape) ==
      Success(EncodeAll(params[..i - 1], size, escape).value + [SlotStep(i, params[i - 1], size, escape).value])
  {
    assert params[..i][..i - 1] == params[..i - 1];
  }
}
