/**
 * The positional parameter values a caller hands to the connection: one
 * (type OID, value) pair per slot, where the value is whatever Java object
 * the caller stored.
 */
module QueryParameters {
  import opened Primitives

  /** The Java objects a parameter slot can hold, as far as the encoder distinguishes them. */
  datatype Value =
    | Null
    /** A BinaryParamValue: bytes already encoded, with the type OID they carry. */
    | BinaryParamValue(payload: seq<octet>, payloadOid: int32)
    | IntValue(i: int32)
    | LongValue(l: int64)
    | IntArrayValue(ints: seq<int32>)
    | BytesValue(bytes: seq<octet>)
    | StringValue(s: string)
    | StringArrayValue(strs: seq<string>)

  datatype Param = Param(oid: int32, value: Value)

  /** A slot nobody has filled yet: type OID 0 and a null value. */
  const UNSET: Param := Param(0, Null)
}
