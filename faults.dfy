/** The exceptions the modelled code can throw, as values. */
module Faults {

  datatype Fault =
    /** List.get with an index outside [0, size): IndexOutOfBoundsException. */
    | IndexOutOfBounds(index: int, size: int)
    /** A parameter index outside [1, count] handed to the driver's parameter list. */
    | ParameterIndexOutOfRange(index: int, count: int)
    /** A parameter value whose Java type does not match the cast its type OID selects. */
    | ClassCast(index: int)
    /** The AssertionError raised for a parameter type OID the encoder does not handle. */
    | UnsupportedOid(oid: int)
    /** A dereference of a null reference. */
    | NullPointer
    /** Guava's checked cast of a value outside the 32-bit range. */
    | IllegalArgument
    /** An SQLException a driver call threw, with its SQL state. */
    | SqlException(sqlState: string)
}
