/** The boundary of the SBI error module: the error kinds the call-protocol
    layer names, the success sentinel, and the code table.

    The table itself (which signed code each kind has, and which kind a
    received code stands for) belongs to the error module, which is not
    part of this model; it is passed around as an `ErrorCodes` value so
    that no particular table is assumed. */
module SbiError {
  import opened Words

  /** The error code that means success in the standard reply convention. */
  const SBI_SUCCESS: i64 := 0

  /** Error kinds. The call-protocol layer produces `Failed`, `NotSupported`
      and `InvalidParam` itself; every other kind of the error module is
      `Other`, identified by its code. */
  datatype Error = Failed | NotSupported | InvalidParam | Other(code: i64)

  /** The two directions of the code table: `error as i64` and
      `Error::from_code`. */
  datatype ErrorCodes = ErrorCodes(code: Error -> i64, fromCode: i64 -> Error)

  /** `e` has a code that is not the success sentinel, and decoding that
      code gives `e` back. The standard reply convention can carry exactly
      the errors for which this holds. */
  predicate RoundTrips(codes: ErrorCodes, e: Error) {
    codes.code(e) != SBI_SUCCESS && codes.fromCode(codes.code(e)) == e
  }
}
