/** The SBI message codec with its four defects corrected:

    - a Base request reports its own function id in a6 and the probed
      extension id in a0 (instead of 0 in both);
    - a Reset request puts the reset type in a0 and the reason in a1, the
      order its decoder (and the System Reset extension) reads them;
    - the reset reason decoder reads `SystemFailure` from its code 1
      (instead of 2);
    - ExtendMeasurement leaves a2 and a3, which it does not use, at 0.

    Everything else is the as-written codec of `SbiMessages`, reused. For
    this codec every message survives encoding and decoding, and the
    decoder reads nothing but the registers the message uses. */
module SbiCorrected {
  import opened Words
  import opened Wrappers
  import opened SbiError
  import opened SbiFunctions
  import opened SbiMessages

  /** Reads a reset reason from its own code. */
  function ReasonFromReg(a1: u64): (r: Result<ResetReason, Error>)
    ensures r.Ok? <==> a1 <= 1
    ensures r.Ok? ==> r.value.Code() == a1
    ensures r.Err? ==> r.error == InvalidParam
  {
    match a1
    case 0 => Ok(NoReason)
    case 1 => Ok(SystemFailure)
    case _ => Err(InvalidParam)
  }

  /** Every reset reason is read back from its own code. */
  lemma ReasonFromRegInverse(reason: ResetReason)
    ensures ReasonFromReg(reason.Code()) == Ok(reason)
  {
  }

  /** Decodes a reset request: a6 must be 0, the type comes from a0 and the
      reason from a1. */
  function ResetFromRegs(args: Regs): (r: Result<ResetFunction, Error>)
    requires |args| >= 7
    ensures args[6] != 0 ==> r == Err(NotSupported)
    ensures args[6] == 0 ==> (r.Ok? <==> args[0] <= 2 && args[1] <= 1)
    ensures args[6] == 0 && r.Err? ==> r.error == InvalidParam
    ensures r.Ok? ==> r.value.resetType.Code() == args[0] && r.value.reason.Code() == args[1]
  {
    match args[6]
    case 0 =>
      (match ResetType.FromReg(args[0])
       case Err(e) => Err(e)
       case Ok(resetType) =>
         match ReasonFromReg(args[1])
         case Err(e) => Err(e)
         case Ok(reason) => Ok(ResetFunction.Reset(resetType, reason)))
    case _ => Err(NotSupported)
  }

  /** Decodes a message; only the Reset extension differs from the
      as-written decoder. */
  function FromRegs<T>(args: Regs, codec: TeeCodec<T>): (r: Result<SbiMessage<T>, Error>)
    requires |args| >= 8
    ensures args[7] != EXT_RESET ==> r == SbiMessage.FromRegs(args, codec)
    ensures args[7] == EXT_RESET ==>
              r == (match ResetFromRegs(args) case Ok(f) => Ok(SbiMessage.Reset(f)) case Err(e) => Err(e))
    ensures r.Ok? ==> r.value.A7() == args[7]
  {
    if args[7] == EXT_RESET then
      match ResetFromRegs(args)
      case Ok(f) => Ok(SbiMessage.Reset(f))
      case Err(e) => Err(e)
    else
      SbiMessage.FromRegs(args, codec)
  }

  /** Register a0: the probed extension for Base, the reset type for
      Reset, otherwise as written. */
  function A0<T>(m: SbiMessage<T>, codec: TeeCodec<T>): (r: u64)
    ensures m.Base? ==> r == m.base.A0()
    ensures m.Reset? ==> r == m.reset.resetType.Code()
  {
    match m
    case Base(f) => f.A0()
    case Reset(f) => f.resetType.Code()
    case _ => m.A0(codec)
  }

  /** Register a1: the reason for Reset, otherwise as written. */
  function A1<T>(m: SbiMessage<T>, codec: TeeCodec<T>): (r: u64)
    ensures m.Reset? ==> r == m.reset.reason.Code()
  {
    match m
    case Reset(f) => f.reason.Code()
    case _ => m.A1(codec)
  }

  /** Register a2: 0 for ExtendMeasurement, otherwise as written. */
  function A2<T>(m: SbiMessage<T>, codec: TeeCodec<T>): (r: u64)
    ensures IsExtendMeasurement(m) ==> r == 0
  {
    if IsExtendMeasurement(m) then 0 else m.A2(codec)
  }

  /** Register a3: 0 for ExtendMeasurement, otherwise as written. */
  function A3<T>(m: SbiMessage<T>, codec: TeeCodec<T>): (r: u64)
    ensures IsExtendMeasurement(m) ==> r == 0
  {
    if IsExtendMeasurement(m) then 0 else m.A3(codec)
  }

  /** Register a6: the Base function's own id, otherwise as written. */
  function A6<T>(m: SbiMessage<T>, codec: TeeCodec<T>): (r: u64)
    ensures m.Base? ==> r == m.base.A6()
  {
    match m
    case Base(f) => f.A6()
    case _ => m.A6(codec)
  }

  /** The register bank a0..a7 for a call. */
  function ToRegs<T>(m: SbiMessage<T>, codec: TeeCodec<T>): (r: Regs)
    ensures |r| == 8 && r[7] == m.A7()
  {
    [A0(m, codec), A1(m, codec), A2(m, codec), A3(m, codec), m.A4(codec), m.A5(codec), A6(m, codec), m.A7()]
  }

  /** Every argument register a message does not use reads as 0. */
  lemma UnusedRegistersZero<T>(m: SbiMessage<T>, codec: TeeCodec<T>, i: nat)
    requires !m.Tee? && i < 6 && i !in Consumed(m)
    ensures ToRegs(m, codec)[i] == 0
  {
  }

  /** The decoder reads only a7, a6 and the registers the message uses: any
      bank that agrees with a message's own encoding on those decodes to
      that message, whatever the other registers hold. */
  lemma DecodeReadsOnlyConsumed<T>(m: SbiMessage<T>, args: Regs, codec: TeeCodec<T>)
    requires !m.Tee? && |args| >= 8
    requires args[7] == m.A7() && args[6] == A6(m, codec)
    requires forall i :: i in Consumed(m) ==> args[i] == ToRegs(m, codec)[i]
    ensures FromRegs(args, codec) == Ok(m)
  {
    match m
    case Base(f) =>
      BaseRoundTrip(f, args[0 := f.A0()]);
      assert BaseFunction.FromRegs(args) == BaseFunction.FromRegs(args[0 := f.A0()]);
    case PutChar(c) =>
    case HartState(f) =>
      if f.HartSuspend? {
        WidenTruncate(f.suspendType);
      }
    case Reset(f) =>
      ResetTypeRoundTrip(f.resetType);
      ReasonFromRegInverse(f.reason);
    case Attestation(f) =>
      AttestationRoundTrip(f, args);
  }

  /** Conversely, the decoder does read every register `Consumed` lists:
      changing any one of them in a message's bank changes what the bank
      decodes to. */
  lemma ConsumedRegistersRead<T>(m: SbiMessage<T>, codec: TeeCodec<T>, i: nat)
    requires !m.Tee? && i in Consumed(m)
    ensures FromRegs(ToRegs(m, codec)[i := if ToRegs(m, codec)[i] == 0 then 1 else 0], codec) != Ok(m)
  {
  }

  /** Every message other than a TEE request survives encoding and
      decoding. */
  lemma RoundTrip<T>(m: SbiMessage<T>, codec: TeeCodec<T>)
    requires !m.Tee?
    ensures FromRegs(ToRegs(m, codec), codec) == Ok(m)
  {
    DecodeReadsOnlyConsumed(m, ToRegs(m, codec), codec);
  }

  /** With this codec, distinct requests (other than TEE ones) never share
      a register bank. */
  lemma EncodingInjective<T>(m: SbiMessage<T>, n: SbiMessage<T>, codec: TeeCodec<T>)
    requires !m.Tee? && !n.Tee? && ToRegs(m, codec) == ToRegs(n, codec)
    ensures m == n
  {
    RoundTrip(m, codec);
    RoundTrip(n, codec);
  }

  /** With this codec, a call to a firmware that decodes with it delivers to
      the caller exactly what the handler reported for the caller's own
      request: the handler's outcome in the standard convention, and 0 or
      the generic failure in the legacy one. */
  lemma CallDeliversOwnOutcome<T>(
    m: SbiMessage<T>, codec: TeeCodec<T>,
    handler: SbiMessage<T> -> Result<u64, Error>, trap: Regs -> (u64, u64), codes: ErrorCodes)
    requires !m.Tee?
    requires trap(ToRegs(m, codec)) == Serve(FromRegs(ToRegs(m, codec), codec), handler, codes)
    requires handler(m).Err? ==> RoundTrips(codes, handler(m).error)
    ensures Call(m, ToRegs(m, codec), trap, codes)
            == if m.PutChar? then (if handler(m).Ok? then Ok(0) else Err(Failed)) else handler(m)
  {
    RoundTrip(m, codec);
    if m.PutChar? {
      LegacyReply(m, handler(m), codes);
    } else {
      CallDeliversHandlerOutcome(m, ToRegs(m, codec), m, handler, trap, codes);
    }
  }
}
