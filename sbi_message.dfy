/** The SBI message dispatcher: the tagged union over extensions, its
    decoding from the eight argument registers, the register accessors
    `A0` .. `A7` that encode it, the two reply conventions, and the call
    boundary that feeds a trap's two reply registers to the reply
    interpretation. */
module SbiMessages {
  import opened Words
  import opened Wrappers
  import opened SbiError
  import opened SbiFunctions

  // Extension ids (register a7). The first four are the values the SBI
  // specification assigns; the confidential-VM and attestation ids are
  // vendor-defined and stand here as placeholders. Nothing below relies on
  // more than the six ids being pairwise distinct.
  const EXT_PUT_CHAR: u64 := 0x01
  const EXT_BASE: u64 := 0x10
  const EXT_HART_STATE: u64 := 0x48534D
  const EXT_RESET: u64 := 0x53525354
  const EXT_TEE: u64 := 0x41544545
  const EXT_ATTESTATION: u64 := 0x41545354

  /** The extension ids the dispatcher recognises. */
  const EXTENSIONS: set<u64> :=
    {EXT_PUT_CHAR, EXT_BASE, EXT_HART_STATE, EXT_RESET, EXT_TEE, EXT_ATTESTATION}

  /** The six extension ids are pairwise distinct. */
  lemma ExtensionIdsDistinct()
    ensures |EXTENSIONS| == 6
  {
  }

  /** The confidential-VM (TEE) extension's functions live in another module
      that is not part of this model. Its payload is the type parameter `T`
      and its decoder and register accessors are supplied as this record. */
  datatype TeeCodec<!T> = TeeCodec(
    fromRegs: Regs -> Result<T, Error>,
    a0: T -> u64, a1: T -> u64, a2: T -> u64, a3: T -> u64,
    a4: T -> u64, a5: T -> u64, a6: T -> u64)

  /** An SBI request: one variant per extension, each carrying that
      extension's function. `PutChar` is the legacy console extension and
      carries the character itself. */
  datatype SbiMessage<T> =
    | Base(base: BaseFunction)
    | PutChar(ch: u64)
    | HartState(state: StateFunction)
    | Reset(reset: ResetFunction)
    | Tee(tee: T)
    | Attestation(attestation: AttestationFunction)
  {
    /** Decodes a message from the argument registers: a7 selects the
        extension (an unknown id is not supported), then the extension's own
        decoder reads the rest. The legacy console extension takes a0 as the
        character and ignores every other register. */
    static function FromRegs(args: Regs, codec: TeeCodec<T>): (r: Result<SbiMessage<T>, Error>)
      requires |args| >= 8
      ensures args[7] !in EXTENSIONS ==> r == Err(NotSupported)
      ensures args[7] == EXT_PUT_CHAR ==> r == Ok(PutChar(args[0]))
      ensures r.Ok? ==> r.value.A7() == args[7]
      ensures args[7] == EXT_BASE ==>
                r == (match BaseFunction.FromRegs(args) case Ok(f) => Ok(Base(f)) case Err(e) => Err(e))
      ensures args[7] == EXT_HART_STATE ==>
                r == (match StateFunction.FromRegs(args) case Ok(f) => Ok(HartState(f)) case Err(e) => Err(e))
      ensures args[7] == EXT_RESET ==>
                r == (match ResetFunction.FromRegs(args) case Ok(f) => Ok(SbiMessage.Reset(f)) case Err(e) => Err(e))
      ensures args[7] == EXT_ATTESTATION ==>
                r == (match AttestationFunction.FromRegs(args) case Ok(f) => Ok(Attestation(f)) case Err(e) => Err(e))
      ensures args[7] == EXT_TEE ==> (r.Ok? <==> codec.fromRegs(args).Ok?)
      ensures args[7] == EXT_TEE && r.Ok? ==> r.value == Tee(codec.fromRegs(args).value)
      ensures args[7] == EXT_TEE && r.Err? ==> r.error == codec.fromRegs(args).error
    {
      if args[7] == EXT_PUT_CHAR then
        Ok(PutChar(args[0]))
      else if args[7] == EXT_BASE then
        (match BaseFunction.FromRegs(args)
         case Ok(f) => Ok(Base(f))
         case Err(e) => Err(e))
      else if args[7] == EXT_HART_STATE then
        (match StateFunction.FromRegs(args)
         case Ok(f) => Ok(HartState(f))
         case Err(e) => Err(e))
      else if args[7] == EXT_RESET then
        (match ResetFunction.FromRegs(args)
         case Ok(f) => Ok(SbiMessage.Reset(f))
         case Err(e) => Err(e))
      else if args[7] == EXT_TEE then
        (match codec.fromRegs(args)
         case Ok(f) => Ok(Tee(f))
         case Err(e) => Err(e))
      else if args[7] == EXT_ATTESTATION then
        (match AttestationFunction.FromRegs(args)
         case Ok(f) => Ok(Attestation(f))
         case Err(e) => Err(e))
      else
        Err(NotSupported)
    }

    /** Register a7: the extension id, fixed per variant. */
    function A7(): (r: u64)
      ensures r in EXTENSIONS
    {
      match this
      case Base(_) => EXT_BASE
      case PutChar(_) => EXT_PUT_CHAR
      case HartState(_) => EXT_HART_STATE
      case Reset(_) => EXT_RESET
      case Tee(_) => EXT_TEE
      case Attestation(_) => EXT_ATTESTATION
    }

    /** Register a6: the function id; always 0 for the legacy console and
        for Reset, and, as written, 0 for every Base function too. */
    function A6(codec: TeeCodec<T>): (r: u64)
      ensures Base? || PutChar? || Reset? ==> r == 0
      ensures HartState? ==> r <= 3
      ensures Attestation? ==> r <= 1
    {
      match this
      case Base(_) => 0
      case HartState(f) => f.A6()
      case PutChar(_) => 0
      case Reset(_) => 0
      case Tee(f) => codec.a6(f)
      case Attestation(f) => f.A6()
    }

    /** Register a5: used by the TEE extension only. */
    function A5(codec: TeeCodec<T>): (r: u64)
      ensures !Tee? ==> r == 0
    {
      match this
      case Tee(f) => codec.a5(f)
      case _ => 0
    }

    /** Register a4: used by the TEE extension only. */
    function A4(codec: TeeCodec<T>): (r: u64)
      ensures !Tee? ==> r == 0
    {
      match this
      case Tee(f) => codec.a4(f)
      case _ => 0
    }

    /** Register a3: used by the TEE and attestation extensions. */
    function A3(codec: TeeCodec<T>): (r: u64)
      ensures !Tee? && !Attestation? ==> r == 0
    {
      match this
      case Tee(f) => codec.a3(f)
      case Attestation(f) => f.A3()
      case _ => 0
    }

    /** Register a2. */
    function A2(codec: TeeCodec<T>): (r: u64)
      ensures Base? || PutChar? || Reset? ==> r == 0
    {
      match this
      case HartState(f) => f.A2()
      case Tee(f) => codec.a2(f)
      case Attestation(f) => f.A2()
      case _ => 0
    }

    /** Register a1. */
    function A1(codec: TeeCodec<T>): (r: u64)
      ensures Base? || PutChar? ==> r == 0
    {
      match this
      case Reset(f) => f.A1()
      case HartState(f) => f.A1()
      case Tee(f) => codec.a1(f)
      case Attestation(f) => f.A1()
      case _ => 0
    }

    /** Register a0; as written, 0 for every Base function, the probed
        extension id included. */
    function A0(codec: TeeCodec<T>): (r: u64)
      ensures Base? ==> r == 0
      ensures PutChar? ==> r == ch
    {
      match this
      case Reset(f) => f.A0()
      case PutChar(c) => c
      case HartState(f) => f.A0()
      case Tee(f) => codec.a0(f)
      case Attestation(f) => f.A0()
      case _ => 0
    }

    /** The register bank a0..a7 the accessors fill in for a call. */
    function ToRegs(codec: TeeCodec<T>): (r: Regs)
      ensures |r| == 8
      ensures r[7] in EXTENSIONS
      ensures !Tee? ==> r[4] == 0 && r[5] == 0
    {
      [A0(codec), A1(codec), A2(codec), A3(codec), A4(codec), A5(codec), A6(codec), A7()]
    }

    /** Interprets the two reply registers. The legacy console extension
        succeeds with 0 exactly when a0 is 0 and otherwise fails without
        detail, ignoring a1; every other extension uses the standard
        convention: a0 is a signed error code, success carries a1. */
    function Interpret(a0: u64, a1: u64, codes: ErrorCodes): (r: Result<u64, Error>)
      ensures PutChar? ==> r == if a0 == 0 then Ok(0) else Err(Failed)
      ensures !PutChar? ==> (r.Ok? <==> a0 == 0)
      ensures !PutChar? && r.Ok? ==> r.value == a1
      ensures !PutChar? && r.Err? ==> r.error == codes.fromCode(AsI64(a0))
    {
      AsI64ZeroIff(a0);
      var ret := SbiReturn(AsI64(a0), a1);
      match this
      case PutChar(_) => if AsI64(a0) == SBI_SUCCESS then Ok(0) else Err(Failed)
      case _ => ret.Into(codes)
    }
  }

  // ---------------------------------------------------------------------
  // Replies

  /** A reply in the standard convention: a signed error code (0 for
      success) and the return value. */
  datatype SbiReturn = SbiReturn(errorCode: i64, returnValue: u64) {
    /** A reply that reports success with the given value. */
    static function Success(returnValue: u64): (r: SbiReturn)
      ensures forall codes: ErrorCodes :: r.Into(codes) == Ok(returnValue)
    {
      SbiReturn(SBI_SUCCESS, returnValue)
    }

    /** The reply for an error: its code, and no return value. */
    static function FromError(e: Error, codes: ErrorCodes): (r: SbiReturn)
      ensures r.returnValue == 0
      ensures RoundTrips(codes, e) ==> r.Into(codes) == Err(e)
    {
      SbiReturn(codes.code(e), 0)
    }

    /** The reply for an outcome: success carries its value, an error its
        code. */
    static function FromResult(res: Result<u64, Error>, codes: ErrorCodes): (r: SbiReturn)
      ensures res.Ok? ==> r.errorCode == SBI_SUCCESS && r.returnValue == res.value
      ensures res.Err? ==> r == FromError(res.error, codes)
    {
      match res
      case Ok(rv) => Success(rv)
      case Err(e) => FromError(e, codes)
    }

    /** Reads an outcome back from a reply: the success code gives the
        return value, any other code the error the table maps it to. */
    function Into(codes: ErrorCodes): (r: Result<u64, Error>)
      ensures r.Ok? <==> errorCode == SBI_SUCCESS
      ensures r.Ok? ==> r.value == returnValue
      ensures r.Err? ==> r.error == codes.fromCode(errorCode)
    {
      if errorCode == SBI_SUCCESS then Ok(returnValue) else Err(codes.fromCode(errorCode))
    }

    /** The reply as the two registers a0 and a1 it travels in. */
    function Registers(): (r: (u64, u64))
      ensures AsI64(r.0) == errorCode && r.1 == returnValue
      ensures r.0 == 0 <==> errorCode == SBI_SUCCESS
    {
      (AsU64(errorCode), returnValue)
    }
  }

  /** The two reply conventions, as a type. */
  datatype SbiReturnType = Legacy(a0: u64) | Standard(ret: SbiReturn)

  /** Encoding an outcome as a reply and reading it back gives the outcome,
      for every error the code table carries. */
  lemma ReplyRoundTrip(res: Result<u64, Error>, codes: ErrorCodes)
    requires res.Err? ==> RoundTrips(codes, res.error)
    ensures SbiReturn.FromResult(res, codes).Into(codes) == res
  {
  }

  /** A standard-convention message reads back, from the reply registers
      the firmware writes, exactly the outcome the firmware reported. */
  lemma StandardReplyRoundTrip<T>(m: SbiMessage<T>, res: Result<u64, Error>, codes: ErrorCodes)
    requires !m.PutChar?
    requires res.Err? ==> RoundTrips(codes, res.error)
    ensures m.Interpret(SbiReturn.FromResult(res, codes).Registers().0,
                     SbiReturn.FromResult(res, codes).Registers().1, codes) == res
  {
    var ret := SbiReturn.FromResult(res, codes);
    ReinterpretRoundTrip(AsU64(ret.errorCode), ret.errorCode);
    ReplyRoundTrip(res, codes);
  }

  /** The legacy console reads any successful reply as 0 and any error as
      the generic failure: the error kind and the return value are lost. */
  lemma LegacyReply<T>(m: SbiMessage<T>, res: Result<u64, Error>, codes: ErrorCodes)
    requires m.PutChar?
    requires res.Err? ==> codes.code(res.error) != SBI_SUCCESS
    ensures m.Interpret(SbiReturn.FromResult(res, codes).Registers().0,
                     SbiReturn.FromResult(res, codes).Registers().1, codes)
            == if res.Ok? then Ok(0) else Err(Failed)
  {
    var ret := SbiReturn.FromResult(res, codes);
    ReinterpretRoundTrip(AsU64(ret.errorCode), ret.errorCode);
  }

  // ---------------------------------------------------------------------
  // Encode / decode round trips, as written

  /** The legacy console character survives encoding and decoding. */
  lemma PutCharRoundTrip<T>(c: u64, codec: TeeCodec<T>)
    ensures SbiMessage.FromRegs(PutChar(c).ToRegs(codec), codec) == Ok(PutChar(c))
  {
  }

  /** Every Hart State request survives encoding and decoding. */
  lemma HartStateRoundTrip<T>(f: StateFunction, codec: TeeCodec<T>)
    ensures SbiMessage.FromRegs(HartState(f).ToRegs(codec), codec) == Ok(HartState(f))
  {
    StateRoundTrip(f, HartState(f).ToRegs(codec));
  }

  /** Every attestation request survives encoding and decoding. */
  lemma AttestationMessageRoundTrip<T>(f: AttestationFunction, codec: TeeCodec<T>)
    ensures SbiMessage.FromRegs(Attestation(f).ToRegs(codec), codec) == Ok(Attestation(f))
  {
    AttestationRoundTrip(f, Attestation(f).ToRegs(codec));
  }

  /** A TEE request survives encoding and decoding whenever the TEE
      module's own decoder reads it back from the registers its own
      accessors fill: the dispatcher adds nothing and loses nothing. */
  lemma TeeRoundTrip<T>(t: T, codec: TeeCodec<T>)
    requires codec.fromRegs([codec.a0(t), codec.a1(t), codec.a2(t), codec.a3(t),
                             codec.a4(t), codec.a5(t), codec.a6(t), EXT_TEE]) == Ok(t)
    ensures SbiMessage.FromRegs(Tee(t).ToRegs(codec), codec) == Ok(Tee(t))
  {
  }

  /** The Hart State layout: a hart start request for hart 5 at address
      0x8000_0000 with opaque value 42 travels as a0 = 5, a1 = 0x8000_0000,
      a2 = 42, a6 = 0 (HART_START). */
  lemma HartStartLayout<T>(codec: TeeCodec<T>)
    ensures HartState(HartStart(5, 0x8000_0000, 42)).ToRegs(codec)
            == [5, 0x8000_0000, 42, 0, 0, 0, 0, EXT_HART_STATE]
  {
  }

  /** As written, every Base request is encoded with a6 = 0 and a0 = 0, so
      every one of them decodes as GetSpecificationVersion. */
  lemma BaseCollapses<T>(f: BaseFunction, codec: TeeCodec<T>)
    ensures SbiMessage.FromRegs(Base(f).ToRegs(codec), codec) == Ok(Base(GetSpecificationVersion))
  {
    BaseRoundTrip(GetSpecificationVersion, Base(f).ToRegs(codec));
  }

  /** As written, Reset puts the reason in a0 and the type in a1 while its
      decoder reads the type from a0 and the reason from a1: a system-failure
      shutdown arrives as a cold reset for no reason. */
  lemma ResetSystemFailureDecodesAsColdReset<T>(codec: TeeCodec<T>)
    ensures SbiMessage.FromRegs(SbiMessage.Reset(ResetFunction.Reset(ResetType.Shutdown, SystemFailure)).ToRegs(codec), codec)
            == Ok(SbiMessage.Reset(ResetFunction.Reset(ColdReset, NoReason)))
  {
  }

  /** As written, every reset request travels with its reason's code in a0
      and its type's code in a1, the reverse of the order its decoder reads
      them; every other register but a7 is 0. */
  lemma ResetLayout<T>(f: ResetFunction, codec: TeeCodec<T>)
    ensures SbiMessage.Reset(f).ToRegs(codec) == [f.reason.Code(), f.resetType.Code(), 0, 0, 0, 0, 0, EXT_RESET]
  {
  }

  /** As written, a cold reset for no reason is encoded as (0, 1), whose
      reason register 1 the decoder rejects. */
  lemma ResetColdResetRejected<T>(codec: TeeCodec<T>)
    ensures SbiMessage.FromRegs(SbiMessage.Reset(ResetFunction.Reset(ColdReset, NoReason)).ToRegs(codec), codec)
            == Err(InvalidParam)
  {
  }

  /** As written, the only reset request that survives encoding and decoding
      is the plain shutdown. */
  lemma ResetRoundTripIff<T>(f: ResetFunction, codec: TeeCodec<T>)
    ensures SbiMessage.FromRegs(SbiMessage.Reset(f).ToRegs(codec), codec) == Ok(SbiMessage.Reset(f))
            <==> f == ResetFunction.ShutdownRequest()
  {
  }

  /** An ExtendMeasurement request, the one function whose unused registers
      are, as written, not left at 0. */
  predicate IsExtendMeasurement<T>(m: SbiMessage<T>) {
    m.Attestation? && m.attestation.ExtendMeasurement?
  }

  /** The argument registers (among a0..a5) whose values the decoder reads
      for a message of this shape. */
  function Consumed<T>(m: SbiMessage<T>): (r: set<nat>)
    requires !m.Tee?
    ensures forall i :: i in r ==> i < 4
  {
    match m
    case Base(f) => if f.ProbeSbiExtension? then {0} else {}
    case PutChar(_) => {0}
    case HartState(f) =>
      (match f
       case HartStart(_, _, _) => {0, 1, 2}
       case HartStop => {}
       case HartStatus(_) => {0}
       case HartSuspend(_, _, _) => {0, 1, 2})
    case Reset(_) => {0, 1}
    case Attestation(f) => if f.GetEvidence? then {0, 1, 2, 3} else {0, 1}
  }

  /** As written, every argument register a message does not use reads as
      0, except a2 and a3 of ExtendMeasurement, which repeat its length. */
  lemma UnusedRegistersAsWritten<T>(m: SbiMessage<T>, codec: TeeCodec<T>, i: nat)
    requires !m.Tee? && i < 6 && i !in Consumed(m)
    ensures m.ToRegs(codec)[i] == if IsExtendMeasurement(m) && (i == 2 || i == 3) then m.attestation.len else 0
  {
  }

  /** Every request other than a TEE one can reach a handler: some bank
      decodes to it. So where a request does not survive the round trip,
      the defect lies in the encoder, not in the decoder. */
  lemma EveryRequestDecodable<T>(m: SbiMessage<T>, codec: TeeCodec<T>)
    requires !m.Tee?
    ensures exists args: Regs :: |args| == 8 && SbiMessage.FromRegs(args, codec) == Ok(m)
  {
    var args: Regs :=
      match m
      case Base(f) => [f.A0(), 0, 0, 0, 0, 0, f.A6(), EXT_BASE]
      case Reset(f) => [f.resetType.Code(), if f.reason == SystemFailure then 2 else 0, 0, 0, 0, 0, 0, EXT_RESET]
      case _ => m.ToRegs(codec);
    assert SbiMessage.FromRegs(args, codec) == Ok(m);
  }

  /** Which messages survive encoding and decoding, as written: all of them
      except every Base request other than GetSpecificationVersion and
      every Reset request other than the plain shutdown. (The TEE extension
      is the other module's to answer for.) */
  lemma RoundTripIff<T>(m: SbiMessage<T>, codec: TeeCodec<T>)
    requires !m.Tee?
    ensures SbiMessage.FromRegs(m.ToRegs(codec), codec) == Ok(m)
            <==> !(m.Base? && m.base != GetSpecificationVersion)
                 && !(m.Reset? && m.reset != ResetFunction.ShutdownRequest())
  {
    match m
    case Base(f) => BaseCollapses(f, codec);
    case PutChar(c) => PutCharRoundTrip(c, codec);
    case HartState(f) => HartStateRoundTrip(f, codec);
    case Reset(f) => ResetRoundTripIff(f, codec);
    case Attestation(f) => AttestationMessageRoundTrip(f, codec);
  }

  // ---------------------------------------------------------------------
  // The call boundary

  /** A call through a trap: the trap (the `ecall` instruction and whatever
      serves it) receives the argument registers and yields a0 and a1, which
      the message interprets. */
  function Call<T>(m: SbiMessage<T>, bank: Regs, trap: Regs -> (u64, u64), codes: ErrorCodes): (r: Result<u64, Error>)
    ensures m.PutChar? ==> r == if trap(bank).0 == 0 then Ok(0) else Err(Failed)
    ensures !m.PutChar? ==> (r.Ok? <==> trap(bank).0 == 0)
    ensures !m.PutChar? && r.Ok? ==> r.value == trap(bank).1
    ensures !m.PutChar? && r.Err? ==> r.error == codes.fromCode(AsI64(trap(bank).0))
  {
    m.Interpret(trap(bank).0, trap(bank).1, codes)
  }

  /** `ecall_send`: a call with the bank the message's own accessors fill. */
  function EcallSend<T>(m: SbiMessage<T>, codec: TeeCodec<T>, trap: Regs -> (u64, u64), codes: ErrorCodes): (r: Result<u64, Error>)
    ensures m.PutChar? ==> r == if trap(m.ToRegs(codec)).0 == 0 then Ok(0) else Err(Failed)
    ensures !m.PutChar? ==> (r.Ok? <==> trap(m.ToRegs(codec)).0 == 0)
    ensures !m.PutChar? && r.Ok? ==> r.value == trap(m.ToRegs(codec)).1
    ensures !m.PutChar? && r.Err? ==> r.error == codes.fromCode(AsI64(trap(m.ToRegs(codec)).0))
  {
    Call(m, m.ToRegs(codec), trap, codes)
  }

  /** The serving side of a call: decode the bank, run the handler on the
      request (or take the decode error) and write the outcome back in the
      standard reply registers. */
  function Serve<T>(decoded: Result<SbiMessage<T>, Error>, handler: SbiMessage<T> -> Result<u64, Error>, codes: ErrorCodes): (r: (u64, u64))
    ensures decoded.Ok? && handler(decoded.value).Ok? ==> r == (0, handler(decoded.value).value)
    ensures decoded.Ok? && handler(decoded.value).Err? ==>
              AsI64(r.0) == codes.code(handler(decoded.value).error) && r.1 == 0
    ensures decoded.Err? ==> AsI64(r.0) == codes.code(decoded.error) && r.1 == 0
  {
    match decoded
    case Ok(m) => SbiReturn.FromResult(handler(m), codes).Registers()
    case Err(e) => SbiReturn.FromError(e, codes).Registers()
  }

  /** Whatever a call's bank decodes to, the caller receives the outcome the
      handler reported for that decoded request (standard convention), as
      long as the error, if any, is one the code table carries. */
  lemma CallDeliversHandlerOutcome<T>(
    m: SbiMessage<T>, bank: Regs, decoded: SbiMessage<T>,
    handler: SbiMessage<T> -> Result<u64, Error>, trap: Regs -> (u64, u64), codes: ErrorCodes)
    requires !m.PutChar?
    requires trap(bank) == Serve(Ok(decoded), handler, codes)
    requires handler(decoded).Err? ==> RoundTrips(codes, handler(decoded).error)
    ensures Call(m, bank, trap, codes) == handler(decoded)
  {
    StandardReplyRoundTrip(m, handler(decoded), codes);
  }

  /** As written, a Base call is served as GetSpecificationVersion whatever
      Base function the caller asked for. */
  lemma BaseCallServedAsSpecVersion<T>(
    f: BaseFunction, codec: TeeCodec<T>,
    handler: SbiMessage<T> -> Result<u64, Error>, trap: Regs -> (u64, u64), codes: ErrorCodes)
    requires trap(Base(f).ToRegs(codec)) == Serve(SbiMessage.FromRegs(Base(f).ToRegs(codec), codec), handler, codes)
    requires handler(Base(GetSpecificationVersion)).Err? ==>
               RoundTrips(codes, handler(Base(GetSpecificationVersion)).error)
    ensures EcallSend(Base(f), codec, trap, codes) == handler(Base(GetSpecificationVersion))
  {
    BaseCollapses(f, codec);
    CallDeliversHandlerOutcome(Base(f), Base(f).ToRegs(codec), Base(GetSpecificationVersion), handler, trap, codes);
  }
}
