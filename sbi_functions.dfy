/** The per-extension function descriptors of the SBI call protocol: for
    each extension, the operations it offers, how each operation is decoded
    from the argument registers (`FromRegs`) and which value each operation
    puts in the registers it uses (`A0` .. `A6`).

    Register a7 selects the extension and a6 the function within it; a0..a5
    carry the arguments. A register an operation does not use is not given
    an accessor here: at the message level it reads as 0. */
module SbiFunctions {
  import opened Words
  import opened Wrappers
  import opened SbiError

  /** The argument registers a0..a7 as the trap handler saved them:
      element i is register a<i>. */
  type Regs = seq<u64>

  // ---------------------------------------------------------------------
  // Base extension

  /** Functions of the Base extension. */
  datatype BaseFunction =
    | GetSpecificationVersion
    | GetImplementationID
    | GetImplementationVersion
    | ProbeSbiExtension(ext: u64)
    | GetMachineVendorID
    | GetMachineArchitectureID
    | GetMachineImplementationID
  {
    /** The function id, register a6. */
    function A6(): (r: u64)
      ensures r <= 6
      ensures r == 3 <==> ProbeSbiExtension?
    {
      match this
      case GetSpecificationVersion => 0
      case GetImplementationID => 1
      case GetImplementationVersion => 2
      case ProbeSbiExtension(_) => 3
      case GetMachineVendorID => 4
      case GetMachineArchitectureID => 5
      case GetMachineImplementationID => 6
    }

    /** Register a0: the probed extension id, zero for every other function. */
    function A0(): (r: u64)
      ensures ProbeSbiExtension? ==> r == ext
      ensures !ProbeSbiExtension? ==> r == 0
    {
      match this
      case ProbeSbiExtension(ext) => ext
      case _ => 0
    }

    /** Decodes a Base function from the registers: a6 picks one of the
        seven functions, anything else is not supported. */
    static function FromRegs(args: Regs): (r: Result<BaseFunction, Error>)
      requires |args| >= 7
      ensures r.Ok? <==> args[6] <= 6
      ensures r.Err? ==> r.error == NotSupported
      ensures r.Ok? ==> r.value.A6() == args[6]
      ensures r.Ok? && r.value.ProbeSbiExtension? ==> r.value.A0() == args[0]
    {
      match args[6]
      case 0 => Ok(GetSpecificationVersion)
      case 1 => Ok(GetImplementationID)
      case 2 => Ok(GetImplementationVersion)
      case 3 => Ok(ProbeSbiExtension(args[0]))
      case 4 => Ok(GetMachineVendorID)
      case 5 => Ok(GetMachineArchitectureID)
      case 6 => Ok(GetMachineImplementationID)
      case _ => Err(NotSupported)
    }
  }

  /** Any register bank that carries a Base function's own a6 and a0
      decodes to that function, whatever the other registers hold. */
  lemma BaseRoundTrip(f: BaseFunction, args: Regs)
    requires |args| >= 7 && args[6] == f.A6() && args[0] == f.A0()
    ensures BaseFunction.FromRegs(args) == Ok(f)
  {
  }

  // ---------------------------------------------------------------------
  // Hart State Management extension

  /** Functions of the Hart State Management extension. */
  datatype StateFunction =
    | HartStart(hartId: u64, startAddr: u64, opaqueValue: u64)
    | HartStop
    | HartStatus(hartId: u64)
    | HartSuspend(suspendType: u32, resumeAddr: u64, opaqueValue: u64)
  {
    /** The function id, register a6. */
    function A6(): (r: u64)
      ensures r <= 3
    {
      match this
      case HartStart(_, _, _) => 0
      case HartStop => 1
      case HartStatus(_) => 2
      case HartSuspend(_, _, _) => 3
    }

    /** Register a0: the hart id, or the suspend type widened to 64 bits. */
    function A0(): (r: u64)
      ensures HartStart? || HartStatus? ==> r == hartId
      ensures HartSuspend? ==> r == WidenU32(suspendType) && r as int < TWO_POW_32
      ensures HartStop? ==> r == 0
    {
      match this
      case HartStart(hartId, _, _) => hartId
      case HartStatus(hartId) => hartId
      case HartSuspend(suspendType, _, _) => WidenU32(suspendType)
      case _ => 0
    }

    /** Register a1: the start or resume address. */
    function A1(): (r: u64)
      ensures HartStart? ==> r == startAddr
      ensures HartSuspend? ==> r == resumeAddr
      ensures HartStop? || HartStatus? ==> r == 0
    {
      match this
      case HartStart(_, startAddr, _) => startAddr
      case HartSuspend(_, resumeAddr, _) => resumeAddr
      case _ => 0
    }

    /** Register a2: the opaque value handed to the started or resumed hart. */
    function A2(): (r: u64)
      ensures HartStart? || HartSuspend? ==> r == opaqueValue
      ensures HartStop? || HartStatus? ==> r == 0
    {
      match this
      case HartStart(_, _, opaqueValue) => opaqueValue
      case HartSuspend(_, _, opaqueValue) => opaqueValue
      case _ => 0
    }

    /** Decodes a Hart State function: a6 in 0..3 picks the function and its
        arguments are read from a0..a2 (the suspend type is truncated to 32
        bits); any other a6 is not supported. */
    static function FromRegs(args: Regs): (r: Result<StateFunction, Error>)
      requires |args| >= 7
      ensures r.Ok? <==> args[6] <= 3
      ensures r.Err? ==> r.error == NotSupported
      ensures r.Ok? ==> r.value.A6() == args[6]
      ensures r.Ok? && (r.value.HartStart? || r.value.HartStatus?) ==> r.value.A0() == args[0]
      ensures r.Ok? && r.value.HartSuspend? ==> (r.value.A0() as int - args[0] as int) % TWO_POW_32 == 0
      ensures r.Ok? && (r.value.HartStart? || r.value.HartSuspend?) ==>
                r.value.A1() == args[1] && r.value.A2() == args[2]
    {
      match args[6]
      case 0 => Ok(HartStart(args[0], args[1], args[2]))
      case 1 => Ok(HartStop)
      case 2 => Ok(HartStatus(args[0]))
      case 3 => Ok(HartSuspend(TruncateU32(args[0]), args[1], args[2]))
      case _ => Err(NotSupported)
    }
  }

  /** A bank holding a Hart State function's own a0, a1, a2 and a6 decodes to
      that function; in particular the suspend type survives the u32 -> u64
      -> u32 casts. */
  lemma StateRoundTrip(f: StateFunction, args: Regs)
    requires |args| >= 7 && args[6] == f.A6()
    requires args[0] == f.A0() && args[1] == f.A1() && args[2] == f.A2()
    ensures StateFunction.FromRegs(args) == Ok(f)
  {
    if f.HartSuspend? {
      WidenTruncate(f.suspendType);
    }
  }

  /** The status a hart reports, with the fixed codes of the HSM extension. */
  datatype HartState =
    | Started
    | Stopped
    | StartPending
    | StopPending
    | Suspended
    | SuspendPending
    | ResumePending
  {
    function Code(): (r: u64)
      ensures r <= 6
    {
      match this
      case Started => 0
      case Stopped => 1
      case StartPending => 2
      case StopPending => 3
      case Suspended => 4
      case SuspendPending => 5
      case ResumePending => 6
    }
  }

  /** No two hart states share a code. */
  lemma HartStateCodesDistinct(s: HartState, t: HartState)
    ensures s.Code() == t.Code() <==> s == t
  {
  }

  // ---------------------------------------------------------------------
  // System Reset extension

  /** The types of reset a supervisor can request. */
  datatype ResetType = Shutdown | ColdReset | WarmReset {
    /** `reset_type as u64`: the declared discriminant. */
    function Code(): (r: u64)
      ensures r <= 2
    {
      match this
      case Shutdown => 0
      case ColdReset => 1
      case WarmReset => 2
    }

    /** Reads a reset type from a register; unmapped values are invalid,
        never coerced to a default. */
    static function FromReg(a0: u64): (r: Result<ResetType, Error>)
      ensures r.Ok? <==> a0 <= 2
      ensures r.Ok? ==> r.value.Code() == a0
      ensures r.Err? ==> r.error == InvalidParam
    {
      match a0
      case 0 => Ok(Shutdown)
      case 1 => Ok(ColdReset)
      case 2 => Ok(WarmReset)
      case _ => Err(InvalidParam)
    }
  }

  /** The reasons for a reset. */
  datatype ResetReason = NoReason | SystemFailure {
    /** `reason as u64`: the declared discriminant. */
    function Code(): (r: u64)
      ensures r <= 1
    {
      match this
      case NoReason => 0
      case SystemFailure => 1
    }

    /** Reads a reset reason from a register, as written: 0 and 2 are
        accepted, 2 meaning `SystemFailure`; every other value is invalid. */
    static function FromReg(a1: u64): (r: Result<ResetReason, Error>)
      ensures r == Ok(NoReason) <==> a1 == 0
      ensures r == Ok(SystemFailure) <==> a1 == 2
      ensures r.Err? <==> a1 != 0 && a1 != 2
      ensures r.Err? ==> r.error == InvalidParam
    {
      match a1
      case 0 => Ok(NoReason)
      case 2 => Ok(SystemFailure)
      case _ => Err(InvalidParam)
    }
  }

  /** Every reset type is read back from its own code. */
  lemma ResetTypeRoundTrip(t: ResetType)
    ensures ResetType.FromReg(t.Code()) == Ok(t)
  {
  }

  /** As written, the reason decoder rejects `SystemFailure`'s own code 1
      and accepts 2 instead; only `NoReason` is read back from its code. */
  lemma ResetReasonRejectsOwnCode()
    ensures ResetReason.FromReg(NoReason.Code()) == Ok(NoReason)
    ensures ResetReason.FromReg(SystemFailure.Code()) == Err(InvalidParam)
  {
  }

  /** Functions of the System Reset extension. */
  datatype ResetFunction = Reset(resetType: ResetType, reason: ResetReason) {
    /** The request that powers the machine down for no particular reason. */
    static function ShutdownRequest(): (r: ResetFunction)
      ensures r.resetType.Code() == 0 && r.reason.Code() == 0
    {
      Reset(ResetType.Shutdown, NoReason)
    }

    /** Register a0, as written: the reason's code. */
    function A0(): (r: u64)
      ensures r == reason.Code() && r <= 1
    {
      reason.Code()
    }

    /** Register a1, as written: the reset type's code. */
    function A1(): (r: u64)
      ensures r == resetType.Code() && r <= 2
    {
      resetType.Code()
    }

    /** Decodes a reset request: a6 must be 0, the type is read from a0 and
        the reason from a1, each rejected as an invalid parameter when it is
        not a known code. */
    static function FromRegs(args: Regs): (r: Result<ResetFunction, Error>)
      requires |args| >= 7
      ensures args[6] != 0 ==> r == Err(NotSupported)
      ensures args[6] == 0 ==> (r.Ok? <==> args[0] <= 2 && (args[1] == 0 || args[1] == 2))
      ensures args[6] == 0 && r.Err? ==> r.error == InvalidParam
      ensures r.Ok? ==> r.value.resetType.Code() == args[0]
      ensures r.Ok? ==> ResetReason.FromReg(args[1]) == Ok(r.value.reason)
    {
      match args[6]
      case 0 =>
        (match ResetType.FromReg(args[0])
         case Err(e) => Err(e)
         case Ok(resetType) =>
           match ResetReason.FromReg(args[1])
           case Err(e) => Err(e)
           case Ok(reason) => Ok(Reset(resetType, reason)))
      case _ => Err(NotSupported)
    }
  }

  /** A reset request whose type register holds 99 is an invalid parameter,
      whatever the reason register holds. */
  lemma ResetType99IsInvalid(args: Regs)
    requires |args| >= 7 && args[6] == 0 && args[0] == 99
    ensures ResetFunction.FromRegs(args) == Err(InvalidParam)
  {
  }

  // ---------------------------------------------------------------------
  // Attestation extension (vendor)

  /** Functions of the attestation extension. */
  datatype AttestationFunction =
    | GetEvidence(csrAddr: u64, csrLen: u64, certAddr: u64, certLen: u64)
    | ExtendMeasurement(measurementAddr: u64, len: u64)
  {
    /** The function id, register a6. */
    function A6(): (r: u64)
      ensures r <= 1
      ensures r == 0 <==> GetEvidence?
    {
      match this
      case GetEvidence(_, _, _, _) => 0
      case ExtendMeasurement(_, _) => 1
    }

    /** Register a3: the reserved certificate length, or, as written, the
        measurement length again, which a1 already carries. */
    function A3(): (r: u64)
      ensures GetEvidence? ==> r == certLen
      ensures ExtendMeasurement? ==> r == len && r == A1()
    {
      match this
      case GetEvidence(_, _, _, certLen) => certLen
      case ExtendMeasurement(_, len) => len
    }

    /** Register a2: the certificate address, or, as written, the
        measurement length again, which a1 already carries. */
    function A2(): (r: u64)
      ensures GetEvidence? ==> r == certAddr
      ensures ExtendMeasurement? ==> r == len && r == A1()
    {
      match this
      case GetEvidence(_, _, certAddr, _) => certAddr
      case ExtendMeasurement(_, len) => len
    }

    /** Register a1: the CSR length or the measurement length. */
    function A1(): (r: u64)
      ensures GetEvidence? ==> r == csrLen
      ensures ExtendMeasurement? ==> r == len
    {
      match this
      case GetEvidence(_, csrLen, _, _) => csrLen
      case ExtendMeasurement(_, len) => len
    }

    /** Register a0: the CSR address or the measurement address. */
    function A0(): (r: u64)
      ensures GetEvidence? ==> r == csrAddr
      ensures ExtendMeasurement? ==> r == measurementAddr
    {
      match this
      case GetEvidence(csrAddr, _, _, _) => csrAddr
      case ExtendMeasurement(measurementAddr, _) => measurementAddr
    }

    /** Decodes an attestation function: a6 = 0 reads four arguments from
        a0..a3, a6 = 1 reads two from a0..a1; any other a6 is an invalid
        parameter (not "not supported"). */
    static function FromRegs(args: Regs): (r: Result<AttestationFunction, Error>)
      requires |args| >= 7
      ensures r.Ok? <==> args[6] <= 1
      ensures r.Err? ==> r.error == InvalidParam
      ensures r.Ok? ==> r.value.A6() == args[6] && r.value.A0() == args[0] && r.value.A1() == args[1]
      ensures r.Ok? && r.value.GetEvidence? ==> r.value.A2() == args[2] && r.value.A3() == args[3]
    {
      match args[6]
      case 0 => Ok(GetEvidence(args[0], args[1], args[2], args[3]))
      case 1 => Ok(ExtendMeasurement(args[0], args[1]))
      case _ => Err(InvalidParam)
    }
  }

  /** A bank holding an attestation function's own a6 and the registers it
      consumes (a0..a3 for GetEvidence, a0..a1 for ExtendMeasurement)
      decodes to that function. */
  lemma AttestationRoundTrip(f: AttestationFunction, args: Regs)
    requires |args| >= 7 && args[6] == f.A6() && args[0] == f.A0() && args[1] == f.A1()
    requires f.GetEvidence? ==> args[2] == f.A2() && args[3] == f.A3()
    ensures AttestationFunction.FromRegs(args) == Ok(f)
  {
  }

  /** As written, ExtendMeasurement reports its length in a2 and a3 as well,
      for every address and length, while its decoder reads a0 and a1 only:
      whatever a2 and a3 hold, a bank with a6 = 1 decodes from a0 and a1. */
  lemma ExtendMeasurementReportsLenInA2A3(measurementAddr: u64, len: u64)
    ensures ExtendMeasurement(measurementAddr, len).A2() == len
    ensures ExtendMeasurement(measurementAddr, len).A3() == len
    ensures forall args: Regs | |args| >= 7 && args[6] == 1 ::
              AttestationFunction.FromRegs(args) == Ok(ExtendMeasurement(args[0], args[1]))
  {
  }
}
