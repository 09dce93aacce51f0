/** The supervisor trap-cause register (scause) and its classification into
    a guest exit. Bit 63 of scause says whether the trap was an interrupt;
    otherwise the low bits hold the exception code (RISC-V Privileged
    Architecture, section "Supervisor Cause Register"). */
module SCauses {
  import opened Wrappers

  /** Bit 63: set when the trap was caused by an interrupt. */
  const INTERRUPT_BIT: bv64 := 0x8000_0000_0000_0000

  // Exception codes of the hypervisor extension. Only 0xa is fixed by the
  // classifier's own test; the two guest-page-fault codes are those of the
  // Privileged Architecture. The lemmas below rely on the three codes being
  // distinct and on none of them being 0 (CauseZeroUnrecognised).
  const CAUSE_VIRTUAL_SUPERVISOR_ECALL: bv8 := 0xa
  const CAUSE_LOAD_GUEST_PAGE_FAULT: bv8 := 21
  const CAUSE_STORE_GUEST_PAGE_FAULT: bv8 := 23

  /** The exception causes the classifier recognises. */
  datatype SupervisorExceptionCause = EcallVsMode | GuestLoadPageFault | GuestStoreAmoPageFault

  /** Why a guest stopped running. */
  datatype GuestExit = Exception(cause: SupervisorExceptionCause)

  /** The exception code each recognised cause stands for. */
  function CauseCode(c: SupervisorExceptionCause): (r: bv8)
    ensures r == CAUSE_VIRTUAL_SUPERVISOR_ECALL || r == CAUSE_LOAD_GUEST_PAGE_FAULT
            || r == CAUSE_STORE_GUEST_PAGE_FAULT
  {
    match c
    case EcallVsMode => CAUSE_VIRTUAL_SUPERVISOR_ECALL
    case GuestLoadPageFault => CAUSE_LOAD_GUEST_PAGE_FAULT
    case GuestStoreAmoPageFault => CAUSE_STORE_GUEST_PAGE_FAULT
  }

  /** A saved scause value. */
  datatype SCause = SCause(bits: bv64) {
    /** The interrupt bit is set: exactly the values from 2^63 up. */
    predicate IsInterrupt()
      ensures IsInterrupt() <==> bits as int >= 0x8000_0000_0000_0000
    {
      bits & INTERRUPT_BIT != 0
    }

    /** `self.0 as u8`: the low byte, the only part of an exception cause
        the classifier reads. */
    function LowByte(): (r: bv8)
      ensures r as bv64 == bits & 0xff
    {
      (bits & 0xff) as bv8
    }

    /** Classifies the trap: every interrupt is the error 0 (interrupts are
        not classified yet); an exception whose low byte is one of the three
        recognised codes is that guest exit; any other exception is the
        error carrying its low byte. */
    function IntoExit(): (r: Result<GuestExit, bv64>)
      ensures IsInterrupt() ==> r == Err(0)
      ensures r.Ok? <==> !IsInterrupt() && (LowByte() == CAUSE_VIRTUAL_SUPERVISOR_ECALL
                                            || LowByte() == CAUSE_LOAD_GUEST_PAGE_FAULT
                                            || LowByte() == CAUSE_STORE_GUEST_PAGE_FAULT)
      ensures r.Ok? ==> CauseCode(r.value.cause) == LowByte()
      ensures !IsInterrupt() && r.Err? ==> r.error == LowByte() as bv64
      ensures r.Err? ==> r.error < 256
    {
      if IsInterrupt() then
        Err(0)
      else
        var cause := LowByte();
        if cause == CAUSE_VIRTUAL_SUPERVISOR_ECALL then Ok(Exception(EcallVsMode))
        else if cause == CAUSE_LOAD_GUEST_PAGE_FAULT then Ok(Exception(GuestLoadPageFault))
        else if cause == CAUSE_STORE_GUEST_PAGE_FAULT then Ok(Exception(GuestStoreAmoPageFault))
        else Err(cause as bv64)
    }
  }

  /** With the interrupt bit clear, only the low byte matters: two causes
      with the same low byte classify the same. */
  lemma LowByteDetermines(c: SCause, d: SCause)
    requires !c.IsInterrupt() && !d.IsInterrupt()
    requires c.bits & 0xff == d.bits & 0xff
    ensures c.IntoExit() == d.IntoExit()
  {
  }

  /** Every recognised cause is classified from its own exception code. */
  lemma CauseCodeRoundTrip(e: SupervisorExceptionCause)
    ensures SCause(CauseCode(e) as bv64).IntoExit() == Ok(Exception(e))
  {
  }

  /** No exception code is dropped: every exception whose code the
      classifier does not recognise comes back as the error carrying that
      code, and every such code does occur as an exception. */
  lemma UnrecognisedCodesSurface(code: bv8)
    requires code != CAUSE_VIRTUAL_SUPERVISOR_ECALL && code != CAUSE_LOAD_GUEST_PAGE_FAULT
    requires code != CAUSE_STORE_GUEST_PAGE_FAULT
    ensures forall c: SCause | !c.IsInterrupt() && c.LowByte() == code :: c.IntoExit() == Err(code as bv64)
    ensures SCause(code as bv64).IntoExit() == Err(code as bv64)
    ensures exists c: SCause :: !c.IsInterrupt() && c.IntoExit() == Err(code as bv64)
  {
    assert SCause(code as bv64).IntoExit() == Err(code as bv64);
  }

  /** The classifier's tests: an interrupt with cause 1 gives the error 0,
      and cause 0xa is an ecall from VS-mode. */
  lemma ClassifierExamples()
    ensures SCause(0x8000_0000_0000_0001).IntoExit() == Err(0)
    ensures SCause(0xa).IntoExit() == Ok(Exception(EcallVsMode))
  {
  }

  /** Exception code 0 (instruction address misaligned) is not one the
      classifier recognises: it is reported as the error 0. */
  lemma CauseZeroUnrecognised()
    ensures SCause(0).IntoExit() == Err(0)
  {
  }

  /** Because interrupts are reported as the error 0, an interrupt cannot be
      told apart from the exception with code 0 (instruction address
      misaligned). */
  lemma InterruptIndistinguishableFromCauseZero(c: SCause)
    requires c.IsInterrupt()
    ensures c.IntoExit() == SCause(0).IntoExit()
  {
    CauseZeroUnrecognised();
  }
}
