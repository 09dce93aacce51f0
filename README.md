# SBI call-protocol layer and trap-cause classifier, in Dafny

This project models two pieces of a RISC-V confidential-computing
hypervisor.

The first is the Supervisor Binary Interface (SBI) call-protocol layer. It
converts typed SBI requests to and from the eight 64-bit argument registers
a0..a7, and it interprets the two reply registers. Register a7 selects the
extension and a6 the function within it. The reply is a0 = error code,
a1 = value. The extensions covered are:

- Base;
- the legacy console putchar;
- Hart State Management (HSM);
- System Reset;
- a vendor Attestation extension;
- the vendor confidential-VM (TEE) extension, as a pluggable payload.

The second is the supervisor trap-cause classifier `SCause::into_exit`. It
turns an scause value into a guest exit or an error code.

Everything in the source is pure `match` code over `u64`s and closed enums,
so the model uses datatypes, functions and lemmas throughout.

Files:

- `words.dfy` (module `Words`): `u32`, `u64` and `i64` as newtypes. The
  Rust casts `as i64`, `as u64` and `as u32` are written out.
- `wrappers.dfy` (module `Wrappers`): `Result`.
- `sbi_error.dfy` (module `SbiError`): the error kinds and the success
  sentinel. The code table (`error as i64`, `Error::from_code`) comes from
  the error module, which is not part of this model. It is passed around as
  an `ErrorCodes` value, so no particular table is assumed.
- `sbi_functions.dfy` (module `SbiFunctions`): per-extension function
  datatypes, their decoders `FromRegs` and register accessors.
- `sbi_message.dfy` (module `SbiMessages`): `SbiMessage`, its decoder,
  accessors `A0`..`A7`, the reply conventions (`Interpret`, `SbiReturn`), the
  call boundary (`Call`, `EcallSend`, `Serve`) and the as-written round-trip
  facts.
- `sbi_corrected.dfy` (module `SbiCorrected`): the codec with the defects
  listed under Findings corrected. It has a full round trip, and the
  decoder reads only the registers a message uses.
- `scause.dfy` (module `SCauses`): the trap-cause classifier.

The standard extension ids are those of the SBI specification: Base 0x10,
console putchar 0x01, HSM 0x48534D and System Reset 0x53525354. The TEE and
Attestation ids are vendor-defined, and their values here are placeholders.
The proofs rely only on the six ids being pairwise distinct. `SBI_SUCCESS`
is 0. The exception codes are 0xa for an ecall from VS-mode, 21 for a load
guest-page fault and 23 for a store/AMO guest-page fault. These are the
hypervisor-extension codes of the RISC-V Privileged Architecture. The
classifier's lemmas rely on the three codes being distinct and on none of
them being 0 (`SCauses.CauseZeroUnrecognised`).

## Model

| member | source | states |
|---|---|---|
| `Words.AsI64` | sbi/src/sbi.rs:668 | `a0 as i64` keeps the same 64 bits (congruent mod 2^64) and is negative exactly when bit 63 is set |
| `Words.TruncateU32` | sbi/src/sbi.rs:149 | `as u32` keeps the value modulo 2^32 and leaves values below 2^32 unchanged |
| `Words.WidenU32` | sbi/src/sbi.rs:182 | `as u64` on a u32 preserves the value |
| `Words.AsU64` | sbi/src/sbi.rs:666-670 | `as u64` on an i64 keeps the same 64 bits (congruent mod 2^64) and leaves non-negative values unchanged; with `AsI64` it is a bijection (`ReinterpretRoundTrip`) |
| `SbiFunctions.BaseFunction.FromRegs` | sbi/src/sbi.rs:47-60 | decoding succeeds exactly when a6 <= 6, otherwise NotSupported; the decoded function's id is a6, and a probed extension is a0 |
| `SbiFunctions.BaseFunction.A6` | sbi/src/sbi.rs:64-75 | function ids lie in 0..6; id 3 is exactly ProbeSbiExtension |
| `SbiFunctions.BaseFunction.A0` | sbi/src/sbi.rs:77-83 | ProbeSbiExtension reports the probed extension id in a0, and every other function reports 0 |
| `SbiFunctions.BaseRoundTrip` | sbi/src/sbi.rs:47-83 | any bank carrying a Base function's own a6 and a0 decodes to it, whatever the other registers hold |
| `SbiFunctions.StateFunction.FromRegs` | sbi/src/sbi.rs:138-155 | succeeds exactly when a6 <= 3, otherwise NotSupported; the decoded function's id is a6 and its a0..a2 agree with the bank (the suspend type modulo 2^32) |
| `SbiFunctions.StateFunction.A6` | sbi/src/sbi.rs:159-167 | function ids lie in 0..3 |
| `SbiFunctions.StateFunction.A0` | sbi/src/sbi.rs:169-185 | HartStart and HartStatus report the hart id, HartSuspend its suspend type widened to 64 bits (below 2^32), HartStop 0 |
| `SbiFunctions.StateFunction.A1` | sbi/src/sbi.rs:187-202 | HartStart reports its start address and HartSuspend its resume address; HartStop and HartStatus report 0 |
| `SbiFunctions.StateFunction.A2` | sbi/src/sbi.rs:204-219 | HartStart and HartSuspend report their opaque value; HartStop and HartStatus report 0 |
| `SbiFunctions.StateRoundTrip` | sbi/src/sbi.rs:138-219 | a bank holding a function's own a0, a1, a2 and a6 decodes to that function; the suspend type survives u32 -> u64 -> u32 |
| `SbiFunctions.HartState.Code` | sbi/src/sbi.rs:118-134 | hart-state codes lie in 0..6 |
| `SbiFunctions.HartStateCodesDistinct` | sbi/src/sbi.rs:118-134 | two hart states share a code exactly when they are equal |
| `SbiFunctions.ResetType.Code` | sbi/src/sbi.rs:237-244 | reset-type discriminants lie in 0..2 |
| `SbiFunctions.ResetType.FromReg` | sbi/src/sbi.rs:249-257 | accepts exactly 0, 1, 2, each read back as the type with that code; everything else is InvalidParam |
| `SbiFunctions.ResetTypeRoundTrip` | sbi/src/sbi.rs:237-257 | every reset type is decoded from its own code |
| `SbiFunctions.ResetReason.Code` | sbi/src/sbi.rs:263-268 | reset-reason discriminants lie in 0..1 |
| `SbiFunctions.ResetReason.FromReg` | sbi/src/sbi.rs:273-280 | accepts exactly 0 (NoReason) and 2 (SystemFailure), both directions; everything else is InvalidParam |
| `SbiFunctions.ResetReasonRejectsOwnCode` | sbi/src/sbi.rs:263-280 | NoReason is decoded from its code, but SystemFailure's own code 1 is rejected as InvalidParam |
| `SbiFunctions.ResetFunction.ShutdownRequest` | sbi/src/sbi.rs:285-290 | `shutdown()` is the request whose type and reason codes are both 0 |
| `SbiFunctions.ResetFunction.A0` | sbi/src/sbi.rs:309-316 | as written, a0 is the reason's code (at most 1) for every request, not the reset type its decoder reads from a0 |
| `SbiFunctions.ResetFunction.A1` | sbi/src/sbi.rs:318-325 | as written, a1 is the reset type's code (at most 2) for every request, not the reason its decoder reads from a1 |
| `SbiFunctions.ResetFunction.FromRegs` | sbi/src/sbi.rs:295-305 | a6 != 0 gives NotSupported; with a6 = 0 it succeeds exactly when a0 <= 2 and a1 is 0 or 2, and otherwise gives InvalidParam; the type is read from a0 and the reason from a1 |
| `SbiFunctions.ResetType99IsInvalid` | sbi/src/sbi.rs:298-301 | 99 in the type register gives InvalidParam, never a default |
| `SbiFunctions.AttestationFunction.A6` | sbi/src/sbi.rs:388-403 | ids are 0 (GetEvidence) and 1 (ExtendMeasurement) |
| `SbiFunctions.AttestationFunction.A3` | sbi/src/sbi.rs:405-420 | a3 is the certificate length for GetEvidence; for ExtendMeasurement it is, as written, the length again, equal to a1 |
| `SbiFunctions.AttestationFunction.A2` | sbi/src/sbi.rs:422-437 | a2 is the certificate address for GetEvidence; for ExtendMeasurement it is, as written, the length again, equal to a1 |
| `SbiFunctions.AttestationFunction.A1` | sbi/src/sbi.rs:439-454 | a1 is the CSR length for GetEvidence and the measurement length for ExtendMeasurement; the decoder reads both back from a1 (`AttestationRoundTrip`) |
| `SbiFunctions.AttestationFunction.A0` | sbi/src/sbi.rs:456-471 | a0 is the CSR address for GetEvidence and the measurement address for ExtendMeasurement; the decoder reads both back from a0 (`AttestationRoundTrip`) |
| `SbiFunctions.AttestationFunction.FromRegs` | sbi/src/sbi.rs:369-386 | succeeds exactly when a6 <= 1, otherwise InvalidParam (not NotSupported); the decoded function's a6, a0, a1 (and a2, a3 for GetEvidence) agree with the bank |
| `SbiFunctions.AttestationRoundTrip` | sbi/src/sbi.rs:369-471 | a bank holding a function's own a6 and the registers it consumes decodes to that function |
| `SbiFunctions.ExtendMeasurementReportsLenInA2A3` | sbi/src/sbi.rs:405-437 | for every address and length, ExtendMeasurement reports its length in a2 and a3, while its decoder builds the request from a0 and a1 alone, whatever a2 and a3 hold |
| `SbiMessages.ExtensionIdsDistinct` | sbi/src/sbi.rs:551-560 | the six extension ids are pairwise distinct |
| `SbiMessages.SbiMessage.FromRegs` | sbi/src/sbi.rs:551-561 | an unknown a7 gives NotSupported; the putchar id gives PutChar(a0) whatever a1..a6 hold; Base, HSM, Reset and Attestation banks give exactly their own decoder's result, value or error, wrapped in the variant; TEE banks go to the TEE decoder; a decoded message's a7 is the bank's a7 |
| `SbiMessages.SbiMessage.A7` | sbi/src/sbi.rs:564-573 | a7 is always one of the six extension ids |
| `SbiMessages.SbiMessage.A6` | sbi/src/sbi.rs:576-585 | a6 is 0 for Base, putchar and Reset; at most 3 for HSM and at most 1 for Attestation |
| `SbiMessages.SbiMessage.A5` | sbi/src/sbi.rs:588-593 | a5 is 0 for every non-TEE message |
| `SbiMessages.SbiMessage.A4` | sbi/src/sbi.rs:596-601 | a4 is 0 for every non-TEE message |
| `SbiMessages.SbiMessage.A3` | sbi/src/sbi.rs:604-610 | a3 is 0 unless the message is TEE or Attestation |
| `SbiMessages.SbiMessage.A2` | sbi/src/sbi.rs:613-620 | a2 is 0 for Base, putchar and Reset |
| `SbiMessages.SbiMessage.A1` | sbi/src/sbi.rs:623-631 | a1 is 0 for Base and putchar |
| `SbiMessages.SbiMessage.A0` | sbi/src/sbi.rs:634-643 | a0 is the character for putchar and 0 for every Base message |
| `SbiMessages.SbiMessage.ToRegs` | sbi/src/sbi.rs:700-703 | the bank `ecall_send` passes: eight registers, a7 one of the six extension ids, a4 and a5 zero for every non-TEE message |
| `SbiMessages.SbiMessage.Interpret` | sbi/src/sbi.rs:666-680 | putchar: Ok(0) exactly when a0 is 0, else Err(Failed), a1 ignored; any other message: Ok(a1) exactly when a0 is 0, otherwise the error the table gives for `a0 as i64` |
| `SbiMessages.SbiReturn.Success` | sbi/src/sbi.rs:485-490 | a success reply reads back as Ok of its value |
| `SbiMessages.SbiReturn.FromError` | sbi/src/sbi.rs:502-509 | an error reply has return value 0 and reads back as that error whenever the table carries it |
| `SbiMessages.SbiReturn.FromResult` | sbi/src/sbi.rs:493-500 | Ok(rv) becomes (SBI_SUCCESS, rv) and Err(e) the error reply of e |
| `SbiMessages.SbiReturn.Into` | sbi/src/sbi.rs:511-518 | success code gives Ok(return value), both directions; any other code gives the table's error for it |
| `SbiMessages.SbiReturn.Registers` | sbi/src/sbi.rs:666-670 | the reply as the two registers a0, a1: reading a0 as signed gives the error code back, a1 is the return value, and a0 is 0 exactly for success |
| `SbiMessages.ReplyRoundTrip` | sbi/src/sbi.rs:493-518 | converting an outcome to a reply and back returns the outcome, for every error the table carries |
| `SbiMessages.StandardReplyRoundTrip` | sbi/src/sbi.rs:666-680 | a non-putchar message reads back, from the two reply registers of an outcome, exactly that outcome |
| `SbiMessages.LegacyReply` | sbi/src/sbi.rs:672-677 | putchar reads any successful reply as Ok(0) and any error reply as Err(Failed) |
| `SbiMessages.PutCharRoundTrip` | sbi/src/sbi.rs:553 | a putchar message survives encoding and decoding |
| `SbiMessages.HartStateRoundTrip` | sbi/src/sbi.rs:555 | every HSM message survives encoding and decoding |
| `SbiMessages.HartStartLayout` | sbi/src/sbi.rs:89-97 | a start of hart 5 at 0x8000_0000 with opaque value 42 travels as a0 = 5, a1 = 0x8000_0000, a2 = 42, a6 = 0 and a7 the HSM id, the rest 0 |
| `SbiMessages.AttestationMessageRoundTrip` | sbi/src/sbi.rs:558 | every Attestation message survives encoding and decoding |
| `SbiMessages.TeeRoundTrip` | sbi/src/sbi.rs:557 | a TEE request survives encoding and decoding whenever the TEE module's decoder reads it back from the registers its own accessors fill |
| `SbiMessages.BaseCollapses` | sbi/src/sbi.rs:578 | every Base message decodes as GetSpecificationVersion after encoding |
| `SbiMessages.ResetLayout` | sbi/src/sbi.rs:309-325 | as written, every reset request's bank is its reason's code in a0, its type's code in a1, 0 in a2..a6 and the Reset id in a7 |
| `SbiMessages.ResetSystemFailureDecodesAsColdReset` | sbi/src/sbi.rs:309-325 | (Shutdown, SystemFailure) decodes as (ColdReset, NoReason) after encoding |
| `SbiMessages.ResetColdResetRejected` | sbi/src/sbi.rs:299-301 | (ColdReset, NoReason) fails to decode after encoding, with InvalidParam |
| `SbiMessages.ResetRoundTripIff` | sbi/src/sbi.rs:295-325 | a Reset message survives encoding and decoding exactly when it is `shutdown()` |
| `SbiMessages.RoundTripIff` | sbi/src/sbi.rs:551-643 | a non-TEE message survives encoding and decoding exactly when it is neither a Base message other than GetSpecificationVersion nor a Reset message other than `shutdown()` |
| `SbiMessages.Consumed` | sbi/src/sbi.rs:551-561 | the argument registers the dispatcher and each extension's decoder (lines 47-60, 138-155, 295-305, 369-386 and 553) read for a message of that shape, all within a0..a3; `SbiCorrected.DecodeReadsOnlyConsumed` and `SbiCorrected.ConsumedRegistersRead` prove the decoder reads exactly these |
| `SbiMessages.UnusedRegistersAsWritten` | sbi/src/sbi.rs:588-643 | as written, every argument register a non-TEE message does not use reads 0, except a2 and a3 of ExtendMeasurement, which hold its length |
| `SbiMessages.EveryRequestDecodable` | sbi/src/sbi.rs:551-561 | every non-TEE request is what the decoder produces from some eight-register bank, so the lost round trips are defects of the encoder |
| `SbiMessages.CallDeliversHandlerOutcome` | sbi/src/sbi.rs:695-706 | if the trap serves a bank that decodes to request d, a standard-convention caller receives the handler's outcome for d |
| `SbiMessages.BaseCallServedAsSpecVersion` | sbi/src/sbi.rs:576-578 | every Base call is served as GetSpecificationVersion |
| `SbiMessages.Call` | sbi/src/sbi.rs:695-706 | whatever bank the trap is given, the caller reads (a0, a1) as the message's reply: putchar gets Ok(0) exactly when a0 is 0 and Err(Failed) otherwise; every other message gets Ok(a1) exactly when a0 is 0 and otherwise the error the table maps `a0 as i64` to |
| `SbiMessages.EcallSend` | sbi/src/sbi.rs:695-706 | `ecall_send`: the trap receives the message's own bank, and its (a0, a1) are read as that message's reply, with the same cases as `Call` |
| `SbiMessages.Serve` | sbi/src/sbi.rs:493-509 | a serving firmware answers a decoded request the handler accepts with (0, value), a rejected one with the handler error's code and 0, and an undecodable bank with the decode error's code and 0 |
| `SbiCorrected.ReasonFromReg` | sbi/src/sbi.rs:273-280 | corrected: accepts exactly 0 and 1, each read back as the reason with that code; everything else is InvalidParam |
| `SbiCorrected.ReasonFromRegInverse` | sbi/src/sbi.rs:263-280 | corrected: every reason is decoded from its own code |
| `SbiCorrected.ResetFromRegs` | sbi/src/sbi.rs:295-305 | corrected: a6 != 0 gives NotSupported; with a6 = 0 it succeeds exactly when a0 <= 2 and a1 <= 1; the type's code is a0 and the reason's code is a1 |
| `SbiCorrected.FromRegs` | sbi/src/sbi.rs:551-561 | corrected: identical to the as-written decoder except for Reset banks, which give exactly the corrected reset decoder's result, value or error, wrapped as a Reset message |
| `SbiCorrected.A0` | sbi/src/sbi.rs:634-643 | corrected: Base reports its a0 (the probed extension); Reset reports its type code |
| `SbiCorrected.A1` | sbi/src/sbi.rs:623-631 | corrected: Reset reports its reason code |
| `SbiCorrected.A2` | sbi/src/sbi.rs:422-437 | corrected: ExtendMeasurement reports 0 in a2 |
| `SbiCorrected.A3` | sbi/src/sbi.rs:405-420 | corrected: ExtendMeasurement reports 0 in a3 |
| `SbiCorrected.A6` | sbi/src/sbi.rs:576-585 | corrected: Base reports its own function id |
| `SbiCorrected.UnusedRegistersZero` | sbi/src/sbi.rs:588-643 | with the corrected codec, every argument register a non-TEE message does not use reads 0 |
| `SbiCorrected.DecodeReadsOnlyConsumed` | sbi/src/sbi.rs:551-561 | any bank that agrees with a message's corrected encoding on a7, a6 and the registers the message uses decodes to that message |
| `SbiCorrected.ConsumedRegistersRead` | sbi/src/sbi.rs:551-561 | changing any one register `Consumed` lists in a message's bank changes what the bank decodes to, so the decoder reads every one of them |
| `SbiCorrected.RoundTrip` | sbi/src/sbi.rs:551-643 | with the corrected codec, every non-TEE message survives encoding and decoding |
| `SbiCorrected.EncodingInjective` | sbi/src/sbi.rs:551-643 | with the corrected codec, two distinct non-TEE requests never share a register bank |
| `SbiCorrected.CallDeliversOwnOutcome` | sbi/src/sbi.rs:695-706 | with the corrected codec, a call delivers the handler's outcome for the caller's own request: the outcome itself in the standard convention, Ok(0) or Err(Failed) for putchar |
| `SCauses.CauseCode` | riscv-regs/src/sregs.rs:26-30 | each recognised cause has one of the three recognised codes |
| `SCauses.SCause.IsInterrupt` | riscv-regs/src/sregs.rs:17 | the interrupt-bit mask test holds exactly for the values from 2^63 up |
| `SCauses.SCause.LowByte` | riscv-regs/src/sregs.rs:25 | `as u8` keeps exactly the low eight bits |
| `SCauses.SCause.IntoExit` | riscv-regs/src/sregs.rs:16-34 | an interrupt gives Err(0) whatever the other bits; otherwise Ok exactly for low bytes 0xa, 21 and 23, mapped to the cause with that code, and Err(low byte) for every other exception; every error value is below 256 |
| `SCauses.LowByteDetermines` | riscv-regs/src/sregs.rs:25 | two exception causes with equal low bytes classify identically |
| `SCauses.CauseCodeRoundTrip` | riscv-regs/src/sregs.rs:25-30 | each recognised cause is classified from its own code |
| `SCauses.UnrecognisedCodesSurface` | riscv-regs/src/sregs.rs:31-32 | every exception (interrupt bit clear) whose low byte is not one of the three recognised codes is reported as the error carrying that byte, and each such byte does occur as an exception |
| `SCauses.ClassifierExamples` | riscv-regs/src/sregs.rs:41-54 | 0x8000_0000_0000_0001 gives Err(0) and 0xa gives an ecall from VS-mode |
| `SCauses.CauseZeroUnrecognised` | riscv-regs/src/sregs.rs:25-31 | exception code 0 is none of the recognised codes and is reported as the error 0 |
| `SCauses.InterruptIndistinguishableFromCauseZero` | riscv-regs/src/sregs.rs:17-31 | every interrupt classifies the same as exception code 0 |

## Left out

- `ecall_send` performs the trap with inline `ecall` assembly. The trap is a function parameter from the eight argument registers to (a0, a1), and `EcallSend` feeds those two outputs to `Interpret`. `Serve` models a firmware that decodes, runs a handler and writes the standard reply.
- `TeeFunction` comes from the tsm module, which is not part of this model. It is the type parameter `T` of `SbiMessage`, and its decoder and accessors a0..a6 are the fields of a `TeeCodec<T>`. No function table is assumed for it.
- `Error::from_code` and `error as i64` come from the error module, which is not part of this model. They are the two fields of an `ErrorCodes` parameter. Lemmas that need an error to survive the reply require `RoundTrips(codes, e)` for that one error, rather than a whole table. Error kinds the protocol layer never names are `Other(code)`.
- The `EXT_*` constants come from the consts module, which is not part of this model. The TEE and Attestation ids are placeholders.
- The `SbiFunction` trait and its default accessors come from the function module, which is not part of this model. A register that an extension's function type does not override has no accessor here. The message-level accessors never call those defaults.
- `SbiMessages.SbiMessage.FromRegs` and the per-extension `FromRegs` require a bank of at least 8 registers (7 for the per-extension decoders). The source indexes a slice and would panic on a shorter one.
- `SbiReturnType` is only declared as a datatype, because no code in the core uses it.
- The exit module is not part of this model. `GuestExit` and `SupervisorExceptionCause` have only the variants the classifier produces.
- Interrupt causes are not classified, as in the source: every interrupt is `Err(0)`.
- The `api` module is not part of this model.
- The IOMMU register block in drivers/src/iommu/registers.rs is a fixed memory-mapped layout with no behaviour to verify, so it is not modelled.

## Findings

The protocol's design requires that every constructed message survive
encoding and decoding, and that registers a message does not use read 0.
The code falls short of this in the four places below. The main model follows the
code as written (`SbiFunctions`, `SbiMessages`). The corrected codec
(`SbiCorrected`) is what the round-trip, unused-register and end-to-end call
lemmas are proved for.

| source | as written | input that shows it | evidently intended | confidence | as-written member | corrected member |
|---|---|---|---|---|---|---|
| sbi/src/sbi.rs:578, sbi/src/sbi.rs:641 | `SbiMessage::a6` and `a0` report 0 for every Base message | `Base(GetImplementationID)` encodes as a6 = 0 and decodes as `GetSpecificationVersion`; `ProbeSbiExtension(x)` loses x | a6 = the function's id and a0 = the probed extension, as `BaseFunction::a6`/`a0` compute (the line is marked TODO) | high; not executed | `SbiMessages.BaseCollapses` | `SbiCorrected.RoundTrip` |
| sbi/src/sbi.rs:309-325 | Reset puts the reason in a0 and the type in a1, but decoding reads the type from a0 and the reason from a1 | `Reset(Shutdown, SystemFailure)` decodes as `Reset(ColdReset, NoReason)` | a0 = reset type, a1 = reset reason, as the System Reset extension of the SBI specification defines | high; not executed | `SbiMessages.ResetLayout` | `SbiCorrected.RoundTrip` |
| sbi/src/sbi.rs:277 | `ResetReason::from_reg` maps 2 to `SystemFailure` | register value 1, `SystemFailure`'s own discriminant, is rejected as InvalidParam | 1 maps to `SystemFailure` | medium; not executed | `SbiFunctions.ResetReasonRejectsOwnCode` | `SbiCorrected.ReasonFromRegInverse` |
| sbi/src/sbi.rs:405-437 | ExtendMeasurement reports `len` in a2 and a3 | `ExtendMeasurement(0x1000, 64)` puts 64 in a2 and a3, registers its decoder (lines 379-382) never reads | 0 in a2 and a3: the protocol fills every register a request does not use with 0, and the variant's documentation lists only a0 and a1 (that documentation also says a6 = 0, while the code uses 1 at lines 379 and 401; the model follows the code) | medium; not executed | `SbiMessages.UnusedRegistersAsWritten` | `SbiCorrected.UnusedRegistersZero` |
