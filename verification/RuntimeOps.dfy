// The helpers of runtime_arm.cpp that generated code calls, on values of the
// packed state. Module Runtime holds the same code as methods on g_cpu.
module RuntimeOps {
  import opened Words
  import opened Ir
  import opened Cpu
  import opened Reference

  // ----- Flags ------------------------------------------------------------------

  /** cpsr_c(). */
  function CpsrC(cpsr: Word): Word {
    if cpsr & 0x2000_0000 != 0 then 1 else 0
  }

  /** arm_cond_passes, on the packed word. */
  predicate CondPassesPacked(c: Cond, cpsr: Word) {
    var n := cpsr & 0x8000_0000 != 0;
    var z := cpsr & 0x4000_0000 != 0;
    var cc := cpsr & 0x2000_0000 != 0;
    var v := cpsr & 0x1000_0000 != 0;
    match c
    case EQ => z
    case NE => !z
    case CS => cc
    case CC => !cc
    case MI => n
    case PL => !n
    case VS => v
    case VC => !v
    case HI => cc && !z
    case LS => !cc || z
    case GE => n == v
    case LT => n != v
    case GT => !z && n == v
    case LE => z || n != v
    case AL => true
    case NV => false
  }

  /** arm_set_nz. */
  function FlagsNZ(cpsr: Word, r: Word): Word {
    (cpsr & 0x3FFF_FFFF) | Bit(SignBit(r), 0x8000_0000) | Bit(IsZero(r), 0x4000_0000)
  }

  /** The inline block the long multiplies emit. */
  function FlagsNZ64(cpsr: Word, u: bv64): Word {
    (cpsr & 0x3FFF_FFFF) | Bit(AboveBit62(u), 0x8000_0000) | Bit(IsZero64(u), 0x4000_0000)
  }

  /** arm_set_nzc_logic. */
  function FlagsLogic(cpsr: Word, r: Word, carry: Word): Word {
    (cpsr & 0x1FFF_FFFF) | Bit(SignBit(r), 0x8000_0000) | Bit(IsZero(r), 0x4000_0000)
      | Bit(!IsZero(carry), 0x2000_0000)
  }

  /** The word the four arithmetic flag helpers build. */
  function FlagsArith(cpsr: Word, r: Word, c: bool, v: bool): Word {
    (cpsr & 0x0FFF_FFFF) | Bit(SignBit(r), 0x8000_0000) | Bit(IsZero(r), 0x4000_0000)
      | Bit(c, 0x2000_0000) | Bit(v, 0x1000_0000)
  }

  /** arm_set_nzcv_add. */
  function FlagsAdd(cpsr: Word, a: Word, b: Word, r: Word): Word {
    FlagsArith(cpsr, r, Below(r, a), AddOverflows(a, b, r))
  }

  /** arm_set_nzcv_adc. */
  function FlagsAdc(cpsr: Word, a: Word, b: Word, cIn: Word, r: Word): Word {
    FlagsArith(cpsr, r, AboveBit31(Sum64(a, b, cIn)), AddOverflows(a, b, r))
  }

  /** arm_set_nzcv_sub. */
  function FlagsSub(cpsr: Word, a: Word, b: Word, r: Word): Word {
    FlagsArith(cpsr, r, AtLeast(a, b), SubOverflows(a, b, r))
  }

  /** arm_set_nzcv_sbc. */
  function FlagsSbc(cpsr: Word, a: Word, b: Word, cIn: Word, r: Word): Word {
    FlagsArith(cpsr, r, AboveBit31(Sum64(a, Not(b), cIn)), SubOverflows(a, b, r))
  }

  /** CPSR.T from bit 0 of a branch target. */
  function ExchangeT(cpsr: Word, target: Word): Word {
    if And(target, 1) != 0 then cpsr | 0x20 else cpsr & 0xFFFF_FFDF
  }

  // ----- Banks -------------------------------------------------------------------

  /** bank_out. */
  function BankOut(p: Packed, bank: Bank, psr: Word): Packed {
    var p1 := p.(sp := p.sp[bank := p.R[13]], lr := p.lr[bank := p.R[14]]);
    if ModeOf(psr) == FIQ then p1.(fiq8 := p.R[8..13]) else p1.(user8 := p.R[8..13])
  }

  /** bank_in. */
  function BankIn(p: Packed, bank: Bank, psr: Word): Packed {
    var r := p.R[13 := p.sp[bank]][14 := p.lr[bank]];
    var incoming := if ModeOf(psr) == FIQ then p.fiq8 else p.user8;
    p.(R := r[..8] + incoming + r[13..])
  }

  /** runtime_msr_cpsr. */
  function MsrCpsr(p: Packed, v: Word, mask: bv4): Packed {
    var m := if ModeOf(p.cpsr) == USER then UserMask(mask) else ByteMask(mask);
    var newCpsr := Merge(p.cpsr, v, m);
    var ob := ModeToBank(p.cpsr);
    var nb := ModeToBank(newCpsr);
    var p1 := p.(cpsr := newCpsr);
    if ob != nb then BankIn(BankOut(p1, ob, p.cpsr), nb, newCpsr) else p1
  }

  /** runtime_msr_spsr: dropped in User and System mode. */
  function MsrSpsr(p: Packed, v: Word, mask: bv4): Packed {
    var bank := ModeToBank(p.cpsr);
    if bank == BANK_USER then p
    else p.(spsr := p.spsr[bank := Merge(p.spsr[bank], v, ByteMask(mask))])
  }

  /** runtime_restore_cpsr_from_spsr. */
  function RestoreFromSpsr(p: Packed): Packed {
    if !PrivNonSystem(ModeOf(p.cpsr)) then p else
    var ob := ModeToBank(p.cpsr);
    var spsr := p.spsr[ob];
    BankIn(BankOut(p, ob, p.cpsr).(cpsr := spsr), ModeToBank(spsr), spsr)
  }

  /** runtime_exception_return. */
  function ReturnFromException(p: Packed, newPc: Word): Packed {
    var q := RestoreFromSpsr(p);
    q.(R := q.R[15 := newPc])
  }

  /** runtime_read_user_reg. */
  function UserReg(p: Packed, r: Reg): Word {
    if r < 8 || r == 15 then p.R[r]
    else if r < 13 then if ModeOf(p.cpsr) == FIQ then p.user8[r - 8] else p.R[r]
    else if !PrivNonSystem(ModeOf(p.cpsr)) then p.R[r]
    else if r == 13 then p.sp[BANK_USER] else p.lr[BANK_USER]
  }

  /** runtime_write_user_reg. */
  function SetUserReg(p: Packed, r: Reg, v: Word): Packed {
    if r < 8 || r == 15 then p.(R := p.R[r := v])
    else if r < 13 then
      if ModeOf(p.cpsr) == FIQ then p.(user8 := p.user8[r - 8 := v]) else p.(R := p.R[r := v])
    else if !PrivNonSystem(ModeOf(p.cpsr)) then p.(R := p.R[r := v])
    else if r == 13 then p.(sp := p.sp[BANK_USER := v]) else p.(lr := p.lr[BANK_USER := v])
  }

  /** The CPSR of an exception handler in `mode`: ARM state, IRQs masked. */
  function HandlerCpsr(cpsr: Word, mode: Word): Word {
    (cpsr & 0xFFFF_FFC0) | mode | 0x80
  }

  /** Exception entry as runtime_swi and runtime_irq share it. */
  function EnterException(p: Packed, mode: Word, link: Word, vector: Word): Packed {
    var newCpsr := HandlerCpsr(p.cpsr, mode);
    var ob := ModeToBank(p.cpsr);
    var nb := ModeToBank(newCpsr);
    var p1 := if ob != nb then BankIn(BankOut(p, ob, p.cpsr), nb, newCpsr) else p;
    p1.(cpsr := newCpsr, spsr := p1.spsr[nb := p.cpsr], R := p1.R[14 := link][15 := vector])
  }

  /** The entry half of runtime_swi; R15 holds the return address. */
  function SwiEntry(p: Packed): Packed {
    EnterException(p, SUPERVISOR, p.R[15], 0x08)
  }

  /** The entry half of runtime_irq. */
  function IrqEntry(p: Packed, returnAddress: Word): Packed {
    EnterException(p, IRQ, Add(returnAddress, 4), 0x18)
  }

  // ----- Call-return stack ---------------------------------------------------------

  const CALL_STACK_SIZE: nat := 16384

  /** The generated-call return addresses, topmost last, and the IRQ floor below which nothing may look. */
  datatype CallStack = CallStack(frames: seq<Word>, floor: nat)

  function EvenPc(pc: Word): Word {
    And(pc, 0xFFFF_FFFE)
  }

  /** The topmost slot at or above the floor that holds pc, or none. */
  function MatchBelow(cs: CallStack, pc: Word, i: nat): (slot: int)
    requires i <= |cs.frames|
    ensures slot == -1 || (cs.floor <= slot < i && cs.frames[slot] == pc)
    ensures forall j :: (if slot == -1 then cs.floor else slot + 1) <= j < i ==> cs.frames[j] != pc
  {
    if i <= cs.floor then -1
    else if cs.frames[i - 1] == pc then i - 1
    else MatchBelow(cs, pc, i - 1)
  }

  predicate ShouldReturn(cs: CallStack, target: Word) {
    MatchBelow(cs, EvenPc(target), |cs.frames|) != -1
  }

  /** The stack after runtime_call_should_return. */
  function PopTo(cs: CallStack, target: Word): CallStack {
    var slot := MatchBelow(cs, EvenPc(target), |cs.frames|);
    if slot == -1 then cs else cs.(frames := cs.frames[..slot])
  }

  /** The address on the frame runtime_call_should_return unwinds to. */
  function ReturnFrame(cs: CallStack, target: Word): (pc: Word)
    requires ShouldReturn(cs, target)
    ensures pc == EvenPc(target)
  {
    cs.frames[MatchBelow(cs, EvenPc(target), |cs.frames|)]
  }

  function PushReturn(cs: CallStack, pc: Word): CallStack {
    cs.(frames := cs.frames + [EvenPc(pc)])
  }

  function CancelReturn(cs: CallStack, pc: Word): CallStack {
    if |cs.frames| > cs.floor && cs.frames[|cs.frames| - 1] == EvenPc(pc)
    then cs.(frames := cs.frames[..|cs.frames| - 1]) else cs
  }
}
