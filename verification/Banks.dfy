// Banked registers are never lost (runtime_arm.cpp:917-1075; ARM ARM section A2.6): each mode's own view of
// R8 to R14 through MSR, exception entry, SPSR restore and exception return.
module Banks {
  import opened Words
  import opened Ir
  import opened Cpu
  import opened Reference
  import opened RuntimeOps
  import opened Bits

  // ----- Views -------------------------------------------------------------------------------

  /** The seven modes of ARMv4T. */
  predicate ValidMode(m: Word) {
    m == USER || m == FIQ || m == IRQ || m == SUPERVISOR || m == ABORT || m == UNDEFINED || m == SYSTEM
  }

  predicate ValidPsr(psr: Word) {
    ValidMode(ModeOf(psr))
  }

  type BankedReg = r: nat | 8 <= r < 15 witness 8

  /** What register r reads as to code running in the mode of `psr`, wherever it is kept now. */
  function View(p: Packed, psr: Word, r: BankedReg): Word {
    if r < 13 then
      if (ModeOf(psr) == FIQ) == (ModeOf(p.cpsr) == FIQ) then p.R[r]
      else if ModeOf(psr) == FIQ then p.fiq8[r - 8] else p.user8[r - 8]
    else if ModeToBank(psr) == ModeToBank(p.cpsr) then p.R[r]
    else if r == 13 then p.sp[ModeToBank(psr)] else p.lr[ModeToBank(psr)]
  }

  /** Every mode sees the same registers. */
  ghost predicate SameViews(p: Packed, q: Packed) {
    forall psr: Word, r: BankedReg {:trigger View(q, psr, r)} :: ValidPsr(psr) ==> View(q, psr, r) == View(p, psr, r)
  }

  /** Among valid modes, only FIQ has FIQ's bank. */
  lemma FiqBank(psr: Word)
    requires ValidPsr(psr)
    ensures ModeToBank(psr) == BANK_FIQ <==> ModeOf(psr) == FIQ
  {
    hide ModeOf;
  }

  /** The six banks: User and System share one, every other mode has its own, in the order the runtime numbers them;
      and those two are the modes without an SPSR. */
  lemma ModeBanks()
    ensures ModeToBank(0x10) == 0 && ModeToBank(0x1F) == 0 && ModeToBank(0x11) == 1 && ModeToBank(0x12) == 2
            && ModeToBank(0x13) == 3 && ModeToBank(0x17) == 4 && ModeToBank(0x1B) == 5
    ensures !PrivNonSystem(0x10) && !PrivNonSystem(0x1F) && PrivNonSystem(0x11) && PrivNonSystem(0x12)
            && PrivNonSystem(0x13) && PrivNonSystem(0x17) && PrivNonSystem(0x1B)
  {}

  // ----- One switch ----------------------------------------------------------------------------

  /** bank_out, a new CPSR, bank_in. */
  function Switch(p: Packed, cpsr: Word): Packed {
    BankIn(BankOut(p, ModeToBank(p.cpsr), p.cpsr).(cpsr := cpsr), ModeToBank(cpsr), cpsr)
  }

  lemma SwitchKeepsHigh(p: Packed, cpsr: Word, psr: Word, r: BankedReg)
    requires r < 13
    ensures View(Switch(p, cpsr), psr, r) == View(p, psr, r)
  {
    hide ModeOf, ModeToBank;
    var q := Switch(p, cpsr);
    var out := BankOut(p, ModeToBank(p.cpsr), p.cpsr);
    var live := out.R[13 := out.sp[ModeToBank(cpsr)]][14 := out.lr[ModeToBank(cpsr)]];
    var incoming := if ModeOf(cpsr) == FIQ then out.fiq8 else out.user8;
    assert q.R == live[..8] + incoming + live[13..];
    assert q.R[r] == incoming[r - 8];
    assert p.R[8..13][r - 8] == p.R[r];
  }

  lemma SwitchKeepsPair(p: Packed, cpsr: Word, psr: Word, r: BankedReg)
    requires r >= 13
    ensures View(Switch(p, cpsr), psr, r) == View(p, psr, r)
  {
    hide ModeOf, ModeToBank;
    var q := Switch(p, cpsr);
    var out := BankOut(p, ModeToBank(p.cpsr), p.cpsr);
    var live := out.R[13 := out.sp[ModeToBank(cpsr)]][14 := out.lr[ModeToBank(cpsr)]];
    var incoming := if ModeOf(cpsr) == FIQ then out.fiq8 else out.user8;
    assert q.R == live[..8] + incoming + live[13..];
    assert q.R[r] == live[r];
  }

  /** A bank switch moves registers about and loses none, and nothing else changes. */
  lemma SwitchKeeps(p: Packed, cpsr: Word)
    ensures SameViews(p, Switch(p, cpsr))
    ensures var q := Switch(p, cpsr);
            q.R[..8] == p.R[..8] && q.R[15] == p.R[15] && q.cpsr == cpsr && q.spsr == p.spsr
  {
    forall psr: Word, r: BankedReg ensures View(Switch(p, cpsr), psr, r) == View(p, psr, r) {
      if r < 13 { SwitchKeepsHigh(p, cpsr, psr, r); } else { SwitchKeepsPair(p, cpsr, psr, r); }
    }
    hide ModeOf, ModeToBank;
  }

  /** A new CPSR that names the same bank, without a switch. */
  lemma SameBankKeeps(p: Packed, cpsr: Word)
    requires ValidPsr(p.cpsr) && ValidPsr(cpsr) && ModeToBank(cpsr) == ModeToBank(p.cpsr)
    ensures SameViews(p, p.(cpsr := cpsr))
  {
    FiqBank(p.cpsr);
    FiqBank(cpsr);
    hide ModeOf, ModeToBank;
  }

  // ----- Each operation ----------------------------------------------------------------------------

  lemma MsrKeeps(p: Packed, v: Word, mask: bv4)
    requires ValidPsr(p.cpsr) && ValidPsr(MsrCpsr(p, v, mask).cpsr)
    ensures SameViews(p, MsrCpsr(p, v, mask))
  {
    hide View, Merge, ByteMask, UserMask, ModeToBank, ModeOf, BankIn, BankOut;
    var q := MsrCpsr(p, v, mask);
    NewCpsr(p, v, mask);
    SwitchKeeps(p, q.cpsr);
    if ModeToBank(p.cpsr) == ModeToBank(q.cpsr) { SameBankKeeps(p, q.cpsr); }
  }

  lemma NewCpsr(p: Packed, v: Word, mask: bv4)
    ensures var q := MsrCpsr(p, v, mask);
            if ModeToBank(p.cpsr) == ModeToBank(q.cpsr) then q == p.(cpsr := q.cpsr) else q == Switch(p, q.cpsr)
  {
    hide Merge, ByteMask, UserMask, ModeToBank, ModeOf;
  }

  lemma RestoreKeepsViews(p: Packed)
    ensures SameViews(p, RestoreFromSpsr(p))
    ensures RestoreFromSpsr(p).R[..8] == p.R[..8] && RestoreFromSpsr(p).spsr == p.spsr
  {
    hide View, ModeToBank, ModeOf;
    SwitchKeeps(p, p.spsr[ModeToBank(p.cpsr)]);
  }

  lemma ReturnKeeps(p: Packed, pc: Word)
    ensures SameViews(p, ReturnFromException(p, pc))
    ensures ReturnFromException(p, pc).R[..8] == p.R[..8] && ReturnFromException(p, pc).R[15] == pc
  {
    RestoreKeepsViews(p);
    hide ModeToBank, ModeOf, RestoreFromSpsr;
    forall psr: Word, r: BankedReg | ValidPsr(psr) ensures View(ReturnFromException(p, pc), psr, r) == View(p, psr, r) {
      assert View(ReturnFromException(p, pc), psr, r) == View(RestoreFromSpsr(p), psr, r);
    }
  }

  /** The handler's CPSR is in the handler's mode. */
  lemma HandlerMode(cpsr: Word)
    ensures ModeOf(HandlerCpsr(cpsr, SUPERVISOR)) == SUPERVISOR && ModeOf(HandlerCpsr(cpsr, IRQ)) == IRQ
  {}

  /** The state between the bank switch of an entry and the handler's SPSR and LR. */
  function Entered(p: Packed, mode: Word): Packed {
    var newCpsr := HandlerCpsr(p.cpsr, mode);
    if ModeToBank(p.cpsr) != ModeToBank(newCpsr) then Switch(p, newCpsr) else p.(cpsr := newCpsr)
  }

  lemma EnteredKeeps(p: Packed, mode: Word)
    requires ValidPsr(p.cpsr) && (mode == SUPERVISOR || mode == IRQ)
    ensures var q := Entered(p, mode);
            SameViews(p, q) && ModeOf(q.cpsr) == mode && ModeToBank(q.cpsr) == ModeToBank(mode)
            && q.R[..8] == p.R[..8] && q.spsr == p.spsr
  {
    HandlerMode(p.cpsr);
    ModeBank(mode);
    hide HandlerCpsr, View, BankIn, BankOut, Switch, ModeOf, ModeToBank;
    var newCpsr := HandlerCpsr(p.cpsr, mode);
    ModeBankOf(newCpsr, mode);
    SwitchKeeps(p, newCpsr);
    if ModeToBank(p.cpsr) == ModeToBank(newCpsr) { SameBankKeeps(p, newCpsr); }
  }

  lemma EntryIs(p: Packed, mode: Word, link: Word, vector: Word)
    ensures var m := Entered(p, mode);
            EnterException(p, mode, link, vector) ==
            m.(spsr := m.spsr[ModeToBank(m.cpsr) := p.cpsr], R := m.R[14 := link][15 := vector])
  {
    hide HandlerCpsr, BankIn, BankOut, Switch, ModeOf, ModeToBank;
    CpsrLast(p, HandlerCpsr(p.cpsr, mode));
  }

  /** The live LR belongs to the modes that share the current bank. */
  lemma LinkView(m: Packed, spsr: Banked, link: Word, vector: Word, psr: Word, r: BankedReg)
    ensures var q := m.(spsr := spsr, R := m.R[14 := link][15 := vector]);
            View(q, psr, r) == if r == 14 && ModeToBank(psr) == ModeToBank(m.cpsr) then link else View(m, psr, r)
  {
    hide ModeOf, ModeToBank;
  }

  /** Entry sets the handler's LR and nothing else any mode can see. */
  lemma EntryKeeps(p: Packed, mode: Word, link: Word, vector: Word)
    requires ValidPsr(p.cpsr) && (mode == SUPERVISOR || mode == IRQ)
    ensures var q := EnterException(p, mode, link, vector);
            && ModeOf(q.cpsr) == mode && q.R[..8] == p.R[..8] && q.R[15] == vector
            && q.spsr == p.spsr[ModeToBank(mode) := p.cpsr]
            && forall psr: Word, r: BankedReg {:trigger View(q, psr, r)} :: ValidPsr(psr) ==>
                 View(q, psr, r) == if r == 14 && ModeToBank(psr) == ModeToBank(mode) then link else View(p, psr, r)
  {
    hide HandlerCpsr, View, Entered, EnterException, ModeOf, ModeToBank;
    var m := Entered(p, mode);
    var q := EnterException(p, mode, link, vector);
    EnteredKeeps(p, mode);
    EntryIs(p, mode, link, vector);
    forall psr: Word, r: BankedReg | ValidPsr(psr)
      ensures View(q, psr, r) == if r == 14 && ModeToBank(psr) == ModeToBank(mode) then link else View(p, psr, r)
    {
      LinkView(m, m.spsr[ModeToBank(m.cpsr) := p.cpsr], link, vector, psr, r);
    }
  }

  /** A machine q that code of p's has just been interrupted into: the mode, ARM state, IRQs masked and every other
      field of the CPSR kept; the link, the vector and the saved CPSR in place; and nothing else changed that any
      mode can see. */
  ghost predicate Enters(p: Packed, q: Packed, mode: Word, link: Word, vector: Word) {
    && Unpack(q.cpsr) == Unpack(p.cpsr).(mode := mode, i := true, t := false)
    && q.R[14] == link && q.R[15] == vector && q.R[..8] == p.R[..8]
    && q.spsr == p.spsr[ModeToBank(mode) := p.cpsr]
    && (ValidPsr(p.cpsr) ==>
          forall psr: Word, r: BankedReg {:trigger View(q, psr, r)} ::
            ValidPsr(psr) && !(r == 14 && ModeToBank(psr) == ModeToBank(mode)) ==> View(q, psr, r) == View(p, psr, r))
  }

  lemma EntryFields(p: Packed, mode: Word, link: Word, vector: Word)
    ensures var q := EnterException(p, mode, link, vector);
            && q.cpsr == HandlerCpsr(p.cpsr, mode) && q.R[14] == link && q.R[15] == vector && q.R[..8] == p.R[..8]
            && q.spsr == p.spsr[ModeToBank(q.cpsr) := p.cpsr]
  {
    hide HandlerCpsr, ModeOf, ModeToBank;
  }

  /** SWI and IRQ entry do exactly that, from any state. */
  lemma EntryExact(p: Packed, mode: Word, link: Word, vector: Word)
    requires mode == SUPERVISOR || mode == IRQ
    ensures Enters(p, EnterException(p, mode, link, vector), mode, link, vector)
  {
    ModeBank(mode);
    HandlerMode(p.cpsr);
    HandlerFields(p.cpsr, mode);
    EntryFields(p, mode, link, vector);
    hide HandlerCpsr, EnterException, View, ModeOf, ModeToBank, Unpack;
    ModeBankOf(HandlerCpsr(p.cpsr, mode), mode);
    if ValidPsr(p.cpsr) { EntryKeeps(p, mode, link, vector); }
  }

  /** A SWI enters the supervisor at 0x08 with LR the address already in R15; an IRQ at 0x18 with LR four past the
      return address. */
  lemma EntriesExact(p: Packed, returnAddress: Word)
    ensures Enters(p, SwiEntry(p), 0x13, p.R[15], 0x08)
    ensures Enters(p, IrqEntry(p, returnAddress), 0x12, Add(returnAddress, 4), 0x18)
  {
    hide EnterException, Enters, Add;
    EntryExact(p, SUPERVISOR, p.R[15], 0x08);
    EntryExact(p, IRQ, Add(returnAddress, 4), 0x18);
  }

  lemma ModeBank(mode: Word)
    requires mode == SUPERVISOR || mode == IRQ
    ensures ModeOf(mode) == mode && ValidMode(mode)
  {}

  lemma ModeBankOf(psr: Word, mode: Word)
    requires ModeOf(psr) == mode && ModeOf(mode) == mode
    ensures ModeToBank(psr) == ModeToBank(mode)
  {}

  /** Setting the CPSR before or after bank_in makes no difference. */
  lemma CpsrLast(p: Packed, cpsr: Word)
    ensures BankIn(BankOut(p, ModeToBank(p.cpsr), p.cpsr), ModeToBank(cpsr), cpsr).(cpsr := cpsr) == Switch(p, cpsr)
  {
    hide ModeOf, ModeToBank;
  }

  // ----- The User view ---------------------------------------------------------------------------

  /** runtime_read_user_reg reads the User view, whatever the mode. */
  lemma UserRegIsView(p: Packed, r: BankedReg)
    requires ValidPsr(p.cpsr)
    ensures UserReg(p, r) == View(p, USER, r)
  {
    UserBank(p.cpsr);
    hide ModeOf, ModeToBank;
  }

  lemma UserBank(psr: Word)
    requires ValidPsr(psr)
    ensures ModeToBank(psr) == BANK_USER <==> !PrivNonSystem(ModeOf(psr))
    ensures ModeOf(USER) == USER && ModeToBank(USER) == BANK_USER
  {
    assert ModeOf(USER) == USER;
    hide ModeOf;
  }

  /** runtime_write_user_reg changes that register of the User view, of System's, which is the same, and of the
      modes that share it, and no other register of any mode. */
  lemma SetUserRegView(p: Packed, r: BankedReg, v: Word, psr: Word, s: BankedReg)
    requires ValidPsr(p.cpsr) && ValidPsr(psr)
    ensures View(SetUserReg(p, r, v), psr, s) ==
            if s == r && (if r < 13 then ModeOf(psr) != FIQ else ModeToBank(psr) == BANK_USER) then v else View(p, psr, s)
  {
    UserBank(p.cpsr);
    UserBank(psr);
    hide ModeOf, ModeToBank;
  }

  // ----- Runs ---------------------------------------------------------------------------------------

  datatype Op = Msr(v: Word, mask: bv4) | Restore | Return(pc: Word) | Swi | Interrupt(returnAddress: Word)

  function Apply(p: Packed, op: Op): Packed {
    match op
    case Msr(v, mask) => MsrCpsr(p, v, mask)
    case Restore => RestoreFromSpsr(p)
    case Return(pc) => ReturnFromException(p, pc)
    case Swi => SwiEntry(p)
    case Interrupt(a) => IrqEntry(p, a)
  }

  function RunAll(p: Packed, ops: seq<Op>): Packed {
    if ops == [] then p else Apply(RunAll(p, ops[..|ops| - 1]), ops[|ops| - 1])
  }

  /** The run only ever enters the seven modes. */
  predicate StaysValid(p: Packed, ops: seq<Op>) {
    ValidPsr(p.cpsr) && (ops == [] || (StaysValid(p, ops[..|ops| - 1]) && ValidPsr(RunAll(p, ops).cpsr)))
  }

  /** The LR view of a mode after a run: the link of the last entry into its bank, if there was one. */
  function LinkAfter(p: Packed, ops: seq<Op>, psr: Word): Word {
    if ops == [] then View(p, psr, 14) else
    var before := ops[..|ops| - 1];
    var op := ops[|ops| - 1];
    if op.Swi? && ModeToBank(psr) == ModeToBank(SUPERVISOR) then RunAll(p, before).R[15]
    else if op.Interrupt? && ModeToBank(psr) == ModeToBank(IRQ) then Add(op.returnAddress, 4)
    else LinkAfter(p, before, psr)
  }

  /** The register a run of mode changes must leave in each mode's view. */
  function Expected(p: Packed, ops: seq<Op>, psr: Word, r: BankedReg): Word {
    if r == 14 then LinkAfter(p, ops, psr) else View(p, psr, r)
  }

  lemma ApplyKeeps(p: Packed, op: Op, psr: Word, r: BankedReg)
    requires ValidPsr(p.cpsr) && ValidPsr(Apply(p, op).cpsr) && ValidPsr(psr)
    ensures View(Apply(p, op), psr, r) ==
            if r == 14 && op.Swi? && ModeToBank(psr) == ModeToBank(SUPERVISOR) then p.R[15]
            else if r == 14 && op.Interrupt? && ModeToBank(psr) == ModeToBank(IRQ) then Add(op.returnAddress, 4)
            else View(p, psr, r)
  {
    hide View, MsrCpsr, RestoreFromSpsr, ReturnFromException, EnterException, ModeToBank, ModeOf, Add;
    match op
    case Msr(v, mask) => MsrKeeps(p, v, mask);
    case Restore => RestoreKeepsViews(p);
    case Return(pc) => ReturnKeeps(p, pc);
    case Swi => EntryKeeps(p, SUPERVISOR, p.R[15], 0x08);
    case Interrupt(a) => EntryKeeps(p, IRQ, Add(a, 4), 0x18);
  }

  /** Over any run of MSR, SWI and IRQ entry, SPSR restore and exception return among the seven modes, every view is
      what it was, except the LR each entry sets. */
  lemma {:induction false} RunKeeps(p: Packed, ops: seq<Op>, psr: Word, r: BankedReg)
    requires StaysValid(p, ops) && ValidPsr(psr)
    ensures View(RunAll(p, ops), psr, r) == Expected(p, ops, psr, r)
  {
    hide View, Apply, ModeToBank, ModeOf;
    if ops != [] {
      var before := ops[..|ops| - 1];
      RunKeeps(p, before, psr, r);
      StillValid(p, before);
      ApplyKeeps(RunAll(p, before), ops[|ops| - 1], psr, r);
    }
  }

  lemma StillValid(p: Packed, ops: seq<Op>)
    requires StaysValid(p, ops)
    ensures ValidPsr(RunAll(p, ops).cpsr)
  {
    hide Apply, ModeOf;
  }

  // ----- Entry and return ----------------------------------------------------------------------------

  /** A handler that left the interrupted mode's registers and its own SPSR as it found them. */
  ghost predicate Preserved(p: Packed, mode: Word, entered: Packed, q: Packed) {
    && ModeOf(q.cpsr) == mode && q.spsr[ModeToBank(mode)] == entered.spsr[ModeToBank(mode)]
    && q.R[..8] == p.R[..8]
    && forall r: BankedReg {:trigger View(q, p.cpsr, r)} :: View(q, p.cpsr, r) == View(p, p.cpsr, r)
  }

  /** Code running in its own mode reads its live registers. */
  lemma LiveView(p: Packed, r: BankedReg)
    ensures View(p, p.cpsr, r) == p.R[r]
  {}

  /** An exception return puts the saved CPSR back and makes live what that mode sees. */
  lemma ReturnGives(q: Packed, pc: Word)
    requires PrivNonSystem(ModeOf(q.cpsr)) && ValidPsr(q.spsr[ModeToBank(q.cpsr)])
    ensures var psr := q.spsr[ModeToBank(q.cpsr)];
            var back := ReturnFromException(q, pc);
            && back.cpsr == psr && back.R[15] == pc && back.R[..8] == q.R[..8] && SameViews(q, back)
            && forall r: BankedReg {:trigger View(q, psr, r)} :: back.R[r] == View(q, psr, r)
  {
    hide View, ModeToBank, ModeOf, ReturnFromException;
    var psr := q.spsr[ModeToBank(q.cpsr)];
    var back := ReturnFromException(q, pc);
    ReturnKeeps(q, pc);
    ReturnedCpsr(q, pc);
    forall r: BankedReg ensures back.R[r] == View(q, psr, r) {
      LiveView(back, r);
    }
  }

  /** Exception entry from any valid mode with another bank, then any such handler, then the exception return,
      restores CPSR and R0 to R14 and continues at the return address. */
  lemma EntryThenReturn(p: Packed, mode: Word, link: Word, vector: Word, q: Packed, pc: Word)
    requires ValidPsr(p.cpsr) && (mode == SUPERVISOR || mode == IRQ) && ModeOf(p.cpsr) != mode
    requires Preserved(p, mode, EnterException(p, mode, link, vector), q)
    ensures var back := ReturnFromException(q, pc);
            back.cpsr == p.cpsr && back.R == p.R[15 := pc] && SameViews(q, back)
  {
    hide View, EnterException, ReturnFromException, ModeToBank, ModeOf;
    var back := ReturnFromException(q, pc);
    EntryKeeps(p, mode, link, vector);
    ModeBank(mode);
    ModeBankOf(q.cpsr, mode);
    ReturnGives(q, pc);
    forall r: nat | r < 16 ensures back.R[r] == p.R[15 := pc][r] {
      if r < 8 {
        assert back.R[..8][r] == p.R[..8][r];
      } else if r < 15 {
        LiveView(p, r);
        assert back.R[r] == View(q, p.cpsr, r);
      }
    }
  }

  lemma ReturnedCpsr(q: Packed, pc: Word)
    requires PrivNonSystem(ModeOf(q.cpsr))
    ensures ReturnFromException(q, pc).cpsr == q.spsr[ModeToBank(q.cpsr)]
  {
    hide ModeToBank, ModeOf;
  }
}
