// The packed bank switches of the runtime against the interpreter's.
module BankAgreement {
  import opened Words
  import opened Ir
  import opened Cpu
  import opened Reference
  import opened RuntimeOps
  import opened Flags

  /** Replacing R13 and R14 leaves R8 to R12 alone. */
  lemma HighWindow(r: Regs, a: Word, b: Word)
    ensures r[13 := a][14 := b][8..13] == r[8..13]
  {}

  /** bank_out then bank_in, whatever the CPSR says meanwhile, is the interpreter's bank switch. */
  lemma SwitchAgrees(p: Packed, oldPsr: Word, newPsr: Word, cpsr: Word)
    ensures Abs(BankIn(BankOut(p, ModeToBank(oldPsr), oldPsr).(cpsr := cpsr), ModeToBank(newPsr), newPsr)) ==
            SwitchBanks(Abs(p.(cpsr := cpsr)), Unpack(oldPsr).mode, Unpack(newPsr).mode)
  {
    hide Unpack, ModeOf, ModeToBank;
    ModeField(oldPsr);
    ModeField(newPsr);
    var ob := ModeToBank(oldPsr);
    var nb := ModeToBank(newPsr);
    HighWindow(p.R, p.sp[ob := p.R[13]][nb], p.lr[ob := p.R[14]][nb]);
  }

  /** runtime_restore_cpsr_from_spsr is restore_cpsr_from_spsr, in every mode. */
  lemma RestoreAgrees(p: Packed)
    ensures Abs(RestoreFromSpsr(p)) == RestoreCpsr(Abs(p))
  {
    hide Unpack, ModeOf, ModeToBank, BankIn, BankOut, SwitchBanks;
    ModeField(p.cpsr);
    var spsr := p.spsr[ModeToBank(p.cpsr)];
    SwitchAgrees(p, p.cpsr, spsr, spsr);
  }

  lemma ReturnAgrees(p: Packed, pc: Word)
    ensures Abs(ReturnFromException(p, pc)) == ExceptionReturn(Abs(p), pc)
  {
    RestoreAgrees(p);
    hide RestoreFromSpsr, RestoreCpsr, Unpack;
  }

  lemma UserRegAgrees(p: Packed, r: Reg)
    ensures UserReg(p, r) == ReadUserReg(Abs(p), r)
  {
    ModeField(p.cpsr);
    hide Unpack, ModeOf, ModeToBank;
  }

  lemma SetUserRegAgrees(p: Packed, r: Reg, v: Word)
    ensures Abs(SetUserReg(p, r, v)) == WriteUserReg(Abs(p), r, v)
  {
    ModeField(p.cpsr);
    hide Unpack, ModeOf, ModeToBank;
  }

  lemma MergeIgnoresReserved(w: Word, v: Word, mask: Word)
    ensures Unpack(Merge(w & 0xF000_00FF, v, mask)) == Unpack(Merge(w, v, mask))
  {}

  /** Merging into the packed word or into its fields gives the same fields. */
  lemma MergeFields(w: Word, v: Word, mask: Word)
    ensures Unpack(Merge(Pack(Unpack(w)), v, mask)) == Unpack(Merge(w, v, mask))
  {
    hide Pack, Unpack, Merge;
    PackUnpack(w);
    MergeIgnoresReserved(w, v, mask);
  }

  lemma MsrMask(p: Packed, mask: bv4)
    ensures (if ModeOf(p.cpsr) == USER then UserMask(mask) else ByteMask(mask)) ==
            (if Abs(p).cpsr.mode == USER then UserMask(mask) else ByteMask(mask))
  {
    hide ByteMask, Unpack, ModeOf;
    ModeField(p.cpsr);
  }

  /** The interpreter also asks that the modes differ; equal modes have equal banks, so that changes nothing. */
  lemma MsrCpsrAgrees(p: Packed, v: Word, mask: bv4)
    ensures Abs(MsrCpsr(p, v, mask)) == WriteCpsr(Abs(p), v, mask)
  {
    hide Unpack, Pack, Merge, ByteMask, ModeOf, ModeToBank, BankIn, BankOut, SwitchBanks;
    var m := if ModeOf(p.cpsr) == USER then UserMask(mask) else ByteMask(mask);
    MsrMask(p, mask);
    var newCpsr := Merge(p.cpsr, v, m);
    MergeFields(p.cpsr, v, m);
    ModeField(p.cpsr);
    ModeField(newCpsr);
    SwitchAgrees(p, p.cpsr, newCpsr, newCpsr);
    CpsrFirst(p, ModeToBank(p.cpsr), p.cpsr, newCpsr);
  }

  lemma CpsrFirst(p: Packed, bank: Bank, psr: Word, cpsr: Word)
    ensures BankOut(p.(cpsr := cpsr), bank, psr) == BankOut(p, bank, psr).(cpsr := cpsr)
  {}
}
