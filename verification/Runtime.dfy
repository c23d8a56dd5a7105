// The runtime's state machines (runtime_arm.cpp) as they update g_cpu and the generated-call stack,
// proved against the helpers on values of module RuntimeOps.
module Runtime {
  import opened Words
  import opened Ir
  import opened Cpu
  import opened Reference
  import opened RuntimeOps

  // ----- Dispatch tables -------------------------------------------------------------------

  datatype DispatchEntry = DispatchEntry(addr: nat, thumb: bool)

  predicate Sorted(table: seq<DispatchEntry>) {
    forall i, j | 0 <= i < j < |table| :: table[i].addr <= table[j].addr
  }

  /** lookup_in: a binary search for the first entry at pc, then a scan of the run of equal addresses for
      the instruction set. An entry is found exactly if the table has one. */
  method LookupIn(table: seq<DispatchEntry>, pc: nat, thumb: bool) returns (slot: int)
    requires Sorted(table)
    ensures -1 <= slot < |table|
    ensures slot >= 0 ==> table[slot] == DispatchEntry(pc, thumb)
    ensures slot == -1 ==> DispatchEntry(pc, thumb) !in table
    ensures forall i | 0 <= i < slot :: table[i] != DispatchEntry(pc, thumb)
  {
    var lo, hi := 0, |table|;
    while lo < hi
      invariant 0 <= lo <= hi <= |table|
      invariant forall i | 0 <= i < lo :: table[i].addr < pc
      invariant forall i | hi <= i < |table| :: table[i].addr >= pc
    {
      var mid := (lo + hi) / 2;
      if table[mid].addr < pc { lo := mid + 1; } else { hi := mid; }
    }
    var i := lo;
    while i < |table| && table[i].addr == pc
      invariant lo <= i <= |table|
      invariant forall j | lo <= j < i :: table[j].thumb != thumb
    {
      if table[i].thumb == thumb { return i; }
      i := i + 1;
    }
    return -1;
  }

  // ----- g_cpu -----------------------------------------------------------------------------

  /** ArmCpuState (runtime_arm_types.h). */
  class PackedCpu {
    const R: array<Word>
    var cpsr: Word
    const sp: array<Word>
    const lr: array<Word>
    const spsr: array<Word>
    const user8: array<Word>
    const fiq8: array<Word>

    ghost const Repr: set<object> := {this, R, sp, lr, spsr, user8, fiq8}

    ghost predicate Valid() {
      && R.Length == 16 && sp.Length == 6 && lr.Length == 6 && spsr.Length == 6
      && user8.Length == 5 && fiq8.Length == 5
      && R != sp && R != lr && R != spsr && R != user8 && R != fiq8
      && sp != lr && sp != spsr && sp != user8 && sp != fiq8
      && lr != spsr && lr != user8 && lr != fiq8
      && spsr != user8 && spsr != fiq8 && user8 != fiq8
    }

    ghost function Value(): Packed
      requires Valid()
      reads Repr
    {
      Packed(R[..], cpsr, sp[..], lr[..], spsr[..], user8[..], fiq8[..])
    }

    constructor ()
      ensures Valid() && fresh(Repr)
    {
      R := new Word[16](i => 0);
      sp := new Word[6](i => 0);
      lr := new Word[6](i => 0);
      spsr := new Word[6](i => 0);
      user8 := new Word[5](i => 0);
      fiq8 := new Word[5](i => 0);
      cpsr := SYSTEM;
    }

    method Set(r: Reg, v: Word)
      requires Valid()
      modifies R
      ensures Value() == old(Value()).(R := old(Value()).R[r := v])
    {
      R[r] := v;
      assert R[..] == old(R[..])[r := v];
    }

    /** bank_out: R13 and R14 into the old bank, R8 to R12 into their FIQ or common slot. */
    method Out(bank: Bank, psr: Word)
      requires Valid()
      modifies sp, lr, user8, fiq8
      ensures Value() == BankOut(old(Value()), bank, psr)
    {
      sp[bank] := R[13];
      lr[bank] := R[14];
      assert sp[..] == old(sp[..])[bank := R[13]] && lr[..] == old(lr[..])[bank := R[14]];
      var slot := if ModeOf(psr) == FIQ then fiq8 else user8;
      for i := 0 to 5
        invariant slot[..i] == R[8..8 + i]
        invariant slot == fiq8 ==> user8[..] == old(user8[..])
        invariant slot == user8 ==> fiq8[..] == old(fiq8[..])
        invariant sp[..] == old(sp[..])[bank := R[13]] && lr[..] == old(lr[..])[bank := R[14]]
      {
        slot[i] := R[8 + i];
        assert slot[..i + 1] == slot[..i] + [slot[i]];
        assert R[8..8 + i + 1] == R[8..8 + i] + [R[8 + i]];
      }
      assert slot[..] == slot[..5] && R[8..13] == R[..][8..13];
    }

    /** bank_in. */
    method In(bank: Bank, psr: Word)
      requires Valid()
      modifies R
      ensures Value() == BankIn(old(Value()), bank, psr)
    {
      R[13] := sp[bank];
      R[14] := lr[bank];
      ghost var r := old(R[..])[13 := sp[bank]][14 := lr[bank]];
      assert R[..] == r;
      var slot := if ModeOf(psr) == FIQ then fiq8 else user8;
      for i := 0 to 5
        invariant R[8..8 + i] == slot[..i]
        invariant R[..8] == r[..8] && R[13..] == r[13..]
      {
        R[8 + i] := slot[i];
        assert R[8..8 + i + 1] == R[8..8 + i] + [R[8 + i]];
        assert slot[..i + 1] == slot[..i] + [slot[i]];
      }
      assert slot[..] == slot[..5];
      assert R[..] == R[..8] + R[8..13] + R[13..];
    }

    /** runtime_read_user_reg. */
    method ReadUser(r: Reg) returns (v: Word)
      requires Valid()
      ensures v == UserReg(Value(), r)
    {
      var mode := ModeOf(cpsr);
      if r < 8 || r == 15 { return R[r]; }
      if r < 13 { return if mode == FIQ then user8[r - 8] else R[r]; }
      if mode == USER || mode == SYSTEM { return R[r]; }
      return if r == 13 then sp[BANK_USER] else lr[BANK_USER];
    }

    /** runtime_write_user_reg. */
    method WriteUser(r: Reg, v: Word)
      requires Valid()
      modifies Repr
      ensures Value() == SetUserReg(old(Value()), r, v)
    {
      var mode := ModeOf(cpsr);
      if r < 8 || r == 15 {
        Set(r, v);
      } else if r < 13 {
        if mode == FIQ {
          user8[r - 8] := v;
          assert user8[..] == old(user8[..])[r - 8 := v];
        } else {
          Set(r, v);
        }
      } else if mode == USER || mode == SYSTEM {
        Set(r, v);
      } else if r == 13 {
        sp[BANK_USER] := v;
        assert sp[..] == old(sp[..])[BANK_USER := v];
      } else {
        lr[BANK_USER] := v;
        assert lr[..] == old(lr[..])[BANK_USER := v];
      }
    }

    /** runtime_msr_cpsr. */
    method WriteCpsr(v: Word, mask: bv4)
      requires Valid()
      modifies Repr
      ensures Value() == MsrCpsr(old(Value()), v, mask)
    {
      hide Merge, ByteMask, UserMask, ModeToBank, ModeOf;
      var bytewise := if ModeOf(cpsr) == USER then UserMask(mask) else ByteMask(mask);
      var oldCpsr := cpsr;
      var newCpsr := Merge(oldCpsr, v, bytewise);
      var oldBank := ModeToBank(oldCpsr);
      var newBank := ModeToBank(newCpsr);
      cpsr := newCpsr;
      if oldBank != newBank {
        Out(oldBank, oldCpsr);
        In(newBank, newCpsr);
      }
    }

    /** runtime_msr_spsr. */
    method WriteSpsr(v: Word, mask: bv4)
      requires Valid()
      modifies Repr
      ensures Value() == MsrSpsr(old(Value()), v, mask)
    {
      hide Merge, ByteMask, ModeToBank;
      var bank := ModeToBank(cpsr);
      if bank == BANK_USER { return; }
      spsr[bank] := Merge(spsr[bank], v, ByteMask(mask));
      assert spsr[..] == old(spsr[..])[bank := spsr[bank]];
    }

    /** runtime_restore_cpsr_from_spsr. */
    method Restore()
      requires Valid()
      modifies Repr
      ensures Value() == RestoreFromSpsr(old(Value()))
    {
      hide ModeToBank, ModeOf;
      var oldCpsr := cpsr;
      var mode := ModeOf(oldCpsr);
      if mode == USER || mode == SYSTEM { return; }
      var oldBank := ModeToBank(oldCpsr);
      var saved := spsr[oldBank];
      Out(oldBank, oldCpsr);
      cpsr := saved;
      In(ModeToBank(saved), saved);
    }

    /** The entry runtime_swi and runtime_irq share. */
    method Enter(mode: Word, link: Word, vector: Word)
      requires Valid()
      modifies Repr
      ensures Value() == EnterException(old(Value()), mode, link, vector)
    {
      hide ModeToBank, ModeOf, HandlerCpsr;
      var saved := cpsr;
      var newCpsr := HandlerCpsr(saved, mode);
      var oldBank := ModeToBank(saved);
      var newBank := ModeToBank(newCpsr);
      if oldBank != newBank {
        Out(oldBank, saved);
        In(newBank, newCpsr);
      }
      ghost var mid := Value();
      cpsr := newCpsr;
      spsr[newBank] := saved;
      assert spsr[..] == mid.spsr[newBank := saved];
      Set(14, link);
      Set(15, vector);
    }

    /** Guest code leaves the registers like this. */
    method Become(p: Packed)
      requires Valid()
      modifies Repr
      ensures Value() == p
    {
      cpsr := p.cpsr;
      forall i | 0 <= i < 16 { R[i] := p.R[i]; }
      forall i | 0 <= i < 6 { sp[i] := p.sp[i]; }
      forall i | 0 <= i < 6 { lr[i] := p.lr[i]; }
      forall i | 0 <= i < 6 { spsr[i] := p.spsr[i]; }
      forall i | 0 <= i < 5 { user8[i] := p.user8[i]; }
      forall i | 0 <= i < 5 { fiq8[i] := p.fiq8[i]; }
      assert R[..] == p.R && sp[..] == p.sp && lr[..] == p.lr && spsr[..] == p.spsr;
      assert user8[..] == p.user8 && fiq8[..] == p.fiq8;
    }

    /** runtime_swi, up to the dispatch of the vector. */
    method Swi()
      requires Valid()
      modifies Repr
      ensures Value() == SwiEntry(old(Value()))
    {
      Enter(SUPERVISOR, R[15], 0x08);
    }
  }

  // ----- The generated-call stack --------------------------------------------------------------

  /** g_call_return_stack, its depth and its IRQ floor. */
  class ReturnStack {
    const slots: array<Word>
    var depth: nat
    var floor: nat

    ghost const Repr: set<object> := {this, slots}

    ghost predicate Valid()
      reads this
    {
      slots.Length == CALL_STACK_SIZE && floor <= depth <= CALL_STACK_SIZE
    }

    ghost function Value(): CallStack
      requires Valid()
      reads Repr
    {
      CallStack(slots[..depth], floor)
    }

    constructor ()
      ensures Valid() && fresh(Repr) && Value() == CallStack([], 0)
    {
      slots := new Word[CALL_STACK_SIZE](i => 0);
      depth, floor := 0, 0;
    }

    /** runtime_call_push_return; a full stack aborts the process. */
    method Push(pc: Word) returns (ok: bool)
      requires Valid()
      modifies Repr
      ensures Valid()
      ensures ok <==> |old(Value()).frames| < CALL_STACK_SIZE
      ensures Value() == if ok then PushReturn(old(Value()), pc) else old(Value())
    {
      if depth >= CALL_STACK_SIZE { return false; }
      slots[depth] := EvenPc(pc);
      depth := depth + 1;
      assert slots[..depth] == old(slots[..depth]) + [EvenPc(pc)];
      return true;
    }

    /** runtime_call_should_return: a scan from the top down to the floor; a match unwinds to below it. */
    method Returns(target: Word) returns (found: bool)
      requires Valid()
      modifies this
      ensures Valid()
      ensures found == ShouldReturn(old(Value()), target) && Value() == PopTo(old(Value()), target)
    {
      hide EvenPc;
      var pc := EvenPc(target);
      ghost var was := Value();
      var i := depth;
      while i != floor
        invariant floor <= i <= depth
        invariant depth == old(depth) && floor == old(floor)
        invariant MatchBelow(was, pc, depth) == MatchBelow(was, pc, i)
      {
        var slot := i - 1;
        assert slots[slot] == was.frames[slot];
        if slots[slot] == pc {
          assert slots[..slot] == was.frames[..slot];
          depth := slot;
          return true;
        }
        i := slot;
      }
      return false;
    }

    /** runtime_call_cancel_return. */
    method Cancel(pc: Word)
      requires Valid()
      modifies this
      ensures Valid() && Value() == CancelReturn(old(Value()), pc)
    {
      if depth > floor && slots[depth - 1] == EvenPc(pc) { depth := depth - 1; }
    }

    /** runtime_call_stack_restore. The floor is not part of a snapshot: what comes back is valid exactly if it
        reaches the floor. */
    method Restore(entries: seq<Word>)
      requires slots.Length == CALL_STACK_SIZE
      modifies Repr
      ensures floor == old(floor)
      ensures depth == if |entries| > CALL_STACK_SIZE then CALL_STACK_SIZE else |entries|
      ensures slots[..depth] == entries[..depth]
    {
      var count := if |entries| > CALL_STACK_SIZE then CALL_STACK_SIZE else |entries|;
      depth := count;
      for i := 0 to count
        invariant depth == count && floor == old(floor)
        invariant slots[..i] == entries[..i]
      {
        slots[i] := entries[i];
        assert slots[..i + 1] == slots[..i] + [slots[i]];
      }
    }
  }
}
