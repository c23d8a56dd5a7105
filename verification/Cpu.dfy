// The two register files: the packed ArmCpuState generated code works on
// (runtime_arm_types.h) and the CPUState of the interpreter (cpu_state.h),
// with the abstraction between them.
module Cpu {
  import opened Words

  type Regs = r: seq<Word> | |r| == 16 witness seq(16, i => 0)
  type Bank = b: nat | b < 6
  type Banked = r: seq<Word> | |r| == 6 witness seq(6, i => 0)
  type HighRegs = r: seq<Word> | |r| == 5 witness seq(5, i => 0)

  // Modes (cpu_state.h:40-48) and bank indices (runtime_arm_types.h:25-31).
  const USER: Word := 0x10
  const FIQ: Word := 0x11
  const IRQ: Word := 0x12
  const SUPERVISOR: Word := 0x13
  const ABORT: Word := 0x17
  const UNDEFINED: Word := 0x1B
  const SYSTEM: Word := 0x1F

  const BANK_USER: Bank := 0
  const BANK_FIQ: Bank := 1
  const BANK_IRQ: Bank := 2
  const BANK_SUPERVISOR: Bank := 3
  const BANK_ABORT: Bank := 4
  const BANK_UNDEFINED: Bank := 5

  function ModeOf(psr: Word): Word {
    psr & 0x1F
  }

  /** mode_to_bank, given a mode or a whole PSR. */
  function ModeToBank(psr: Word): Bank {
    var m := ModeOf(psr);
    if m == FIQ then BANK_FIQ
    else if m == IRQ then BANK_IRQ
    else if m == SUPERVISOR then BANK_SUPERVISOR
    else if m == ABORT then BANK_ABORT
    else if m == UNDEFINED then BANK_UNDEFINED
    else BANK_USER
  }

  /** A mode with an SPSR as both engines test for it: anything but User and System. */
  predicate PrivNonSystem(mode: Word) {
    mode != USER && mode != SYSTEM
  }

  // ----- The packed state ------------------------------------------------------

  datatype Packed = Packed(
    R: Regs,
    cpsr: Word,
    sp: Banked,
    lr: Banked,
    spsr: Banked,
    user8: HighRegs,
    fiq8: HighRegs)

  // ----- The interpreter's state -----------------------------------------------

  datatype Psr = Psr(n: bool, z: bool, c: bool, v: bool, i: bool, f: bool, t: bool, mode: Word)

  datatype CpuState = CpuState(
    R: Regs,
    cpsr: Psr,
    sp: Banked,
    lr: Banked,
    spsr: Banked,
    user8: HighRegs,
    fiq8: HighRegs,
    thumb: bool)

  function Bit(b: bool, mask: Word): Word {
    if b then mask else 0
  }

  function FlagBits(p: Psr): Word {
    Bit(p.n, 0x8000_0000) | Bit(p.z, 0x4000_0000) | Bit(p.c, 0x2000_0000) | Bit(p.v, 0x1000_0000)
  }

  function ControlBits(p: Psr): Word {
    Bit(p.i, 0x80) | Bit(p.f, 0x40) | Bit(p.t, 0x20) | (p.mode & 0x1F)
  }

  /** The word the interpreter builds out of its PSR fields (interpreter.cpp:1006-1014). */
  function Pack(p: Psr): Word {
    FlagBits(p) | ControlBits(p)
  }

  /** The fields the interpreter takes out of a PSR word (interpreter.cpp:402-410). */
  function Unpack(w: Word): Psr {
    Psr((w >> 31) & 1 == 1, (w >> 30) & 1 == 1, (w >> 29) & 1 == 1, (w >> 28) & 1 == 1,
        (w >> 7) & 1 == 1, (w >> 6) & 1 == 1, (w >> 5) & 1 == 1, w & 0x1F)
  }

  /** What the packed state means to the interpreter; bits 27..8 of the CPSR mean nothing to it. */
  function Abs(p: Packed): CpuState {
    CpuState(p.R, Unpack(p.cpsr), p.sp, p.lr, p.spsr, p.user8, p.fiq8, Unpack(p.cpsr).t)
  }

  /** The reserved PSR bits 27..8 are clear. */
  predicate Canonical(psr: Word) {
    psr & 0x0FFF_FF00 == 0
  }

  lemma PackUnpack(w: Word)
    ensures Pack(Unpack(w)) == w & 0xF000_00FF
    ensures Pack(Unpack(w)) == w <==> Canonical(w)
  {
    DefinedBits(w);
    OnlyDefinedBits(w);
    hide Pack, Unpack, Canonical;
  }

  lemma DefinedFlags(w: Word)
    ensures FlagBits(Unpack(w)) == w & 0xF000_0000
  {}

  lemma DefinedControl(w: Word)
    ensures ControlBits(Unpack(w)) == w & 0xFF
  {}

  lemma DefinedBits(w: Word)
    ensures Pack(Unpack(w)) == w & 0xF000_00FF
  {
    hide FlagBits, ControlBits, Unpack;
    DefinedFlags(w);
    DefinedControl(w);
    BothHalves(w);
  }

  lemma BothHalves(w: Word)
    ensures (w & 0xF000_0000) | (w & 0xFF) == w & 0xF000_00FF
  {}

  lemma OnlyDefinedBits(w: Word)
    ensures w & 0xF000_00FF == w <==> Canonical(w)
  {}

  lemma UnpackFlags(p: Psr)
    ensures var w := Pack(p);
            var q := Unpack(w);
            q.n == p.n && q.z == p.z && q.c == p.c && q.v == p.v
  {}

  lemma UnpackControl(p: Psr)
    ensures var w := Pack(p);
            var q := Unpack(w);
            q.i == p.i && q.f == p.f && q.t == p.t && q.mode == p.mode & 0x1F
  {}

  lemma UnpackPack(p: Psr)
    requires p.mode & 0x1F == p.mode
    ensures Unpack(Pack(p)) == p
  {
    UnpackFlags(p);
    UnpackControl(p);
    hide Unpack, Pack;
  }
}
