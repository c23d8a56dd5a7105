// runtime_irq's drive-to-completion loop (runtime_arm.cpp:1163-1323), under any handler behaviour.
module IrqDriver {
  import opened Words
  import opened Ir
  import opened Cpu
  import opened Reference
  import opened RuntimeOps
  import opened Runtime
  import opened Banks

  // ----- Handler behaviours --------------------------------------------------------------------

  /** What guest code may do to the runtime while it runs: change the registers at will, return from an exception,
      use the generated-call stack, or be interrupted. */
  datatype Action =
    | Guest(cpu: Packed)
    | ReturnFrom(pc: Word)
    | CallFrom(pc: Word) | ReturnTo(target: Word) | CancelCall(pc: Word)
    | Interrupt(returnAddress: Word, handler: Handler)

  /** One dispatch's worth of actions. */
  datatype Work = Nothing | Do(first: Action, rest: Work)

  /** What each successive dispatch does; a handler that has run out does nothing. */
  datatype Handler = Idle | Dispatches(now: Work, later: Handler)

  ghost function ActionSize(a: Action): nat {
    if a.Interrupt? then 1 + HandlerSize(a.handler) else 1
  }

  ghost function WorkSize(w: Work): nat {
    if w.Nothing? then 0 else 1 + ActionSize(w.first) + WorkSize(w.rest)
  }

  ghost function HandlerSize(h: Handler): nat {
    if h.Idle? then 1 else 1 + WorkSize(h.now) + HandlerSize(h.later)
  }

  const MAX_DISPATCHES: nat := 4_000_000

  /** An IRQ-mode return was made at this nesting depth, at or after that point of the log. */
  ghost predicate Saw(log: seq<nat>, start: nat, depth: nat) {
    exists i | start <= i < |log| :: log[i] == depth
  }

  /** Everything logged since is at least this deep. */
  ghost predicate NotAbove(log: seq<nat>, start: nat, depth: nat) {
    forall i | start <= i < |log| :: log[i] >= depth
  }

  /** How the loop of an IRQ at this depth ended: having seen its own return, in the last dispatch it made and no
      earlier one, or, without one, after the maximum number of dispatches. */
  ghost predicate Driven(log: seq<nat>, start: nat, depth: nat, abandoned: bool, dispatches: nat, lastStart: nat) {
    && 1 <= dispatches <= 4_000_000
    && (!abandoned <==> Saw(log, start, depth))
    && (abandoned ==> dispatches == 4_000_000)
    && start <= lastStart <= |log| && !Saw(log[..lastStart], start, depth)
  }

  // ----- What handlers start from and leave ------------------------------------------------------

  /** A handler about to be dispatched for the first time, and what it interrupted. */
  datatype Start = Start(interrupted: Packed, returnAddress: Word, cpu: Packed)

  /** It is in IRQ mode at 0x18, its LR four past the return address, everything else as the entry must leave it. */
  ghost predicate Proper(s: Start) {
    Enters(s.interrupted, s.cpu, 0x12, Add(s.returnAddress, 4), 0x18)
  }

  ghost predicate AllProper(starts: seq<Start>, since: nat) {
    forall i | since <= i < |starts| :: Proper(starts[i])
  }

  function NowOf(h: Handler): Work {
    if h.Dispatches? then h.now else Nothing
  }

  function LaterOf(h: Handler): Handler {
    if h.Dispatches? then h.later else Idle
  }

  /** No interrupt is taken meanwhile. */
  predicate Quiet(w: Work) {
    w.Nothing? || (!w.first.Interrupt? && Quiet(w.rest))
  }

  predicate AllQuiet(h: Handler) {
    h.Idle? || (Quiet(h.now) && AllQuiet(h.later))
  }

  /** What quiet guest code leaves in the CPU, and whether it returns from IRQ mode on the way. */
  function After(a: Action, cpu: Packed): Packed {
    match a
    case Guest(p) => p
    case ReturnFrom(pc) => ReturnFromException(cpu, pc)
    case _ => cpu
  }

  predicate ReturnsNow(a: Action, cpu: Packed) {
    a.ReturnFrom? && ModeOf(cpu.cpsr) == 0x12
  }

  function AfterAll(w: Work, cpu: Packed): Packed {
    if w.Nothing? then cpu else AfterAll(w.rest, After(w.first, cpu))
  }

  predicate ReturnsIn(w: Work, cpu: Packed) {
    w.Do? && (ReturnsNow(w.first, cpu) || ReturnsIn(w.rest, After(w.first, cpu)))
  }

  /** What is left of a handler after n dispatches, and the CPU then. */
  function Remaining(h: Handler, n: nat): Handler {
    if n == 0 then h else LaterOf(Remaining(h, n - 1))
  }

  function CpuAfter(h: Handler, cpu: Packed, n: nat): Packed {
    if n == 0 then cpu else AfterAll(NowOf(Remaining(h, n - 1)), CpuAfter(h, cpu, n - 1))
  }

  /** Dispatch n, counted from 0, returns from IRQ mode. */
  predicate ReturnsAt(h: Handler, cpu: Packed, n: nat) {
    ReturnsIn(NowOf(Remaining(h, n)), CpuAfter(h, cpu, n))
  }

  lemma {:induction false} StaysQuiet(h: Handler, n: nat)
    requires AllQuiet(h)
    ensures AllQuiet(Remaining(h, n)) && Quiet(NowOf(Remaining(h, n)))
  {
    if n > 0 { StaysQuiet(h, n - 1); }
  }

  /** A quiet handler, dispatched until it returns: the first dispatch that does is the last one made, and there is
      none exactly if the driver gives up. */
  ghost predicate RanQuietly(h: Handler, cpu: Packed, abandoned: bool, dispatches: nat, end: Packed) {
    && dispatches > 0 && end == CpuAfter(h, cpu, dispatches)
    && (forall j: nat | j < dispatches - 1 :: !ReturnsAt(h, cpu, j))
    && (abandoned <==> !ReturnsAt(h, cpu, dispatches - 1))
  }

  /** Where the loop stands after n dispatches, `saw` when its own return has been seen. */
  ghost predicate QuietSoFar(h: Handler, cpu: Packed, n: nat, now: Packed, saw: bool) {
    AllQuiet(h) && n > 0 ==>
      && now == CpuAfter(h, cpu, n)
      && (forall j: nat | j < n - 1 :: !ReturnsAt(h, cpu, j))
      && (saw <==> ReturnsAt(h, cpu, n - 1))
  }

  lemma Smaller(h: Handler)
    ensures WorkSize(NowOf(h)) < HandlerSize(h) && HandlerSize(LaterOf(h)) <= HandlerSize(h)
  {}

  lemma Undispatched(h: Handler)
    ensures Remaining(h, 0) == h
  {}

  /** One more dispatch, after none that returned. */
  lemma QuietTurn(h: Handler, cpu: Packed, n: nat, before: Packed, now: Packed, saw: bool)
    requires if n == 0 then before == cpu else QuietSoFar(h, cpu, n, before, false)
    requires var w := NowOf(Remaining(h, n));
             Quiet(w) ==> now == AfterAll(w, before) && (saw <==> ReturnsIn(w, before))
    ensures QuietSoFar(h, cpu, n + 1, now, saw) && Remaining(h, n + 1) == LaterOf(Remaining(h, n))
  {
    hide AfterAll, ReturnsIn, CpuAfter, ReturnsAt, Remaining, AllQuiet, Quiet;
    OneStep(h, cpu, n);
    if AllQuiet(h) { StaysQuiet(h, n); }
  }

  lemma OneStep(h: Handler, cpu: Packed, n: nat)
    ensures Remaining(h, n + 1) == LaterOf(Remaining(h, n)) && CpuAfter(h, cpu, 0) == cpu
    ensures CpuAfter(h, cpu, n + 1) == AfterAll(NowOf(Remaining(h, n)), CpuAfter(h, cpu, n))
    ensures ReturnsAt(h, cpu, n) <==> ReturnsIn(NowOf(Remaining(h, n)), CpuAfter(h, cpu, n))
  {
    hide AfterAll, ReturnsIn;
  }

  lemma QuietEnd(h: Handler, cpu: Packed, n: nat, now: Packed, saw: bool)
    requires n > 0 && QuietSoFar(h, cpu, n, now, saw) && AllQuiet(h)
    ensures RanQuietly(h, cpu, !saw, n, now)
  {
    hide ReturnsAt, CpuAfter;
  }

  /** The registers the BIOS wrapper preserves, put back. */
  function Volatile(cpu: Packed, saved: Regs): Packed {
    cpu.(R := cpu.R[0 := saved[0]][1 := saved[1]][2 := saved[2]][3 := saved[3]][12 := saved[12]])
  }

  lemma VolatileIs(cpu: Packed, saved: Regs)
    ensures Volatile(cpu, saved).R[..4] == saved[..4] && Volatile(cpu, saved).R[12] == saved[12]
  {}

  // No call-stack operation reaches below the floor.

  lemma PushKeeps(cs: CallStack, pc: Word)
    requires cs.floor <= |cs.frames|
    ensures PushReturn(cs, pc).frames[..cs.floor] == cs.frames[..cs.floor] && PushReturn(cs, pc).floor == cs.floor
  {}

  lemma PopKeeps(cs: CallStack, target: Word)
    requires cs.floor <= |cs.frames|
    ensures cs.floor <= |PopTo(cs, target).frames| && PopTo(cs, target).frames[..cs.floor] == cs.frames[..cs.floor]
    ensures PopTo(cs, target).floor == cs.floor
  {}

  lemma CancelKeeps(cs: CallStack, pc: Word)
    requires cs.floor <= |cs.frames|
    ensures cs.floor <= |CancelReturn(cs, pc).frames| && CancelReturn(cs, pc).frames[..cs.floor] == cs.frames[..cs.floor]
    ensures CancelReturn(cs, pc).floor == cs.floor
  {}

  class Driver {
    const cpu: PackedCpu
    const calls: ReturnStack
    /** g_irq_nest_depth and g_irq_iret_depth. */
    var nest: nat
    var iret: nat
    /** The nesting depth of every IRQ-mode exception return so far. */
    ghost var log: seq<nat>
    /** Every handler started so far. */
    ghost var starts: seq<Start>

    ghost const Repr: set<object> := {this} + cpu.Repr + calls.Repr

    ghost predicate Valid()
      reads this, calls
    {
      && cpu.Valid() && calls.Valid()
      && this !in cpu.Repr && this !in calls.Repr && cpu.Repr !! calls.Repr
    }

    constructor ()
      ensures Valid() && fresh(Repr) && nest == 0 && iret == 0 && log == [] && starts == []
    {
      cpu := new PackedCpu();
      calls := new ReturnStack();
      nest, iret, log, starts := 0, 0, [], [];
    }

    /** runtime_exception_return. */
    method ExceptionReturn(newPc: Word)
      requires Valid()
      modifies cpu.Repr, this`iret, this`log
      ensures cpu.Value() == ReturnFromException(old(cpu.Value()), newPc)
      ensures var fromIrq := ModeOf(old(cpu.cpsr)) == IRQ;
              log == (if fromIrq then old(log) + [nest] else old(log))
              && iret == if fromIrq then nest else old(iret)
    {
      var mode := ModeOf(cpu.cpsr);
      cpu.Restore();
      cpu.Set(15, newPc);
      if mode == IRQ {
        iret := nest;
        log := log + [nest];
      }
    }

    /** The registers the BIOS wrapper preserves. */
    method RestoreVolatile(saved: seq<Word>, saved12: Word, ghost regs: Regs)
      requires Valid() && saved == regs[..4] && saved12 == regs[12]
      modifies cpu.R
      ensures cpu.Value() == Volatile(old(cpu.Value()), regs)
    {
      cpu.Set(0, saved[0]);
      cpu.Set(1, saved[1]);
      cpu.Set(2, saved[2]);
      cpu.Set(3, saved[3]);
      cpu.Set(12, saved12);
    }

    /** One action of guest code at the current depth. */
    method Perform(a: Action) returns (alive: bool)
      requires Valid()
      modifies Repr
      decreases ActionSize(a), 0
      ensures Valid()
      ensures old(log) <= log && NotAbove(log, |old(log)|, old(nest))
      ensures old(starts) <= starts && AllProper(starts, |old(starts)|)
      ensures alive ==>
                && nest == old(nest) && calls.floor == old(calls.floor)
                && calls.Value().frames[..calls.floor] == old(calls.Value().frames[..calls.floor])
                && iret == if Saw(log, |old(log)|, nest) then nest else old(iret)
      ensures alive && !a.Interrupt? ==>
                && cpu.Value() == After(a, old(cpu.Value()))
                && (Saw(log, |old(log)|, nest) <==> ReturnsNow(a, old(cpu.Value())))
    {
      hide ReturnFromException, PushReturn, PopTo, CancelReturn, MatchBelow, EvenPc, Proper;
      alive := true;
      match a
      case Guest(p) => cpu.Become(p);
      case ReturnFrom(pc) =>
        ExceptionReturn(pc);
        assert log != old(log) ==> log[|old(log)|] == nest;
      case CallFrom(pc) =>
        alive := calls.Push(pc);
        PushKeeps(old(calls.Value()), pc);
      case ReturnTo(target) =>
        var _ := calls.Returns(target);
        PopKeeps(old(calls.Value()), target);
      case CancelCall(pc) =>
        calls.Cancel(pc);
        CancelKeeps(old(calls.Value()), pc);
      case Interrupt(returnAddress, handler) =>
        hide Driven;
        ghost var lastStart;
        var abandoned, n;
        alive, abandoned, n, lastStart := Irq(returnAddress, handler);
        assert alive ==> calls.Value().frames[..calls.floor] == old(calls.Value().frames[..calls.floor]);
    }

    /** One dispatch. */
    method PerformAll(w: Work) returns (alive: bool)
      requires Valid()
      modifies Repr
      decreases WorkSize(w), 1
      ensures Valid()
      ensures old(log) <= log && NotAbove(log, |old(log)|, old(nest))
      ensures old(starts) <= starts && AllProper(starts, |old(starts)|)
      ensures alive ==>
                && nest == old(nest) && calls.floor == old(calls.floor)
                && calls.Value().frames[..calls.floor] == old(calls.Value().frames[..calls.floor])
                && iret == if Saw(log, |old(log)|, nest) then nest else old(iret)
      ensures alive && Quiet(w) ==>
                && cpu.Value() == AfterAll(w, old(cpu.Value()))
                && (Saw(log, |old(log)|, nest) <==> ReturnsIn(w, old(cpu.Value())))
    {
      hide After, ReturnsNow, Proper;
      match w
      case Nothing => alive := true;
      case Do(first, rest) =>
        alive := Perform(first);
        if alive { alive := PerformAll(rest); }
    }

    /** The loop: dispatch until this IRQ's own return has been seen, or the guard. */
    method Drive(handler: Handler, ghost interrupted: Packed, ghost returnAddress: Word)
      returns (alive: bool, abandoned: bool, dispatches: nat, ghost lastStart: nat)
      requires Valid() && iret == 0 < nest && Proper(Start(interrupted, returnAddress, cpu.Value()))
      modifies Repr
      decreases HandlerSize(handler), 2
      ensures Valid()
      ensures old(log) <= log && NotAbove(log, |old(log)|, old(nest))
      ensures old(starts) <= starts && AllProper(starts, |old(starts)|)
      ensures alive ==>
                && nest == old(nest) && calls.floor == old(calls.floor)
                && calls.Value().frames[..calls.floor] == old(calls.Value().frames[..calls.floor])
                && Driven(log, |old(log)|, nest, abandoned, dispatches, lastStart)
      ensures old(starts) < starts && starts[|old(starts)|] == Start(interrupted, returnAddress, old(cpu.Value()))
      ensures alive && AllQuiet(handler) ==>
                RanQuietly(handler, old(cpu.Value()), abandoned, dispatches, cpu.Value())
    {
      hide Proper, AfterAll, ReturnsIn, QuietSoFar, RanQuietly, Remaining, AllQuiet, Quiet, WorkSize, HandlerSize;
      Smaller(handler);
      ghost var start, entry := |log|, cpu.Value();
      starts := starts + [Start(interrupted, returnAddress, entry)];
      alive, abandoned, dispatches := true, false, 1;
      lastStart := |log|;
      Undispatched(handler);
      alive := PerformAll(NowOf(handler));
      var h := LaterOf(handler);
      if alive { QuietTurn(handler, entry, 0, entry, cpu.Value(), Saw(log, start, nest)); }
      while alive && iret != nest
        invariant Valid()
        invariant old(log) <= log && NotAbove(log, start, old(nest))
        invariant old(starts) + [Start(interrupted, returnAddress, entry)] <= starts && AllProper(starts, |old(starts)|)
        invariant alive ==>
          && nest == old(nest) && calls.floor == old(calls.floor)
          && calls.Value().frames[..calls.floor] == old(calls.Value().frames[..calls.floor])
          && iret == (if Saw(log, start, nest) then nest else 0)
          && h == Remaining(handler, dispatches)
          && QuietSoFar(handler, entry, dispatches, cpu.Value(), Saw(log, start, nest))
        invariant 1 <= dispatches <= MAX_DISPATCHES
        invariant start <= lastStart <= |log| && !Saw(log[..lastStart], start, old(nest))
        invariant HandlerSize(h) <= HandlerSize(handler)
        decreases MAX_DISPATCHES - dispatches
      {
        if dispatches >= MAX_DISPATCHES { abandoned := true; break; }
        ghost var before := cpu.Value();
        Smaller(h);
        lastStart := |log|;
        assert log[..lastStart] == log;
        alive := PerformAll(NowOf(h));
        if alive { QuietTurn(handler, entry, dispatches, before, cpu.Value(), Saw(log, start, nest)); }
        h := LaterOf(h);
        dispatches := dispatches + 1;
      }
      if alive && AllQuiet(handler) { QuietEnd(handler, entry, dispatches, cpu.Value(), Saw(log, start, nest)); }
    }

    /** runtime_irq. The handler, and every handler nested in it, is started by a proper entry. The loop ends with the
        first dispatch in which the handler returned from IRQ mode at this IRQ's own depth, or at the guard; R0-R3,
        R12, the nesting depth, the marker of an enclosing IRQ, the floor and the interrupted code's frames come back
        as they were. For a handler that is not itself interrupted the CPU it leaves is known as well. */
    method Irq(returnAddress: Word, handler: Handler)
      returns (alive: bool, abandoned: bool, dispatches: nat, ghost lastStart: nat)
      requires Valid()
      modifies Repr
      decreases HandlerSize(handler), 3
      ensures Valid()
      ensures old(log) <= log && NotAbove(log, |old(log)|, old(nest) + 1)
      ensures old(starts) < starts && AllProper(starts, |old(starts)|)
      ensures starts[|old(starts)|].interrupted == old(cpu.Value()) && starts[|old(starts)|].returnAddress == returnAddress
      ensures alive ==>
                && nest == old(nest) && iret == old(iret) && calls.floor == old(calls.floor)
                && cpu.Value().R[..4] == old(cpu.Value().R[..4]) && cpu.Value().R[12] == old(cpu.Value().R[12])
                && |old(calls.Value().frames)| <= |calls.Value().frames|
                && calls.Value().frames[..|old(calls.Value().frames)|] == old(calls.Value().frames)
                && Driven(log, |old(log)|, nest + 1, abandoned, dispatches, lastStart)
      ensures alive && AllQuiet(handler) ==>
                exists end :: RanQuietly(handler, starts[|old(starts)|].cpu, abandoned, dispatches, end)
                              && cpu.Value() == Volatile(end, old(cpu.Value()).R)
    {
      hide EnterException, Driven, Enters, RanQuietly, AllQuiet, Volatile;
      ghost var was := cpu.Value();
      EntryExact(was, IRQ, Add(returnAddress, 4), 0x18);
      nest := nest + 1;
      var saved := cpu.R[..4];
      var saved12 := cpu.R[12];
      cpu.Enter(IRQ, Add(returnAddress, 4), 0x18);
      var savedIret := iret;
      iret := 0;
      var savedFloor := calls.floor;
      calls.floor := calls.depth;
      ghost var frames := calls.Value().frames;
      assert calls.Value().frames[..calls.floor] == frames;
      alive, abandoned, dispatches, lastStart := Drive(handler, was, returnAddress);
      if !alive { return; }
      ghost var end := cpu.Value();
      RestoreVolatile(saved, saved12, was.R);
      VolatileIs(end, was.R);
      assert AllQuiet(handler) ==> RanQuietly(handler, starts[|old(starts)|].cpu, abandoned, dispatches, end);
      iret := savedIret;
      calls.floor := savedFloor;
      nest := nest - 1;
    }
  }

  // ----- An interrupt the interrupted code cannot see ---------------------------------------------------

  /** A handler that hands back what its entry gave it: still in IRQ mode with its SPSR, and every register the
      interrupted mode sees unchanged, but for R0 to R3 and R12. */
  ghost predicate KeepsMainline(p: Packed, e: Packed, q: Packed) {
    && ModeOf(q.cpsr) == 0x12 && q.spsr[BANK_IRQ] == e.spsr[BANK_IRQ] && q.R[4..8] == p.R[4..8]
    && forall r: BankedReg {:trigger View(q, p.cpsr, r)} | r != 12 :: View(q, p.cpsr, r) == View(p, p.cpsr, r)
  }

  lemma IrqBank(psr: Word)
    requires ModeOf(psr) == 0x12
    ensures ModeToBank(psr) == BANK_IRQ && PrivNonSystem(ModeOf(psr)) && ModeToBank(0x12) == BANK_IRQ
  {}

  /** Entry, such a handler, its return and the driver's restore: CPSR and all registers are the interrupted code's
      again, and it goes on at the address the handler returned to. */
  lemma MainlineRestored(p: Packed, returnAddress: Word, e: Packed, q: Packed, pc: Word)
    requires ValidPsr(p.cpsr) && Proper(Start(p, returnAddress, e)) && KeepsMainline(p, e, q)
    ensures var back := Volatile(ReturnFromException(q, pc), p.R);
            back.cpsr == p.cpsr && back.R == p.R[15 := pc]
  {
    hide View, ReturnFromException, ModeToBank, ModeOf;
    IrqBank(q.cpsr);
    ReturnGives(q, pc);
    var back := ReturnFromException(q, pc);
    forall r: nat | 4 <= r < 15 && r != 12 ensures back.R[r] == p.R[r] {
      if r < 8 {
        assert back.R[..8][r] == q.R[..8][r] && q.R[4..8][r - 4] == p.R[4..8][r - 4];
      } else {
        LiveView(p, r);
        assert back.R[r] == View(q, p.cpsr, r);
      }
    }
  }

  /** One dispatch that does its work and returns. */
  function OneDispatch(q: Packed, pc: Word, later: Handler): Handler {
    Dispatches(Do(Guest(q), Do(ReturnFrom(pc), Nothing)), later)
  }

  /** What Irq leaves of such a handler: it is dispatched once, not abandoned, and the interrupted code goes on as if
      nothing had happened. */
  lemma OneDispatchSuffices(p: Packed, start: Start, q: Packed, pc: Word, later: Handler,
                            abandoned: bool, dispatches: nat, end: Packed)
    requires start.interrupted == p && Proper(start) && ValidPsr(p.cpsr) && KeepsMainline(p, start.cpu, q)
    requires RanQuietly(OneDispatch(q, pc, later), start.cpu, abandoned, dispatches, end)
    ensures !abandoned && dispatches == 1
    ensures Volatile(end, p.R).cpsr == p.cpsr && Volatile(end, p.R).R == p.R[15 := pc]
  {
    hide View, ReturnFromException, Proper, Volatile;
    var h := OneDispatch(q, pc, later);
    assert ReturnsIn(Do(ReturnFrom(pc), Nothing), q);
    assert ReturnsAt(h, start.cpu, 0);
    assert dispatches == 1;
    assert AfterAll(Do(ReturnFrom(pc), Nothing), q) == ReturnFromException(q, pc);
    assert CpuAfter(h, start.cpu, 0) == start.cpu && Remaining(h, 0) == h;
    assert CpuAfter(h, start.cpu, 1) == AfterAll(NowOf(Remaining(h, 0)), CpuAfter(h, start.cpu, 0));
    MainlineRestored(p, start.returnAddress, start.cpu, q, pc);
  }
}
