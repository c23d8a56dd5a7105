// Safety of the generated-call stack over whole runs (runtime_arm.cpp:830-874 and the floor of runtime_irq).
module CallReturn {
  import opened Words
  import opened RuntimeOps

  // ----- One operation -----------------------------------------------------------------------

  /** floor <= depth <= 16384: the downward scan ends at the floor, inside the array. */
  predicate InBounds(cs: CallStack) {
    cs.floor <= |cs.frames| <= CALL_STACK_SIZE
  }

  /** Some frame the scan may see holds the target. */
  predicate Visible(cs: CallStack, target: Word) {
    exists i | cs.floor <= i < |cs.frames| :: cs.frames[i] == EvenPc(target)
  }

  /** should_return succeeds exactly if a visible frame matches, and leaves exactly the frames below the topmost. */
  lemma ReturnUnwinds(cs: CallStack, target: Word)
    requires InBounds(cs)
    ensures ShouldReturn(cs, target) <==> Visible(cs, target)
    ensures !ShouldReturn(cs, target) ==> PopTo(cs, target) == cs
    ensures ShouldReturn(cs, target) ==>
              var left := PopTo(cs, target);
              var slot := |left.frames|;
              && left == CallStack(cs.frames[..slot], cs.floor)
              && cs.floor <= slot < |cs.frames| && cs.frames[slot] == EvenPc(target)
              && forall j | slot < j < |cs.frames| :: cs.frames[j] != EvenPc(target)
  {
    hide EvenPc;
  }

  /** A return to the address just pushed, in either instruction set, and a cancel of it both undo the push. */
  lemma PushUndone(cs: CallStack, pc: Word, target: Word)
    requires InBounds(cs) && EvenPc(pc) == EvenPc(target)
    ensures ShouldReturn(PushReturn(cs, pc), target) && PopTo(PushReturn(cs, pc), target) == cs
    ensures CancelReturn(PushReturn(cs, pc), target) == cs
  {
    hide EvenPc;
    var pushed := PushReturn(cs, pc);
    assert pushed.frames[|cs.frames|] == EvenPc(pc);
    assert pushed.frames[..|cs.frames|] == cs.frames;
  }

  // ----- Runs ----------------------------------------------------------------------------------

  datatype Event = Push(pc: Word) | Return(target: Word) | Cancel(pc: Word) | EnterIrq | LeaveIrq

  /** The stack, and the floors the active runtime_irq calls will put back, outermost first. */
  datatype Run = Run(calls: CallStack, floors: seq<nat>) | Aborted

  function Apply(s: Run, e: Event): Run {
    if s.Aborted? then s else
    match e
    case Push(pc) =>
      if |s.calls.frames| >= CALL_STACK_SIZE then Aborted else s.(calls := PushReturn(s.calls, pc))
    case Return(target) => s.(calls := PopTo(s.calls, target))
    case Cancel(pc) => s.(calls := CancelReturn(s.calls, pc))
    case EnterIrq => Run(s.calls.(floor := |s.calls.frames|), s.floors + [s.calls.floor])
    case LeaveIrq =>
      if s.floors == [] then s
      else Run(s.calls.(floor := s.floors[|s.floors| - 1]), s.floors[..|s.floors| - 1])
  }

  function RunAll(s: Run, es: seq<Event>): Run
    decreases es
  {
    if es == [] then s else RunAll(Apply(s, es[0]), es[1..])
  }

  /** Bounds, and each enclosing floor no higher than the next. */
  predicate Safe(s: Run) {
    s.Run? ==>
      && InBounds(s.calls)
      && (forall i | 0 <= i < |s.floors| :: s.floors[i] <= s.calls.floor)
      && (forall i, j | 0 <= i < j < |s.floors| :: s.floors[i] <= s.floors[j])
  }

  lemma ApplySafe(s: Run, e: Event)
    requires Safe(s)
    ensures Safe(Apply(s, e))
  {
    hide EvenPc;
    if s.Run? && e.Return? { ReturnUnwinds(s.calls, e.target); }
  }

  /** Every run stays in bounds. */
  lemma {:induction false} RunsSafe(s: Run, es: seq<Event>)
    requires Safe(s)
    ensures Safe(RunAll(s, es))
    decreases es
  {
    if es != [] {
      ApplySafe(s, es[0]);
      RunsSafe(Apply(s, es[0]), es[1..]);
    }
  }

  // ----- Frames below the floor -------------------------------------------------------------------

  /** The events never leave more IRQs than they entered, counting from `level` entered already. */
  predicate StaysInside(es: seq<Event>, level: nat) {
    es == [] ||
    match es[0]
    case EnterIrq => StaysInside(es[1..], level + 1)
    case LeaveIrq => level > 0 && StaysInside(es[1..], level - 1)
    case _ => StaysInside(es[1..], level)
  }

  /** How many of the entered IRQs the events leave open. */
  function OpenAfter(es: seq<Event>, level: nat): nat
    requires StaysInside(es, level)
  {
    if es == [] then level else
    match es[0]
    case EnterIrq => OpenAfter(es[1..], level + 1)
    case LeaveIrq => OpenAfter(es[1..], level - 1)
    case _ => OpenAfter(es[1..], level)
  }

  /** `level` IRQs deep inside the code that saw this floor and these frames below it. */
  predicate Inside(s: Run, kept: seq<Word>, outer: seq<nat>, level: nat) {
    s.Run? ==>
      && Safe(s) && |s.floors| == |outer| + level
      && |kept| <= s.calls.floor && s.calls.frames[..|kept|] == kept
      && (level == 0 ==> s.floors == outer && s.calls.floor == |kept|)
      && (level > 0 ==> s.floors[..|outer|] == outer && s.floors[|outer|] == |kept|)
  }

  lemma ApplyInside(s: Run, e: Event, kept: seq<Word>, outer: seq<nat>, level: nat)
    requires Inside(s, kept, outer, level) && s.Run? && (e.LeaveIrq? ==> level > 0)
    ensures Inside(Apply(s, e), kept, outer, if e.EnterIrq? then level + 1 else if e.LeaveIrq? then level - 1 else level)
  {
    hide EvenPc;
    ApplySafe(s, e);
    match e
    case Return(target) =>
      ReturnUnwinds(s.calls, target);
      assert PopTo(s.calls, target).frames[..|kept|] == kept;
    case Push(pc) => assert PushReturn(s.calls, pc).frames[..|kept|] == kept;
    case Cancel(pc) => assert CancelReturn(s.calls, pc).frames[..|kept|] == kept;
    case EnterIrq =>
      var t := Apply(s, e);
      assert t.floors[..|outer|] == s.floors[..|outer|];
    case LeaveIrq =>
      var t := Apply(s, e);
      assert t.floors[..|outer|] == outer;
      if level == 1 { assert t.floors == outer; }
  }

  lemma {:induction false} RunInside(s: Run, es: seq<Event>, kept: seq<Word>, outer: seq<nat>, level: nat)
    requires Inside(s, kept, outer, level) && StaysInside(es, level)
    ensures Inside(RunAll(s, es), kept, outer, OpenAfter(es, level))
    decreases es
  {
    if s.Aborted? {
      AbortedStays(es);
    } else if es != [] {
      var e := es[0];
      ApplyInside(s, e, kept, outer, level);
      RunInside(Apply(s, e), es[1..], kept, outer,
                if e.EnterIrq? then level + 1 else if e.LeaveIrq? then level - 1 else level);
    }
  }

  lemma {:induction false} AbortedStays(es: seq<Event>)
    ensures RunAll(Aborted, es) == Aborted
  {
    if es != [] { AbortedStays(es[1..]); }
  }

  /** Whatever generated code does, nested IRQs included, the frames below the floor it started with are neither
      changed nor popped. */
  lemma BelowFloorKept(s: Run, es: seq<Event>)
    requires Safe(s) && s.Run? && StaysInside(es, 0)
    ensures var t := RunAll(s, es);
            t.Run? ==> |t.calls.frames| >= s.calls.floor && t.calls.frames[..s.calls.floor] == s.calls.frames[..s.calls.floor]
  {
    RunInside(s, es, s.calls.frames[..s.calls.floor], s.floors, 0);
  }

  /** A whole IRQ, whatever its handler does, gives back the floor and every frame of the code it interrupted. */
  lemma IrqKeepsMainline(s: Run, handler: seq<Event>)
    requires Safe(s) && s.Run? && StaysInside(handler, 0) && OpenAfter(handler, 0) == 0
    ensures var t := Apply(RunAll(Apply(s, EnterIrq), handler), LeaveIrq);
            t.Run? ==>
              t.calls.floor == s.calls.floor && t.floors == s.floors
              && |t.calls.frames| >= |s.calls.frames| && t.calls.frames[..|s.calls.frames|] == s.calls.frames
  {
    var entered := Apply(s, EnterIrq);
    ApplySafe(s, EnterIrq);
    assert s.calls.frames[..|s.calls.frames|] == s.calls.frames;
    RunInside(entered, handler, s.calls.frames, entered.floors, 0);
    assert entered.floors[..|s.floors|] == s.floors;
  }
}
