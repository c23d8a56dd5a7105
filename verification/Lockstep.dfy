// The lockstep protocol between the guest thread (record_checkpoint, cosim_on_tick) and the coordinator's
// "step" command (cosim.cpp:80-95, 126-140, 292-299), with each read-and-write of the budget one atomic step.
module Lockstep {
  /** Where the guest thread is: between ticks; past a recorded checkpoint and about to look at the budget; about to
      take a unit of it; asleep; or woken and about to take the unit it saw. */
  datatype Where = Between | Recorded | Taking | Waiting | Woken

  /** The shared variables, and what a log of both threads would show: the cycle each checkpoint was stamped with,
      the checkpoints granted, the units of budget taken. */
  datatype State = State(now: nat, next: nat, at: Where, budget: int, parked: bool,
                         stamps: seq<nat>, granted: nat, consumed: nat)

  datatype Event =
    | Tick(cycles: nat)     // the guest runs on
    | Record                // a boundary has been crossed: stamp it
    | Check                 // budget left, or park
    | Take                  // the early return of record_checkpoint
    | Wake                  // the waiting loop sees budget
    | TakeWoken             // the end of record_checkpoint
    | Grant(n: nat)         // the coordinator's "step n"

  function Start(first: nat): State {
    State(0, first, Between, 0, false, [], 0, 0)
  }

  predicate Enabled(s: State, e: Event) {
    match e
    case Tick(_) => s.at.Between? && s.now < s.next
    case Record => s.at.Between? && s.now >= s.next
    case Check => s.at.Recorded?
    case Take => s.at.Taking?
    case Wake => s.at.Waiting? && s.budget > 0
    case TakeWoken => s.at.Woken?
    case Grant(_) => true
  }

  /** The next boundary is due one stride later, and the guest goes on. */
  function Resume(s: State, stride: nat): State {
    s.(budget := s.budget - 1, consumed := s.consumed + 1, next := s.next + stride, at := Between)
  }

  function Step(s: State, e: Event, stride: nat): State
    requires Enabled(s, e)
  {
    match e
    case Tick(n) => s.(now := s.now + n)
    case Record => s.(stamps := s.stamps + [s.next], at := Recorded)
    case Check => if s.budget > 0 then s.(at := Taking) else s.(parked := true, at := Waiting)
    case Take => Resume(s, stride)
    case Wake => s.(parked := false, at := Woken)
    case TakeWoken => Resume(s, stride)
    case Grant(n) => s.(budget := s.budget + n, granted := s.granted + n)
  }

  /** An interleaving of the two threads from s. */
  predicate CanRun(s: State, es: seq<Event>, stride: nat)
    decreases es
  {
    es == [] || (Enabled(s, es[0]) && CanRun(Step(s, es[0], stride), es[1..], stride))
  }

  function RunAll(s: State, es: seq<Event>, stride: nat): State
    requires CanRun(s, es, stride)
    decreases es
  {
    if es == [] then s else RunAll(Step(s, es[0], stride), es[1..], stride)
  }

  // ----- The invariant -------------------------------------------------------------------------

  /** A checkpoint is recorded and its unit of budget not yet taken. */
  predicate Owing(s: State) {
    !s.at.Between?
  }

  ghost predicate Inv(s: State, first: nat, stride: nat) {
    && s.granted == s.consumed + s.budget && s.budget >= 0
    && |s.stamps| == s.consumed + (if Owing(s) then 1 else 0)
    && s.next == first + s.consumed * stride
    && (forall k | 0 <= k < |s.stamps| :: s.stamps[k] == first + k * stride)
    && (s.at.Taking? || s.at.Woken? ==> s.budget > 0)
    && (s.parked <==> s.at.Waiting?)
    && (Owing(s) ==> s.now >= s.next)
    && (forall k | 0 <= k < |s.stamps| :: s.stamps[k] <= s.now)
  }

  lemma StartInv(first: nat, stride: nat)
    ensures Inv(Start(first), first, stride)
  {}

  lemma StepInv(s: State, e: Event, first: nat, stride: nat)
    requires Inv(s, first, stride) && Enabled(s, e)
    ensures Inv(Step(s, e, stride), first, stride)
  {
    if e.Take? || e.TakeWoken? {
      assert (s.consumed + 1) * stride == s.consumed * stride + stride;
    }
  }

  lemma {:induction false} RunInv(s: State, es: seq<Event>, first: nat, stride: nat)
    requires Inv(s, first, stride) && CanRun(s, es, stride)
    ensures Inv(RunAll(s, es, stride), first, stride)
    decreases es
  {
    if es != [] {
      StepInv(s, es[0], first, stride);
      RunInv(Step(s, es[0], stride), es[1..], first, stride);
    }
  }

  // ----- What the coordinator can rely on ------------------------------------------------------------

  /** In every interleaving nothing granted is lost, at most one checkpoint is ahead of the grants, and the k-th
      checkpoint, counting from 0, is stamped start + k * stride, however the ticks are batched. */
  lemma EveryInterleaving(first: nat, es: seq<Event>, stride: nat)
    requires CanRun(Start(first), es, stride)
    ensures var t := RunAll(Start(first), es, stride);
            && t.granted == t.consumed + t.budget && t.budget >= 0
            && |t.stamps| <= t.granted + 1
            && (forall k | 0 <= k < |t.stamps| :: t.stamps[k] == first + k * stride)
  {
    StartInv(first, stride);
    RunInv(Start(first), es, first, stride);
  }

  /** The cycles ticked and the checkpoints granted in a log. */
  function Ticked(es: seq<Event>): nat {
    if es == [] then 0 else (if es[0].Tick? then es[0].cycles else 0) + Ticked(es[1..])
  }

  function GrantedIn(es: seq<Event>): nat {
    if es == [] then 0 else (if es[0].Grant? then es[0].n else 0) + GrantedIn(es[1..])
  }

  function TakenIn(es: seq<Event>): nat {
    if es == [] then 0 else (if es[0].Take? || es[0].TakeWoken? then 1 else 0) + TakenIn(es[1..])
  }

  /** The books are those of the log: guest time is the cycles ticked, and only ticks pass time; the budget is what the
      coordinator granted less what the guest took. */
  lemma {:induction false} BooksMatchLog(s: State, es: seq<Event>, stride: nat)
    requires CanRun(s, es, stride)
    ensures var t := RunAll(s, es, stride);
            && t.now == s.now + Ticked(es)
            && t.granted == s.granted + GrantedIn(es) && t.consumed == s.consumed + TakenIn(es)
            && t.budget == s.budget + GrantedIn(es) - TakenIn(es)
    decreases es
  {
    if es != [] { BooksMatchLog(Step(s, es[0], stride), es[1..], stride); }
  }

  /** A parked guest with no budget has recorded exactly one checkpoint more than it was granted. */
  lemma ParkedExactly(first: nat, es: seq<Event>, stride: nat)
    requires CanRun(Start(first), es, stride)
    ensures var t := RunAll(Start(first), es, stride);
            t.parked && t.budget == 0 ==> |t.stamps| == t.granted + 1
  {
    StartInv(first, stride);
    RunInv(Start(first), es, first, stride);
  }

  /** Two instances given the same grants and parked without budget have recorded the same checkpoints at the same
      cycles, whatever their timing. */
  lemma InstancesAlign(first: nat, es: seq<Event>, fs: seq<Event>, stride: nat)
    requires CanRun(Start(first), es, stride) && CanRun(Start(first), fs, stride)
    ensures var s := RunAll(Start(first), es, stride);
            var t := RunAll(Start(first), fs, stride);
            s.parked && t.parked && s.budget == 0 == t.budget && s.granted == t.granted ==> s.stamps == t.stamps
  {
    StartInv(first, stride);
    RunInv(Start(first), es, first, stride);
    RunInv(Start(first), fs, first, stride);
  }

  /** Between ticks with no boundary due, the recorded checkpoints are exactly the boundaries up to now. */
  lemma BoundariesCovered(first: nat, es: seq<Event>, stride: nat, k: nat)
    requires CanRun(Start(first), es, stride) && stride > 0
    ensures var t := RunAll(Start(first), es, stride);
            t.at.Between? && t.now < t.next ==> (k < |t.stamps| <==> first + k * stride <= t.now)
  {
    StartInv(first, stride);
    RunInv(Start(first), es, first, stride);
    var t := RunAll(Start(first), es, stride);
    if t.at.Between? && t.now < t.next {
      if k < |t.stamps| { assert t.stamps[k] == first + k * stride; }
      else { Scaled(t.consumed, k, stride); }
    }
  }

  lemma Scaled(a: nat, b: nat, stride: nat)
    requires a <= b
    ensures a * stride <= b * stride
  {}

  /** Neither thread can be stuck while there is budget: the guest always has a step of its own. */
  lemma GuestNeverStuck(first: nat, es: seq<Event>, stride: nat)
    requires CanRun(Start(first), es, stride)
    ensures var t := RunAll(Start(first), es, stride);
            (exists e: Event :: !e.Grant? && Enabled(t, e)) <==> !(t.parked && t.budget == 0)
  {
    StartInv(first, stride);
    RunInv(Start(first), es, first, stride);
    var t := RunAll(Start(first), es, stride);
    match t.at
    case Between => if t.now < t.next { assert Enabled(t, Tick(0)); } else { assert Enabled(t, Record); }
    case Recorded => assert Enabled(t, Check);
    case Taking => assert Enabled(t, Take);
    case Waiting => if t.budget > 0 { assert Enabled(t, Wake); }
    case Woken => assert Enabled(t, TakeWoken);
  }
}
