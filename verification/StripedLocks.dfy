/** The 64 striped re-entrant locks of the review store and the gate in front of them.

    Resource keys are hashed to stripes, so taking keys in sorted order says nothing about the
    order of stripes.  The theorems: critical sections on a common key exclude each other; in every
    reachable state no cyclic wait exists and, unless every thread is outside, some thread can
    move; and a call that is not held up for ever ends.  They hold for every hash function, also
    when a user's key shares the gate's own stripe.
 */
module StripedLocks {

  type Thread = nat
  type Stripe = nat

  const GATE_KEY := "vpn-user-provisioning-gate"

  /** Where a thread is in mutation_locks or resource_locks.  Of the keys, those before taken are
      locked; keepGate tells resource_locks, which holds the gate to the end, from mutation_locks,
      which releases it once all keys are locked.  A leaving thread unwinds its lock stack. */
  datatype Phase =
    | Outside
    | Entering(keys: seq<string>, keepGate: bool)
    | Acquiring(keys: seq<string>, taken: nat, keepGate: bool)
    | Inside(keys: seq<string>, keepGate: bool)
    | Leaving

  /** held counts re-entrant acquisitions of each stripe. */
  datatype ThreadState = ThreadState(phase: Phase, held: multiset<Stripe>)

  type State = map<Thread, ThreadState>

  datatype Step =
    | Call(t: Thread, keys: seq<string>, keepGate: bool)
    | TakeGate(t: Thread)
    | TakeNext(t: Thread)
    | PassGate(t: Thread)
    | Abort(t: Thread)                     // a coordination error unwinds the lock stack
    | Exit(t: Thread)                      // the end of the critical section
    | Release(t: Thread, stripe: Stripe)
    | Return(t: Thread)

  /** A stripe another thread holds cannot be acquired; the own stripe is re-entrant. */
  predicate Free(s: State, t: Thread, stripe: Stripe) {
    forall u | u in s && u != t :: stripe !in s[u].held
  }

  /** The stripe a thread is trying to acquire, if any. */
  predicate Wants(s: State, slot: string -> Stripe, t: Thread, stripe: Stripe) {
    && t in s
    && match s[t].phase
       case Entering(_, _) => stripe == slot(GATE_KEY)
       case Acquiring(keys, taken, _) => taken < |keys| && stripe == slot(keys[taken])
       case _ => false
  }

  /** The step fits what the thread is doing. */
  predicate Ready(thread: ThreadState, step: Step) {
    match step
    case Call(_, _, _) => thread.phase.Outside?
    case TakeGate(_) => thread.phase.Entering?
    case TakeNext(_) => thread.phase.Acquiring? && thread.phase.taken < |thread.phase.keys|
    case PassGate(_) => thread.phase.Acquiring? && thread.phase.taken >= |thread.phase.keys|
    case Abort(_) => thread.phase.Acquiring?
    case Exit(_) => thread.phase.Inside?
    case Release(_, stripe) => thread.phase.Leaving? && stripe in thread.held
    case Return(_) => thread.phase.Leaving? && thread.held == multiset{}
  }

  predicate Enabled(s: State, slot: string -> Stripe, step: Step) {
    && step.t in s && Ready(s[step.t], step)
    && (step.TakeGate? ==> Free(s, step.t, slot(GATE_KEY)))
    && (step.TakeNext? ==> Free(s, step.t, slot(s[step.t].phase.keys[s[step.t].phase.taken])))
  }

  function After(thread: ThreadState, slot: string -> Stripe, step: Step): ThreadState {
    match step
    case Call(_, keys, keepGate) => ThreadState(Entering(keys, keepGate), thread.held)
    case TakeGate(_) =>
      if thread.phase.Entering?
      then ThreadState(Acquiring(thread.phase.keys, 0, thread.phase.keepGate), thread.held + multiset{slot(GATE_KEY)})
      else thread
    case TakeNext(_) =>
      if thread.phase.Acquiring? && thread.phase.taken < |thread.phase.keys|
      then ThreadState(thread.phase.(taken := thread.phase.taken + 1),
                       thread.held + multiset{slot(thread.phase.keys[thread.phase.taken])})
      else thread
    case PassGate(_) =>
      if thread.phase.Acquiring?
      then ThreadState(Inside(thread.phase.keys, thread.phase.keepGate),
                       if thread.phase.keepGate then thread.held else thread.held - multiset{slot(GATE_KEY)})
      else thread
    case Abort(_) => ThreadState(Leaving, thread.held)
    case Exit(_) => ThreadState(Leaving, thread.held)
    case Release(_, stripe) => thread.(held := thread.held - multiset{stripe})
    case Return(_) => ThreadState(Outside, thread.held)
  }

  function Do(s: State, slot: string -> Stripe, step: Step): State
    requires Enabled(s, slot, step)
  {
    s[step.t := After(s[step.t], slot, step)]
  }

  // ----- The invariant -------------------------------------------------------------------------

  ghost predicate Exclusive(s: State) {
    forall t, u, stripe | t in s && u in s && t != u :: !(stripe in s[t].held && stripe in s[u].held)
  }

  /** The stripes of the keys, each as often as there are keys on it. */
  ghost function StripesOf(slot: string -> Stripe, keys: seq<string>): multiset<Stripe> {
    if keys == [] then multiset{} else StripesOf(slot, keys[..|keys| - 1]) + multiset{slot(keys[|keys| - 1])}
  }

  /** What a thread holds: nothing before the gate, then the gate and the keys locked so far, and
      inside exactly its keys, with the gate if it keeps it. */
  ghost predicate HoldsItsKeys(thread: ThreadState, slot: string -> Stripe) {
    match thread.phase
    case Outside => thread.held == multiset{}
    case Entering(_, _) => thread.held == multiset{}
    case Acquiring(keys, taken, _) =>
      taken <= |keys| && thread.held == StripesOf(slot, keys[..taken]) + multiset{slot(GATE_KEY)}
    case Inside(keys, keepGate) =>
      thread.held == StripesOf(slot, keys) + (if keepGate then multiset{slot(GATE_KEY)} else multiset{})
    case Leaving => true
  }

  ghost predicate Invariant(s: State, slot: string -> Stripe) {
    Exclusive(s) && forall t | t in s :: HoldsItsKeys(s[t], slot)
  }

  /** All threads are outside and hold nothing. */
  ghost predicate Initial(s: State) {
    forall t | t in s :: s[t] == ThreadState(Outside, multiset{})
  }

  /** A step only adds a stripe that no other thread holds. */
  lemma {:induction false} NewStripesAreFree(s: State, slot: string -> Stripe, step: Step, stripe: Stripe)
    requires Enabled(s, slot, step)
    requires stripe in After(s[step.t], slot, step).held && stripe !in s[step.t].held
    ensures Free(s, step.t, stripe)
  {
    hide Free;
  }

  lemma {:induction false} StepKeepsKeys(thread: ThreadState, slot: string -> Stripe, step: Step)
    requires Ready(thread, step) && HoldsItsKeys(thread, slot)
    ensures HoldsItsKeys(After(thread, slot, step), slot)
  {
    if step.TakeGate? {
      TakingGate(thread, slot, step);
    } else if step.TakeNext? {
      TakingNext(thread, slot, step);
    } else if step.PassGate? {
      PassingGate(thread, slot, step);
    } else {
      hide StripesOf;
    }
  }

  lemma {:induction false} TakingGate(thread: ThreadState, slot: string -> Stripe, step: Step)
    requires step.TakeGate? && Ready(thread, step) && HoldsItsKeys(thread, slot)
    ensures HoldsItsKeys(After(thread, slot, step), slot)
  {
    hide StripesOf;
    NoKeys(slot, thread.phase.keys[..0]);
  }

  lemma {:induction false} TakingNext(thread: ThreadState, slot: string -> Stripe, step: Step)
    requires step.TakeNext? && Ready(thread, step) && HoldsItsKeys(thread, slot)
    ensures HoldsItsKeys(After(thread, slot, step), slot)
  {
    hide StripesOf;
    var phase := thread.phase;
    OneMoreKey(slot, phase.keys, phase.taken);
    AddedInAnyOrder(StripesOf(slot, phase.keys[..phase.taken]), slot(GATE_KEY), slot(phase.keys[phase.taken]));
  }

  lemma {:induction false} PassingGate(thread: ThreadState, slot: string -> Stripe, step: Step)
    requires step.PassGate? && Ready(thread, step) && HoldsItsKeys(thread, slot)
    ensures HoldsItsKeys(After(thread, slot, step), slot)
  {
    hide StripesOf;
    var phase := thread.phase;
    assert phase.keys[..phase.taken] == phase.keys;
    AddedAndRemoved(StripesOf(slot, phase.keys), slot(GATE_KEY));
  }

  lemma {:induction false} OneMoreKey(slot: string -> Stripe, keys: seq<string>, taken: nat)
    requires taken < |keys|
    ensures StripesOf(slot, keys[..taken + 1]) == StripesOf(slot, keys[..taken]) + multiset{slot(keys[taken])}
  {
    var more := keys[..taken + 1];
    assert more[..|more| - 1] == keys[..taken] && more[|more| - 1] == keys[taken];
  }

  lemma {:induction false} NoKeys(slot: string -> Stripe, keys: seq<string>)
    requires keys == []
    ensures StripesOf(slot, keys) == multiset{}
  {
  }

  lemma {:induction false} AddedInAnyOrder(held: multiset<Stripe>, a: Stripe, b: Stripe)
    ensures held + multiset{a} + multiset{b} == held + multiset{b} + multiset{a}
  {
  }

  lemma {:induction false} AddedAndRemoved(held: multiset<Stripe>, a: Stripe)
    ensures held + multiset{a} - multiset{a} == held == held + multiset{}
  {
  }

  lemma {:induction false} StepKeepsInvariant(s: State, slot: string -> Stripe, step: Step)
    requires Invariant(s, slot) && Enabled(s, slot, step)
    ensures Invariant(Do(s, slot, step), slot)
  {
    assert step.t in s;
    StepKeepsKeys(s[step.t], slot, step);
    hide Enabled, After, HoldsItsKeys;
    var s' := Do(s, slot, step);
    forall t, u, stripe | t in s' && u in s' && t != u
      ensures !(stripe in s'[t].held && stripe in s'[u].held)
    {
      if t == step.t && stripe in s'[t].held && stripe !in s[t].held {
        NewStripesAreFree(s, slot, step, stripe);
      } else if u == step.t && stripe in s'[u].held && stripe !in s[u].held {
        NewStripesAreFree(s, slot, step, stripe);
      }
    }
  }

  /** The states a run passes through. */
  ghost predicate IsRun(states: seq<State>, slot: string -> Stripe, steps: seq<Step>) {
    && |states| == |steps| + 1
    && Initial(states[0])
    && forall i | 0 <= i < |steps| :: Enabled(states[i], slot, steps[i]) && states[i + 1] == Do(states[i], slot, steps[i])
  }

  lemma {:induction false} ReachableStatesAreSafe(states: seq<State>, slot: string -> Stripe, steps: seq<Step>, i: nat)
    requires IsRun(states, slot, steps) && i < |states|
    ensures Invariant(states[i], slot)
  {
    if i > 0 {
      ReachableStatesAreSafe(states, slot, steps, i - 1);
      StepKeepsInvariant(states[i - 1], slot, steps[i - 1]);
    }
  }

  lemma {:induction false} LockedKey(slot: string -> Stripe, keys: seq<string>, key: string)
    requires key in keys
    ensures slot(key) in StripesOf(slot, keys)
  {
    if key != keys[|keys| - 1] {
      LockedKey(slot, keys[..|keys| - 1], key);
    }
  }

  lemma {:induction false} InsideHoldsKeys(thread: ThreadState, slot: string -> Stripe)
    requires HoldsItsKeys(thread, slot) && thread.phase.Inside?
    ensures forall key | key in thread.phase.keys :: slot(key) in thread.held
    ensures thread.phase.keepGate ==> slot(GATE_KEY) in thread.held
  {
    forall key | key in thread.phase.keys
      ensures slot(key) in thread.held
    {
      LockedKey(slot, thread.phase.keys, key);
    }
  }

  lemma {:induction false} AcquiringHoldsGate(thread: ThreadState, slot: string -> Stripe)
    requires HoldsItsKeys(thread, slot) && thread.phase.Acquiring?
    ensures slot(GATE_KEY) in thread.held
  {
    hide StripesOf;
  }

  /** Critical sections on a common key exclude each other, and so do two that keep the gate; while
      one keeps the gate, no thread acquires keys.  A thread inside has all of its keys locked. */
  lemma {:induction false} CriticalSectionsExclude(states: seq<State>, slot: string -> Stripe, steps: seq<Step>, i: nat,
                                                   t: Thread, u: Thread)
    requires IsRun(states, slot, steps) && i < |states| && t in states[i] && u in states[i] && states[i][t].phase.Inside?
    ensures forall key | key in states[i][t].phase.keys :: slot(key) in states[i][t].held
    ensures t != u && states[i][u].phase.Inside? ==>
              (forall key | key in states[i][t].phase.keys :: key !in states[i][u].phase.keys)
              && !(states[i][t].phase.keepGate && states[i][u].phase.keepGate)
    ensures states[i][t].phase.keepGate ==> !states[i][u].phase.Acquiring?
  {
    hide HoldsItsKeys, IsRun;
    ReachableStatesAreSafe(states, slot, steps, i);
    var s := states[i];
    InsideHoldsKeys(s[t], slot);
    if s[u].phase.Inside? {
      InsideHoldsKeys(s[u], slot);
    } else if s[u].phase.Acquiring? {
      AcquiringHoldsGate(s[u], slot);
    }
  }

  // ----- Deadlock freedom ------------------------------------------------------------------------

  /** t is blocked on a stripe that u holds. */
  ghost predicate WaitsFor(s: State, slot: string -> Stripe, t: Thread, u: Thread) {
    t != u && u in s && exists stripe :: Wants(s, slot, t, stripe) && stripe in s[u].held
  }

  /** A thread inside a call is held up exactly while another thread holds the stripe it wants. */
  lemma {:induction false} HeldUpIsWaiting(s: State, slot: string -> Stripe, t: Thread)
    requires Invariant(s, slot) && t in s && !s[t].phase.Outside?
    ensures (exists step: Step :: step.t == t && MovesOn(step) && Enabled(s, slot, step)) <==> !exists u :: WaitsFor(s, slot, t, u)
  {
    hide Invariant;
    if s[t].phase.Leaving? || s[t].phase.Inside? {
      var step := FreeThreadMoves(s, slot, t);
    } else {
      EnteringOrAcquiring(s, slot, t);
    }
  }

  lemma {:induction false} EnteringOrAcquiring(s: State, slot: string -> Stripe, t: Thread)
    requires t in s && (s[t].phase.Entering? || s[t].phase.Acquiring?)
    ensures (exists step: Step :: step.t == t && MovesOn(step) && Enabled(s, slot, step)) <==> !exists u :: WaitsFor(s, slot, t, u)
  {
    var phase := s[t].phase;
    if phase.Acquiring? && phase.taken >= |phase.keys| {
      assert Enabled(s, slot, PassGate(t)) && MovesOn(PassGate(t)) && PassGate(t).t == t;
    } else {
      var stripe := if phase.Entering? then slot(GATE_KEY) else slot(phase.keys[phase.taken]);
      var next := if phase.Entering? then TakeGate(t) else TakeNext(t);
      assert Wants(s, slot, t, stripe) && next.t == t && MovesOn(next);
      assert forall step: Step | step.t == t && MovesOn(step) && Enabled(s, slot, step) :: step == next;
      assert Enabled(s, slot, next) <==> Free(s, t, stripe);
      if !Free(s, t, stripe) {
        var u :| u in s && u != t && stripe in s[u].held;
        assert WaitsFor(s, slot, t, u);
      }
    }
  }

  /** A thread that is waited for and itself waits holds the gate: only the gate holder ever
      waits on another stripe. */
  lemma {:induction false} OnlyGateHolderWaitsHolding(s: State, slot: string -> Stripe, t: Thread, u: Thread, v: Thread)
    requires Invariant(s, slot) && WaitsFor(s, slot, t, u) && WaitsFor(s, slot, u, v)
    ensures u in s && s[u].phase.Acquiring? && slot(GATE_KEY) in s[u].held
    ensures v in s && (s[v].phase.Inside? || s[v].phase.Leaving?)
  {
    var stripe :| Wants(s, slot, t, stripe) && stripe in s[u].held;
    assert HoldsItsKeys(s[u], slot) && s[u].held != multiset{};
    var other :| Wants(s, slot, u, other) && other in s[v].held;
    assert HoldsItsKeys(s[v], slot) && s[v].held != multiset{};
    assert slot(GATE_KEY) in s[u].held;
  }

  /** t waits for no member of the set. */
  ghost predicate WaitsForNone(s: State, slot: string -> Stripe, t: Thread, others: set<Thread>) {
    forall u | u in others :: !WaitsFor(s, slot, t, u)
  }

  lemma {:induction false} InsideWaitsForNone(s: State, slot: string -> Stripe, t: Thread, others: set<Thread>)
    requires t in s && (s[t].phase.Inside? || s[t].phase.Leaving?)
    ensures WaitsForNone(s, slot, t, others)
  {
  }

  lemma {:induction false} EndOfWaitChain(s: State, slot: string -> Stripe, waiting: set<Thread>) returns (t: Thread)
    requires Invariant(s, slot) && waiting != {}
    ensures t in waiting && WaitsForNone(s, slot, t, waiting)
  {
    hide Invariant, WaitsFor;
    t :| t in waiting;
    if u :| u in waiting && WaitsFor(s, slot, t, u) {
      if v :| v in waiting && WaitsFor(s, slot, u, v) {
        OnlyGateHolderWaitsHolding(s, slot, t, u, v);
        InsideWaitsForNone(s, slot, v, waiting);
        t := v;
      } else {
        t := u;
      }
    }
  }

  /** No set of threads is deadlocked: in every reachable state, some thread of any non-empty set
      waits for no member of the set.  In particular there is no cyclic wait. */
  lemma {:induction false} NoDeadlock(states: seq<State>, slot: string -> Stripe, steps: seq<Step>, i: nat, waiting: set<Thread>)
    requires IsRun(states, slot, steps) && i < |states| && waiting != {}
    ensures exists t :: t in waiting && WaitsForNone(states[i], slot, t, waiting)
  {
    ReachableStatesAreSafe(states, slot, steps, i);
    var t := EndOfWaitChain(states[i], slot, waiting);
  }

  /** A step that goes on with a call, rather than starting one or giving it up. */
  predicate MovesOn(step: Step) { !step.Call? && !step.Abort? }

  /** In every reachable state, unless all threads are outside, some thread can move on. */
  lemma {:induction false} SomeThreadMoves(s: State, slot: string -> Stripe, t: Thread) returns (step: Step)
    requires Invariant(s, slot) && t in s && !s[t].phase.Outside?
    ensures Enabled(s, slot, step) && MovesOn(step)
  {
    hide Invariant;
    if u :| u in s && (s[u].phase.Inside? || s[u].phase.Leaving?) {
      step := FreeThreadMoves(s, slot, u);
    } else if u :| u in s && s[u].phase.Acquiring? {
      step := if s[u].phase.taken >= |s[u].phase.keys| then PassGate(u) else TakeNext(u);
      OthersHoldNothing(s, slot, u);
    } else {
      step := TakeGate(t);
      NoneHolds(s, slot);
    }
  }

  /** When no thread is inside or leaving, one that acquires keys is the only one that holds any. */
  lemma {:induction false} OthersHoldNothing(s: State, slot: string -> Stripe, u: Thread)
    requires Invariant(s, slot) && u in s && s[u].phase.Acquiring?
    requires forall v | v in s :: !s[v].phase.Inside? && !s[v].phase.Leaving?
    ensures forall v | v in s && v != u :: s[v].held == multiset{}
  {
    assert HoldsItsKeys(s[u], slot) && slot(GATE_KEY) in s[u].held;
    forall v | v in s && v != u
      ensures s[v].held == multiset{}
    {
      assert HoldsItsKeys(s[v], slot);
      assert slot(GATE_KEY) !in s[v].held;
    }
  }

  lemma {:induction false} NoneHolds(s: State, slot: string -> Stripe)
    requires Invariant(s, slot)
    requires forall v | v in s :: s[v].phase.Outside? || s[v].phase.Entering?
    ensures forall v | v in s :: s[v].held == multiset{}
  {
  }

  lemma {:induction false} FreeThreadMoves(s: State, slot: string -> Stripe, u: Thread) returns (step: Step)
    requires u in s && (s[u].phase.Inside? || s[u].phase.Leaving?)
    ensures Enabled(s, slot, step) && MovesOn(step) && step.t == u
    ensures forall v :: !WaitsFor(s, slot, u, v)
  {
    if s[u].phase.Inside? {
      step := Exit(u);
    } else if s[u].held == multiset{} {
      step := Return(u);
    } else {
      var stripe :| stripe in s[u].held;
      step := Release(u, stripe);
    }
  }

  /** What a thread still has to do in its call. */
  ghost function Work(thread: ThreadState): nat {
    match thread.phase
    case Outside => 0
    case Entering(keys, _) => 2 * |keys| + 5
    case Acquiring(keys, taken, _) => (if taken < |keys| then 2 * (|keys| - taken) else 0) + |thread.held| + 3
    case Inside(_, _) => |thread.held| + 2
    case Leaving => |thread.held| + 1
  }

  lemma {:induction false} EnteringHoldsNothing(thread: ThreadState, slot: string -> Stripe)
    requires HoldsItsKeys(thread, slot) && thread.phase.Entering?
    ensures |thread.held| == 0
  {
    hide StripesOf;
  }

  lemma {:induction false} HeldCounts(held: multiset<Stripe>, stripe: Stripe)
    ensures |held + multiset{stripe}| == |held| + 1
    ensures |held - multiset{stripe}| == if stripe in held then |held| - 1 else |held|
  {
    if stripe !in held {
      assert held - multiset{stripe} == held;
    }
  }

  lemma {:induction false} GateWork(thread: ThreadState, slot: string -> Stripe, step: Step)
    requires step.TakeGate? && Ready(thread, step) && HoldsItsKeys(thread, slot)
    ensures Work(After(thread, slot, step)) < Work(thread)
  {
    hide HoldsItsKeys;
    EnteringHoldsNothing(thread, slot);
    HeldCounts(thread.held, slot(GATE_KEY));
  }

  lemma {:induction false} NextWork(thread: ThreadState, slot: string -> Stripe, step: Step)
    requires step.TakeNext? && Ready(thread, step) && HoldsItsKeys(thread, slot)
    ensures Work(After(thread, slot, step)) < Work(thread)
  {
    hide HoldsItsKeys;
    HeldCounts(thread.held, slot(thread.phase.keys[thread.phase.taken]));
  }

  lemma {:induction false} PassWork(thread: ThreadState, slot: string -> Stripe, step: Step)
    requires step.PassGate? && Ready(thread, step) && HoldsItsKeys(thread, slot)
    ensures Work(After(thread, slot, step)) < Work(thread)
  {
    hide HoldsItsKeys;
    HeldCounts(thread.held, slot(GATE_KEY));
  }

  lemma {:induction false} ReleaseWork(thread: ThreadState, slot: string -> Stripe, step: Step)
    requires step.Release? && Ready(thread, step) && HoldsItsKeys(thread, slot)
    ensures Work(After(thread, slot, step)) < Work(thread)
  {
    hide HoldsItsKeys;
    HeldCounts(thread.held, step.stripe);
  }

  lemma {:induction false} WorkFalls(thread: ThreadState, slot: string -> Stripe, step: Step)
    requires Ready(thread, step) && HoldsItsKeys(thread, slot) && MovesOn(step)
    ensures Work(After(thread, slot, step)) < Work(thread)
  {
    if step.TakeGate? {
      GateWork(thread, slot, step);
    } else if step.TakeNext? {
      NextWork(thread, slot, step);
    } else if step.PassGate? {
      PassWork(thread, slot, step);
    } else if step.Release? {
      ReleaseWork(thread, slot, step);
    } else {
      hide HoldsItsKeys;
    }
  }

  lemma {:induction false} NoWorkIsOutside(thread: ThreadState, slot: string -> Stripe)
    requires HoldsItsKeys(thread, slot) && Work(thread) == 0
    ensures thread == ThreadState(Outside, multiset{})
  {
    hide StripesOf;
  }

  /** Every step that goes on with a call brings its end nearer, and it changes no other thread: a
      call that is not held up for ever ends, outside, with nothing held. */
  lemma {:induction false} CallsEnd(s: State, slot: string -> Stripe, step: Step)
    requires Invariant(s, slot) && Enabled(s, slot, step) && MovesOn(step)
    ensures var s' := Do(s, slot, step);
            && Work(s'[step.t]) < Work(s[step.t])
            && (Work(s'[step.t]) == 0 ==> s'[step.t] == ThreadState(Outside, multiset{}))
            && forall u | u in s && u != step.t :: u in s' && s'[u] == s[u]
  {
    hide HoldsItsKeys, After, Work, Ready, MovesOn;
    WorkFalls(s[step.t], slot, step);
    StepKeepsKeys(s[step.t], slot, step);
    if Work(Do(s, slot, step)[step.t]) == 0 {
      NoWorkIsOutside(Do(s, slot, step)[step.t], slot);
    }
  }

  /** The last release of a stripe frees it for every thread. */
  lemma {:induction false} ReleaseFrees(s: State, slot: string -> Stripe, t: Thread, stripe: Stripe)
    requires Invariant(s, slot) && Enabled(s, slot, Release(t, stripe)) && s[t].held[stripe] == 1
    ensures forall u :: Free(Do(s, slot, Release(t, stripe)), u, stripe)
  {
    assert stripe in s[t].held;
  }

  // ----- The gate sorts first -----------------------------------------------------------------------

  /** Lexicographic order of strings by code point, as Python sorts them. */
  predicate Precedes(a: string, b: string) {
    if a == [] then b != []
    else if b == [] then false
    else a[0] < b[0] || (a[0] == b[0] && Precedes(a[1..], b[1..]))
  }

  /** The order is a strict total one: of two strings exactly one precedes the other, or they are
      equal, and a prefix comes first. */
  lemma {:induction false} OrderIsTotal(a: string, b: string)
    ensures (Precedes(a, b) && !Precedes(b, a) && a != b) || (Precedes(b, a) && !Precedes(a, b) && a != b)
            || (a == b && !Precedes(a, b))
    ensures a < b ==> Precedes(a, b)
  {
    if a != [] && b != [] {
      OrderIsTotal(a[1..], b[1..]);
      assert a == [a[0]] + a[1..] && b == [b[0]] + b[1..];
    }
  }

  lemma {:induction false} OrderIsTransitive(a: string, b: string, c: string)
    requires Precedes(a, b) && Precedes(b, c)
    ensures Precedes(a, c)
  {
    if a != [] && a[0] == b[0] == c[0] {
      OrderIsTransitive(a[1..], b[1..], c[1..]);
    }
  }

  lemma {:induction false} CommonPrefix(p: string, a: string, b: string)
    ensures Precedes(p + a, p + b) <==> Precedes(a, b)
  {
    if p == [] {
      assert p + a == a && p + b == b;
    } else {
      assert (p + a)[1..] == p[1..] + a && (p + b)[1..] == p[1..] + b;
      CommonPrefix(p[1..], a, b);
    }
  }

  /** Sorting the keys of resource_locks puts the gate before every user key. */
  lemma {:induction false} GateSortsFirst(name: string)
    ensures Precedes(GATE_KEY, "vpn-username:" + name)
    ensures Precedes(GATE_KEY, "vpn-user:" + name)
  {
    var p := "vpn-user";
    assert GATE_KEY == p + "-provisioning-gate";
    assert "vpn-username:" + name == p + ("name:" + name);
    assert "vpn-user:" + name == p + (":" + name);
    CommonPrefix(p, "-provisioning-gate", "name:" + name);
    CommonPrefix(p, "-provisioning-gate", ":" + name);
  }
}
