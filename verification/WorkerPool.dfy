/** agent/core_agent/tool_parallel.go: count tasks on goroutines behind a counting semaphore, as a step
    system. Each step is one visible action of the spawning goroutine or of one task; a run is any interleaving. */
module WorkerPool {
  import opened GoStrings

  const MAX_CONCURRENT_TOOL_CALLS := 10

  /** Where the goroutine of one task stands: not spawned; at the send on the semaphore; in fn; at the lock of
      the error; at the deferred receive; at the deferred wg.Done; gone. */
  datatype Pc = Idle | Waiting | Running | Recording | Releasing | Leaving | Gone

  datatype Main = Spawning | Joining | Returned(result: Option<string>)

  datatype State = State(
    pcs: seq<Pc>,
    next: nat,
    sem: int,
    wg: int,
    firstErr: Option<string>,
    main: Main,
    calls: seq<nat>)

  datatype Step =
    | Spawn
    | Join
    | Return
    | Acquire(i: nat)
    | Finish(i: nat)
    | Record(i: nat)
    | Release(i: nat)
    | Leave(i: nat)

  /** The pool: the concurrency asked for, and what fn returns for each index. */
  datatype Pool = Pool(maxConcurrency: int, errors: seq<Option<string>>)

  /** The concurrency that is used; Go's int arguments may be anything. It is what was asked for, or the default when
      that is not positive, but never more than there are tasks. */
  function Capacity(count: nat, maxConcurrency: int): (max: nat)
    ensures 0 < count ==> 0 < max
    ensures 0 < maxConcurrency <= count ==> max == maxConcurrency
    ensures maxConcurrency <= 0 && 10 <= count ==> max == 10
    ensures count < maxConcurrency || (maxConcurrency <= 0 && count < 10) ==> max == count
  {
    var wanted := if maxConcurrency <= 0 then MAX_CONCURRENT_TOOL_CALLS else maxConcurrency;
    if wanted > count then count else wanted
  }

  function Max(p: Pool): nat {
    Capacity(|p.errors|, p.maxConcurrency)
  }

  function Init(p: Pool): State {
    State(seq(|p.errors|, i => Idle), 0, 0, 0, None, Spawning, [])
  }

  predicate At(s: State, i: nat, pc: Pc) {
    i < |s.pcs| && s.pcs[i] == pc
  }

  predicate Enabled(p: Pool, s: State, step: Step) {
    match step
    case Spawn => s.main.Spawning? && s.next < |s.pcs|
    case Join => s.main.Spawning? && s.next == |s.pcs|
    case Return => s.main.Joining? && s.wg == 0
    case Acquire(i) => At(s, i, Waiting) && s.sem < Max(p)
    case Finish(i) => At(s, i, Running) && i < |p.errors|
    case Record(i) => At(s, i, Recording) && i < |p.errors|
    case Release(i) => At(s, i, Releasing)
    case Leave(i) => At(s, i, Leaving)
  }

  function Goto(s: State, i: nat, pc: Pc): State
    requires i < |s.pcs|
  {
    s.(pcs := s.pcs[i := pc])
  }

  function Apply(p: Pool, s: State, step: Step): State
    requires Enabled(p, s, step)
  {
    match step
    case Spawn => Goto(s, s.next, Waiting).(next := s.next + 1, wg := s.wg + 1)
    case Join => s.(main := Joining)
    case Return => s.(main := Returned(s.firstErr))
    case Acquire(i) => Goto(s, i, Running).(sem := s.sem + 1, calls := s.calls + [i])
    case Finish(i) => Goto(s, i, if p.errors[i].Some? then Recording else Releasing)
    case Record(i) => Goto(s, i, Releasing).(firstErr := if s.firstErr.None? then p.errors[i] else s.firstErr)
    case Release(i) => Goto(s, i, Leaving).(sem := s.sem - 1)
    case Leave(i) => Goto(s, i, Gone).(wg := s.wg - 1)
  }

  /** The states of a run, step by step. */
  predicate Run(p: Pool, steps: seq<Step>, states: seq<State>) {
    && |states| == |steps| + 1 && states[0] == Init(p)
    && forall k ::
        0 <= k < |steps| ==> Enabled(p, states[k], steps[k]) && states[k + 1] == Apply(p, states[k], steps[k])
  }

  // ----- Counting tasks -----

  predicate Holds(pc: Pc) {
    pc.Running? || pc.Recording? || pc.Releasing?
  }

  predicate Alive(pc: Pc) {
    !pc.Idle? && !pc.Gone?
  }

  /** fn was called for the task. */
  predicate Called(pc: Pc) {
    !pc.Idle? && !pc.Waiting?
  }

  /** The error of the task, if any, was offered. */
  predicate Offered(pc: Pc) {
    pc.Releasing? || pc.Leaving? || pc.Gone?
  }

  /** The steps a task has still to make. */
  function ToGo(pc: Pc): nat {
    match pc
    case Idle => 6
    case Waiting => 5
    case Running => 4
    case Recording => 3
    case Releasing => 2
    case Leaving => 1
    case Gone => 0
  }

  function Sum(pcs: seq<Pc>, weight: Pc -> int): int {
    if pcs == [] then 0 else Sum(pcs[..|pcs| - 1], weight) + weight(pcs[|pcs| - 1])
  }

  lemma {:induction false} SumUpdate(pcs: seq<Pc>, i: nat, pc: Pc, weight: Pc -> int)
    requires i < |pcs|
    ensures Sum(pcs[i := pc], weight) == Sum(pcs, weight) - weight(pcs[i]) + weight(pc)
    decreases |pcs|
  {
    var n := |pcs| - 1;
    if i < n {
      SumUpdate(pcs[..n], i, pc, weight);
      assert pcs[i := pc][..n] == pcs[..n][i := pc];
    } else {
      assert pcs[i := pc][..n] == pcs[..n];
    }
  }

  lemma {:induction false} SumOfNone(pcs: seq<Pc>, weight: Pc -> int)
    requires forall i :: 0 <= i < |pcs| ==> weight(pcs[i]) == 0
    ensures Sum(pcs, weight) == 0
    decreases |pcs|
  {
    if pcs != [] {
      SumOfNone(pcs[..|pcs| - 1], weight);
    }
  }

  /** Weights that are never negative add up to at least any one of them. */
  lemma {:induction false} SumAtLeast(pcs: seq<Pc>, i: nat, weight: Pc -> int)
    requires i < |pcs| && forall pc :: weight(pc) >= 0
    ensures Sum(pcs, weight) >= weight(pcs[i])
    decreases |pcs|
  {
    var n := |pcs| - 1;
    SumPositive(pcs[..n], weight);
    if i < n {
      SumAtLeast(pcs[..n], i, weight);
    }
  }

  lemma {:induction false} SumPositive(pcs: seq<Pc>, weight: Pc -> int)
    requires forall pc :: weight(pc) >= 0
    ensures Sum(pcs, weight) >= 0
    decreases |pcs|
  {
    if pcs != [] {
      SumPositive(pcs[..|pcs| - 1], weight);
    }
  }

  /** Some task has a positive weight when the sum is positive. */
  lemma {:induction false} SumWitness(pcs: seq<Pc>, weight: Pc -> int) returns (i: nat)
    requires Sum(pcs, weight) > 0
    ensures i < |pcs| && weight(pcs[i]) > 0
    decreases |pcs|
  {
    var n := |pcs| - 1;
    if weight(pcs[n]) > 0 {
      i := n;
    } else {
      i := SumWitness(pcs[..n], weight);
    }
  }

  const HOLDING: Pc -> int := pc => if Holds(pc) then 1 else 0
  const RUNNING: Pc -> int := pc => if pc == Running then 1 else 0
  const ALIVE: Pc -> int := pc => if Alive(pc) then 1 else 0
  const TO_GO: Pc -> int := pc => ToGo(pc)

  // ----- The invariant -----

  /** The channel holds one token for each task between its send and its receive; the group counts the tasks that are
      not gone. */
  ghost predicate CountsInv(p: Pool, s: State) {
    && s.sem == Sum(s.pcs, HOLDING) && 0 <= s.sem <= Max(p)
    && s.wg == Sum(s.pcs, ALIVE)
  }

  ghost predicate PlacesInv(p: Pool, s: State) {
    && |s.pcs| == |p.errors| && s.next <= |s.pcs|
    && (forall i :: 0 <= i < |s.pcs| ==> (s.pcs[i].Idle? <==> s.next <= i))
    && (!s.main.Spawning? ==> s.next == |s.pcs|)
    && (s.main.Returned? ==> s.wg == 0 && s.main.result == s.firstErr)
  }

  /** fn was called once for each task that got past the semaphore, and for no other. */
  ghost predicate CallsInv(s: State) {
    && (forall k :: 0 <= k < |s.calls| ==> s.calls[k] < |s.pcs| && Called(s.pcs[s.calls[k]]))
    && (forall i :: 0 <= i < |s.pcs| && Called(s.pcs[i]) ==> i in s.calls)
    && forall j, k :: 0 <= j < k < |s.calls| ==> s.calls[j] != s.calls[k]
  }

  /** The error kept is one that a task returned; none is kept only while no task has offered one. */
  ghost predicate ErrorInv(p: Pool, s: State) {
    && |s.pcs| == |p.errors|
    && (s.firstErr.Some? ==> s.firstErr in p.errors)
    && (forall i :: 0 <= i < |s.pcs| && s.pcs[i].Recording? ==> p.errors[i].Some?)
    && forall i :: 0 <= i < |s.pcs| && Offered(s.pcs[i]) && p.errors[i].Some? ==> s.firstErr.Some?
  }

  ghost predicate Inv(p: Pool, s: State) {
    CountsInv(p, s) && PlacesInv(p, s) && CallsInv(s) && ErrorInv(p, s)
  }

  lemma InitInv(p: Pool)
    ensures Inv(p, Init(p))
  {
    SumOfNone(Init(p).pcs, HOLDING);
    SumOfNone(Init(p).pcs, ALIVE);
  }

  /** The task that a step moves, and where to. */
  function Moved(p: Pool, s: State, step: Step): Option<(nat, Pc)>
    requires Enabled(p, s, step)
  {
    match step
    case Spawn => Some((s.next, Waiting))
    case Join => None
    case Return => None
    case Acquire(i) => Some((i, Running))
    case Finish(i) => Some((i, if p.errors[i].Some? then Recording else Releasing))
    case Record(i) => Some((i, Releasing))
    case Release(i) => Some((i, Leaving))
    case Leave(i) => Some((i, Gone))
  }

  lemma MovedSum(p: Pool, s: State, step: Step, weight: Pc -> int)
    requires Enabled(p, s, step)
    ensures var m := Moved(p, s, step);
            && (m.Some? ==> m.value.0 < |s.pcs| && Apply(p, s, step).pcs == s.pcs[m.value.0 := m.value.1])
            && Sum(Apply(p, s, step).pcs, weight) ==
               Sum(s.pcs, weight) + if m.None? then 0 else weight(m.value.1) - weight(s.pcs[m.value.0])
  {
    hide Sum;
    var m := Moved(p, s, step);
    if m.Some? {
      SumUpdate(s.pcs, m.value.0, m.value.1, weight);
    }
  }

  lemma CountsStep(p: Pool, s: State, step: Step)
    requires Inv(p, s) && Enabled(p, s, step)
    ensures CountsInv(p, Apply(p, s, step))
  {
    hide Sum, CallsInv, ErrorInv;
    MovedSum(p, s, step, HOLDING);
    MovedSum(p, s, step, ALIVE);
    SumPositive(Apply(p, s, step).pcs, HOLDING);
  }

  lemma PlacesStep(p: Pool, s: State, step: Step)
    requires Inv(p, s) && Enabled(p, s, step)
    ensures PlacesInv(p, Apply(p, s, step))
  {
    hide Sum, CallsInv, ErrorInv;
    if s.main.Returned? {
      NobodyLeft(p, s);
    }
  }

  /** When the group is empty and everything is spawned, every task is gone. */
  lemma NobodyLeft(p: Pool, s: State)
    requires CountsInv(p, s) && PlacesInv(p, s) && s.wg == 0 && !s.main.Spawning?
    ensures forall i :: 0 <= i < |s.pcs| ==> s.pcs[i].Gone?
  {
    hide Sum;
    forall i | 0 <= i < |s.pcs|
      ensures s.pcs[i].Gone?
    {
      SumAtLeast(s.pcs, i, ALIVE);
    }
  }

  lemma CallsStep(p: Pool, s: State, step: Step)
    requires Inv(p, s) && Enabled(p, s, step)
    ensures CallsInv(Apply(p, s, step))
  {
    hide Sum, ErrorInv, CountsInv;
    var t := Apply(p, s, step);
    if step.Acquire? {
      assert step.i !in s.calls;
      assert forall i :: i in s.calls ==> i in t.calls;
    }
  }

  lemma ErrorStep(p: Pool, s: State, step: Step)
    requires Inv(p, s) && Enabled(p, s, step)
    ensures ErrorInv(p, Apply(p, s, step))
  {
    hide Sum, CallsInv, CountsInv;
  }

  lemma {:induction false} RunInv(p: Pool, steps: seq<Step>, states: seq<State>, k: nat)
    requires Run(p, steps, states) && k <= |steps|
    ensures Inv(p, states[k])
  {
    hide Enabled, Apply, CountsInv, PlacesInv, CallsInv, ErrorInv;
    if k == 0 {
      InitInv(p);
    } else {
      RunInv(p, steps, states, k - 1);
      var s, step := states[k - 1], steps[k - 1];
      CountsStep(p, s, step);
      PlacesStep(p, s, step);
      CallsStep(p, s, step);
      ErrorStep(p, s, step);
    }
  }

  // ----- What every run satisfies -----

  /** How many tasks are in fn. */
  function RunningNow(s: State): int {
    Sum(s.pcs, RUNNING)
  }

  lemma {:induction false} SumMonotone(pcs: seq<Pc>, f: Pc -> int, g: Pc -> int)
    requires forall pc :: f(pc) <= g(pc)
    ensures Sum(pcs, f) <= Sum(pcs, g)
    decreases |pcs|
  {
    if pcs != [] {
      SumMonotone(pcs[..|pcs| - 1], f, g);
    }
  }

  /** At no time more tasks run than the capacity, and fn is called at most once for each index. */
  lemma AtMostMax(p: Pool, steps: seq<Step>, states: seq<State>, k: nat)
    requires Run(p, steps, states) && k <= |steps|
    ensures RunningNow(states[k]) <= Max(p)
    ensures forall a, b :: 0 <= a < b < |states[k].calls| ==> states[k].calls[a] != states[k].calls[b]
  {
    RunInv(p, steps, states, k);
    SumMonotone(states[k].pcs, RUNNING, HOLDING);
  }

  /** When it returns every task was called exactly once and is gone, and the result is nil exactly when no
      task failed; otherwise it is the error of one that did. */
  lemma ReturnsRight(p: Pool, steps: seq<Step>, states: seq<State>, k: nat)
    requires Run(p, steps, states) && k <= |steps| && states[k].main.Returned?
    ensures forall i :: 0 <= i < |p.errors| ==> At(states[k], i, Gone) && i in states[k].calls
    ensures forall a, b :: 0 <= a < b < |states[k].calls| ==> states[k].calls[a] != states[k].calls[b]
    ensures states[k].main.result.None? <==> forall i :: 0 <= i < |p.errors| ==> p.errors[i].None?
    ensures states[k].main.result.Some? ==> states[k].main.result in p.errors
  {
    hide Sum;
    RunInv(p, steps, states, k);
    NobodyLeft(p, states[k]);
  }

  /** The error that was offered first is kept to the end. */
  lemma {:induction false} FirstErrorWins(p: Pool, steps: seq<Step>, states: seq<State>, k: nat, j: nat)
    requires Run(p, steps, states) && k < j <= |steps| && steps[k].Record?
    requires forall h :: 0 <= h < k ==> !steps[h].Record?
    ensures steps[k].i < |p.errors| && states[j].firstErr == p.errors[steps[k].i] != None
    decreases j
  {
    hide Inv;
    if j == k + 1 {
      NoErrorYet(p, steps, states, k);
      RunInv(p, steps, states, k);
      assert ErrorInv(p, states[k]) by { InvParts(p, states[k]); }
    } else {
      FirstErrorWins(p, steps, states, k, j - 1);
    }
  }

  lemma InvParts(p: Pool, s: State)
    requires Inv(p, s)
    ensures ErrorInv(p, s)
  {
  }

  lemma {:induction false} NoErrorYet(p: Pool, steps: seq<Step>, states: seq<State>, k: nat)
    requires Run(p, steps, states) && k <= |steps| && forall h :: 0 <= h < k ==> !steps[h].Record?
    ensures states[k].firstErr.None?
    decreases k
  {
    if k > 0 {
      NoErrorYet(p, steps, states, k - 1);
    }
  }

  /** Until it returns some step is always possible. */
  lemma NeverStuck(p: Pool, steps: seq<Step>, states: seq<State>, k: nat) returns (step: Step)
    requires Run(p, steps, states) && k <= |steps| && !states[k].main.Returned?
    ensures Enabled(p, states[k], step)
  {
    hide Sum;
    RunInv(p, steps, states, k);
    var s := states[k];
    if s.main.Spawning? {
      step := if s.next < |s.pcs| then Spawn else Join;
    } else if s.wg == 0 {
      step := Return;
    } else {
      SumPositive(s.pcs, ALIVE);
      if s.sem > 0 {
        var i := SumWitness(s.pcs, HOLDING);
        step := if s.pcs[i].Running? then Finish(i) else if s.pcs[i].Recording? then Record(i) else Release(i);
      } else {
        var i := SumWitness(s.pcs, ALIVE);
        if s.pcs[i].Leaving? {
          step := Leave(i);
        } else {
          SumAtLeast(s.pcs, i, HOLDING);
          SumPositive(s.pcs, HOLDING);
          step := Acquire(i);
        }
      }
    }
  }

  /** Every step brings the end nearer. */
  function Measure(s: State): int {
    Sum(s.pcs, TO_GO) + match s.main case Spawning => 2 case Joining => 1 case Returned(_) => 0
  }

  lemma MeasureFalls(p: Pool, s: State, step: Step)
    requires Inv(p, s) && Enabled(p, s, step)
    ensures Measure(Apply(p, s, step)) < Measure(s)
  {
    hide Sum, CountsInv, CallsInv, ErrorInv;
    MovedSum(p, s, step, TO_GO);
    assert s.main.Returned? ==> step != Return && step != Join && step != Spawn;
  }

  lemma {:induction false} SumOfInit(n: nat)
    ensures Sum(seq(n, i => Idle), TO_GO) == 6 * n
  {
    if n > 0 {
      var pcs: seq<Pc> := seq(n, i => Idle);
      assert pcs[..n - 1] == seq(n - 1, i => Idle);
      SumOfInit(n - 1);
    }
  }

  /** No run is longer than six steps for each task and two for the caller. */
  lemma {:induction false} RunEnds(p: Pool, steps: seq<Step>, states: seq<State>, k: nat)
    requires Run(p, steps, states) && k <= |steps|
    ensures k + Measure(states[k]) <= 6 * |p.errors| + 2 && 0 <= Measure(states[k])
  {
    hide Measure;
    if k == 0 {
      SumOfInit(|p.errors|);
      InitMeasure(p);
    } else {
      RunEnds(p, steps, states, k - 1);
      RunInv(p, steps, states, k - 1);
      MeasureFalls(p, states[k - 1], steps[k - 1]);
    }
    MeasurePositive(states[k]);
  }

  lemma InitMeasure(p: Pool)
    ensures Measure(Init(p)) == 6 * |p.errors| + 2
  {
    SumOfInit(|p.errors|);
    assert Init(p).pcs == seq(|p.errors|, i => Idle);
  }

  lemma MeasurePositive(s: State)
    ensures 0 <= Measure(s)
  {
    SumPositive(s.pcs, TO_GO);
  }
}
