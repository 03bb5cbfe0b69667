/**
 The thread pool of the server: jobs are enqueued under a mutex, workers wait on a condition variable until there is
 a job or the pool shuts down. Each region under the mutex is one step, and so is each notification.
 */
module ThreadPool {
  import opened Counting
  import opened Wrappers

  /** A worker is about to lock the mutex, waits, was woken and is about to lock again, runs a job, or has left. */
  datatype Worker = Entering | Waiting | Woken | Running(job: nat) | Exited

  /** The owner enqueues, and at last sets the flag, notifies, and joins the workers one after the other. */
  datatype Owner = Open | FlagSet | Joining(next: nat)

  /** Jobs are numbered as they are enqueued; `ran` holds the finished ones in that order. */
  datatype State = State(jobs: seq<nat>, enqueued: nat, workers: seq<Worker>, owner: Owner, ran: seq<nat>)

  /** `woken` is the waiting worker that `notify_one` picks, if any waits. */
  datatype Step = Enqueue(woken: Option<nat>) | SetFlag | NotifyAll | Join
    | Test(worker: nat) | Finish(worker: nat) | Spurious(worker: nat)

  predicate Is(s: State, k: nat, w: Worker) { k < |s.workers| && s.workers[k] == w }

  predicate Shutdown(s: State) { s.owner != Open }

  ghost predicate Enabled(s: State, e: Step) {
    match e
    case Enqueue(woken) =>
      s.owner == Open && if woken.Some? then Is(s, woken.value, Waiting) else Waiting !in s.workers
    case SetFlag => s.owner == Open
    case NotifyAll => s.owner == FlagSet
    case Join => s.owner.Joining? && Is(s, s.owner.next, Exited)
    case Test(k) => Is(s, k, Entering) || Is(s, k, Woken)
    case Finish(k) => k < |s.workers| && s.workers[k].Running?
    case Spurious(k) => Is(s, k, Waiting)
  }

  function Wake(w: Worker): Worker { if w == Waiting then Woken else w }

  ghost function Apply(s: State, e: Step): State
    requires Enabled(s, e)
  {
    match e
    case Enqueue(woken) =>
      s.(jobs := s.jobs + [s.enqueued], enqueued := s.enqueued + 1,
         workers := if woken.Some? then s.workers[woken.value := Woken] else s.workers)
    case SetFlag => s.(owner := FlagSet)
    case NotifyAll =>
      s.(owner := Joining(0), workers := WakeAll(s.workers))
    case Join => s.(owner := Joining(s.owner.next + 1))
    case Test(k) =>
      if s.jobs != [] then s.(jobs := s.jobs[1..], workers := s.workers[k := Running(s.jobs[0])])
      else s.(workers := s.workers[k := if Shutdown(s) then Exited else Waiting])
    case Finish(k) => s.(workers := s.workers[k := Entering], ran := s.ran + [s.workers[k].job])
    case Spurious(k) => s.(workers := s.workers[k := Woken])
  }

  ghost function Init(n: nat): State { State([], 0, seq(n, _ => Entering), Open, []) }

  ghost function Exec(n: nat, run: seq<Step>): Option<State> {
    if run == [] then Some(Init(n)) else
      var before := Exec(n, run[..|run| - 1]);
      var e := run[|run| - 1];
      if before.Some? && Enabled(before.value, e) then Some(Apply(before.value, e)) else None
  }

  // ---------- jobs ----------

  function Runs(w: Worker, id: nat): nat { if w == Running(id) then 1 else 0 }

  /** How many workers are running job `id`. */
  function InHand(ws: seq<Worker>, id: nat): nat { if ws == [] then 0 else Runs(ws[0], id) + InHand(ws[1..], id) }

  ghost function Places(s: State, id: nat): nat { Count(s.jobs, id) + InHand(s.workers, id) + Count(s.ran, id) }

  ghost predicate Conserved(s: State) {
    forall id: nat :: Places(s, id) == if id < s.enqueued then 1 else 0
  }

  lemma {:induction false} InHandUpdate(ws: seq<Worker>, k: nat, w: Worker, id: nat)
    requires k < |ws|
    ensures InHand(ws[k := w], id) + Runs(ws[k], id) == InHand(ws, id) + Runs(w, id)
  {
    if k == 0 {
      assert ws[k := w][1..] == ws[1..];
    } else {
      InHandUpdate(ws[1..], k - 1, w, id);
      assert ws[k := w][1..] == ws[1..][k - 1 := w];
    }
  }

  function WakeAll(ws: seq<Worker>): seq<Worker> { seq(|ws|, i requires 0 <= i < |ws| => Wake(ws[i])) }

  lemma {:induction false} WakeKeepsJobs(ws: seq<Worker>, id: nat)
    ensures InHand(WakeAll(ws), id) == InHand(ws, id)
  {
    if ws != [] {
      WakeKeepsJobs(ws[1..], id);
      assert WakeAll(ws)[1..] == WakeAll(ws[1..]);
    }
  }

  lemma StepKeepsPlaces(s: State, e: Step, id: nat)
    requires Enabled(s, e)
    ensures Places(Apply(s, e), id) == Places(s, id) + if e.Enqueue? && id == s.enqueued then 1 else 0
  {
    hide Count, InHand;
    match e
    case Enqueue(woken) =>
      CountConcat(s.jobs, [s.enqueued], id);
      CountOne(s.enqueued, id);
      if woken.Some? { InHandUpdate(s.workers, woken.value, Woken, id); }
    case NotifyAll => WakeKeepsJobs(s.workers, id);
    case Test(k) =>
      InHandUpdate(s.workers, k, Apply(s, e).workers[k], id);
      if s.jobs != [] {
        assert s.jobs == [s.jobs[0]] + s.jobs[1..];
        CountConcat([s.jobs[0]], s.jobs[1..], id);
        CountOne(s.jobs[0], id);
      }
    case Finish(k) =>
      InHandUpdate(s.workers, k, Entering, id);
      CountConcat(s.ran, [s.workers[k].job], id);
      CountOne(s.workers[k].job, id);
    case Spurious(k) => InHandUpdate(s.workers, k, Woken, id);
    case _ =>
  }

  lemma {:induction false} NobodyRuns(n: nat, id: nat)
    ensures InHand(seq(n, _ => Entering), id) == 0
  {
    if n > 0 {
      NobodyRuns(n - 1, id);
      assert seq(n, _ => Entering)[1..] == seq(n - 1, _ => Entering);
    }
  }

  // ---------- wakeups and exits ----------

  function Awake(w: Worker): nat { if w == Entering || w == Woken then 1 else 0 }

  /** How many workers are about to look at the queue. */
  function Looking(ws: seq<Worker>): nat { if ws == [] then 0 else Awake(ws[0]) + Looking(ws[1..]) }

  ghost predicate SomeIs(s: State, w: Worker) { exists k: nat :: Is(s, k, w) }

  /** While a worker waits, at least as many others as there are jobs are about to look at the queue. */
  ghost predicate Alert(s: State) { SomeIs(s, Waiting) ==> |s.jobs| <= Looking(s.workers) }

  /** None waits once the pool has been notified of its shutdown, and workers leave only when nothing is left. */
  ghost predicate Leaving(s: State) {
    && (s.owner.Joining? ==> !SomeIs(s, Waiting) && s.owner.next <= |s.workers|)
    && (SomeIs(s, Exited) ==> s.jobs == [] && Shutdown(s))
    && (s.owner.Joining? ==> forall k: nat :: k < s.owner.next ==> Is(s, k, Exited))
  }

  lemma {:induction false} LookingUpdate(ws: seq<Worker>, k: nat, w: Worker)
    requires k < |ws|
    ensures Looking(ws[k := w]) + Awake(ws[k]) == Looking(ws) + Awake(w)
  {
    if k == 0 {
      assert ws[k := w][1..] == ws[1..];
    } else {
      LookingUpdate(ws[1..], k - 1, w);
      assert ws[k := w][1..] == ws[1..][k - 1 := w];
    }
  }

  /** Where a worker waits or has left after a step, it did so before, or the step has just brought it there. */
  lemma StillThere(s: State, e: Step, w: Worker)
    requires Enabled(s, e) && (w == Waiting || w == Exited) && SomeIs(Apply(s, e), w)
    ensures SomeIs(s, w) || (e.Test? && s.jobs == [] && w == if Shutdown(s) then Exited else Waiting)
    ensures !(e.NotifyAll? && w == Waiting)
  {
    var k: nat :| Is(Apply(s, e), k, w);
    assert Is(s, k, w) || (e.Test? && e.worker == k);
  }

  lemma StepKeepsAlert(s: State, e: Step)
    requires Alert(s) && Enabled(s, e)
    ensures Alert(Apply(s, e))
  {
    hide SomeIs;
    var t := Apply(s, e);
    if SomeIs(t, Waiting) {
      StillThere(s, e, Waiting);
      match e
      case Enqueue(woken) =>
        if woken.Some? { LookingUpdate(s.workers, woken.value, Woken); } else { NoneWaits(s); }
      case Test(k) => LookingUpdate(s.workers, k, t.workers[k]);
      case Finish(k) => LookingUpdate(s.workers, k, Entering);
      case Spurious(k) => LookingUpdate(s.workers, k, Woken);
      case _ =>
    }
  }

  lemma NoneWaits(s: State)
    requires Waiting !in s.workers
    ensures !SomeIs(s, Waiting)
  {
  }

  lemma StepKeepsLeaving(s: State, e: Step)
    requires Leaving(s) && Enabled(s, e)
    ensures Leaving(Apply(s, e))
  {
    var t := Apply(s, e);
    if SomeIs(t, Waiting) { StillThere(s, e, Waiting); }
    if SomeIs(t, Exited) { StillThere(s, e, Exited); }
    if s.owner.Joining? {
      forall k: nat | k < s.owner.next ensures Is(t, k, Exited) { assert Is(s, k, Exited); }
    }
  }

  /** The queue holds the last jobs enqueued, in order: jobs are started in the order of their arrival. */
  ghost predicate InOrder(s: State) {
    |s.jobs| <= s.enqueued && forall i :: 0 <= i < |s.jobs| ==> s.jobs[i] == s.enqueued - |s.jobs| + i
  }

  ghost predicate Inv(n: nat, s: State) {
    |s.workers| == n && Conserved(s) && Alert(s) && Leaving(s) && InOrder(s)
  }

  lemma InitHolds(n: nat)
    ensures Inv(n, Init(n))
  {
    forall id: nat ensures Places(Init(n), id) == 0 { NobodyRuns(n, id); }
  }

  lemma StepKeepsInv(n: nat, s: State, e: Step)
    requires Inv(n, s) && Enabled(s, e)
    ensures Inv(n, Apply(s, e))
  {
    hide Places, Alert, Leaving;
    StepKeepsAlert(s, e);
    StepKeepsLeaving(s, e);
    forall id: nat
      ensures Places(Apply(s, e), id) == Places(s, id) + if e.Enqueue? && id == s.enqueued then 1 else 0
    {
      StepKeepsPlaces(s, e, id);
    }
  }

  lemma {:induction false} RunsHold(n: nat, run: seq<Step>)
    requires Exec(n, run).Some?
    ensures Inv(n, Exec(n, run).value)
  {
    hide Inv, Apply, Enabled;
    if run == [] {
      InitHolds(n);
    } else {
      RunsHold(n, run[..|run| - 1]);
      StepKeepsInv(n, Exec(n, run[..|run| - 1]).value, run[|run| - 1]);
    }
  }

  // ---------- main results ----------

  /** In every reachable state each job is in one place, in order; and a waiting worker leaves no job unattended. */
  lemma NoWakeupIsLost(n: nat, run: seq<Step>)
    requires Exec(n, run).Some?
    ensures var s := Exec(n, run).value;
      && (SomeIs(s, Waiting) ==> |s.jobs| <= Looking(s.workers))
      && (forall id: nat :: Places(s, id) == if id < s.enqueued then 1 else 0)
      && InOrder(s)
  {
    RunsHold(n, run);
  }

  /** `shutdown` has joined every worker. */
  predicate Returned(s: State) { s.owner.Joining? && s.owner.next == |s.workers| }

  lemma {:induction false} ExitedRunNothing(ws: seq<Worker>, id: nat)
    requires forall k :: 0 <= k < |ws| ==> ws[k] == Exited
    ensures InHand(ws, id) == 0
  {
    if ws != [] { ExitedRunNothing(ws[1..], id); }
  }

  /** When `shutdown` returns, every job has been run exactly once. */
  lemma ShutdownRunsEverything(n: nat, run: seq<Step>)
    requires n > 0 && Exec(n, run).Some? && Returned(Exec(n, run).value)
    ensures var s := Exec(n, run).value;
      s.jobs == [] && EachOnce(s.ran, s.enqueued)
  {
    RunsHold(n, run);
    var s := Exec(n, run).value;
    forall k: nat | k < n ensures s.workers[k] == Exited { assert Is(s, k, Exited); }
    assert Is(s, 0, Exited) && SomeIs(s, Exited);
    forall id: nat ensures Count(s.ran, id) == if id < s.enqueued then 1 else 0 {
      ExitedRunNothing(s.workers, id);
      assert Places(s, id) == if id < s.enqueued then 1 else 0;
    }
  }

  ghost predicate LosesNothing(n: nat, run: seq<Step>) {
    Exec(n, run).Some? && Returned(Exec(n, run).value) ==>
      EachOnce(Exec(n, run).value.ran, Exec(n, run).value.enqueued)
  }

  /** A pool without threads accepts jobs and shuts down without running them; any other pool loses none. */
  lemma NothingLostIffThreads(n: nat)
    ensures (forall run :: LosesNothing(n, run)) <==> n > 0
  {
    if n > 0 {
      forall run ensures LosesNothing(n, run) {
        if Exec(n, run).Some? && Returned(Exec(n, run).value) { ShutdownRunsEverything(n, run); }
      }
    } else {
      var a, b, c := Enqueue(None), SetFlag, NotifyAll;
      assert [a][..0] == [] && [a, b][..1] == [a] && [a, b, c][..2] == [a, b];
      assert Init(0) == State([], 0, [], Open, []) && WakeAll([]) == [];
      assert Exec(0, []) == Some(Init(0)) && Enabled(Init(0), a);
      assert Apply(Init(0), a) == State([0], 1, [], Open, []);
      assert Exec(0, [a]) == Some(State([0], 1, [], Open, []));
      assert Exec(0, [a, b]) == Some(State([0], 1, [], FlagSet, []));
      assert Exec(0, [a, b, c]) == Some(State([0], 1, [], Joining(0), []));
      assert Count([], 0) == 0;
      assert !LosesNothing(0, [a, b, c]);
    }
  }

  // ---------- shutdown always returns ----------

  function Weight(w: Worker): nat {
    match w
    case Waiting => 4
    case Running(_) => 4
    case Exited => 0
    case _ => 3
  }

  function Weights(ws: seq<Worker>): nat { if ws == [] then 0 else Weight(ws[0]) + Weights(ws[1..]) }

  /** How much is left to do after the flag was set. */
  function Work(s: State): int {
    2 * |s.jobs| + Weights(s.workers) + match s.owner
      case Open => |s.workers| + 2
      case FlagSet => |s.workers| + 1
      case Joining(next) => |s.workers| - next
  }

  lemma {:induction false} WeightsUpdate(ws: seq<Worker>, k: nat, w: Worker)
    requires k < |ws|
    ensures Weights(ws[k := w]) + Weight(ws[k]) == Weights(ws) + Weight(w)
  {
    if k == 0 {
      assert ws[k := w][1..] == ws[1..];
    } else {
      WeightsUpdate(ws[1..], k - 1, w);
      assert ws[k := w][1..] == ws[1..][k - 1 := w];
    }
  }

  lemma {:induction false} WakeLightens(ws: seq<Worker>)
    ensures Weights(WakeAll(ws)) <= Weights(ws)
  {
    if ws != [] {
      WakeLightens(ws[1..]);
      assert WakeAll(ws)[1..] == WakeAll(ws[1..]);
    }
  }

  /** Setting the flag, and after it every step, even a spurious wakeup, uses up work. */
  lemma StepUsesWork(s: State, e: Step)
    requires Enabled(s, e) && (Shutdown(s) || e == SetFlag)
    ensures Work(Apply(s, e)) < Work(s) && Shutdown(Apply(s, e))
  {
    match e
    case NotifyAll => WakeLightens(s.workers);
    case Test(k) => WeightsUpdate(s.workers, k, Apply(s, e).workers[k]);
    case Finish(k) => WeightsUpdate(s.workers, k, Entering);
    case Spurious(k) => WeightsUpdate(s.workers, k, Woken);
    case _ =>
  }

  /** Until `shutdown` returns there is always a next step that needs no spurious wakeup. */
  function NextStep(s: State): Step {
    match s.owner
    case Open => SetFlag
    case FlagSet => NotifyAll
    case Joining(k) =>
      if k >= |s.workers| || s.workers[k] == Exited then Join
      else if s.workers[k].Running? then Finish(k)
      else Test(k)
  }

  lemma NeverStuck(n: nat, s: State)
    requires Inv(n, s) && !Returned(s)
    ensures Enabled(s, NextStep(s)) && !NextStep(s).Spurious? && !NextStep(s).Enqueue?
    ensures Shutdown(s) || NextStep(s) == SetFlag
  {
    if s.owner.Joining? {
      var k := s.owner.next;
      assert s.workers[k] == Waiting ==> Is(s, k, Waiting);
    }
  }

  /** From every reachable state `shutdown` can be called and returns, and then every job has been run. */
  lemma {:induction false} ShutdownReturns(n: nat, run: seq<Step>) returns (longer: seq<Step>)
    requires n > 0 && Exec(n, run).Some?
    ensures run <= longer && Exec(n, longer).Some? && Returned(Exec(n, longer).value)
    ensures EachOnce(Exec(n, longer).value.ran, Exec(n, run).value.enqueued)
    decreases Work(Exec(n, run).value)
  {
    hide Inv, Apply, Enabled, Work, EachOnce, Returned;
    var s := Exec(n, run).value;
    RunsHold(n, run);
    if Returned(s) {
      ShutdownRunsEverything(n, run);
      longer := run;
    } else {
      NeverStuck(n, s);
      var e := NextStep(s);
      assert (run + [e])[..|run|] == run;
      assert Exec(n, run + [e]) == Some(Apply(s, e));
      StepUsesWork(s, e);
      NothingEnqueued(s, e);
      RunsHold(n, run + [e]);
      WorkIsNat(n, Apply(s, e));
      longer := ShutdownReturns(n, run + [e]);
    }
  }

  lemma NothingEnqueued(s: State, e: Step)
    requires Enabled(s, e) && !e.Enqueue?
    ensures Apply(s, e).enqueued == s.enqueued
  {
  }

  lemma WorkIsNat(n: nat, s: State)
    requires Inv(n, s)
    ensures Work(s) >= 0
  {
  }
}
