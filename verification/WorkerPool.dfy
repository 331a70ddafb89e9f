/**
  The bounded worker pool of `ProbeTargets` in `internal/health/probe.go`, as a
  state machine whose steps are the atomic actions of the dispatching loop and
  of the goroutines: any interleaving is a sequence of steps.
 */
module WorkerPool {

  datatype Outcome = Probed(target: string) | Cancelled(target: string)

  // A goroutine: waiting for a slot, probing, result stored, slot given back, gone.
  datatype Phase = Waiting | Probing | Recorded | Released | Finished

  // The calling goroutine: in the loop, in wg.Wait, returned.
  datatype Stage = Dispatching | Joining | Returned

  datatype Pool = Pool(
    targets: seq<string>,
    capacity: nat,
    stage: Stage,
    workers: seq<Phase>,          // worker k probes targets[k]
    slots: nat,                   // elements in the semaphore channel
    pending: nat,                 // the wait-group counter
    cancelled: bool,
    results: map<string, Outcome>)

  datatype Step =
    | Cancel
    | Dispatch
    | SkipRest
    | EndLoop
    | Acquire(k: nat)
    | GiveUp(k: nat)
    | Record(k: nat)
    | Release(k: nat)
    | Finish(k: nat)
    | Return

  function Start(targets: seq<string>, concurrency: int): Pool {
    var n := |targets|;
    var capacity := if concurrency <= 0 || concurrency > n then n else concurrency;
    Pool(targets, capacity, if n == 0 then Returned else Dispatching, [], 0, 0, false, map[])
  }

  predicate Enabled(p: Pool, s: Step) {
    match s
    case Cancel => !p.cancelled
    case Dispatch => p.stage.Dispatching? && |p.workers| < |p.targets| && !p.cancelled
    case SkipRest => p.stage.Dispatching? && |p.workers| < |p.targets| && p.cancelled
    case EndLoop => p.stage.Dispatching? && |p.workers| == |p.targets|
    case Acquire(k) => k < |p.workers| && p.workers[k].Waiting? && p.slots < p.capacity
    case GiveUp(k) => k < |p.workers| <= |p.targets| && p.workers[k].Waiting? && p.cancelled
    case Record(k) => k < |p.workers| <= |p.targets| && p.workers[k].Probing?
    case Release(k) => k < |p.workers| && p.workers[k].Recorded? && p.slots > 0
    case Finish(k) => k < |p.workers| && p.workers[k].Released? && p.pending > 0
    case Return => p.stage.Joining? && p.pending == 0
  }

  function Apply(p: Pool, s: Step): Pool
    requires Enabled(p, s)
  {
    match s
    case Cancel => p.(cancelled := true)
    case Dispatch => p.(workers := p.workers + [Waiting], pending := p.pending + 1)
    case SkipRest => p.(stage := Joining)
    case EndLoop => p.(stage := Joining)
    case Acquire(k) => p.(workers := p.workers[k := Probing], slots := p.slots + 1)
    case GiveUp(k) =>
      p.(workers := p.workers[k := Released], results := p.results[p.targets[k] := Cancelled(p.targets[k])])
    case Record(k) =>
      p.(workers := p.workers[k := Recorded], results := p.results[p.targets[k] := Probed(p.targets[k])])
    case Release(k) => p.(workers := p.workers[k := Released], slots := p.slots - 1)
    case Finish(k) => p.(workers := p.workers[k := Finished], pending := p.pending - 1)
    case Return => p.(stage := Returned)
  }

  predicate IsRun(p: Pool, steps: seq<Step>)
    decreases |steps|
  {
    steps == [] || (Enabled(p, steps[0]) && IsRun(Apply(p, steps[0]), steps[1..]))
  }

  function Exec(p: Pool, steps: seq<Step>): Pool
    requires IsRun(p, steps)
    decreases |steps|
  {
    if steps == [] then p else Exec(Apply(p, steps[0]), steps[1..])
  }

  // --- Counting workers by phase ---

  predicate Holds(w: Phase) { w.Probing? || w.Recorded? }
  predicate Running(w: Phase) { w.Probing? }
  predicate Live(w: Phase) { !w.Finished? }

  function Count(ws: seq<Phase>, f: Phase -> bool): nat {
    if ws == [] then 0 else Count(ws[..|ws| - 1], f) + if f(ws[|ws| - 1]) then 1 else 0
  }

  lemma {:induction false} CountUpdate(ws: seq<Phase>, k: nat, w: Phase, f: Phase -> bool)
    requires k < |ws|
    ensures Count(ws[k := w], f) == Count(ws, f) + (if f(w) then 1 else 0) - (if f(ws[k]) then 1 else 0)
  {
    var last := |ws| - 1;
    if k == last {
      assert ws[k := w][..last] == ws[..last];
    } else {
      assert ws[k := w][..last] == ws[..last][k := w];
      CountUpdate(ws[..last], k, w, f);
    }
  }

  lemma {:induction false} CountWitness(ws: seq<Phase>, f: Phase -> bool) returns (k: nat)
    requires Count(ws, f) > 0
    ensures k < |ws| && f(ws[k])
  {
    k := |ws| - 1;
    if !f(ws[k]) { k := CountWitness(ws[..k], f); }
  }

  lemma {:induction false} CountZero(ws: seq<Phase>, f: Phase -> bool)
    requires Count(ws, f) == 0
    ensures forall k | 0 <= k < |ws| :: !f(ws[k])
  {
    if ws == [] {
    } else {
      CountZero(ws[..|ws| - 1], f);
    }
  }

  // --- The invariant ---

  predicate Stored(w: Phase) { !w.Waiting? && !w.Probing? }

  predicate CountInv(p: Pool) {
    && |p.workers| <= |p.targets|
    && (p.targets == [] <==> p.capacity == 0)
    && p.slots == Count(p.workers, Holds) <= p.capacity
    && p.pending == Count(p.workers, Live)
    && (!p.stage.Dispatching? && |p.workers| < |p.targets| ==> p.cancelled)
    && (p.stage.Returned? ==> p.pending == 0)
  }

  // Result t was stored by worker k.
  predicate StoredBy(p: Pool, t: string, k: int) {
    0 <= k < |p.workers| <= |p.targets| && p.targets[k] == t && Stored(p.workers[k])
  }

  ghost predicate ResultInv(p: Pool) {
    && |p.workers| <= |p.targets|
    && (forall k | 0 <= k < |p.workers| && Stored(p.workers[k]) :: p.targets[k] in p.results)
    && (forall t | t in p.results :: p.results[t].target == t && exists k :: StoredBy(p, t, k))
  }

  ghost predicate Inv(p: Pool) { CountInv(p) && ResultInv(p) }

  predicate ByWorker(s: Step) { s.Acquire? || s.GiveUp? || s.Record? || s.Release? || s.Finish? }

  lemma StepKeepsCounts(p: Pool, s: Step)
    requires CountInv(p) && Enabled(p, s)
    ensures CountInv(Apply(p, s))
  {
    if ByWorker(s) { WorkerKeepsCounts(p, s); } else { DispatcherKeepsCounts(p, s); }
  }

  lemma WorkerKeepsCounts(p: Pool, s: Step)
    requires CountInv(p) && Enabled(p, s) && ByWorker(s)
    ensures CountInv(Apply(p, s))
  {
    WorkerStep(p, s.k, Apply(p, s).workers[s.k]);
  }

  lemma DispatcherKeepsCounts(p: Pool, s: Step)
    requires CountInv(p) && Enabled(p, s) && !ByWorker(s)
    ensures CountInv(Apply(p, s))
  {
    if s.Dispatch? { assert Apply(p, s).workers[..|p.workers|] == p.workers; }
  }

  lemma StepKeepsResults(p: Pool, s: Step)
    requires ResultInv(p) && Enabled(p, s)
    ensures ResultInv(Apply(p, s))
  {
    var q := Apply(p, s);
    forall t | t in q.results ensures q.results[t].target == t && exists k :: StoredBy(q, t, k) {
      ResultStored(p, s, t);
    }
    forall k | 0 <= k < |q.workers| && Stored(q.workers[k]) ensures q.targets[k] in q.results {
      if k < |p.workers| && Stored(p.workers[k]) { assert p.targets[k] in p.results; }
    }
  }

  lemma ResultStored(p: Pool, s: Step, t: string)
    requires ResultInv(p) && Enabled(p, s) && t in Apply(p, s).results
    ensures Apply(p, s).results[t].target == t && exists k :: StoredBy(Apply(p, s), t, k)
  {
    var q := Apply(p, s);
    if t in p.results {
      var k :| StoredBy(p, t, k);
      assert StoredBy(q, t, k);
    } else {
      assert StoredBy(q, t, s.k);
    }
  }

  lemma StepKeepsInv(p: Pool, s: Step)
    requires Inv(p) && Enabled(p, s)
    ensures Inv(Apply(p, s))
  {
    StepKeepsCounts(p, s);
    StepKeepsResults(p, s);
  }

  lemma WorkerStep(p: Pool, k: nat, w: Phase)
    requires k < |p.workers|
    ensures Count(p.workers[k := w], Holds) ==
            Count(p.workers, Holds) + (if Holds(w) then 1 else 0) - (if Holds(p.workers[k]) then 1 else 0)
    ensures Count(p.workers[k := w], Live) ==
            Count(p.workers, Live) + (if Live(w) then 1 else 0) - (if Live(p.workers[k]) then 1 else 0)
  {
    CountUpdate(p.workers, k, w, Holds);
    CountUpdate(p.workers, k, w, Live);
  }

  lemma {:induction false} RunKeepsInv(p: Pool, steps: seq<Step>)
    requires Inv(p) && IsRun(p, steps)
    ensures Inv(Exec(p, steps))
    decreases |steps|
  {
    if steps == [] {
    } else {
      StepKeepsInv(p, steps[0]);
      RunKeepsInv(Apply(p, steps[0]), steps[1..]);
    }
  }

  lemma {:induction false} RunFrame(p: Pool, steps: seq<Step>)
    requires IsRun(p, steps)
    ensures Exec(p, steps).targets == p.targets && Exec(p, steps).capacity == p.capacity
    ensures Exec(p, steps).cancelled <==> p.cancelled || Cancel in steps
    decreases |steps|
  {
    if steps == [] {
    } else {
      RunFrame(Apply(p, steps[0]), steps[1..]);
    }
  }

  // --- Main results, for every interleaving ---

  // At most `concurrency` probes run at once (when it is a usable bound).
  lemma BoundedParallelism(targets: seq<string>, concurrency: int, steps: seq<Step>)
    requires IsRun(Start(targets, concurrency), steps)
    ensures var p := Exec(Start(targets, concurrency), steps);
            && Count(p.workers, Running) <= |targets|
            && (0 < concurrency ==> Count(p.workers, Running) <= concurrency)
  {
    var p := Exec(Start(targets, concurrency), steps);
    RunKeepsInv(Start(targets, concurrency), steps);
    RunFrame(Start(targets, concurrency), steps);
    CountMonotone(p.workers, Running, Holds);
  }

  lemma {:induction false} CountMonotone(ws: seq<Phase>, f: Phase -> bool, g: Phase -> bool)
    requires forall w :: f(w) ==> g(w)
    ensures Count(ws, f) <= Count(ws, g)
  {
    if ws == [] {
    } else {
      CountMonotone(ws[..|ws| - 1], f, g);
    }
  }

  // On return every goroutine is gone; the result keys are exactly the dispatched
  // targets, and all targets unless the context was cancelled.
  lemma ReturnedResults(targets: seq<string>, concurrency: int, steps: seq<Step>)
    requires IsRun(Start(targets, concurrency), steps)
    requires Exec(Start(targets, concurrency), steps).stage.Returned?
    ensures var p := Exec(Start(targets, concurrency), steps);
            && |p.workers| <= |targets|
            && (forall k | 0 <= k < |p.workers| :: p.workers[k].Finished?)
            && p.results.Keys == (set k | 0 <= k < |p.workers| :: targets[k])
            && (forall t | t in p.results :: p.results[t].target == t)
            && p.slots == 0
            && (Cancel !in steps ==> p.results.Keys == set t | t in targets)
  {
    var p := Exec(Start(targets, concurrency), steps);
    RunKeepsInv(Start(targets, concurrency), steps);
    RunFrame(Start(targets, concurrency), steps);
    CountZero(p.workers, Live);
    CountNone(p.workers, Holds);
    if Cancel !in steps {
      assert |p.workers| == |targets|;
      assert p.results.Keys == set t | t in targets;
    }
  }

  lemma {:induction false} CountNone(ws: seq<Phase>, f: Phase -> bool)
    requires forall k | 0 <= k < |ws| :: !f(ws[k])
    ensures Count(ws, f) == 0
  {
    if ws == [] {
    } else {
      CountNone(ws[..|ws| - 1], f);
    }
  }

  // --- The call always returns: no deadlock, and no run longer than a fixed bound ---

  function PhaseWeight(w: Phase): nat {
    match w case Waiting => 4 case Probing => 3 case Recorded => 2 case Released => 1 case Finished => 0
  }

  function Weight(ws: seq<Phase>): nat {
    if ws == [] then 0 else Weight(ws[..|ws| - 1]) + PhaseWeight(ws[|ws| - 1])
  }

  lemma {:induction false} WeightUpdate(ws: seq<Phase>, k: nat, w: Phase)
    requires k < |ws|
    ensures Weight(ws[k := w]) == Weight(ws) + PhaseWeight(w) - PhaseWeight(ws[k])
  {
    var last := |ws| - 1;
    if k == last {
      assert ws[k := w][..last] == ws[..last];
    } else {
      assert ws[k := w][..last] == ws[..last][k := w];
      WeightUpdate(ws[..last], k, w);
    }
  }

  function Remaining(p: Pool): nat
    requires |p.workers| <= |p.targets|
  {
    5 * (|p.targets| - |p.workers|) + Weight(p.workers)
    + (match p.stage case Dispatching => 2 case Joining => 1 case Returned => 0)
    + if p.cancelled then 0 else 1
  }

  lemma StepDecreases(p: Pool, s: Step)
    requires CountInv(p) && Enabled(p, s)
    ensures |Apply(p, s).workers| <= |p.targets| == |Apply(p, s).targets|
    ensures Remaining(Apply(p, s)) < Remaining(p)
  {
    if ByWorker(s) {
      WeightUpdate(p.workers, s.k, Apply(p, s).workers[s.k]);
    } else if s.Dispatch? {
      assert Apply(p, s).workers[..|p.workers|] == p.workers;
    }
  }

  lemma {:induction false} RunLength(p: Pool, steps: seq<Step>)
    requires Inv(p) && IsRun(p, steps)
    ensures |steps| <= Remaining(p)
    decreases |steps|
  {
    if steps == [] {
    } else {
      StepKeepsInv(p, steps[0]);
      StepDecreases(p, steps[0]);
      RunLength(Apply(p, steps[0]), steps[1..]);
    }
  }

  lemma NoDeadlock(p: Pool) returns (s: Step)
    requires Inv(p) && !p.stage.Returned?
    ensures !s.Cancel? && Enabled(p, s)
  {
    if p.stage.Dispatching? {
      s := if |p.workers| == |p.targets| then EndLoop else if p.cancelled then SkipRest else Dispatch;
    } else if p.pending == 0 {
      s := Return;
    } else {
      var k := CountWitness(p.workers, Live);
      match p.workers[k] {
        case Probing => s := Record(k);
        case Recorded => HolderMeansSlot(p, k); s := Release(k);
        case Released => s := Finish(k);
        case Waiting =>
          if p.slots < p.capacity {
            s := Acquire(k);
          } else {
            var j := CountWitness(p.workers, Holds);
            s := if p.workers[j].Probing? then Record(j) else Release(j);
          }
        case Finished => assert false;
      }
    }
  }

  lemma HolderMeansSlot(p: Pool, k: nat)
    requires Inv(p) && k < |p.workers| && Holds(p.workers[k])
    ensures p.slots > 0
  {
    if p.slots == 0 { CountZero(p.workers, Holds); }
  }

  // Every interleaving has at most 5n + 3 steps, and one that cannot be extended
  // without a cancellation has returned.
  lemma AlwaysReturns(targets: seq<string>, concurrency: int, steps: seq<Step>)
    requires IsRun(Start(targets, concurrency), steps)
    ensures |steps| <= 5 * |targets| + 3
    ensures var p := Exec(Start(targets, concurrency), steps);
            (forall s: Step | !s.Cancel? :: !Enabled(p, s)) ==> p.stage.Returned?
  {
    var p := Exec(Start(targets, concurrency), steps);
    RunLength(Start(targets, concurrency), steps);
    RunKeepsInv(Start(targets, concurrency), steps);
    if !p.stage.Returned? {
      var s := NoDeadlock(p);
    }
  }
}
