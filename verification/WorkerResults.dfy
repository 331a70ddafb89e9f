/**
  Which result `ProbeTargets` in `internal/health/probe.go` reports for a target, from the
  steps of the goroutines, and that it does run as many probes at once as it may.
 */
module WorkerResults {
  import opened WorkerPool

  // A goroutine for target t stores its result: of the probe, or of the cancelled wait for a slot.
  predicate Writes(targets: seq<string>, s: Step, t: string) {
    (s.Record? || s.GiveUp?) && s.k < |targets| && targets[s.k] == t
  }

  ghost predicate NoneWrites(targets: seq<string>, steps: seq<Step>, t: string) {
    forall i | 0 <= i < |steps| :: !Writes(targets, steps[i], t)
  }

  lemma {:induction false} UnwrittenStays(p: Pool, steps: seq<Step>, t: string)
    requires IsRun(p, steps) && NoneWrites(p.targets, steps, t)
    ensures var r, q := p.results, Exec(p, steps).results;
            (t in q <==> t in r) && (t in r ==> q[t] == r[t])
    decreases |steps|
  {
    if steps == [] {
    } else {
      assert !Writes(p.targets, steps[0], t);
      UnwrittenStays(Apply(p, steps[0]), steps[1..], t);
    }
  }

  ghost predicate LastWrite(targets: seq<string>, steps: seq<Step>, i: nat, t: string) {
    i < |steps| && Writes(targets, steps[i], t) && NoneWrites(targets, steps[i + 1..], t)
  }

  lemma {:induction false} LastWriteStays(p: Pool, steps: seq<Step>, i: nat, t: string)
    requires IsRun(p, steps) && LastWrite(p.targets, steps, i, t)
    ensures var q := Exec(p, steps).results;
            t in q && q[t] == if steps[i].Record? then Probed(t) else Cancelled(t)
    decreases |steps|
  {
    var q := Apply(p, steps[0]);
    if i == 0 {
      UnwrittenStays(q, steps[1..], t);
    } else {
      assert steps[1..][i..] == steps[i + 1..];
      LastWriteStays(q, steps[1..], i - 1, t);
    }
  }

  // In every run, a target has a result exactly if a goroutine for it stored one, and the last to do so decides:
  // with the same target listed twice, the later of its two goroutines.
  lemma ResultIsLastWrite(targets: seq<string>, concurrency: int, steps: seq<Step>, t: string)
    requires IsRun(Start(targets, concurrency), steps)
    ensures var q := Exec(Start(targets, concurrency), steps).results;
            && (t in q <==> !NoneWrites(targets, steps, t))
            && forall i: nat | LastWrite(targets, steps, i, t) ::
                 t in q && q[t] == if steps[i].Record? then Probed(t) else Cancelled(t)
  {
    var p := Start(targets, concurrency);
    if NoneWrites(targets, steps, t) {
      UnwrittenStays(p, steps, t);
    } else {
      var i := FindLastWrite(targets, steps, t);
      LastWriteStays(p, steps, i, t);
    }
    forall i: nat | LastWrite(targets, steps, i, t)
      ensures var q := Exec(p, steps).results;
              t in q && q[t] == if steps[i].Record? then Probed(t) else Cancelled(t)
    {
      LastWriteStays(p, steps, i, t);
    }
  }

  lemma {:induction false} FindLastWrite(targets: seq<string>, steps: seq<Step>, t: string) returns (i: nat)
    requires !NoneWrites(targets, steps, t)
    ensures LastWrite(targets, steps, i, t)
    decreases |steps|
  {
    if NoneWrites(targets, steps[1..], t) {
      i := 0;
    } else {
      i := FindLastWrite(targets, steps[1..], t);
      assert steps[1..][i + 1..] == steps[i + 2..];
      i := i + 1;
    }
  }

  // A goroutine gives up only after a cancellation.
  lemma {:induction false} GivesUpAfterCancel(p: Pool, steps: seq<Step>, i: nat) returns (j: nat)
    requires IsRun(p, steps) && !p.cancelled && i < |steps| && steps[i].GiveUp?
    ensures j < i && steps[j] == Cancel
    decreases |steps|
  {
    j := 0;
    if steps[0] != Cancel {
      j := GivesUpAfterCancel(Apply(p, steps[0]), steps[1..], i - 1);
      j := j + 1;
    }
  }

  // Without a cancellation, every result is of a probe that ran.
  lemma AllProbedUnlessCancelled(targets: seq<string>, concurrency: int, steps: seq<Step>, t: string)
    requires IsRun(Start(targets, concurrency), steps) && Cancel !in steps
    requires t in Exec(Start(targets, concurrency), steps).results
    ensures Exec(Start(targets, concurrency), steps).results[t] == Probed(t)
  {
    ResultIsLastWrite(targets, concurrency, steps, t);
    var i := FindLastWrite(targets, steps, t);
    if steps[i].GiveUp? {
      var j := GivesUpAfterCancel(Start(targets, concurrency), steps, i);
    }
  }

  // --- The bound is reached ---

  lemma {:induction false} RunAppend(p: Pool, steps: seq<Step>, s: Step)
    requires IsRun(p, steps) && Enabled(Exec(p, steps), s)
    ensures IsRun(p, steps + [s]) && Exec(p, steps + [s]) == Apply(Exec(p, steps), s)
    decreases |steps|
  {
    if steps == [] {
      assert IsRun(Apply(p, s), []);
    } else {
      RunAppend(Apply(p, steps[0]), steps[1..], s);
      assert (steps + [s])[1..] == steps[1..] + [s];
    }
  }

  // The goroutines of all targets have started; the first m of them probe.
  predicate Busy(p: Pool, targets: seq<string>, m: nat) {
    && m <= |p.workers| == |targets|
    && (forall k | 0 <= k < m :: p.workers[k] == Probing)
    && (forall k | m <= k < |targets| :: p.workers[k] == Waiting)
  }

  lemma AllDispatched(targets: seq<string>, concurrency: int) returns (steps: seq<Step>)
    requires targets != []
    ensures IsRun(Start(targets, concurrency), steps)
    ensures var p := Exec(Start(targets, concurrency), steps);
            Busy(p, targets, 0) && p.slots == 0
  {
    var p := Start(targets, concurrency);
    steps := [];
    for n := 0 to |targets|
      invariant IsRun(p, steps)
      invariant var q := Exec(p, steps);
                && q == p.(workers := q.workers, pending := n) && |q.workers| == n
                && forall k | 0 <= k < n :: q.workers[k] == Waiting
    {
      RunAppend(p, steps, Dispatch);
      steps := steps + [Dispatch];
    }
  }

  // Some run has as many probes going at once as allowed: `concurrency`, or one for each target if that is not a
  // usable bound.
  lemma ParallelismIsReached(targets: seq<string>, concurrency: int) returns (steps: seq<Step>)
    requires targets != []
    ensures IsRun(Start(targets, concurrency), steps)
    ensures Count(Exec(Start(targets, concurrency), steps).workers, Running) ==
            if 0 < concurrency <= |targets| then concurrency else |targets|
  {
    var p := Start(targets, concurrency);
    steps := AllDispatched(targets, concurrency);
    var m := if 0 < concurrency <= |targets| then concurrency else |targets|;
    CountNone(Exec(p, steps).workers, Running);
    for n := 0 to m
      invariant IsRun(p, steps)
      invariant var q := Exec(p, steps);
                Busy(q, targets, n) && q.slots == n == Count(q.workers, Running)
    {
      var q := Exec(p, steps);
      RunFrame(p, steps);
      CountUpdate(q.workers, n, Probing, Running);
      RunAppend(p, steps, Acquire(n));
      steps := steps + [Acquire(n)];
    }
  }
}
