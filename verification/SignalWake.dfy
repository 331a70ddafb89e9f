/**
  The wait and wake protocol of `internal/coord/store.go` with the pull handler of
  `internal/coord/server.go`, as interleaved steps: every lock section is one step,
  and an enqueuer closes the channel it took in a later step, without the lock.
 */
module SignalWake {
  import opened Basics
  import opened PeerRegistry
  import SignalQueue

  type Id = nat         // goroutines: enqueuers and pull handlers

  // handleSignalPull: pop, then wait if nothing came, then pop again if woken. It answers with
  // the envelopes `got` that event `pop` of the history delivered, or with none.
  datatype Pull =
    | Popping(key: DiscoKey)
    | Checking(key: DiscoKey)
    | Parked(key: DiscoKey, ch: Chan)
    | Repopping(key: DiscoKey)
    | Answered(key: DiscoKey, pop: nat, got: seq<nat>)
    | Empty(key: DiscoKey)
  {
    predicate Done() { Answered? || Empty? }
  }

  datatype World = World(
    history: seq<SignalQueue.Event>,  // of the queues
    wakes: map<DiscoKey, Chan>,       // signalWakes
    closing: map<Id, Chan>,           // enqueuers between unlock and close
    closed: set<Chan>,
    made: nat,
    pulls: map<Id, Pull>)

  const Init := World([], map[], map[], {}, 0, map[])

  function Length(w: World, key: DiscoKey): nat { |SignalQueue.QueueOf(w.history, key)| }

  datatype Step =
    | EnqueueLocked(e: Id, key: DiscoKey, env: SignalQueue.Envelope)
    | Close(e: Id)
    | Arrive(p: Id, key: DiscoKey)
    | FirstPop(p: Id, now: Time)
    | NoPop(p: Id)                    // the request is cancelled: the pop, first or second, takes nothing
    | Check(p: Id)
    | Wake(p: Id)
    | Timeout(p: Id)
    | Repop(p: Id, now: Time)

  predicate Enabled(w: World, s: Step) {
    match s
    case EnqueueLocked(e, _, _) => e !in w.closing
    case Close(e) => e in w.closing
    case Arrive(p, _) => p !in w.pulls
    case FirstPop(p, _) => p in w.pulls && w.pulls[p].Popping?
    case NoPop(p) => p in w.pulls && (w.pulls[p].Popping? || w.pulls[p].Repopping?)
    case Check(p) => p in w.pulls && w.pulls[p].Checking?
    case Wake(p) => p in w.pulls && w.pulls[p].Parked? && w.pulls[p].ch in w.closed
    case Timeout(p) => p in w.pulls && w.pulls[p].Parked?
    case Repop(p, _) => p in w.pulls && w.pulls[p].Repopping?
  }

  // What a pop of the queue of `key` delivers.
  function Popped(w: World, key: DiscoKey, now: Time): seq<nat> {
    SignalQueue.Delivery(w.history + [SignalQueue.Pop(key, now)], |w.history|)
  }

  function Apply(w: World, s: Step): World
    requires Enabled(w, s)
  {
    match s
    case EnqueueLocked(e, key, env) =>
      var v := w.(history := w.history + [SignalQueue.Enqueue(key, env)]);
      if key in w.wakes then v.(wakes := w.wakes - {key}, closing := w.closing[e := w.wakes[key]]) else v
    case Close(e) => w.(closing := w.closing - {e}, closed := w.closed + {w.closing[e]})
    case Arrive(p, key) => w.(pulls := w.pulls[p := Popping(key)])
    case FirstPop(p, now) =>
      var key := w.pulls[p].key;
      var got := Popped(w, key, now);
      w.(history := w.history + [SignalQueue.Pop(key, now)],
         pulls := w.pulls[p := if got != [] then Answered(key, |w.history|, got) else Checking(key)])
    case NoPop(p) =>
      var pull := w.pulls[p];
      w.(pulls := w.pulls[p := if pull.Popping? then Checking(pull.key) else Empty(pull.key)])
    case Check(p) =>
      var key := w.pulls[p].key;
      if Length(w, key) > 0 then w.(pulls := w.pulls[p := Repopping(key)])
      else if key in w.wakes then w.(pulls := w.pulls[p := Parked(key, w.wakes[key])])
      else w.(wakes := w.wakes[key := w.made], made := w.made + 1, pulls := w.pulls[p := Parked(key, w.made)])
    case Wake(p) => w.(pulls := w.pulls[p := Repopping(w.pulls[p].key)])
    case Timeout(p) => w.(pulls := w.pulls[p := Empty(w.pulls[p].key)])
    case Repop(p, now) =>
      var key := w.pulls[p].key;
      w.(history := w.history + [SignalQueue.Pop(key, now)],
         pulls := w.pulls[p := Answered(key, |w.history|, Popped(w, key, now))])
  }

  predicate IsRun(w: World, steps: seq<Step>)
    decreases |steps|
  {
    steps == [] || (Enabled(w, steps[0]) && IsRun(Apply(w, steps[0]), steps[1..]))
  }

  function Exec(w: World, steps: seq<Step>): World
    requires IsRun(w, steps)
    decreases |steps|
  {
    if steps == [] then w else Exec(Apply(w, steps[0]), steps[1..])
  }

  // --- Where a channel is ---

  ghost predicate Registered(w: World, c: Chan) { exists key :: key in w.wakes && w.wakes[key] == c }
  ghost predicate AboutToClose(w: World, c: Chan) { exists e :: e in w.closing && w.closing[e] == c }
  ghost predicate Released(w: World, c: Chan) { c in w.closed || AboutToClose(w, c) }

  ghost predicate Channels(w: World) {
    && (forall k | k in w.wakes :: w.wakes[k] < w.made && w.wakes[k] !in w.closed)
    && (forall e | e in w.closing :: w.closing[e] < w.made && w.closing[e] !in w.closed)
    && (forall c | c in w.closed :: c < w.made)
    && (forall k, e | k in w.wakes && e in w.closing :: w.wakes[k] != w.closing[e])
    && (forall k, l | k in w.wakes && l in w.wakes && w.wakes[k] == w.wakes[l] :: k == l)
    && (forall d, e | d in w.closing && e in w.closing && w.closing[d] == w.closing[e] :: d == e)
  }

  ghost predicate Covered(w: World) {
    forall c: nat | c < w.made :: Registered(w, c) || Released(w, c)
  }

  ghost predicate Waiters(w: World) {
    // a registered recipient has an empty queue
    && (forall key | key in w.wakes :: Length(w, key) == 0)
    // a parked handler's channel is registered for its own recipient, if at all
    && (forall p | p in w.pulls && w.pulls[p].Parked? :: w.pulls[p].ch < w.made)
    && (forall p, k | p in w.pulls && w.pulls[p].Parked? && k in w.wakes && w.wakes[k] == w.pulls[p].ch ::
          k == w.pulls[p].key)
  }

  ghost predicate Inv(w: World) { Channels(w) && Covered(w) && Waiters(w) }

  lemma StepKeepsCovered(w: World, s: Step)
    requires Covered(w) && Enabled(w, s)
    ensures Covered(Apply(w, s))
    ensures forall c: nat | Released(w, c) :: Released(Apply(w, s), c)
  {
    var v := Apply(w, s);
    forall c: nat | Released(w, c) ensures Released(v, c) { StaysReleased(w, s, c); }
    forall c: nat | c < v.made ensures Registered(v, c) || Released(v, c) {
      if c == w.made {
        assert w.pulls[s.p].key in v.wakes && v.wakes[w.pulls[s.p].key] == c;
      } else if Registered(w, c) {
        var k :| k in w.wakes && w.wakes[k] == c;
        if k in v.wakes && v.wakes[k] == c {
          assert Registered(v, c);
        } else {
          assert s.e in v.closing && v.closing[s.e] == c;
        }
      }
    }
  }

  lemma StaysReleased(w: World, s: Step, c: nat)
    requires Enabled(w, s) && Released(w, c)
    ensures Released(Apply(w, s), c)
  {
    var v := Apply(w, s);
    if c !in w.closed {
      var d :| d in w.closing && w.closing[d] == c;
      if !(s.Close? && s.e == d) { assert d in v.closing && v.closing[d] == c; }
    }
  }

  lemma StepKeepsInv(w: World, s: Step)
    requires Inv(w) && Enabled(w, s)
    ensures Inv(Apply(w, s))
    ensures forall c: nat | Released(w, c) :: Released(Apply(w, s), c)
  {
    StepKeepsCovered(w, s);
    match s {
      case EnqueueLocked(_, _, _) => EnqueueKeeps(w, s);
      case Close(_) => CloseKeeps(w, s);
      case Check(_) => CheckKeepsChannels(w, s); CheckKeepsWaiters(w, s);
      case _ => OthersKeep(w, s);
    }
  }

  lemma EnqueueKeeps(w: World, s: Step)
    requires Channels(w) && Waiters(w) && Enabled(w, s) && s.EnqueueLocked?
    ensures Channels(Apply(w, s))
    ensures Waiters(Apply(w, s))
  {
    EnqueueKeepsChannels(w, s);
    EnqueueKeepsWaiters(w, s);
  }

  lemma EnqueueKeepsChannels(w: World, s: Step)
    requires Channels(w) && Enabled(w, s) && s.EnqueueLocked?
    ensures Channels(Apply(w, s))
  {}

  // One more event changes the length of its own queue only; a pop empties it, an enqueue does not leave it empty.
  lemma LengthAfter(h: seq<SignalQueue.Event>, ev: SignalQueue.Event, key: DiscoKey)
    ensures var q, r := SignalQueue.QueueOf(h, key), SignalQueue.QueueOf(h + [ev], key);
            if ev.to != key then r == q else if ev.Pop? then r == [] else r != []
  {
    assert (h + [ev])[..|h|] == h;
  }

  lemma EnqueueKeepsWaiters(w: World, s: Step)
    requires Waiters(w) && Enabled(w, s) && s.EnqueueLocked?
    ensures Waiters(Apply(w, s))
  {
    forall key | key in Apply(w, s).wakes ensures Length(Apply(w, s), key) == 0 {
      LengthAfter(w.history, SignalQueue.Enqueue(s.key, s.env), key);
    }
  }

  lemma CloseKeeps(w: World, s: Step)
    requires Channels(w) && Waiters(w) && Enabled(w, s) && s.Close?
    ensures Channels(Apply(w, s))
    ensures Waiters(Apply(w, s))
  {}

  lemma CheckKeepsChannels(w: World, s: Step)
    requires Channels(w) && Enabled(w, s) && s.Check?
    ensures Channels(Apply(w, s))
  {}

  lemma CheckKeepsWaiters(w: World, s: Step)
    requires Channels(w) && Waiters(w) && Enabled(w, s) && s.Check?
    ensures Waiters(Apply(w, s))
  {
    var key := w.pulls[s.p].key;
    if Length(w, key) == 0 && key !in w.wakes {
      var v := Apply(w, s);
      assert forall k | k in v.wakes :: k == key || (k in w.wakes && v.wakes[k] == w.wakes[k] < w.made);
    }
  }

  predicate Other(s: Step) { !s.EnqueueLocked? && !s.Close? && !s.Check? }

  lemma OthersKeep(w: World, s: Step)
    requires Channels(w) && Waiters(w) && Enabled(w, s) && Other(s)
    ensures Channels(Apply(w, s))
    ensures Waiters(Apply(w, s))
  {
    OthersKeepChannels(w, s);
    OthersKeepWaiters(w, s);
  }

  lemma OthersKeepChannels(w: World, s: Step)
    requires Channels(w) && Enabled(w, s) && Other(s)
    ensures Channels(Apply(w, s))
  {
    var v := Apply(w, s);
    assert v.wakes == w.wakes && v.closing == w.closing && v.closed == w.closed && v.made == w.made;
  }

  lemma OthersKeepWaiters(w: World, s: Step)
    requires Waiters(w) && Enabled(w, s) && Other(s)
    ensures Waiters(Apply(w, s))
  {
    if s.FirstPop? || s.Repop? {
      forall key | key in w.wakes ensures Length(Apply(w, s), key) == 0 {
        LengthAfter(w.history, SignalQueue.Pop(w.pulls[s.p].key, s.now), key);
      }
    }
  }

  lemma {:induction false} RunKeepsInv(w: World, steps: seq<Step>)
    requires Inv(w) && IsRun(w, steps)
    ensures Inv(Exec(w, steps))
    ensures forall c: nat | Released(w, c) :: Released(Exec(w, steps), c)
    decreases |steps|
  {
    if steps == [] {
    } else {
      StepKeepsInv(w, steps[0]);
      RunKeepsInv(Apply(w, steps[0]), steps[1..]);
    }
  }

  // --- Main results, for every interleaving ---

  // Every channel is in exactly one of: registered, about to be closed, closed; and no
  // enqueuer ever closes a channel that is closed already.
  lemma NoDoubleClose(steps: seq<Step>)
    requires IsRun(Init, steps)
    ensures var w := Exec(Init, steps);
            && (forall c: nat | c < w.made :: Registered(w, c) || AboutToClose(w, c) || c in w.closed)
            && (forall c: nat :: !(Registered(w, c) && AboutToClose(w, c)) && !(Registered(w, c) && c in w.closed))
            && (forall e | e in w.closing :: w.closing[e] !in w.closed)
            && (forall d, e | d in w.closing && e in w.closing && d != e :: w.closing[d] != w.closing[e])
  {
    RunKeepsInv(Init, steps);
  }

  // A handler parked while its queue is not empty will be woken: its channel is closed or about to be.
  lemma NoLostWakeup(steps: seq<Step>, p: Id)
    requires IsRun(Init, steps)
    ensures var w := Exec(Init, steps);
            && (forall key | key in w.wakes :: Length(w, key) == 0)
            && (p in w.pulls && w.pulls[p].Parked? && Length(w, w.pulls[p].key) > 0 ==> Released(w, w.pulls[p].ch))
  {
    RunKeepsInv(Init, steps);
  }

  // A handler parked when an envelope for its recipient arrives is released by that
  // arrival, and stays released whatever happens next, pops by others included.
  lemma EnqueueReleasesWaiters(before: seq<Step>, e: Id, key: DiscoKey, env: SignalQueue.Envelope, after: seq<Step>,
                               p: Id)
    requires IsRun(Init, before)
    requires var w := Exec(Init, before);
             && p in w.pulls && w.pulls[p].Parked? && w.pulls[p].key == key
             && Enabled(w, EnqueueLocked(e, key, env))
             && IsRun(Apply(w, EnqueueLocked(e, key, env)), after)
    ensures var w := Exec(Init, before);
            Released(Exec(Apply(w, EnqueueLocked(e, key, env)), after), w.pulls[p].ch)
  {
    RunKeepsInv(Init, before);
    var w := Exec(Init, before);
    var v := Apply(w, EnqueueLocked(e, key, env));
    StepKeepsInv(w, EnqueueLocked(e, key, env));
    RunKeepsInv(v, after);
    if Registered(w, w.pulls[p].ch) { assert e in v.closing && v.closing[e] == w.pulls[p].ch; }
  }
}
