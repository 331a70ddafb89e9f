/**
  What becomes of a pull of `internal/coord/server.go`, over every interleaving: the steps it
  takes, and the envelopes it answers with, against the fates of `SignalQueue`.
 */
module SignalPulls {
  import R = PeerRegistry
  import opened SignalWake
  import Q = SignalQueue

  // --- The control flow of one pull ---

  predicate Mine(s: Step, p: Id) { !s.EnqueueLocked? && !s.Close? && s.p == p }

  // The steps of pull p.
  function Own(steps: seq<Step>, p: Id): seq<Step> {
    if steps == [] then []
    else Head(steps[0], p) + Own(steps[1..], p)
  }

  function Head(s: Step, p: Id): seq<Step> { if Mine(s, p) then [s] else [] }

  // A pop that gave the pull nothing: the queue held nothing fresh, or the request was cancelled.
  predicate FirstAttempt(s: Step) { s.FirstPop? || s.NoPop? }
  predicate SecondAttempt(s: Step) { s.Repop? || s.NoPop? }

  predicate Waited(own: seq<Step>, key: R.DiscoKey) {
    |own| >= 3 && own[0].Arrive? && own[0].key == key && FirstAttempt(own[1]) && own[2].Check?
  }

  // The last step was taken after the wait was over: the check found an envelope, or the pull was woken.
  predicate AfterWait(own: seq<Step>, key: R.DiscoKey) {
    Waited(own, key) && (|own| == 4 || (|own| == 5 && own[3].Wake?))
  }

  // The handler, read off the steps that have been taken: pop; if that gave nothing, wait; if the wait did
  // not time out, pop once more; answer.
  predicate Follows(own: seq<Step>, pull: Pull) {
    match pull
    case Popping(key) => |own| == 1 && own[0].Arrive? && own[0].key == key
    case Checking(key) => |own| == 2 && own[0].Arrive? && own[0].key == key && FirstAttempt(own[1])
    case Parked(key, _) => |own| == 3 && Waited(own, key)
    case Repopping(key) => Waited(own, key) && (|own| == 3 || (|own| == 4 && own[3].Wake?))
    case Answered(key, _, got) =>
      || (|own| == 2 && own[0].Arrive? && own[0].key == key && own[1].FirstPop? && got != [])
      || (AfterWait(own, key) && own[|own| - 1].Repop?)
    case Empty(key) =>
      || (Waited(own, key) && |own| == 4 && own[3].Timeout?)
      || (AfterWait(own, key) && own[|own| - 1].NoPop?)
  }

  predicate Story(w: World, own: seq<Step>, p: Id) { if p in w.pulls then Follows(own, w.pulls[p]) else own == [] }

  lemma StoryStep(w: World, own: seq<Step>, s: Step, p: Id)
    requires Enabled(w, s) && Story(w, own, p)
    ensures Story(Apply(w, s), own + Head(s, p), p)
  {
    if Mine(s, p) {
      var next := own + [s];
      assert next[|own|] == s && forall i | 0 <= i < |own| :: next[i] == own[i];
    } else {
      assert own + [] == own;
    }
  }

  lemma JoinAssociates<T>(a: seq<T>, b: seq<T>, c: seq<T>)
    ensures a + b + c == a + (b + c)
  {}

  lemma {:induction false} StoryGrows(w: World, own: seq<Step>, steps: seq<Step>, p: Id)
    requires IsRun(w, steps) && Story(w, own, p)
    ensures Story(Exec(w, steps), own + Own(steps, p), p)
    decreases |steps|
  {
    if steps == [] {
      assert own + [] == own;
    } else {
      StoryStep(w, own, steps[0], p);
      StoryGrows(Apply(w, steps[0]), own + Head(steps[0], p), steps[1..], p);
      JoinAssociates(own, Head(steps[0], p), Own(steps[1..], p));
    }
  }

  // In every run, the steps of every pull are those of the handler.
  lemma PullStory(steps: seq<Step>, p: Id)
    requires IsRun(Init, steps)
    ensures Story(Exec(Init, steps), Own(steps, p), p)
  {
    StoryGrows(Init, [], steps, p);
    assert [] + Own(steps, p) == Own(steps, p);
  }

  // --- A woken pull pops again ---

  lemma {:induction false} Split(w: World, steps: seq<Step>, k: nat)
    requires k <= |steps| && IsRun(w, steps)
    ensures IsRun(w, steps[..k]) && IsRun(Exec(w, steps[..k]), steps[k..])
    ensures Exec(Exec(w, steps[..k]), steps[k..]) == Exec(w, steps)
    decreases k
  {
    if k == 0 {
      assert steps[..0] == [] && steps[0..] == steps;
    } else {
      Split(Apply(w, steps[0]), steps[1..], k - 1);
      assert steps[..k][1..] == steps[1..][..k - 1] && steps[1..][k - 1..] == steps[k..];
    }
  }

  lemma {:induction false} RepopFollows(w: World, steps: seq<Step>, p: Id) returns (m: nat)
    requires IsRun(w, steps) && p in w.pulls && w.pulls[p].Repopping?
    requires p in Exec(w, steps).pulls && Exec(w, steps).pulls[p].Done() && NoPop(p) !in steps
    ensures m < |steps| && steps[m].Repop? && steps[m].p == p
    decreases |steps|
  {
    if steps == [] {
      assert false;
    } else if Mine(steps[0], p) {
      m := 0;
    } else {
      m := RepopFollows(Apply(w, steps[0]), steps[1..], p);
      m := m + 1;
    }
  }

  // If p is woken at step k and later done, without being cancelled, it popped again in between.
  lemma WokenPullPopsAgain(steps: seq<Step>, k: nat, p: Id) returns (m: nat)
    requires IsRun(Init, steps) && k < |steps| && steps[k] == Wake(p) && NoPop(p) !in steps[k + 1..]
    requires p in Exec(Init, steps).pulls && Exec(Init, steps).pulls[p].Done()
    ensures k < m < |steps| && steps[m].Repop? && steps[m].p == p
  {
    Split(Init, steps, k);
    var w := Exec(Init, steps[..k]);
    assert steps[k..][0] == Wake(p) && steps[k..][1..] == steps[k + 1..];
    m := RepopFollows(Apply(w, Wake(p)), steps[k + 1..], p);
    m := k + 1 + m;
  }

  // Every pop drains: right after it the queue of its recipient is empty, and every other is as before.
  lemma PopDrains(w: World, s: Step, key: R.DiscoKey)
    requires Enabled(w, s) && (s.FirstPop? || s.Repop?)
    ensures Length(Apply(w, s), key) == if key == w.pulls[s.p].key then 0 else Length(w, key)
  {
    LengthAfter(w.history, Q.Pop(w.pulls[s.p].key, s.now), key);
  }

  // --- A pull sleeps only while there is nothing for it ---

  // Checking parks the pull exactly if its queue is empty, on the channel that the next enqueue will close.
  lemma ParksIffEmpty(w: World, p: Id)
    requires Enabled(w, Check(p))
    ensures var v, key := Apply(w, Check(p)), w.pulls[p].key;
            && v.history == w.history
            && (v.pulls[p].Parked? <==> Length(w, key) == 0)
            && (Length(w, key) == 0 ==> v.pulls[p].key == key && key in v.wakes && v.wakes[key] == v.pulls[p].ch)
  {}

  predicate Enqueues(s: Step, key: R.DiscoKey) { s.EnqueueLocked? && s.key == key }

  ghost predicate WaitsOnRegistered(w: World, p: Id, key: R.DiscoKey) {
    && p in w.pulls && w.pulls[p].Parked? && w.pulls[p].key == key
    && key in w.wakes && w.wakes[key] == w.pulls[p].ch
  }

  lemma WaitsStep(w: World, s: Step, p: Id, key: R.DiscoKey)
    requires Enabled(w, s) && WaitsOnRegistered(w, p, key) && !Enqueues(s, key) && !Mine(s, p)
    ensures WaitsOnRegistered(Apply(w, s), p, key)
  {}

  // Until an envelope for its key arrives, a parked pull waits on the registered channel.
  lemma {:induction false} WaitsOn(w: World, steps: seq<Step>, p: Id, key: R.DiscoKey)
    requires IsRun(w, steps) && WaitsOnRegistered(w, p, key)
    requires forall i | 0 <= i < |steps| :: !Enqueues(steps[i], key) && !Mine(steps[i], p)
    ensures WaitsOnRegistered(Exec(w, steps), p, key)
    decreases |steps|
  {
    if steps == [] {
    } else {
      assert !Enqueues(steps[0], key) && !Mine(steps[0], p);
      WaitsStep(w, steps[0], p, key);
      WaitsOn(Apply(w, steps[0]), steps[1..], p, key);
    }
  }

  // A pull that parks and is woken later: an envelope for its key was enqueued in between.
  lemma WokenByEnqueue(before: seq<Step>, mid: seq<Step>, p: Id)
    requires IsRun(Init, before) && Enabled(Exec(Init, before), Check(p))
    requires var v := Apply(Exec(Init, before), Check(p));
             v.pulls[p].Parked? && IsRun(v, mid) && Enabled(Exec(v, mid), Wake(p))
    requires forall i | 0 <= i < |mid| :: !Mine(mid[i], p)
    ensures exists i :: 0 <= i < |mid| && Enqueues(mid[i], Exec(Init, before).pulls[p].key)
  {
    var w := Exec(Init, before);
    var key, v := w.pulls[p].key, Apply(w, Check(p));
    ParksIffEmpty(w, p);
    RunKeepsInv(Init, before);
    StepKeepsInv(w, Check(p));
    RunKeepsInv(v, mid);
    if forall i | 0 <= i < |mid| :: !Enqueues(mid[i], key) { WaitsOn(v, mid, p, key); }
  }

  // --- What the pulls answer with ---

  predicate AnsweredBy(w: World, p: Id, j: nat) { p in w.pulls && w.pulls[p].Answered? && w.pulls[p].pop == j }

  predicate Delivers(w: World, j: nat) {
    j < |w.history| && w.history[j].Pop? && Q.Delivery(w.history, j) != []
  }

  // An answer is the delivery of a pop for the pull's own key.
  ghost predicate Sound(w: World) {
    forall p | p in w.pulls && w.pulls[p].Answered? :: IsDelivery(w, w.pulls[p])
  }

  predicate IsDelivery(w: World, pull: Pull)
    requires pull.Answered?
  {
    && pull.pop < |w.history| && Q.Pops(w.history, pull.pop, pull.key)
    && pull.got == Q.Delivery(w.history, pull.pop)
  }

  // No two pulls answer with the same pop, and every pop that delivers something is the answer of one.
  ghost predicate Unshared(w: World) {
    forall p, q | p in w.pulls && q in w.pulls && w.pulls[p].Answered? && w.pulls[q].Answered? &&
      w.pulls[p].pop == w.pulls[q].pop :: p == q
  }

  ghost predicate Complete(w: World) { forall j: nat | Delivers(w, j) :: exists p :: AnsweredBy(w, p, j) }

  ghost predicate Accounted(w: World) { Sound(w) && Unshared(w) && Complete(w) }

  lemma DeliveryStays(h: seq<Q.Event>, ev: Q.Event, j: nat)
    requires j < |h| && h[j].Pop?
    ensures Q.Delivery(h + [ev], j) == Q.Delivery(h, j)
  {
    assert (h + [ev])[..j] == h[..j];
  }

  lemma StaysDelivery(w: World, s: Step, pull: Pull)
    requires Enabled(w, s) && pull.Answered? && IsDelivery(w, pull)
    ensures IsDelivery(Apply(w, s), pull)
  {
    var v := Apply(w, s);
    if v.history != w.history { DeliveryStays(w.history, v.history[|w.history|], pull.pop); }
  }

  // A step answers no pull but the one that takes it, with the pop that it appends.
  lemma NewAnswer(w: World, s: Step, p: Id)
    requires Enabled(w, s) && p in Apply(w, s).pulls && Apply(w, s).pulls[p].Answered?
    ensures var pull := Apply(w, s).pulls[p];
            || (p in w.pulls && w.pulls[p] == pull)
            || (Mine(s, p) && pull.pop == |w.history| && IsDelivery(Apply(w, s), pull))
  {}

  lemma SoundStep(w: World, s: Step)
    requires Sound(w) && Enabled(w, s)
    ensures Sound(Apply(w, s))
  {
    var v := Apply(w, s);
    forall p | p in v.pulls && v.pulls[p].Answered? ensures IsDelivery(v, v.pulls[p]) {
      NewAnswer(w, s, p);
      if p in w.pulls && w.pulls[p] == v.pulls[p] { StaysDelivery(w, s, w.pulls[p]); }
    }
  }

  lemma UnsharedStep(w: World, s: Step)
    requires Sound(w) && Unshared(w) && Enabled(w, s)
    ensures Unshared(Apply(w, s))
  {
    var v := Apply(w, s);
    forall p, q | p in v.pulls && q in v.pulls && v.pulls[p].Answered? && v.pulls[q].Answered? &&
      v.pulls[p].pop == v.pulls[q].pop ensures p == q
    {
      NewAnswer(w, s, p);
      NewAnswer(w, s, q);
      assert p in w.pulls && w.pulls[p] == v.pulls[p] ==> IsDelivery(w, w.pulls[p]);
      assert q in w.pulls && w.pulls[q] == v.pulls[q] ==> IsDelivery(w, w.pulls[q]);
    }
  }

  lemma CompleteStep(w: World, s: Step)
    requires Complete(w) && Enabled(w, s)
    ensures Complete(Apply(w, s))
  {
    var v := Apply(w, s);
    forall j: nat | Delivers(v, j) ensures exists p :: AnsweredBy(v, p, j) {
      if j < |w.history| {
        if v.history != w.history { DeliveryStays(w.history, v.history[|w.history|], j); }
        assert Delivers(w, j);
        var p :| AnsweredBy(w, p, j);
        assert AnsweredBy(v, p, j);
      } else {
        assert AnsweredBy(v, s.p, j);
      }
    }
  }

  lemma {:induction false} RunAccounts(w: World, steps: seq<Step>)
    requires Accounted(w) && IsRun(w, steps)
    ensures Accounted(Exec(w, steps))
    decreases |steps|
  {
    if steps == [] {
    } else {
      SoundStep(w, steps[0]);
      UnsharedStep(w, steps[0]);
      CompleteStep(w, steps[0]);
      RunAccounts(Apply(w, steps[0]), steps[1..]);
    }
  }

  predicate Carries(w: World, p: Id, i: nat) { p in w.pulls && w.pulls[p].Answered? && i in w.pulls[p].got }

  // In every run, an envelope is delivered, by its fate, exactly if some pull answers with it.
  lemma DeliveredIffAnswered(steps: seq<Step>, i: nat)
    requires IsRun(Init, steps) && i < |Exec(Init, steps).history| && Exec(Init, steps).history[i].Enqueue?
    ensures var w := Exec(Init, steps);
            Q.FateOf(w.history, i).DeliveredAt? <==> exists p :: Carries(w, p, i)
  {
    RunAccounts(Init, steps);
    var w := Exec(Init, steps);
    if Q.FateOf(w.history, i).DeliveredAt? {
      var j := Q.FateOf(w.history, i).pop;
      Q.DeliveryAgreesWithFate(w.history, j, i);
      assert Delivers(w, j);
      var p :| AnsweredBy(w, p, j);
      assert IsDelivery(w, w.pulls[p]) && Carries(w, p, i);
    }
    if p :| Carries(w, p, i) {
      assert IsDelivery(w, w.pulls[p]);
      Q.DeliveryAgreesWithFate(w.history, w.pulls[p].pop, i);
    }
  }

  // And then it is one pull only, one for the envelope's recipient, and the pop is the one its fate names.
  lemma AnsweredOnce(steps: seq<Step>, p: Id, q: Id, i: nat)
    requires IsRun(Init, steps) && Carries(Exec(Init, steps), p, i) && Carries(Exec(Init, steps), q, i)
    ensures p == q
    ensures var w := Exec(Init, steps);
            && Q.Sends(w.history, i, w.pulls[p].key)
            && Q.FateOf(w.history, i) == Q.DeliveredAt(w.pulls[p].pop)
  {
    RunAccounts(Init, steps);
    var w := Exec(Init, steps);
    assert IsDelivery(w, w.pulls[p]) && IsDelivery(w, w.pulls[q]);
    Q.DeliveryInOrder(w.history, w.pulls[p].pop);
    Q.DeliveryAgreesWithFate(w.history, w.pulls[p].pop, i);
    Q.DeliveryAgreesWithFate(w.history, w.pulls[q].pop, i);
  }
}
