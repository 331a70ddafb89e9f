/**
  That the long poll comes to rest: once the registry stops changing, the request handler of
  `internal/coord/server.go` and the poll loop of `internal/daemon/daemon.go` make a bounded
  number of steps and then wait on the open channel.
 */
module PollProgress {
  import opened Basics
  import opened AddressPool
  import opened PeerRegistry
  import opened Daemon
  import opened Updates
  import opened LongPoll

  // The steps of the request and the poll loop. Tearing a reply and learning endpoints are not among them.
  predicate Polls(x: Step) { x.Ask? || x.Check? || x.Wake? || x.Read? || x.Reply? || x.Receive? }

  // No mutation, no failing request and no timeout.
  predicate Calm(x: Step) { !x.Mutate? && !x.Fail? && !x.Timeout? }

  ghost predicate CalmRun(w: World, steps: seq<Step>)
    decreases |steps|
  {
    steps == [] || (Calm(steps[0]) && Enabled(w, steps[0]) && CalmRun(LongPoll.Apply(w, steps[0]), steps[1..]))
  }

  ghost function After(w: World, steps: seq<Step>): World
    requires CalmRun(w, steps)
    decreases |steps|
  {
    if steps == [] then w else After(LongPoll.Apply(w, steps[0]), steps[1..])
  }

  function PollSteps(steps: seq<Step>): nat {
    if steps == [] then 0 else (if Polls(steps[0]) then 1 else 0) + PollSteps(steps[1..])
  }

  // Poll steps to go from an idle daemon that has etag e.
  function FromIdle(w: World, e: Etag): nat
    requires w.store.issued != []
  {
    if e == w.store.Etag() then 2 else if e == "" then 6 else 7
  }

  function Remaining(w: World): nat
    requires w.store.issued != []
    requires (w.poll.Marshalling? || w.poll.Replied?) ==> w.poll.at < |w.store.issued|
  {
    match w.poll
    case Idle => FromIdle(w, w.clientEtag)
    case Asked(since) => if since == w.store.Etag() then 1 else 6
    case Parked(_, ch) => if ch == w.store.Channel() then 0 else 6
    case Reading => 5
    case Replied(at, _) => 1 + FromIdle(w, w.store.issued[at].tag)
    case Marshalling(at, _) => 2 + FromIdle(w, w.store.issued[at].tag)
  }

  // Only a reply that arrives changes what the daemon knows: a request that fails or times out loses nothing, and
  // the next one asks from the same etag.
  lemma OnlyRepliesTeach(w: World, x: Step)
    requires Enabled(w, x) && !x.Receive?
    ensures var v := LongPoll.Apply(w, x);
            && v.clientEtag == w.clientEtag && v.last == w.last && v.fleet == w.fleet
            && (!x.Absorb? ==> v.roster == w.roster)
            && (x.Fail? ==>
                  && Enabled(v, Ask)
                  && LongPoll.Apply(v, Ask).poll == if w.clientEtag == "" then Reading else Asked(w.clientEtag))
            && (x.Timeout? ==> v.poll == Reading)
  {}

  lemma CalmStep(w: World, x: Step)
    requires Inv(w) && w.store.Etag() != "" && Calm(x) && Enabled(w, x)
    ensures var v := LongPoll.Apply(w, x);
            Inv(v) && v.store == w.store && Remaining(v) == Remaining(w) - if Polls(x) then 1 else 0
  {
    StepKeepsInv(w, x);
  }

  lemma {:induction false} CalmRunCounts(w: World, steps: seq<Step>)
    requires Inv(w) && w.store.Etag() != "" && CalmRun(w, steps)
    ensures var v := After(w, steps);
            Inv(v) && v.store == w.store && Remaining(v) == Remaining(w) - PollSteps(steps)
    decreases |steps|
  {
    if steps == [] {
    } else {
      CalmStep(w, steps[0]);
      CalmRunCounts(LongPoll.Apply(w, steps[0]), steps[1..]);
    }
  }

  // Until the daemon waits on the open channel there is a poll step to make.
  lemma PollGoesOn(w: World) returns (x: Step)
    requires Inv(w) && !ParkedOpen(w)
    ensures Polls(x) && Calm(x) && Enabled(w, x)
  {
    match w.poll {
      case Idle => x := Ask;
      case Asked(_) => x := Check;
      case Parked(_, _) => x := Wake;
      case Reading => x := Read;
      case Marshalling(_, _) => x := Reply;
      case Replied(_, snap) => x := Receive(seq(|snap|, _ => true));
    }
  }

  // From any world the coordinator and a daemon can reach, once mutations, failures and timeouts stop: every run
  // makes at most nine poll steps; exactly when it can make no more the daemon waits on the open channel; and then
  // it has converged, if the etags tell the snapshots apart.
  lemma PollComesToRest(w: World, steps: seq<Step>)
    requires Inv(w) && w.store.Etag() != "" && CalmRun(w, steps)
    ensures PollSteps(steps) <= 9
    ensures var v := After(w, steps);
            && v.store == w.store
            && ((forall x | Polls(x) :: !Enabled(v, x)) <==> ParkedOpen(v))
            && (PollSteps(steps) == Remaining(w) <==> ParkedOpen(v))
            && (ParkedOpen(v) && EtagsTellApart(w.store.issued) ==> Converged(v))
  {
    CalmRunCounts(w, steps);
    var v := After(w, steps);
    if ParkedOpen(v) {
      if EtagsTellApart(w.store.issued) { Converges(v); }
    } else {
      var x := PollGoesOn(v);
    }
  }
}
