/**
  What the registry of `internal/coord/store.go` holds and answers, from the history of calls
  alone: which call each field of a record comes from, and which reply every call gets.
 */
module RegistryHistory {
  import opened Basics
  import opened AddressPool
  import opened PeerRegistry

  // --- The calls that matter to a key ---

  // Call i tries to register the key: it is not cancelled and the key has 32 bytes.
  predicate AttemptAt(ops: seq<Op>, i: int, key: NodeKey) {
    0 <= i < |ops| && ops[i].Register? && ops[i].key == key && !ops[i].cancelled && |key| == 32
  }

  ghost predicate Attempted(ops: seq<Op>, n: int, key: NodeKey) { exists i :: i < n && AttemptAt(ops, i, key) }

  // Call i replaces the endpoints of the key: it is not cancelled and came after an attempt.
  ghost predicate SetAt(ops: seq<Op>, i: int, key: NodeKey) {
    0 <= i < |ops| && ops[i].SetEndpoints? && ops[i].key == key && !ops[i].cancelled && Attempted(ops, i, key)
  }

  ghost predicate FirstAttempt(ops: seq<Op>, i: int, key: NodeKey) {
    AttemptAt(ops, i, key) && !Attempted(ops, i, key)
  }

  ghost predicate LastAttempt(ops: seq<Op>, i: int, key: NodeKey) {
    AttemptAt(ops, i, key) && forall j | i < j :: !AttemptAt(ops, j, key)
  }

  ghost predicate LastSet(ops: seq<Op>, i: int, key: NodeKey) {
    SetAt(ops, i, key) && forall j | i < j :: !SetAt(ops, j, key)
  }

  ghost predicate EverSet(ops: seq<Op>, key: NodeKey) { exists i :: SetAt(ops, i, key) }

  // Call i is the last that changed the record.
  ghost predicate LastTouch(ops: seq<Op>, i: int, key: NodeKey) {
    && (AttemptAt(ops, i, key) || SetAt(ops, i, key))
    && forall j | i < j :: !AttemptAt(ops, j, key) && !SetAt(ops, j, key)
  }

  // The record: key and name of the last attempt, endpoints of the last call that set them or else of the
  // first attempt, time of the last of all these.
  ghost predicate NamedByLast(ops: seq<Op>, key: NodeKey, discoKey: DiscoKey, name: string) {
    forall i | LastAttempt(ops, i, key) :: discoKey == ops[i].discoKey && name == ops[i].name
  }

  ghost predicate EndpointsByLast(ops: seq<Op>, key: NodeKey, eps: seq<Endpoint>) {
    && (forall i | LastSet(ops, i, key) :: eps == ops[i].eps)
    && (!EverSet(ops, key) ==> forall i | FirstAttempt(ops, i, key) :: eps == ops[i].endpoints)
  }

  ghost predicate TimedByLast(ops: seq<Op>, key: NodeKey, at: Time) {
    forall i | LastTouch(ops, i, key) :: at == ops[i].now
  }

  ghost predicate IsRecord(ops: seq<Op>, p: Peer) {
    && NamedByLast(ops, p.nodeKey, p.discoKey, p.name)
    && EndpointsByLast(ops, p.nodeKey, p.endpoints)
    && TimedByLast(ops, p.nodeKey, p.updatedAt)
  }

  // --- One more call ---

  lemma AttemptBefore(ops: seq<Op>, op: Op, i: int, key: NodeKey)
    requires i < |ops|
    ensures AttemptAt(ops + [op], i, key) <==> AttemptAt(ops, i, key)
    ensures Attempted(ops + [op], i, key) <==> Attempted(ops, i, key)
  {
    forall j | j < i ensures AttemptAt(ops + [op], j, key) <==> AttemptAt(ops, j, key) {
      assert 0 <= j ==> (ops + [op])[j] == ops[j];
    }
  }

  lemma AttemptedAll(ops: seq<Op>, op: Op, key: NodeKey)
    ensures Attempted(ops + [op], |ops|, key) <==> Attempted(ops, |ops|, key)
  {
    forall j | j < |ops| ensures AttemptAt(ops + [op], j, key) <==> AttemptAt(ops, j, key) {
      AttemptBefore(ops, op, j, key);
    }
  }

  lemma SetBefore(ops: seq<Op>, op: Op, i: int, key: NodeKey)
    requires i < |ops|
    ensures SetAt(ops + [op], i, key) <==> SetAt(ops, i, key)
  {
    AttemptBefore(ops, op, i, key);
  }

  // The call at the end decides what it sets, and what it does not set stays decided by the calls before.
  lemma NamedStep(ops: seq<Op>, op: Op, key: NodeKey, discoKey: DiscoKey, name: string)
    requires if AttemptAt(ops + [op], |ops|, key) then discoKey == op.discoKey && name == op.name
             else NamedByLast(ops, key, discoKey, name)
    ensures NamedByLast(ops + [op], key, discoKey, name)
  {
    var all := ops + [op];
    forall i | LastAttempt(all, i, key) ensures discoKey == all[i].discoKey && name == all[i].name {
      if i < |ops| {
        assert !AttemptAt(all, |ops|, key);
        AttemptBefore(ops, op, i, key);
        forall j | i < j ensures !AttemptAt(ops, j, key) {
          if j < |ops| { AttemptBefore(ops, op, j, key); }
        }
        assert LastAttempt(ops, i, key);
      }
    }
  }

  lemma SetStep(ops: seq<Op>, op: Op, key: NodeKey, eps: seq<Endpoint>, i: int)
    requires if SetAt(ops + [op], |ops|, key) then eps == op.eps else EndpointsByLast(ops, key, eps)
    requires LastSet(ops + [op], i, key)
    ensures eps == (ops + [op])[i].eps
  {
    if i < |ops| {
      assert !SetAt(ops + [op], |ops|, key);
      SetBefore(ops, op, i, key);
      forall j | i < j ensures !SetAt(ops, j, key) {
        if j < |ops| { SetBefore(ops, op, j, key); }
      }
      assert LastSet(ops, i, key);
    }
  }

  lemma EndpointsStep(ops: seq<Op>, op: Op, key: NodeKey, eps: seq<Endpoint>)
    requires if SetAt(ops + [op], |ops|, key) then eps == op.eps else EndpointsByLast(ops, key, eps)
    requires Attempted(ops, |ops|, key)
    ensures EndpointsByLast(ops + [op], key, eps)
  {
    var all := ops + [op];
    forall i | LastSet(all, i, key) ensures eps == all[i].eps { SetStep(ops, op, key, eps, i); }
    if !EverSet(all, key) {
      forall i ensures !SetAt(ops, i, key) {
        if i < |ops| { SetBefore(ops, op, i, key); }
      }
      assert !SetAt(all, |ops|, key);
      AttemptedAll(ops, op, key);
      forall i | FirstAttempt(all, i, key) ensures eps == all[i].endpoints {
        AttemptBefore(ops, op, i, key);
        assert FirstAttempt(ops, i, key);
      }
    }
  }

  lemma TimedStep(ops: seq<Op>, op: Op, key: NodeKey, at: Time)
    requires if AttemptAt(ops + [op], |ops|, key) || SetAt(ops + [op], |ops|, key) then at == op.now
             else TimedByLast(ops, key, at)
    ensures TimedByLast(ops + [op], key, at)
  {
    var all := ops + [op];
    forall i | LastTouch(all, i, key) ensures at == all[i].now {
      if i < |ops| {
        assert !AttemptAt(all, |ops|, key) && !SetAt(all, |ops|, key);
        AttemptBefore(ops, op, i, key);
        SetBefore(ops, op, i, key);
        forall j | i < j ensures !AttemptAt(ops, j, key) && !SetAt(ops, j, key) {
          if j < |ops| {
            AttemptBefore(ops, op, j, key);
            SetBefore(ops, op, j, key);
          }
        }
        assert LastTouch(ops, i, key);
      }
    }
  }

  // The first call for a key decides everything.
  lemma FirstRecord(ops: seq<Op>, op: Op)
    requires Attempts(op) && !Attempted(ops, |ops|, op.key)
    ensures NamedByLast(ops + [op], op.key, op.discoKey, op.name)
    ensures EndpointsByLast(ops + [op], op.key, op.endpoints)
    ensures TimedByLast(ops + [op], op.key, op.now)
  {
    var all, key, n := ops + [op], op.key, |ops|;
    forall i ensures AttemptAt(all, i, key) ==> i == n {
      if i < n { AttemptBefore(ops, op, i, key); }
    }
    assert AttemptAt(all, n, key);
    forall i ensures !SetAt(all, i, key) {}
  }

  // --- Admission ---

  lemma {:induction false} SeenIffAttempted(ops: seq<Op>, key: NodeKey)
    ensures key in FirstSeen(ops) <==> Attempted(ops, |ops|, key)
    decreases |ops|
  {
    if ops == [] {
    } else {
      var n := |ops| - 1;
      SeenIffAttempted(ops[..n], key);
      assert ops == ops[..n] + [ops[n]];
      AttemptedAll(ops[..n], ops[n], key);
      assert AttemptAt(ops, n, key) <==> Attempts(ops[n]) && ops[n].key == key;
    }
  }

  lemma ExecAppend(r: Registry, ops: seq<Op>, op: Op)
    requires r.pool.Valid()
    ensures Exec(r, ops + [op]) == Apply(Exec(r, ops), op).0
    ensures FirstSeen(ops + [op]) ==
            if Attempts(op) && op.key !in FirstSeen(ops) then FirstSeen(ops) + [op.key] else FirstSeen(ops)
  {
    assert (ops + [op])[..|ops|] == ops;
  }

  // A registered key is one of the first that tried, as many as there are addresses.
  lemma AdmittedIff(pool: Pool, ops: seq<Op>, key: NodeKey)
    requires pool.Valid()
    ensures key in Exec(Empty(pool), ops).entries <==> key in Take(FirstSeen(ops), pool.Capacity())
  {
    ExecKeeps(Empty(pool), ops);
    OrderIsFirstSeen(pool, ops);
    var q := Exec(Empty(pool), ops);
    if key in q.entries { assert q.order[q.entries[key].index] == key; }
  }

  // A key that becomes registered had not tried before.
  lemma AdmittedAtFirst(pool: Pool, ops: seq<Op>, op: Op)
    requires pool.Valid()
    requires op.key !in Exec(Empty(pool), ops).entries && op.key in Exec(Empty(pool), ops + [op]).entries
    ensures Attempts(op) && !Attempted(ops, |ops|, op.key)
  {
    ExecAppend(Empty(pool), ops, op);
    AdmittedIff(pool, ops, op.key);
    AdmittedIff(pool, ops + [op], op.key);
    SeenIffAttempted(ops, op.key);
  }

  // What a call does to the record of a key that is registered.
  ghost predicate Rewrites(ops: seq<Op>, op: Op, key: NodeKey, e: Entry, f: Entry) {
    if AttemptAt(ops + [op], |ops|, key) then
      f == e.(discoKey := op.discoKey, name := op.name, updatedAt := op.now) && !SetAt(ops + [op], |ops|, key)
    else if SetAt(ops + [op], |ops|, key) then f == e.(endpoints := op.eps, updatedAt := op.now)
    else f == e
  }

  lemma EntryStep(r: Registry, ops: seq<Op>, op: Op, key: NodeKey)
    requires r.pool.Valid() && key in r.entries && Attempted(ops, |ops|, key)
    ensures key in Apply(r, op).0.entries
    ensures Rewrites(ops, op, key, r.entries[key], Apply(r, op).0.entries[key])
  {
    AttemptedAll(ops, op, key);
    assert (ops + [op])[|ops|] == op;
  }

  // --- Main results ---

  lemma {:induction false} RecordFromHistory(pool: Pool, ops: seq<Op>, key: NodeKey)
    requires pool.Valid() && key in Exec(Empty(pool), ops).entries
    ensures IsRecord(ops, Exec(Empty(pool), ops).PeerOf(key))
    decreases |ops|
  {
    if ops == [] {
    } else {
      var n := |ops| - 1;
      var rest, op := ops[..n], ops[n];
      assert ops == rest + [op];
      ExecAppend(Empty(pool), rest, op);
      if key in Exec(Empty(pool), rest).entries {
        RecordFromHistory(pool, rest, key);
        AdmittedIff(pool, rest, key);
        SeenIffAttempted(rest, key);
        EntryStep(Exec(Empty(pool), rest), rest, op, key);
        var f := Exec(Empty(pool), ops).entries[key];
        NamedStep(rest, op, key, f.discoKey, f.name);
        EndpointsStep(rest, op, key, f.endpoints);
        TimedStep(rest, op, key, f.updatedAt);
      } else {
        AdmittedAtFirst(pool, rest, op);
        FirstRecord(rest, op);
      }
    }
  }

  // The calls that a record comes from exist for every key that tried.
  lemma {:induction false} LastAttemptExists(ops: seq<Op>, key: NodeKey, n: nat) returns (i: nat)
    requires Attempted(ops, n, key) && forall j | n <= j :: !AttemptAt(ops, j, key)
    ensures LastAttempt(ops, i, key)
    decreases n
  {
    if n == 0 {
      assert false;
    } else if AttemptAt(ops, n - 1, key) {
      i := n - 1;
    } else {
      i := LastAttemptExists(ops, key, n - 1);
    }
  }

  lemma {:induction false} FirstAttemptExists(ops: seq<Op>, key: NodeKey, n: nat) returns (i: nat)
    requires Attempted(ops, n, key)
    ensures FirstAttempt(ops, i, key)
    decreases n
  {
    var j :| j < n && AttemptAt(ops, j, key);
    if Attempted(ops, j, key) { i := FirstAttemptExists(ops, key, j); } else { i := j; }
  }

  lemma {:induction false} LastSetExists(ops: seq<Op>, key: NodeKey, n: nat) returns (i: nat)
    requires (exists j :: j < n && SetAt(ops, j, key)) && forall j | n <= j :: !SetAt(ops, j, key)
    ensures LastSet(ops, i, key)
    decreases n
  {
    if n == 0 {
      assert false;
    } else if SetAt(ops, n - 1, key) {
      i := n - 1;
    } else {
      i := LastSetExists(ops, key, n - 1);
    }
  }

  lemma RecordIsDecided(pool: Pool, ops: seq<Op>, key: NodeKey)
    requires pool.Valid() && key in Exec(Empty(pool), ops).entries
    ensures (exists i :: FirstAttempt(ops, i, key)) && (exists i :: LastAttempt(ops, i, key))
    ensures EverSet(ops, key) ==> exists i :: LastSet(ops, i, key)
    ensures exists i :: LastTouch(ops, i, key)
  {
    AdmittedIff(pool, ops, key);
    SeenIffAttempted(ops, key);
    var first := FirstAttemptExists(ops, key, |ops|);
    var last := LastAttemptExists(ops, key, |ops|);
    var touch := last;
    if EverSet(ops, key) {
      var j :| SetAt(ops, j, key);
      var set_ := LastSetExists(ops, key, |ops|);
      if set_ > last { touch := set_; }
    }
    assert LastTouch(ops, touch, key);
  }

  // What a listing of the peers must be, after these calls: the first keys that tried, in that order, each with
  // its address and its record.
  ghost predicate IsListing(pool: Pool, ops: seq<Op>, out: seq<Peer>)
    requires pool.Valid()
  {
    && |out| == |Take(FirstSeen(ops), pool.Capacity())|
    && forall i | 0 <= i < |out| ::
         && out[i].nodeKey == FirstSeen(ops)[i]
         && out[i].tunnelIp == pool.address + 1 + i
         && IsRecord(ops, out[i])
  }

  lemma SnapshotFromHistory(pool: Pool, ops: seq<Op>)
    requires pool.Valid()
    ensures Exec(Empty(pool), ops).Valid() && IsListing(pool, ops, Exec(Empty(pool), ops).Snapshot())
  {
    ExecKeeps(Empty(pool), ops);
    OrderIsFirstSeen(pool, ops);
    var q := Exec(Empty(pool), ops);
    forall i | 0 <= i < |q.order| ensures IsRecord(ops, q.PeerOf(q.order[i])) {
      RecordFromHistory(pool, ops, q.order[i]);
    }
  }

  // Which reply a call gets, from the calls before it.
  lemma ReplyFromHistory(pool: Pool, ops: seq<Op>, op: Op)
    requires pool.Valid()
    ensures var reply := Apply(Exec(Empty(pool), ops), op).1;
            var admitted := op.key in Take(FirstSeen(ops), pool.Capacity());
            && (reply == ContextError <==> op.cancelled)
            && (reply == BadKeyLength <==> op.Register? && !op.cancelled && |op.key| != 32)
            && (reply == UnknownPeer <==> op.SetEndpoints? && !op.cancelled && !admitted)
            && (reply == Stored <==> op.SetEndpoints? && !op.cancelled && admitted)
            && (reply == PoolExhausted <==>
                  op.Register? && !op.cancelled && |op.key| == 32 && !admitted &&
                  |FirstSeen(ops)| >= pool.Capacity())
  {
    AdmittedIff(pool, ops, op.key);
    OrderIsFirstSeen(pool, ops);
  }

  // A registration that is told an address is told the one of its key's place among the keys that tried.
  lemma AddressFromHistory(pool: Pool, ops: seq<Op>, op: Op, i: nat)
    requires pool.Valid() && Attempts(op)
    requires i < |FirstSeen(ops + [op])| && FirstSeen(ops + [op])[i] == op.key
    ensures var reply := Apply(Exec(Empty(pool), ops), op).1;
            reply == if i < pool.Capacity() then Assigned(pool.address + 1 + i) else PoolExhausted
  {
    ExecKeeps(Empty(pool), ops);
    ExecAppend(Empty(pool), ops, op);
    OrderIsFirstSeen(pool, ops);
    AddressOfKey(pool, ops + [op], i);
    AdmittedIff(pool, ops, op.key);
  }
}
