/** Proof deduplication and the award rule of `submit_reviews`: a proof is
    identified by its `(user, card, timestamp)` key, a batch credits only the
    keys not yet recorded, and every ten new proofs in one batch earn one
    paint, rounded down per batch. */
module Awards {
  import opened Types

  /** Ten new proofs buy one paint. */
  const ExchangeRate: int := 10

  /** The `review_proofs` key of one proof submitted by `userId`. */
  function Key(userId: UserId, proof: Proof): (k: ProofKey) {
    (userId, proof.cardId, proof.timestamp)
  }

  /** The set of keys a batch of proofs stands for; duplicates collapse. */
  function BatchKeys(userId: UserId, batch: seq<Proof>): (keys: set<ProofKey>)
    decreases |batch|
  {
    if batch == [] then {}
    else BatchKeys(userId, batch[..|batch| - 1]) + {Key(userId, batch[|batch| - 1])}
  }

  /** A batch has at most as many distinct keys as proofs, so no batch is
      credited for more proofs than it carries. */
  lemma {:induction false} BatchKeysSize(proofs: set<ProofKey>, userId: UserId, batch: seq<Proof>)
    ensures NewProofs(proofs, userId, batch) <= |BatchKeys(userId, batch)| <= |batch|
    decreases |batch|
  {
    SubsetCardinality(BatchKeys(userId, batch) - proofs, BatchKeys(userId, batch));
    if batch != [] {
      var front := batch[..|batch| - 1];
      BatchKeysSize(proofs, userId, front);
    }
  }

  /** A key belongs to a batch's key set exactly when some proof of the
      batch has that key. */
  lemma {:induction false} BatchKeysMembers(userId: UserId, batch: seq<Proof>)
    ensures forall i :: 0 <= i < |batch| ==> Key(userId, batch[i]) in BatchKeys(userId, batch)
    ensures forall k :: k in BatchKeys(userId, batch) ==>
      exists i :: 0 <= i < |batch| && k == Key(userId, batch[i])
    decreases |batch|
  {
    if batch != [] {
      var front := batch[..|batch| - 1];
      assert forall i :: 0 <= i < |front| ==> front[i] == batch[i];
      BatchKeysMembers(userId, front);
    }
  }

  /** How many proofs of a batch are new against the recorded set `proofs`:
      the batch's distinct keys that are not recorded yet. */
  function NewProofs(proofs: set<ProofKey>, userId: UserId, batch: seq<Proof>): (n: nat) {
    |BatchKeys(userId, batch) - proofs|
  }

  /** The paint a batch with `newProofs` new proofs earns: floor division,
      with the remainder below the rate dropped rather than banked. */
  function Award(newProofs: nat): (paint: nat)
    ensures paint * ExchangeRate <= newProofs < (paint + 1) * ExchangeRate
  {
    newProofs / ExchangeRate
  }

  lemma SubsetCardinality<T>(a: set<T>, b: set<T>)
    requires a <= b
    ensures |a| <= |b|
  {
    assert b == a + (b - a);
  }

  /** The keys of two batches submitted back to back are those of the
      concatenated batch. */
  lemma {:induction false} BatchKeysAppend(userId: UserId, a: seq<Proof>, b: seq<Proof>)
    ensures BatchKeys(userId, a + b) == BatchKeys(userId, a) + BatchKeys(userId, b)
    decreases |b|
  {
    if b == [] {
      assert a + b == a;
    } else {
      var front := b[..|b| - 1];
      assert (a + b)[..|a + b| - 1] == a + front;
      assert (a + b)[|a + b| - 1] == b[|b| - 1];
      BatchKeysAppend(userId, a, front);
    }
  }

  /** Every key of a user's batch names that user. */
  lemma {:induction false} BatchKeysOwner(userId: UserId, batch: seq<Proof>)
    ensures forall k :: k in BatchKeys(userId, batch) ==> k.0 == userId
    decreases |batch|
  {
    if batch != [] {
      BatchKeysOwner(userId, batch[..|batch| - 1]);
    }
  }

  /** Processing one more proof of a batch adds its key, and counts it as
      new exactly when neither recorded before nor earlier in the batch. */
  lemma BatchStep(proofs: set<ProofKey>, userId: UserId, batch: seq<Proof>, i: int)
    requires 0 <= i < |batch|
    ensures BatchKeys(userId, batch[..i + 1]) == BatchKeys(userId, batch[..i]) + {Key(userId, batch[i])}
    ensures NewProofs(proofs, userId, batch[..i + 1])
            == NewProofs(proofs, userId, batch[..i])
               + if Key(userId, batch[i]) in proofs + BatchKeys(userId, batch[..i]) then 0 else 1
  {
    var done, key := BatchKeys(userId, batch[..i]), Key(userId, batch[i]);
    assert batch[..i + 1][..i] == batch[..i];
    if key in proofs + done {
      assert (done + {key}) - proofs == done - proofs;
    } else {
      AddUnrecordedKey(done, proofs, key);
    }
  }

  /** A batch finds no new proof exactly when every one of its entries is
      recorded already; in particular, a resubmitted batch adds nothing. */
  lemma RecordedBatchIsNotNew(proofs: set<ProofKey>, userId: UserId, batch: seq<Proof>)
    ensures NewProofs(proofs, userId, batch) == 0
            <==> forall i :: 0 <= i < |batch| ==> Key(userId, batch[i]) in proofs
  {
    BatchKeysMembers(userId, batch);
    if forall i :: 0 <= i < |batch| ==> Key(userId, batch[i]) in proofs {
      assert BatchKeys(userId, batch) - proofs == {};
    } else {
      var i :| 0 <= i < |batch| && Key(userId, batch[i]) !in proofs;
      assert Key(userId, batch[i]) in BatchKeys(userId, batch) - proofs;
    }
  }

  /** Exactly-once crediting across calls: submitting `a` and then `b` finds
      as many new proofs in all as submitting `a + b` once. */
  lemma SplitSubmissionCountsOnce(proofs: set<ProofKey>, userId: UserId, a: seq<Proof>, b: seq<Proof>)
    ensures NewProofs(proofs, userId, a)
            + NewProofs(proofs + BatchKeys(userId, a), userId, b)
            == NewProofs(proofs, userId, a + b)
  {
    var ka, kb := BatchKeys(userId, a), BatchKeys(userId, b);
    BatchKeysAppend(userId, a, b);
    var first, second := ka - proofs, kb - (proofs + ka);
    assert (ka + kb) - proofs == first + second;
    assert first * second == {};
  }

  /** The per-batch rounding never pays more than one combined batch would,
      and loses at most one paint against it. */
  lemma SplitSubmissionAward(proofs: set<ProofKey>, userId: UserId, a: seq<Proof>, b: seq<Proof>)
    ensures
      var n1 := NewProofs(proofs, userId, a);
      var n2 := NewProofs(proofs + BatchKeys(userId, a), userId, b);
      var n := NewProofs(proofs, userId, a + b);
      Award(n1) + Award(n2) <= Award(n) <= Award(n1) + Award(n2) + 1
  {
    SplitSubmissionCountsOnce(proofs, userId, a, b);
  }

  /** A batch of pairwise distinct proofs, none recorded yet, is new in full. */
  lemma {:induction false} DistinctFreshBatchIsNew(proofs: set<ProofKey>, userId: UserId, batch: seq<Proof>)
    requires forall i, j :: 0 <= i < j < |batch| ==> Key(userId, batch[i]) != Key(userId, batch[j])
    requires forall i :: 0 <= i < |batch| ==> Key(userId, batch[i]) !in proofs
    ensures NewProofs(proofs, userId, batch) == |batch|
    decreases |batch|
  {
    if batch != [] {
      var n := |batch| - 1;
      var front := batch[..n];
      var last := Key(userId, batch[n]);
      assert forall i :: 0 <= i < |front| ==> front[i] == batch[i];
      DistinctFreshBatchIsNew(proofs, userId, front);
      var keys := BatchKeys(userId, front);
      assert BatchKeys(userId, batch) == keys + {last};
      assert forall i :: 0 <= i < |front| ==> Key(userId, front[i]) != last;
      BatchKeysMembers(userId, front);
      AddUnrecordedKey(keys, proofs, last);
    }
  }

  lemma AddUnrecordedKey(keys: set<ProofKey>, proofs: set<ProofKey>, k: ProofKey)
    requires k !in keys && k !in proofs
    ensures |(keys + {k}) - proofs| == |keys - proofs| + 1
  {
    assert (keys + {k}) - proofs == (keys - proofs) + {k};
  }

  /** The batch of `n` proofs of the distinct cards `lo .. lo+n-1`, all at time 0. */
  function Cards(lo: int, n: nat): (batch: seq<Proof>)
    ensures |batch| == n
    ensures forall i :: 0 <= i < n ==> batch[i] == Proof(lo + i, 0.0)
  {
    seq(n, i => Proof(lo + i, 0.0))
  }

  /** Every key of such a batch names one of its cards. */
  lemma CardsKeys(userId: UserId, lo: int, n: nat)
    ensures forall k :: k in BatchKeys(userId, Cards(lo, n)) ==> lo <= k.1 < lo + n
  {
    var batch := Cards(lo, n);
    BatchKeysMembers(userId, batch);
    forall k | k in BatchKeys(userId, batch)
      ensures lo <= k.1 < lo + n
    {
      var i :| 0 <= i < |batch| && k == Key(userId, batch[i]);
    }
  }

  /** Such a batch is new in full against keys of lower cards only. */
  lemma CardsAreNew(proofs: set<ProofKey>, userId: UserId, lo: int, n: nat)
    requires forall k :: k in proofs ==> k.1 < lo
    ensures NewProofs(proofs, userId, Cards(lo, n)) == n
  {
    var batch := Cards(lo, n);
    assert forall i, j :: 0 <= i < j < n ==> batch[i].cardId != batch[j].cardId;
    DistinctFreshBatchIsNew(proofs, userId, batch);
  }

  /** Twenty-five new proofs earn two paint in one batch, and only one when
      sent as nine and then sixteen: leftovers are not banked. */
  lemma NineThenSixteenLosesOnePaint(userId: UserId)
    ensures
      var first, rest := Cards(0, 9), Cards(9, 16);
      var n := NewProofs({}, userId, first + rest);
      var n1 := NewProofs({}, userId, first);
      var n2 := NewProofs(BatchKeys(userId, first), userId, rest);
      Award(n) == 2 && Award(n1) + Award(n2) == 1
  {
    var first, rest := Cards(0, 9), Cards(9, 16);
    assert first + rest == Cards(0, 25);
    CardsAreNew({}, userId, 0, 25);
    CardsAreNew({}, userId, 0, 9);
    CardsKeys(userId, 0, 9);
    CardsAreNew(BatchKeys(userId, first), userId, 9, 16);
  }
}
