/**
 Scheduling keys and generated transactions, with the two list operations that
 every submission path runs before a transaction is queued.
 */
module Scheduling {
  import opened Wrappers

  /** An opaque 20-byte ordering constraint; only equality is ever used. */
  type SchedulingKey = nat

  datatype TxPhase = Setup | Workload

  /** The fields of a generated transaction that decide when it may be sent. */
  datatype GeneratedTx = GeneratedTx(
    phase: TxPhase,
    id: Option<string>,
    lateSign: bool,
    submissionKeys: seq<SchedulingKey>,
    inclusionKeys: seq<SchedulingKey>,
    dependsOn: seq<string>)

  function KeySet(tx: GeneratedTx): set<SchedulingKey> {
    (set k | k in tx.submissionKeys) + (set k | k in tx.inclusionKeys)
  }

  /** First occurrences, in order. */
  function FirstSeen(keys: seq<SchedulingKey>): (r: seq<SchedulingKey>)
    ensures NoDuplicates(r)
    ensures forall k :: k in r <==> k in keys
    ensures r == [] <==> keys == []
  {
    if keys == [] then []
    else
      var n := |keys| - 1;
      assert keys == keys[..n] + [keys[n]];
      var p := FirstSeen(keys[..n]);
      if keys[n] in p then p else p + [keys[n]]
  }

  /** Drop the members of `drop`, keeping order. */
  function Without(keys: seq<SchedulingKey>, drop: seq<SchedulingKey>): (r: seq<SchedulingKey>)
    ensures forall k :: k in r <==> k in keys && k !in drop
    ensures NoDuplicates(keys) ==> NoDuplicates(r)
    ensures drop == [] ==> r == keys
  {
    if keys == [] then []
    else
      var n := |keys| - 1;
      assert keys == keys[..n] + [keys[n]];
      var p := Without(keys[..n], drop);
      if keys[n] in drop then p else p + [keys[n]]
  }

  method DedupSchedulingKeys(keys: seq<SchedulingKey>) returns (deduped: seq<SchedulingKey>)
    ensures deduped == FirstSeen(keys)
  {
    deduped := [];
    for i := 0 to |keys|
      invariant deduped == FirstSeen(keys[..i])
    {
      assert keys[..i + 1][..i] == keys[..i];
      if keys[i] !in deduped {
        deduped := deduped + [keys[i]];
      }
    }
    assert keys[..|keys|] == keys;
  }

  datatype KeyError = NoKeys

  /** The two lists share no key, hold each key once, and together cover the input. */
  ghost predicate Normalized(submission: seq<SchedulingKey>, inclusion: seq<SchedulingKey>) {
    && NoDuplicates(submission + inclusion)
    && submission + inclusion != []
  }

  /**
   Deduplicate both lists; a key named in both keeps the later release point, so
   it stays an inclusion key only.
   */
  method NormalizeKeySets(submissionKeys: seq<SchedulingKey>, inclusionKeys: seq<SchedulingKey>)
    returns (r: Result<(seq<SchedulingKey>, seq<SchedulingKey>), KeyError>)
    ensures r.Err? <==> submissionKeys == [] && inclusionKeys == []
    ensures r.Ok? ==> Normalized(r.value.0, r.value.1)
    ensures r.Ok? ==> r.value.1 == FirstSeen(inclusionKeys)
    ensures r.Ok? ==> r.value.0 == Without(FirstSeen(submissionKeys), inclusionKeys)
    ensures r.Ok? ==> forall k ::
      k in r.value.0 + r.value.1 <==> k in submissionKeys || k in inclusionKeys
  {
    var inclusion := DedupSchedulingKeys(inclusionKeys);
    var deduped := DedupSchedulingKeys(submissionKeys);
    var submission: seq<SchedulingKey> := [];
    for i := 0 to |deduped|
      invariant submission == Without(deduped[..i], inclusionKeys)
    {
      assert deduped[..i + 1][..i] == deduped[..i];
      if deduped[i] !in inclusion {
        submission := submission + [deduped[i]];
      }
    }
    assert deduped[..|deduped|] == deduped;
    if submission == [] && inclusion == [] {
      return Err(NoKeys);
    }
    forall i, j | 0 <= i < j < |submission + inclusion|
      ensures (submission + inclusion)[i] != (submission + inclusion)[j]
    {
      if i < |submission| <= j {
        assert submission[i] in submission && inclusion[j - |submission|] in inclusion;
      }
    }
    return Ok((submission, inclusion));
  }
}
