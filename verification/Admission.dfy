/**
 What `send` checks before a transaction may enter the queue.
 */
module Admission {
  import opened Wrappers
  import opened Scheduling
  import opened SetupOrder
  import opened SenderState

  datatype SendError =
    | MissingSigner
    | MissingKeys
    | MissingSetupId
    | DuplicateSetup(name: string)
    | UnqueuedDependency(id: string)
    | WorkloadDependency
    | InvalidBatch(reason: SetupError)
    | TrackingFailed
    | SetupCancelled
    | Unauthenticated

  /** Errors of a running sender, as opposed to rejections of one transaction. */
  predicate StopsCalls(e: SendError) {
    e in {TrackingFailed, SetupCancelled, Unauthenticated}
  }

  /** `p` is `tx` with its key lists normalized. */
  ghost predicate Carries(p: PendingTx, tx: GeneratedTx) {
    && p.phase == tx.phase && p.id == tx.id && p.dependsOn == tx.dependsOn
    && p.inclusionKeys == FirstSeen(tx.inclusionKeys)
    && p.submissionKeys == Without(FirstSeen(tx.submissionKeys), tx.inclusionKeys)
  }

  /** What `send` demands of a transaction, given the setup ids it already knows. */
  ghost predicate Admissible(tx: GeneratedTx, known: set<string>, hasLateSigner: bool) {
    && (tx.lateSign ==> hasLateSigner)
    && (tx.submissionKeys != [] || tx.inclusionKeys != [])
    && (tx.phase == Setup ==>
          && tx.id.Some? && tx.id.value != "" && tx.id.value !in known
          && forall d :: d in tx.dependsOn ==> d in known)
    && (tx.phase == Workload ==> tx.dependsOn == [])
  }

  /** The order in which the rules are checked. */
  function Rank(e: SendError): nat {
    match e
    case MissingSigner => 0
    case MissingKeys => 1
    case MissingSetupId => 2
    case DuplicateSetup(_) => 3
    case UnqueuedDependency(_) => 4
    case _ => 5
  }

  /** The reason names the first rule that the transaction breaks. */
  ghost predicate Explains(e: SendError, tx: GeneratedTx, known: set<string>, hasLateSigner: bool) {
    Breaks(e, tx, known, hasLateSigner) &&
    forall f: SendError :: Breaks(f, tx, known, hasLateSigner) ==> Rank(e) <= Rank(f)
  }

  /** The transaction breaks the rule; of several unqueued dependencies the first one counts. */
  ghost predicate Breaks(e: SendError, tx: GeneratedTx, known: set<string>, hasLateSigner: bool) {
    match e
    case MissingSigner => tx.lateSign && !hasLateSigner
    case MissingKeys => tx.submissionKeys == [] && tx.inclusionKeys == []
    case MissingSetupId => tx.phase == Setup && tx.id in {None, Some("")}
    case DuplicateSetup(name) => tx.phase == Setup && tx.id == Some(name) && name in known
    case UnqueuedDependency(id) =>
      tx.phase == Setup &&
      (exists n :: (0 <= n < |tx.dependsOn| && tx.dependsOn[n] == id && id !in known &&
                    forall m :: 0 <= m < n ==> tx.dependsOn[m] in known))
    case WorkloadDependency => tx.phase == Workload && tx.dependsOn != []
    case _ => false
  }

  /** The first dependency that no queued setup transaction carries. */
  method FirstUnknown(dependsOn: seq<string>, known: set<string>) returns (r: Option<string>)
    ensures r.None? <==> forall d :: d in dependsOn ==> d in known
    ensures r.Some? ==> exists n :: 0 <= n < |dependsOn| && dependsOn[n] == r.value && r.value !in known &&
                                    forall m :: 0 <= m < n ==> dependsOn[m] in known
  {
    for n := 0 to |dependsOn|
      invariant forall m :: 0 <= m < n ==> dependsOn[m] in known
    {
      if dependsOn[n] !in known {
        return Some(dependsOn[n]);
      }
    }
    return None;
  }

  /** Check a transaction and normalize its keys; nothing is queued yet. */
  method Prepare(tx: GeneratedTx, queueId: nat, known: set<string>, hasLateSigner: bool)
    returns (r: Result<PendingTx, SendError>)
    ensures r.Ok? <==> Admissible(tx, known, hasLateSigner)
    ensures r.Ok? ==>
      r.value.queueId == queueId && Carries(r.value, tx) && NoDuplicates(r.value.Keys()) && SoundTx(r.value)
    ensures r.Err? ==> Explains(r.error, tx, known, hasLateSigner)
  {
    hide NoDuplicates, FirstSeen, Without;
    if tx.lateSign && !hasLateSigner {
      return Err(MissingSigner);
    }
    var keys := NormalizeKeySets(tx.submissionKeys, tx.inclusionKeys);
    if keys.Err? {
      return Err(MissingKeys);
    }
    if tx.phase == Setup {
      if tx.id == None || tx.id == Some("") {
        return Err(MissingSetupId);
      }
      if tx.id.value in known {
        return Err(DuplicateSetup(tx.id.value));
      }
      var missing := FirstUnknown(tx.dependsOn, known);
      if missing.Some? {
        return Err(UnqueuedDependency(missing.value));
      }
    } else if tx.dependsOn != [] {
      return Err(WorkloadDependency);
    }
    return Ok(PendingTx(queueId, tx.phase, tx.id, tx.dependsOn, keys.value.0, keys.value.1));
  }
}

