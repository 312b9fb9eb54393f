/**
 The exit paths of one dispatched transaction: what its worker reports, in which
 order, for every way preparation, signing, submission and inclusion can go.
 */
module SubmitTx {
  import opened Wrappers
  import opened Scheduling
  import opened SenderState

  /** The endpoint accepted the transaction, or did not answer that it did. */
  datatype Reply = Accepted | Refused(uncertain: bool)

  /** `Included` carries the receipt status when a receipt was requested. */
  datatype Observation = Included(status: Option<bool>) | Expired | Unobserved

  /** Everything the worker learns from outside, in the order it asks. */
  datatype Outcome = Outcome(prepared: bool, signed: bool, registered: bool, reply: Reply, observation: Observation)
  {
    /** The transaction reached the wire and its successful receipt was seen. */
    predicate Receipted() {
      prepared && signed && registered && reply == Accepted && observation == Included(Some(true))
    }
  }

  /** Inclusion is watched for inclusion keys, for a setup result, or for the pending limit. */
  predicate Observes(tx: PendingTx, tracked: bool) {
    tx.inclusionKeys != [] || tx.phase == Setup || tracked
  }

  /** The endpoint took the transaction. */
  predicate TakenUp(tx: PendingTx, tracked: bool, outcome: Outcome) {
    outcome.signed && (Observes(tx, tracked) ==> outcome.prepared && outcome.registered) && outcome.reply == Accepted
  }

  /** The submission ends knowing what became of the transaction, or does not need to know. */
  predicate Resolved(tx: PendingTx, tracked: bool, outcome: Outcome) {
    var watched := outcome.reply == Accepted || (tracked && outcome.reply.uncertain);
    !(Observes(tx, tracked) &&
      (!outcome.prepared ||
       (outcome.signed && (!outcome.registered || (watched && outcome.observation == Unobserved)))))
  }

  lemma Single(c: Completion, d: Debt)
    ensures Total([c], d) == Weight(c, d)
  {
    assert [c][1..] == [];
  }

  /** Send a release unless there is nothing to release. */
  method ReleaseKeys(sent: seq<Completion>, keys: seq<SchedulingKey>) returns (sent': seq<Completion>)
    ensures sent' == sent + if keys == [] then [] else [Release(keys)]
  {
    sent' := sent;
    if keys != [] {
      sent' := sent' + [Release(keys)];
    }
  }

  /** Only releases so far, and together they return each key exactly once. */
  ghost predicate ReleasesAll(tx: PendingTx, sent: seq<Completion>) {
    && sent != []
    && (forall c :: c in sent ==> c.Release? && c.keys != [])
    && (forall k :: Total(sent, Key(k)) == if k in tx.Keys() then 1 else 0)
    && Total(sent, AnySetup) == 0 && Total(sent, Slot) == 0
  }

  lemma ReleasedTogether(tx: PendingTx)
    requires tx.Keys() != [] && NoDuplicates(tx.Keys())
    ensures ReleasesAll(tx, [Release(tx.Keys())])
  {
    forall d ensures Total([Release(tx.Keys())], d) == Weight(Release(tx.Keys()), d) {
      Single(Release(tx.Keys()), d);
    }
    forall k ensures Total([Release(tx.Keys())], Key(k)) == if k in tx.Keys() then 1 else 0 {
      OccurrencesOfDistinct(tx.Keys(), k);
    }
  }

  lemma ReleasedInTurn(tx: PendingTx)
    requires tx.Keys() != [] && NoDuplicates(tx.Keys())
    ensures ReleasesAll(tx, (if tx.submissionKeys == [] then [] else [Release(tx.submissionKeys)]) +
                            (if tx.inclusionKeys == [] then [] else [Release(tx.inclusionKeys)]))
  {
    var a := if tx.submissionKeys == [] then [] else [Release(tx.submissionKeys)];
    var b := if tx.inclusionKeys == [] then [] else [Release(tx.inclusionKeys)];
    forall d
      ensures Total(a + b, d) == Weight(Release(tx.submissionKeys), d) + Weight(Release(tx.inclusionKeys), d) ||
        d == Message
    {
      TotalAppend(a, b, d);
      Single(Release(tx.submissionKeys), d);
      Single(Release(tx.inclusionKeys), d);
    }
    forall k ensures Total(a + b, Key(k)) == if k in tx.Keys() then 1 else 0 {
      OccurrencesOfDistinct(tx.Keys(), k);
      OccurrencesAppend(tx.submissionKeys, tx.inclusionKeys, k);
    }
  }

  /** What is released before inclusion is awaited, once each: the submission keys if the endpoint took it, else all. */
  ghost predicate ReleasesEarly(tx: PendingTx, takenUp: bool, early: seq<Completion>) {
    && (forall c :: c in early ==> c.Release?)
    && (forall k ::
          Total(early, Key(k)) == if k in tx.submissionKeys || (!takenUp && k in tx.inclusionKeys) then 1 else 0)
  }

  /** What is released after it: the inclusion keys, once each, if they are still held. */
  ghost predicate ReleasesLate(tx: PendingTx, takenUp: bool, late: seq<Completion>) {
    forall k :: Total(late, Key(k)) == if takenUp && k in tx.inclusionKeys then 1 else 0
  }

  function ReleaseOf(keys: seq<SchedulingKey>): seq<Completion> {
    if keys == [] then [] else [Release(keys)]
  }

  lemma ReleaseTotal(keys: seq<SchedulingKey>)
    requires NoDuplicates(keys)
    ensures forall k :: Total(ReleaseOf(keys), Key(k)) == if k in keys then 1 else 0
  {
    forall k ensures Total(ReleaseOf(keys), Key(k)) == if k in keys then 1 else 0 {
      Single(Release(keys), Key(k));
      OccurrencesOfDistinct(keys, k);
    }
  }

  lemma StagedReleases(tx: PendingTx)
    requires SoundTx(tx) && NoDuplicates(tx.Keys())
    ensures var a, b := ReleaseOf(tx.submissionKeys), ReleaseOf(tx.inclusionKeys);
      ReleasesAll(tx, a + b) && ReleasesEarly(tx, true, a) && ReleasesLate(tx, true, b) && InclusionLast(tx, a + b)
    ensures ReleasesAll(tx, ReleaseOf(tx.Keys())) && ReleasesEarly(tx, false, ReleaseOf(tx.Keys()))
    ensures ReleasesLate(tx, false, []) && InclusionLast(tx, ReleaseOf(tx.Keys()))
  {
    var a, b := ReleaseOf(tx.submissionKeys), ReleaseOf(tx.inclusionKeys);
    ReleasedTogether(tx);
    ReleasedInTurn(tx);
    DistinctParts(tx);
    ReleaseTotal(tx.submissionKeys);
    ReleaseTotal(tx.inclusionKeys);
    ReleaseTotal(tx.Keys());
    hide NoDuplicates;
    assert InclusionLast(tx, []);
    assert ReleaseOf(tx.Keys())[1..] == [];
    if a != [] {
      assert (a + b)[1..] == b;
    } else {
      assert a + b == b;
    }
    assert InclusionLast(tx, b) by {
      if b != [] {
        assert b[1..] == [];
      }
    }
  }

  lemma DistinctParts(tx: PendingTx)
    requires NoDuplicates(tx.Keys())
    ensures NoDuplicates(tx.submissionKeys) && NoDuplicates(tx.inclusionKeys)
    ensures forall k :: k in tx.submissionKeys ==> k !in tx.inclusionKeys
  {
    var n := |tx.submissionKeys|;
    assert forall i :: 0 <= i < n ==> tx.Keys()[i] == tx.submissionKeys[i];
    assert forall i :: 0 <= i < |tx.inclusionKeys| ==> tx.Keys()[n + i] == tx.inclusionKeys[i];
  }

  /**
   One submission up to its return. The completions in `early` are sent before
   inclusion is awaited, those in `late` after it. `ok` is false only when inclusion
   could not be resolved; `success` is set only by an observed successful receipt.
   */
  method Submit(tx: PendingTx, tracked: bool, outcome: Outcome)
    returns (early: seq<Completion>, late: seq<Completion>, success: bool, ok: bool)
    requires SoundTx(tx) && NoDuplicates(tx.Keys())
    ensures ReleasesAll(tx, early + late) && InclusionLast(tx, early + late)
    ensures ReleasesEarly(tx, TakenUp(tx, tracked, outcome), early)
    ensures ReleasesLate(tx, TakenUp(tx, tracked, outcome), late)
    ensures success <==> tx.phase == Setup && outcome.Receipted()
    ensures ok <==> Resolved(tx, tracked, outcome)
  {
    StagedReleases(tx);
    hide ReleasesAll, ReleasesEarly, ReleasesLate, InclusionLast, NoDuplicates;
    early, late, success, ok := [], [], false, true;
    var all := tx.submissionKeys + tx.inclusionKeys;
    assert all == tx.Keys();
    assert forall r: seq<Completion> :: [] + r == r && r + [] == r;
    var observes := !(tx.inclusionKeys == [] && tx.phase != Setup && !tracked);
    if observes && !outcome.prepared {
      early := ReleaseKeys(early, all);
      ok := false;
      return;
    }
    if !outcome.signed {
      // Nothing can be pending: the transaction never existed.
      early := ReleaseKeys(early, all);
      return;
    }
    if observes && !outcome.registered {
      early := ReleaseKeys(early, all);
      ok := false;
      return;
    }
    if outcome.reply.Refused? {
      early := ReleaseKeys(early, all);
      if tracked && outcome.reply.uncertain {
        // A lost reply does not prove rejection: keep watching the slot.
        ok := outcome.observation != Unobserved;
      }
      return;
    }
    early := ReleaseKeys(early, tx.submissionKeys);
    if !observes {
      assert tx.inclusionKeys == [];
      return;
    }
    match outcome.observation {
      case Included(None) =>
      case Included(Some(status)) =>
        success := status && tx.phase == Setup;
      case Expired =>
      case Unobserved => ok := false;
    }
    late := ReleaseKeys(late, tx.inclusionKeys);
  }

  /**
   The whole worker: after the submission returns, its completion guards report
   the setup result and then the pending slot. On every path each key is
   released exactly once and each guard reports exactly once. The first `early`
   completions are sent before inclusion is awaited.
   */
  method Work(tx: PendingTx, tracked: bool, outcome: Outcome)
    returns (sent: seq<Completion>, early: nat, receiptOk: bool, trackOk: bool)
    requires SoundTx(tx) && NoDuplicates(tx.Keys())
    ensures ExitTrace(tx, tracked, receiptOk, trackOk, sent)
    ensures early <= |sent| && ReleasesEarly(tx, TakenUp(tx, tracked, outcome), sent[..early])
    ensures trackOk <==> !tracked || Resolved(tx, tracked, outcome)
    ensures receiptOk <==> tx.phase == Setup && outcome.Receipted()
    ensures SetupFinished(tx.id, true) in sent <==> receiptOk
  {
    hide ReleasesEarly, ReleasesLate, ReleasesAll, InclusionLast, NoDuplicates, ExitTrace;
    var first, last, ok;
    first, last, receiptOk, ok := Submit(tx, tracked, outcome);
    trackOk := !tracked || ok;
    sent, early := first + last, |first|;
    ghost var released := sent;
    ghost var tail: seq<Completion> := [];
    if tx.phase == Setup {
      sent := sent + [SetupFinished(tx.id, receiptOk)];
      tail := tail + [SetupFinished(tx.id, receiptOk)];
    }
    if tracked {
      sent := sent + [PendingFinished(ok)];
      tail := tail + [PendingFinished(ok)];
    }
    assert sent == released + tail && sent[..early] == first;
    Guards(tx, tracked, receiptOk, ok, released, tail);
  }

  /** Guards that release nothing do not disturb the order of the releases. */
  lemma {:induction false} GuardsLast(tx: PendingTx, released: seq<Completion>, tail: seq<Completion>)
    requires InclusionLast(tx, released) && forall c :: c in tail ==> !c.Release?
    ensures InclusionLast(tx, released + tail)
    decreases |released| + |tail|
  {
    var all := released + tail;
    forall k ensures Total(all, Key(k)) == Total(released, Key(k)) {
      TotalAppend(released, tail, Key(k));
      NoReleases(tail, k);
    }
    if released != [] {
      assert all[1..] == released[1..] + tail;
      GuardsLast(tx, released[1..], tail);
    } else if tail != [] {
      assert all == tail && all[1..] == [] + tail[1..];
      GuardsLast(tx, [], tail[1..]);
    }
  }

  lemma {:induction false} NoReleases(cs: seq<Completion>, k: SchedulingKey)
    requires forall c :: c in cs ==> !c.Release?
    ensures Total(cs, Key(k)) == 0
  {
    if cs != [] {
      assert cs[0] in cs;
      NoReleases(cs[1..], k);
    }
  }

  lemma Guards(tx: PendingTx, tracked: bool, success: bool, ok: bool, released: seq<Completion>, tail: seq<Completion>)
    requires SoundTx(tx) && ReleasesAll(tx, released) && InclusionLast(tx, released) && (success ==> tx.phase == Setup)
    requires tail == (if tx.phase == Setup then [SetupFinished(tx.id, success)] else []) +
                     (if tracked then [PendingFinished(ok)] else [])
    ensures ExitTrace(tx, tracked, success, !tracked || ok, released + tail)
    ensures SetupFinished(tx.id, true) in released + tail <==> success
  {
    hide InclusionLast, Total;
    var a := if tx.phase == Setup then [SetupFinished(tx.id, success)] else [];
    var b := if tracked then [PendingFinished(ok)] else [];
    assert forall c :: c in released + tail <==> c in released || c in a || c in b;
    GuardsLast(tx, released, tail);
    GuardTotals(tx, tracked, success, ok, released, tail);
    assert PendingFinished(ok) in b <==> tracked;
    assert (released + tail)[0] == released[0] && released[0] in released;
  }

  lemma GuardTotals(tx: PendingTx, tracked: bool, success: bool, ok: bool, released: seq<Completion>,
                    tail: seq<Completion>)
    requires tail == (if tx.phase == Setup then [SetupFinished(tx.id, success)] else []) +
                     (if tracked then [PendingFinished(ok)] else [])
    ensures forall d ::
      Total(released + tail, d) == Total(released, d) +
      (if tx.phase == Setup then Weight(SetupFinished(tx.id, success), d) else 0) +
      (if tracked then Weight(PendingFinished(ok), d) else 0)
  {
    var a := if tx.phase == Setup then [SetupFinished(tx.id, success)] else [];
    var b := if tracked then [PendingFinished(ok)] else [];
    forall d ensures Total(released + tail, d) == Total(released, d) +
      (if tx.phase == Setup then Weight(SetupFinished(tx.id, success), d) else 0) +
      (if tracked then Weight(PendingFinished(ok), d) else 0)
    {
      TotalAppend(released, tail, d);
      TotalAppend(a, b, d);
      Single(SetupFinished(tx.id, success), d);
      Single(PendingFinished(ok), d);
    }
  }
}
