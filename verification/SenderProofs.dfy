/**
 Every action of the sender and of its workers keeps the invariants, and a sender
 that is owed nothing can always make progress unless its queue was cancelled.
 */
module SenderProofs {
  import opened Wrappers
  import opened Scheduling
  import opened SenderState

  // ------------------------------------------------- a worker takes a step

  lemma SendOwed(s: State, i: nat, d: Debt)
    requires i < |s.workers| && !s.workers[i].permit && s.workers[i].todo != []
    ensures Owed(RunWorker(s, i), d) == Owed(s, d)
  {
    var c := s.workers[i].todo[0];
    TotalUpdate(s.workers, i, RunWorker(s, i).workers[i], d);
    TotalAppend(s.channel, [c], d);
    assert [c][1..] == [];
    assert Total([c], d) == Weight(c, d);
  }

  lemma RunWorkerOwed(s: State, i: nat, d: Debt)
    requires i < |s.workers| && !Idle(s.workers[i])
    ensures var s' := RunWorker(s, i);
            && (d != Permit ==> Owed(s', d) == Owed(s, d))
            && Owed(s', Permit) + s'.permits == Owed(s, Permit) + s.permits
  {
    if s.workers[i].permit {
      TotalUpdate(s.workers, i, s.workers[i].(permit := false), d);
      TotalUpdate(s.workers, i, s.workers[i].(permit := false), Permit);
    } else {
      SendOwed(s, i, d);
      SendOwed(s, i, Permit);
      hide Owed;
    }
  }

  lemma RunWorkerLedger(cfg: Config, s: State, i: nat)
    requires Ledger(cfg, s) && i < |s.workers| && !Idle(s.workers[i])
    ensures Ledger(cfg, RunWorker(s, i))
  {
    var s' := RunWorker(s, i);
    forall k ensures Owed(s', Key(k)) == if k in s'.activeKeys then 1 else 0 {
      RunWorkerOwed(s, i, Key(k));
    }
    RunWorkerOwed(s, i, AnySetup);
    RunWorkerOwed(s, i, Slot);
    hide Owed;
    assert forall c :: c in s'.workers[i].todo ==> c in s.workers[i].todo;
    assert forall c :: c in s'.channel ==> c in s.channel || c in s.workers[i].todo;
  }

  lemma RunWorkerReceipts(s: State, i: nat)
    requires Truthful(s) && i < |s.workers| && !Idle(s.workers[i])
    ensures var s' := RunWorker(s, i);
            && (forall id :: Receipted(s, id) ==> Receipted(s', id))
            && (forall c, id :: c in s'.channel && SuccessOf(c, id) ==> Receipted(s', id))
  {
    hide Owed;
    var s' := RunWorker(s, i);
    assert forall j :: 0 <= j < |s.workers| ==>
      s'.workers[j].tx == s.workers[j].tx && s'.workers[j].receiptOk == s.workers[j].receiptOk;
    forall id | Receipted(s, id) ensures Receipted(s', id) {
      var j :| 0 <= j < |s.workers| && ReceiptedBy(s.workers[j], id);
      assert ReceiptedBy(s'.workers[j], id);
    }
    forall c, id | c in s'.channel && SuccessOf(c, id) ensures Receipted(s', id) {
      if c !in s.channel {
        assert c in s.workers[i].todo;
        assert ReceiptedBy(s.workers[i], id);
      }
    }
  }

  /** A worker's step only shortens what that worker has still to send. */
  lemma RunWorkerTodo(s: State, i: nat)
    requires i < |s.workers| && !Idle(s.workers[i])
    ensures var s' := RunWorker(s, i);
      && s'.completedSetup == s.completedSetup && s'.setupFailed == s.setupFailed && |s'.workers| == |s.workers|
      && (forall j :: 0 <= j < |s.workers| ==>
            s'.workers[j].tx == s.workers[j].tx && s'.workers[j].receiptOk == s.workers[j].receiptOk)
      && forall j, c :: 0 <= j < |s.workers| && c in s'.workers[j].todo ==> c in s.workers[j].todo
  {
  }

  lemma RunWorkerTruthful(s: State, i: nat)
    requires Truthful(s) && i < |s.workers| && !Idle(s.workers[i])
    ensures Truthful(RunWorker(s, i))
  {
    var s' := RunWorker(s, i);
    RunWorkerReceipts(s, i);
    RunWorkerTodo(s, i);
    hide RunWorker, Owed, Receipted, SuccessOf;
    forall id ensures Owed(s', SetupOf(id)) == Owed(s, SetupOf(id)) {
      RunWorkerOwed(s, i, SetupOf(id));
    }
    assert forall j, id :: 0 <= j < |s.workers| ==> (ReceiptedBy(s'.workers[j], id) <==> ReceiptedBy(s.workers[j], id));
    hide ReceiptedBy;
  }

  /** A worker's step moves a completion; it grounds and orphans nothing. */
  lemma RunWorkerGrounded(s: State, i: nat, j: nat, id: string)
    requires i < |s.workers| && !Idle(s.workers[i])
    ensures Grounded(s, j, id) <==> Grounded(RunWorker(s, i), j, id)
  {
    RunWorkerOwed(s, i, SetupOf(id));
    hide Owed;
    assert QueuedBefore(s, j, id) <==> QueuedBefore(RunWorker(s, i), j, id);
  }

  lemma RunWorkerSupplied(s: State, i: nat)
    requires Supplied(s) && i < |s.workers| && !Idle(s.workers[i])
    ensures Supplied(RunWorker(s, i))
    ensures AllGrounded(s) <==> AllGrounded(RunWorker(s, i))
  {
    var s' := RunWorker(s, i);
    forall j: nat, id ensures Grounded(s, j, id) <==> Grounded(s', j, id) {
      RunWorkerGrounded(s, i, j, id);
    }
    hide Grounded;
    forall p | Listed(s, p) ensures Listed(s', p) {
      SameListed(s, s', p);
    }
  }

  /** Listing only depends on the queue and on which transactions were dispatched. */
  lemma SameListed(s: State, s': State, p: PendingTx)
    requires Listed(s, p) && s'.pending == s.pending && |s.workers| <= |s'.workers|
    requires forall i :: 0 <= i < |s.workers| ==> s'.workers[i].tx == s.workers[i].tx
    ensures Listed(s', p)
  {
    if Dispatched(s, p) {
      var i :| 0 <= i < |s.workers| && s.workers[i].tx == p;
      assert s'.workers[i].tx == p;
    }
  }

  lemma RunWorkerCaused(s: State, i: nat)
    requires Caused(s) && i < |s.workers| && !Idle(s.workers[i])
    ensures Caused(RunWorker(s, i))
  {
    var s' := RunWorker(s, i);
    RunWorkerTodo(s, i);
    RunWorkerReports(s, i);
    hide RunWorker;
    SameFates(s, s');
    RefusedStay(s, s');
    RunWorkerTracking(s, i);
    hide Listed, RefusedAreGone, AnyLostTrack, AnyNoReceipt, LostTrack, TrackingCaused, ReportsFailure;
    WitnessFates(s);
  }

  lemma RunWorkerTracking(s: State, i: nat)
    requires TrackingCaused(s) && i < |s.workers| && !Idle(s.workers[i])
    ensures TrackingCaused(RunWorker(s, i))
  {
    RunWorkerTodo(s, i);
    RunWorkerReports(s, i);
    hide RunWorker;
    SameFates(s, RunWorker(s, i));
    WitnessFates(s);
    hide AnyLostTrack, AnyNoReceipt, NoReceipt;
  }

  /** A worker's step loses no completion and makes none up. */
  lemma RunWorkerReports(s: State, i: nat)
    requires i < |s.workers| && !Idle(s.workers[i])
    ensures var s' := RunWorker(s, i);
      && s'.pendingFailed == s.pendingFailed && s'.unauthenticated == s.unauthenticated
      && s'.pending == s.pending && s'.nextQueueId == s.nextQueueId && |s'.workers| == |s.workers|
      && (forall j :: 0 <= j < |s.workers| ==> s'.workers[j].trackOk == s.workers[j].trackOk)
      && (forall j :: 0 <= j < |s.workers| && j != i ==> s'.workers[j] == s.workers[j])
      && (forall c :: c in s.channel ==> c in s'.channel)
      && (forall c :: c in s'.channel ==> c in s.channel || c in s.workers[i].todo)
      && (forall c :: c in s.workers[i].todo ==> c in s'.channel || c in s'.workers[i].todo)
  {
  }

  /** A worker that failed is one that failed. */
  lemma WitnessFates(s: State)
    ensures forall i :: 0 <= i < |s.workers| && LostTrack(s.workers[i]) ==> AnyLostTrack(s)
    ensures forall i :: 0 <= i < |s.workers| && NoReceipt(s.workers[i]) ==> AnyNoReceipt(s)
  {
  }

  /** Fates are decided when a worker is spawned. */
  lemma SameFates(s: State, s': State)
    requires |s.workers| <= |s'.workers|
    requires forall j :: 0 <= j < |s.workers| ==> s'.workers[j].tx == s.workers[j].tx
    requires forall j :: 0 <= j < |s.workers| ==> s'.workers[j].receiptOk == s.workers[j].receiptOk
    requires forall j :: 0 <= j < |s.workers| ==> s'.workers[j].trackOk == s.workers[j].trackOk
    ensures AnyLostTrack(s) ==> AnyLostTrack(s')
    ensures AnyNoReceipt(s) ==> AnyNoReceipt(s')
  {
    forall j | 0 <= j < |s.workers|
      ensures LostTrack(s.workers[j]) <==> LostTrack(s'.workers[j])
      ensures NoReceipt(s.workers[j]) <==> NoReceipt(s'.workers[j])
    {
    }
  }

  lemma RefusedStay(s: State, s': State)
    requires RefusedAreGone(s) && s'.unauthenticated == s.unauthenticated
    requires s'.pending == s.pending && s'.nextQueueId == s.nextQueueId && |s'.workers| == |s.workers|
    requires forall j :: 0 <= j < |s.workers| ==> s'.workers[j].tx == s.workers[j].tx
    requires s.setupFailed ==> s'.setupFailed
    ensures RefusedAreGone(s')
  {
    forall p ensures Listed(s, p) <==> Listed(s', p) {
      SameListing(s, s', p);
    }
  }

  lemma RunWorkerStaged(s: State, i: nat)
    requires Staged(s) && i < |s.workers| && !Idle(s.workers[i])
    ensures Staged(RunWorker(s, i))
    ensures RunWorker(s, i).inFlightPending == s.inFlightPending
  {
    hide Total;
  }

  lemma RunWorkerKeeps(cfg: Config, s: State, i: nat)
    requires Inv(cfg, s) && i < |s.workers| && !Idle(s.workers[i])
    ensures var s' := RunWorker(s, i);
            Inv(cfg, s') && (AllGrounded(s) <==> AllGrounded(s'))
  {
    hide Ledger, Truthful, Supplied, Ordered, UniqueSetup, Caused, Staged;
    RunWorkerCaused(s, i);
    RunWorkerStaged(s, i);
    RunWorkerLedger(cfg, s, i);
    RunWorkerTruthful(s, i);
    RunWorkerSupplied(s, i);
    ShapeKeeps(s, RunWorker(s, i));
  }

  /** The ordering invariants only look at the queue and at which transactions were dispatched. */
  lemma ShapeKeeps(s: State, s': State)
    requires Ordered(s) && UniqueSetup(s)
    requires s'.pending == s.pending && |s'.workers| == |s.workers|
    requires forall j :: 0 <= j < |s.workers| ==> s'.workers[j].tx == s.workers[j].tx
    requires s'.nextQueueId == s.nextQueueId && s'.knownSetup == s.knownSetup
    ensures Ordered(s') && UniqueSetup(s')
  {
    ShapeUnique(s, s');
    hide ShareKey, SoundTx, UniqueSetup;
  }

  lemma ShapeUnique(s: State, s': State)
    requires UniqueSetup(s)
    requires s'.pending == s.pending && |s'.workers| == |s.workers|
    requires forall j :: 0 <= j < |s.workers| ==> s'.workers[j].tx == s.workers[j].tx
    requires s'.knownSetup == s.knownSetup
    ensures UniqueSetup(s')
  {
    hide NamedBy;
  }

  // ------------------------------------------- the sender reads a message

  lemma HandleOwed(s: State, d: Debt)
    requires s.channel != []
    ensures Owed(s.(channel := s.channel[1..]), d) + Weight(s.channel[0], d) == Owed(s, d)
  {
  }

  /** What one completion changes, field by field. */
  lemma HandleFields(s: State)
    requires CanHandle(s)
    ensures var c := s.channel[0]; var t := Handle(s);
      && t == s.(channel := s.channel[1..], activeKeys := t.activeKeys, inFlightPending := t.inFlightPending,
                 pendingFailed := t.pendingFailed, inFlightSetup := t.inFlightSetup, setupFailed := t.setupFailed,
                 completedSetup := t.completedSetup)
      && t.activeKeys == s.activeKeys - (if c.Release? then set k | k in c.keys else {})
      && t.inFlightPending == s.inFlightPending - (if c.PendingFinished? then 1 else 0)
      && t.pendingFailed == (s.pendingFailed || c == PendingFinished(false))
      && t.inFlightSetup == s.inFlightSetup - (if c.SetupFinished? then 1 else 0)
      && t.setupFailed == (s.setupFailed || ReportsFailure(c))
      && t.completedSetup == s.completedSetup + if c.SetupFinished? && c.success then {c.id.value} else {}
  {
  }

  lemma HandleDebt(s: State, d: Debt)
    requires CanHandle(s)
    ensures Owed(Handle(s), d) + Weight(s.channel[0], d) == Owed(s, d)
  {
    HandleOwed(s, d);
    assert Owed(Handle(s), d) == Owed(s.(channel := s.channel[1..]), d);
  }

  /** The counters never underflow: a completion in the channel is counted. */
  lemma HandleEnabled(cfg: Config, s: State)
    requires Ledger(cfg, s) && s.channel != []
    ensures CanHandle(s)
  {
    HandleOwed(s, AnySetup);
    HandleOwed(s, Slot);
    assert s.channel[0] in s.channel;
  }

  /** Each owed key is released exactly once, so releasing frees exactly the named keys. */
  lemma HandleKeyDebt(cfg: Config, s: State, k: SchedulingKey)
    requires Ledger(cfg, s) && CanHandle(s)
    ensures Owed(Handle(s), Key(k)) == if k in Handle(s).activeKeys then 1 else 0
  {
    hide Owed, Handle;
    HandleFields(s);
    HandleDebt(s, Key(k));
    assert Owed(s, Key(k)) == if k in s.activeKeys then 1 else 0;
    hide Ledger;
    if s.channel[0].Release? {
      OccursIff(s.channel[0].keys, k);
    }
  }

  lemma HandleLedger(cfg: Config, s: State)
    requires Ledger(cfg, s) && CanHandle(s)
    ensures Ledger(cfg, Handle(s))
  {
    hide Owed, Handle, SoundMessage;
    HandleFields(s);
    HandleDebt(s, AnySetup);
    HandleDebt(s, Slot);
    HandleDebt(s, Permit);
    forall k ensures Owed(Handle(s), Key(k)) == if k in Handle(s).activeKeys then 1 else 0 {
      HandleKeyDebt(cfg, s, k);
    }
    assert forall c :: c in Handle(s).channel ==> c in s.channel;
  }

  /** A successful setup result was reported by the worker of that very transaction. */
  lemma HandleReceipted(s: State, i: nat)
    requires Truthful(s) && UniqueSetup(s) && CanHandle(s)
    requires i < |s.workers| && s.workers[i].tx.phase == Setup && s.workers[i].tx.id.Some?
    ensures Owed(Handle(s), SetupOf(s.workers[i].tx.id.value)) > 0 || Handle(s).setupFailed || s.workers[i].receiptOk
  {
    var id := s.workers[i].tx.id.value;
    var m := s.channel[0];
    HandleOwed(s, SetupOf(id));
    assert Owed(Handle(s), SetupOf(id)) == Owed(s.(channel := s.channel[1..]), SetupOf(id));
    hide Owed;
    if m == SetupFinished(Some(id), true) {
      assert m in s.channel && SuccessOf(m, id);
      var j :| 0 <= j < |s.workers| && ReceiptedBy(s.workers[j], id);
      hide Truthful;
      assert s.workers[j].tx.id == s.workers[i].tx.id;
    }
  }

  lemma HandleTruthful(s: State)
    requires Truthful(s) && UniqueSetup(s) && CanHandle(s)
    ensures Truthful(Handle(s))
  {
    var s' := Handle(s);
    HandleShape(s);
    hide UniqueSetup, SuccessOf, Receipted, ReceiptedBy, Handle;
    forall i | 0 <= i < |s.workers| && s.workers[i].tx.phase == Setup && s.workers[i].tx.id.Some?
      ensures Owed(s', SetupOf(s.workers[i].tx.id.value)) > 0 || s'.setupFailed || s.workers[i].receiptOk
    {
      HandleReceipted(s, i);
    }
    hide Owed;
  }

  /** A completion adds at most the setup result it carries. */
  lemma HandleShape(s: State)
    requires CanHandle(s)
    ensures var s' := Handle(s);
      && s'.workers == s.workers && s.completedSetup <= s'.completedSetup && s.channel[0] in s.channel
      && (forall c :: c in s'.channel ==> c in s.channel)
      && (forall id :: id in s'.completedSetup ==> id in s.completedSetup || SuccessOf(s.channel[0], id))
      && (forall id :: Receipted(s, id) <==> Receipted(s', id))
  {
  }

  /** Reading a completion keeps what is grounded, unless a setup failed; orphans stay orphans. */
  lemma HandleGrounded(s: State, i: nat, id: string)
    requires CanHandle(s)
    ensures Grounded(s, i, id) && !Handle(s).setupFailed ==> Grounded(Handle(s), i, id)
    ensures Grounded(Handle(s), i, id) ==> Grounded(s, i, id)
  {
    HandleOwed(s, SetupOf(id));
    assert Owed(Handle(s), SetupOf(id)) == Owed(s.(channel := s.channel[1..]), SetupOf(id));
    hide Owed;
    assert QueuedBefore(s, i, id) <==> QueuedBefore(Handle(s), i, id);
  }

  lemma HandleSupplied(s: State)
    requires Supplied(s) && CanHandle(s)
    ensures Supplied(Handle(s))
    ensures AllGrounded(s) && !Handle(s).setupFailed ==> AllGrounded(Handle(s))
    ensures AllGrounded(Handle(s)) ==> AllGrounded(s)
  {
    var s' := Handle(s);
    forall i: nat, id
      ensures Grounded(s, i, id) && !s'.setupFailed ==> Grounded(s', i, id)
      ensures Grounded(s', i, id) ==> Grounded(s, i, id)
    {
      HandleGrounded(s, i, id);
    }
    hide Grounded;
    forall p | Listed(s, p) ensures Listed(s', p) {
      SameListed(s, s', p);
    }
  }

  lemma HandleCaused(s: State)
    requires Caused(s) && CanHandle(s)
    ensures Caused(Handle(s))
  {
    var s' := Handle(s);
    SameFates(s, s');
    RefusedStay(s, s');
    HandleTracking(s);
    hide TrackingCaused, Listed, RefusedAreGone, AnyLostTrack, AnyNoReceipt, LostTrack, NoReceipt;
    assert s.channel[0] in s.channel;
    assert forall c :: c in s'.channel ==> c in s.channel;
  }

  lemma HandleTracking(s: State)
    requires TrackingCaused(s) && CanHandle(s)
    ensures TrackingCaused(Handle(s))
  {
    var s' := Handle(s);
    SameFates(s, s');
    hide AnyLostTrack, AnyNoReceipt, LostTrack, NoReceipt;
    assert s.channel[0] in s.channel;
    assert forall c :: c in s.channel <==> c == s.channel[0] || c in s'.channel;
  }

  lemma HandleKeeps(cfg: Config, s: State)
    requires Inv(cfg, s) && s.channel != []
    ensures CanHandle(s)
    ensures Inv(cfg, Handle(s))
    ensures AllGrounded(s) && !Handle(s).setupFailed ==> AllGrounded(Handle(s))
    ensures AllGrounded(Handle(s)) ==> AllGrounded(s)
  {
    hide Ledger, Truthful, Supplied, Ordered, UniqueSetup, Caused, InclusionLast;
    HandleEnabled(cfg, s);
    HandleCaused(s);
    HandleLedger(cfg, s);
    HandleTruthful(s);
    HandleSupplied(s);
    ShapeKeeps(s, Handle(s));
  }

  // ------------------------------------------------- the sender dispatches

  /** Entry `i` is the next ready one, a permit and a pending slot are free, and `w` is its fresh worker. */
  ghost predicate CanDispatch(cfg: Config, s: State, i: nat, w: Worker) {
    && i < |s.pending| && IsNextReady(s, Some(i)) && s.permits > 0
    && (cfg.maxPending.Some? ==> s.inFlightPending < cfg.maxPending.value)
    && w.tx == s.pending[i] && w.permit
    && ExitTrace(w.tx, cfg.maxPending.Some?, w.receiptOk, w.trackOk, w.todo)
  }

  lemma DispatchOwed(s: State, i: nat, w: Worker, tracked: bool, d: Debt)
    requires i < |s.pending| && s.permits > 0
    ensures Owed(Dispatch(s, i, w, tracked), d) == Owed(s, d) + WorkerOwes(w, d)
  {
    TotalSpawn(s.workers, w, d);
  }

  lemma {:induction false} NoPermitInMessages(cs: seq<Completion>)
    ensures Total(cs, Permit) == 0
  {
    if cs != [] {
      NoPermitInMessages(cs[1..]);
    }
  }

  /** A ready transaction holds none of the active keys, so the new keys are disjoint from them. */
  lemma DispatchLedger(cfg: Config, s: State, i: nat, w: Worker)
    requires Ledger(cfg, s) && CanDispatch(cfg, s, i, w)
    ensures Ledger(cfg, Dispatch(s, i, w, cfg.maxPending.Some?))
  {
    var tracked := cfg.maxPending.Some?;
    var s' := Dispatch(s, i, w, tracked);
    forall k ensures Owed(s', Key(k)) == if k in s'.activeKeys then 1 else 0 {
      DispatchOwed(s, i, w, tracked, Key(k));
    }
    DispatchOwed(s, i, w, tracked, AnySetup);
    DispatchOwed(s, i, w, tracked, Slot);
    DispatchOwed(s, i, w, tracked, Permit);
    NoPermitInMessages(w.todo);
    hide Owed;
  }

  lemma DispatchOrdered(cfg: Config, s: State, i: nat, w: Worker)
    requires Ordered(s) && CanDispatch(cfg, s, i, w)
    requires forall j :: 0 <= j < i ==> !ShareKey(s.pending[i], s.pending[j])
    ensures Ordered(Dispatch(s, i, w, cfg.maxPending.Some?))
  {
    hide Waits, ExitTrace, ShareKey, SoundTx, Ordered, Joins;
    RemoveOrdered(s, i);
    ReadyJoins(s, i, w);
    SpawnOrdered(Remove(s, i), w);
    SameOrder(Remove(s, i).(workers := s.workers + [w]), Dispatch(s, i, w, cfg.maxPending.Some?));
  }

  lemma SameOrder(s: State, s': State)
    requires Ordered(s) && s'.pending == s.pending && s'.workers == s.workers && s'.nextQueueId == s.nextQueueId
    ensures Ordered(s')
  {
    hide ShareKey, SoundTx;
  }

  /** The worker's transaction stands after its dispatched conflicts and before the queued ones. */
  ghost predicate Joins(s: State, w: Worker) {
    && SoundTx(w.tx) && w.tx.queueId < s.nextQueueId
    && (forall j :: 0 <= j < |s.workers| ==> s.workers[j].tx.queueId != w.tx.queueId)
    && (forall j :: 0 <= j < |s.workers| && ShareKey(s.workers[j].tx, w.tx) ==>
          s.workers[j].tx.queueId < w.tx.queueId)
    && (forall j :: 0 <= j < |s.pending| ==> w.tx.queueId != s.pending[j].queueId)
    && (forall j :: 0 <= j < |s.pending| && ShareKey(w.tx, s.pending[j]) ==> w.tx.queueId < s.pending[j].queueId)
  }

  lemma ReadyJoins(s: State, i: nat, w: Worker)
    requires Ordered(s) && i < |s.pending| && w.tx == s.pending[i]
    requires forall j :: 0 <= j < i ==> !ShareKey(s.pending[i], s.pending[j])
    ensures Joins(Remove(s, i), w)
  {
    hide ShareKey, SoundTx;
    assert forall j :: 0 <= j < |s.pending| - 1 ==> Remove(s, i).pending[j] == s.pending[OldIndex(i, j)];
  }

  /** A worker joins last. */
  lemma SpawnOrdered(s: State, w: Worker)
    requires Ordered(s) && Joins(s, w)
    ensures Ordered(s.(workers := s.workers + [w]))
  {
    hide ShareKey, SoundTx;
    var s' := s.(workers := s.workers + [w]);
    assert forall j :: 0 <= j < |s'.workers| ==> s'.workers[j] == if j < |s.workers| then s.workers[j] else w;
  }

  /** After removing entry `i`, entry `j` is the old entry `j` or its right neighbour. */
  function OldIndex(i: nat, j: nat): nat {
    if j < i then j else j + 1
  }

  lemma DispatchShape(s: State, i: nat, w: Worker, tracked: bool)
    requires i < |s.pending| && s.permits > 0
    ensures var s' := Dispatch(s, i, w, tracked);
            && |s'.pending| == |s.pending| - 1 && |s'.workers| == |s.workers| + 1
            && (forall j :: 0 <= j < |s'.pending| ==> s'.pending[j] == s.pending[OldIndex(i, j)])
            && (forall j :: 0 <= j < |s.workers| ==> s'.workers[j] == s.workers[j])
            && s'.workers[|s.workers|] == w
  {
  }

  lemma DispatchUnique(s: State, i: nat, w: Worker, tracked: bool)
    requires UniqueSetup(s) && i < |s.pending| && s.permits > 0 && w.tx == s.pending[i]
    ensures UniqueSetup(Dispatch(s, i, w, tracked))
  {
    hide UniqueSetup, JoinsSetup;
    RemoveUnique(s, i);
    ReadyJoinsSetup(s, i, w);
    SpawnUnique(Remove(s, i), w);
    ShapeUnique(Remove(s, i).(workers := s.workers + [w]), Dispatch(s, i, w, tracked));
  }

  /** The worker's transaction carries a known setup id that nobody else does. */
  ghost predicate JoinsSetup(s: State, w: Worker) {
    w.tx.phase == Setup ==>
      && w.tx.id.Some? && w.tx.id.value in s.knownSetup
      && (forall j :: 0 <= j < |s.workers| && s.workers[j].tx.phase == Setup ==> s.workers[j].tx.id != w.tx.id)
      && (forall j :: 0 <= j < |s.pending| && s.pending[j].phase == Setup ==> s.pending[j].id != w.tx.id)
  }

  lemma ReadyJoinsSetup(s: State, i: nat, w: Worker)
    requires UniqueSetup(s) && i < |s.pending| && w.tx == s.pending[i]
    ensures JoinsSetup(Remove(s, i), w)
  {
    RemoveShape(s, i);
    hide Remove, NamedBy;
  }

  lemma SpawnUnique(s: State, w: Worker)
    requires UniqueSetup(s) && JoinsSetup(s, w)
    ensures UniqueSetup(s.(workers := s.workers + [w]))
  {
    hide NamedBy;
    var s' := s.(workers := s.workers + [w]);
    assert forall j :: 0 <= j < |s'.workers| ==> s'.workers[j] == if j < |s.workers| then s.workers[j] else w;
  }

  lemma {:induction false} OwnSetup(cs: seq<Completion>, id: string)
    requires forall c :: c in cs && c.SetupFinished? ==> c.id == Some(id)
    ensures Total(cs, SetupOf(id)) == Total(cs, AnySetup)
  {
    if cs != [] {
      assert cs[0] in cs && forall c :: c in cs[1..] ==> c in cs;
      OwnSetup(cs[1..], id);
    }
  }

  lemma {:induction false} CountedSetup(cs: seq<Completion>, c: Completion)
    requires c in cs && c.SetupFinished?
    ensures Total(cs, AnySetup) > 0
  {
    if cs[0] != c {
      CountedSetup(cs[1..], c);
    }
  }

  /** What a fresh worker owes about setup, and that its own success report is truthful. */
  lemma FreshWorker(cfg: Config, s: State, i: nat, w: Worker)
    requires CanDispatch(cfg, s, i, w)
    ensures w.tx.phase == Setup && w.tx.id.Some? ==> WorkerOwes(w, SetupOf(w.tx.id.value)) > 0
    ensures forall c, id :: c in w.todo && SuccessOf(c, id) ==> ReceiptedBy(w, id)
    ensures forall d :: d in w.tx.dependsOn ==> d in s.completedSetup
  {
    if w.tx.phase == Setup && w.tx.id.Some? {
      OwnSetup(w.todo, w.tx.id.value);
    }
    forall c, id | c in w.todo && SuccessOf(c, id) ensures ReceiptedBy(w, id) {
      CountedSetup(w.todo, c);
    }
  }

  lemma DispatchTruthful(cfg: Config, s: State, i: nat, w: Worker)
    requires Truthful(s) && CanDispatch(cfg, s, i, w)
    ensures Truthful(Dispatch(s, i, w, cfg.maxPending.Some?))
  {
    var tracked := cfg.maxPending.Some?;
    var s' := Dispatch(s, i, w, tracked);
    FreshWorker(cfg, s, i, w);
    DispatchShape(s, i, w, tracked);
    forall id ensures Owed(s', SetupOf(id)) == Owed(s, SetupOf(id)) + WorkerOwes(w, SetupOf(id)) {
      DispatchOwed(s, i, w, tracked, SetupOf(id));
    }
    assert s'.completedSetup == s.completedSetup && s'.channel == s.channel && s'.setupFailed == s.setupFailed;
    hide Owed, WorkerOwes, Waits, ExitTrace, Dispatch;
    forall id | Receipted(s, id) ensures Receipted(s', id) {
      var j :| 0 <= j < |s.workers| && ReceiptedBy(s.workers[j], id);
      assert ReceiptedBy(s'.workers[j], id);
    }
  }

  lemma DispatchGrounded(cfg: Config, s: State, i: nat, w: Worker, j: nat, id: string)
    requires CanDispatch(cfg, s, i, w)
    requires j <= |s.pending| && j != i && Grounded(s, j, id)
    ensures Grounded(Dispatch(s, i, w, cfg.maxPending.Some?), if j < i then j else j - 1, id)
  {
    var tracked := cfg.maxPending.Some?;
    var s' := Dispatch(s, i, w, tracked);
    FreshWorker(cfg, s, i, w);
    DispatchOwed(s, i, w, tracked, SetupOf(id));
    DispatchShape(s, i, w, tracked);
    if QueuedBefore(s, j, id) {
      var m :| 0 <= m < j && m < |s.pending| && s.pending[m].phase == Setup && s.pending[m].id == Some(id);
      if m != i {
        var m' := if m < i then m else m - 1;
        assert s'.pending[m'] == s.pending[m];
      }
    }
  }

  /** What stands before entry `j` after a dispatch stood before it already. */
  lemma QueuedShift(s: State, i: nat, w: Worker, tracked: bool, j: nat, d: string)
    requires i < |s.pending| && s.permits > 0 && j < |s.pending| && j != i
    requires QueuedBefore(Dispatch(s, i, w, tracked), if j < i then j else j - 1, d)
    ensures QueuedBefore(s, j, d)
  {
    var s' := Dispatch(s, i, w, tracked);
    DispatchShape(s, i, w, tracked);
    var j' := if j < i then j else j - 1;
    var m :| 0 <= m < j' && m < |s'.pending| && s'.pending[m].phase == Setup && s'.pending[m].id == Some(d);
    assert s.pending[OldIndex(i, m)] == s'.pending[m];
  }

  /** A dispatched setup transaction that is somebody's dependency was queued ahead of it. */
  lemma OrphanIsForeign(s: State, i: nat, j: nat, d: string)
    requires UniqueSetup(s) && i < |s.pending| && j < |s.pending|
    requires d in s.pending[j].dependsOn && !QueuedBefore(s, j, d)
    ensures s.pending[i].phase == Setup ==> s.pending[i].id != Some(d)
  {
    assert i < j && s.pending[i].phase == Setup && s.pending[i].id == Some(d) ==> QueuedBefore(s, j, d);
    assert s.pending[i].phase == Setup && s.pending[i].id == Some(d) ==> NamedBy(s.pending[i], s.pending[j]);
  }

  /** An orphaned dependency keeps its user in the queue and cannot reappear. */
  lemma DispatchOrphan(cfg: Config, s: State, i: nat, w: Worker)
    requires UniqueSetup(s) && CanDispatch(cfg, s, i, w) && !AllGrounded(s)
    ensures !AllGrounded(Dispatch(s, i, w, cfg.maxPending.Some?))
  {
    hide UniqueSetup, Waits, ExitTrace, QueuedBefore, Owed, WorkerOwes, SoundTx;
    var tracked := cfg.maxPending.Some?;
    var s' := Dispatch(s, i, w, tracked);
    DispatchShape(s, i, w, tracked);
    ReadyIsSupplied(s, i);
    assert s'.completedSetup == s.completedSetup;
    hide Dispatch;
    var j, d :| 0 <= j < |s.pending| && d in s.pending[j].dependsOn && !Grounded(s, j, d);
    var j' := if j < i then j else j - 1;
    assert j != i && s'.pending[j'] == s.pending[j];
    OrphanIsForeign(s, i, j, d);
    ForeignSetup(w.tx, tracked, w.receiptOk, w.trackOk, w.todo, d);
    DispatchOwed(s, i, w, tracked, SetupOf(d));
    assert WorkerOwes(w, SetupOf(d)) == Total(w.todo, SetupOf(d)) by { OwesTodo(w, d); }
    if QueuedBefore(s', j', d) {
      QueuedShift(s, i, w, tracked, j, d);
    }
    assert !Grounded(s', j', d);
  }

  lemma OwesTodo(w: Worker, d: string)
    ensures WorkerOwes(w, SetupOf(d)) == Total(w.todo, SetupOf(d))
  {
  }

  lemma ReadyIsSupplied(s: State, i: nat)
    requires i < |s.pending| && !Waits(s, i)
    ensures forall d :: d in s.pending[i].dependsOn ==> d in s.completedSetup
  {
  }

  lemma ForeignSetup(tx: PendingTx, tracked: bool, receiptOk: bool, trackOk: bool, todo: seq<Completion>, d: string)
    requires ExitTrace(tx, tracked, receiptOk, trackOk, todo)
    requires tx.phase == Setup ==> tx.id != Some(d)
    ensures Total(todo, SetupOf(d)) == 0
  {
    forall c | c in todo && c.SetupFinished? ensures c.id != Some(d) {
      CountedSetup(todo, c);
    }
    NoSetupOf(todo, d);
  }

  lemma {:induction false} NoSetupOf(cs: seq<Completion>, d: string)
    requires forall c :: c in cs && c.SetupFinished? ==> c.id != Some(d)
    ensures Total(cs, SetupOf(d)) == 0
  {
    if cs != [] {
      assert cs[0] in cs && forall c :: c in cs[1..] ==> c in cs;
      NoSetupOf(cs[1..], d);
    }
  }

  lemma DispatchSupplied(cfg: Config, s: State, i: nat, w: Worker)
    requires Supplied(s) && CanDispatch(cfg, s, i, w)
    ensures Supplied(Dispatch(s, i, w, cfg.maxPending.Some?))
    ensures AllGrounded(s) ==> AllGrounded(Dispatch(s, i, w, cfg.maxPending.Some?))
  {
    var s' := Dispatch(s, i, w, cfg.maxPending.Some?);
    DispatchShape(s, i, w, cfg.maxPending.Some?);
    if AllGrounded(s) {
      forall j, d | 0 <= j < |s'.pending| && d in s'.pending[j].dependsOn
        ensures Grounded(s', j, d)
      {
        DispatchGrounded(cfg, s, i, w, OldIndex(i, j), d);
      }
    }
    if !s.cancelled && !s.setupFailed {
      forall id | id in s'.knownSetup ensures Grounded(s', |s'.pending|, id) {
        DispatchGrounded(cfg, s, i, w, |s.pending|, id);
      }
    }
    hide Grounded, CanDispatch;
    forall p | Listed(s, p) ensures Listed(s', p) {
      DispatchListed(s, i, w, cfg.maxPending.Some?, p);
    }
  }

  /** Dispatching moves a transaction from the queue to a worker and loses none. */
  lemma DispatchListed(s: State, i: nat, w: Worker, tracked: bool, p: PendingTx)
    requires i < |s.pending| && s.permits > 0 && w.tx == s.pending[i]
    ensures Listed(s, p) <==> Listed(Dispatch(s, i, w, tracked), p)
    ensures Dispatched(Dispatch(s, i, w, tracked), p) <==> Dispatched(s, p) || p == s.pending[i]
  {
    var s' := Dispatch(s, i, w, tracked);
    assert s'.workers[|s.workers|] == w;
    assert forall j :: 0 <= j < |s.workers| ==> s'.workers[j] == s.workers[j];
    assert s.pending == s.pending[..i] + [s.pending[i]] + s.pending[i + 1..];
    assert p in s'.pending || p == s.pending[i] <==> p in s.pending;
  }

  lemma DispatchCaused(cfg: Config, s: State, i: nat, w: Worker)
    requires Caused(s) && CanDispatch(cfg, s, i, w)
    ensures Caused(Dispatch(s, i, w, cfg.maxPending.Some?))
  {
    var s' := Dispatch(s, i, w, cfg.maxPending.Some?);
    DispatchShape(s, i, w, cfg.maxPending.Some?);
    SameFates(s, s');
    assert s'.channel == s.channel && s'.pendingFailed == s.pendingFailed && s'.setupFailed == s.setupFailed;
    assert s'.unauthenticated == s.unauthenticated && s'.nextQueueId == s.nextQueueId;
    hide AnyLostTrack, AnyNoReceipt, Waits;
    assert RefusedAreGone(s') by {
      forall p ensures Listed(s', p) <==> Listed(s, p) {
        DispatchListed(s, i, w, cfg.maxPending.Some?, p);
      }
      hide Listed, Dispatch, CanDispatch;
    }
    assert forall c :: c in w.todo && ReportsFailure(c) ==> NoReceipt(w);
    hide Listed, RefusedAreGone, Dispatch, NoReceipt, ReportsFailure;
  }

  lemma DispatchStaged(cfg: Config, s: State, i: nat, w: Worker)
    requires Staged(s) && Limited(cfg, s) && CanDispatch(cfg, s, i, w)
    ensures var s' := Dispatch(s, i, w, cfg.maxPending.Some?); Staged(s') && Limited(cfg, s')
  {
    DispatchShape(s, i, w, cfg.maxPending.Some?);
    hide InclusionLast, Waits;
  }

  lemma DispatchKeeps(cfg: Config, s: State, i: nat, w: Worker)
    requires Inv(cfg, s) && CanDispatch(cfg, s, i, w)
    ensures Inv(cfg, Dispatch(s, i, w, cfg.maxPending.Some?))
    ensures AllGrounded(s) <==> AllGrounded(Dispatch(s, i, w, cfg.maxPending.Some?))
  {
    forall j | 0 <= j < i ensures !ShareKey(s.pending[i], s.pending[j]) {
    }
    if !AllGrounded(s) {
      DispatchOrphan(cfg, s, i, w);
    }
    hide AllGrounded;
    hide Ledger, Ordered, UniqueSetup, Truthful, Supplied, Caused, Staged;
    DispatchStaged(cfg, s, i, w);
    DispatchCaused(cfg, s, i, w);
    DispatchLedger(cfg, s, i, w);
    DispatchOrdered(cfg, s, i, w);
    DispatchUnique(s, i, w, cfg.maxPending.Some?);
    DispatchTruthful(cfg, s, i, w);
    DispatchSupplied(cfg, s, i, w);
  }

  // ----------------------------------------------- the queue grows, or goes

  /** What `send` has checked before a transaction is queued. */
  predicate CanEnqueue(s: State, tx: PendingTx) {
    && SoundTx(tx) && tx.queueId == s.nextQueueId
    && (tx.phase == Setup ==> tx.id.value !in s.knownSetup)
    && (forall d :: d in tx.dependsOn ==> d in s.knownSetup)
  }

  lemma EnqueueOrdered(s: State, tx: PendingTx)
    requires Ordered(s) && CanEnqueue(s, tx) && NoDuplicates(tx.Keys())
    ensures Ordered(Enqueue(s, tx))
  {
    var s' := Enqueue(s, tx);
    hide ShareKey, SoundTx;
    assert forall j :: 0 <= j < |s'.pending| ==> s'.pending[j] == if j < |s.pending| then s.pending[j] else tx;
  }

  lemma EnqueueUnique(s: State, tx: PendingTx)
    requires UniqueSetup(s) && CanEnqueue(s, tx)
    ensures UniqueSetup(Enqueue(s, tx))
  {
    var s' := Enqueue(s, tx);
    assert forall j :: 0 <= j < |s'.pending| ==> s'.pending[j] == if j < |s.pending| then s.pending[j] else tx;
  }

  lemma EnqueueSupplied(s: State, tx: PendingTx)
    requires Supplied(s) && CanEnqueue(s, tx)
    ensures Supplied(Enqueue(s, tx))
  {
    var s' := Enqueue(s, tx);
    assert forall d :: Owed(s', d) == Owed(s, d);
    hide Owed;
    assert forall j :: 0 <= j < |s'.pending| ==> s'.pending[j] == if j < |s.pending| then s.pending[j] else tx;
    forall j: nat, id | j <= |s.pending| && Grounded(s, j, id)
      ensures Grounded(s', j, id) && Grounded(s', j + 1, id)
    {
      if QueuedBefore(s, j, id) {
        var m :| 0 <= m < j && m < |s.pending| && s.pending[m].phase == Setup && s.pending[m].id == Some(id);
        assert s'.pending[m] == s.pending[m];
      }
    }
    if tx.phase == Setup {
      assert s'.pending[|s.pending|] == tx;
      assert QueuedBefore(s', |s'.pending|, tx.id.value);
    }
    hide Grounded;
    forall p | Listed(s, p) || p == tx ensures Listed(s', p) {
      EnqueueListed(s, tx, p);
    }
  }

  lemma EnqueueListed(s: State, tx: PendingTx, p: PendingTx)
    ensures Listed(Enqueue(s, tx), p) <==> Listed(s, p) || p == tx
  {
    assert Enqueue(s, tx).workers == s.workers;
  }

  lemma EnqueueCaused(s: State, tx: PendingTx)
    requires Caused(s) && CanEnqueue(s, tx)
    ensures Caused(Enqueue(s, tx))
  {
    var s' := Enqueue(s, tx);
    SameReports(s, s');
    forall p ensures Listed(s', p) <==> Listed(s, p) || p == tx {
      EnqueueListed(s, tx, p);
    }
    hide Listed, TrackingCaused, SetupCaused;
  }

  /** The causes of failures do not look at the queue. */
  lemma SameReports(s: State, s': State)
    requires TrackingCaused(s) && SetupCaused(s)
    requires s'.workers == s.workers && s'.channel == s.channel && s'.pendingFailed == s.pendingFailed
    requires s'.unauthenticated >= s.unauthenticated
    requires s'.setupFailed ==> s.setupFailed || exists p :: p in s'.unauthenticated && p.phase == Setup
    ensures TrackingCaused(s') && SetupCaused(s')
  {
    SameFates(s, s');
    hide LostTrack, NoReceipt, ReportsFailure, AnyNoReceipt, AnyLostTrack;
  }

  lemma EnqueueKeeps(cfg: Config, s: State, tx: PendingTx)
    requires Inv(cfg, s) && CanEnqueue(s, tx) && NoDuplicates(tx.Keys())
    ensures Inv(cfg, Enqueue(s, tx))
  {
    EnqueueOrdered(s, tx);
    EnqueueUnique(s, tx);
    EnqueueSupplied(s, tx);
    EnqueueCaused(s, tx);
    SameBooks(cfg, s, Enqueue(s, tx));
    SameLimits(cfg, s, Enqueue(s, tx));
    hide Ledger, Ordered, UniqueSetup, Truthful, Supplied, Caused, Staged, Limited;
  }

  /** Neither the pending limit nor what workers still hold depends on the queue. */
  lemma SameLimits(cfg: Config, s: State, s': State)
    requires Limited(cfg, s) && Staged(s)
    requires s'.workers == s.workers && s'.inFlightPending == s.inFlightPending
    ensures Limited(cfg, s') && Staged(s')
  {
    hide InclusionLast;
  }

  /** The ledger and the setup results do not look at the queue. */
  lemma SameBooks(cfg: Config, s: State, s': State)
    requires Ledger(cfg, s) && Truthful(s)
    requires s'.workers == s.workers && s'.channel == s.channel && s'.activeKeys == s.activeKeys
    requires s'.permits == s.permits && s'.completedSetup == s.completedSetup && s'.setupFailed == s.setupFailed
    requires s'.inFlightSetup == s.inFlightSetup && s'.inFlightPending == s.inFlightPending
    ensures Ledger(cfg, s') && Truthful(s')
  {
    assert forall d :: Owed(s', d) == Owed(s, d);
    hide Owed;
    assert forall id :: Receipted(s, id) ==> Receipted(s', id);
  }

  /** Remove a queue entry that failed authentication, as a recorded cancellation. */
  function Remove(s: State, i: nat): State
    requires i < |s.pending|
  {
    s.(pending := s.pending[..i] + s.pending[i + 1..], cancelled := true,
       unauthenticated := s.unauthenticated + {s.pending[i]},
       setupFailed := s.setupFailed || s.pending[i].phase == Setup)
  }

  lemma RemoveOrdered(s: State, i: nat)
    requires Ordered(s) && i < |s.pending|
    ensures Ordered(Remove(s, i))
  {
    RemoveShape(s, i);
    hide ShareKey, SoundTx, Remove;
  }

  lemma RemoveUnique(s: State, i: nat)
    requires UniqueSetup(s) && i < |s.pending|
    ensures UniqueSetup(Remove(s, i))
  {
    RemoveShape(s, i);
    hide NamedBy, Remove;
  }

  lemma RemoveShape(s: State, i: nat)
    requires i < |s.pending|
    ensures var s' := Remove(s, i);
      && |s'.pending| == |s.pending| - 1 && s'.workers == s.workers
      && s'.knownSetup == s.knownSetup && s'.nextQueueId == s.nextQueueId
      && forall j :: 0 <= j < |s'.pending| ==> s'.pending[j] == s.pending[OldIndex(i, j)]
  {
  }

  lemma RemoveKeeps(cfg: Config, s: State, i: nat)
    requires Inv(cfg, s) && i < |s.pending|
    ensures Inv(cfg, Remove(s, i))
  {
    var s' := Remove(s, i);
    RemoveOrdered(s, i);
    RemoveUnique(s, i);
    RemoveCaused(s, i);
    SameBooks(cfg, s, s'.(setupFailed := s.setupFailed));
    FailSetup(cfg, s'.(setupFailed := s.setupFailed), s.pending[i].phase == Setup);
    SameLimits(cfg, s, s');
    hide Ledger, Truthful, Ordered, UniqueSetup, Caused, Staged, Limited;
  }

  lemma RemoveCaused(s: State, i: nat)
    requires Caused(s) && Ordered(s) && i < |s.pending|
    ensures Caused(Remove(s, i))
  {
    var s' := Remove(s, i);
    assert s.pending[i] in s'.unauthenticated;
    SameReports(s, s');
    forall p ensures Listed(s', p) <==> Listed(s, p) && p != s.pending[i] {
      RemoveListed(s, i, p);
    }
    hide Listed, TrackingCaused, SetupCaused, ShareKey, SoundTx;
  }

  lemma FailSetup(cfg: Config, s: State, failed: bool)
    requires Ledger(cfg, s) && Truthful(s)
    ensures Ledger(cfg, s.(setupFailed := s.setupFailed || failed)) &&
      Truthful(s.(setupFailed := s.setupFailed || failed))
  {
    var s' := s.(setupFailed := s.setupFailed || failed);
    assert forall d :: Owed(s', d) == Owed(s, d);
    hide Owed;
    assert forall id :: Receipted(s, id) ==> Receipted(s', id);
  }

  lemma ClearOrdered(s: State)
    requires Ordered(s) && UniqueSetup(s)
    ensures Ordered(Clear(s)) && UniqueSetup(Clear(s))
  {
    hide ShareKey, SoundTx;
  }

  lemma ClearCaused(s: State)
    requires Caused(s)
    ensures Caused(Clear(s))
  {
    SameReports(s, Clear(s));
    hide TrackingCaused, SetupCaused;
    assert forall p :: Listed(Clear(s), p) ==> Listed(s, p);
  }

  lemma ClearKeeps(cfg: Config, s: State)
    requires Inv(cfg, s)
    ensures Inv(cfg, Clear(s))
  {
    SameBooks(cfg, s, Clear(s));
    SameLimits(cfg, s, Clear(s));
    ClearCaused(s);
    ClearOrdered(s);
    hide Ledger, Truthful, Caused, Ordered, UniqueSetup, Listed, Grounded, Staged, Limited;
  }

  // ------------------------------------------------------------- progress

  /** The head of the queue waits for a setup result that is not there. */
  ghost predicate HeadWaits(s: State) {
    s.pending != [] && exists d :: d in s.pending[0].dependsOn && d !in s.completedSetup
  }

  ghost predicate NothingOwed(s: State) {
    Owed(s, Message) == 0
  }

  /** The head waits for a setup result, and no other entry is ready either. */
  ghost predicate Jammed(s: State) {
    HeadWaits(s) && IsNextReady(s, None)
  }

  ghost predicate Blocks(a: PendingTx, b: PendingTx) {
    NamedBy(a, b) || ShareKey(a, b)
  }

  /** Entry `i` can never be dispatched: it needs an orphaned result, or stands behind an entry that cannot be. */
  ghost predicate Stuck(s: State, i: nat)
    requires i < |s.pending|
  {
    || (exists d :: d in s.pending[i].dependsOn && !Grounded(s, i, d))
    || (exists j :: 0 <= j < i && Stuck(s, j) && Blocks(s.pending[j], s.pending[i]))
  }

  ghost predicate AllStuck(s: State) {
    forall i :: 0 <= i < |s.pending| ==> Stuck(s, i)
  }

  /** A queued setup transaction has not completed. */
  lemma QueuedNotCompleted(s: State, j: nat)
    requires Truthful(s) && UniqueSetup(s) && j < |s.pending|
    requires s.pending[j].phase == Setup && s.pending[j].id.Some?
    ensures s.pending[j].id.value !in s.completedSetup
  {
    hide Owed;
  }

  /** A stuck entry is not ready. */
  lemma StuckWaits(cfg: Config, s: State, i: nat)
    requires Inv(cfg, s) && i < |s.pending| && Stuck(s, i)
    ensures Waits(s, i)
  {
    hide Ledger, Ordered, Supplied, Caused, Truthful, UniqueSetup, Owed;
    if j :| 0 <= j < i && Stuck(s, j) && Blocks(s.pending[j], s.pending[i]) {
      hide Stuck;
      if ShareKey(s.pending[j], s.pending[i]) {
        var k :| k in s.pending[j].Keys() && k in s.pending[i].Keys();
        assert k in s.pending[i].Keys() && k in s.pending[j].Keys();
      } else {
        QueuedNotCompleted(s, j);
        assert s.pending[j].id.value in s.pending[i].dependsOn;
      }
    }
  }

  /** What stays orphaned keeps its followers stuck. */
  lemma {:induction false} StuckStays(s: State, s': State, i: nat)
    requires i < |s.pending| && s'.pending == s.pending && Stuck(s, i)
    requires forall j: nat, d :: Grounded(s', j, d) ==> Grounded(s, j, d)
    ensures Stuck(s', i)
  {
    hide Grounded, Blocks;
    if j :| 0 <= j < i && Stuck(s, j) && Blocks(s.pending[j], s.pending[i]) {
      StuckStays(s, s', j);
    }
  }

  lemma AllStuckStays(s: State, s': State)
    requires s'.pending == s.pending && AllStuck(s)
    requires forall j: nat, d :: Grounded(s', j, d) ==> Grounded(s, j, d)
    ensures AllStuck(s')
  {
    hide Grounded, Stuck;
    forall i | 0 <= i < |s'.pending| ensures Stuck(s', i) {
      StuckStays(s, s', i);
    }
  }

  /** With nothing owed, every entry that waits is stuck. */
  lemma {:induction false} WaitingIsStuck(cfg: Config, s: State, i: nat)
    requires Ledger(cfg, s) && NothingOwed(s) && i < |s.pending|
    requires forall j :: 0 <= j <= i ==> Waits(s, j)
    requires forall j :: 0 <= j < i ==> Stuck(s, j)
    ensures Stuck(s, i)
  {
    QuietLedger(cfg, s);
    hide Owed, Ledger, Stuck;
    assert Waits(s, i);
    if j, k :| 0 <= j < i && k in s.pending[i].Keys() && k in s.pending[j].Keys() {
      assert ShareKey(s.pending[j], s.pending[i]);
      StuckBehind(s, j, i);
    } else {
      var d :| d in s.pending[i].dependsOn && d !in s.completedSetup;
      if QueuedBefore(s, i, d) {
        var j :| 0 <= j < i && j < |s.pending| && s.pending[j].phase == Setup && s.pending[j].id == Some(d);
        assert NamedBy(s.pending[j], s.pending[i]);
        StuckBehind(s, j, i);
      } else {
        StuckAlone(s, i, d);
      }
    }
  }

  lemma StuckBehind(s: State, j: nat, i: nat)
    requires j < i < |s.pending| && Stuck(s, j) && Blocks(s.pending[j], s.pending[i])
    ensures Stuck(s, i)
  {
  }

  lemma StuckAlone(s: State, i: nat, d: string)
    requires i < |s.pending| && d in s.pending[i].dependsOn && !Grounded(s, i, d)
    ensures Stuck(s, i)
  {
  }

  lemma {:induction false} JammedUpTo(cfg: Config, s: State, n: nat)
    requires Ledger(cfg, s) && NothingOwed(s) && n <= |s.pending|
    requires forall j :: 0 <= j < |s.pending| ==> Waits(s, j)
    ensures forall i :: 0 <= i < n ==> Stuck(s, i)
  {
    hide Waits, Stuck, Ledger, NothingOwed;
    if n > 0 {
      JammedUpTo(cfg, s, n - 1);
      WaitingIsStuck(cfg, s, n - 1);
    }
  }

  lemma JammedIsStuck(cfg: Config, s: State)
    requires Ledger(cfg, s) && NothingOwed(s) && Jammed(s)
    ensures AllStuck(s)
  {
    hide Waits, Stuck, Ledger, NothingOwed, HeadWaits;
    JammedUpTo(cfg, s, |s.pending|);
  }

  lemma {:induction false} QuietMessages(cs: seq<Completion>, d: Debt)
    requires Total(cs, Message) == 0
    ensures Total(cs, d) == 0
  {
  }

  lemma {:induction false} QuietWorkers(ws: seq<Worker>, d: Debt)
    requires forall i :: 0 <= i < |ws| && ws[i].permit ==> ws[i].todo != []
    requires WorkersOwe(ws, Message) == 0
    ensures WorkersOwe(ws, d) == 0
  {
    if ws != [] {
      assert ws[0].todo == [];
      QuietWorkers(ws[1..], d);
    }
  }

  /** If no completion is owed, no key, counter or permit is held. */
  lemma QuietLedger(cfg: Config, s: State)
    requires Ledger(cfg, s) && NothingOwed(s)
    ensures s.activeKeys == {} && s.inFlightSetup == 0 && s.inFlightPending == 0
    ensures s.permits == cfg.maxConcurrent
    ensures forall id :: Owed(s, SetupOf(id)) == 0
  {
    forall d ensures Owed(s, d) == 0 {
      QuietMessages(s.channel, d);
      QuietWorkers(s.workers, d);
    }
    forall k ensures k !in s.activeKeys {
      assert Owed(s, Key(k)) == 0;
    }
  }

  /**
   With nothing owed, a permit and a slot are free and the queue head can be
   dispatched, unless it waits for a setup result. A head that waits is orphaned,
   which cannot be while nothing was cancelled and no setup failed: the sender
   never blocks for a completion that nobody will send.
   */
  lemma QuietProgress(cfg: Config, s: State)
    requires cfg.Valid() && Inv(cfg, s) && NothingOwed(s) && s.pending != []
    ensures s.permits > 0 && (cfg.maxPending.Some? ==> s.inFlightPending < cfg.maxPending.value)
    ensures !HeadWaits(s) ==> IsNextReady(s, Some(0))
    ensures HeadWaits(s) ==> !AllGrounded(s)
    ensures !s.cancelled && !s.setupFailed ==> !HeadWaits(s)
  {
    QuietLedger(cfg, s);
    hide Owed, Ledger, Ordered, UniqueSetup, Truthful;
    assert forall d :: d in s.pending[0].dependsOn && d !in s.completedSetup ==> !Grounded(s, 0, d);
    assert !HeadWaits(s) ==> !Waits(s, 0);
  }

  // ------------------------------------------------------- whole stretches

  ghost predicate SameDispatches(s: State, s': State) {
    && |s.workers| <= |s'.workers|
    && (forall i :: 0 <= i < |s.workers| ==> s'.workers[i].tx == s.workers[i].tx)
  }

  /** What no call ever takes back. */
  ghost predicate Advances(s: State, s': State) {
    && SameDispatches(s, s')
    && s.accepted <= s'.accepted && s.nextQueueId <= s'.nextQueueId
    && s.knownSetup <= s'.knownSetup && s.completedSetup <= s'.completedSetup
    && s.unauthenticated <= s'.unauthenticated
    && (s.setupFailed ==> s'.setupFailed) && (s.pendingFailed ==> s'.pendingFailed)
    && (s.cancelled ==> s'.cancelled)
    && (s.Failed() ==> |s'.workers| == |s.workers|)
  }

  /**
   Any interleaving of worker steps, message handling and dispatches: it loses no
   transaction, orphans none, and shrinks the queue or the messages still owed.
   */
  ghost predicate Runs(s: State, s': State) {
    && Advances(s, s')
    && s'.accepted == s.accepted && s'.nextQueueId == s.nextQueueId
    && s'.knownSetup == s.knownSetup && s'.cancelled == s.cancelled && s'.unauthenticated == s.unauthenticated
    && (forall p :: Listed(s, p) <==> Listed(s', p))
    && (AllGrounded(s) && !s'.setupFailed ==> AllGrounded(s'))
    && (AllGrounded(s') ==> AllGrounded(s))
    && (AllStuck(s) ==> s'.pending == s.pending && AllStuck(s'))
    && (AllStuck(s') && s'.pending == s.pending && !s'.setupFailed ==> AllStuck(s))
    && |s'.pending| <= |s.pending|
    && (|s'.pending| == |s.pending| ==> s'.pending == s.pending && Owed(s', Message) <= Owed(s, Message))
    && (s.Failed() ==> s'.pending == s.pending)
  }

  lemma RunsReflexive(s: State)
    ensures Runs(s, s)
  {
  }

  lemma RunsTransitive(s: State, t: State, u: State)
    requires Runs(s, t) && Runs(t, u)
    ensures Runs(s, u)
  {
    hide Listed, AllGrounded, AllStuck, Owed;
  }

  lemma AdvancesTransitive(s: State, t: State, u: State)
    requires Advances(s, t) && Advances(t, u)
    ensures Advances(s, u)
  {
  }

  lemma RunWorkerRuns(cfg: Config, s: State, i: nat)
    requires Inv(cfg, s) && i < |s.workers| && !Idle(s.workers[i])
    ensures var s' := RunWorker(s, i);
            Inv(cfg, s') && Runs(s, s') && Owed(s', Message) == Owed(s, Message)
  {
    hide Inv, AllGrounded, Owed, Listed;
    var s' := RunWorker(s, i);
    RunWorkerKeeps(cfg, s, i);
    RunWorkerOwed(s, i, Message);
    RunWorkerStuck(s, i);
    hide AllStuck;
    forall p ensures Listed(s, p) <==> Listed(s', p) {
      SameListing(s, s', p);
    }
  }

  lemma RunWorkerStuck(s: State, i: nat)
    requires i < |s.workers| && !Idle(s.workers[i])
    ensures AllStuck(s) <==> AllStuck(RunWorker(s, i))
  {
    var s' := RunWorker(s, i);
    forall j: nat, d ensures Grounded(s, j, d) <==> Grounded(s', j, d) {
      RunWorkerGrounded(s, i, j, d);
    }
    hide Grounded, AllStuck;
    if AllStuck(s) {
      AllStuckStays(s, s');
    }
    if AllStuck(s') {
      AllStuckStays(s', s);
    }
  }

  lemma HandleStuck(s: State)
    requires CanHandle(s)
    ensures AllStuck(s) ==> AllStuck(Handle(s))
    ensures AllStuck(Handle(s)) && !Handle(s).setupFailed ==> AllStuck(s)
  {
    var s' := Handle(s);
    forall j: nat, d
      ensures Grounded(s', j, d) ==> Grounded(s, j, d)
      ensures Grounded(s, j, d) && !s'.setupFailed ==> Grounded(s', j, d)
    {
      HandleGrounded(s, j, d);
    }
    assert s'.pending == s.pending;
    hide Grounded, AllStuck, Handle;
    if AllStuck(s) {
      AllStuckStays(s, s');
    }
    if AllStuck(s') && !s'.setupFailed {
      AllStuckStays(s', s);
    }
  }

  /** A queue that is stuck throughout has no ready entry. */
  lemma DispatchUnstuck(cfg: Config, s: State, i: nat, w: Worker)
    requires Inv(cfg, s) && CanDispatch(cfg, s, i, w)
    ensures !AllStuck(s)
  {
    hide Inv, Stuck, ExitTrace, Waits;
    if AllStuck(s) {
      StuckWaits(cfg, s, i);
    }
  }

  lemma SameListing(s: State, s': State, p: PendingTx)
    requires s'.pending == s.pending && |s'.workers| == |s.workers|
    requires forall i :: 0 <= i < |s.workers| ==> s'.workers[i].tx == s.workers[i].tx
    ensures Listed(s, p) <==> Listed(s', p)
  {
    if Listed(s, p) {
      SameListed(s, s', p);
    }
    if Listed(s', p) {
      SameListed(s', s, p);
    }
  }

  lemma HandleRuns(cfg: Config, s: State)
    requires Inv(cfg, s) && s.channel != []
    ensures CanHandle(s)
    ensures Inv(cfg, Handle(s)) && Runs(s, Handle(s))
    ensures Owed(Handle(s), Message) < Owed(s, Message)
  {
    hide Inv, AllGrounded;
    HandleKeeps(cfg, s);
    HandleOwed(s, Message);
    HandleStuck(s);
    hide AllStuck;
    var s' := Handle(s);
    assert Owed(s', Message) == Owed(s.(channel := s.channel[1..]), Message);
    hide Owed;
    forall p ensures Listed(s, p) <==> Listed(s', p) {
      SameListing(s, s', p);
    }
  }

  lemma DispatchRuns(cfg: Config, s: State, i: nat, w: Worker)
    requires Inv(cfg, s) && CanDispatch(cfg, s, i, w) && !s.Failed()
    ensures var s' := Dispatch(s, i, w, cfg.maxPending.Some?);
            Inv(cfg, s') && Runs(s, s') && |s'.pending| == |s.pending| - 1
  {
    hide Inv, AllGrounded;
    DispatchKeeps(cfg, s, i, w);
    DispatchShape(s, i, w, cfg.maxPending.Some?);
    DispatchUnstuck(cfg, s, i, w);
    hide Listed, CanDispatch, AllStuck;
    forall p ensures Listed(s, p) <==> Listed(Dispatch(s, i, w, cfg.maxPending.Some?), p) {
      DispatchListed(s, i, w, cfg.maxPending.Some?, p);
    }
  }

  /** Queue ids identify transactions, and a dispatched one is no longer queued. */
  lemma UniqueById(s: State, p: PendingTx, q: PendingTx)
    requires Ordered(s) && Listed(s, p) && Listed(s, q) && p.queueId == q.queueId
    ensures p == q
    ensures p in s.pending ==> !Dispatched(s, p)
  {
    hide ShareKey, SoundTx;
  }

  /** Removing entry `i` delists it, and only it. */
  lemma RemoveListed(s: State, i: nat, p: PendingTx)
    requires Ordered(s) && i < |s.pending|
    ensures Listed(Remove(s, i), p) <==> Listed(s, p) && p != s.pending[i]
  {
    UniqueById(s, s.pending[i], s.pending[i]);
    var s' := Remove(s, i);
    assert s'.workers == s.workers;
    assert s.pending == s.pending[..i] + [s.pending[i]] + s.pending[i + 1..];
    assert p in s'.pending || p == s.pending[i] <==> p in s.pending;
    EntryOnce(s, i);
  }

  lemma EntryOnce(s: State, i: nat)
    requires Ordered(s) && i < |s.pending|
    ensures s.pending[i] !in s.pending[..i] + s.pending[i + 1..]
  {
    hide ShareKey, SoundTx;
  }

  /** One queued transaction was given up after a failed dispatch; nothing else was lost. */
  ghost predicate Drops(s: State, s': State, q: PendingTx) {
    && Advances(s, s')
    && s'.accepted == s.accepted && s'.nextQueueId == s.nextQueueId && s'.knownSetup == s.knownSetup
    && s'.cancelled && |s'.pending| < |s.pending|
    && Listed(s, q) && !Listed(s', q)
    && q !in s.unauthenticated && s'.unauthenticated == s.unauthenticated + {q}
    && (forall p :: p != q ==> (Listed(s, p) <==> Listed(s', p)))
  }

  lemma RemoveDrops(cfg: Config, s: State, t: State, i: nat)
    requires Inv(cfg, t) && Runs(s, t) && i < |t.pending|
    ensures Inv(cfg, Remove(t, i)) && Drops(s, Remove(t, i), t.pending[i])
  {
    hide Inv, AllGrounded, Owed, Listed;
    RemoveKeeps(cfg, t, i);
    EntryListed(t, i);
    RefusedUnlisted(cfg, t, t.pending[i]);
    InvOrdered(cfg, t);
    hide Ordered;
    forall p ensures Listed(Remove(t, i), p) <==> Listed(t, p) && p != t.pending[i] {
      RemoveListed(t, i, p);
    }
  }

  lemma RefusedUnlisted(cfg: Config, s: State, p: PendingTx)
    requires Inv(cfg, s) && Listed(s, p)
    ensures p !in s.unauthenticated
  {
    hide Ledger, Ordered, UniqueSetup, Truthful, Supplied, TrackingCaused, SetupCaused, Listed;
  }

  lemma InvOrdered(cfg: Config, s: State)
    requires Inv(cfg, s)
    ensures Ordered(s)
  {
  }

  lemma EntryListed(s: State, i: nat)
    requires i < |s.pending|
    ensures Listed(s, s.pending[i])
  {
  }

  /**
   Nothing more can be dispatched now: the permits are used up, or every completion was
   read and no entry is ready or the pending slots are used up.
   */
  ghost predicate Saturated(cfg: Config, s: State) {
    || s.permits == 0
    || (&& s.channel == []
        && (IsNextReady(s, None) || (cfg.maxPending.Some? && s.inFlightPending >= cfg.maxPending.value)))
  }

  /** Whatever stops the pump, a completion is owed or the queue head is orphaned. */
  lemma StoppedPump(cfg: Config, s: State)
    requires cfg.Valid() && Inv(cfg, s) && s.pending != []
    requires Saturated(cfg, s)
    ensures !NothingOwed(s) || Jammed(s)
  {
    hide Inv, Waits;
    if NothingOwed(s) {
      QuietProgress(cfg, s);
    }
  }

  /** Every completion pays back a key, a setup result or a slot. */
  lemma MessageCosts(cs: seq<Completion>) returns (d: Debt)
    requires cs != [] && SoundMessage(cs[0])
    ensures (d.Key? || d == AnySetup || d == Slot) && Total(cs, d) > 0
  {
    match cs[0] {
      case Release(keys) =>
        d := Key(keys[0]);
        OccursIff(keys, keys[0]);
      case SetupFinished(_, _) => d := AnySetup;
      case PendingFinished(_) => d := Slot;
    }
  }

  ghost predicate Settled(s: State) {
    s.activeKeys == {} && s.inFlightSetup == 0 && s.inFlightPending == 0
  }

  lemma SettledDebt(cfg: Config, s: State, d: Debt)
    requires Ledger(cfg, s) && Settled(s) && (d.Key? || d == AnySetup || d == Slot)
    ensures Owed(s, d) == 0
  {
    hide Owed;
  }

  lemma SettledWorker(cfg: Config, s: State, i: nat)
    requires Ledger(cfg, s) && Settled(s) && i < |s.workers|
    ensures Idle(s.workers[i])
  {
    var w := s.workers[i];
    if w.todo != [] {
      assert w.todo[0] in w.todo;
      var d := MessageCosts(w.todo);
      WorkerShare(s.workers, i, d);
      SettledDebt(cfg, s, d);
      assert false;
    }
  }

  lemma SettledChannel(cfg: Config, s: State)
    requires Ledger(cfg, s) && Settled(s)
    ensures s.channel == []
  {
    if s.channel != [] {
      assert s.channel[0] in s.channel;
      var d := MessageCosts(s.channel);
      SettledDebt(cfg, s, d);
      assert false;
    }
  }

  lemma {:induction false} IdleOwesNothing(ws: seq<Worker>)
    requires forall i :: 0 <= i < |ws| ==> Idle(ws[i])
    ensures WorkersOwe(ws, Message) == 0
  {
    if ws != [] {
      assert Idle(ws[0]);
      IdleOwesNothing(ws[1..]);
    }
  }

  /** Free keys and zero counters mean that every worker has finished and was heard. */
  lemma SettledOwesNothing(cfg: Config, s: State)
    requires Ledger(cfg, s) && Settled(s)
    ensures NothingOwed(s)
    ensures forall i :: 0 <= i < |s.workers| ==> Idle(s.workers[i])
  {
    SettledChannel(cfg, s);
    forall i | 0 <= i < |s.workers| ensures Idle(s.workers[i]) {
      SettledWorker(cfg, s, i);
    }
    IdleOwesNothing(s.workers);
  }

  /** Once everything is settled without a failure, every dispatched setup transaction has its receipt. */
  lemma SettledReceipts(cfg: Config, s: State)
    requires Inv(cfg, s) && Settled(s) && !s.setupFailed
    ensures forall i :: 0 <= i < |s.workers| && s.workers[i].tx.phase == Setup ==> s.workers[i].receiptOk
  {
    SettledOwesNothing(cfg, s);
    QuietLedger(cfg, s);
    hide Owed, Ledger, Ordered, Supplied;
  }

  /** A failure is recorded only if a worker failed or a setup transaction was refused. */
  lemma FailureHasCause(cfg: Config, s: State)
    requires Inv(cfg, s) && Unharmed(s)
    ensures !s.Failed()
  {
    hide Ledger, Ordered, UniqueSetup, Truthful, Supplied, AnyLostTrack, AnyNoReceipt, RefusedAreGone;
  }

  /** Once everything is settled, the recorded failures are exactly what went wrong. */
  lemma SettledIsUnharmed(cfg: Config, s: State)
    requires Inv(cfg, s) && Settled(s)
    ensures !s.Failed() <==> Unharmed(s)
  {
    if Unharmed(s) {
      FailureHasCause(cfg, s);
    }
    if !s.Failed() {
      SettledReceipts(cfg, s);
      SettledOwesNothing(cfg, s);
      SettledChannel(cfg, s);
      hide Ledger, Ordered, UniqueSetup, Truthful, Supplied;
    }
  }

  /** An error cleared the queue: nothing is waiting, and only listed transactions were dispatched. */
  ghost predicate Stops(s: State, s': State) {
    && Advances(s, s')
    && s'.accepted == s.accepted && s'.nextQueueId == s.nextQueueId && s'.knownSetup == s.knownSetup
    && s'.pending == [] && s'.cancelled
    && (forall p :: Dispatched(s', p) ==> Listed(s, p))
  }

  lemma RunsThenStops(s: State, t: State, u: State)
    requires Runs(s, t) && Stops(t, u)
    ensures Stops(s, u)
  {
    AdvancesTransitive(s, t, u);
    hide AllGrounded, Owed, Listed, Dispatched, Advances;
  }

  lemma ClearStops(s: State, t: State)
    requires Runs(s, t) || exists q :: Drops(s, t, q)
    ensures Stops(s, Clear(t))
  {
    hide AllGrounded, Owed;
    assert forall p :: Dispatched(Clear(t), p) ==> Dispatched(t, p);
    hide Dispatched;
    if !Runs(s, t) {
      var q :| Drops(s, t, q);
    }
  }

  /** A blocked sender was already orphaned when the call began. */
  lemma BlockedWasOrphaned(cfg: Config, s: State, t: State)
    requires cfg.Valid() && Inv(cfg, t) && NothingOwed(t) && Jammed(t) && !t.Failed() && Runs(s, t)
    ensures !AllGrounded(s) && s.cancelled
  {
    QuietProgress(cfg, t);
    hide Inv, AllGrounded, AllStuck, Owed, NothingOwed, HeadWaits, Listed;
  }

  /** A sender blocked behind an unchanged queue was stuck throughout when the call began. */
  lemma BlockedWasStuck(cfg: Config, s: State, t: State)
    requires Inv(cfg, t) && NothingOwed(t) && Jammed(t) && !t.Failed() && Runs(s, t) && t.pending == s.pending
    ensures AllStuck(s)
  {
    JammedIsStuck(cfg, t);
    hide Inv, AllGrounded, AllStuck, Owed, NothingOwed, Jammed, Listed;
  }

  /** A queue that is stuck throughout never moves again. */
  lemma StuckQueueStays(s: State, t: State)
    requires Runs(s, t) && AllStuck(s)
    ensures t.pending == s.pending && AllStuck(t)
  {
    hide AllGrounded, AllStuck, Owed, Listed;
  }

  /** Skipping a queue id, as a rejected call does, keeps everything. */
  lemma SkipKeeps(cfg: Config, s: State)
    requires Inv(cfg, s)
    ensures Inv(cfg, s.(nextQueueId := s.nextQueueId + 1))
  {
    var s' := s.(nextQueueId := s.nextQueueId + 1);
    SameBooks(cfg, s, s');
    SkipOrdered(s);
    SkipUnique(s);
    SkipSupplied(s);
    SkipCaused(s);
    SameLimits(cfg, s, s');
    hide Ledger, Truthful, Ordered, Supplied, UniqueSetup, Caused, Staged, Limited;
  }

  lemma SkipCaused(s: State)
    requires Caused(s)
    ensures Caused(s.(nextQueueId := s.nextQueueId + 1))
  {
    var s' := s.(nextQueueId := s.nextQueueId + 1);
    SameReports(s, s');
    assert forall p :: Listed(s', p) <==> Listed(s, p);
    hide TrackingCaused, SetupCaused, Listed;
  }

  lemma SkipUnique(s: State)
    requires UniqueSetup(s)
    ensures UniqueSetup(s.(nextQueueId := s.nextQueueId + 1))
  {
    hide NamedBy;
  }

  lemma SkipOrdered(s: State)
    requires Ordered(s)
    ensures Ordered(s.(nextQueueId := s.nextQueueId + 1))
  {
    hide ShareKey, SoundTx;
  }

  lemma SkipSupplied(s: State)
    requires Supplied(s)
    ensures Supplied(s.(nextQueueId := s.nextQueueId + 1))
  {
    var s' := s.(nextQueueId := s.nextQueueId + 1);
    assert forall d :: Owed(s', d) == Owed(s, d);
    hide Owed;
    assert forall i: nat, id :: QueuedBefore(s, i, id) <==> QueuedBefore(s', i, id);
    assert forall p :: Listed(s, p) <==> Listed(s', p);
  }

  lemma EnqueueAdvances(s: State, tx: PendingTx)
    ensures Advances(s, Enqueue(s, tx)) && Listed(Enqueue(s, tx), tx)
    ensures forall p :: Listed(Enqueue(s, tx), p) <==> Listed(s, p) || p == tx
  {
    forall p ensures Listed(Enqueue(s, tx), p) <==> Listed(s, p) || p == tx {
      EnqueueListed(s, tx, p);
    }
  }

  /** A fresh queue id names nothing that is listed. */
  lemma FreshId(cfg: Config, s: State, p: PendingTx)
    requires Inv(cfg, s) && Listed(s, p)
    ensures p.queueId < s.nextQueueId
  {
    hide ShareKey, SoundTx, Ledger, UniqueSetup, Truthful, Supplied;
  }

  // ------------------------------------------------------- what a run shows

  lemma {:induction false} TwoShares(ws: seq<Worker>, i: nat, j: nat, d: Debt)
    requires i < j < |ws|
    ensures WorkerOwes(ws[i], d) + WorkerOwes(ws[j], d) <= WorkersOwe(ws, d)
  {
    if i == 0 {
      WorkerShare(ws[1..], j - 1, d);
    } else {
      TwoShares(ws[1..], i - 1, j - 1, d);
    }
  }

  /** A key has at most one owner among the workers that have not yet released it, and is active while it has one. */
  lemma ExclusiveOwnership(cfg: Config, s: State, i: nat, j: nat, k: SchedulingKey)
    requires Ledger(cfg, s) && i < j < |s.workers|
    ensures WorkerOwes(s.workers[i], Key(k)) + WorkerOwes(s.workers[j], Key(k)) <= 1
    ensures WorkerOwes(s.workers[i], Key(k)) > 0 ==> k in s.activeKeys
  {
    TwoShares(s.workers, i, j, Key(k));
    assert Owed(s, Key(k)) <= 1;
  }

  /** Of two dispatched transactions that share a key, the one accepted first was dispatched first. */
  lemma DispatchKeepsConflictOrder(cfg: Config, s: State, i: nat, j: nat)
    requires Inv(cfg, s) && i < |s.workers| && j < |s.workers| && ShareKey(s.workers[i].tx, s.workers[j].tx)
    ensures s.workers[i].tx.queueId < s.workers[j].tx.queueId <==> i < j
  {
    if j < i {
      ShareKeySwap(s.workers[i].tx, s.workers[j].tx);
    }
    hide ShareKey, SoundTx, Ledger, UniqueSetup, Truthful, Supplied;
  }

  lemma ShareKeySwap(a: PendingTx, b: PendingTx)
    requires ShareKey(a, b)
    ensures ShareKey(b, a)
  {
    var k :| k in a.Keys() && k in b.Keys();
    assert k in b.Keys();
  }
}
