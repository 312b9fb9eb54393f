/**
 The bounded transaction sender.

 Between any two of its operations the workers may run (`Interleave`), and it
 blocks only in `Recv`. Receiving when no completion is owed would block forever;
 the methods report that as `Blocked`, and their contracts say when it can happen.
 All loops terminate whatever the workers do.
 */
module SenderCore {
  import opened Wrappers
  import opened Scheduling
  import SetupOrder
  import opened SenderState
  import opened SenderProofs
  import opened Admission
  import SubmitTx

  datatype Reply = Done | Failed(error: SendError) | Blocked

  /** `pump` reports which transaction it could not prepare, if it is one. */
  datatype PumpResult = Pumped | PumpFailed(queueId: Option<nat>, cause: SendError)

  class Sender {
    const cfg: Config
    const hasLateSigner: bool
    /** Whether the authentication of this transaction succeeds, made as the given attempt. */
    const authenticates: (PendingTx, nat) -> bool

    var pending: seq<PendingTx>
    var activeKeys: set<SchedulingKey>
    var channel: seq<Completion>
    var workers: seq<Worker>
    var knownSetup: set<string>
    var completedSetup: set<string>
    var inFlightSetup: nat
    var inFlightPending: nat
    var setupFailure: bool
    var pendingFailure: bool
    var permits: nat
    var nextQueueId: nat
    var deferredError: Option<SendError>
    var attempts: seq<PendingTx>   // whose authentication was tried
    ghost var accepted: set<PendingTx>
    ghost var unauthenticated: set<PendingTx>
    ghost var cancelled: bool

    ghost function View(): State
      reads this
    {
      State(pending, activeKeys, channel, workers, knownSetup, completedSetup, inFlightSetup, inFlightPending,
            setupFailure, pendingFailure, permits, nextQueueId, accepted, unauthenticated, cancelled)
    }

    ghost predicate Valid()
      reads this
    {
      && cfg.Valid() && Inv(cfg, View()) && |pending| <= cfg.maxBuffered
      && unauthenticated == Refused(attempts, authenticates)
      && (deferredError.Some? ==> cancelled && StopsCalls(deferredError.value))
      && (deferredError.Some? ==> Recorded(pendingFailure, setupFailure, unauthenticated, deferredError.value))
    }

    constructor (config: Config, lateSigner: bool, authenticate: (PendingTx, nat) -> bool)
      requires config.Valid()
      ensures Valid() && fresh(this)
      ensures cfg == config && hasLateSigner == lateSigner && authenticates == authenticate && attempts == []
      ensures View() == State([], {}, [], [], {}, {}, 0, 0, false, false, config.maxConcurrent, 0, {}, {}, false)
    {
      cfg, hasLateSigner, authenticates := config, lateSigner, authenticate;
      pending, activeKeys, channel, workers := [], {}, [], [];
      knownSetup, completedSetup := {}, {};
      inFlightSetup, inFlightPending := 0, 0;
      setupFailure, pendingFailure := false, false;
      permits, nextQueueId := config.maxConcurrent, 0;
      deferredError, attempts := None, [];
      accepted, unauthenticated, cancelled := {}, {}, false;
    }

    // ------------------------------------------------------- the workers

    method StepWorker(i: nat)
      requires Valid() && i < |workers| && !Idle(workers[i])
      modifies `workers, `channel, `permits
      ensures View() == RunWorker(old(View()), i)
      ensures Valid() && Runs(old(View()), View())
      ensures Owed(View(), Message) == old(Owed(View(), Message)) && |workers| == old(|workers|)
    {
      hide Inv, Runs, Owed, Recorded, Refused;
      RunWorkerRuns(cfg, View(), i);
      var w := workers[i];
      if w.permit {
        workers := workers[i := w.(permit := false)];
        permits := permits + 1;
      } else {
        workers := workers[i := w.(todo := w.todo[1..])];
        channel := channel + [w.todo[0]];
      }
    }

    /** Any number of worker steps, in any order. */
    method Interleave()
      requires Valid()
      modifies `workers, `channel, `permits
      ensures Valid() && Runs(old(View()), View())
      ensures Owed(View(), Message) == old(Owed(View(), Message)) && |workers| == old(|workers|)
    {
      hide Inv, Runs, Owed, Recorded, Refused;
      RunsReflexive(View());
      var steps: nat := *;
      while steps > 0
        invariant Valid() && Runs(old(View()), View())
        invariant Owed(View(), Message) == old(Owed(View(), Message)) && |workers| == old(|workers|)
      {
        steps := steps - 1;
        var i: int := *;
        if 0 <= i < |workers| && !Idle(workers[i]) {
          ghost var before := View();
          StepWorker(i);
          RunsTransitive(old(View()), before, View());
        }
      }
    }

    predicate AllIdle()
      reads this
    {
      forall i :: 0 <= i < |workers| ==> Idle(workers[i])
    }

    /**
     Wait for a completion. Whenever one is owed, some worker eventually sends
     one, whatever the schedule; otherwise the wait never ends.
     */
    method Recv() returns (received: bool)
      requires Valid()
      modifies `workers, `channel, `permits
      ensures Valid() && Runs(old(View()), View())
      ensures Owed(View(), Message) == old(Owed(View(), Message)) && |workers| == old(|workers|)
      ensures received <==> !NothingOwed(View())
      ensures received ==> channel != []
    {
      hide Inv, Runs, Recorded, Refused;
      Interleave();
      while channel == [] && !AllIdle()
        invariant Valid() && Runs(old(View()), View())
        invariant Owed(View(), Message) == old(Owed(View(), Message)) && |workers| == old(|workers|)
        decreases WorkLeft(workers)
      {
        var i :| 0 <= i < |workers| && !Idle(workers[i]);
        ghost var before := View();
        StepWorker(i);
        RunsTransitive(old(View()), before, View());
        WorkShrinks(before.workers, i, workers[i]);
      }
      received := channel != [];
      if !received {
        IdleOwesNothing(workers);
      }
    }

    // ---------------------------------------------------- the bookkeeping

    method ReleaseKeys(keys: seq<SchedulingKey>)
      modifies `activeKeys
      ensures activeKeys == old(activeKeys) - set k | k in keys
    {
      for i := 0 to |keys|
        invariant activeKeys == old(activeKeys) - set k | k in keys[..i]
      {
        assert keys[..i + 1] == keys[..i] + [keys[i]];
        activeKeys := activeKeys - {keys[i]};
      }
      assert keys[..|keys|] == keys;
    }

    /** Apply the oldest completion. */
    method HandleCompletion()
      requires Valid() && channel != []
      modifies `channel, `activeKeys, `completedSetup, `inFlightSetup, `inFlightPending, `setupFailure, `pendingFailure
      ensures var s := old(View()); CanHandle(s) && View() == Handle(s)
      ensures Valid() && Runs(old(View()), View())
      ensures Owed(View(), Message) < old(Owed(View(), Message))
    {
      hide Inv, Runs, Owed, Recorded, Refused, Handle;
      HandleRuns(cfg, View());
      HandleFields(View());
      if deferredError.Some? {
        HandleRecorded(View(), deferredError.value);
      }
      ghost var after := Handle(View());
      var completion := channel[0];
      channel := channel[1..];
      match completion {
        case Release(keys) => ReleaseKeys(keys);
        case PendingFinished(ok) => FinishPending(ok);
        case SetupFinished(id, success) => FinishSetup(id.value, success);
      }
      assert View() == after;
    }

    method FinishPending(ok: bool)
      requires inFlightPending > 0
      modifies `inFlightPending, `pendingFailure
      ensures inFlightPending == old(inFlightPending) - 1 && pendingFailure == (old(pendingFailure) || !ok)
    {
      inFlightPending := inFlightPending - 1;
      if !ok {
        pendingFailure := true;
      }
    }

    method FinishSetup(id: string, success: bool)
      requires inFlightSetup > 0
      modifies `inFlightSetup, `completedSetup, `setupFailure
      ensures inFlightSetup == old(inFlightSetup) - 1 && setupFailure == (old(setupFailure) || !success)
      ensures completedSetup == old(completedSetup) + if success then {id} else {}
    {
      inFlightSetup := inFlightSetup - 1;
      if success {
        completedSetup := completedSetup + {id};
      } else {
        setupFailure := true;
      }
    }

    /** Apply whatever has arrived, without waiting. */
    method DrainCompletions()
      requires Valid()
      modifies this
      ensures Valid() && Runs(old(View()), View())
      ensures pending == old(pending) && deferredError == old(deferredError) && |workers| == old(|workers|)
      ensures Owed(View(), Message) <= old(Owed(View(), Message)) && channel == []
    {
      hide Inv, Runs, Owed, Recorded, Refused;
      RunsReflexive(View());
      var empty := false;
      while !empty
        invariant Valid() && Runs(old(View()), View())
        invariant pending == old(pending) && deferredError == old(deferredError) && |workers| == old(|workers|)
        invariant Owed(View(), Message) <= old(Owed(View(), Message))
        invariant empty ==> channel == []
        decreases !empty, Owed(View(), Message)
      {
        ghost var before := View();
        Interleave();
        RunsTransitive(old(View()), before, View());
        if channel == [] {
          empty := true;
        } else {
          ghost var middle := View();
          HandleCompletion();
          RunsTransitive(old(View()), middle, View());
        }
      }
    }

    /** Nobody holds or earlier wants a key of entry `i`, and its dependencies are done. */
    ghost predicate Unhindered(i: nat)
      requires i < |pending|
      reads this
    {
      && (forall k :: k in pending[i].submissionKeys || k in pending[i].inclusionKeys ==>
            && k !in activeKeys
            && forall j :: 0 <= j < i ==> k !in pending[j].submissionKeys && k !in pending[j].inclusionKeys)
      && forall d :: d in pending[i].dependsOn ==> d in completedSetup
    }

    lemma WaitsIsHindered(i: nat)
      requires i < |pending|
      ensures Waits(View(), i) <==> !Unhindered(i)
    {
      var keys := pending[i].Keys();
      assert forall k :: k in keys <==> k in pending[i].submissionKeys || k in pending[i].inclusionKeys;
      forall j | 0 <= j < i
        ensures forall k :: k in pending[j].Keys() <==> k in pending[j].submissionKeys || k in pending[j].inclusionKeys
      {
      }
      hide PendingTx.Keys;
    }

    /** The first entry with no conflict and no missing dependency. */
    method NextReadyIndex() returns (r: Option<nat>)
      ensures IsNextReady(View(), r)
      ensures r.Some? ==> r.value < |pending| && Unhindered(r.value)
      ensures forall i :: 0 <= i < (if r.Some? then r.value else |pending|) ==> !Unhindered(i)
    {
      var blockedKeys := activeKeys;
      for index := 0 to |pending|
        invariant blockedKeys == activeKeys + set j, k | 0 <= j < index && k in pending[j].Keys() :: k
        invariant forall j :: 0 <= j < index ==> Waits(View(), j) && !Unhindered(j)
      {
        var entry := pending[index];
        var isBlocked :=
          || (exists k :: k in entry.Keys() && k in blockedKeys)
          || (exists d :: d in entry.dependsOn && d !in completedSetup);
        assert isBlocked <==> Waits(View(), index);
        WaitsIsHindered(index);
        if isBlocked {
          blockedKeys := blockedKeys + set k | k in entry.Keys();
        } else {
          return Some(index);
        }
      }
      return None;
    }

    // ------------------------------------------------------- dispatching

    method ActivateKeys(tx: PendingTx)
      modifies `activeKeys
      ensures activeKeys == old(activeKeys) + set k | k in tx.Keys()
    {
      var keys := tx.Keys();
      for i := 0 to |keys|
        invariant activeKeys == old(activeKeys) + set k | k in keys[..i]
      {
        assert keys[..i + 1] == keys[..i] + [keys[i]];
        activeKeys := activeKeys + {keys[i]};
      }
      assert keys[..|keys|] == keys;
    }

    /** Take entry `index` out of the queue and hand it to `worker`. */
    method Spawn(index: nat, worker: Worker)
      requires Valid() && CanDispatch(cfg, View(), index, worker) && !View().Failed()
      requires index < |pending| && permits > 0 && worker.tx == pending[index]
      modifies this
      ensures Valid() && Runs(old(View()), View()) && !View().Failed()
      ensures |pending| == old(|pending|) - 1 && deferredError == old(deferredError)
    {
      hide Inv, Runs, CanDispatch, Recorded, Refused;
      ghost var after := Dispatch(View(), index, worker, cfg.maxPending.Some?);
      DispatchRuns(cfg, View(), index, worker);
      pending := pending[..index] + pending[index + 1..];
      ActivateKeys(worker.tx);
      if cfg.maxPending.Some? {
        inFlightPending := inFlightPending + 1;
      }
      if worker.tx.phase == Setup {
        inFlightSetup := inFlightSetup + 1;
      }
      permits := permits - 1;
      workers := workers + [worker];
      assert View() == after;
    }

    /** Dispatch entry `index` to a worker whose fate is arbitrary. */
    method DispatchTx(index: nat)
      requires Valid() && !View().Failed()
      requires index < |pending| && IsNextReady(View(), Some(index)) && permits > 0
      requires cfg.maxPending.Some? ==> inFlightPending < cfg.maxPending.value
      modifies this
      ensures Valid() && Runs(old(View()), View()) && !View().Failed()
      ensures |pending| == old(|pending|) - 1 && deferredError == old(deferredError)
    {
      QueueSound(cfg, View(), index);
      hide Inv, Runs, Waits, IsNextReady, SoundTx, ExitTrace, NoDuplicates, Recorded, Refused;
      var outcome: SubmitTx.Outcome := *;
      var todo, _, receiptOk, trackOk := SubmitTx.Work(pending[index], cfg.maxPending.Some?, outcome);
      Spawn(index, Worker(pending[index], receiptOk, trackOk, true, todo));
    }

    /** Try to authenticate entry `index`, and give it up if that fails. */
    method Authenticate(index: nat, ghost start: State) returns (ok: bool)
      requires Valid() && index < |pending| && Runs(start, View())
      modifies this
      ensures Valid() && deferredError == old(deferredError)
      ensures ok <==> authenticates(old(pending[index]), old(|attempts|))
      ensures attempts == old(attempts) + [old(pending[index])]
      ensures ok ==> View() == old(View())
      ensures !ok ==> Drops(start, View(), old(pending[index])) && Causes(start, View(), Unauthenticated)
    {
      hide Inv, Runs, Drops, Causes, Recorded, Refused;
      ok := authenticates(pending[index], |attempts|);
      if ok {
        RefusedGrows(attempts, pending[index], authenticates);
        attempts := attempts + [pending[index]];
      } else {
        DropTx(index, start);
      }
    }

    /** Give up entry `index`, which could not be authenticated. */
    method DropTx(index: nat, ghost start: State)
      requires Valid() && index < |pending| && Runs(start, View())
      requires !authenticates(pending[index], |attempts|)
      modifies `pending, `setupFailure, `attempts, `unauthenticated, `cancelled
      ensures Valid() && Drops(start, View(), old(pending[index]))
      ensures attempts == old(attempts) + [old(pending[index])]
      ensures Causes(start, View(), Unauthenticated)
    {
      hide Inv, Runs, Drops, Refused, Causes, Recorded;
      var tx := pending[index];
      RemoveDrops(cfg, start, View(), index);
      DropCauses(start, Remove(View(), index), tx);
      RefusedGrows(attempts, tx, authenticates);
      if deferredError.Some? {
        RecordedStays(View(), Remove(View(), index), deferredError.value);
      }
      attempts := attempts + [tx];
      unauthenticated := unauthenticated + {tx};
      pending := pending[..index] + pending[index + 1..];
      if tx.phase == Setup {
        setupFailure := true;
      }
      cancelled := true;
    }

    /**
     Dispatch everything that is ready, within the permits, the rate and the
     pending limit. The rate limiter may refuse any finite number of times in a
     row, and authentication may fail for any transaction.
     */
    method Pump() returns (r: PumpResult)
      requires Valid()
      modifies this
      ensures Valid() && deferredError == old(deferredError)
      ensures r.Pumped? ==> Runs(old(View()), View()) && !View().Failed() && Saturated(cfg, View())
      ensures r.Pumped? && pending != [] ==> !NothingOwed(View()) || Jammed(View())
      ensures r.PumpFailed? ==> Causes(old(View()), View(), r.cause)
      ensures r.PumpFailed? && r.queueId.None? ==>
        && Runs(old(View()), View()) && View().Failed()
        && r.cause == if pendingFailure then TrackingFailed else SetupCancelled
      ensures r.PumpFailed? && r.queueId.Some? ==>
        && (exists q: PendingTx :: q.queueId == r.queueId.value && Drops(old(View()), View(), q))
        && r.cause == Unauthenticated
    {
      hide Inv, Runs, NothingOwed, Jammed, IsNextReady, Causes, Recorded, Refused, Drops, Saturated, Owed;
      RunsReflexive(View());
      var refusals: nat := *;
      while true
        invariant Valid() && deferredError == old(deferredError)
        invariant Runs(old(View()), View())
        decreases |pending|, refusals
      {
        ghost var before := View();
        DrainCompletions();
        RunsTransitive(old(View()), before, View());
        FlagCauses(old(View()), View());
        if pendingFailure {
          return PumpFailed(None, TrackingFailed);
        }
        if setupFailure {
          return PumpFailed(None, SetupCancelled);
        }
        if cfg.maxPending.Some? && inFlightPending >= cfg.maxPending.value {
          StopHere();
          return Pumped;
        }
        var next := NextReadyIndex();
        if next.None? {
          StopHere();
          return Pumped;
        }
        before := View();
        Interleave();
        RunsTransitive(old(View()), before, View());
        SameReadiness(before, View(), next);
        if permits == 0 {
          StopHere();
          return Pumped;
        }
        if refusals > 0 {
          refusals := refusals - 1;
          continue;
        }
        var queueId := pending[next.value].queueId;
        var authenticated := Authenticate(next.value, old(View()));
        if !authenticated {
          return PumpFailed(Some(queueId), Unauthenticated);
        }
        before := View();
        DispatchTx(next.value);
        RunsTransitive(old(View()), before, View());
        refusals := *;
      }
    }

    lemma StopHere()
      requires Valid()
      requires permits == 0 ||
               (channel == [] &&
                (IsNextReady(View(), None) || (cfg.maxPending.Some? && inFlightPending >= cfg.maxPending.value)))
      ensures Saturated(cfg, View())
      ensures pending != [] ==> !NothingOwed(View()) || Jammed(View())
    {
      if pending != [] {
        StoppedPump(cfg, View());
      }
    }

    /** Drop the queue after an error. */
    method ClearQueue()
      requires Valid()
      modifies `pending, `cancelled
      ensures Valid() && View() == Clear(old(View()))
    {
      hide Inv, Recorded, Refused;
      ClearKeeps(cfg, View());
      pending := [];
      cancelled := true;
    }

    // --------------------------------------------------- the public calls

    /**
     Make room for one more transaction, waiting for completions if need be. Unless
     there is an error, this waits forever exactly when the queue is full of entries
     that can never be dispatched.
     */
    method WaitForBufferCapacity() returns (r: Reply)
      requires Valid()
      modifies this
      ensures Valid() && deferredError == old(deferredError)
      ensures r.Done? ==> Runs(old(View()), View()) && |pending| < cfg.maxBuffered
      ensures !r.Failed? ==> (r.Blocked? <==> old(|pending| == cfg.maxBuffered && AllStuck(View())))
      ensures r.Failed? ==> Stops(old(View()), View()) && Causes(old(View()), View(), r.error)
      ensures r.Blocked? ==> Runs(old(View()), View()) && NothingOwed(View()) && Jammed(View()) && !View().Failed()
    {
      hide Inv, Runs, NothingOwed, Jammed, Drops, Stops, Causes, Recorded, Refused, Owed, Advances, Handle,
        CanHandle, AllStuck;
      RunsReflexive(View());
      while |pending| >= cfg.maxBuffered
        invariant Valid() && deferredError == old(deferredError)
        invariant Runs(old(View()), View())
        decreases |pending|, Owed(View(), Message)
      {
        ghost var before := View();
        var pumped := Pump();
        if pumped.PumpFailed? {
          ClearStops(before, View());
          StopCauses(old(View()), before, View(), pumped.cause);
          ClearQueue();
          RunsThenStops(old(View()), before, View());
          return Failed(pumped.cause);
        }
        RunsTransitive(old(View()), before, View());
        RunsShrink(before, View());
        if |pending| < cfg.maxBuffered {
          break;
        }
        ghost var middle := View();
        var received := Recv();
        RunsTransitive(old(View()), middle, View());
        RunsShrink(middle, View());
        if !received {
          SameHead(middle, View());
          SameQueue(old(View()), View());
          BlockedWasStuck(cfg, old(View()), View());
          return Blocked;
        }
        middle := View();
        HandleCompletion();
        RunsTransitive(old(View()), middle, View());
        RunsShrink(middle, View());
      }
      RoomMade(old(View()), View());
      return Done;
    }

    /** Queue a prepared transaction. */
    method Accept(ptx: PendingTx)
      requires Valid() && CanEnqueue(View(), ptx) && NoDuplicates(ptx.Keys()) && |pending| < cfg.maxBuffered
      modifies this
      ensures Valid() && View() == Enqueue(old(View()), ptx) && deferredError == old(deferredError)
    {
      hide Inv, NoDuplicates, Recorded, Refused;
      EnqueueKeeps(cfg, View(), ptx);
      assert knownSetup + {} == knownSetup;
      if ptx.phase == Setup {
        knownSetup := knownSetup + {ptx.id.value};
      }
      nextQueueId := nextQueueId + 1;
      pending := pending + [ptx];
      accepted := accepted + {ptx};
    }

    /** Use up one queue id without queueing anything. */
    method SkipId()
      requires Valid()
      modifies this
      ensures Valid() && View() == old(View()).(nextQueueId := old(nextQueueId) + 1)
      ensures deferredError == old(deferredError)
    {
      hide Inv, Recorded, Refused;
      SkipKeeps(cfg, View());
      nextQueueId := nextQueueId + 1;
    }

    /**
     Pump after accepting `ptx`, and decide who hears about a failure. Afterwards
     `ptx` is queued or dispatched, exactly one of them, when the answer is `Done`,
     and neither when it is an error.
     */
    method PumpFor(ptx: PendingTx) returns (r: Reply)
      requires Valid() && ptx in pending && deferredError.None?
      modifies this
      ensures Valid() && Advances(old(View()), View())
      ensures accepted == old(accepted) && nextQueueId == old(nextQueueId) && knownSetup == old(knownSetup)
      ensures !r.Blocked?
      ensures r.Done? ==> ((ptx in pending) <==> !Dispatched(View(), ptx))
      ensures r.Done? && deferredError.None? ==> Runs(old(View()), View()) && Saturated(cfg, View())
      ensures r.Failed? ==> !Listed(View(), ptx) && Stops(old(View()), View()) && deferredError.None?
      ensures r.Failed? ==> Causes(old(View()), View(), r.error)
      ensures deferredError.Some? ==> r.Done? && Stops(old(View()), View()) && Dispatched(View(), ptx)
      ensures deferredError.Some? ==> Causes(old(View()), View(), deferredError.value)
    {
      hide Inv, Runs, NothingOwed, Jammed, Drops, Stops, Advances, Dispatched, Causes, Recorded, Refused;
      hide Saturated;
      ghost var start := View();
      var pumped := Pump();
      if pumped.Pumped? {
        StillListed(cfg, start, View(), ptx);
        return Done;
      }
      ghost var stopped := View();
      var currentIsPending := exists i :: 0 <= i < |pending| && pending[i].queueId == ptx.queueId;
      FailedPump(cfg, start, stopped, ptx, pumped.queueId);
      ClearStops(start, stopped);
      StopsFacts(start, Clear(stopped));
      ClearCauses(start, stopped, pumped.cause);
      CausesRecorded(start, Clear(stopped), pumped.cause);
      ClearQueue();
      assert Dispatched(View(), ptx) <==> Dispatched(stopped, ptx) by { SameWorkers(View(), stopped, ptx); }
      if pumped.queueId == Some(ptx.queueId) || currentIsPending {
        return Failed(pumped.cause);
      }
      deferredError := Some(pumped.cause);
      return Done;
    }

    /** Queue a prepared transaction and pump for it. */
    method Enlist(ptx: PendingTx) returns (r: Reply)
      requires Valid() && deferredError.None? && CanEnqueue(View(), ptx) && NoDuplicates(ptx.Keys())
      requires |pending| < cfg.maxBuffered
      modifies this
      ensures Valid() && Advances(old(View()), View()) && !r.Blocked?
      ensures r.Done? ==> Took(old(View()), View(), ptx)
      ensures r.Done? && deferredError.None? ==> cancelled == old(cancelled)
      ensures r.Done? && deferredError.Some? ==> Dispatched(View(), ptx) && pending == []
      ensures r.Done? && deferredError.Some? ==> Causes(old(View()), View(), deferredError.value)
      ensures r.Failed? ==> deferredError.None? && pending == [] && cancelled
      ensures r.Failed? ==> Causes(old(View()), View(), r.error)
      ensures r.Failed? ==> forall p: PendingTx :: p.queueId >= old(nextQueueId) ==> !Listed(View(), p)
      ensures r.Done? && deferredError.None? ==> forall p :: Listed(View(), p) <==> old(Listed(View(), p)) || p == ptx
      ensures r.Done? && deferredError.None? ==> Saturated(cfg, View())
    {
      hide Saturated;
      hide Inv, Runs, Stops, Advances, Listed, Dispatched, CanEnqueue, NoDuplicates, Took, Causes, Recorded, Refused;
      ghost var start := View();
      NextIsFree(cfg, start, ptx);
      Accept(ptx);
      ghost var acceptedState := View();
      EnqueueAdvances(start, ptx);
      assert forall p :: Listed(acceptedState, p) <==> Listed(start, p) || p == ptx;
      r := PumpFor(ptx);
      AdvancesTransitive(start, acceptedState, View());
      if r.Failed? {
        CausesExtend(start, acceptedState, View(), r.error);
        StopsFacts(acceptedState, View());
        NothingListed(View(), start, ptx, ptx.queueId);
      } else {
        if deferredError.Some? {
          CausesExtend(start, acceptedState, View(), deferredError.value);
          StopsFacts(acceptedState, View());
        } else {
          RunsFacts(acceptedState, View());
        }
        TookIt(start, acceptedState, View(), ptx);
      }
    }

    /**
     Accept one transaction. `Done` means it was queued under a fresh queue id and
     is now waiting or dispatched, exactly one of them; any other reply means it
     never was dispatched and is not waiting. A failure met after this
     transaction reached the wire is deferred to the next call. An error either
     explains what is wrong with the transaction or has a recorded cause.
     */
    method Send(tx: GeneratedTx) returns (r: Reply)
      requires Valid()
      modifies this
      ensures Valid() && Advances(old(View()), View())
      ensures r.Done? ==> old(deferredError).None? && Admissible(tx, old(knownSetup), hasLateSigner)
      ensures r.Done? ==> exists p :: Carries(p, tx) && Took(old(View()), View(), p) &&
                                      (deferredError.Some? ==> Dispatched(View(), p) && pending == [])
      ensures r.Done? && deferredError.None? ==> cancelled == old(cancelled) && Saturated(cfg, View())
      ensures !r.Done? ==> deferredError.None?
      ensures !r.Done? ==> forall p: PendingTx :: p.queueId >= old(nextQueueId) ==> !Listed(View(), p)
      ensures old(deferredError).Some? ==> r == Failed(old(deferredError).value)
      ensures r.Failed? && StopsCalls(r.error) ==> pending == [] && cancelled
      ensures r.Failed? && StopsCalls(r.error) && old(deferredError).None? ==> Causes(old(View()), View(), r.error)
      ensures r.Done? && deferredError.Some? ==> Causes(old(View()), View(), deferredError.value)
      ensures r.Failed? && old(deferredError).None? && Unharmed(View()) && unauthenticated == old(unauthenticated) ==>
        Explains(r.error, tx, old(knownSetup), hasLateSigner)
      ensures r.Failed? && !StopsCalls(r.error) ==>
        Explains(r.error, tx, old(knownSetup), hasLateSigner) && accepted == old(accepted)
      ensures deferredError.None? && !(r.Failed? && StopsCalls(r.error)) ==>
        forall p :: old(Listed(View(), p)) ==> Listed(View(), p)
      ensures r.Blocked? ==> !old(AllGrounded(View())) && old(cancelled) && old(deferredError).None?
      ensures !(r.Failed? && StopsCalls(r.error)) ==>
        (r.Blocked? <==> old(|pending| == cfg.maxBuffered && AllStuck(View())))
    {
      hide Inv, Runs, Stops, Advances, NothingOwed, Jammed, Listed, Dispatched, AllGrounded, CanEnqueue, Carries,
        NoDuplicates, AllStuck, Saturated;
      hide Admissible, Explains, Took, Causes, Recorded, Refused, Unharmed;
      ghost var start := View();
      RunsReflexive(start);
      if deferredError.Some? {
        var error := deferredError.value;
        deferredError := None;
        ClearStops(start, View());
        ClearQueue();
        StopsFacts(start, View());
        UnlistedIds(cfg, View(), nextQueueId);
        return Failed(error);
      }
      var waited := WaitForBufferCapacity();
      if !waited.Done? {
        if waited.Failed? {
          CausesRecorded(start, View(), waited.error);
          Blameless(cfg, start, View(), waited.error);
          StopsFacts(start, View());
        } else {
          RunsFacts(start, View());
          BlockedWasOrphaned(cfg, start, View());
        }
        UnlistedIds(cfg, View(), nextQueueId);
        return waited;
      }
      RunsFacts(start, View());
      ghost var waitedState := View();
      var prepared := Prepare(tx, nextQueueId, knownSetup, hasLateSigner);
      UnlistedIds(cfg, View(), nextQueueId);
      if prepared.Err? {
        ExplainedRejection(prepared.error, tx, knownSetup, hasLateSigner);
        SkipId();
        SkipAdvances(waitedState);
        AdvancesTransitive(start, waitedState, View());
        return Failed(prepared.error);
      }
      AdmittedCanEnqueue(View(), prepared.value, tx, hasLateSigner);
      r := Enlist(prepared.value);
      AdvancesTransitive(start, waitedState, View());
      if r.Failed? {
        CausesExtend(start, waitedState, View(), r.error);
        Blameless(cfg, start, View(), r.error);
      } else {
        if deferredError.Some? {
          CausesExtend(start, waitedState, View(), deferredError.value);
        }
        TookLater(start, waitedState, View(), prepared.value);
      }
    }

    /**
     Submit a whole setup batch in dependency order. A batch that is not orderable,
     or that repeats a known id, changes nothing; otherwise no transaction is ever
     refused for its id or for a dependency that is not queued yet.
     */
    method SendSetup(txs: seq<GeneratedTx>) returns (r: Reply)
      requires Valid()
      modifies this
      ensures Valid() && Advances(old(View()), View())
      ensures r.Failed? && r.error.InvalidBatch? <==> !Orderable(txs)
      ensures r.Failed? && r.error.DuplicateSetup? <==>
        Orderable(txs) && exists i :: 0 <= i < |txs| && txs[i].id.Some? && txs[i].id.value in old(knownSetup)
      ensures r.Failed? && (r.error.InvalidBatch? || r.error.DuplicateSetup?) ==> View() == old(View())
      ensures r.Failed? ==> !r.error.UnqueuedDependency? && !r.error.MissingSetupId? && !r.error.WorkloadDependency?
      ensures r.Failed? && StopsCalls(r.error) ==>
        old(deferredError) == Some(r.error) || Causes(old(View()), View(), r.error)
      ensures r.Failed? && old(deferredError).None? && Unharmed(View()) && unauthenticated == old(unauthenticated) ==>
        r.error.InvalidBatch? || r.error.DuplicateSetup? || r.error == MissingSigner || r.error == MissingKeys
      ensures r.Done? ==> forall i :: 0 <= i < |txs| ==> TookTx(old(View()), View(), txs[i])
      ensures r.Blocked? ==> old(cancelled)
    {
      hide Inv, Advances, TookTx, Causes, Unharmed, Recorded, Refused;
      hide SetupOrder.ValidIds, SetupOrder.KnownDependencies, SetupOrder.HasCycle, SetupOrder.Declared,
        SetupOrder.Respects;
      StartAdvances(View());
      var ordered := SetupOrder.SetupSubmissionOrder(txs);
      assert ordered.Ok? <==> Orderable(txs);
      hide Orderable, SetupOrder.IsPermutation;
      if ordered.Err? {
        return Failed(InvalidBatch(ordered.error));
      }
      var repeated := FindKnown(txs);
      if repeated.Some? {
        return Failed(DuplicateSetup(repeated.value));
      }
      r := SendAll(txs, ordered.value);
      if r.Failed? && StopsCalls(r.error) && old(deferredError).None? {
        Blameless(cfg, old(View()), View(), r.error);
      }
    }

    /** The first id of the batch that was already queued. */
    method FindKnown(txs: seq<GeneratedTx>) returns (r: Option<string>)
      ensures r.Some? <==> exists i :: 0 <= i < |txs| && txs[i].id.Some? && txs[i].id.value in knownSetup
      ensures r.Some? ==> r.value in knownSetup
    {
      for i := 0 to |txs|
        invariant forall h :: 0 <= h < i ==> !(txs[h].id.Some? && txs[h].id.value in knownSetup)
      {
        if txs[i].id.Some? && txs[i].id.value in knownSetup {
          return Some(txs[i].id.value);
        }
      }
      return None;
    }

    /** Send an ordered batch of fresh setup transactions. */
    method SendAll(txs: seq<GeneratedTx>, order: seq<nat>) returns (r: Reply)
      requires Valid() && Orderable(txs) && SetupOrder.IsPermutation(order, |txs|)
      requires SetupOrder.Respects(SetupOrder.Declared(txs), order)
      requires forall i :: 0 <= i < |txs| ==> !(txs[i].id.Some? && txs[i].id.value in knownSetup)
      modifies this
      ensures Valid() && Advances(old(View()), View())
      ensures r.Failed? ==> StopsCalls(r.error) || r.error == MissingSigner || r.error == MissingKeys
      ensures r.Failed? && StopsCalls(r.error) ==>
        old(deferredError) == Some(r.error) || Causes(old(View()), View(), r.error)
      ensures r.Done? ==> forall i :: 0 <= i < |txs| ==> TookTx(old(View()), View(), txs[i])
      ensures r.Blocked? ==> old(cancelled)
    {
      hide Inv, Advances, AllGrounded, TookTx, Took, Carries, Admissible, Orderable, BatchSent, Explains;
      hide SetupOrder.Declared, SetupOrder.Respects, Causes, Unharmed, Recorded, Refused;
      ghost var start := View();
      StartAdvances(start);
      BatchIds(txs);
      StartBatch(txs, order, start);
      for n := 0 to |order|
        invariant Valid() && Advances(start, View())
        invariant BatchSent(txs, order, n, start, View())
        invariant deferredError.None? ==> cancelled == start.cancelled || n == 0
        invariant n == 0 ==> View() == start && deferredError == old(deferredError)
        invariant n > 0 && deferredError.Some? ==> Causes(start, View(), deferredError.value)
      {
        ghost var before := View();
        ghost var deferred := deferredError;
        r := Send(txs[order[n]]);
        if r.Done? && deferredError.Some? {
          CausesExtend(start, before, View(), deferredError.value);
        } else if r.Failed? && StopsCalls(r.error) {
          if deferred.None? {
            CausesExtend(start, before, View(), r.error);
          } else if n > 0 {
            CausesStay(start, before, View(), r.error);
          }
        }
        AdvancesTransitive(start, before, View());
        if !r.Done? {
          if r.Failed? && !StopsCalls(r.error) {
            BatchRejection(txs, order, n, start, before, r.error, hasLateSigner);
          }
          return;
        }
        BatchStep(txs, order, n, start, before, View());
      }
      EndBatch(txs, order, start, View());
      r := Done;
    }

    /**
     Wait until everything accepted is finished. `Done` means that every listed
     transaction was dispatched, all keys, slots and counters are free, every
     worker has returned and every setup transaction has a successful receipt.
     The answer is `Done` exactly when nothing was deferred, every queued dependency
     was grounded at the call, nobody was refused during it, and nothing any worker
     met, before or during it, went wrong. Every error has its recorded cause.
     */
    method Flush() returns (r: Reply)
      requires Valid()
      modifies this
      ensures Valid() && Advances(old(View()), View()) && deferredError.None?
      ensures accepted == old(accepted)
      ensures r.Done? ==> Finished(View()) && cancelled == old(cancelled)
      ensures r.Done? ==> forall p :: old(Listed(View(), p)) <==> Dispatched(View(), p)
      ensures r.Done? && !cancelled ==> forall p :: p in accepted ==> Dispatched(View(), p)
      ensures r.Done? ==> old(AllGrounded(View())) && old(deferredError).None?
      ensures r.Done? <==> old(deferredError).None? && old(AllGrounded(View())) && Unharmed(View()) &&
                           unauthenticated == old(unauthenticated)
      ensures r.Failed? ==> StopsCalls(r.error) && pending == [] && cancelled
      ensures r.Failed? ==>
        if old(deferredError).Some? then old(deferredError) == Some(r.error) else Causes(old(View()), View(), r.error)
      ensures r.Blocked? ==> !old(AllGrounded(View())) && old(cancelled) && old(deferredError).None?
    {
      hide Inv, Runs, Stops, Advances, NothingOwed, Jammed, Listed, Dispatched, AllGrounded, Drops, Owed, Finished;
      hide Flushing, Causes, Unharmed, Recorded, Refused;
      ghost var start := View();
      StartFlush(start);
      var firstError := deferredError;
      deferredError := None;
      if firstError.Some? {
        ClearStops(start, View());
        ClearQueue();
      } else {
        firstError := PumpOrClear();
      }
      assert Flushing(start, View(), firstError) by { BeginFlushing(start, View(), firstError); }
      while pending != [] || activeKeys != {} || inFlightSetup > 0 || inFlightPending > 0
        invariant Valid() && deferredError.None?
        invariant Flushing(start, View(), firstError)
        invariant old(deferredError).Some? ==> firstError == old(deferredError)
        invariant old(deferredError).None? && firstError.Some? ==> Causes(start, View(), firstError.value)
        decreases |pending|, Owed(View(), Message)
      {
        ghost var before := View();
        var received, error := FlushStep(start, firstError);
        if !received {
          RunsFacts(start, View());
          return Blocked;
        }
        if firstError.Some? && old(deferredError).None? {
          CausesStay(start, before, View(), firstError.value);
        }
        firstError := error;
      }
      JoinWorkers();
      EndFlushing(start, View(), firstError);
      if firstError.Some? {
        if old(deferredError).None? {
          Blameless(cfg, start, View(), firstError.value);
        }
        StopsFacts(start, View());
        return Failed(firstError.value);
      }
      RunsFacts(start, View());
      SettledIsUnharmed(cfg, View());
      FlushedAll(cfg, start, View());
      return Done;
    }

    /** Wait for one completion, apply it, and pump unless an error was already met. */
    method FlushStep(ghost start: State, firstError: Option<SendError>)
      returns (received: bool, error: Option<SendError>)
      requires Valid() && deferredError.None? && Flushing(start, View(), firstError)
      requires pending != [] || activeKeys != {} || inFlightSetup > 0 || inFlightPending > 0
      modifies this
      ensures Valid() && deferredError.None?
      ensures firstError.Some? ==> error == firstError && Advances(old(View()), View())
      ensures received && firstError.None? && error.Some? ==> Causes(start, View(), error.value)
      ensures received ==> Flushing(start, View(), error)
      ensures received ==> |pending| < old(|pending|) || Owed(View(), Message) < old(Owed(View(), Message))
      ensures received ==> |pending| <= old(|pending|)
      ensures !received ==> firstError.None? && Runs(start, View()) && !AllGrounded(start) && start.cancelled
    {
      hide Inv, Runs, Stops, NothingOwed, Jammed, AllGrounded, Owed, Causes, Recorded, Refused, Advances;
      error := firstError;
      ghost var before := View();
      received := Recv();
      RunsShrink(before, View());
      RunsFacts(before, View());
      if !received {
        StuckFlush(cfg, start, before, View(), firstError.None?);
        return;
      }
      ghost var middle := View();
      HandleCompletion();
      RunsTransitive(before, middle, View());
      RunsShrink(middle, View());
      RunsFacts(before, View());
      if firstError.None? {
        RunsTransitive(start, before, View());
        middle := View();
        error := PumpOrClear();
        if error.None? {
          RunsTransitive(start, middle, View());
        } else {
          RunsFacts(start, middle);
          CausesExtend(start, middle, View(), error.value);
          RunsThenStops(start, middle, View());
          StopsFacts(start, View());
        }
      } else {
        StopsThenRuns(start, before, View());
        StopsFacts(start, View());
      }
    }

    /** Pump, and drop the queue if that fails. */
    method PumpOrClear() returns (error: Option<SendError>)
      requires Valid() && deferredError.None?
      modifies this
      ensures Valid() && deferredError.None?
      ensures error.None? ==> Runs(old(View()), View()) && !View().Failed()
      ensures error.None? && pending != [] ==> !NothingOwed(View()) || Jammed(View())
      ensures error.Some? ==> Stops(old(View()), View()) && StopsCalls(error.value)
      ensures error.Some? ==> Causes(old(View()), View(), error.value)
      ensures |pending| < old(|pending|) || Owed(View(), Message) <= old(Owed(View(), Message))
      ensures |pending| <= old(|pending|)
    {
      hide Inv, Runs, Stops, Drops, NothingOwed, Jammed, Owed, Causes, Recorded, Refused;
      ghost var start := View();
      var pumped := Pump();
      if pumped.Pumped? {
        RunsShrink(start, View());
        return None;
      }
      PumpShrinks(start, View());
      ClearStops(start, View());
      ghost var stopped := View();
      ClearCauses(start, stopped, pumped.cause);
      CausesRecorded(start, stopped, pumped.cause);
      ClearQueue();
      ClearOwes(stopped);
      return Some(pumped.cause);
    }

    /** Wait for every worker task; with everything settled they have all returned. */
    method JoinWorkers()
      requires Valid() && Settled(View())
      ensures forall i :: 0 <= i < |workers| ==> Idle(workers[i])
    {
      SettledOwesNothing(cfg, View());
      for i := 0 to |workers|
        invariant forall j :: 0 <= j < i ==> Idle(workers[j])
      {
        assert Idle(workers[i]);
      }
    }
  }

  /** The transactions whose authentication was tried and failed. */
  function Refused(attempts: seq<PendingTx>, authenticates: (PendingTx, nat) -> bool): set<PendingTx> {
    set n: nat | n < |attempts| && !authenticates(attempts[n], n) :: attempts[n]
  }

  lemma RefusedGrows(attempts: seq<PendingTx>, tx: PendingTx, authenticates: (PendingTx, nat) -> bool)
    ensures Refused(attempts + [tx], authenticates) ==
            Refused(attempts, authenticates) + if authenticates(tx, |attempts|) then {} else {tx}
  {
    var more := attempts + [tx];
    assert forall n: nat :: n < |attempts| ==> more[n] == attempts[n];
    assert more[|attempts|] == tx;
  }

  /** The cause of the error is on record. */
  predicate Recorded(pendingFailed: bool, setupFailed: bool, unauthenticated: set<PendingTx>, e: SendError) {
    match e
    case TrackingFailed => pendingFailed
    case SetupCancelled => setupFailed
    case Unauthenticated => unauthenticated != {}
    case _ => false
  }

  /** Between the two states the cause of the error was recorded: its flag is set, or somebody was refused. */
  ghost predicate Causes(s: State, s': State, e: SendError) {
    match e
    case TrackingFailed => s'.pendingFailed
    case SetupCancelled => s'.setupFailed
    case Unauthenticated => exists p :: p in s'.unauthenticated && p !in s.unauthenticated
    case _ => false
  }

  /** A cause stays one when the stretch begins earlier. */
  lemma CausesExtend(s: State, t: State, u: State, e: SendError)
    requires Advances(s, t) && Causes(t, u, e)
    ensures Causes(s, u, e) && StopsCalls(e)
  {
  }

  lemma FlagCauses(s: State, t: State)
    ensures t.pendingFailed ==> Causes(s, t, TrackingFailed)
    ensures t.setupFailed ==> Causes(s, t, SetupCancelled)
  {
  }

  lemma DropCauses(s: State, t: State, p: PendingTx)
    requires Drops(s, t, p)
    ensures Causes(s, t, Unauthenticated)
  {
    hide Listed, Advances;
  }

  lemma HandleRecorded(s: State, e: SendError)
    requires CanHandle(s) && Recorded(s.pendingFailed, s.setupFailed, s.unauthenticated, e)
    ensures var t := Handle(s); Recorded(t.pendingFailed, t.setupFailed, t.unauthenticated, e)
  {
  }

  /** What is on record stays there. */
  lemma RecordedStays(s: State, t: State, e: SendError)
    requires Recorded(s.pendingFailed, s.setupFailed, s.unauthenticated, e)
    requires s.setupFailed ==> t.setupFailed
    requires s.pendingFailed ==> t.pendingFailed
    requires s.unauthenticated <= t.unauthenticated
    ensures Recorded(t.pendingFailed, t.setupFailed, t.unauthenticated, e)
  {
  }

  lemma CausesRecorded(s: State, t: State, e: SendError)
    requires Causes(s, t, e)
    ensures StopsCalls(e) && Recorded(t.pendingFailed, t.setupFailed, t.unauthenticated, e)
  {
  }

  /** Clearing the queue keeps the cause. */
  lemma ClearCauses(s: State, t: State, e: SendError)
    requires Causes(s, t, e)
    ensures Causes(s, Clear(t), e)
  {
  }

  lemma CausesStay(s: State, t: State, u: State, e: SendError)
    requires Causes(s, t, e) && Advances(t, u)
    ensures Causes(s, u, e)
  {
  }

  lemma StopCauses(s: State, t: State, u: State, e: SendError)
    requires Runs(s, t) && Causes(t, u, e)
    ensures Causes(s, Clear(u), e)
  {
    hide AllGrounded, Listed, Owed;
  }

  /** Without a worker's failure or a new refusal there is nothing to blame. */
  lemma Blameless(cfg: Config, s: State, t: State, e: SendError)
    requires Inv(cfg, t) && Causes(s, t, e)
    ensures !Unharmed(t) || t.unauthenticated != s.unauthenticated
  {
    hide Inv, Unharmed;
    if Unharmed(t) {
      FailureHasCause(cfg, t);
    }
  }

  ghost predicate Orderable(txs: seq<GeneratedTx>) {
    && SetupOrder.ValidIds(txs, |txs|) && SetupOrder.KnownDependencies(txs, |txs|)
    && !SetupOrder.HasCycle(SetupOrder.Declared(txs))
  }

  /** `tx` was accepted somewhere between the two states. */
  ghost predicate TookTx(s: State, s': State, tx: GeneratedTx) {
    exists p :: Carries(p, tx) && p in s'.accepted && p !in s.accepted
  }

  /** The first `n` transactions of the order were accepted, and their ids are the only new ones. */
  ghost predicate BatchSent(txs: seq<GeneratedTx>, order: seq<nat>, n: nat, s: State, s': State)
    requires n <= |order| && forall k :: 0 <= k < |order| ==> order[k] < |txs|
  {
    && s.accepted <= s'.accepted
    && (forall k :: 0 <= k < n ==> TookTx(s, s', txs[order[k]]))
    && (forall id :: id in s'.knownSetup <==>
          id in s.knownSetup || exists k :: 0 <= k < n && txs[order[k]].id == Some(id))
  }

  lemma StartAdvances(s: State)
    ensures Advances(s, s)
  {
  }

  lemma StartBatch(txs: seq<GeneratedTx>, order: seq<nat>, s: State)
    requires forall k :: 0 <= k < |order| ==> order[k] < |txs|
    ensures BatchSent(txs, order, 0, s, s)
  {
  }

  lemma CarriesId(p: PendingTx, tx: GeneratedTx)
    requires Carries(p, tx)
    ensures p.phase == tx.phase && p.id == tx.id
  {
  }

  lemma BatchStep(txs: seq<GeneratedTx>, order: seq<nat>, n: nat, s: State, t: State, u: State)
    requires forall k :: 0 <= k < |order| ==> order[k] < |txs|
    requires n < |order| && BatchSent(txs, order, n, s, t)
    requires txs[order[n]].phase == Setup && txs[order[n]].id.Some?
    requires exists p :: Carries(p, txs[order[n]]) && Took(t, u, p)
    ensures BatchSent(txs, order, n + 1, s, u)
  {
    hide Carries;
    var p :| Carries(p, txs[order[n]]) && Took(t, u, p);
    CarriesId(p, txs[order[n]]);
    forall k | 0 <= k < n + 1 ensures TookTx(s, u, txs[order[k]]) {
      if k < n {
        var q :| Carries(q, txs[order[k]]) && q in t.accepted && q !in s.accepted;
        assert q in u.accepted;
      } else {
        assert p in u.accepted && p !in s.accepted;
      }
    }
    forall id ensures id in u.knownSetup <==>
      id in s.knownSetup || exists k :: 0 <= k < n + 1 && txs[order[k]].id == Some(id)
    {
      assert txs[order[n]].id == Some(id) <==> id == p.id.value;
    }
  }

  /** In dependency order, ids are fresh and dependencies are already known. */
  lemma BatchRejection(txs: seq<GeneratedTx>, order: seq<nat>, n: nat, s: State, t: State, e: SendError,
                       hasLateSigner: bool)
    requires Orderable(txs) && SetupOrder.IsPermutation(order, |txs|)
    requires SetupOrder.Respects(SetupOrder.Declared(txs), order)
    requires forall i :: 0 <= i < |txs| ==> !(txs[i].id.Some? && txs[i].id.value in s.knownSetup)
    requires n < |order| && BatchSent(txs, order, n, s, t)
    requires Explains(e, txs[order[n]], t.knownSetup, hasLateSigner)
    ensures e == MissingSigner || e == MissingKeys
  {
    BatchIds(txs);
    assert forall k :: 0 <= k < n ==> order[k] != order[n];
    assert txs[order[n]].id.value !in t.knownSetup;
    forall d | d in txs[order[n]].dependsOn ensures d in t.knownSetup {
      BatchDependency(txs, order, n, d);
    }
    hide Orderable, BatchSent, SetupOrder.IsPermutation, SetupOrder.Respects;
  }

  lemma BatchIds(txs: seq<GeneratedTx>)
    requires Orderable(txs)
    ensures forall i :: 0 <= i < |txs| ==> txs[i].phase == Setup && txs[i].id.Some? && txs[i].id.value != ""
    ensures forall i, j :: 0 <= i < |txs| && 0 <= j < |txs| && i != j ==> txs[i].id != txs[j].id
  {
    forall i | 0 <= i < |txs| ensures txs[i].phase == Setup && txs[i].id.Some? && txs[i].id.value != "" {
      assert SetupOrder.ValidTx(txs, i);
    }
    forall i, j | 0 <= i < |txs| && 0 <= j < |txs| && i != j ensures txs[i].id != txs[j].id {
      assert SetupOrder.ValidTx(txs, i) && SetupOrder.ValidTx(txs, j);
    }
  }

  /** A dependency of the `n`th transaction of the order is sent before it. */
  lemma BatchDependency(txs: seq<GeneratedTx>, order: seq<nat>, n: nat, d: string)
    requires Orderable(txs) && SetupOrder.IsPermutation(order, |txs|)
    requires SetupOrder.Respects(SetupOrder.Declared(txs), order)
    requires n < |order| && d in txs[order[n]].dependsOn
    ensures exists k :: 0 <= k < n && txs[order[k]].id == Some(d)
  {
    assert SetupOrder.Known(txs, d);
    var i :| SetupOrder.Names(txs, i, d);
    SetupOrder.PermutationCovers(order, |txs|);
    assert i in order;
    var k :| 0 <= k < |order| && order[k] == i;
    assert order[k] in SetupOrder.Declared(txs)[order[n]];
  }

  lemma EndBatch(txs: seq<GeneratedTx>, order: seq<nat>, s: State, t: State)
    requires SetupOrder.IsPermutation(order, |txs|) && BatchSent(txs, order, |order|, s, t)
    ensures forall i :: 0 <= i < |txs| ==> TookTx(s, t, txs[i])
  {
    hide TookTx;
    SetupOrder.PermutationCovers(order, |txs|);
    forall i | 0 <= i < |txs| ensures TookTx(s, t, txs[i]) {
      assert i in order;
    }
  }

  /** Where a flush stands: still running without an error, or stopped with the first one. */
  ghost predicate Flushing(start: State, s: State, firstError: Option<SendError>) {
    && (firstError.Some? ==> Stops(start, s) && StopsCalls(firstError.value) && s.pending == [])
    && (firstError.None? ==> Runs(start, s) && !s.Failed())
    && (firstError.None? && s.pending != [] ==> !NothingOwed(s) || Jammed(s))
  }

  lemma StartFlush(s: State)
    ensures Runs(s, s)
  {
  }

  lemma BeginFlushing(start: State, s: State, firstError: Option<SendError>)
    requires firstError.Some? ==> Stops(start, s) && StopsCalls(firstError.value)
    requires firstError.None? ==> Runs(start, s) && !s.Failed()
    requires firstError.None? && s.pending != [] ==> !NothingOwed(s) || Jammed(s)
    ensures Flushing(start, s, firstError)
  {
    if firstError.Some? {
      StopsFacts(start, s);
    }
  }

  lemma EndFlushing(start: State, s: State, firstError: Option<SendError>)
    requires Flushing(start, s, firstError)
    ensures firstError.Some? ==> Stops(start, s) && StopsCalls(firstError.value)
    ensures firstError.None? ==> Runs(start, s) && !s.Failed()
  {
  }

  /** Nothing waits, nothing is held, every worker returned and every setup receipt is a success. */
  ghost predicate Finished(s: State) {
    && s.pending == [] && Settled(s) && !s.Failed()
    && (forall i :: 0 <= i < |s.workers| ==> Idle(s.workers[i]))
    && (forall i :: 0 <= i < |s.workers| && s.workers[i].tx.phase == Setup ==> s.workers[i].receiptOk)
  }

  lemma FlushedAll(cfg: Config, s: State, t: State)
    requires Inv(cfg, t) && Runs(s, t) && t.pending == [] && Settled(t) && !t.Failed()
    ensures Finished(t) && AllGrounded(s)
    ensures t.accepted == s.accepted && t.cancelled == s.cancelled
    ensures forall p :: Listed(s, p) <==> Dispatched(t, p)
    ensures !t.cancelled ==> forall p :: p in t.accepted ==> Dispatched(t, p)
    ensures Advances(s, t)
  {
    SettledOwesNothing(cfg, t);
    SettledReceipts(cfg, t);
    hide Owed, Ledger, Ordered, UniqueSetup, Truthful, Dispatched, Advances, Grounded;
  }

  /** Waiting with nothing owed means that the queue head is an orphan. */
  lemma StuckFlush(cfg: Config, s: State, t: State, u: State, running: bool)
    requires cfg.Valid() && Inv(cfg, u) && NothingOwed(u) && Runs(t, u) && Owed(u, Message) == Owed(t, Message)
    requires u.pending == t.pending && u.completedSetup == t.completedSetup && (u.Failed() <==> t.Failed())
    requires u.activeKeys == t.activeKeys && u.inFlightSetup == t.inFlightSetup &&
      u.inFlightPending == t.inFlightPending
    requires t.pending != [] || t.activeKeys != {} || t.inFlightSetup > 0 || t.inFlightPending > 0
    requires !running ==> t.pending == []
    requires running ==> Runs(s, t) && !t.Failed()
    requires running && t.pending != [] ==> !NothingOwed(t) || Jammed(t)
    ensures running && Runs(s, u)
    ensures !AllGrounded(s) && s.cancelled
  {
    QuietLedger(cfg, u);
    hide Owed, AllGrounded, Inv, Listed;
    SameHead(t, u);
    RunsTransitive(s, t, u);
    BlockedWasOrphaned(cfg, s, u);
  }

  lemma StopsThenRuns(s: State, t: State, u: State)
    requires Stops(s, t) && Runs(t, u)
    ensures Stops(s, u)
  {
    hide AllGrounded, Owed;
    forall p | Dispatched(u, p) ensures Listed(s, p) {
      assert Listed(t, p);
    }
    hide Dispatched, Listed;
  }

  lemma ClearOwes(s: State)
    ensures Owed(Clear(s), Message) == Owed(s, Message)
  {
  }

  lemma PumpShrinks(s: State, s': State)
    requires Runs(s, s') || exists q :: Drops(s, s', q)
    ensures |s'.pending| < |s.pending| || Owed(s', Message) <= Owed(s, Message)
  {
    hide Owed, AllGrounded, Listed;
  }

  /** `p` was accepted under the next queue id and is now in exactly one place. */
  ghost predicate Took(s: State, s': State, p: PendingTx) {
    && p.queueId == s.nextQueueId && p !in s.accepted && s'.accepted == s.accepted + {p}
    && s'.knownSetup == s.knownSetup + (if p.phase == Setup && p.id.Some? then {p.id.value} else {})
    && (p in s'.pending <==> !Dispatched(s', p))
  }

  lemma TookIt(s: State, t: State, u: State, p: PendingTx)
    requires p.queueId == s.nextQueueId && p !in s.accepted && t == Enqueue(s, p)
    requires u.accepted == t.accepted && u.knownSetup == t.knownSetup
    requires p in u.pending <==> !Dispatched(u, p)
    ensures Took(s, u, p)
  {
  }

  lemma TookLater(s: State, t: State, u: State, p: PendingTx)
    requires t.accepted == s.accepted && t.nextQueueId == s.nextQueueId && t.knownSetup == s.knownSetup
    requires Took(t, u, p)
    ensures Took(s, u, p)
  {
  }

  /** The next queue id names nothing yet. */
  lemma NextIsFree(cfg: Config, s: State, p: PendingTx)
    requires Inv(cfg, s) && CanEnqueue(s, p)
    ensures p.queueId == s.nextQueueId && p !in s.accepted
    ensures forall q: PendingTx :: q.queueId >= s.nextQueueId ==> !Listed(s, q)
  {
    UnlistedIds(cfg, s, s.nextQueueId);
    FreshAccepted(cfg, s, p);
  }

  lemma ExplainedRejection(e: SendError, tx: GeneratedTx, known: set<string>, hasLateSigner: bool)
    requires Explains(e, tx, known, hasLateSigner)
    ensures !StopsCalls(e)
  {
  }

  lemma AdmittedCanEnqueue(s: State, p: PendingTx, tx: GeneratedTx, hasLateSigner: bool)
    requires Admissible(tx, s.knownSetup, hasLateSigner) && Carries(p, tx) && SoundTx(p) && p.queueId == s.nextQueueId
    ensures CanEnqueue(s, p)
  {
  }

  lemma RunsFacts(s: State, s': State)
    requires Runs(s, s')
    ensures Advances(s, s')
    ensures s'.accepted == s.accepted && s'.nextQueueId == s.nextQueueId
    ensures s'.knownSetup == s.knownSetup && s'.cancelled == s.cancelled && s'.unauthenticated == s.unauthenticated
    ensures forall p :: Listed(s', p) <==> Listed(s, p)
    ensures AllGrounded(s) && !s'.setupFailed ==> AllGrounded(s')
    ensures AllGrounded(s') ==> AllGrounded(s)
  {
    hide Owed, AllGrounded, Listed, Advances;
  }

  lemma StopsFacts(s: State, s': State)
    requires Stops(s, s')
    ensures Advances(s, s')
    ensures s'.accepted == s.accepted && s'.nextQueueId == s.nextQueueId && s'.knownSetup == s.knownSetup
    ensures s'.pending == [] && s'.cancelled
    ensures forall p :: Dispatched(s', p) ==> Listed(s, p)
  {
    hide Listed, Advances, Dispatched;
  }

  /** No transaction is listed under an unused queue id. */
  lemma UnlistedIds(cfg: Config, s: State, n: nat)
    requires Inv(cfg, s) && s.nextQueueId <= n
    ensures forall p: PendingTx :: p.queueId >= n ==> !Listed(s, p)
  {
    hide Inv, Listed;
    forall p: PendingTx | Listed(s, p) ensures p.queueId < n {
      FreshId(cfg, s, p);
    }
  }

  lemma SkipAdvances(s: State)
    ensures Advances(s, s.(nextQueueId := s.nextQueueId + 1))
    ensures forall p :: Listed(s.(nextQueueId := s.nextQueueId + 1), p) <==> Listed(s, p)
  {
  }

  lemma FreshAccepted(cfg: Config, s: State, p: PendingTx)
    requires Inv(cfg, s) && p.queueId >= s.nextQueueId
    ensures p !in s.accepted
  {
    hide Ledger, Ordered, UniqueSetup, Truthful, AllGrounded, Grounded;
  }

  /** After an error cleared the queue, the rejected transaction is nowhere. */
  lemma NothingListed(s: State, before: State, tx: PendingTx, n: nat)
    requires s.pending == [] && !Listed(s, tx)
    requires forall p: PendingTx :: p.queueId >= n ==> !Listed(before, p)
    requires forall p :: Dispatched(s, p) ==> Listed(before, p) || p == tx
    ensures forall p: PendingTx :: p.queueId >= n ==> !Listed(s, p)
  {
    hide Dispatched;
  }

  lemma SameWorkers(s: State, s': State, p: PendingTx)
    requires s.workers == s'.workers
    ensures Dispatched(s, p) <==> Dispatched(s', p)
  {
  }

  /** An uneventful pump leaves the transaction in exactly one place. */
  lemma StillListed(cfg: Config, s: State, s': State, p: PendingTx)
    requires Inv(cfg, s') && p in s.pending && Runs(s, s')
    ensures Advances(s, s') && s'.accepted == s.accepted && s'.nextQueueId == s.nextQueueId &&
      s'.knownSetup == s.knownSetup
    ensures p in s'.pending <==> !Dispatched(s', p)
  {
    hide Owed, AllGrounded, Advances, Dispatched;
    assert Listed(s, p) && Listed(s', p);
    InvOrdered(cfg, s');
    hide Inv, Ordered;
    UniqueById(s', p, p);
  }

  /** After a failed pump, `p` was given up or still waits exactly when the reply must be an error. */
  lemma FailedPump(cfg: Config, s: State, s': State, p: PendingTx, queueId: Option<nat>)
    requires Inv(cfg, s) && Inv(cfg, s') && p in s.pending
    requires queueId.None? ==> Runs(s, s')
    requires queueId.Some? ==> exists q: PendingTx :: q.queueId == queueId.value && Drops(s, s', q)
    ensures (queueId == Some(p.queueId) || exists i :: 0 <= i < |s'.pending| && s'.pending[i].queueId == p.queueId)
            <==> !Dispatched(s', p)
    ensures !Dispatched(s', p) ==> !Listed(Clear(s'), p)
  {
    hide Inv, Runs, Drops, Dispatched;
    PumpListing(cfg, s, s', p, queueId);
    PumpEntries(cfg, s, s', p, queueId);
    SameWorkers(s', Clear(s'), p);
  }

  lemma PumpEntries(cfg: Config, s: State, s': State, p: PendingTx, queueId: Option<nat>)
    requires Inv(cfg, s) && Inv(cfg, s') && p in s.pending
    requires queueId.None? ==> Runs(s, s')
    requires queueId.Some? ==> exists q: PendingTx :: q.queueId == queueId.value && Drops(s, s', q)
    ensures forall i :: 0 <= i < |s'.pending| && s'.pending[i].queueId == p.queueId ==>
              s'.pending[i] == p && !Dispatched(s', p)
  {
    hide Inv, Runs, Drops, Dispatched;
    forall i | 0 <= i < |s'.pending| && s'.pending[i].queueId == p.queueId
      ensures s'.pending[i] == p && !Dispatched(s', p)
    {
      EntryStays(cfg, s, s', p, queueId, i);
    }
  }

  /** A failed pump loses exactly the transaction it names. */
  lemma PumpListing(cfg: Config, s: State, s': State, p: PendingTx, queueId: Option<nat>)
    requires Inv(cfg, s) && p in s.pending
    requires queueId.None? ==> Runs(s, s')
    requires queueId.Some? ==> exists q: PendingTx :: q.queueId == queueId.value && Drops(s, s', q)
    ensures Listed(s', p) <==> queueId != Some(p.queueId)
  {
    InvOrdered(cfg, s);
    hide Owed, AllGrounded, Advances, Inv, Ordered, Dispatched;
    assert Listed(s, p);
    if queueId.Some? {
      var q: PendingTx :| q.queueId == queueId.value && Drops(s, s', q);
      if q.queueId == p.queueId {
        UniqueById(s, q, p);
      }
    }
  }

  lemma EntryStays(cfg: Config, s: State, s': State, p: PendingTx, queueId: Option<nat>, i: nat)
    requires Inv(cfg, s) && Inv(cfg, s') && p in s.pending
    requires queueId.None? ==> Runs(s, s')
    requires queueId.Some? ==> exists q: PendingTx :: q.queueId == queueId.value && Drops(s, s', q)
    requires i < |s'.pending| && s'.pending[i].queueId == p.queueId
    ensures s'.pending[i] == p && !Dispatched(s', p)
  {
    hide Drops, Runs;
    InvOrdered(cfg, s);
    InvOrdered(cfg, s');
    hide Inv, Ordered;
    assert Listed(s, p);
    EntryListed(s', i);
    StillKnown(s, s', s'.pending[i], queueId);
    UniqueById(s, s'.pending[i], p);
    UniqueById(s', p, p);
  }

  lemma StillKnown(s: State, s': State, e: PendingTx, queueId: Option<nat>)
    requires queueId.None? ==> Runs(s, s')
    requires queueId.Some? ==> exists q: PendingTx :: q.queueId == queueId.value && Drops(s, s', q)
    requires Listed(s', e)
    ensures Listed(s, e)
  {
    hide Owed, AllGrounded, Advances, Listed;
  }

  /** A stretch of running shrinks the queue, or keeps it and does not add messages. */
  lemma RunsShrink(s: State, s': State)
    requires Runs(s, s')
    ensures |s'.pending| <= |s.pending|
    ensures |s'.pending| == |s.pending| ==> Owed(s', Message) <= Owed(s, Message)
  {
    hide Owed, AllGrounded, Listed;
  }

  /** Whether the head waits, and whether anything is owed, survives the workers' steps. */
  lemma SameHead(s: State, s': State)
    requires !NothingOwed(s) || Jammed(s)
    requires NothingOwed(s') && Owed(s', Message) == Owed(s, Message)
    requires s'.pending == s.pending && s'.completedSetup == s.completedSetup && s'.activeKeys == s.activeKeys
    ensures Jammed(s')
  {
    hide Owed;
    forall i | 0 <= i < |s.pending| ensures Waits(s, i) <==> Waits(s', i) {
    }
    hide Waits;
  }

  /** A queue that is no shorter than before is the same queue. */
  lemma SameQueue(s: State, s': State)
    requires Runs(s, s') && |s.pending| <= |s'.pending|
    ensures s'.pending == s.pending
  {
    hide Owed, AllGrounded, AllStuck, Listed;
  }

  lemma RoomMade(s: State, s': State)
    requires Runs(s, s')
    ensures |s'.pending| < |s.pending| ==> !AllStuck(s)
  {
    hide Owed, AllGrounded, AllStuck, Listed;
  }

  lemma QueueSound(cfg: Config, s: State, i: nat)
    requires Inv(cfg, s) && i < |s.pending|
    ensures SoundTx(s.pending[i]) && NoDuplicates(s.pending[i].Keys())
  {
  }

  /** Workers do not change which entry is ready. */
  lemma SameReadiness(s: State, s': State, r: Option<nat>)
    requires IsNextReady(s, r) && r.Some?
    requires s'.pending == s.pending && s'.activeKeys == s.activeKeys && s'.completedSetup == s.completedSetup
    ensures r.value < |s'.pending| && IsNextReady(s', r)
  {
    forall i | 0 <= i < |s.pending| ensures Waits(s, i) <==> Waits(s', i) {
    }
    hide Waits;
  }

  /** Steps the workers can still take. */
  function WorkLeft(ws: seq<Worker>): nat {
    if ws == [] then 0 else |ws[0].todo| + (if ws[0].permit then 1 else 0) + WorkLeft(ws[1..])
  }

  lemma {:induction false} WorkShrinks(ws: seq<Worker>, i: nat, w: Worker)
    requires i < |ws|
    requires |w.todo| + (if w.permit then 1 else 0) < |ws[i].todo| + if ws[i].permit then 1 else 0
    ensures WorkLeft(ws[i := w]) < WorkLeft(ws)
  {
    if i == 0 {
      assert ws[0 := w][1..] == ws[1..];
    } else {
      assert ws[i := w][1..] == ws[1..][i - 1 := w];
      WorkShrinks(ws[1..], i - 1, w);
    }
  }
}
