/**
 The sender as a step system: every run, under any interleaving of the workers and
 of the caller, keeps the invariants, and the one way to get stuck.
 */
module SenderRuns {
  import opened Wrappers
  import opened Scheduling
  import opened SenderState
  import opened SenderProofs

  function Initial(cfg: Config): State {
    State([], {}, [], [], {}, {}, 0, 0, false, false, cfg.maxConcurrent, 0, {}, {}, false)
  }

  datatype Step =
    | WorkerStep(worker: nat)
    | HandleStep
    | DispatchStep(index: nat, spawned: Worker)
    | AcceptStep(tx: PendingTx)
    | GiveUpStep(index: nat)   // authentication of a ready transaction fails; the call clears the queue
    | StopStep                 // a recorded failure makes a call clear the queue

  /** What the sender or a worker may do next, and the state it leads to. */
  ghost predicate Next(cfg: Config, s: State, step: Step, s': State) {
    match step
    case WorkerStep(i) => i < |s.workers| && !Idle(s.workers[i]) && s' == RunWorker(s, i)
    case HandleStep => CanHandle(s) && s' == Handle(s)
    case DispatchStep(i, w) =>
      && !s.Failed() && IsNextReady(s, Some(i)) && CanDispatch(cfg, s, i, w)
      && s' == Dispatch(s, i, w, cfg.maxPending.Some?)
    case AcceptStep(tx) =>
      |s.pending| < cfg.maxBuffered && CanEnqueue(s, tx) && NoDuplicates(tx.Keys()) && s' == Enqueue(s, tx)
    case GiveUpStep(i) =>
      && !s.Failed() && IsNextReady(s, Some(i)) && s.permits > 0
      && s' == Clear(Remove(s, i))
    case StopStep => s.Failed() && s' == Clear(s)
  }

  ghost predicate IsRun(cfg: Config, states: seq<State>, steps: seq<Step>) {
    && |states| == |steps| + 1 && states[0] == Initial(cfg)
    && forall n :: 0 <= n < |steps| ==> Next(cfg, states[n], steps[n], states[n + 1])
  }

  lemma InitialInv(cfg: Config)
    ensures Inv(cfg, Initial(cfg))
  {
  }

  lemma StepKeepsInv(cfg: Config, s: State, step: Step, s': State)
    requires Inv(cfg, s) && Next(cfg, s, step, s')
    ensures Inv(cfg, s')
  {
    hide Inv, CanDispatch, IsNextReady, CanEnqueue, NoDuplicates, Waits;
    match step {
      case WorkerStep(i) => RunWorkerKeeps(cfg, s, i);
      case HandleStep => HandleKeeps(cfg, s);
      case DispatchStep(i, w) => DispatchKeeps(cfg, s, i, w);
      case AcceptStep(tx) => EnqueueKeeps(cfg, s, tx);
      case GiveUpStep(i) => GiveUpKeeps(cfg, s, i);
      case StopStep => ClearKeeps(cfg, s);
    }
  }

  lemma GiveUpKeeps(cfg: Config, s: State, i: nat)
    requires Inv(cfg, s) && IsNextReady(s, Some(i))
    ensures Inv(cfg, Clear(Remove(s, i)))
  {
    hide Inv, Waits;
    RemoveKeeps(cfg, s, i);
    ClearKeeps(cfg, Remove(s, i));
  }

  /** Every state of every run satisfies the invariants. */
  lemma {:induction false} RunKeepsInv(cfg: Config, states: seq<State>, steps: seq<Step>, n: nat)
    requires IsRun(cfg, states, steps) && n < |states|
    ensures Inv(cfg, states[n])
  {
    hide Inv, Next;
    if n == 0 {
      InitialInv(cfg);
    } else {
      RunKeepsInv(cfg, states, steps, n - 1);
      StepKeepsInv(cfg, states[n - 1], steps[n - 1], states[n]);
    }
  }

  /**
   No deadlock: at any point of any run in which no call has cleared the queue and
   no setup transaction failed, if transactions wait then one can be dispatched or a
   completion is still owed.
   */
  lemma RunNeverStuck(cfg: Config, states: seq<State>, steps: seq<Step>, n: nat)
    requires cfg.Valid() && IsRun(cfg, states, steps) && n < |states|
    requires !states[n].cancelled && !states[n].setupFailed && states[n].pending != []
    ensures !NothingOwed(states[n]) ||
            (IsNextReady(states[n], Some(0)) && states[n].permits > 0 &&
             (cfg.maxPending.Some? ==> states[n].inFlightPending < cfg.maxPending.value))
  {
    hide Inv, Next, IsNextReady, NothingOwed;
    RunKeepsInv(cfg, states, steps, n);
    if NothingOwed(states[n]) {
      QuietProgress(cfg, states[n]);
    }
  }

  /** How many workers still hold a permit. */
  function Busy(ws: seq<Worker>): nat {
    if ws == [] then 0 else (if ws[0].permit then 1 else 0) + Busy(ws[1..])
  }

  lemma {:induction false} BusyPermits(ws: seq<Worker>)
    ensures WorkersOwe(ws, Permit) == Busy(ws)
  {
    if ws != [] {
      NoPermitInMessages(ws[0].todo);
      BusyPermits(ws[1..]);
    }
  }

  /**
   In every run at most the allowed number of transactions is being submitted, tracked
   or queued. A tracked one counts from its dispatch until its result was read.
   */
  lemma RunWithinLimits(cfg: Config, states: seq<State>, steps: seq<Step>, n: nat)
    requires IsRun(cfg, states, steps) && n < |states|
    ensures Busy(states[n].workers) <= cfg.maxConcurrent
    ensures Owed(states[n], Slot) <= if cfg.maxPending.Some? then cfg.maxPending.value else 0
    ensures |states[n].pending| <= cfg.maxBuffered
  {
    RunKeepsInv(cfg, states, steps, n);
    BusyPermits(states[n].workers);
    NoPermitInMessages(states[n].channel);
    RunKeepsBuffer(cfg, states, steps, n);
    hide IsRun, Ordered, UniqueSetup, Truthful, Supplied, Caused, Staged;
  }

  lemma {:induction false} RunKeepsBuffer(cfg: Config, states: seq<State>, steps: seq<Step>, n: nat)
    requires IsRun(cfg, states, steps) && n < |states|
    ensures |states[n].pending| <= cfg.maxBuffered
  {
    if n > 0 {
      RunKeepsBuffer(cfg, states, steps, n - 1);
      StepKeepsBuffer(cfg, states[n - 1], steps[n - 1], states[n]);
    }
  }

  lemma StepKeepsBuffer(cfg: Config, s: State, step: Step, s': State)
    requires Next(cfg, s, step, s') && |s.pending| <= cfg.maxBuffered
    ensures |s'.pending| <= cfg.maxBuffered
  {
    hide CanDispatch, CanEnqueue, Waits;
  }

  /** In every run a transaction that has not released its submission keys holds all its inclusion keys as well. */
  lemma RunHoldsInclusionKeys(cfg: Config, states: seq<State>, steps: seq<Step>, n: nat, i: nat, j: SchedulingKey,
                              k: SchedulingKey)
    requires IsRun(cfg, states, steps) && n < |states| && i < |states[n].workers|
    requires j in states[n].workers[i].tx.submissionKeys && k in states[n].workers[i].tx.inclusionKeys
    requires WorkerOwes(states[n].workers[i], Key(j)) > 0
    ensures WorkerOwes(states[n].workers[i], Key(k)) > 0 && k in states[n].activeKeys
  {
    RunKeepsInv(cfg, states, steps, n);
    hide IsRun, Ordered, UniqueSetup, Truthful, Supplied, Caused, Limited;
    WorkerShare(states[n].workers, i, Key(k));
  }

  /** Keys are owned exclusively, and conflicting transactions are dispatched in order of acceptance, in every run. */
  lemma RunExcludesAndOrders(cfg: Config, states: seq<State>, steps: seq<Step>, n: nat, i: nat, j: nat)
    requires IsRun(cfg, states, steps) && n < |states| && i < j < |states[n].workers|
    ensures forall k :: WorkerOwes(states[n].workers[i], Key(k)) > 0 ==>
              k in states[n].activeKeys && WorkerOwes(states[n].workers[j], Key(k)) == 0
    ensures ShareKey(states[n].workers[i].tx, states[n].workers[j].tx) ==>
              states[n].workers[i].tx.queueId < states[n].workers[j].tx.queueId
  {
    hide Next, WorkerOwes, Ordered, UniqueSetup, Truthful, Supplied, ShareKey;
    RunKeepsInv(cfg, states, steps, n);
    forall k | WorkerOwes(states[n].workers[i], Key(k)) > 0
      ensures k in states[n].activeKeys && WorkerOwes(states[n].workers[j], Key(k)) == 0
    {
      ExclusiveOwnership(cfg, states[n], i, j, k);
    }
    hide Inv;
    if ShareKey(states[n].workers[i].tx, states[n].workers[j].tx) {
      DispatchKeepsConflictOrder(cfg, states[n], i, j);
    }
  }

  // ------------------------------------------------------- getting stuck

  const BUSY := PendingTx(0, Workload, None, [], [1], [])
  const PREPARE := PendingTx(1, Setup, Some("a"), [], [1], [])
  const REFUSED := PendingTx(2, Workload, None, [], [2], [])
  const DEPENDENT := PendingTx(3, Setup, Some("b"), ["a"], [3], [])
  const SMALL := Config(2, None, 8)

  function StuckSteps(): seq<Step> {
    [AcceptStep(BUSY), DispatchStep(0, Worker(BUSY, false, true, true, [Release([1])])), AcceptStep(PREPARE),
     AcceptStep(REFUSED), GiveUpStep(1), WorkerStep(0), WorkerStep(0), HandleStep, AcceptStep(DEPENDENT)]
  }

  /** The states of that run, each computed from the previous one. */
  function StuckStates(): seq<State> {
    var s0 := Initial(SMALL);
    var s1 := s0.(pending := [BUSY], nextQueueId := 1, accepted := {BUSY});
    var s2 := s1.(pending := [], activeKeys := {1}, permits := 1,
                  workers := [Worker(BUSY, false, true, true, [Release([1])])]);
    var s3 := s2.(pending := [PREPARE], knownSetup := {"a"}, nextQueueId := 2, accepted := {BUSY, PREPARE});
    var s4 := s3.(pending := [PREPARE, REFUSED], nextQueueId := 3, accepted := {BUSY, PREPARE, REFUSED});
    var s5 := s4.(pending := [], unauthenticated := {REFUSED}, cancelled := true);
    var s6 := s5.(workers := [Worker(BUSY, false, true, false, [Release([1])])], permits := 2);
    var s7 := s6.(workers := [Worker(BUSY, false, true, false, [])], channel := [Release([1])]);
    var s8 := s7.(channel := [], activeKeys := {});
    var s9 := s8.(pending := [DEPENDENT], knownSetup := {"a", "b"}, nextQueueId := 4,
                  accepted := {BUSY, PREPARE, REFUSED, DEPENDENT});
    [s0, s1, s2, s3, s4, s5, s6, s7, s8, s9]
  }

  lemma BusyTrace()
    ensures ExitTrace(BUSY, false, false, true, [Release([1])])
  {
    var todo := [Release([1])];
    forall d ensures Total(todo, d) == Weight(Release([1]), d) {
      assert todo[1..] == [];
    }
    assert forall k :: Occurrences([1], k) == if k == 1 then 1 else 0;
  }

  lemma StuckDispatch()
    ensures Next(SMALL, StuckStates()[1], StuckSteps()[1], StuckStates()[2])
  {
    hide ExitTrace;
    BusyTrace();
    var s := StuckStates()[1];
    assert s.pending[..0] + s.pending[1..] == [];
    assert (set k | k in BUSY.Keys()) == {1};
  }

  lemma StuckBegins()
    ensures forall n :: 0 <= n < 4 ==> Next(SMALL, StuckStates()[n], StuckSteps()[n], StuckStates()[n + 1])
  {
    StuckDispatch();
    hide CanDispatch, IsNextReady;
    StuckAccepts();
    hide Next, StuckStates, StuckSteps;
  }

  lemma StuckAccepts()
    ensures Next(SMALL, StuckStates()[0], StuckSteps()[0], StuckStates()[1])
    ensures Next(SMALL, StuckStates()[2], StuckSteps()[2], StuckStates()[3])
    ensures Next(SMALL, StuckStates()[3], StuckSteps()[3], StuckStates()[4])
  {
    hide CanDispatch, IsNextReady;
  }

  lemma StuckGivesUp()
    ensures Next(SMALL, StuckStates()[4], StuckSteps()[4], StuckStates()[5])
  {
    var s := StuckStates()[4];
    assert Waits(s, 0) by { assert 1 in s.pending[0].Keys() && 1 in s.activeKeys; }
    assert !Waits(s, 1);
  }

  lemma StuckEnds()
    ensures forall n :: 4 <= n < 9 ==> Next(SMALL, StuckStates()[n], StuckSteps()[n], StuckStates()[n + 1])
  {
    StuckGivesUp();
    var s := StuckStates();
    hide Waits;
    assert Next(SMALL, s[5], StuckSteps()[5], s[6]);
    assert [Release([1])][1..] == [];
    assert Next(SMALL, s[6], StuckSteps()[6], s[7]);
    assert (set k | k in [1]) == {1};
    assert Next(SMALL, s[7], StuckSteps()[7], s[8]);
    assert Next(SMALL, s[8], StuckSteps()[8], s[9]);
  }

  /**
   Clearing the queue forgets the transactions but not their ids: after a workload
   transaction fails authentication, a setup transaction that depends on a dropped
   one is still accepted, and then nothing can ever be dispatched or received.
   */
  lemma CancelledRunGetsStuck()
    ensures SMALL.Valid() && IsRun(SMALL, StuckStates(), StuckSteps())
    ensures var s := StuckStates()[9];
            s.pending != [] && !s.Failed() && NothingOwed(s) && IsNextReady(s, None)
  {
    StuckBegins();
    StuckEnds();
    var s := StuckStates()[9];
    assert Waits(s, 0) by { assert "a" in s.pending[0].dependsOn && "a" !in s.completedSetup; }
    assert Total([], Message) == 0;
    assert WorkersOwe(s.workers[1..], Message) == 0;
  }
}
