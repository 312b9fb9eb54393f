/**
 The state of the bounded transaction sender as a value: its queue, the keys and
 counters it holds, the completion channel, and every worker it has spawned.

 Workers run concurrently. Each one still has to drop its permit and send some
 completions; `RunWorker` is one such action, and the sender's own operations
 happen between actions in any order.
 */
module SenderState {
  import opened Wrappers
  import opened Scheduling

  /** A queued transaction; queue ids grow in the order of acceptance. */
  datatype PendingTx = PendingTx(
    queueId: nat,
    phase: TxPhase,
    id: Option<string>,
    dependsOn: seq<string>,
    submissionKeys: seq<SchedulingKey>,
    inclusionKeys: seq<SchedulingKey>)
  {
    function Keys(): seq<SchedulingKey> { submissionKeys + inclusionKeys }
  }

  /** What a worker reports back. */
  datatype Completion =
    | Release(keys: seq<SchedulingKey>)
    | SetupFinished(id: Option<string>, success: bool)
    | PendingFinished(ok: bool)

  /**
   A dispatched transaction. `receiptOk` says whether its worker observes a
   successful receipt, and `trackOk` whether it learns how a tracked transaction
   ended; `todo` lists the completions it has yet to send.
   */
  datatype Worker = Worker(tx: PendingTx, receiptOk: bool, trackOk: bool, permit: bool, todo: seq<Completion>)

  datatype State = State(
    pending: seq<PendingTx>,
    activeKeys: set<SchedulingKey>,
    channel: seq<Completion>,
    workers: seq<Worker>,
    knownSetup: set<string>,
    completedSetup: set<string>,
    inFlightSetup: nat,
    inFlightPending: nat,
    setupFailed: bool,
    pendingFailed: bool,
    permits: nat,
    nextQueueId: nat,
    accepted: set<PendingTx>,   // everything ever queued
    unauthenticated: set<PendingTx>,   // given up because authentication failed
    cancelled: bool)      // the queue was cleared after an error
  {
    predicate Failed() { setupFailed || pendingFailed }
  }

  datatype Config = Config(maxConcurrent: nat, maxPending: Option<nat>, maxBuffered: nat)
  {
    /** What construction guarantees: no limit is zero. */
    predicate Valid() {
      maxConcurrent > 0 && maxBuffered > 0 && (maxPending.Some? ==> maxPending.value > 0)
    }
  }

  // ------------------------------------------------------------ the ledger

  /** What can be owed: a key, a named setup result, any setup result, a pending slot, a permit, a message. */
  datatype Debt = Key(key: SchedulingKey) | SetupOf(id: string) | AnySetup | Slot | Permit | Message

  function Occurrences<T(==)>(s: seq<T>, x: T): nat {
    if s == [] then 0 else (if s[0] == x then 1 else 0) + Occurrences(s[1..], x)
  }

  function Weight(c: Completion, d: Debt): nat {
    match d
    case Key(k) => if c.Release? then Occurrences(c.keys, k) else 0
    case SetupOf(id) => if c.SetupFinished? && c.id == Some(id) then 1 else 0
    case AnySetup => if c.SetupFinished? then 1 else 0
    case Slot => if c.PendingFinished? then 1 else 0
    case Permit => 0
    case Message => 1
  }

  function Total(cs: seq<Completion>, d: Debt): nat {
    if cs == [] then 0 else Weight(cs[0], d) + Total(cs[1..], d)
  }

  function WorkerOwes(w: Worker, d: Debt): nat {
    Total(w.todo, d) + if d == Permit && w.permit then 1 else 0
  }

  function WorkersOwe(ws: seq<Worker>, d: Debt): nat {
    if ws == [] then 0 else WorkerOwes(ws[0], d) + WorkersOwe(ws[1..], d)
  }

  /** Owed by running workers or already in the channel, not yet handled. */
  function Owed(s: State, d: Debt): nat {
    Total(s.channel, d) + WorkersOwe(s.workers, d)
  }

  lemma {:induction false} TotalAppend(a: seq<Completion>, b: seq<Completion>, d: Debt)
    ensures Total(a + b, d) == Total(a, d) + Total(b, d)
  {
    if a == [] {
      assert a + b == b;
    } else {
      assert (a + b)[0] == a[0] && (a + b)[1..] == a[1..] + b;
      TotalAppend(a[1..], b, d);
    }
  }

  lemma {:induction false} TotalUpdate(ws: seq<Worker>, i: nat, w: Worker, d: Debt)
    requires i < |ws|
    ensures WorkersOwe(ws[i := w], d) + WorkerOwes(ws[i], d) == WorkersOwe(ws, d) + WorkerOwes(w, d)
  {
    if i == 0 {
      assert ws[0 := w][1..] == ws[1..];
    } else {
      assert ws[i := w][1..] == ws[1..][i - 1 := w];
      TotalUpdate(ws[1..], i - 1, w, d);
    }
  }

  lemma {:induction false} TotalSpawn(ws: seq<Worker>, w: Worker, d: Debt)
    ensures WorkersOwe(ws + [w], d) == WorkersOwe(ws, d) + WorkerOwes(w, d)
  {
    if ws == [] {
      assert ws + [w] == [w];
    } else {
      assert (ws + [w])[1..] == ws[1..] + [w];
      TotalSpawn(ws[1..], w, d);
    }
  }

  /** A worker's share is part of the whole. */
  lemma {:induction false} WorkerShare(ws: seq<Worker>, i: nat, d: Debt)
    requires i < |ws|
    ensures WorkerOwes(ws[i], d) <= WorkersOwe(ws, d)
  {
    if i > 0 {
      WorkerShare(ws[1..], i - 1, d);
    }
  }

  lemma {:induction false} OccurrencesOfDistinct(s: seq<SchedulingKey>, k: SchedulingKey)
    requires NoDuplicates(s)
    ensures Occurrences(s, k) == if k in s then 1 else 0
  {
    if s != [] {
      assert s == [s[0]] + s[1..];
      OccurrencesOfDistinct(s[1..], k);
    }
  }

  lemma {:induction false} OccurrencesAppend(a: seq<SchedulingKey>, b: seq<SchedulingKey>, k: SchedulingKey)
    ensures Occurrences(a + b, k) == Occurrences(a, k) + Occurrences(b, k)
  {
    if a == [] {
      assert a + b == b;
    } else {
      assert (a + b)[0] == a[0] && (a + b)[1..] == a[1..] + b;
      OccurrencesAppend(a[1..], b, k);
    }
  }

  lemma {:induction false} OccursIff(s: seq<SchedulingKey>, k: SchedulingKey)
    ensures k in s <==> Occurrences(s, k) > 0
  {
    if s != [] {
      OccursIff(s[1..], k);
      assert s == [s[0]] + s[1..];
    }
  }

  // ----------------------------------------------------------- the actions

  predicate Idle(w: Worker) { !w.permit && w.todo == [] }

  /** Worker `i` drops its permit if it holds one, and otherwise sends its next completion. */
  function RunWorker(s: State, i: nat): State
    requires i < |s.workers| && !Idle(s.workers[i])
  {
    var w := s.workers[i];
    if w.permit then
      s.(workers := s.workers[i := w.(permit := false)], permits := s.permits + 1)
    else
      s.(workers := s.workers[i := w.(todo := w.todo[1..])], channel := s.channel + [w.todo[0]])
  }

  /** There is a completion, a setup result has an id, and its counter is not zero. */
  predicate CanHandle(s: State) {
    && s.channel != []
    && (s.channel[0].SetupFinished? ==> s.inFlightSetup > 0 && s.channel[0].id.Some?)
    && (s.channel[0].PendingFinished? ==> s.inFlightPending > 0)
  }

  /** The sender takes the oldest completion out of the channel and applies it. */
  function Handle(s: State): State
    requires CanHandle(s)
  {
    var s' := s.(channel := s.channel[1..]);
    match s.channel[0]
    case Release(keys) => s'.(activeKeys := s.activeKeys - set k | k in keys)
    case PendingFinished(ok) =>
      s'.(inFlightPending := s.inFlightPending - 1, pendingFailed := s.pendingFailed || !ok)
    case SetupFinished(id, success) =>
      if success then
        s'.(inFlightSetup := s.inFlightSetup - 1, completedSetup := s.completedSetup + {id.value})
      else
        s'.(inFlightSetup := s.inFlightSetup - 1, setupFailed := true)
  }

  /** Move queue entry `i` to a fresh worker. */
  function Dispatch(s: State, i: nat, w: Worker, tracked: bool): State
    requires i < |s.pending| && s.permits > 0
  {
    s.(pending := s.pending[..i] + s.pending[i + 1..],
       activeKeys := s.activeKeys + (set k | k in s.pending[i].Keys()),
       workers := s.workers + [w],
       inFlightSetup := s.inFlightSetup + if s.pending[i].phase == Setup then 1 else 0,
       inFlightPending := s.inFlightPending + if tracked then 1 else 0,
       permits := s.permits - 1)
  }

  /** Accept a transaction at the back of the queue. */
  function Enqueue(s: State, tx: PendingTx): State {
    s.(pending := s.pending + [tx],
       knownSetup := s.knownSetup + (if tx.phase == Setup && tx.id.Some? then {tx.id.value} else {}),
       nextQueueId := s.nextQueueId + 1,
       accepted := s.accepted + {tx})
  }

  /** Drop everything still queued, after an error. */
  function Clear(s: State): State {
    s.(pending := [], cancelled := true)
  }

  // --------------------------------------------------------- worker traces

  /** The completions of a worker of `tx` that runs to a return. */
  ghost predicate ExitTrace(tx: PendingTx, tracked: bool, receiptOk: bool, trackOk: bool, todo: seq<Completion>) {
    && todo != [] && todo[0].Release?
    && (forall k :: Total(todo, Key(k)) == if k in tx.Keys() then 1 else 0)
    && (forall c :: c in todo ==> SoundMessage(c))
    && (forall c :: c in todo && c.SetupFinished? ==> tx.phase == Setup && c == SetupFinished(tx.id, receiptOk))
    && (PendingFinished(false) in todo <==> !trackOk)
    && InclusionLast(tx, todo)
    && Total(todo, AnySetup) == (if tx.phase == Setup then 1 else 0)
    && Total(todo, Slot) == (if tracked then 1 else 0)
  }

  /** While a submission key of `tx` is still to be released, so is every inclusion key of it. */
  ghost predicate InclusionLast(tx: PendingTx, todo: seq<Completion>) {
    todo == [] ||
    (&& (forall j, k :: j in tx.submissionKeys && k in tx.inclusionKeys && Total(todo, Key(j)) > 0 ==>
           Total(todo, Key(k)) > 0)
     && InclusionLast(tx, todo[1..]))
  }

  predicate SoundMessage(c: Completion) {
    match c
    case Release(keys) => keys != []
    case SetupFinished(id, _) => id.Some?
    case PendingFinished(_) => true
  }

  // ------------------------------------------------------------- readiness

  /** Entry `i` conflicts with an active key, an earlier entry, or an unfinished dependency. */
  ghost predicate Waits(s: State, i: nat)
    requires i < |s.pending|
  {
    || (exists k :: k in s.pending[i].Keys() && k in s.activeKeys)
    || (exists j, k :: 0 <= j < i && k in s.pending[i].Keys() && k in s.pending[j].Keys())
    || (exists d :: d in s.pending[i].dependsOn && d !in s.completedSetup)
  }

  /** `r` is the least entry that does not wait. */
  ghost predicate IsNextReady(s: State, r: Option<nat>) {
    match r
    case Some(i) => i < |s.pending| && !Waits(s, i) && forall j :: 0 <= j < i ==> Waits(s, j)
    case None => forall j :: 0 <= j < |s.pending| ==> Waits(s, j)
  }

  // ------------------------------------------------------------ invariants

  /** Keys, counters and permits are exactly what unfinished workers and unread completions owe. */
  ghost predicate Ledger(cfg: Config, s: State) {
    && (forall k :: Owed(s, Key(k)) == if k in s.activeKeys then 1 else 0)
    && Owed(s, AnySetup) == s.inFlightSetup
    && Owed(s, Slot) == s.inFlightPending
    && Owed(s, Permit) + s.permits == cfg.maxConcurrent
    && (forall i :: 0 <= i < |s.workers| && s.workers[i].permit ==> s.workers[i].todo != [])
    && (forall c :: c in s.channel ==> SoundMessage(c))
    && (forall i, c :: 0 <= i < |s.workers| && c in s.workers[i].todo ==> SoundMessage(c))
  }

  predicate SoundTx(tx: PendingTx) {
    && tx.Keys() != []
    && (tx.phase == Setup ==> tx.id.Some?)
    && (tx.phase == Workload ==> tx.dependsOn == [])
  }

  ghost predicate ShareKey(a: PendingTx, b: PendingTx) {
    exists k :: k in a.Keys() && k in b.Keys()
  }

  /** Dispatch never swaps two transactions that share a key, nor repeats one. */
  ghost predicate Ordered(s: State) {
    && (forall i :: 0 <= i < |s.pending| ==> SoundTx(s.pending[i]) && s.pending[i].queueId < s.nextQueueId)
    && (forall i :: 0 <= i < |s.pending| ==> NoDuplicates(s.pending[i].Keys()))
    && (forall i :: 0 <= i < |s.workers| ==> SoundTx(s.workers[i].tx) && s.workers[i].tx.queueId < s.nextQueueId)
    && (forall i, j :: 0 <= i < j < |s.pending| ==> s.pending[i].queueId < s.pending[j].queueId)
    && (forall i, j :: 0 <= i < j < |s.workers| ==> s.workers[i].tx.queueId != s.workers[j].tx.queueId)
    && (forall i, j :: 0 <= i < |s.workers| && 0 <= j < |s.pending| ==>
          s.workers[i].tx.queueId != s.pending[j].queueId)
    && (forall i, j :: 0 <= i < j < |s.workers| && ShareKey(s.workers[i].tx, s.workers[j].tx) ==>
          s.workers[i].tx.queueId < s.workers[j].tx.queueId)
    && (forall i, j :: 0 <= i < |s.workers| && 0 <= j < |s.pending| && ShareKey(s.workers[i].tx, s.pending[j]) ==>
          s.workers[i].tx.queueId < s.pending[j].queueId)
  }

  /** `a` is a setup transaction that `b` depends on. */
  predicate NamedBy(a: PendingTx, b: PendingTx) {
    a.phase == Setup && a.id.Some? && a.id.value in b.dependsOn
  }

  /** Setup ids are never reused, and a queued dependency stands before its user. */
  ghost predicate UniqueSetup(s: State) {
    && (forall i, d :: 0 <= i < |s.pending| && d in s.pending[i].dependsOn ==> d in s.knownSetup)
    && (forall i, j :: 0 <= i < |s.pending| && 0 <= j < |s.pending| && NamedBy(s.pending[j], s.pending[i]) ==> j < i)
    && (forall i :: 0 <= i < |s.pending| && s.pending[i].phase == Setup ==>
          s.pending[i].id.Some? && s.pending[i].id.value in s.knownSetup)
    && (forall i :: 0 <= i < |s.workers| && s.workers[i].tx.phase == Setup ==>
          s.workers[i].tx.id.Some? && s.workers[i].tx.id.value in s.knownSetup)
    && (forall i, j :: 0 <= i < j < |s.workers| && s.workers[i].tx.phase == Setup && s.workers[j].tx.phase == Setup ==>
          s.workers[i].tx.id != s.workers[j].tx.id)
    && (forall i, j :: 0 <= i < j < |s.pending| && s.pending[i].phase == Setup && s.pending[j].phase == Setup ==>
          s.pending[i].id != s.pending[j].id)
    && (forall i, j :: 0 <= i < |s.workers| && 0 <= j < |s.pending| ==>
          s.workers[i].tx.phase == Setup && s.pending[j].phase == Setup ==> s.workers[i].tx.id != s.pending[j].id)
  }

  /** The worker of setup transaction `id` observed a successful receipt. */
  ghost predicate Receipted(s: State, id: string) {
    exists i :: 0 <= i < |s.workers| && ReceiptedBy(s.workers[i], id)
  }

  predicate ReceiptedBy(w: Worker, id: string) {
    w.tx.phase == Setup && w.tx.id == Some(id) && w.receiptOk
  }

  predicate SuccessOf(c: Completion, id: string) {
    c == SetupFinished(Some(id), true)
  }

  /** Setup results are truthful, and nothing is dispatched before its dependencies succeed. */
  ghost predicate Truthful(s: State) {
    && (forall id :: id in s.completedSetup ==> Receipted(s, id))
    && (forall c, id :: c in s.channel && SuccessOf(c, id) ==> Receipted(s, id))
    && (forall i, c, id :: 0 <= i < |s.workers| && c in s.workers[i].todo && SuccessOf(c, id) ==>
          ReceiptedBy(s.workers[i], id))
    && (forall i, d :: 0 <= i < |s.workers| && d in s.workers[i].tx.dependsOn ==> d in s.completedSetup)
    && (forall i :: 0 <= i < |s.workers| && s.workers[i].tx.phase == Setup && s.workers[i].tx.id.Some? ==>
          Owed(s, SetupOf(s.workers[i].tx.id.value)) > 0 || s.setupFailed || s.workers[i].receiptOk)
  }

  ghost predicate QueuedBefore(s: State, i: nat, id: string) {
    exists j :: 0 <= j < i && j < |s.pending| && s.pending[j].phase == Setup && s.pending[j].id == Some(id)
  }

  /** The result of `id` is here, on its way, or queued ahead of position `i`. */
  ghost predicate Grounded(s: State, i: nat, id: string) {
    id in s.completedSetup || Owed(s, SetupOf(id)) > 0 || QueuedBefore(s, i, id)
  }

  /** Every queued dependency succeeded, is in flight, or is queued ahead of its user. */
  ghost predicate AllGrounded(s: State) {
    forall i, d :: 0 <= i < |s.pending| && d in s.pending[i].dependsOn ==> Grounded(s, i, d)
  }

  /** While nothing was cancelled and no setup failed, every dependency can still be met. */
  ghost predicate Supplied(s: State) {
    && (!s.cancelled && !s.setupFailed ==>
          AllGrounded(s) && forall id :: id in s.knownSetup ==> Grounded(s, |s.pending|, id))
    && (forall p :: p in s.accepted ==> p.queueId < s.nextQueueId)
    && (!s.cancelled ==> forall p :: p in s.accepted ==> Listed(s, p))
  }

  /** The transaction is waiting or was dispatched. */
  ghost predicate Listed(s: State, p: PendingTx) {
    p in s.pending || Dispatched(s, p)
  }

  ghost predicate Dispatched(s: State, p: PendingTx) {
    exists i :: 0 <= i < |s.workers| && s.workers[i].tx == p
  }

  /** The worker could not learn how its tracked transaction ended. */
  predicate LostTrack(w: Worker) { !w.trackOk }

  /** The worker of a setup transaction did not see a successful receipt. */
  predicate NoReceipt(w: Worker) { w.tx.phase == Setup && !w.receiptOk }

  predicate ReportsFailure(c: Completion) { c.SetupFinished? && !c.success }

  ghost predicate AnyLostTrack(s: State) {
    exists i :: 0 <= i < |s.workers| && LostTrack(s.workers[i])
  }

  ghost predicate AnyNoReceipt(s: State) {
    exists i :: 0 <= i < |s.workers| && NoReceipt(s.workers[i])
  }

  /** Tracking is recorded as failed, or about to be, exactly when some worker lost track. */
  ghost predicate TrackingCaused(s: State) {
    && (s.pendingFailed || PendingFinished(false) in s.channel ==> AnyLostTrack(s))
    && (forall i :: 0 <= i < |s.workers| && PendingFinished(false) in s.workers[i].todo ==> LostTrack(s.workers[i]))
    && (forall i :: 0 <= i < |s.workers| && LostTrack(s.workers[i]) ==>
          s.pendingFailed || PendingFinished(false) in s.channel || PendingFinished(false) in s.workers[i].todo)
  }

  /** Setup is recorded as failed only after a missing receipt or a refused authentication. */
  ghost predicate SetupCaused(s: State) {
    && (s.setupFailed ==> AnyNoReceipt(s) || exists p :: p in s.unauthenticated && p.phase == Setup)
    && (forall c :: c in s.channel && ReportsFailure(c) ==> AnyNoReceipt(s))
    && (forall i, c :: 0 <= i < |s.workers| && c in s.workers[i].todo && ReportsFailure(c) ==> NoReceipt(s.workers[i]))
  }

  /** A transaction that failed authentication is gone for good. */
  ghost predicate RefusedAreGone(s: State) {
    forall p :: p in s.unauthenticated ==>
      p.queueId < s.nextQueueId && !Listed(s, p) && (p.phase == Setup ==> s.setupFailed)
  }

  /** No worker failed, and no setup transaction was refused. */
  ghost predicate Unharmed(s: State) {
    !AnyLostTrack(s) && !AnyNoReceipt(s) && forall p :: p in s.unauthenticated ==> p.phase != Setup
  }

  /** Every recorded failure has its cause. */
  ghost predicate Caused(s: State) {
    TrackingCaused(s) && SetupCaused(s) && RefusedAreGone(s)
  }

  /** Tracked transactions that are not yet resolved stay within the pending limit; without one, none is tracked. */
  predicate Limited(cfg: Config, s: State) {
    s.inFlightPending <= if cfg.maxPending.Some? then cfg.maxPending.value else 0
  }

  /** No worker gives up an inclusion key before its submission keys. */
  ghost predicate Staged(s: State) {
    forall i :: 0 <= i < |s.workers| ==> InclusionLast(s.workers[i].tx, s.workers[i].todo)
  }

  ghost predicate Inv(cfg: Config, s: State) {
    && Ledger(cfg, s) && Ordered(s) && UniqueSetup(s) && Truthful(s) && Supplied(s) && Caused(s)
    && Limited(cfg, s) && Staged(s)
  }
}
