/**
 The lock-protected half of the RPC submitter's ordering: a queue of tickets and the
 set of keys held by those already granted. Every method is one critical section.
 */
module RpcOrdering {
  import opened Wrappers
  import opened Scheduling

  datatype Entry = Entry(id: nat, submissionKeys: seq<SchedulingKey>, inclusionKeys: seq<SchedulingKey>)
  {
    function Keys(): seq<SchedulingKey> { submissionKeys + inclusionKeys }
  }

  datatype OrderState = OrderState(nextId: nat, pending: seq<Entry>, activeKeys: set<SchedulingKey>)

  /** Entry `i` conflicts with an active key or with an earlier entry. */
  ghost predicate Waits(s: OrderState, i: nat)
    requires i < |s.pending|
  {
    || (exists k :: k in s.pending[i].Keys() && k in s.activeKeys)
    || (exists j, k :: 0 <= j < i && k in s.pending[i].Keys() && k in s.pending[j].Keys())
  }

  ghost predicate IsFirstReady(s: OrderState, i: nat) {
    i < |s.pending| && !Waits(s, i) && forall j :: 0 <= j < i ==> Waits(s, j)
  }

  /** `id` is at the head of the ready tickets: the only one `TryAcquire` grants. */
  ghost predicate Grants(s: OrderState, id: nat) {
    exists i: nat :: IsFirstReady(s, i) && s.pending[i].id == id
  }

  function RemoveAt(pending: seq<Entry>, i: nat): seq<Entry>
    requires i < |pending|
  {
    pending[..i] + pending[i + 1..]
  }

  /** Entry `i` leaves the queue and its keys become active. */
  function Granted(s: OrderState, i: nat): OrderState
    requires i < |s.pending|
  {
    s.(pending := RemoveAt(s.pending, i), activeKeys := s.activeKeys + (set k | k in s.pending[i].Keys()))
  }

  lemma FirstReadyUnique(s: OrderState, i: nat)
    requires IsFirstReady(s, i)
    ensures forall j: nat :: IsFirstReady(s, j) ==> j == i
  {
  }

  /** The queue without ticket `id`. */
  function Cancelled(pending: seq<Entry>, id: nat): seq<Entry> {
    if pending == [] then []
    else if pending[0].id == id then pending[1..]
    else [pending[0]] + Cancelled(pending[1..], id)
  }

  lemma CancelledAt(pending: seq<Entry>, index: nat, id: nat)
    requires index < |pending|
    ensures Cancelled(pending[index..], id) ==
            if pending[index].id == id then pending[index + 1..]
            else [pending[index]] + Cancelled(pending[index + 1..], id)
  {
    assert pending[index..][1..] == pending[index + 1..];
  }

  lemma CancelledNowhere(id: nat)
    ensures Cancelled([], id) == []
  {
  }

  class Ordering {
    var nextId: nat
    var pending: seq<Entry>
    var activeKeys: set<SchedulingKey>

    ghost function View(): OrderState
      reads this
    {
      OrderState(nextId, pending, activeKeys)
    }

    constructor ()
      ensures View() == OrderState(0, [], {})
    {
      nextId, pending, activeKeys := 0, [], {};
    }

    /** Queue a ticket behind all others; tickets without keys are refused. */
    method Enqueue(submissionKeys: seq<SchedulingKey>, inclusionKeys: seq<SchedulingKey>)
      returns (r: Result<Entry, KeyError>)
      modifies this
      ensures r.Err? <==> submissionKeys == [] && inclusionKeys == []
      ensures r.Err? ==> View() == old(View())
      ensures r.Ok? ==>
        && View() == old(View()).(nextId := old(nextId) + 1, pending := old(pending) + [r.value])
        && r.value.id == old(nextId) && Normalized(r.value.submissionKeys, r.value.inclusionKeys)
        && (forall k :: k in r.value.Keys() <==> k in submissionKeys || k in inclusionKeys)
        && r.value.inclusionKeys == FirstSeen(inclusionKeys)
    {
      var keys := NormalizeKeySets(submissionKeys, inclusionKeys);
      if keys.Err? {
        return Err(keys.error);
      }
      var entry := Entry(nextId, keys.value.0, keys.value.1);
      nextId := nextId + 1;
      pending := pending + [entry];
      return Ok(entry);
    }

    /** Nobody holds or earlier wants a key of entry `i`. */
    ghost predicate Unhindered(i: nat)
      requires i < |pending|
      reads this
    {
      forall k :: k in pending[i].submissionKeys || k in pending[i].inclusionKeys ==>
        && k !in activeKeys
        && forall j :: 0 <= j < i ==> k !in pending[j].submissionKeys && k !in pending[j].inclusionKeys
    }

    lemma WaitsIsHindered(i: nat)
      requires i < |pending|
      ensures Waits(View(), i) <==> !Unhindered(i)
    {
      var keys := pending[i].Keys();
      assert forall k :: k in keys <==> k in pending[i].submissionKeys || k in pending[i].inclusionKeys;
      forall j | 0 <= j < i
        ensures forall k :: k in pending[j].Keys() <==> k in pending[j].submissionKeys || k in pending[j].inclusionKeys
      {
      }
      hide Entry.Keys;
    }

    method NextReadyIndex() returns (r: Option<nat>)
      ensures r.Some? ==> IsFirstReady(View(), r.value)
      ensures r.None? ==> forall i: nat :: !IsFirstReady(View(), i)
      ensures r.Some? ==> r.value < |pending| && Unhindered(r.value)
      ensures forall i :: 0 <= i < (if r.Some? then r.value else |pending|) ==> !Unhindered(i)
    {
      var blockedKeys := activeKeys;
      for index := 0 to |pending|
        invariant blockedKeys == activeKeys + set j, k | 0 <= j < index && k in pending[j].Keys() :: k
        invariant forall j :: 0 <= j < index ==> Waits(View(), j) && !Unhindered(j)
      {
        WaitsIsHindered(index);
        var entry := pending[index];
        var isBlocked := exists k :: k in entry.Keys() && k in blockedKeys;
        assert isBlocked <==> Waits(View(), index);
        if isBlocked {
          blockedKeys := blockedKeys + set k | k in entry.Keys();
        } else {
          return Some(index);
        }
      }
      return None;
    }

    /** Grant ticket `id` if it is the first ready one; nothing else is ever granted. */
    method TryAcquire(id: nat) returns (granted: bool)
      modifies this
      ensures granted <==> old(Grants(View(), id))
      ensures !granted ==> View() == old(View())
      ensures granted ==> exists i: nat ::
        && IsFirstReady(old(View()), i) && old(View()).pending[i].id == id
        && View() == Granted(old(View()), i)
    {
      ghost var s := View();
      var index := NextReadyIndex();
      assert View() == s;
      if index.None? || pending[index.value].id != id {
        forall j: nat | IsFirstReady(s, j) ensures s.pending[j].id != id {
          if index.Some? {
            FirstReadyUnique(s, index.value);
          }
        }
        return false;
      }
      assert Grants(s, id);
      var entry := pending[index.value];
      pending := pending[..index.value] + pending[index.value + 1..];
      activeKeys := activeKeys + set k | k in entry.Keys();
      return true;
    }

    /** Forget a ticket that was never granted. */
    method CancelPending(id: nat)
      modifies this
      ensures View() == old(View().(pending := Cancelled(pending, id)))
    {
      hide Cancelled;
      assert pending[0..] == pending;
      for index := 0 to |pending|
        invariant View() == old(View())
        invariant Cancelled(pending, id) == pending[..index] + Cancelled(pending[index..], id)
      {
        CancelledAt(pending, index, id);
        if pending[index].id == id {
          pending := pending[..index] + pending[index + 1..];
          return;
        }
      }
      assert pending[|pending|..] == [];
      CancelledNowhere(id);
    }

    method Release(keys: seq<SchedulingKey>)
      modifies this
      ensures View() == old(View()).(activeKeys := old(activeKeys) - set k | k in keys)
    {
      for i := 0 to |keys|
        invariant View() == old(View()).(activeKeys := old(activeKeys) - set k | k in keys[..i])
      {
        assert keys[..i + 1] == keys[..i] + [keys[i]];
        activeKeys := activeKeys - {keys[i]};
      }
      assert keys[..|keys|] == keys;
    }
  }
}

/**
 Tickets, inclusion guards and notifications around the ordering, stepping in any
 interleaving. Every critical section that may free somebody is followed by a
 separate notification, so a ticket can park between the two.
 */
module RpcOrderingRuns {
  import opened Wrappers
  import opened Scheduling
  import opened RpcOrdering

  /**
   Where the owner of a ticket stands in `acquire`. A parked ticket remembers
   whether it was notified, and whether another ticket was granted meanwhile.
   */
  datatype Stage =
    | Outside
    | Armed(notified: bool)
    | Parked(notified: bool, overtaken: bool)
    | Acquired
    | Gone

  datatype Ticket = Ticket(entry: Entry, stage: Stage)
  {
    predicate Waiting() { stage.Outside? || stage.Armed? || stage.Parked? }
    function Held(): seq<SchedulingKey> { if stage.Acquired? then entry.Keys() else [] }
  }

  datatype System = System(
    order: OrderState,
    tickets: seq<Ticket>,
    guards: seq<seq<SchedulingKey>>,   // keys waiting for inclusion, per guard
    owing: nat,                        // critical sections not yet followed by their notification
    granted: seq<Entry>)               // in the order of acquisition

  datatype Step =
    | Enqueue(submissionKeys: seq<SchedulingKey>, inclusionKeys: seq<SchedulingKey>)
    | Arm(ticket: nat)
    | Try(ticket: nat)
    | Wake(ticket: nat)
    | Cancel(ticket: nat)
    | ReleaseSubmission(ticket: nat)
    | TakeInclusion(ticket: nat)
    | DropTicket(ticket: nat)
    | DropGuard(guard: nat)
    | Notify

  function SetStage(s: System, t: nat, stage: Stage): System
    requires t < |s.tickets|
  {
    s.(tickets := s.tickets[t := s.tickets[t].(stage := stage)])
  }

  function Alerted(t: Ticket): Ticket {
    match t.stage
    case Armed(_) => t.(stage := Armed(true))
    case Parked(_, o) => t.(stage := Parked(true, o))
    case _ => t
  }

  function Overtaken(t: Ticket): Ticket {
    match t.stage
    case Parked(n, _) => t.(stage := Parked(n, true))
    case _ => t
  }

  function KeySetOf(keys: seq<SchedulingKey>): set<SchedulingKey> {
    set k | k in keys
  }

  /** The first ready ticket, when it is `t`, leaves the queue and holds its keys. */
  ghost predicate IsGrant(s: System, t: nat, s': System)
    requires t < |s.tickets|
  {
    exists i: nat :: IsFirstReady(s.order, i) && s.order.pending[i].id == s.tickets[t].entry.id &&
      GrantedAt(s, t, i, s')
  }

  ghost predicate GrantedAt(s: System, t: nat, i: nat, s': System)
    requires t < |s.tickets| && i < |s.order.pending|
  {
    var others := seq(|s.tickets|, j requires 0 <= j < |s.tickets| => Overtaken(s.tickets[j]));
    s' == s.(order := Granted(s.order, i),
             tickets := others[t := s.tickets[t].(stage := Acquired)],
             granted := s.granted + [s.order.pending[i]])
  }

  function Freed(s: System, keys: seq<SchedulingKey>): System {
    s.(order := s.order.(activeKeys := s.order.activeKeys - KeySetOf(keys)), owing := s.owing + 1)
  }

  ghost predicate Next(s: System, step: Step, s': System) {
    match step
    case Enqueue(sub, inc) =>
      && Normalized(sub, inc)
      && (var e := Entry(s.order.nextId, sub, inc);
          s' == s.(order := s.order.(nextId := s.order.nextId + 1, pending := s.order.pending + [e]),
                   tickets := s.tickets + [Ticket(e, Outside)], owing := s.owing + 1))
    case Arm(t) => t < |s.tickets| && s.tickets[t].stage == Outside && s' == SetStage(s, t, Armed(false))
    case Try(t) =>
      && t < |s.tickets| && s.tickets[t].stage.Armed?
      && (if Grants(s.order, s.tickets[t].entry.id) then IsGrant(s, t, s')
          else s' == SetStage(s, t, Parked(s.tickets[t].stage.notified, false)))
    case Wake(t) =>
      t < |s.tickets| && s.tickets[t].stage.Parked? && s.tickets[t].stage.notified && s' == SetStage(s, t, Outside)
    case Cancel(t) =>
      && t < |s.tickets| && s.tickets[t].Waiting()
      && s' == SetStage(s, t, Gone).(
           order := s.order.(pending := Cancelled(s.order.pending, s.tickets[t].entry.id)), owing := s.owing + 1)
    case ReleaseSubmission(t) =>
      && t < |s.tickets| && s.tickets[t].stage.Acquired?
      && s' == Freed(s, s.tickets[t].entry.submissionKeys).(
           tickets := s.tickets[t := s.tickets[t].(entry := s.tickets[t].entry.(submissionKeys := []))])
    case TakeInclusion(t) =>
      && t < |s.tickets| && s.tickets[t].stage.Acquired? && s.tickets[t].entry.inclusionKeys != []
      && s' == s.(tickets := s.tickets[t := s.tickets[t].(entry := s.tickets[t].entry.(inclusionKeys := []))],
                  guards := s.guards + [s.tickets[t].entry.inclusionKeys])
    case DropTicket(t) =>
      && t < |s.tickets| && s.tickets[t].stage.Acquired? && s.tickets[t].entry.submissionKeys == []
      && s' == Freed(s, s.tickets[t].entry.inclusionKeys).(
           tickets := s.tickets[t := s.tickets[t].(stage := Gone)])
    case DropGuard(g) =>
      && g < |s.guards| && s.guards[g] != []
      && s' == Freed(s, s.guards[g]).(guards := s.guards[g := []])
    case Notify =>
      && s.owing > 0
      && s' == s.(tickets := seq(|s.tickets|, j requires 0 <= j < |s.tickets| => Alerted(s.tickets[j])),
                  owing := s.owing - 1)
  }

  const EMPTY := System(OrderState(0, [], {}), [], [], 0, [])

  ghost predicate IsRun(states: seq<System>, steps: seq<Step>) {
    && |states| == |steps| + 1 && states[0] == EMPTY
    && forall n :: 0 <= n < |steps| ==> Next(states[n], steps[n], states[n + 1])
  }

  // ------------------------------------------------------------- invariants

  function Count(keys: seq<SchedulingKey>, k: SchedulingKey): nat {
    if keys == [] then 0 else (if keys[0] == k then 1 else 0) + Count(keys[1..], k)
  }

  function CountTickets(ts: seq<Ticket>, k: SchedulingKey): nat {
    if ts == [] then 0 else Count(ts[0].Held(), k) + CountTickets(ts[1..], k)
  }

  function CountGuards(gs: seq<seq<SchedulingKey>>, k: SchedulingKey): nat {
    if gs == [] then 0 else Count(gs[0], k) + CountGuards(gs[1..], k)
  }

  /** How many live holders own `k`. */
  function Owners(s: System, k: SchedulingKey): nat {
    CountTickets(s.tickets, k) + CountGuards(s.guards, k)
  }

  /** Held keys are exactly the disjoint union of the keys of granted tickets and live guards. */
  ghost predicate Owned(s: System) {
    forall k :: Owners(s, k) == if k in s.order.activeKeys then 1 else 0
  }

  /** Waiting tickets and queue entries correspond one to one, in order of their ids. */
  ghost predicate Queued(s: System) {
    && (forall i :: 0 <= i < |s.order.pending| ==>
          s.order.pending[i].id < s.order.nextId &&
            Normalized(s.order.pending[i].submissionKeys, s.order.pending[i].inclusionKeys))
    && (forall i, j :: 0 <= i < j < |s.order.pending| ==> s.order.pending[i].id < s.order.pending[j].id)
    && (forall t :: 0 <= t < |s.tickets| ==> s.tickets[t].entry.id == t)
    && |s.tickets| == s.order.nextId
    && (forall t :: 0 <= t < |s.tickets| && s.tickets[t].Waiting() ==> s.tickets[t].entry in s.order.pending)
    && (forall i :: 0 <= i < |s.order.pending| ==>
          s.tickets[s.order.pending[i].id].Waiting() && s.tickets[s.order.pending[i].id].entry == s.order.pending[i])
  }

  ghost predicate ShareKey(a: Entry, b: Entry) {
    exists k :: k in a.Keys() && k in b.Keys()
  }

  /** Conflicting tickets are granted in the order in which they were queued. */
  ghost predicate GrantedInOrder(s: System) {
    && (forall i :: 0 <= i < |s.granted| ==> s.granted[i].id < s.order.nextId)
    && (forall i, j :: 0 <= i < j < |s.granted| && ShareKey(s.granted[i], s.granted[j]) ==>
          s.granted[i].id < s.granted[j].id)
    && (forall i, j ::
          0 <= i < |s.granted| && 0 <= j < |s.order.pending| && ShareKey(s.granted[i], s.order.pending[j]) ==>
          s.granted[i].id < s.order.pending[j].id)
  }

  predicate Asleep(t: Ticket) { t.stage.Parked? && !t.stage.notified }

  /** A sleeping ticket is overlooked: the first ready one, with no notification on its way. */
  ghost predicate Overlooked(s: System, t: nat) {
    t < |s.tickets| && Asleep(s.tickets[t]) && s.owing == 0 && Grants(s.order, s.tickets[t].entry.id)
  }

  /** A ticket is overlooked only while the key of one granted after it parked is still held. */
  ghost predicate NoLostWakeup(s: System) {
    forall t: nat :: Overlooked(s, t) ==> s.tickets[t].stage.overtaken && s.order.activeKeys != {}
  }

  ghost predicate Inv(s: System) {
    Owned(s) && Queued(s) && GrantedInOrder(s) && NoLostWakeup(s)
  }

  // ------------------------------------------------------------------ owners

  lemma {:induction false} CountUpdate(ts: seq<Ticket>, t: nat, u: Ticket, k: SchedulingKey)
    requires t < |ts|
    ensures CountTickets(ts[t := u], k) + Count(ts[t].Held(), k) == CountTickets(ts, k) + Count(u.Held(), k)
  {
    if t == 0 {
      assert ts[0 := u][1..] == ts[1..];
    } else {
      assert ts[t := u][1..] == ts[1..][t - 1 := u];
      CountUpdate(ts[1..], t - 1, u, k);
    }
  }

  lemma {:induction false} CountGuardUpdate(gs: seq<seq<SchedulingKey>>, g: nat, keys: seq<SchedulingKey>,
                                            k: SchedulingKey)
    requires g < |gs|
    ensures CountGuards(gs[g := keys], k) + Count(gs[g], k) == CountGuards(gs, k) + Count(keys, k)
  {
    if g == 0 {
      assert gs[0 := keys][1..] == gs[1..];
    } else {
      assert gs[g := keys][1..] == gs[1..][g - 1 := keys];
      CountGuardUpdate(gs[1..], g - 1, keys, k);
    }
  }

  lemma {:induction false} CountTicketAppend(ts: seq<Ticket>, u: Ticket, k: SchedulingKey)
    ensures CountTickets(ts + [u], k) == CountTickets(ts, k) + Count(u.Held(), k)
  {
    if ts == [] {
      assert ts + [u] == [u];
    } else {
      assert (ts + [u])[1..] == ts[1..] + [u];
      CountTicketAppend(ts[1..], u, k);
    }
  }

  lemma {:induction false} CountGuardAppend(gs: seq<seq<SchedulingKey>>, keys: seq<SchedulingKey>, k: SchedulingKey)
    ensures CountGuards(gs + [keys], k) == CountGuards(gs, k) + Count(keys, k)
  {
    if gs == [] {
      assert gs + [keys] == [keys];
    } else {
      assert (gs + [keys])[1..] == gs[1..] + [keys];
      CountGuardAppend(gs[1..], keys, k);
    }
  }

  /** Only what tickets hold matters, not where they stand. */
  lemma {:induction false} CountSameHeld(ts: seq<Ticket>, us: seq<Ticket>, k: SchedulingKey)
    requires |ts| == |us| && forall t :: 0 <= t < |ts| ==> ts[t].Held() == us[t].Held()
    ensures CountTickets(ts, k) == CountTickets(us, k)
  {
    if ts != [] {
      CountSameHeld(ts[1..], us[1..], k);
    }
  }

  lemma {:induction false} CountAppend(a: seq<SchedulingKey>, b: seq<SchedulingKey>, k: SchedulingKey)
    ensures Count(a + b, k) == Count(a, k) + Count(b, k)
  {
    if a == [] {
      assert a + b == b;
    } else {
      assert (a + b)[0] == a[0] && (a + b)[1..] == a[1..] + b;
      CountAppend(a[1..], b, k);
    }
  }

  lemma {:induction false} CountIn(keys: seq<SchedulingKey>, k: SchedulingKey)
    ensures k in keys <==> Count(keys, k) > 0
    ensures NoDuplicates(keys) ==> Count(keys, k) <= 1
  {
    if keys != [] {
      CountIn(keys[1..], k);
      assert keys == [keys[0]] + keys[1..];
    }
  }

  lemma GrantOwned(s: System, t: nat, i: nat, s': System)
    requires Owned(s) && t < |s.tickets| && !s.tickets[t].stage.Acquired?
    requires IsFirstReady(s.order, i) && s.tickets[t].entry == s.order.pending[i] && GrantedAt(s, t, i, s')
    requires Normalized(s.order.pending[i].submissionKeys, s.order.pending[i].inclusionKeys)
    ensures Owned(s')
  {
    var others := seq(|s.tickets|, j requires 0 <= j < |s.tickets| => Overtaken(s.tickets[j]));
    var keys := s.order.pending[i].Keys();
    forall k ensures Owners(s', k) == if k in s'.order.activeKeys then 1 else 0 {
      CountSameHeld(s.tickets, others, k);
      CountUpdate(others, t, s.tickets[t].(stage := Acquired), k);
      CountIn(keys, k);
      assert Owners(s, k) == if k in s.order.activeKeys then 1 else 0;
      assert k in keys ==> k !in s.order.activeKeys;
    }
  }

  /** Releasing frees exactly the keys it names, since each has one owner. */
  lemma ReleaseOwned(s: System, keys: seq<SchedulingKey>, s': System)
    requires Owned(s) && s'.order.activeKeys == s.order.activeKeys - KeySetOf(keys)
    requires forall k :: Owners(s', k) + Count(keys, k) == Owners(s, k)
    ensures Owned(s')
  {
    forall k ensures Owners(s', k) == if k in s'.order.activeKeys then 1 else 0 {
      CountIn(keys, k);
      assert Owners(s, k) == if k in s.order.activeKeys then 1 else 0;
    }
  }

  lemma ReleaseSubmissionOwned(s: System, t: nat, s': System)
    requires Owned(s) && Next(s, ReleaseSubmission(t), s')
    ensures Owned(s')
  {
    var e := s.tickets[t].entry;
    forall k ensures Owners(s', k) + Count(e.submissionKeys, k) == Owners(s, k) {
      CountUpdate(s.tickets, t, s'.tickets[t], k);
      CountAppend(e.submissionKeys, e.inclusionKeys, k);
      assert s'.tickets[t].entry.Keys() == e.inclusionKeys;
    }
    ReleaseOwned(s, e.submissionKeys, s');
  }

  lemma TakeInclusionOwned(s: System, t: nat, s': System)
    requires Owned(s) && Next(s, TakeInclusion(t), s')
    ensures Owned(s')
  {
    var e := s.tickets[t].entry;
    forall k ensures Owners(s', k) == Owners(s, k) {
      CountUpdate(s.tickets, t, s'.tickets[t], k);
      CountGuardAppend(s.guards, e.inclusionKeys, k);
      CountAppend(e.submissionKeys, e.inclusionKeys, k);
      assert s'.tickets[t].entry.Keys() == e.submissionKeys;
    }
  }

  lemma DropTicketOwned(s: System, t: nat, s': System)
    requires Owned(s) && Next(s, DropTicket(t), s')
    ensures Owned(s')
  {
    var e := s.tickets[t].entry;
    forall k ensures Owners(s', k) + Count(e.inclusionKeys, k) == Owners(s, k) {
      CountUpdate(s.tickets, t, s'.tickets[t], k);
      assert e.Keys() == e.inclusionKeys;
    }
    ReleaseOwned(s, e.inclusionKeys, s');
  }

  lemma DropGuardOwned(s: System, g: nat, s': System)
    requires Owned(s) && Next(s, DropGuard(g), s')
    ensures Owned(s')
  {
    forall k ensures Owners(s', k) + Count(s.guards[g], k) == Owners(s, k) {
      CountGuardUpdate(s.guards, g, [], k);
    }
    ReleaseOwned(s, s.guards[g], s');
  }

  /** Steps that hand no key over keep the owners. */
  lemma SameOwned(s: System, s': System)
    requires Owned(s) && s'.order.activeKeys == s.order.activeKeys && s'.guards == s.guards
    requires |s.tickets| == |s'.tickets| && forall t :: 0 <= t < |s.tickets| ==>
      s.tickets[t].Held() == s'.tickets[t].Held()
    ensures Owned(s')
  {
    forall k ensures Owners(s', k) == Owners(s, k) {
      CountSameHeld(s.tickets, s'.tickets, k);
    }
  }

  lemma StepOwned(s: System, step: Step, s': System)
    requires Owned(s) && Queued(s) && Next(s, step, s')
    ensures Owned(s')
  {
    hide Owned, Normalized;
    match step {
      case Enqueue(_, _) => EnqueueOwned(s, s');
      case Arm(_) => SameOwned(s, s');
      case Try(t) =>
        if Grants(s.order, s.tickets[t].entry.id) {
          var i: nat :| IsFirstReady(s.order, i) && s.order.pending[i].id == s.tickets[t].entry.id &&
            GrantedAt(s, t, i, s');
          assert s.tickets[s.order.pending[i].id].entry == s.order.pending[i];
          GrantOwned(s, t, i, s');
        } else {
          SameOwned(s, s');
        }
      case Wake(_) => SameOwned(s, s');
      case Cancel(_) => SameOwned(s, s');
      case ReleaseSubmission(t) => ReleaseSubmissionOwned(s, t, s');
      case TakeInclusion(t) => TakeInclusionOwned(s, t, s');
      case DropTicket(t) => DropTicketOwned(s, t, s');
      case DropGuard(g) => DropGuardOwned(s, g, s');
      case Notify => SameOwned(s, s');
    }
  }

  lemma EnqueueOwned(s: System, s': System)
    requires Owned(s) && s'.order.activeKeys == s.order.activeKeys && s'.guards == s.guards
    requires exists e :: s'.tickets == s.tickets + [Ticket(e, Outside)]
    ensures Owned(s')
  {
    var e :| s'.tickets == s.tickets + [Ticket(e, Outside)];
    forall k ensures Owners(s', k) == Owners(s, k) {
      CountTicketAppend(s.tickets, Ticket(e, Outside), k);
    }
  }

  // ------------------------------------------------------------------- queue

  lemma {:induction false} CancelledIsRemoval(pending: seq<Entry>, i: nat)
    requires i < |pending| && forall j :: 0 <= j < i ==> pending[j].id != pending[i].id
    ensures Cancelled(pending, pending[i].id) == RemoveAt(pending, i)
  {
    if i > 0 {
      CancelledIsRemoval(pending[1..], i - 1);
      assert [pending[0]] + RemoveAt(pending[1..], i - 1) == RemoveAt(pending, i);
    } else {
      assert RemoveAt(pending, 0) == pending[1..];
    }
  }

  function OldIndex(i: nat, j: nat): nat {
    if j < i then j else j + 1
  }

  lemma RemovalShape(pending: seq<Entry>, i: nat)
    requires i < |pending|
    ensures |RemoveAt(pending, i)| == |pending| - 1
    ensures forall j :: 0 <= j < |pending| - 1 ==> RemoveAt(pending, i)[j] == pending[OldIndex(i, j)]
    ensures forall e :: e in pending && e != pending[i] ==> e in RemoveAt(pending, i)
  {
    assert pending == pending[..i] + [pending[i]] + pending[i + 1..];
  }

  /** A waiting ticket leaves the queue, by grant or by cancellation. */
  lemma RemovalQueued(s: System, t: nat, i: nat, s': System)
    requires Queued(s) && t < |s.tickets| && i < |s.order.pending| && s.order.pending[i].id == t
    requires s'.order.pending == RemoveAt(s.order.pending, i) && s'.order.nextId == s.order.nextId
    requires |s'.tickets| == |s.tickets| && !s'.tickets[t].Waiting()
    requires forall u :: 0 <= u < |s.tickets| ==> s'.tickets[u].entry == s.tickets[u].entry
    requires forall u :: 0 <= u < |s.tickets| && u != t ==> (s'.tickets[u].Waiting() <==> s.tickets[u].Waiting())
    ensures Queued(s')
  {
    hide Normalized;
    RemovalShape(s.order.pending, i);
    hide RemoveAt;
    forall u | 0 <= u < |s'.tickets| && s'.tickets[u].Waiting() ensures s'.tickets[u].entry in s'.order.pending {
      assert u != t && s.tickets[u].entry.id == u;
    }
    forall j | 0 <= j < |s'.order.pending|
      ensures s'.tickets[s'.order.pending[j].id].Waiting() &&
        s'.tickets[s'.order.pending[j].id].entry == s'.order.pending[j]
    {
      assert s'.order.pending[j] == s.order.pending[OldIndex(i, j)];
      assert s.order.pending[OldIndex(i, j)].id != t;
    }
  }

  lemma EnqueueQueued(s: System, sub: seq<SchedulingKey>, inc: seq<SchedulingKey>, s': System)
    requires Queued(s) && Next(s, Enqueue(sub, inc), s')
    ensures Queued(s')
  {
    hide Normalized;
    var e := Entry(s.order.nextId, sub, inc);
    assert forall j :: 0 <= j < |s'.order.pending| ==>
      s'.order.pending[j] == if j < |s.order.pending| then s.order.pending[j] else e;
    assert forall u :: 0 <= u < |s'.tickets| ==>
      s'.tickets[u] == if u < |s.tickets| then s.tickets[u] else Ticket(e, Outside);
    assert e in s'.order.pending by { assert s'.order.pending[|s.order.pending|] == e; }
  }

  /** Steps of tickets that neither join nor leave the queue. */
  lemma SameQueued(s: System, s': System)
    requires Queued(s) && s'.order.pending == s.order.pending && s'.order.nextId == s.order.nextId
    requires |s'.tickets| == |s.tickets|
    requires forall u :: 0 <= u < |s.tickets| ==>
      s'.tickets[u].Waiting() == s.tickets[u].Waiting() && s'.tickets[u].entry.id == s.tickets[u].entry.id
    requires forall u :: 0 <= u < |s.tickets| && s.tickets[u].Waiting() ==> s'.tickets[u].entry == s.tickets[u].entry
    ensures Queued(s')
  {
    hide Normalized;
  }

  lemma PositionOf(s: System, t: nat) returns (i: nat)
    requires Queued(s) && t < |s.tickets| && s.tickets[t].Waiting()
    ensures i < |s.order.pending| && s.order.pending[i] == s.tickets[t].entry && s.order.pending[i].id == t
  {
    hide Normalized;
    assert s.tickets[t].entry in s.order.pending;
    i :| 0 <= i < |s.order.pending| && s.order.pending[i] == s.tickets[t].entry;
  }

  lemma CancelPosition(s: System, t: nat) returns (i: nat)
    requires Queued(s) && t < |s.tickets| && s.tickets[t].Waiting()
    ensures i < |s.order.pending| && s.order.pending[i].id == t
    ensures Cancelled(s.order.pending, s.tickets[t].entry.id) == RemoveAt(s.order.pending, i)
  {
    i := PositionOf(s, t);
    CancelledIsRemoval(s.order.pending, i);
  }

  lemma StepQueued(s: System, step: Step, s': System)
    requires Queued(s) && Next(s, step, s')
    ensures Queued(s')
  {
    hide Queued, Normalized, Waits, GrantedAt;
    match step {
      case Enqueue(sub, inc) => EnqueueQueued(s, sub, inc, s');
      case Try(t) =>
        if Grants(s.order, s.tickets[t].entry.id) {
          var i: nat :| IsFirstReady(s.order, i) && s.order.pending[i].id == s.tickets[t].entry.id &&
            GrantedAt(s, t, i, s');
          GrantQueued(s, t, i, s');
        } else {
          SameQueued(s, s');
        }
      case Cancel(t) =>
        var i := CancelPosition(s, t);
        hide Cancelled;
        RemovalQueued(s, t, i, s');
      case _ => SameQueued(s, s');
    }
  }

  lemma GrantQueued(s: System, t: nat, i: nat, s': System)
    requires Queued(s) && t < |s.tickets| && IsFirstReady(s.order, i)
    requires s.order.pending[i].id == s.tickets[t].entry.id && GrantedAt(s, t, i, s')
    ensures Queued(s')
  {
    assert s.tickets[t].entry.id == t;
    hide Queued, IsFirstReady;
    RemovalQueued(s, t, i, s');
  }

  // ------------------------------------------------------------- grant order

  lemma GrantOrder(s: System, t: nat, i: nat, s': System)
    requires GrantedInOrder(s) && Queued(s) && t < |s.tickets| && IsFirstReady(s.order, i) && GrantedAt(s, t, i, s')
    ensures GrantedInOrder(s')
  {
    hide Queued, Waits, ShareKey, RemoveAt;
    var e := s.order.pending[i];
    ReadySharesNothing(s.order, i);
    QueuedIds(s, i);
    RemovalShape(s.order.pending, i);
    assert s'.granted == s.granted + [e] && s'.order.pending == RemoveAt(s.order.pending, i);
  }

  lemma ReadySharesNothing(o: OrderState, i: nat)
    requires IsFirstReady(o, i)
    ensures forall j :: 0 <= j < i ==> !ShareKey(o.pending[i], o.pending[j])
  {
    forall j | 0 <= j < i ensures !ShareKey(o.pending[i], o.pending[j]) {
      assert !Waits(o, i);
    }
  }

  lemma QueuedIds(s: System, i: nat)
    requires Queued(s) && i < |s.order.pending|
    ensures s.order.pending[i].id < s.order.nextId
    ensures forall j :: i < j < |s.order.pending| ==> s.order.pending[i].id < s.order.pending[j].id
  {
    hide Normalized;
  }

  lemma CancelOrder(s: System, i: nat, s': System)
    requires GrantedInOrder(s) && i < |s.order.pending|
    requires s'.granted == s.granted && s'.order.pending == RemoveAt(s.order.pending, i)
    requires s'.order.nextId == s.order.nextId
    ensures GrantedInOrder(s')
  {
    hide ShareKey;
    RemovalShape(s.order.pending, i);
    hide RemoveAt;
  }

  /** A new ticket is younger than everything granted. */
  lemma EnqueueOrder(s: System, e: Entry, s': System)
    requires GrantedInOrder(s) && e.id == s.order.nextId && s'.order.nextId == s.order.nextId + 1
    requires s'.granted == s.granted && s'.order.pending == s.order.pending + [e]
    ensures GrantedInOrder(s')
  {
    hide ShareKey;
  }

  lemma SameOrder(s: System, s': System)
    requires GrantedInOrder(s) && s'.granted == s.granted
    requires s'.order.pending == s.order.pending && s'.order.nextId == s.order.nextId
    ensures GrantedInOrder(s')
  {
    hide ShareKey;
  }

  lemma StepOrder(s: System, step: Step, s': System)
    requires GrantedInOrder(s) && Queued(s) && Next(s, step, s')
    ensures GrantedInOrder(s')
  {
    hide GrantedInOrder, Queued, Normalized;
    match step {
      case Enqueue(sub, inc) => EnqueueOrder(s, Entry(s.order.nextId, sub, inc), s');
      case Try(t) =>
        if Grants(s.order, s.tickets[t].entry.id) {
          var i: nat :| IsFirstReady(s.order, i) && s.order.pending[i].id == s.tickets[t].entry.id &&
            GrantedAt(s, t, i, s');
          hide GrantedAt, IsFirstReady;
          GrantOrder(s, t, i, s');
        } else {
          SameOrder(s, s');
        }
      case Cancel(t) =>
        var i := CancelPosition(s, t);
        CancelOrder(s, i, s');
      case _ => SameOrder(s, s');
    }
  }

  // ---------------------------------------------------------------- wake-ups

  /** Steps after which nobody new sleeps in front of an unchanged queue. */
  lemma SameWakeup(s: System, s': System)
    requires NoLostWakeup(s) && s'.order == s.order && s'.owing == s.owing && |s'.tickets| == |s.tickets|
    requires forall u: nat :: u < |s.tickets| && Asleep(s'.tickets[u]) ==> (
      || !Grants(s.order, s'.tickets[u].entry.id)
      || (s'.tickets[u].stage == s.tickets[u].stage && s'.tickets[u].entry.id == s.tickets[u].entry.id))
    ensures NoLostWakeup(s')
  {
    hide Grants;
    forall u: nat | Overlooked(s', u) ensures s'.tickets[u].stage.overtaken && s'.order.activeKeys != {} {
      assert Overlooked(s, u);
    }
  }

  lemma GrantWakeup(s: System, t: nat, i: nat, s': System)
    requires Queued(s) && t < |s.tickets| && IsFirstReady(s.order, i) && GrantedAt(s, t, i, s')
    ensures NoLostWakeup(s')
  {
    var e := s.order.pending[i];
    assert Normalized(e.submissionKeys, e.inclusionKeys);
    hide Queued, IsFirstReady;
    assert e.Keys()[0] in e.Keys();
    assert e.Keys()[0] in s'.order.activeKeys;
  }

  lemma StepWakeup(s: System, step: Step, s': System)
    requires Queued(s) && NoLostWakeup(s) && Next(s, step, s')
    ensures NoLostWakeup(s')
  {
    hide Queued, Normalized;
    match step {
      case Try(t) =>
        if Grants(s.order, s.tickets[t].entry.id) {
          var i: nat :| IsFirstReady(s.order, i) && s.order.pending[i].id == s.tickets[t].entry.id &&
            GrantedAt(s, t, i, s');
          hide GrantedAt, IsFirstReady, NoLostWakeup;
          GrantWakeup(s, t, i, s');
        } else {
          hide NoLostWakeup, Grants;
          SameWakeup(s, s');
        }
      case Arm(_) => hide NoLostWakeup, Grants; SameWakeup(s, s');
      case Wake(_) => hide NoLostWakeup, Grants; SameWakeup(s, s');
      case TakeInclusion(_) => hide NoLostWakeup, Grants; SameWakeup(s, s');
      case _ =>
    }
  }

  lemma StepKeepsInv(s: System, step: Step, s': System)
    requires Inv(s) && Next(s, step, s')
    ensures Inv(s')
  {
    hide Owned, Queued, GrantedInOrder, NoLostWakeup, Next;
    StepOwned(s, step, s');
    StepQueued(s, step, s');
    StepOrder(s, step, s');
    StepWakeup(s, step, s');
  }

  lemma {:induction false} RunKeepsInv(states: seq<System>, steps: seq<Step>)
    requires IsRun(states, steps)
    ensures Inv(states[|steps|])
    decreases |steps|
  {
    if steps != [] {
      var n := |steps| - 1;
      assert IsRun(states[..|steps|], steps[..n]) by { hide Next; }
      RunKeepsInv(states[..|steps|], steps[..n]);
      hide Inv;
      StepKeepsInv(states[n], steps[n], states[n + 1]);
    }
  }

  // ---------------------------------------------------------------- theorems

  lemma {:induction false} CountedTicket(ts: seq<Ticket>, k: SchedulingKey)
    requires CountTickets(ts, k) > 0
    ensures exists t: nat :: t < |ts| && k in ts[t].Held()
  {
    if Count(ts[0].Held(), k) > 0 {
      CountedKey(ts[0].Held(), k);
    } else {
      CountedTicket(ts[1..], k);
      var t: nat :| t < |ts[1..]| && k in ts[1..][t].Held();
      assert k in ts[t + 1].Held();
    }
  }

  lemma {:induction false} CountedGuard(gs: seq<seq<SchedulingKey>>, k: SchedulingKey)
    requires CountGuards(gs, k) > 0
    ensures exists g: nat :: g < |gs| && k in gs[g]
  {
    if Count(gs[0], k) > 0 {
      CountedKey(gs[0], k);
    } else {
      CountedGuard(gs[1..], k);
      var g: nat :| g < |gs[1..]| && k in gs[1..][g];
      assert k in gs[g + 1];
    }
  }

  lemma {:induction false} CountedKey(keys: seq<SchedulingKey>, k: SchedulingKey)
    ensures Count(keys, k) > 0 <==> k in keys
  {
    if keys != [] {
      CountedKey(keys[1..], k);
      assert keys == [keys[0]] + keys[1..];
    }
  }

  /** Somebody alive will release `k`, and notify when it does. */
  ghost predicate HeldAlive(s: System, k: SchedulingKey) {
    || (exists t: nat :: t < |s.tickets| && k in s.tickets[t].Held())
    || (exists g: nat :: g < |s.guards| && k in s.guards[g])
  }

  lemma {:induction false} CountedOnce(ts: seq<Ticket>, t: nat, u: nat, k: SchedulingKey)
    requires t < u < |ts| && k in ts[t].Held() && k in ts[u].Held()
    ensures CountTickets(ts, k) >= 2
  {
    if t == 0 {
      CountedKey(ts[0].Held(), k);
      CountedAtLeastOnce(ts[1..], u - 1, k);
    } else {
      CountedOnce(ts[1..], t - 1, u - 1, k);
    }
  }

  lemma {:induction false} CountedAtLeastOnce(ts: seq<Ticket>, t: nat, k: SchedulingKey)
    requires t < |ts| && k in ts[t].Held()
    ensures CountTickets(ts, k) >= 1
  {
    if t == 0 {
      CountedKey(ts[0].Held(), k);
    } else {
      CountedAtLeastOnce(ts[1..], t - 1, k);
    }
  }

  /** In every run a key is active exactly while one live ticket or guard owns it, and no two tickets own it at once. */
  lemma RunKeysAreOwned(states: seq<System>, steps: seq<Step>, k: SchedulingKey)
    requires IsRun(states, steps)
    ensures var s := states[|steps|];
      && (k in s.order.activeKeys <==> HeldAlive(s, k))
      && forall t: nat, u: nat :: t < u < |s.tickets| && k in s.tickets[t].Held() ==> k !in s.tickets[u].Held()
  {
    RunKeepsInv(states, steps);
    var s := states[|steps|];
    hide IsRun, Queued, GrantedInOrder, NoLostWakeup, Ticket.Held;
    assert Owners(s, k) == if k in s.order.activeKeys then 1 else 0;
    hide Owned;
    if k in s.order.activeKeys {
      if CountTickets(s.tickets, k) > 0 {
        CountedTicket(s.tickets, k);
      } else {
        CountedGuard(s.guards, k);
      }
    }
    if t: nat :| t < |s.tickets| && k in s.tickets[t].Held() {
      CountedAtLeastOnce(s.tickets, t, k);
    }
    if g: nat :| g < |s.guards| && k in s.guards[g] {
      CountedGuardIndex(s.guards, g, k);
    }
    forall t: nat, u: nat | t < u < |s.tickets| && k in s.tickets[t].Held() ensures k !in s.tickets[u].Held() {
      if k in s.tickets[u].Held() {
        CountedOnce(s.tickets, t, u, k);
      }
    }
  }

  lemma {:induction false} CountedGuardIndex(gs: seq<seq<SchedulingKey>>, g: nat, k: SchedulingKey)
    requires g < |gs| && k in gs[g]
    ensures CountGuards(gs, k) >= 1
  {
    if g == 0 {
      CountedKey(gs[0], k);
    } else {
      CountedGuardIndex(gs[1..], g - 1, k);
    }
  }

  /** In every run conflicting tickets acquire in the order in which they were queued. */
  lemma RunGrantsInOrder(states: seq<System>, steps: seq<Step>, i: nat, j: nat)
    requires IsRun(states, steps) && i < j < |states[|steps|].granted|
    requires ShareKey(states[|steps|].granted[i], states[|steps|].granted[j])
    ensures states[|steps|].granted[i].id < states[|steps|].granted[j].id
  {
    RunKeepsInv(states, steps);
    hide Owned, Queued, NoLostWakeup, IsRun, ShareKey;
  }

  /**
   No wake-up is lost for good: a sleeping ticket with no notification on its way
   either is not the first ready one, or a key is held whose release will notify it.
   */
  lemma RunNoLostWakeup(states: seq<System>, steps: seq<Step>, t: nat)
    requires IsRun(states, steps)
    ensures var s := states[|steps|];
      Overlooked(s, t) ==> s.tickets[t].stage.overtaken && exists k :: k in s.order.activeKeys && HeldAlive(s, k)
  {
    var s := states[|steps|];
    RunKeepsInv(states, steps);
    hide IsRun, Owned, Queued, GrantedInOrder, HeldAlive;
    if Overlooked(s, t) {
      hide Overlooked;
      var k :| k in s.order.activeKeys;
      RunKeysAreOwned(states, steps, k);
    }
  }

  /** Somebody can take a step of its own accord, so the queue never waits for nobody. */
  ghost predicate Moves(s: System) {
    || s.owing > 0
    || (exists t: nat :: t < |s.tickets| && s.tickets[t].Waiting() && !Asleep(s.tickets[t]))
    || (exists k :: k in s.order.activeKeys && HeldAlive(s, k))
  }

  lemma RunNeverStuck(states: seq<System>, steps: seq<Step>)
    requires IsRun(states, steps) && states[|steps|].order.pending != []
    ensures Moves(states[|steps|])
  {
    var s := states[|steps|];
    RunKeepsInv(states, steps);
    hide IsRun, Owned, GrantedInOrder, Normalized;
    if s.order.activeKeys != {} {
      var k :| k in s.order.activeKeys;
      hide NoLostWakeup, Queued, HeldAlive;
      RunKeysAreOwned(states, steps, k);
    } else {
      var t := s.order.pending[0].id;
      assert s.tickets[t].Waiting();
      hide Queued;
      assert IsFirstReady(s.order, 0);
      assert Grants(s.order, t) && s.tickets[t].entry.id == t;
      assert !Overlooked(s, t);
    }
  }

  // ------------------------------------------------------- who is overlooked

  /** Entry `j` is the first behind entry `i` that conflicts with nothing. */
  ghost predicate NextInLine(o: OrderState, i: nat, j: nat) {
    i < j < |o.pending| && !Waits(o, j) && forall m :: i < m < j ==> Waits(o, m)
  }

  /** Granting the first ready entry makes nobody else ready and nobody else wait. */
  lemma GrantKeepsWaits(o: OrderState, i: nat, j: nat)
    requires IsFirstReady(o, i) && j < |o.pending| - 1
    ensures var after := Granted(o, i);
      |after.pending| == |o.pending| - 1 && after.pending[j] == o.pending[OldIndex(i, j)] &&
      (Waits(after, j) <==> Waits(o, OldIndex(i, j)))
  {
    RemovalShape(o.pending, i);
    hide RemoveAt;
    var after := Granted(o, i);
    if j < i {
      MoreWait(o, after, j);
    } else {
      PassedWait(o, after, i, j);
    }
  }

  lemma MoreWait(o: OrderState, after: OrderState, j: nat)
    requires j < |o.pending| && j < |after.pending| && o.activeKeys <= after.activeKeys
    requires forall m :: 0 <= m <= j ==> after.pending[m] == o.pending[m]
    ensures Waits(o, j) ==> Waits(after, j)
  {
  }

  /** Behind the granted entry its keys block as active ones what they blocked as queued ones. */
  lemma PassedWait(o: OrderState, after: OrderState, i: nat, j: nat)
    requires i <= j < |o.pending| - 1 && |after.pending| == |o.pending| - 1
    requires after.activeKeys == o.activeKeys + set k | k in o.pending[i].Keys()
    requires forall m :: 0 <= m <= j ==> after.pending[m] == o.pending[OldIndex(i, m)]
    ensures Waits(after, j) <==> Waits(o, j + 1)
  {
    var keys := o.pending[j + 1].Keys();
    hide Entry.Keys;
    if k :| k in keys && k in after.activeKeys {
      assert Waits(after, j);
      assert Waits(o, j + 1);
    }
    forall m, k | 0 <= m < j && k in keys && k in after.pending[m].Keys() ensures Waits(o, j + 1) {
      assert k in o.pending[OldIndex(i, m)].Keys();
    }
    forall m, k | 0 <= m < j + 1 && k in keys && k in o.pending[m].Keys() ensures Waits(after, j) {
      if m < i {
        assert k in after.pending[m].Keys();
      } else if m > i {
        assert after.pending[m - 1] == o.pending[OldIndex(i, m - 1)];
        assert k in after.pending[m - 1].Keys();
      }
    }
  }

  /** After a grant the next in line is the first ready entry. */
  lemma GrantAdvances(o: OrderState, i: nat, id: nat)
    requires IsFirstReady(o, i)
    ensures Grants(Granted(o, i), id) <==> exists j: nat :: NextInLine(o, i, j) && o.pending[j].id == id
  {
    var after := Granted(o, i);
    forall j: nat | j < |o.pending| - 1
      ensures after.pending[j] == o.pending[OldIndex(i, j)] && (Waits(after, j) <==> Waits(o, OldIndex(i, j)))
    {
      GrantKeepsWaits(o, i, j);
    }
    RemovalShape(o.pending, i);
    assert |after.pending| == |o.pending| - 1;
    hide Waits, Granted, RemoveAt;
    if Grants(after, id) {
      var m: nat :| IsFirstReady(after, m) && after.pending[m].id == id;
      assert m >= i;
      forall n | i < n < m + 1 ensures Waits(o, n) {
        assert Waits(after, n - 1);
      }
      assert NextInLine(o, i, m + 1) && o.pending[m + 1].id == id;
    }
    if j: nat :| NextInLine(o, i, j) && o.pending[j].id == id {
      assert IsFirstReady(after, j - 1) && after.pending[j - 1].id == id;
    }
  }

  /** The step grants a ticket, and sleeper `u` is next in line with no notification on its way. */
  ghost predicate PassesOver(s: System, step: Step, u: nat) {
    && step.Try? && step.ticket < |s.tickets| && u < |s.tickets| && Asleep(s.tickets[u]) && s.owing == 0
    && exists i: nat, j: nat ::
         IsFirstReady(s.order, i) && s.order.pending[i].id == s.tickets[step.ticket].entry.id &&
         NextInLine(s.order, i, j) && s.order.pending[j].id == s.tickets[u].entry.id
  }

  predicate IsTicket(s: System, step: Step) { step.Try? && step.ticket < |s.tickets| }

  ghost predicate GrantsBy(s: System, step: Step) {
    IsTicket(s, step) && Grants(s.order, s.tickets[step.ticket].entry.id)
  }

  /** A grant overlooks exactly the sleeper that is next in line. */
  lemma GrantOverlooks(s: System, step: Step, s': System, u: nat)
    requires Queued(s) && Next(s, step, s') && GrantsBy(s, step)
    ensures Overlooked(s', u) <==> PassesOver(s, step, u)
  {
    hide Queued;
    var t := step.ticket;
    var i: nat :| IsFirstReady(s.order, i) && s.order.pending[i].id == s.tickets[t].entry.id && GrantedAt(s, t, i, s');
    if u < |s.tickets| {
      GrantAdvances(s.order, i, s.tickets[u].entry.id);
      FirstReadyUnique(s.order, i);
      hide IsFirstReady, Grants, NextInLine, Granted;
    }
  }

  /** An overlooked sleeper is the first ready ticket, so nobody else can be granted. */
  lemma OverlookedBlocksGrants(s: System, step: Step, s': System, u: nat)
    requires Queued(s) && Next(s, step, s') && Overlooked(s, u)
    ensures !GrantsBy(s, step)
  {
    if GrantsBy(s, step) {
      assert s.tickets[step.ticket].entry.id == step.ticket && s.tickets[u].entry.id == u;
      hide Queued, Waits;
      var i: nat :| IsFirstReady(s.order, i) && s.order.pending[i].id == u;
      FirstReadyUnique(s.order, i);
    }
  }

  /** Any other step leaves a sleeper overlooked exactly if it was and no notification became due. */
  lemma OtherOverlooks(s: System, step: Step, s': System, u: nat)
    requires Queued(s) && Next(s, step, s') && !GrantsBy(s, step)
    ensures Overlooked(s', u) <==> Overlooked(s, u) && s'.owing == 0
  {
    hide Queued, Grants, IsGrant, Normalized;
  }

  /**
   A sleeping first-ready ticket with nothing on its way comes about in one way only: a
   grant passed it over as the next in line, and no notification became due since.
   */
  lemma {:induction false} RunOverlooks(states: seq<System>, steps: seq<Step>, u: nat)
    requires IsRun(states, steps)
    ensures Overlooked(states[|steps|], u) <==>
      exists n :: 0 <= n < |steps| && PassesOver(states[n], steps[n], u) &&
                  forall m :: n < m <= |steps| ==> states[m].owing == 0
    decreases |steps|
  {
    hide Next, PassesOver, Overlooked;
    if steps == [] {
      assert !Overlooked(EMPTY, u) by { NobodyYet(u); }
    } else {
      var n := |steps| - 1;
      var s, s' := states[n], states[n + 1];
      var run, way := states[..|steps|], steps[..n];
      assert IsRun(run, way);
      RunOverlooks(run, way, u);
      RunKeepsInv(run, way);
      assert Queued(s) by { hide Queued, Owned, GrantedInOrder, NoLostWakeup; }
      hide Inv;
      PassingStep(s, steps[n], s', u);
      forall m | 0 <= m < n && PassesOver(states[m], steps[m], u) && forall q :: m < q <= |steps| ==>
        states[q].owing == 0
        ensures Overlooked(s, u) && s'.owing == 0
      {
        assert PassesOver(run[m], way[m], u);
      }
      if Overlooked(s, u) && s'.owing == 0 {
        var m :| 0 <= m < n && PassesOver(run[m], way[m], u) && forall q :: m < q <= n ==> run[q].owing == 0;
        assert PassesOver(states[m], steps[m], u);
        forall q | m < q <= |steps| ensures states[q].owing == 0 {
          assert q <= n ==> run[q].owing == 0;
        }
      }
    }
  }

  lemma NobodyYet(u: nat)
    ensures !Overlooked(EMPTY, u)
  {
  }

  lemma PassingStep(s: System, step: Step, s': System, u: nat)
    requires Queued(s) && Next(s, step, s')
    ensures Overlooked(s', u) <==> PassesOver(s, step, u) || (Overlooked(s, u) && s'.owing == 0)
    ensures PassesOver(s, step, u) ==> s'.owing == 0
  {
    if GrantsBy(s, step) {
      GrantOverlooks(s, step, s', u);
      if Overlooked(s, u) {
        OverlookedBlocksGrants(s, step, s', u);
      }
    } else {
      OtherOverlooks(s, step, s', u);
    }
    hide Queued, Normalized, IsFirstReady, NextInLine;
  }

  /**
   The stronger reading is false: a ticket can sleep as the first ready one while
   nothing is on its way, because acquiring does not notify. The later ticket B finds
   A in front, parks, and A then acquires a disjoint key.
   */
  lemma AcquireOverlooksDisjointTicket() returns (states: seq<System>, steps: seq<Step>)
    ensures IsRun(states, steps) && Overlooked(states[|steps|], 1)
  {
    var a, b := Entry(0, [1], []), Entry(1, [2], []);
    var both := OrderState(2, [a, b], {});
    steps := [Enqueue([1], []), Enqueue([2], []), Notify, Notify, Arm(1), Try(1), Arm(0), Try(0)];
    states := [
      EMPTY,
      System(OrderState(1, [a], {}), [Ticket(a, Outside)], [], 1, []),
      System(both, [Ticket(a, Outside), Ticket(b, Outside)], [], 2, []),
      System(both, [Ticket(a, Outside), Ticket(b, Outside)], [], 1, []),
      System(both, [Ticket(a, Outside), Ticket(b, Outside)], [], 0, []),
      System(both, [Ticket(a, Outside), Ticket(b, Armed(false))], [], 0, []),
      System(both, [Ticket(a, Outside), Ticket(b, Parked(false, false))], [], 0, []),
      System(both, [Ticket(a, Armed(false)), Ticket(b, Parked(false, false))], [], 0, []),
      System(OrderState(2, [b], {1}), [Ticket(a, Acquired), Ticket(b, Parked(false, true))], [], 0, [a])
    ];
    hide Next, Overlooked;
    BothQueued(a, b, states[0], states[1], states[2], states[3], states[4]);
    ParkedBehind(a, b, states[4], states[5], states[6]);
    OverlookedAtLast(a, b, states[6], states[7], states[8]);
  }

  lemma ParkedBehind(a: Entry, b: Entry, s4: System, s5: System, s6: System)
    requires a == Entry(0, [1], []) && b == Entry(1, [2], [])
    requires s4 == System(OrderState(2, [a, b], {}), [Ticket(a, Outside), Ticket(b, Outside)], [], 0, [])
    requires s5 == System(OrderState(2, [a, b], {}), [Ticket(a, Outside), Ticket(b, Armed(false))], [], 0, [])
    requires s6 == System(OrderState(2, [a, b], {}), [Ticket(a, Outside), Ticket(b, Parked(false, false))], [], 0, [])
    ensures Next(s4, Arm(1), s5) && Next(s5, Try(1), s6)
  {
    assert IsFirstReady(s5.order, 0);
    FirstReadyUnique(s5.order, 0);
  }

  lemma BothQueued(a: Entry, b: Entry, s0: System, s1: System, s2: System, s3: System, s4: System)
    requires a == Entry(0, [1], []) && b == Entry(1, [2], []) && s0 == EMPTY
    requires s1 == System(OrderState(1, [a], {}), [Ticket(a, Outside)], [], 1, [])
    requires s2 == System(OrderState(2, [a, b], {}), [Ticket(a, Outside), Ticket(b, Outside)], [], 2, [])
    requires s3 == s2.(owing := 1) && s4 == s2.(owing := 0)
    ensures Next(s0, Enqueue([1], []), s1) && Next(s1, Enqueue([2], []), s2) && Next(s2, Notify, s3) &&
      Next(s3, Notify, s4)
  {
    assert Normalized([1], []) && Normalized([2], []);
  }

  lemma OverlookedAtLast(a: Entry, b: Entry, s6: System, s7: System, s8: System)
    requires a == Entry(0, [1], []) && b == Entry(1, [2], [])
    requires s6 == System(OrderState(2, [a, b], {}), [Ticket(a, Outside), Ticket(b, Parked(false, false))], [], 0, [])
    requires s7 ==
      System(OrderState(2, [a, b], {}), [Ticket(a, Armed(false)), Ticket(b, Parked(false, false))], [], 0, [])
    requires s8 == System(OrderState(2, [b], {1}), [Ticket(a, Acquired), Ticket(b, Parked(false, true))], [], 0, [a])
    ensures Next(s6, Arm(0), s7) && Next(s7, Try(0), s8) && Overlooked(s8, 1)
  {
    assert IsFirstReady(s7.order, 0);
    assert GrantedAt(s7, 0, 0, s8) by {
      assert Granted(s7.order, 0) == s8.order;
    }
    assert IsFirstReady(s8.order, 0);
  }
}
