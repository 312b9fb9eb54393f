/**
 The lock-protected state of the shared receipt tracker. Every method is one
 critical section; answers handed to one-shot channels are returned as `sent`.
 */
module ReceiptTracker {
  import opened Wrappers

  type Hash = nat

  datatype Interest = Interest(receipt: bool, expiresAt: Option<nat>)

  /** Interests by transaction hash, then by registration id. */
  type Pending = map<Hash, map<nat, Interest>>

  datatype Outcome = Included(withReceipt: bool) | Expired | Failed

  datatype Answer = Answer(hash: Hash, id: nat, outcome: Outcome)

  /**
   The tracker's state. Each start of a scanner opens a new channel announcing whether
   observation is ready; the last one is current: unset, ready, or failed.
   */
  datatype Lock = Lock(
    running: bool,
    preparing: nat,
    nextId: nat,
    channels: seq<Option<bool>>,
    pending: Pending)

  ghost predicate In(p: Pending, h: Hash, id: nat) {
    h in p && id in p[h]
  }

  /** Every interest of `q` is one of `p`. */
  ghost predicate Within(q: Pending, p: Pending) {
    forall h: Hash, id: nat :: In(q, h, id) ==> In(p, h, id) && q[h][id] == p[h][id]
  }

  ghost predicate NoEmptyBuckets(p: Pending) {
    forall h :: h in p ==> p[h] != map[]
  }

  /** The interests outside `gone`, without the buckets that become empty. */
  ghost function Keep(p: Pending, gone: set<(Hash, nat)>): Pending {
    map h | h in p && (exists id :: id in p[h] && (h, id) !in gone) ::
      map id | id in p[h] && (h, id) !in gone :: p[h][id]
  }

  /** Interests of the given hashes that a bare inclusion settles. */
  ghost function HashOnly(p: Pending, hashes: seq<Hash>): set<(Hash, nat)> {
    set h, id | h in hashes && h in p && id in p[h] && !p[h][id].receipt :: (h, id)
  }

  ghost function AllOf(p: Pending, hashes: seq<Hash>): set<(Hash, nat)> {
    set h, id | h in hashes && h in p && id in p[h] :: (h, id)
  }

  ghost function Everyone(p: Pending): set<(Hash, nat)> {
    set h, id | h in p && id in p[h] :: (h, id)
  }

  predicate Lapsed(interest: Interest, timestamp: nat) {
    interest.expiresAt.Some? && interest.expiresAt.value <= timestamp
  }

  ghost function LapsedAt(p: Pending, timestamp: nat): set<(Hash, nat)> {
    set h, id | h in p && id in p[h] && Lapsed(p[h][id], timestamp) :: (h, id)
  }

  ghost predicate NeedsReceipts(p: Pending, hashes: seq<Hash>) {
    exists h: Hash, id: nat :: h in hashes && In(p, h, id) && p[h][id].receipt
  }

  /** Exactly the interests in `gone` are answered, each once, all alike. */
  ghost predicate Sends(sent: seq<Answer>, gone: set<(Hash, nat)>, outcome: Outcome) {
    && NoDuplicates(sent)
    && (forall a :: a in sent <==> (a.hash, a.id) in gone && a.outcome == outcome)
  }

  lemma KeepIn(p: Pending, gone: set<(Hash, nat)>)
    ensures NoEmptyBuckets(Keep(p, gone))
    ensures forall h: Hash, id: nat :: In(Keep(p, gone), h, id) <==> In(p, h, id) && (h, id) !in gone
    ensures Within(Keep(p, gone), p)
  {
    forall h | h in Keep(p, gone) ensures Keep(p, gone)[h] != map[] {
      var id :| id in p[h] && (h, id) !in gone;
      assert id in Keep(p, gone)[h];
    }
  }

  /** What settling the interests in `gone` means for each of them and for the others. */
  lemma SettledEach(p: Pending, gone: set<(Hash, nat)>, q: Pending, sent: seq<Answer>, outcome: Outcome)
    requires q == Keep(p, gone) && Sends(sent, gone, outcome) && gone <= Everyone(p)
    ensures forall h, id :: h in p && id in p[h] ==>
      (Answer(h, id, outcome) in sent <==> (h, id) in gone) && ((h in q && id in q[h]) <==> (h, id) !in gone)
    ensures forall h, id :: h in q && id in q[h] ==> h in p && id in p[h] && q[h][id] == p[h][id]
    ensures forall a :: a in sent ==> a.hash in p && a.id in p[a.hash] && a.outcome == outcome
  {
    forall h, id | h in p && id in p[h]
      ensures Answer(h, id, outcome) in sent <==> (h, id) in gone
    {
      var a := Answer(h, id, outcome);
      assert a in sent <==> (a.hash, a.id) in gone && a.outcome == outcome;
    }
    forall a | a in sent ensures a.hash in p && a.id in p[a.hash] && a.outcome == outcome {
      assert (a.hash, a.id) in Everyone(p);
    }
  }

  /** Pendings without empty buckets are equal when they hold the same interests. */
  lemma SameHashes(p: Pending, q: Pending, h: Hash)
    requires NoEmptyBuckets(p) && forall id: nat :: In(p, h, id) ==> In(q, h, id)
    ensures h in p ==> h in q
  {
    if h in p {
      var id :| id in p[h];
      assert In(q, h, id);
    }
  }

  lemma SameBucket(p: Pending, q: Pending, h: Hash)
    requires h in p && h in q && Within(p, q) && forall id: nat :: In(p, h, id) <==> In(q, h, id)
    ensures p[h] == q[h]
  {
    forall id: nat ensures id in p[h] <==> id in q[h] {
      assert In(p, h, id) <==> In(q, h, id);
    }
    forall id | id in p[h] ensures p[h][id] == q[h][id] {
      assert In(p, h, id);
    }
  }

  lemma SameInterests(p: Pending, q: Pending)
    requires NoEmptyBuckets(p) && NoEmptyBuckets(q)
    requires forall h: Hash, id: nat :: In(p, h, id) <==> In(q, h, id)
    requires Within(p, q)
    ensures p == q
  {
    hide In, Within, NoEmptyBuckets;
    forall h ensures h in p <==> h in q {
      SameHashes(p, q, h);
      SameHashes(q, p, h);
    }
    forall h | h in p ensures p[h] == q[h] {
      SameBucket(p, q, h);
    }
  }

  lemma KeepTwice(p: Pending, a: set<(Hash, nat)>, b: set<(Hash, nat)>)
    ensures Keep(Keep(p, a), b) == Keep(p, a + b)
  {
    KeepIn(p, a);
    KeepIn(Keep(p, a), b);
    KeepIn(p, a + b);
    hide Keep, NoEmptyBuckets;
    SameInterests(Keep(Keep(p, a), b), Keep(p, a + b));
  }

  lemma KeepAll(p: Pending)
    requires NoEmptyBuckets(p)
    ensures Keep(p, {}) == p
  {
    KeepIn(p, {});
    hide Keep, NoEmptyBuckets;
    SameInterests(Keep(p, {}), p);
  }

  lemma SendsBoth(s: seq<Answer>, t: seq<Answer>, a: set<(Hash, nat)>, b: set<(Hash, nat)>, outcome: Outcome)
    requires Sends(s, a, outcome) && Sends(t, b, outcome) && a !! b
    ensures Sends(s + t, a + b, outcome)
  {
    forall i, j | 0 <= i < j < |s + t| ensures (s + t)[i] != (s + t)[j] {
      if i < |s| <= j {
        assert s[i] in s && t[j - |s|] in t;
        assert (s[i].hash, s[i].id) in a && (t[j - |s|].hash, t[j - |s|].id) in b;
      }
    }
  }

  function PairsOf(hash: Hash, ids: set<nat>): set<(Hash, nat)> {
    set id | id in ids :: (hash, id)
  }

  /** Waiters that a bare inclusion answers. */
  function BareIds(waiters: map<nat, Interest>): set<nat> {
    set id | id in waiters && !waiters[id].receipt
  }

  predicate WantsReceipt(waiters: map<nat, Interest>) {
    exists id :: id in waiters && waiters[id].receipt
  }

  function LapsedIds(waiters: map<nat, Interest>, timestamp: nat): set<nat> {
    set id | id in waiters && Lapsed(waiters[id], timestamp)
  }

  class Tracker {
    var running: bool
    var preparing: nat
    var nextId: nat
    var channels: seq<Option<bool>>
    var pending: Pending

    ghost function View(): Lock
      reads this
    {
      Lock(running, preparing, nextId, channels, pending)
    }

    ghost predicate Valid()
      reads this
    {
      channels != [] && NoEmptyBuckets(pending)
    }

    constructor ()
      ensures View() == INITIAL && Valid()
    {
      running, preparing, nextId, channels, pending := false, 0, 0, [None], map[];
    }

    /** Count a registration and start a scanner unless one is running. */
    method Prepare() returns (start: bool, channel: nat)
      requires Valid()
      modifies this
      ensures Valid() && start == !old(running)
      ensures View() == Prepared(old(View())) && channel == |channels| - 1
      ensures running && preparing == old(preparing) + 1 && pending == old(pending) && nextId == old(nextId)
      ensures channels == old(channels) + if start then [None] else []
    {
      start := !running;
      if start {
        running := true;
        channels := channels + [None];
      }
      preparing := preparing + 1;
      channel := |channels| - 1;
    }

    /** Refused unless a scanner is running and has announced its baseline. */
    method Register(hash: Hash, interest: Interest) returns (r: Option<nat>)
      requires Valid()
      modifies this
      ensures Valid()
      ensures r.Some? <==> CanRegister(old(View()))
      ensures r.Some? <==> old(running) && old(channels[|channels| - 1]) == Some(true)
      ensures r.Some? ==> r.value == old(nextId) && nextId == old(nextId) + 1
      ensures r.Some? ==> hash in pending && r.value in pending[hash] && pending[hash][r.value] == interest
      ensures forall h, id :: h in old(pending) && id in old(pending)[h] && id != old(nextId) ==>
        h in pending && id in pending[h] && pending[h][id] == old(pending)[h][id]
      ensures forall h, id :: h in pending && id in pending[h] && (h, id) != (hash, old(nextId)) ==>
        h in old(pending) && id in old(pending)[h]
      ensures r.None? ==> View() == old(View())
      ensures r.Some? ==> r.value == old(nextId) && View() == Registered(old(View()), hash, interest)
    {
      if !running || channels[|channels| - 1] != Some(true) {
        return None;
      }
      r := Some(nextId);
      nextId := nextId + 1;
      var waiters: map<nat, Interest> := if hash in pending then pending[hash] else map[];
      waiters := waiters[r.value := interest];
      pending := pending[hash := waiters];
      assert r.value in pending[hash];
    }

    method DropRegistration()
      requires Valid() && preparing > 0
      modifies this
      ensures Valid() && View() == old(View()).(preparing := old(preparing) - 1)
    {
      preparing := preparing - 1;
    }

    /** Take `ids` out of a bucket, answer them, and forget the bucket when it is empty. */
    method Settle(hash: Hash, ids: set<nat>, outcome: Outcome) returns (sent: seq<Answer>)
      requires Valid() && hash in pending && ids <= pending[hash].Keys
      modifies this
      ensures Valid()
      ensures View() == old(View()).(pending := Keep(old(pending), PairsOf(hash, ids)))
      ensures Sends(sent, PairsOf(hash, ids), outcome)
    {
      ghost var p := pending;
      var waiters := pending[hash];
      var left := ids;
      sent := [];
      while left != {}
        invariant left <= ids && View() == old(View())
        invariant waiters == p[hash] - (ids - left)
        invariant Sends(sent, PairsOf(hash, ids - left), outcome)
      {
        var id :| id in left;
        waiters := waiters - {id};
        SendsBoth(sent, [Answer(hash, id, outcome)], PairsOf(hash, ids - left), {(hash, id)}, outcome);
        assert PairsOf(hash, ids - (left - {id})) == PairsOf(hash, ids - left) + {(hash, id)};
        sent := sent + [Answer(hash, id, outcome)];
        left := left - {id};
      }
      assert ids - left == ids;
      if waiters == map[] {
        pending := pending - {hash};
      } else {
        pending := pending[hash := waiters];
      }
      SettledBucket(p, hash, ids, waiters, pending);
    }

    /** A dropped waiter removes its own interest and no other. */
    method DropWaiter(hash: Hash, id: nat)
      requires Valid()
      modifies this
      ensures Valid() && View() == old(View()).(pending := Keep(old(pending), {(hash, id)}))
    {
      ghost var p := pending;
      KeepIn(p, {(hash, id)});
      if hash in pending {
        var waiters := pending[hash] - {id};
        if waiters == map[] {
          pending := pending - {hash};
        } else {
          pending := pending[hash := waiters];
        }
      }
      DroppedWaiter(p, hash, id, pending);
    }

    /** Stop under the registration lock: only when nobody waits and nobody prepares. */
    method StopIfIdle() returns (stopped: bool)
      modifies this
      ensures stopped <==> old(pending) == map[] && old(preparing) == 0
      ensures View() == old(View()).(running := old(running) && !stopped)
    {
      if pending == map[] && preparing == 0 {
        running := false;
        return true;
      }
      return false;
    }

    /** Answer every interest in the hashes for which there is a receipt. */
    method Dispatch(receipts: seq<Hash>) returns (sent: seq<Answer>)
      requires Valid()
      modifies this
      ensures Valid()
      ensures View() == old(View()).(pending := Keep(old(pending), AllOf(old(pending), receipts)))
      ensures Sends(sent, AllOf(old(pending), receipts), Included(true))
      ensures forall h, id :: h in old(pending) && id in old(pending)[h] ==>
        && (Answer(h, id, Included(true)) in sent <==> h in receipts)
        && ((h in pending && id in pending[h]) <==> h !in receipts)
      ensures forall h, id :: h in pending && id in pending[h] ==>
        h in old(pending) && id in old(pending)[h] && pending[h][id] == old(pending)[h][id]
      ensures forall a :: a in sent ==> a.hash in old(pending) && a.id in old(pending)[a.hash] && a.outcome.Included?
    {
      ghost var p := pending;
      MembersOfAll(p, receipts);
      KeepAll(p);
      assert AllOf(p, receipts[..0]) == {};
      hide AllOf, Keep;
      sent := [];
      for i := 0 to |receipts|
        invariant Valid()
        invariant View() == old(View()).(pending := Keep(p, AllOf(p, receipts[..i])))
        invariant Sends(sent, AllOf(p, receipts[..i]), Included(true))
      {
        var hash := receipts[i];
        ghost var before := AllOf(p, receipts[..i]);
        KeepIn(p, before);
        if hash in pending {
          var ids := pending[hash].Keys;
          NextAllOf(p, receipts, i, pending);
          var more := Settle(hash, ids, Included(true));
          KeepTwice(p, before, PairsOf(hash, ids));
          SendsBoth(sent, more, before, PairsOf(hash, ids), Included(true));
          sent := sent + more;
        } else {
          NextAllOf(p, receipts, i, pending);
          assert AllOf(p, receipts[..i + 1]) == before;
        }
      }
      assert receipts[..|receipts|] == receipts;
      SettledEach(p, AllOf(p, receipts), pending, sent, Included(true));
    }

    /** Answer hash-only interests of a block, and report whether its receipts are needed. */
    method DispatchHashes(hashes: seq<Hash>) returns (needsReceipts: bool, sent: seq<Answer>)
      requires Valid()
      modifies this
      ensures Valid()
      ensures View() == old(View()).(pending := Keep(old(pending), HashOnly(old(pending), hashes)))
      ensures Sends(sent, HashOnly(old(pending), hashes), Included(false))
      ensures needsReceipts <==> NeedsReceipts(old(pending), hashes)
      ensures needsReceipts <==>
        exists h, id :: h in hashes && h in old(pending) && id in old(pending)[h] && old(pending)[h][id].receipt
      ensures forall h, id :: h in old(pending) && id in old(pending)[h] ==>
        var bare := h in hashes && !old(pending)[h][id].receipt;
        (Answer(h, id, Included(false)) in sent <==> bare) && ((h in pending && id in pending[h]) <==> !bare)
      ensures forall h, id :: h in pending && id in pending[h] ==>
        h in old(pending) && id in old(pending)[h] && pending[h][id] == old(pending)[h][id]
      ensures forall a :: a in sent ==>
        a.hash in old(pending) && a.id in old(pending)[a.hash] && a.outcome == Included(false)
    {
      ghost var p := pending;
      MembersOfBare(p, hashes);
      KeepAll(p);
      assert HashOnly(p, hashes[..0]) == {};
      assert !NeedsReceipts(p, hashes[..0]);
      hide HashOnly, NeedsReceipts, Keep, WantsReceipt;
      needsReceipts, sent := false, [];
      for i := 0 to |hashes|
        invariant Valid()
        invariant View() == old(View()).(pending := Keep(p, HashOnly(p, hashes[..i])))
        invariant Sends(sent, HashOnly(p, hashes[..i]), Included(false))
        invariant needsReceipts <==> NeedsReceipts(p, hashes[..i])
      {
        var hash := hashes[i];
        ghost var before := HashOnly(p, hashes[..i]);
        KeepIn(p, before);
        NextHash(p, hashes, i, pending);
        NextNeeds(p, hashes, i, pending);
        if hash in pending {
          var waiters := pending[hash];
          needsReceipts := needsReceipts || WantsReceipt(waiters);
          var ids := BareIds(waiters);
          var more := Settle(hash, ids, Included(false));
          KeepTwice(p, before, PairsOf(hash, ids));
          SendsBoth(sent, more, before, PairsOf(hash, ids), Included(false));
          assert HashOnly(p, hashes[..i + 1]) == before + PairsOf(hash, ids);
          sent := sent + more;
        } else {
          assert HashOnly(p, hashes[..i + 1]) == before + PairsOf(hash, {}) == before;
        }
      }
      assert hashes[..|hashes|] == hashes;
      SettledEach(p, HashOnly(p, hashes), pending, sent, Included(false));
    }

    /** Answer every interest whose expiry is not after `timestamp`. */
    method Expire(timestamp: nat) returns (sent: seq<Answer>)
      requires Valid()
      modifies this
      ensures Valid()
      ensures View() == old(View()).(pending := Keep(old(pending), LapsedAt(old(pending), timestamp)))
      ensures Sends(sent, LapsedAt(old(pending), timestamp), Expired)
      ensures forall h, id :: h in old(pending) && id in old(pending)[h] ==>
        var expiry := old(pending)[h][id].expiresAt;
        var due := expiry.Some? && expiry.value <= timestamp;
        (Answer(h, id, Expired) in sent <==> due) && ((h in pending && id in pending[h]) <==> !due)
      ensures forall h, id :: h in pending && id in pending[h] ==>
        h in old(pending) && id in old(pending)[h] && pending[h][id] == old(pending)[h][id]
      ensures forall a :: a in sent ==> a.hash in old(pending) && a.id in old(pending)[a.hash] && a.outcome == Expired
    {
      ghost var p := pending;
      MembersOfLapsed(p, timestamp);
      KeepAll(p);
      sent := [];
      var todo := pending.Keys;
      assert Lapsing(p, timestamp, p.Keys - todo) == {};
      while todo != {}
        invariant Valid() && todo <= p.Keys
        invariant View() == old(View()).(pending := Keep(p, Lapsing(p, timestamp, p.Keys - todo)))
        invariant Sends(sent, Lapsing(p, timestamp, p.Keys - todo), Expired)
        decreases |todo|
      {
        var hash :| hash in todo;
        ghost var before := Lapsing(p, timestamp, p.Keys - todo);
        KeepIn(p, before);
        NextLapsing(p, timestamp, todo, hash, pending);
        var ids := LapsedIds(pending[hash], timestamp);
        var more := Settle(hash, ids, Expired);
        KeepTwice(p, before, PairsOf(hash, ids));
        SendsBoth(sent, more, before, PairsOf(hash, ids), Expired);
        sent := sent + more;
        todo := todo - {hash};
      }
      assert Lapsing(p, timestamp, p.Keys) == LapsedAt(p, timestamp);
      assert p.Keys - {} == p.Keys;
      SettledEach(p, LapsedAt(p, timestamp), pending, sent, Expired);
    }

    /** Announce that observation is impossible and fail every interest. */
    method Shutdown() returns (sent: seq<Answer>)
      requires Valid()
      modifies this
      ensures Valid()
      ensures View() == ShutDown(old(View())) && Sends(sent, Everyone(old(pending)), Failed)
      ensures !running && pending == map[] && channels == old(channels)[|old(channels)| - 1 := Some(false)]
      ensures forall h, id :: h in old(pending) && id in old(pending)[h] ==> Answer(h, id, Failed) in sent
    {
      ghost var p := pending;
      KeepAll(p);
      channels := channels[|channels| - 1 := Some(false)];
      sent := [];
      ghost var gone: set<(Hash, nat)> := {};
      while pending != map[]
        invariant Valid() && gone <= Everyone(p)
        invariant View() == old(View()).(channels := ShutDown(old(View())).channels, pending := Keep(p, gone))
        invariant Sends(sent, gone, Failed)
        decreases pending.Keys
      {
        var hash :| hash in pending;
        var ids := pending[hash].Keys;
        ghost var q := pending;
        NextFailed(p, gone, hash, ids);
        var more := Settle(hash, ids, Failed);
        KeepTwice(p, gone, PairsOf(hash, ids));
        SendsBoth(sent, more, gone, PairsOf(hash, ids), Failed);
        sent := sent + more;
        gone := gone + PairsOf(hash, ids);
        assert pending.Keys <= q.Keys - {hash};
      }
      AllFailed(p, gone);
      running := false;
    }
  }

  lemma MembersOfAll(p: Pending, hashes: seq<Hash>)
    ensures AllOf(p, hashes) <= Everyone(p)
    ensures forall h, id :: (h, id) in AllOf(p, hashes) <==> h in hashes && h in p && id in p[h]
  {
  }

  lemma MembersOfBare(p: Pending, hashes: seq<Hash>)
    ensures HashOnly(p, hashes) <= Everyone(p)
    ensures forall h, id :: (h, id) in HashOnly(p, hashes) <==> h in hashes && h in p && id in p[h] && !p[h][id].receipt
    ensures NeedsReceipts(p, hashes) <==> exists h, id :: h in hashes && h in p && id in p[h] && p[h][id].receipt
  {
    forall h, id | h in hashes && h in p && id in p[h] && p[h][id].receipt ensures NeedsReceipts(p, hashes) {
      assert In(p, h, id);
    }
  }

  lemma MembersOfLapsed(p: Pending, timestamp: nat)
    ensures LapsedAt(p, timestamp) <= Everyone(p)
    ensures forall h, id :: (h, id) in LapsedAt(p, timestamp) <==>
      h in p && id in p[h] && p[h][id].expiresAt.Some? && p[h][id].expiresAt.value <= timestamp
  {
  }

  const INITIAL := Lock(false, 0, 0, [None], map[])

  function Prepared(l: Lock): Lock {
    l.(running := true, preparing := l.preparing + 1, channels := if l.running then l.channels else l.channels + [None])
  }

  predicate CanRegister(l: Lock)
    requires l.channels != []
  {
    l.running && l.channels[|l.channels| - 1] == Some(true)
  }

  function Bucket(p: Pending, hash: Hash): map<nat, Interest> {
    if hash in p then p[hash] else map[]
  }

  function Registered(l: Lock, hash: Hash, interest: Interest): Lock {
    l.(nextId := l.nextId + 1, pending := l.pending[hash := Bucket(l.pending, hash)[l.nextId := interest]])
  }

  predicate IsIdle(l: Lock) {
    l.pending == map[] && l.preparing == 0
  }

  function ShutDown(l: Lock): Lock
    requires l.channels != []
  {
    l.(running := false, channels := l.channels[|l.channels| - 1 := Some(false)], pending := map[])
  }

  lemma SettledBucket(p: Pending, hash: Hash, ids: set<nat>, waiters: map<nat, Interest>, q: Pending)
    requires NoEmptyBuckets(p) && hash in p && waiters == p[hash] - ids
    requires q == if waiters == map[] then p - {hash} else p[hash := waiters]
    ensures q == Keep(p, PairsOf(hash, ids)) && NoEmptyBuckets(q)
  {
    KeepIn(p, PairsOf(hash, ids));
    hide Keep;
    forall h: Hash, id: nat ensures In(q, h, id) <==> In(p, h, id) && (h, id) !in PairsOf(hash, ids) {
      if h == hash {
        assert id in waiters <==> id in p[hash] && id !in ids;
        assert waiters == map[] ==> id !in waiters;
      }
    }
    SameInterests(q, Keep(p, PairsOf(hash, ids)));
  }

  lemma DroppedWaiter(p: Pending, hash: Hash, id: nat, q: Pending)
    requires NoEmptyBuckets(p)
    requires hash !in p ==> q == p
    requires hash in p ==> q == if p[hash] - {id} == map[] then p - {hash} else p[hash := p[hash] - {id}]
    ensures q == Keep(p, {(hash, id)}) && NoEmptyBuckets(q)
  {
    if hash in p {
      SettledBucket(p, hash, {id}, p[hash] - {id}, q);
      assert PairsOf(hash, {id}) == {(hash, id)};
    } else {
      KeepIn(p, {(hash, id)});
      hide Keep;
      SameInterests(q, Keep(p, {(hash, id)}));
    }
  }

  lemma NextAllOf(p: Pending, hashes: seq<Hash>, i: nat, q: Pending)
    requires i < |hashes| && NoEmptyBuckets(q)
    requires forall h: Hash, id: nat :: In(q, h, id) <==> In(p, h, id) && (h, id) !in AllOf(p, hashes[..i])
    ensures var ids := if hashes[i] in q then q[hashes[i]].Keys else {};
      AllOf(p, hashes[..i + 1]) == AllOf(p, hashes[..i]) + PairsOf(hashes[i], ids)
      && AllOf(p, hashes[..i]) !! PairsOf(hashes[i], ids)
  {
    var ids := if hashes[i] in q then q[hashes[i]].Keys else {};
    assert hashes[..i + 1] == hashes[..i] + [hashes[i]];
    forall id: nat ensures id in ids <==> In(q, hashes[i], id) {
    }
  }

  lemma NextHash(p: Pending, hashes: seq<Hash>, i: nat, q: Pending)
    requires i < |hashes| && NoEmptyBuckets(q) && Within(q, p)
    requires forall h: Hash, id: nat :: In(q, h, id) <==> In(p, h, id) && (h, id) !in HashOnly(p, hashes[..i])
    ensures var ids := if hashes[i] in q then BareIds(q[hashes[i]]) else {};
      HashOnly(p, hashes[..i + 1]) == HashOnly(p, hashes[..i]) + PairsOf(hashes[i], ids)
      && HashOnly(p, hashes[..i]) !! PairsOf(hashes[i], ids)
  {
    var h := hashes[i];
    var ids := if h in q then BareIds(q[h]) else {};
    forall id: nat ensures id in ids <==> In(q, h, id) && !p[h][id].receipt {
    }
    hide NoEmptyBuckets, Within, BareIds;
    assert hashes[..i + 1] == hashes[..i] + [h];
    forall g: Hash, id: nat
      ensures (g, id) in HashOnly(p, hashes[..i + 1]) <==>
              (g, id) in HashOnly(p, hashes[..i]) || (g == h && id in ids)
    {
    }
    assert forall g: Hash, id: nat :: (g, id) in PairsOf(h, ids) <==> g == h && id in ids;
    hide PairsOf;
  }

  lemma NextNeeds(p: Pending, hashes: seq<Hash>, i: nat, q: Pending)
    requires i < |hashes| && NoEmptyBuckets(q) && Within(q, p)
    requires forall h: Hash, id: nat :: In(q, h, id) <==> In(p, h, id) && (h, id) !in HashOnly(p, hashes[..i])
    ensures NeedsReceipts(p, hashes[..i + 1]) <==>
      (NeedsReceipts(p, hashes[..i]) || (hashes[i] in q && WantsReceipt(q[hashes[i]])))
  {
    var h := hashes[i];
    assert hashes[..i + 1] == hashes[..i] + [h];
    forall id: nat ensures In(p, h, id) && p[h][id].receipt <==> In(q, h, id) && q[h][id].receipt {
    }
    hide HashOnly;
    if h in q && WantsReceipt(q[h]) {
      var id :| id in q[h] && q[h][id].receipt;
      assert In(q, h, id);
    }
  }

  lemma NextFailed(p: Pending, gone: set<(Hash, nat)>, hash: Hash, ids: set<nat>)
    requires hash in Keep(p, gone) && ids == Keep(p, gone)[hash].Keys
    ensures PairsOf(hash, ids) !! gone && PairsOf(hash, ids) <= Everyone(p)
    ensures Keep(Keep(p, gone), PairsOf(hash, ids)).Keys <= Keep(p, gone).Keys - {hash}
  {
  }

  lemma AllFailed(p: Pending, gone: set<(Hash, nat)>)
    requires gone <= Everyone(p) && Keep(p, gone) == map[]
    ensures gone == Everyone(p)
  {
    KeepIn(p, gone);
    forall h: Hash, id: nat | (h, id) in Everyone(p) ensures (h, id) in gone {
      assert !In(Keep(p, gone), h, id);
    }
  }

  ghost function Lapsing(p: Pending, timestamp: nat, hashes: set<Hash>): set<(Hash, nat)> {
    set h, id | h in hashes && h in p && id in p[h] && Lapsed(p[h][id], timestamp) :: (h, id)
  }

  lemma NextLapsing(p: Pending, timestamp: nat, todo: set<Hash>, hash: Hash, q: Pending)
    requires NoEmptyBuckets(p) && NoEmptyBuckets(q) && todo <= p.Keys && hash in todo
    requires forall h: Hash, id: nat :: In(q, h, id) <==>
      In(p, h, id) && (h, id) !in Lapsing(p, timestamp, p.Keys - todo)
    requires Within(q, p)
    ensures hash in q
    ensures var ids := LapsedIds(q[hash], timestamp);
      Lapsing(p, timestamp, p.Keys - (todo - {hash})) == Lapsing(p, timestamp, p.Keys - todo) + PairsOf(hash, ids)
      && Lapsing(p, timestamp, p.Keys - todo) !! PairsOf(hash, ids)
  {
    var done := p.Keys - todo;
    forall id: nat ensures In(q, hash, id) <==> In(p, hash, id) {
    }
    assert hash in q by {
      var some :| some in p[hash];
      assert In(q, hash, some);
    }
    assert p.Keys - (todo - {hash}) == done + {hash};
    hide NoEmptyBuckets;
    LapsingBoth(p, timestamp, done, hash);
    assert LapsedIds(q[hash], timestamp) == LapsedIds(p[hash], timestamp) by {
      forall id: nat ensures id in q[hash] <==> id in p[hash] {
        assert In(q, hash, id) <==> In(p, hash, id);
      }
      forall id | id in q[hash] ensures q[hash][id] == p[hash][id] {
        assert In(q, hash, id);
      }
    }
  }

  lemma LapsingBoth(p: Pending, timestamp: nat, done: set<Hash>, hash: Hash)
    requires hash in p && hash !in done
    ensures var ids := LapsedIds(p[hash], timestamp);
      && Lapsing(p, timestamp, done + {hash}) == Lapsing(p, timestamp, done) + PairsOf(hash, ids)
      && Lapsing(p, timestamp, done) !! PairsOf(hash, ids)
  {
  }
}
