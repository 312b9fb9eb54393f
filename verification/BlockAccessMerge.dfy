/**
 The merge of a run of blocks' access lists: sorting, the form required by EIP-7928,
 and the meaning of a lookup in the merged list.
 */
module BlockAccessMerge {
  import opened Wrappers
  import opened BlockAccessLists

  // ----------------------------------------------------------------- sorting

  ghost predicate SortedBy<T(!new)>(s: seq<T>, key: T -> nat) {
    forall i, j :: 0 <= i < j < |s| ==> key(s[i]) <= key(s[j])
  }

  ghost predicate DistinctBy<T(!new)>(s: seq<T>, key: T -> nat) {
    forall i, j :: 0 <= i < j < |s| ==> key(s[i]) != key(s[j])
  }

  ghost predicate StrictBy<T(!new)>(s: seq<T>, key: T -> nat) {
    forall i, j :: 0 <= i < j < |s| ==> key(s[i]) < key(s[j])
  }

  ghost predicate InsertedAt<T(!new)>(r: seq<T>, x: T, key: T -> nat, at: nat, q: seq<T>) {
    && at <= |r| && q == r[..at] + [x] + r[at..]
    && (forall k :: 0 <= k < at ==> key(r[k]) <= key(x))
    && (forall k :: at <= k < |r| ==> key(r[k]) > key(x))
  }

  method InsertByKey<T(!new)>(r: seq<T>, x: T, key: T -> nat) returns (q: seq<T>)
    requires SortedBy(r, key)
    ensures exists at: nat :: InsertedAt(r, x, key, at, q)
  {
    var i: nat := |r|;
    while i > 0 && key(r[i - 1]) > key(x)
      invariant i <= |r| && forall k :: i <= k < |r| ==> key(r[k]) > key(x)
    {
      i := i - 1;
    }
    q := r[..i] + [x] + r[i..];
    assert InsertedAt(r, x, key, i, q);
  }

  lemma Inserted<T(!new)>(r: seq<T>, x: T, key: T -> nat, at: nat, q: seq<T>)
    requires SortedBy(r, key) && InsertedAt(r, x, key, at, q)
    ensures SortedBy(q, key) && forall y :: y in q <==> y in r || y == x
    ensures StrictBy(r, key) && (forall y :: y in r ==> key(y) != key(x)) ==> StrictBy(q, key)
    ensures (forall y :: y in r ==> key(y) < key(x)) ==> q == r + [x]
  {
    assert r == r[..at] + r[at..];
    forall i, j | 0 <= i < j < |q| ensures key(q[i]) <= key(q[j]) {
      InsertedPair(r, x, key, at, q, i, j);
    }
    if StrictBy(r, key) && forall y :: y in r ==> key(y) != key(x) {
      forall i, j | 0 <= i < j < |q| ensures key(q[i]) < key(q[j]) {
        InsertedPair(r, x, key, at, q, i, j);
      }
    }
    assert at < |r| ==> r[at] in r;
  }

  lemma InsertedPair<T(!new)>(r: seq<T>, x: T, key: T -> nat, at: nat, q: seq<T>, i: int, j: int)
    requires SortedBy(r, key) && InsertedAt(r, x, key, at, q) && 0 <= i < j < |q|
    ensures key(q[i]) <= key(q[j])
    ensures StrictBy(r, key) && (forall y :: y in r ==> key(y) != key(x)) ==> key(q[i]) < key(q[j])
  {
    var a := if i < at then i else i - 1;
    var b := if j < at then j else j - 1;
    if i == at {
      assert q[i] == x && q[j] == r[b];
    } else if j == at {
      assert q[j] == x && q[i] == r[a] && r[a] in r;
    } else {
      assert q[i] == r[a] && q[j] == r[b];
    }
  }

  lemma InsertedBag<T>(r: seq<T>, x: T, at: nat)
    requires at <= |r|
    ensures multiset(r[..at] + [x] + r[at..]) == multiset(r + [x])
  {
    assert r == r[..at] + r[at..];
  }

  lemma NewKey<T(!new)>(s: seq<T>, key: T -> nat, i: nat, r: seq<T>)
    requires i < |s| && forall x :: x in r <==> x in s[..i]
    ensures DistinctBy(s, key) ==> forall y :: y in r ==> key(y) != key(s[i])
    ensures StrictBy(s, key) ==> forall y :: y in r ==> key(y) < key(s[i])
  {
  }

  /** `r` is the sorted first `i` elements of `s`. */
  ghost predicate SortedPrefix<T(!new)>(s: seq<T>, key: T -> nat, i: nat, r: seq<T>)
    requires i <= |s|
  {
    && multiset(r) == multiset(s[..i]) && SortedBy(r, key)
    && (forall x :: x in r <==> x in s[..i])
    && (DistinctBy(s, key) ==> StrictBy(r, key))
    && (StrictBy(s, key) ==> r == s[..i])
  }

  lemma SortedMore<T(!new)>(s: seq<T>, key: T -> nat, i: nat, r: seq<T>, at: nat, q: seq<T>)
    requires i < |s| && SortedPrefix(s, key, i, r) && InsertedAt(r, s[i], key, at, q)
    ensures SortedPrefix(s, key, i + 1, q)
  {
    hide SortedBy, DistinctBy, StrictBy;
    InsertedBag(r, s[i], at);
    assert s[..i + 1] == s[..i] + [s[i]];
    assert multiset(q) == multiset(s[..i + 1]) by {
      assert q == r[..at] + [s[i]] + r[at..];
    }
    hide InsertedAt;
    Inserted(r, s[i], key, at, q);
    NewKey(s, key, i, r);
  }

  /** The library's sort by key: a sorted permutation, unique when the keys are. */
  method SortByKey<T(!new)>(s: seq<T>, key: T -> nat) returns (r: seq<T>)
    ensures multiset(r) == multiset(s) && SortedBy(r, key)
    ensures forall x :: x in r <==> x in s
    ensures DistinctBy(s, key) ==> StrictBy(r, key)
    ensures StrictBy(s, key) ==> r == s
  {
    r := [];
    for i := 0 to |s|
      invariant SortedPrefix(s, key, i, r)
    {
      var q := InsertByKey(r, s[i], key);
      ghost var at: nat :| InsertedAt(r, s[i], key, at, q);
      hide SortedPrefix;
      SortedMore(s, key, i, r, at, q);
      r := q;
    }
    assert s[..|s|] == s;
  }

  function SlotKey(e: SlotChanges): nat { e.slot }
  function IndexKey(c: Change): nat { c.index }
  function AddressKey(a: AccountChanges): nat { a.address }
  function Itself(slot: nat): nat { slot }

  // ------------------------------------------------------------------- form

  /** Strictly increasing indexes below `bound`. */
  ghost predicate Increasing(changes: seq<Change>, bound: nat) {
    StrictBy(changes, IndexKey) && forall c :: c in changes ==> c.index < bound
  }

  ghost predicate WellFormedAccount(a: AccountChanges, bound: nat) {
    && StrictBy(a.storageChanges, SlotKey)
    && (forall e :: e in a.storageChanges ==> e.changes != [] && Increasing(e.changes, bound))
    && StrictBy(a.storageReads, Itself)
    && (forall slot :: slot in a.storageReads ==> slot !in Written(a.storageChanges))
    && Increasing(a.balanceChanges, bound) && Increasing(a.nonceChanges, bound) && Increasing(a.codeChanges, bound)
  }

  /** Sections "Ordering, Uniqueness and Determinism" and "BlockAccessIndex Assignment" of EIP-7928. */
  ghost predicate WellFormed(list: AccessList, bound: nat) {
    StrictBy(list, AddressKey) && forall a :: a in list ==> WellFormedAccount(a, bound)
  }

  // ----------------------------------------------------------------- meaning

  /** The first merged index of block `b`: each earlier block takes its transactions and two more. */
  function Start(counts: seq<nat>, b: nat): nat
    requires b <= |counts|
  {
    if b == 0 then 0 else Start(counts, b - 1) + counts[b - 1] + 2
  }

  function ListAt(lists: seq<Option<AccessList>>, b: nat): AccessList
    requires b < |lists|
  {
    if lists[b].Some? then lists[b].value else []
  }

  /** Indexes run from pre-execution 0 to post-execution `count + 1`. */
  ghost predicate BlocksWellFormed(counts: seq<nat>, lists: seq<Option<AccessList>>, n: nat) {
    && n <= |counts| && n <= |lists|
    && forall b: nat :: b < n ==> WellFormed(ListAt(lists, b), counts[b] + 2)
  }

  /** The changes of all blocks in order, each moved to its block's range. */
  function WalkLog(counts: seq<nat>, lists: seq<Option<AccessList>>, n: nat, address: nat, field: Field): seq<Change>
    requires n <= |counts| && n <= |lists|
  {
    if n == 0 then []
    else
      WalkLog(counts, lists, n - 1, address, field) +
      Shift(Log(ListAt(lists, n - 1), address, field), Start(counts, n - 1))
  }

  ghost function AllWritten(lists: seq<Option<AccessList>>, n: nat, address: nat): set<nat>
    requires n <= |lists|
  {
    if n == 0 then {} else AllWritten(lists, n - 1, address) + WrittenOf(ListAt(lists, n - 1), address)
  }

  ghost function AllReads(lists: seq<Option<AccessList>>, n: nat, address: nat): set<nat>
    requires n <= |lists|
  {
    if n == 0 then {} else AllReads(lists, n - 1, address) + ReadsOf(ListAt(lists, n - 1), address)
  }

  function AllAddresses(lists: seq<Option<AccessList>>, n: nat): set<nat>
    requires n <= |lists|
  {
    if n == 0 then {} else AllAddresses(lists, n - 1) + Addresses(ListAt(lists, n - 1))
  }

  /** The merged list of the first `n` blocks: all their changes, addresses and unshadowed reads. */
  ghost predicate Holds(counts: seq<nat>, lists: seq<Option<AccessList>>, n: nat, list: AccessList)
    requires n <= |counts| && n <= |lists|
  {
    && (forall address, field :: Log(list, address, field) == WalkLog(counts, lists, n, address, field))
    && (forall address :: WrittenOf(list, address) == AllWritten(lists, n, address))
    && Addresses(list) == AllAddresses(lists, n)
  }

  ghost predicate HoldsReads(lists: seq<Option<AccessList>>, n: nat, list: AccessList)
    requires n <= |lists|
  {
    forall address :: ReadsOf(list, address) == AllReads(lists, n, address) - AllWritten(lists, n, address)
  }

  /** The last value written at or before `index`. */
  function At(changes: seq<Change>, index: nat): Option<Value> {
    if changes == [] then None
    else
      var last := changes[|changes| - 1];
      if last.index <= index then Some(last.value) else At(changes[..|changes| - 1], index)
  }

  /** The value seen at position `j` of block `b` by executing the blocks in order, if any block wrote it. */
  function Walk(counts: seq<nat>, lists: seq<Option<AccessList>>, b: nat, j: nat, address: nat,
                field: Field): Option<Value>
    requires b < |counts| && b < |lists|
    decreases b
  {
    var here := At(Log(ListAt(lists, b), address, field), j);
    if here.Some? then here
    else if b == 0 then None
    else Walk(counts, lists, b - 1, counts[b - 1] + 1, address, field)
  }

  // ------------------------------------------------------- sorting an account

  lemma {:induction false} OnlySlotLog(slots: seq<SlotChanges>, e: SlotChanges)
    requires DistinctSlots(slots) && e in slots
    ensures SlotLog(slots, e.slot) == e.changes
  {
    var n := |slots| - 1;
    if slots[n] == e {
      NoSlotLog(slots[..n], e.slot);
    } else {
      var k :| 0 <= k < |slots| && slots[k] == e;
      assert slots[..n][k] == e;
      OnlySlotLog(slots[..n], e);
    }
  }

  lemma {:induction false} NoSlotLog(slots: seq<SlotChanges>, slot: nat)
    requires forall e :: e in slots ==> e.slot != slot
    ensures SlotLog(slots, slot) == []
  {
    if slots != [] {
      NoSlotLog(slots[..|slots| - 1], slot);
      assert slots[|slots| - 1] in slots;
    }
  }

  /** Reordering slots listed once changes no slot's log. */
  lemma ReorderedSlots(slots: seq<SlotChanges>, r: seq<SlotChanges>, slot: nat)
    requires DistinctSlots(slots) && DistinctSlots(r) && forall e :: e in r <==> e in slots
    ensures SlotLog(r, slot) == SlotLog(slots, slot)
  {
    if e :| e in slots && e.slot == slot {
      OnlySlotLog(slots, e);
      OnlySlotLog(r, e);
    } else {
      NoSlotLog(slots, slot);
      NoSlotLog(r, slot);
    }
  }

  /** Every log of the account increases, so sorting by index leaves it alone. */
  ghost predicate Ordered(a: AccountChanges, bound: nat) {
    forall field :: Increasing(FieldLog(a, field), bound)
  }

  /** The same changes in order of their index. */
  ghost predicate SortedLog(log: seq<Change>, r: seq<Change>) {
    multiset(r) == multiset(log) && SortedBy(r, IndexKey)
  }

  /** The entries in order of their slot (`between`), then each entry's changes in order. */
  ghost predicate SortedSlots(slots: seq<SlotChanges>, between: seq<SlotChanges>, r: seq<SlotChanges>) {
    && multiset(between) == multiset(slots) && SortedBy(between, SlotKey) && |r| == |between|
    && forall k :: 0 <= k < |r| ==> r[k].slot == between[k].slot && SortedLog(between[k].changes, r[k].changes)
  }

  /** Whatever the account holds, sorting loses and adds nothing and puts every list in order. */
  ghost predicate Rearranged(a: AccountChanges, r: AccountChanges) {
    && (exists between :: SortedSlots(a.storageChanges, between, r.storageChanges))
    && multiset(r.storageReads) == multiset(a.storageReads) && SortedBy(r.storageReads, Itself)
    && SortedLog(a.balanceChanges, r.balanceChanges) && SortedLog(a.nonceChanges, r.nonceChanges)
    && SortedLog(a.codeChanges, r.codeChanges)
  }

  method SortAccountChanges(a: AccountChanges, ghost bound: nat) returns (r: AccountChanges)
    ensures r.address == a.address && Rearranged(a, r)
    ensures Tidy(a) && Ordered(a, bound) ==> SortedAccount(a, bound, r)
  {
    var slots := SortByKey(a.storageChanges, SlotKey);
    ghost var before := slots;
    for i := 0 to |slots|
      invariant |slots| == |before| && forall k :: 0 <= k < |slots| ==> slots[k].slot == before[k].slot
      invariant forall k :: i <= k < |slots| ==> slots[k] == before[k]
      invariant forall k :: 0 <= k < i ==> SortedLog(before[k].changes, slots[k].changes)
      invariant forall k :: 0 <= k < i && StrictBy(before[k].changes, IndexKey) ==> slots[k] == before[k]
    {
      var changes := SortByKey(slots[i].changes, IndexKey);
      slots := slots[i := slots[i].(changes := changes)];
    }
    var readSlots := SortByKey(a.storageReads, Itself);
    var balances := SortByKey(a.balanceChanges, IndexKey);
    var nonces := SortByKey(a.nonceChanges, IndexKey);
    var codes := SortByKey(a.codeChanges, IndexKey);
    r := AccountChanges(a.address, slots, readSlots, balances, nonces, codes);
    assert SortedSlots(a.storageChanges, before, slots);
    if Tidy(a) && Ordered(a, bound) {
      OrderedSlots(a, bound);
      forall k | 0 <= k < |slots| ensures slots[k] == before[k] {
        assert before[k] in a.storageChanges;
      }
      assert slots == before;
      OrderedFields(a, bound);
      SortedIsSorted(a, bound, r);
    }
  }

  /** The sorted account is well formed and says what it said before. */
  ghost predicate SortedAccount(a: AccountChanges, bound: nat, r: AccountChanges) {
    && WellFormedAccount(r, bound)
    && (forall field :: FieldLog(r, field) == FieldLog(a, field))
    && Written(r.storageChanges) == Written(a.storageChanges)
    && (forall slot :: slot in r.storageReads <==> slot in a.storageReads)
  }

  lemma OrderedSlots(a: AccountChanges, bound: nat)
    requires Tidy(a) && Ordered(a, bound)
    ensures forall e :: e in a.storageChanges ==> Increasing(e.changes, bound)
    ensures DistinctBy(a.storageChanges, SlotKey) && DistinctBy(a.storageReads, Itself)
  {
    forall e | e in a.storageChanges ensures Increasing(e.changes, bound) {
      OnlySlotLog(a.storageChanges, e);
      assert FieldLog(a, Storage(e.slot)) == e.changes;
    }
  }

  lemma OrderedFields(a: AccountChanges, bound: nat)
    requires Ordered(a, bound)
    ensures Increasing(a.balanceChanges, bound) && Increasing(a.nonceChanges, bound) && Increasing(a.codeChanges, bound)
  {
    assert FieldLog(a, Balance) == a.balanceChanges && FieldLog(a, Nonce) == a.nonceChanges &&
      FieldLog(a, Code) == a.codeChanges;
  }

  lemma SortedIsSorted(a: AccountChanges, bound: nat, r: AccountChanges)
    requires Tidy(a) && forall e :: e in a.storageChanges ==> Increasing(e.changes, bound)
    requires Increasing(a.balanceChanges, bound) && Increasing(a.nonceChanges, bound) &&
      Increasing(a.codeChanges, bound)
    requires StrictBy(r.storageChanges, SlotKey) && forall e :: e in r.storageChanges <==> e in a.storageChanges
    requires StrictBy(r.storageReads, Itself) && forall slot :: slot in r.storageReads <==> slot in a.storageReads
    requires r.balanceChanges == a.balanceChanges && r.nonceChanges == a.nonceChanges && r.codeChanges == a.codeChanges
    ensures SortedAccount(a, bound, r)
  {
    hide Increasing;
    assert Written(r.storageChanges) == Written(a.storageChanges);
    assert DistinctSlots(r.storageChanges) by { hide Written; }
    forall field ensures FieldLog(r, field) == FieldLog(a, field) {
      if field.Storage? {
        ReorderedSlots(a.storageChanges, r.storageChanges, field.slot);
      }
    }
  }

  // ---------------------------------------------------------- sorting the list

  lemma {:induction false} OnlyLog(list: AccessList, a: AccountChanges, field: Field)
    requires DistinctAddresses(list) && a in list
    ensures Log(list, a.address, field) == FieldLog(a, field)
  {
    hide FieldLog;
    var n := |list| - 1;
    if list[n] == a {
      NoLog(list[..n], a.address, field);
    } else {
      var k :| 0 <= k < |list| && list[k] == a;
      assert list[..n][k] == a;
      OnlyLog(list[..n], a, field);
    }
  }

  lemma {:induction false} NoLog(list: AccessList, address: nat, field: Field)
    requires forall a :: a in list ==> a.address != address
    ensures Log(list, address, field) == []
  {
    hide FieldLog;
    if list != [] {
      NoLog(list[..|list| - 1], address, field);
      assert list[|list| - 1] in list;
    }
  }

  /** Two lists that name each address once and agree on every account hold the same. */
  ghost predicate SameAccounts(list: AccessList, r: AccessList) {
    && DistinctAddresses(list) && DistinctAddresses(r)
    && (forall a :: a in r ==> exists b :: b in list && SameContent(b, a))
    && (forall b :: b in list ==> exists a :: a in r && SameContent(b, a))
  }

  ghost predicate SameContent(a: AccountChanges, r: AccountChanges) {
    && r.address == a.address
    && (forall field :: FieldLog(r, field) == FieldLog(a, field))
    && Written(r.storageChanges) == Written(a.storageChanges)
    && (forall slot :: slot in r.storageReads <==> slot in a.storageReads)
  }

  lemma SameLog(list: AccessList, r: AccessList, address: nat, field: Field)
    requires SameAccounts(list, r)
    ensures Log(r, address, field) == Log(list, address, field)
  {
    hide Log, Written, FieldLog;
    if b :| b in list && b.address == address {
      var a :| a in r && SameContent(b, a);
      OnlyLog(list, b, field);
      OnlyLog(r, a, field);
    } else {
      forall a | a in r ensures a.address != address {
        var b :| b in list && SameContent(b, a);
      }
      NoLog(list, address, field);
      NoLog(r, address, field);
    }
  }

  lemma SameSets(list: AccessList, r: AccessList, address: nat)
    requires SameAccounts(list, r)
    ensures WrittenOf(r, address) == WrittenOf(list, address)
    ensures ReadsOf(r, address) == ReadsOf(list, address)
    ensures Addresses(r) == Addresses(list)
  {
    SameAddresses(list, r);
    hide FieldLog, Written, WrittenOf, ReadsOf, DistinctAddresses, SameContent, Addresses;
    assert Matched(list, r) && Matched(r, list);
    hide Matched;
    WrittenIn(list, r, address);
    WrittenIn(r, list, address);
    ReadsIn(list, r, address);
    ReadsIn(r, list, address);
  }

  lemma SameAddresses(list: AccessList, r: AccessList)
    requires SameAccounts(list, r)
    ensures Addresses(r) == Addresses(list)
  {
    hide FieldLog, Written, DistinctAddresses;
    AddressesIn(list, r);
    AddressesIn(r, list);
  }

  lemma AddressesIn(list: AccessList, r: AccessList)
    requires Matched(list, r)
    ensures Addresses(list) <= Addresses(r)
  {
    hide FieldLog, Written;
    forall x | x in Addresses(list) ensures x in Addresses(r) {
      var b :| b in list && b.address == x;
      var a :| a in r && (SameContent(b, a) || SameContent(a, b));
    }
  }

  /** Accounts of `list` find their match in `r`. */
  ghost predicate Matched(list: AccessList, r: AccessList) {
    forall b :: b in list ==> exists a :: a in r && (SameContent(b, a) || SameContent(a, b))
  }

  lemma WrittenIn(list: AccessList, r: AccessList, address: nat)
    requires Matched(list, r)
    ensures WrittenOf(list, address) <= WrittenOf(r, address)
  {
    forall slot | slot in WrittenOf(list, address) ensures slot in WrittenOf(r, address) {
      var b, e :| b in list && b.address == address && e in b.storageChanges && e.slot == slot;
      var a :| a in r && (SameContent(b, a) || SameContent(a, b));
      assert slot in Written(b.storageChanges);
      assert slot in Written(a.storageChanges);
      var d :| d in a.storageChanges && d.slot == slot;
    }
  }

  lemma ReadsIn(list: AccessList, r: AccessList, address: nat)
    requires Matched(list, r)
    ensures ReadsOf(list, address) <= ReadsOf(r, address)
  {
    forall slot | slot in ReadsOf(list, address) ensures slot in ReadsOf(r, address) {
      var b :| b in list && b.address == address && slot in b.storageReads;
      var a :| a in r && (SameContent(b, a) || SameContent(a, b));
      assert slot in a.storageReads;
    }
  }

  // ------------------------------------------------------------- ordered logs

  lemma {:induction false} WellFormedLog(list: AccessList, bound: nat, address: nat, field: Field)
    requires WellFormed(list, bound)
    ensures Increasing(Log(list, address, field), bound)
  {
    if a :| a in list && a.address == address {
      OnlyLog(list, a, field);
      if field.Storage? {
        if e :| e in a.storageChanges && e.slot == field.slot {
          OnlySlotLog(a.storageChanges, e);
        } else {
          NoSlotLog(a.storageChanges, field.slot);
        }
      }
    } else {
      NoLog(list, address, field);
    }
  }

  lemma WellFormedIsTidy(list: AccessList, bound: nat)
    requires WellFormed(list, bound)
    ensures TidyList(list)
  {
    forall a | a in list ensures Tidy(a) {
      assert WellFormedAccount(a, bound);
    }
  }

  lemma IncreasingBoth(a: seq<Change>, b: seq<Change>, start: nat, count: nat)
    requires Increasing(a, start) && Increasing(b, count)
    ensures Increasing(a + Shift(b, start), start + count)
  {
    var r := a + Shift(b, start);
    forall i | 0 <= i < |r| ensures if i < |a| then r[i].index < start else start <= r[i].index < start + count {
      if i < |a| {
        assert a[i] in a;
      } else {
        assert b[i - |a|] in b;
      }
    }
    forall i, j | 0 <= i < j < |r| ensures r[i].index < r[j].index {
      if i >= |a| {
        assert IndexKey(b[i - |a|]) < IndexKey(b[j - |a|]);
      } else if j < |a| {
        assert IndexKey(a[i]) < IndexKey(a[j]);
      }
    }
  }

  lemma {:induction false} WalkIncreases(counts: seq<nat>, lists: seq<Option<AccessList>>, n: nat, address: nat,
                                         field: Field)
    requires BlocksWellFormed(counts, lists, n)
    ensures Increasing(WalkLog(counts, lists, n, address, field), Start(counts, n))
    decreases n
  {
    if n > 0 {
      FewerBlocks(counts, lists, n - 1, n);
      WalkIncreases(counts, lists, n - 1, address, field);
      WellFormedLog(ListAt(lists, n - 1), counts[n - 1] + 2, address, field);
      hide WellFormed, Increasing, Log, Shift;
      IncreasingBoth(WalkLog(counts, lists, n - 1, address, field), Log(ListAt(lists, n - 1), address, field),
                     Start(counts, n - 1), counts[n - 1] + 2);
    }
  }

  // ------------------------------------------------------------------- merging

  function Sum(counts: seq<nat>, b: nat): nat
    requires b <= |counts|
  {
    if b == 0 then 0 else Sum(counts, b - 1) + counts[b - 1]
  }

  lemma {:induction false} StartIsShift(counts: seq<nat>, b: nat)
    requires b <= |counts|
    ensures Start(counts, b) == Sum(counts, b) + 2 * b
  {
    if b > 0 {
      StartIsShift(counts, b - 1);
    }
  }

  function Listed(merged: Option<AccessList>): AccessList {
    if merged.Some? then merged.value else []
  }

  ghost predicate NonePresent(lists: seq<Option<AccessList>>, n: nat)
    requires n <= |lists|
  {
    forall b :: 0 <= b < n ==> lists[b].None?
  }

  /** What has been merged after `i` blocks. */
  ghost predicate MergedSoFar(counts: seq<nat>, lists: seq<Option<AccessList>>, i: nat, merged: Option<AccessList>)
    requires i <= |counts| && i <= |lists|
  {
    var list := Listed(merged);
    && (merged.None? <==> NonePresent(lists, i))
    && Holds(counts, lists, i, list)
    && (BlocksWellFormed(counts, lists, i) ==> TidyList(list) && HoldsReads(lists, i, list))
  }

  /** The merged list is well formed over the whole index range and holds what the blocks hold. */
  ghost predicate IsMerge(counts: seq<nat>, lists: seq<Option<AccessList>>, n: nat, list: AccessList)
    requires n <= |counts| && n <= |lists|
  {
    WellFormed(list, Start(counts, n)) && Holds(counts, lists, n, list) && HoldsReads(lists, n, list)
  }

  method MergeBlockAccessLists(counts: seq<nat>, lists: seq<Option<AccessList>>) returns (r: Option<AccessList>)
    ensures var n := if |counts| < |lists| then |counts| else |lists|;
      && (r.None? <==> NonePresent(lists, n))
      && (r.Some? && BlocksWellFormed(counts, lists, n) ==> IsMerge(counts, lists, n, r.value))
  {
    hide Gains, GainsReads, TidyList, Holds, HoldsReads, BlocksWellFormed, NonePresent, IsMerge, SortedBy, StrictBy,
      DistinctBy;
    hide Start, Tidy, Ordered, SortedAccount;
    var n := if |counts| < |lists| then |counts| else |lists|;
    var merged: Option<AccessList> := None;
    var cumulative := 0;
    NothingMerged(counts, lists);
    for i := 0 to n
      invariant cumulative == Sum(counts, i)
      invariant MergedSoFar(counts, lists, i, merged)
    {
      ghost var before := merged;
      if lists[i].Some? {
        var list := MergeBlockAccessList(if merged.Some? then merged.value else [], lists[i].value, cumulative, i);
        merged := Some(list);
      }
      MergedOne(counts, lists, i, before, merged);
      cumulative := cumulative + counts[i];
    }
    if merged.None? {
      return None;
    }
    var list := SortByKey(merged.value, AddressKey);
    ghost var sorted := list;
    ghost var bound := Start(counts, n);
    for k := 0 to |list|
      invariant |list| == |sorted|
      invariant forall j :: k <= j < |list| ==> list[j] == sorted[j]
      invariant forall j :: 0 <= j < k ==> SortedFrom(sorted[j], bound, list[j])
    {
      var account := SortAccountChanges(list[k], bound);
      list := list[k := account];
    }
    if BlocksWellFormed(counts, lists, n) {
      SortedMerge(counts, lists, n, merged.value, sorted, list);
    }
    return Some(list);
  }

  ghost predicate SortedFrom(a: AccountChanges, bound: nat, r: AccountChanges) {
    r.address == a.address && (Tidy(a) && Ordered(a, bound) ==> SortedAccount(a, bound, r))
  }

  lemma NothingMerged(counts: seq<nat>, lists: seq<Option<AccessList>>)
    ensures MergedSoFar(counts, lists, 0, None)
  {
  }

  lemma MergedOne(counts: seq<nat>, lists: seq<Option<AccessList>>, i: nat, before: Option<AccessList>,
                  merged: Option<AccessList>)
    requires i < |counts| && i < |lists| && MergedSoFar(counts, lists, i, before)
    requires lists[i].None? ==> merged == before
    requires lists[i].Some? ==> merged.Some?
    requires lists[i].Some? ==> Gains(Listed(before), lists[i].value, Sum(counts, i) + 2 * i, merged.value)
    requires lists[i].Some? && TidyList(Listed(before)) && TidyList(lists[i].value) ==>
      GainsReads(Listed(before), lists[i].value, merged.value)
    ensures MergedSoFar(counts, lists, i + 1, merged)
  {
    hide Start, Sum, TidyList, GainsReads, NonePresent, BlocksWellFormed, HoldsReads, Holds, Gains;
    NextPresent(lists, i);
    StartIsShift(counts, i);
    MergedHolds(counts, lists, i, before, merged);
    if BlocksWellFormed(counts, lists, i + 1) {
      FewerBlocks(counts, lists, i, i + 1);
      MergedReads(counts, lists, i, before, merged);
    }
  }

  lemma NextPresent(lists: seq<Option<AccessList>>, i: nat)
    requires i < |lists|
    ensures NonePresent(lists, i + 1) <==> NonePresent(lists, i) && lists[i].None?
  {
  }

  lemma MergedReads(counts: seq<nat>, lists: seq<Option<AccessList>>, i: nat, before: Option<AccessList>,
                    merged: Option<AccessList>)
    requires i < |counts| && i < |lists| && BlocksWellFormed(counts, lists, i + 1)
    requires TidyList(Listed(before)) && HoldsReads(lists, i, Listed(before))
    requires Holds(counts, lists, i, Listed(before)) && Holds(counts, lists, i + 1, Listed(merged))
    requires lists[i].None? ==> merged == before
    requires lists[i].Some? && TidyList(lists[i].value) ==>
      merged.Some? && GainsReads(Listed(before), lists[i].value, merged.value)
    ensures TidyList(Listed(merged)) && HoldsReads(lists, i + 1, Listed(merged))
  {
    EmptyList();
    assert WellFormed(ListAt(lists, i), counts[i] + 2);
    WellFormedIsTidy(ListAt(lists, i), counts[i] + 2);
    hide Log, WrittenOf, ReadsOf, Addresses, TidyList, WellFormed, Shift, Start, WalkLog, BlocksWellFormed;
    forall address
      ensures ReadsOf(Listed(merged), address) == AllReads(lists, i + 1, address) - AllWritten(lists, i + 1, address)
    {
      assert WrittenOf(Listed(merged), address) == AllWritten(lists, i + 1, address);
    }
  }

  lemma EmptyList()
    ensures forall address, field :: Log([], address, field) == []
    ensures forall address :: WrittenOf([], address) == {} && ReadsOf([], address) == {}
    ensures Addresses([]) == {}
    ensures forall shift: nat :: Shift([], shift) == []
  {
  }

  lemma MergedHolds(counts: seq<nat>, lists: seq<Option<AccessList>>, i: nat, before: Option<AccessList>,
                    merged: Option<AccessList>)
    requires i < |counts| && i < |lists|
    requires Holds(counts, lists, i, Listed(before))
    requires lists[i].Some? ==> merged.Some? && Gains(Listed(before), lists[i].value, Start(counts, i), merged.value)
    requires lists[i].None? ==> merged == before
    ensures Holds(counts, lists, i + 1, Listed(merged))
  {
    EmptyList();
    hide Log, WrittenOf, ReadsOf, Addresses, Start, Shift;
  }

  /** Sorting a merged list makes it well formed and keeps what it holds. */
  lemma SortedMerge(counts: seq<nat>, lists: seq<Option<AccessList>>, n: nat, merged: AccessList, sorted: AccessList,
                    list: AccessList)
    requires BlocksWellFormed(counts, lists, n)
    requires TidyList(merged) && Holds(counts, lists, n, merged) && HoldsReads(lists, n, merged)
    requires (forall a :: a in sorted <==> a in merged) &&
      (DistinctBy(merged, AddressKey) ==> StrictBy(sorted, AddressKey))
    requires |list| == |sorted| && forall k :: 0 <= k < |list| ==> SortedFrom(sorted[k], Start(counts, n), list[k])
    ensures IsMerge(counts, lists, n, list)
  {
    hide Log, WrittenOf, ReadsOf, Addresses, FieldLog, Start, Tidy, WellFormedAccount, Written;
    var bound := Start(counts, n);
    assert StrictBy(sorted, AddressKey) by { assert DistinctBy(merged, AddressKey); }
    forall k | 0 <= k < |list| ensures SortedAccount(sorted[k], bound, list[k]) {
      assert sorted[k] in merged;
      MergedIsOrdered(counts, lists, n, merged, sorted[k]);
    }
    assert WellFormed(list, bound) by {
      assert StrictBy(list, AddressKey);
    }
    MergedSame(merged, sorted, list, bound);
    hide SortedFrom, SortedAccount, WellFormed;
    forall address, field ensures Log(list, address, field) == Log(merged, address, field) {
      SameLog(merged, list, address, field);
    }
    forall address
      ensures WrittenOf(list, address) == WrittenOf(merged, address) &&
        ReadsOf(list, address) == ReadsOf(merged, address)
    {
      SameSets(merged, list, address);
    }
    SameSets(merged, list, 0);
  }

  lemma MergedIsOrdered(counts: seq<nat>, lists: seq<Option<AccessList>>, n: nat, merged: AccessList, a: AccountChanges)
    requires BlocksWellFormed(counts, lists, n) && TidyList(merged) && Holds(counts, lists, n, merged) && a in merged
    ensures Tidy(a) && Ordered(a, Start(counts, n))
  {
    hide Log, WrittenOf, Addresses, FieldLog, Tidy, Start, Increasing;
    forall field ensures Increasing(FieldLog(a, field), Start(counts, n)) {
      OnlyLog(merged, a, field);
      WalkIncreases(counts, lists, n, a.address, field);
    }
  }

  lemma MergedSame(merged: AccessList, sorted: AccessList, list: AccessList, bound: nat)
    requires DistinctAddresses(merged) && StrictBy(sorted, AddressKey) && forall a :: a in sorted <==> a in merged
    requires |list| == |sorted|
    requires forall k :: 0 <= k < |list| ==>
      list[k].address == sorted[k].address && SortedAccount(sorted[k], bound, list[k])
    ensures SameAccounts(merged, list)
  {
    hide FieldLog, Written, WellFormedAccount;
    forall i, j | 0 <= i < j < |list| ensures list[i].address != list[j].address {
      assert AddressKey(sorted[i]) < AddressKey(sorted[j]);
    }
    forall a | a in list ensures exists b :: b in merged && SameContent(b, a) {
      var k :| 0 <= k < |list| && list[k] == a;
      assert sorted[k] in merged && SameContent(sorted[k], a);
    }
    forall b | b in merged ensures exists a :: a in list && SameContent(b, a) {
      assert b in sorted;
      var k :| 0 <= k < |sorted| && sorted[k] == b;
      assert list[k] in list && SameContent(b, list[k]);
    }
  }

  // ----------------------------------------------------------------- lookups

  /** Later changes do not matter. */
  lemma {:induction false} AtPrefix(a: seq<Change>, b: seq<Change>, index: nat)
    requires forall c :: c in b ==> c.index > index
    ensures At(a + b, index) == At(a, index)
    decreases |b|
  {
    if b == [] {
      assert a + b == a;
    } else {
      var n := |b| - 1;
      assert (a + b)[..|a + b| - 1] == a + b[..n];
      assert b[n] in b;
      AtPrefix(a, b[..n], index);
    }
  }

  /** A lookup in a block's shifted changes falls back to what came before. */
  lemma {:induction false} AtShifted(a: seq<Change>, b: seq<Change>, start: nat, j: nat)
    ensures At(a + Shift(b, start), start + j) == if At(b, j).Some? then At(b, j) else At(a, start + j)
    decreases |b|
  {
    if b == [] {
      assert a + Shift(b, start) == a;
    } else {
      var n := |b| - 1;
      var r := a + Shift(b, start);
      assert r[..|r| - 1] == a + Shift(b[..n], start);
      AtShifted(a, b[..n], start, j);
    }
  }

  lemma {:induction false} AtLast(a: seq<Change>, bound: nat, i: nat, j: nat)
    requires forall c :: c in a ==> c.index < bound
    requires bound <= i + 1 && bound <= j + 1
    ensures At(a, i) == At(a, j)
  {
    if a != [] {
      assert a[|a| - 1] in a;
    }
  }

  lemma ShiftAbove(changes: seq<Change>, shift: nat)
    ensures forall c :: c in Shift(changes, shift) ==> c.index >= shift
  {
  }

  lemma {:induction false} WalkSplits(counts: seq<nat>, lists: seq<Option<AccessList>>, b: nat, n: nat, j: nat,
                                      address: nat, field: Field)
    requires b < n <= |counts| && n <= |lists| && j <= counts[b] + 1
    ensures At(WalkLog(counts, lists, n, address, field), Start(counts, b) + j)
      == At(WalkLog(counts, lists, b + 1, address, field), Start(counts, b) + j)
    decreases n
  {
    hide Log, ListAt, At, Shift;
    if n > b + 1 {
      WalkSplits(counts, lists, b, n - 1, j, address, field);
      StartGrows(counts, b + 1, n - 1);
      ShiftAbove(Log(ListAt(lists, n - 1), address, field), Start(counts, n - 1));
      AtPrefix(WalkLog(counts, lists, n - 1, address, field),
               Shift(Log(ListAt(lists, n - 1), address, field), Start(counts, n - 1)), Start(counts, b) + j);
    }
  }

  lemma {:induction false} StartGrows(counts: seq<nat>, a: nat, b: nat)
    requires a <= b <= |counts|
    ensures Start(counts, a) + 2 * (b - a) <= Start(counts, b)
    decreases b
  {
    if a < b {
      StartGrows(counts, a, b - 1);
    }
  }

  lemma FewerBlocks(counts: seq<nat>, lists: seq<Option<AccessList>>, m: nat, n: nat)
    requires BlocksWellFormed(counts, lists, n) && m <= n
    ensures BlocksWellFormed(counts, lists, m)
  {
    hide WellFormed, ListAt;
  }

  /** What one block contributes to the log and to the walk. */
  lemma WalkUnfolds(counts: seq<nat>, lists: seq<Option<AccessList>>, b: nat, j: nat, address: nat, field: Field)
    requires b < |counts| && b < |lists|
    ensures var here := Log(ListAt(lists, b), address, field);
      && WalkLog(counts, lists, b + 1, address, field) == WalkLog(counts, lists, b, address, field) +
         Shift(here, Start(counts, b))
      && (At(here, j).Some? ==> Walk(counts, lists, b, j, address, field) == At(here, j))
      && (At(here, j).None? && b == 0 ==> Walk(counts, lists, b, j, address, field) == None)
      && (At(here, j).None? && b > 0 ==>
            Walk(counts, lists, b, j, address, field) == Walk(counts, lists, b - 1, counts[b - 1] + 1, address, field))
    ensures b == 0 ==> WalkLog(counts, lists, b, address, field) == []
    ensures b > 0 ==> Start(counts, b) == Start(counts, b - 1) + counts[b - 1] + 2
  {
    hide Log, ListAt, Shift, At;
  }

  lemma {:induction false} WalkAt(counts: seq<nat>, lists: seq<Option<AccessList>>, b: nat, j: nat, address: nat,
                                  field: Field)
    requires b < |counts| && b < |lists| && BlocksWellFormed(counts, lists, b + 1) && j <= counts[b] + 1
    ensures At(WalkLog(counts, lists, b + 1, address, field), Start(counts, b) + j) ==
      Walk(counts, lists, b, j, address, field)
    decreases b
  {
    hide Log, ListAt, Shift, BlocksWellFormed, WalkLog, Start, Walk;
    var before, start := WalkLog(counts, lists, b, address, field), Start(counts, b);
    assert At([], start + j) == None;
    hide At;
    WalkUnfolds(counts, lists, b, j, address, field);
    AtShifted(before, Log(ListAt(lists, b), address, field), start, j);
    if b > 0 {
      FewerBlocks(counts, lists, b, b + 1);
      WalkAt(counts, lists, b - 1, counts[b - 1] + 1, address, field);
      WalkIncreases(counts, lists, b, address, field);
      AtLast(before, start, start - 1, start + j);
    }
  }

  /** A lookup at a merged index is what executing the blocks in order up to that point shows. */
  lemma MergedLookup(counts: seq<nat>, lists: seq<Option<AccessList>>, n: nat, list: AccessList, b: nat, j: nat,
                     address: nat, field: Field)
    requires BlocksWellFormed(counts, lists, n) && IsMerge(counts, lists, n, list)
    requires b < n && j <= counts[b] + 1
    ensures At(Log(list, address, field), Start(counts, b) + j) == Walk(counts, lists, b, j, address, field)
  {
    hide Log, WrittenOf, ReadsOf, Addresses, WellFormed;
    WalkSplits(counts, lists, b, n, j, address, field);
    WalkAt(counts, lists, b, j, address, field);
  }

  /** The shifted ranges tile: every merged index lies in the range of exactly one block. */
  lemma {:induction false} RangesTile(counts: seq<nat>, n: nat, index: nat)
    requires n <= |counts| && index < Start(counts, n)
    ensures exists b: nat :: b < n && Start(counts, b) <= index <= Start(counts, b) + counts[b] + 1
    ensures forall b: nat, c: nat :: b < c < n ==>
      !(Start(counts, b) <= index <= Start(counts, b) + counts[b] + 1 && Start(counts, c) <= index)
    decreases n
  {
    if index >= Start(counts, n - 1) {
      assert Start(counts, n - 1) <= index <= Start(counts, n - 1) + counts[n - 1] + 1;
    } else {
      RangesTile(counts, n - 1, index);
    }
    forall b: nat, c: nat | b < c < n
      ensures !(Start(counts, b) <= index <= Start(counts, b) + counts[b] + 1 && Start(counts, c) <= index)
    {
      StartGrows(counts, b + 1, c);
    }
  }
}
