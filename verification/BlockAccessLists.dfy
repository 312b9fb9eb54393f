/**
 Merging per-block access lists into one. Vectors that the code changes through a
 mutable reference are passed in and returned.
 */
module BlockAccessLists {
  import opened Wrappers

  /** Balances, nonces, slot words and code alike: merging only copies them. */
  type Value = nat

  datatype Change = Change(index: nat, value: Value)

  datatype SlotChanges = SlotChanges(slot: nat, changes: seq<Change>)

  datatype AccountChanges = AccountChanges(
    address: nat,
    storageChanges: seq<SlotChanges>,
    storageReads: seq<nat>,
    balanceChanges: seq<Change>,
    nonceChanges: seq<Change>,
    codeChanges: seq<Change>)

  type AccessList = seq<AccountChanges>

  // ---------------------------------------------------------------- meaning

  /** What can be looked up in an account. */
  datatype Field = Storage(slot: nat) | Balance | Nonce | Code

  /** All changes of one slot, in list order. */
  function SlotLog(slots: seq<SlotChanges>, slot: nat): seq<Change> {
    if slots == [] then []
    else
      var last := slots[|slots| - 1];
      SlotLog(slots[..|slots| - 1], slot) + (if last.slot == slot then last.changes else [])
  }

  function FieldLog(account: AccountChanges, field: Field): seq<Change> {
    match field
    case Storage(slot) => SlotLog(account.storageChanges, slot)
    case Balance => account.balanceChanges
    case Nonce => account.nonceChanges
    case Code => account.codeChanges
  }

  /** All changes of one field of an address, in list order. */
  function Log(list: AccessList, address: nat, field: Field): seq<Change> {
    if list == [] then []
    else
      var last := list[|list| - 1];
      Log(list[..|list| - 1], address, field) + (if last.address == address then FieldLog(last, field) else [])
  }

  function Shift(changes: seq<Change>, shift: nat): seq<Change> {
    seq(|changes|, i requires 0 <= i < |changes| => changes[i].(index := changes[i].index + shift))
  }

  function Written(slots: seq<SlotChanges>): set<nat> {
    set e | e in slots :: e.slot
  }

  ghost function WrittenOf(list: AccessList, address: nat): set<nat> {
    set a, e | a in list && a.address == address && e in a.storageChanges :: e.slot
  }

  function Addresses(list: AccessList): set<nat> {
    set a | a in list :: a.address
  }

  ghost function ReadsOf(list: AccessList, address: nat): set<nat> {
    set a, slot | a in list && a.address == address && slot in a.storageReads :: slot
  }

  ghost predicate DistinctSlots(slots: seq<SlotChanges>) {
    forall i, j :: 0 <= i < j < |slots| ==> slots[i].slot != slots[j].slot
  }

  ghost predicate DistinctAddresses(list: AccessList) {
    forall i, j :: 0 <= i < j < |list| ==> list[i].address != list[j].address
  }

  ghost predicate NoEmptySlots(slots: seq<SlotChanges>) {
    forall e :: e in slots ==> e.changes != []
  }

  /** A slot is listed once, either as written or as read. */
  ghost predicate Tidy(a: AccountChanges) {
    && DistinctSlots(a.storageChanges) && NoEmptySlots(a.storageChanges)
    && NoDuplicates(a.storageReads)
    && forall slot :: slot in a.storageReads ==> slot !in Written(a.storageChanges)
  }

  ghost predicate TidyList(list: AccessList) {
    DistinctAddresses(list) && forall a :: a in list ==> Tidy(a)
  }

  // --------------------------------------------------------------- shifting

  method ShiftChanges(changes: seq<Change>, shift: nat) returns (r: seq<Change>)
    ensures r == Shift(changes, shift)
  {
    r := [];
    for i := 0 to |changes|
      invariant r == Shift(changes[..i], shift)
    {
      r := r + [Change(changes[i].index + shift, changes[i].value)];
    }
    assert changes[..|changes|] == changes;
  }

  /** Every index of the account moves by the offset, plus two for each earlier segment. */
  method ShiftAccountChanges(account: AccountChanges, txIndexOffset: nat, segment: nat) returns (r: AccountChanges)
    ensures IsShifted(account, txIndexOffset + 2 * segment, r)
  {
    var shift := txIndexOffset + 2 * segment;
    var slots := account.storageChanges;
    for i := 0 to |slots|
      invariant |slots| == |account.storageChanges|
      invariant forall k :: i <= k < |slots| ==> slots[k] == account.storageChanges[k]
      invariant forall k :: 0 <= k < i ==> slots[k] == ShiftedSlot(account.storageChanges[k], shift)
    {
      var changes := ShiftChanges(slots[i].changes, shift);
      slots := slots[i := slots[i].(changes := changes)];
    }
    var balances := ShiftChanges(account.balanceChanges, shift);
    var nonces := ShiftChanges(account.nonceChanges, shift);
    var codes := ShiftChanges(account.codeChanges, shift);
    r := AccountChanges(account.address, slots, account.storageReads, balances, nonces, codes);
    ShiftedAccount(account, shift, r);
  }

  function ShiftedSlot(e: SlotChanges, shift: nat): SlotChanges {
    e.(changes := Shift(e.changes, shift))
  }

  /** The shifted account reads and writes the same slots and logs every change later by `shift`. */
  ghost predicate IsShifted(a: AccountChanges, shift: nat, r: AccountChanges) {
    && r.address == a.address && r.storageReads == a.storageReads
    && Written(r.storageChanges) == Written(a.storageChanges)
    && (forall field :: FieldLog(r, field) == Shift(FieldLog(a, field), shift))
    && (Tidy(a) ==> Tidy(r))
  }

  lemma ShiftBoth(a: seq<Change>, b: seq<Change>, shift: nat)
    ensures Shift(a + b, shift) == Shift(a, shift) + Shift(b, shift)
  {
  }

  lemma {:induction false} ShiftedSlotLog(slots: seq<SlotChanges>, shift: nat, r: seq<SlotChanges>, slot: nat)
    requires |r| == |slots| && forall k :: 0 <= k < |slots| ==> r[k] == ShiftedSlot(slots[k], shift)
    ensures SlotLog(r, slot) == Shift(SlotLog(slots, slot), shift)
  {
    if slots != [] {
      var n := |slots| - 1;
      ShiftedSlotLog(slots[..n], shift, r[..n], slot);
      ShiftBoth(SlotLog(slots[..n], slot), if slots[n].slot == slot then slots[n].changes else [], shift);
    }
  }

  lemma ShiftedAccount(a: AccountChanges, shift: nat, r: AccountChanges)
    requires |r.storageChanges| == |a.storageChanges|
    requires forall k :: 0 <= k < |a.storageChanges| ==> r.storageChanges[k] == ShiftedSlot(a.storageChanges[k], shift)
    requires r.address == a.address && r.storageReads == a.storageReads
    requires r.balanceChanges == Shift(a.balanceChanges, shift) && r.nonceChanges == Shift(a.nonceChanges, shift)
    requires r.codeChanges == Shift(a.codeChanges, shift)
    ensures IsShifted(a, shift, r)
  {
    forall field ensures FieldLog(r, field) == Shift(FieldLog(a, field), shift) {
      if field.Storage? {
        ShiftedSlotLog(a.storageChanges, shift, r.storageChanges, field.slot);
      }
    }
    SameSlots(a.storageChanges, r.storageChanges);
  }

  lemma SameSlots(a: seq<SlotChanges>, r: seq<SlotChanges>)
    requires |r| == |a| && forall k :: 0 <= k < |a| ==>
      r[k].slot == a[k].slot && (r[k].changes == [] <==> a[k].changes == [])
    ensures Written(r) == Written(a) && (DistinctSlots(a) ==> DistinctSlots(r)) && (NoEmptySlots(a) ==> NoEmptySlots(r))
  {
    forall slot | slot in Written(a) ensures slot in Written(r) {
      var k :| 0 <= k < |a| && a[k].slot == slot;
      assert r[k] in r;
    }
    forall slot | slot in Written(r) ensures slot in Written(a) {
      var k :| 0 <= k < |r| && r[k].slot == slot;
      assert a[k] in a;
    }
    if NoEmptySlots(a) {
      forall e | e in r ensures e.changes != [] {
        var k :| 0 <= k < |r| && r[k] == e;
        assert a[k] in a;
      }
    }
  }

  // -------------------------------------------------------- merging one account

  /** `positions` holds the last index of every slot of the list. */
  ghost predicate LastSlots(positions: map<nat, nat>, slots: seq<SlotChanges>) {
    && (forall slot :: slot in positions <==> slot in Written(slots))
    && forall slot :: slot in positions ==>
         && positions[slot] < |slots| && slots[positions[slot]].slot == slot
         && forall j :: positions[slot] < j < |slots| ==> slots[j].slot != slot
  }

  lemma PushSlot(positions: map<nat, nat>, slots: seq<SlotChanges>, e: SlotChanges)
    requires LastSlots(positions, slots)
    ensures LastSlots(positions[e.slot := |slots|], slots + [e])
    ensures Written(slots + [e]) == Written(slots) + {e.slot}
    ensures forall slot ::
      SlotLog(slots + [e], slot) == SlotLog(slots, slot) + (if e.slot == slot then e.changes else [])
  {
    PushLog(slots, e);
    PushWritten(slots, e);
    hide Written, SlotLog;
    PushLast(positions, slots, e, slots + [e]);
  }

  lemma PushLog(slots: seq<SlotChanges>, e: SlotChanges)
    ensures forall slot ::
      SlotLog(slots + [e], slot) == SlotLog(slots, slot) + (if e.slot == slot then e.changes else [])
  {
    assert (slots + [e])[..|slots|] == slots;
  }

  lemma PushLast(positions: map<nat, nat>, slots: seq<SlotChanges>, e: SlotChanges, r: seq<SlotChanges>)
    requires LastSlots(positions, slots) && |r| == |slots| + 1 && r[|slots|] == e
    requires forall j :: 0 <= j < |slots| ==> r[j] == slots[j]
    requires Written(r) == Written(slots) + {e.slot}
    ensures LastSlots(positions[e.slot := |slots|], r)
  {
    hide Written;
  }

  lemma PushWritten(slots: seq<SlotChanges>, e: SlotChanges)
    ensures Written(slots + [e]) == Written(slots) + {e.slot}
  {
    forall slot | slot in Written(slots) + {e.slot} ensures slot in Written(slots + [e]) {
      if slot in Written(slots) {
        var x :| x in slots && x.slot == slot;
        assert x in slots + [e];
      } else {
        assert e in slots + [e];
      }
    }
  }

  /** Appending to the last entry of a slot appends to its log and to no other. */
  lemma {:induction false} ExtendSlot(slots: seq<SlotChanges>, i: nat, more: seq<Change>, slot: nat)
    requires i < |slots| && forall j :: i < j < |slots| ==> slots[j].slot != slots[i].slot
    ensures var r := slots[i := slots[i].(changes := slots[i].changes + more)];
      SlotLog(r, slot) == SlotLog(slots, slot) + (if slots[i].slot == slot then more else [])
  {
    var n := |slots| - 1;
    var r := slots[i := slots[i].(changes := slots[i].changes + more)];
    if i == n {
      assert r[..n] == slots[..n];
    } else {
      ExtendSlot(slots[..n], i, more, slot);
      assert r[..n] == slots[..n][i := slots[i].(changes := slots[i].changes + more)];
    }
  }

  lemma ExtendSlots(positions: map<nat, nat>, slots: seq<SlotChanges>, e: SlotChanges, r: seq<SlotChanges>)
    requires LastSlots(positions, slots) && e.slot in positions
    requires r == slots[positions[e.slot] := SlotChanges(e.slot, slots[positions[e.slot]].changes + e.changes)]
    ensures LastSlots(positions, r) && Written(r) == Written(slots)
    ensures forall slot :: SlotLog(r, slot) == SlotLog(slots, slot) + (if e.slot == slot then e.changes else [])
    ensures (DistinctSlots(slots) ==> DistinctSlots(r))
    ensures NoEmptySlots(slots) ==> NoEmptySlots(r)
  {
    var i := positions[e.slot];
    forall slot ensures SlotLog(r, slot) == SlotLog(slots, slot) + (if e.slot == slot then e.changes else []) {
      ExtendSlot(slots, i, e.changes, slot);
    }
    hide SlotLog;
    forall slot ensures slot in Written(r) <==> slot in Written(slots) {
      if slot in Written(slots) {
        var k :| 0 <= k < |slots| && slots[k].slot == slot;
        assert r[k] in r;
      }
      if slot in Written(r) {
        var k :| 0 <= k < |r| && r[k].slot == slot;
        assert slots[k] in slots;
      }
    }
    if NoEmptySlots(slots) {
      forall x | x in r ensures x.changes != [] {
        var k :| 0 <= k < |r| && r[k] == x;
        assert slots[k] in slots;
      }
    }
  }

  /** Each slot keeps its earlier changes and gains the incoming ones, whatever the lists. */
  method MergeSlotChanges(existing: seq<SlotChanges>, incoming: seq<SlotChanges>) returns (merged: seq<SlotChanges>)
    ensures forall slot :: SlotLog(merged, slot) == SlotLog(existing, slot) + SlotLog(incoming, slot)
    ensures Written(merged) == Written(existing) + Written(incoming)
    ensures DistinctSlots(existing) ==> DistinctSlots(merged)
    ensures NoEmptySlots(existing) && NoEmptySlots(incoming) ==> NoEmptySlots(merged)
  {
    hide SlotLog, Written;
    var positions: map<nat, nat> := map[];
    EmptySlots();
    for i := 0 to |existing|
      invariant LastSlots(positions, existing[..i])
    {
      PushSlot(positions, existing[..i], existing[i]);
      assert existing[..i + 1] == existing[..i] + [existing[i]];
      positions := positions[existing[i].slot := i];
    }
    assert existing[..|existing|] == existing && incoming[..0] == [];
    hide DistinctSlots, NoEmptySlots;
    merged := existing;
    for k := 0 to |incoming|
      invariant LastSlots(positions, merged)
      invariant forall slot :: SlotLog(merged, slot) == SlotLog(existing, slot) + SlotLog(incoming[..k], slot)
      invariant Written(merged) == Written(existing) + Written(incoming[..k])
      invariant DistinctSlots(existing) ==> DistinctSlots(merged)
      invariant NoEmptySlots(existing) && NoEmptySlots(incoming) ==> NoEmptySlots(merged)
    {
      var e := incoming[k];
      NextSlot(incoming, k);
      if e.slot in positions {
        var i := positions[e.slot];
        var extended := merged[i := SlotChanges(e.slot, merged[i].changes + e.changes)];
        ExtendSlots(positions, merged, e, extended);
        merged := extended;
      } else {
        PushSlot(positions, merged, e);
        NewSlot(positions, merged, e);
        NewIsNotEmpty(merged, incoming, k);
        positions := positions[e.slot := |merged|];
        merged := merged + [e];
      }
    }
    assert incoming[..|incoming|] == incoming;
  }

  lemma EmptySlots()
    ensures LastSlots(map[], []) && Written([]) == {} && forall slot :: SlotLog([], slot) == []
  {
  }

  lemma NextSlot(slots: seq<SlotChanges>, k: nat)
    requires k < |slots|
    ensures Written(slots[..k + 1]) == Written(slots[..k]) + {slots[k].slot}
    ensures forall slot ::
      SlotLog(slots[..k + 1], slot) == SlotLog(slots[..k], slot) +
        (if slots[k].slot == slot then slots[k].changes else [])
  {
    assert slots[..k + 1] == slots[..k] + [slots[k]];
    assert slots[..k + 1][..k] == slots[..k];
    PushWritten(slots[..k], slots[k]);
  }

  lemma NewIsNotEmpty(slots: seq<SlotChanges>, incoming: seq<SlotChanges>, k: nat)
    requires k < |incoming|
    ensures NoEmptySlots(slots) && NoEmptySlots(incoming) ==> NoEmptySlots(slots + [incoming[k]])
  {
  }

  lemma NewSlot(positions: map<nat, nat>, slots: seq<SlotChanges>, e: SlotChanges)
    requires LastSlots(positions, slots) && e.slot !in positions
    ensures DistinctSlots(slots) ==> DistinctSlots(slots + [e])
  {
    forall i | 0 <= i < |slots| ensures slots[i].slot != e.slot {
      assert slots[i].slot in Written(slots);
    }
  }

  /** What merging an account must achieve. */
  ghost predicate IsMergedAccount(existing: AccountChanges, incoming: AccountChanges, r: AccountChanges) {
    && r.address == existing.address
    && (forall field :: FieldLog(r, field) == FieldLog(existing, field) + FieldLog(incoming, field))
    && Written(r.storageChanges) == Written(existing.storageChanges) + Written(incoming.storageChanges)
    && (forall slot :: slot in r.storageReads <==>
          (slot in existing.storageReads || slot in incoming.storageReads) && slot !in Written(r.storageChanges))
    && (Tidy(existing) && Tidy(incoming) ==> Tidy(r))
  }

  method MergeAccountChanges(existing: AccountChanges, incoming: AccountChanges) returns (r: AccountChanges)
    ensures IsMergedAccount(existing, incoming, r)
  {
    hide SlotLog;
    var slots := MergeSlotChanges(existing.storageChanges, incoming.storageChanges);
    var listed := existing.storageReads + incoming.storageReads;
    var written := set e | e in slots :: e.slot;
    var kept: seq<nat> := [];
    for i := 0 to |listed|
      invariant forall slot :: slot in kept <==> slot in listed[..i] && slot !in written
    {
      if listed[i] !in written {
        kept := kept + [listed[i]];
      }
    }
    var seen: set<nat> := {};
    var once: seq<nat> := [];
    for i := 0 to |kept|
      invariant NoDuplicates(once) && seen == set slot | slot in once
      invariant forall slot :: slot in once <==> slot in kept[..i]
    {
      if kept[i] !in seen {
        seen := seen + {kept[i]};
        once := once + [kept[i]];
      }
    }
    r := AccountChanges(existing.address, slots, once,
                        existing.balanceChanges + incoming.balanceChanges,
                        existing.nonceChanges + incoming.nonceChanges,
                        existing.codeChanges + incoming.codeChanges);
    assert listed[..|listed|] == listed && kept[..|kept|] == kept;
    assert r.storageChanges == slots && written == Written(slots);
    hide Written;
    assert forall slot :: slot in once <==> slot in listed && slot !in written;
  }

  // ----------------------------------------------------------- merging a list

  ghost predicate LastAccounts(positions: map<nat, nat>, list: AccessList) {
    && (forall i :: 0 <= i < |list| ==> list[i].address in positions)
    && forall address :: address in positions ==>
         && positions[address] < |list| && list[positions[address]].address == address
         && forall j :: positions[address] < j < |list| ==> list[j].address != address
  }

  lemma {:induction false} ExtendAccount(list: AccessList, i: nat, r: AccountChanges, more: AccountChanges,
                                         address: nat, field: Field)
    requires i < |list| && forall j :: i < j < |list| ==> list[j].address != list[i].address
    requires r.address == list[i].address == more.address
    requires FieldLog(r, field) == FieldLog(list[i], field) + FieldLog(more, field)
    ensures Log(list[i := r], address, field)
      == Log(list, address, field) + (if more.address == address then FieldLog(more, field) else [])
  {
    var n := |list| - 1;
    hide FieldLog;
    if i == n {
      assert list[i := r][..n] == list[..n];
    } else {
      ExtendAccount(list[..n], i, r, more, address, field);
      assert list[i := r][..n] == list[..n][i := r];
    }
  }

  lemma PushAccount(list: AccessList, a: AccountChanges, address: nat, field: Field)
    ensures Log(list + [a], address, field) == Log(list, address, field) +
      (if a.address == address then FieldLog(a, field) else [])
  {
    assert (list + [a])[..|list|] == list;
  }

  /** The list holds for every address what `before` held, followed by what `incoming` adds. */
  ghost predicate Gains(before: AccessList, incoming: AccessList, shift: nat, merged: AccessList) {
    && (forall address, field ::
          Log(merged, address, field) == Log(before, address, field) + Shift(Log(incoming, address, field), shift))
    && (forall address :: WrittenOf(merged, address) == WrittenOf(before, address) + WrittenOf(incoming, address))
    && Addresses(merged) == Addresses(before) + Addresses(incoming)
  }

  /** Reads that no list writes, once each. */
  ghost predicate GainsReads(before: AccessList, incoming: AccessList, merged: AccessList) {
    && TidyList(merged)
    && forall address :: ReadsOf(merged, address)
         == ReadsOf(before, address) + ReadsOf(incoming, address) - WrittenOf(merged, address)
  }

  /** One incoming account, merged into the last entry of its address or pushed. */
  method MergeAccount(merged: AccessList, positions: map<nat, nat>, incoming: AccountChanges)
    returns (list: AccessList, next: map<nat, nat>)
    requires LastAccounts(positions, merged)
    ensures LastAccounts(next, list) && IsAccountMerged(merged, incoming, list)
  {
    hide FieldLog, Tidy;
    if incoming.address in positions {
      var i := positions[incoming.address];
      var r := MergeAccountChanges(merged[i], incoming);
      list := merged[i := r];
      next := positions;
      ReplacedAccount(merged, i, incoming, r);
    } else {
      next := positions[incoming.address := |merged|];
      list := merged + [incoming];
      PushedAccount(merged, incoming);
    }
  }

  /** The effect of one account on the logs, the written slots and the reads. */
  ghost predicate IsAccountMerged(before: AccessList, a: AccountChanges, after: AccessList) {
    && (forall address, field ::
          Log(after, address, field) == Log(before, address, field) +
            (if a.address == address then FieldLog(a, field) else []))
    && (forall address ::
          WrittenOf(after, address) == WrittenOf(before, address) +
            (if a.address == address then Written(a.storageChanges) else {}))
    && Addresses(after) == Addresses(before) + {a.address}
    && (TidyList(before) && Tidy(a) ==>
          && TidyList(after)
          && forall address :: ReadsOf(after, address)
               == if a.address == address
                  then ReadsOf(before, address) + (set s | s in a.storageReads) - WrittenOf(after, address)
                  else ReadsOf(before, address))
  }

  lemma WrittenAt(list: AccessList, address: nat, slot: nat)
    ensures slot in WrittenOf(list, address) <==>
      exists k :: 0 <= k < |list| && list[k].address == address && slot in Written(list[k].storageChanges)
  {
    if slot in WrittenOf(list, address) {
      var a, e :| a in list && a.address == address && e in a.storageChanges && e.slot == slot;
      var k :| 0 <= k < |list| && list[k] == a;
      assert slot in Written(list[k].storageChanges);
    }
  }

  lemma ReadAt(list: AccessList, address: nat, slot: nat)
    ensures slot in ReadsOf(list, address) <==>
      exists k :: 0 <= k < |list| && list[k].address == address && slot in list[k].storageReads
  {
    if slot in ReadsOf(list, address) {
      var a :| a in list && a.address == address && slot in a.storageReads;
      var k :| 0 <= k < |list| && list[k] == a;
      assert slot in list[k].storageReads;
    }
  }

  lemma ReplacedWritten(list: AccessList, i: nat, a: AccountChanges, r: AccountChanges, address: nat)
    requires i < |list| && list[i].address == a.address && IsMergedAccount(list[i], a, r)
    ensures WrittenOf(list[i := r], address)
      == WrittenOf(list, address) + (if a.address == address then Written(a.storageChanges) else {})
  {
    hide Written, FieldLog, WrittenOf, Tidy;
    forall slot
      ensures slot in WrittenOf(list[i := r], address) <==>
        slot in WrittenOf(list, address) || (a.address == address && slot in Written(a.storageChanges))
    {
      WrittenAt(list, address, slot);
      WrittenAt(list[i := r], address, slot);
      if k :| 0 <= k < |list| && list[k].address == address && slot in Written(list[k].storageChanges) {
        assert list[i := r][k].address == address && slot in Written(list[i := r][k].storageChanges);
      }
      if a.address == address && slot in Written(a.storageChanges) {
        assert list[i := r][i].address == address && slot in Written(list[i := r][i].storageChanges);
      }
    }
  }

  lemma ReplacedReads(list: AccessList, i: nat, a: AccountChanges, r: AccountChanges, address: nat)
    requires i < |list| && list[i].address == a.address && IsMergedAccount(list[i], a, r)
    requires DistinctAddresses(list)
    ensures ReadsOf(list[i := r], address)
      == if a.address == address
         then ReadsOf(list, address) + (set s | s in a.storageReads) - Written(r.storageChanges)
         else ReadsOf(list, address)
  {
    hide Written, FieldLog, ReadsOf, Tidy;
    forall slot
      ensures slot in ReadsOf(list[i := r], address) <==>
        if a.address == address
        then (slot in ReadsOf(list, address) || slot in a.storageReads) && slot !in Written(r.storageChanges)
        else slot in ReadsOf(list, address)
    {
      ReadAt(list, address, slot);
      ReadAt(list[i := r], address, slot);
      if a.address == address {
        assert forall k :: 0 <= k < |list| && list[k].address == address ==> k == i;
        assert list[i := r][i].address == address;
      } else {
        assert forall k :: 0 <= k < |list| && list[k].address == address ==> list[i := r][k] == list[k];
      }
    }
  }

  lemma OnlyWritten(list: AccessList, i: nat)
    requires i < |list| && DistinctAddresses(list)
    ensures WrittenOf(list, list[i].address) == Written(list[i].storageChanges)
  {
    hide Written, WrittenOf;
    forall slot ensures slot in WrittenOf(list, list[i].address) <==> slot in Written(list[i].storageChanges) {
      WrittenAt(list, list[i].address, slot);
    }
  }

  lemma ReplacedAddresses(list: AccessList, i: nat, r: AccountChanges)
    requires i < |list| && r.address == list[i].address
    ensures Addresses(list[i := r]) == Addresses(list) + {r.address}
  {
    forall k | 0 <= k < |list| ensures list[k].address in Addresses(list[i := r]) {
      assert list[i := r][k] in list[i := r];
    }
    assert list[i := r][i] in list[i := r];
  }

  lemma ReplacedAccount(list: AccessList, i: nat, a: AccountChanges, r: AccountChanges)
    requires i < |list| && list[i].address == a.address && IsMergedAccount(list[i], a, r)
    requires forall j :: i < j < |list| ==> list[j].address != list[i].address
    ensures IsAccountMerged(list, a, list[i := r])
  {
    hide Written, WrittenOf, ReadsOf, FieldLog, Tidy;
    forall address, field
      ensures Log(list[i := r], address, field) == Log(list, address, field) +
        (if a.address == address then FieldLog(a, field) else [])
    {
      ExtendAccount(list, i, r, a, address, field);
    }
    hide Log;
    ReplacedAddresses(list, i, r);
    hide Addresses;
    forall address
      ensures WrittenOf(list[i := r], address)
        == WrittenOf(list, address) + (if a.address == address then Written(a.storageChanges) else {})
    {
      ReplacedWritten(list, i, a, r, address);
    }
    if TidyList(list) && Tidy(a) {
      assert list[i] in list;
      OnlyWritten(list[i := r], i);
      forall address
        ensures ReadsOf(list[i := r], address)
          == if a.address == address
             then ReadsOf(list, address) + (set s | s in a.storageReads) - WrittenOf(list[i := r], address)
             else ReadsOf(list, address)
      {
        ReplacedReads(list, i, a, r, address);
      }
    }
  }

  lemma PushedAccount(list: AccessList, a: AccountChanges)
    requires forall k :: 0 <= k < |list| ==> list[k].address != a.address
    ensures IsAccountMerged(list, a, list + [a])
  {
    hide FieldLog;
    var r := list + [a];
    forall address, field
      ensures Log(r, address, field) == Log(list, address, field) +
        (if a.address == address then FieldLog(a, field) else [])
    {
      PushAccount(list, a, address, field);
    }
    hide Log, Tidy;
    PushedSets(list, a);
    if TidyList(list) && Tidy(a) {
      TidyAccountKeeps(list, a);
    }
  }

  lemma PushedSets(list: AccessList, a: AccountChanges)
    ensures forall address ::
      WrittenOf(list + [a], address) == WrittenOf(list, address) +
        (if a.address == address then Written(a.storageChanges) else {})
    ensures forall address ::
      ReadsOf(list + [a], address) == ReadsOf(list, address) +
        (if a.address == address then set s | s in a.storageReads else {})
    ensures Addresses(list + [a]) == Addresses(list) + {a.address}
  {
    var r := list + [a];
    assert a in r && forall x :: x in list ==> x in r;
    assert Addresses(r) == Addresses(list) + {a.address};
    forall address
      ensures WrittenOf(r, address) == WrittenOf(list, address) +
        (if a.address == address then Written(a.storageChanges) else {})
    {
    }
    forall address
      ensures ReadsOf(r, address) == ReadsOf(list, address) +
        (if a.address == address then set s | s in a.storageReads else {})
    {
    }
  }

  /** A new tidy account reads none of the slots written under its address. */
  lemma TidyAccountKeeps(list: AccessList, a: AccountChanges)
    requires TidyList(list) && Tidy(a) && forall k :: 0 <= k < |list| ==> list[k].address != a.address
    ensures TidyList(list + [a])
    ensures ReadsOf(list, a.address) + (set s | s in a.storageReads) - WrittenOf(list + [a], a.address)
      == ReadsOf(list, a.address) + (set s | s in a.storageReads)
  {
    assert (list + [a])[|list|] == a;
    OnlyWritten(list + [a], |list|);
    forall slot ensures slot !in ReadsOf(list, a.address) {
      ReadAt(list, a.address, slot);
    }
  }

  /** Shift an incoming list and merge it account by account, for any lists. */
  method MergeBlockAccessList(merged: AccessList, incoming: AccessList, txIndexOffset: nat, segment: nat)
    returns (list: AccessList)
    ensures Gains(merged, incoming, txIndexOffset + 2 * segment, list)
    ensures TidyList(merged) && TidyList(incoming) ==> GainsReads(merged, incoming, list)
  {
    hide Log, FieldLog, WrittenOf, ReadsOf, Tidy, Shift, Written, Addresses;
    var shift := txIndexOffset + 2 * segment;
    var positions: map<nat, nat> := map[];
    for i := 0 to |merged|
      invariant LastAccounts(positions, merged[..i])
    {
      positions := positions[merged[i].address := i];
    }
    assert merged[..|merged|] == merged;
    list := merged;
    NothingGained(merged, incoming, shift);
    for k := 0 to |incoming|
      invariant LastAccounts(positions, list)
      invariant Gains(merged, incoming[..k], shift, list)
      invariant TidyList(merged) && TidyList(incoming) ==> GainsReads(merged, incoming[..k], list)
    {
      var account := ShiftAccountChanges(incoming[k], txIndexOffset, segment);
      ghost var before := list;
      list, positions := MergeAccount(list, positions, account);
      GainAccount(merged, incoming, k, shift, account, before, list);
    }
    assert incoming[..|incoming|] == incoming;
  }

  lemma NothingGained(merged: AccessList, incoming: AccessList, shift: nat)
    ensures Gains(merged, incoming[..0], shift, merged)
    ensures TidyList(merged) ==> GainsReads(merged, incoming[..0], merged)
  {
    assert incoming[..0] == [];
    if TidyList(merged) {
      forall address ensures ReadsOf(merged, address) !! WrittenOf(merged, address) {
        TidyReads(merged, address);
      }
    }
  }

  lemma TidyReads(list: AccessList, address: nat)
    requires TidyList(list)
    ensures ReadsOf(list, address) !! WrittenOf(list, address)
  {
    forall slot | slot in ReadsOf(list, address) ensures slot !in WrittenOf(list, address) {
      ReadAt(list, address, slot);
      WrittenAt(list, address, slot);
      var k :| 0 <= k < |list| && list[k].address == address && slot in list[k].storageReads;
      assert Tidy(list[k]);
    }
  }

  lemma NextAccount(list: AccessList, k: nat)
    requires k < |list|
    ensures forall address, field ::
      Log(list[..k + 1], address, field) == Log(list[..k], address, field) +
        (if list[k].address == address then FieldLog(list[k], field) else [])
    ensures forall address ::
      WrittenOf(list[..k + 1], address) == WrittenOf(list[..k], address) +
        (if list[k].address == address then Written(list[k].storageChanges) else {})
    ensures forall address ::
      ReadsOf(list[..k + 1], address) == ReadsOf(list[..k], address) +
        (if list[k].address == address then set s | s in list[k].storageReads else {})
    ensures Addresses(list[..k + 1]) == Addresses(list[..k]) + {list[k].address}
  {
    assert list[..k + 1] == list[..k] + [list[k]];
    forall address, field
      ensures Log(list[..k + 1], address, field)
        == Log(list[..k], address, field) + (if list[k].address == address then FieldLog(list[k], field) else [])
    {
      PushAccount(list[..k], list[k], address, field);
    }
    PushedSets(list[..k], list[k]);
  }

  lemma GainAccount(merged: AccessList, incoming: AccessList, k: nat, shift: nat, account: AccountChanges,
                    before: AccessList, list: AccessList)
    requires k < |incoming| && Gains(merged, incoming[..k], shift, before)
    requires IsShifted(incoming[k], shift, account) && IsAccountMerged(before, account, list)
    requires TidyList(merged) && TidyList(incoming) ==> GainsReads(merged, incoming[..k], before)
    ensures Gains(merged, incoming[..k + 1], shift, list)
    ensures TidyList(merged) && TidyList(incoming) ==> GainsReads(merged, incoming[..k + 1], list)
  {
    hide Log, FieldLog, WrittenOf, ReadsOf, Tidy, Shift, Written, Addresses;
    NextAccount(incoming, k);
    GainLog(merged, incoming, k, shift, account, before, list);
    if TidyList(merged) && TidyList(incoming) {
      assert incoming[k] in incoming;
      forall address
        ensures ReadsOf(list, address)
          == ReadsOf(merged, address) + ReadsOf(incoming[..k + 1], address) - WrittenOf(list, address)
      {
      }
    }
  }

  lemma GainLog(merged: AccessList, incoming: AccessList, k: nat, shift: nat, account: AccountChanges,
                before: AccessList, list: AccessList)
    requires k < |incoming| && Gains(merged, incoming[..k], shift, before)
    requires IsShifted(incoming[k], shift, account) && IsAccountMerged(before, account, list)
    ensures Gains(merged, incoming[..k + 1], shift, list)
  {
    hide Log, FieldLog, WrittenOf, ReadsOf, TidyList, Tidy, Shift, Written, Addresses;
    NextAccount(incoming, k);
    forall address, field
      ensures Log(list, address, field) == Log(merged, address, field) +
        Shift(Log(incoming[..k + 1], address, field), shift)
    {
      ShiftBoth(Log(incoming[..k], address, field),
                if incoming[k].address == address then FieldLog(incoming[k], field) else [], shift);
      assert Shift([], shift) == [] by { ShiftNothing(shift); }
    }
  }

  lemma ShiftNothing(shift: nat)
    ensures Shift([], shift) == []
  {
  }
}
