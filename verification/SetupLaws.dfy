/**
 What an accepted setup batch promises its submitter, said of the transactions
 themselves, and what the order looks like.
 */
module SetupLaws {
  import opened Wrappers
  import opened Scheduling
  import opened SetupOrder

  ghost predicate UsesKey(tx: GeneratedTx, k: SchedulingKey) {
    k in tx.submissionKeys || k in tx.inclusionKeys
  }

  /** `a` stands before `b` in the order. */
  ghost predicate Before(order: seq<nat>, a: nat, b: nat) {
    exists i, j :: 0 <= i < j < |order| && order[i] == a && order[j] == b
  }

  lemma BeforeOnce(order: seq<nat>, n: nat, a: nat, b: nat)
    requires IsPermutation(order, n) && Before(order, a, b)
    ensures !Before(order, b, a)
  {
  }

  lemma DeclaredBefore(txs: seq<GeneratedTx>, order: seq<nat>, a: nat, b: nat)
    requires IsPermutation(order, |txs|) && Respects(Declared(txs), order)
    requires a < |txs| && b < |txs| && MustPrecede(txs, a, b)
    ensures Before(order, a, b)
  {
    PermutationCovers(order, |txs|);
    assert a in order && b in order;
    var i :| 0 <= i < |order| && order[i] == a;
    var j :| 0 <= j < |order| && order[j] == b;
    assert order[i] in Declared(txs)[order[j]];
  }

  /**
   In an order that respects the declared graph every transaction stands after those
   that it names, and users of a common key stand in input order.
   */
  lemma OrderHonours(txs: seq<GeneratedTx>, order: seq<nat>, a: nat, b: nat)
    requires IsPermutation(order, |txs|) && Respects(Declared(txs), order) && a < |txs| && b < |txs|
    ensures txs[a].id.Some? && txs[a].id.value in txs[b].dependsOn ==> Before(order, a, b)
    ensures a < b && (exists k :: UsesKey(txs[a], k) && UsesKey(txs[b], k)) ==> Before(order, a, b)
  {
    hide Respects, Before, IsPermutation;
    if txs[a].id.Some? && txs[a].id.value in txs[b].dependsOn {
      DeclaredBefore(txs, order, a, b);
    }
    if k :| a < b && UsesKey(txs[a], k) && UsesKey(txs[b], k) {
      assert k in KeySet(txs[a]) * KeySet(txs[b]);
      DeclaredBefore(txs, order, a, b);
    }
  }

  /** The declared graph has no other edges. */
  lemma DeclaredOnly(txs: seq<GeneratedTx>, a: nat, b: nat)
    requires b < |txs| && a in Declared(txs)[b]
    ensures a < |txs|
    ensures (txs[a].id.Some? && txs[a].id.value in txs[b].dependsOn)
         || (a < b && exists k :: UsesKey(txs[a], k) && UsesKey(txs[b], k))
  {
    if !Depends(txs, a, b) {
      var k :| k in KeySet(txs[a]) * KeySet(txs[b]);
      assert UsesKey(txs[a], k) && UsesKey(txs[b], k);
    }
  }

  // ------------------------------------------------------- the first wave

  /** What waits in the queue is emitted first, in the order of the queue. */
  lemma {:induction false} QueueFirst(g: Graph, ready: seq<nat>, order: seq<nat>, fuel: nat, k: nat)
    requires k <= |ready| && k <= fuel
    ensures order + ready[..k] <= Emit(g, ready, order, fuel)
    decreases fuel
  {
    hide Freed, Successors;
    if ready == [] || fuel == 0 {
      assert order + ready[..k] == order;
    } else {
      var order' := order + [ready[0]];
      var ready' := ready[1..] + Freed(g, Successors(g, ready[0], |g|), order');
      var m := if k == 0 then 0 else k - 1;
      QueueFirst(g, ready', order', fuel - 1, m);
      assert order + ready[..k] <= order' + ready'[..m];
    }
  }

  lemma {:induction false} FreedAscends(g: Graph, n: nat, order: seq<nat>)
    ensures forall i, j :: 0 <= i < j < |Freed(g, Upto(n), order)| ==>
      Freed(g, Upto(n), order)[i] < Freed(g, Upto(n), order)[j]
    ensures |Freed(g, Upto(n), order)| <= n
  {
    hide Free;
    if n > 0 {
      FreedAscends(g, n - 1, order);
      assert Upto(n)[..n - 1] == Upto(n - 1);
      var before := Freed(g, Upto(n - 1), order);
      forall i | 0 <= i < |before| ensures before[i] < n - 1 {
        assert before[i] in before;
      }
      FreedLast(g, n, order);
      hide Freed;
    }
  }

  lemma FreedLast(g: Graph, n: nat, order: seq<nat>)
    requires n > 0
    ensures Upto(n)[..n - 1] == Upto(n - 1)
    ensures Freed(g, Upto(n), order) ==
            Freed(g, Upto(n - 1), order) + if Free(g, n - 1, order) then [n - 1] else []
  {
    hide Free;
    assert Upto(n)[..n - 1] == Upto(n - 1);
  }

  /** A transaction that names none of the batch and shares no key with an earlier one. */
  ghost predicate Unconstrained(txs: seq<GeneratedTx>, b: nat)
    requires b < |txs|
  {
    && (forall a :: 0 <= a < |txs| ==> !(txs[a].id.Some? && txs[a].id.value in txs[b].dependsOn))
    && (forall a, k :: 0 <= a < b && UsesKey(txs[a], k) ==> !UsesKey(txs[b], k))
  }

  lemma NamedPredecessor(txs: seq<GeneratedTx>, a: nat, b: nat)
    requires b < |txs| && a in BuiltPreds(txs, b)
    ensures !Unconstrained(txs, b)
  {
    if !Depends(txs, a, b) {
      var k :| k in KeySet(txs[b]) && LastUser(txs, k, b) == Some(a);
      assert UsesKey(txs[a], k) && UsesKey(txs[b], k);
    }
  }

  lemma SomePredecessor(txs: seq<GeneratedTx>, b: nat) returns (a: nat)
    requires b < |txs| && !Unconstrained(txs, b)
    ensures a in BuiltPreds(txs, b)
  {
    if i :| 0 <= i < |txs| && txs[i].id.Some? && txs[i].id.value in txs[b].dependsOn {
      a := i;
      assert Depends(txs, a, b);
    } else {
      var i, k :| 0 <= i < b && UsesKey(txs[i], k) && UsesKey(txs[b], k);
      assert k in KeySet(txs[i]) && k in KeySet(txs[b]);
      a := LastUser(txs, k, b).value;
    }
  }

  lemma FreeIsUnconstrained(txs: seq<GeneratedTx>, b: nat)
    requires b < |txs|
    ensures Free(Built(txs), b, []) <==> Unconstrained(txs, b)
  {
    hide Unconstrained, BuiltPreds;
    if a :| a in BuiltPreds(txs, b) {
      NamedPredecessor(txs, a, b);
    }
    if !Unconstrained(txs, b) {
      var a := SomePredecessor(txs, b);
    }
  }

  /** The order begins with all unconstrained transactions, in input order. */
  lemma UnconstrainedFirst(txs: seq<GeneratedTx>) returns (first: seq<nat>)
    ensures first <= SubmissionOrder(txs)
    ensures forall i, j :: 0 <= i < j < |first| ==> first[i] < first[j]
    ensures forall b: nat :: b in first <==> b < |txs| && Unconstrained(txs, b)
  {
    var g := Built(txs);
    first := Freed(g, Upto(|txs|), []);
    FreedAscends(g, |txs|, []);
    QueueFirst(g, first, [], |txs|, |first|);
    assert [] + first[..|first|] == first;
    forall b: nat | b < |txs| ensures b in first <==> Unconstrained(txs, b) {
      FreeIsUnconstrained(txs, b);
      assert Upto(|txs|)[b] == b;
    }
    hide Unconstrained;
  }

  /** A batch without constraints is submitted in input order. */
  lemma InputOrderKept(txs: seq<GeneratedTx>)
    requires forall b :: 0 <= b < |txs| ==> Unconstrained(txs, b)
    requires IsPermutation(SubmissionOrder(txs), |txs|)
    ensures SubmissionOrder(txs) == Upto(|txs|)
  {
    hide Unconstrained;
    var first := UnconstrainedFirst(txs);
    Ascending(first, |txs|);
  }

  lemma NothingIn(s: seq<nat>)
    ensures (forall b: nat :: b !in s) ==> s == []
  {
    if s != [] {
      assert s[0] in s;
    }
  }

  lemma {:induction false} Ascending(s: seq<nat>, n: nat)
    requires forall i, j :: 0 <= i < j < |s| ==> s[i] < s[j]
    requires forall b: nat :: b in s <==> b < n
    ensures s == Upto(n)
  {
    if n == 0 {
      NothingIn(s);
    } else {
      assert n - 1 in s;
      var k :| 0 <= k < |s| && s[k] == n - 1;
      assert k == |s| - 1 by {
        assert s[|s| - 1] in s;
      }
      var init := s[..k];
      assert forall m :: 0 <= m < k ==> init[m] == s[m] && s[m] < s[k];
      forall b: nat ensures b in init <==> b < n - 1 {
        if b < n - 1 {
          assert b in s;
          var m :| 0 <= m < |s| && s[m] == b;
          assert init[m] == b;
        }
      }
      Ascending(init, n - 1);
    }
  }

  // -------------------------------------------------------- cycle reports

  /** A cycle report names, ascending, the first twelve transactions that were never emitted. */
  lemma {:induction false} ReportNames(order: seq<nat>, n: nat)
    ensures var b := Blocked(order, n);
      && |b| <= 12 && (forall i, j :: 0 <= i < j < |b| ==> b[i] < b[j])
      && (forall x :: x in b ==> x < n && x !in order)
      && (forall x: nat :: x < n && x !in order && x !in b ==> |b| == 12 && forall y :: y in b ==> y < x)
  {
    if n > 0 {
      ReportNames(order, n - 1);
      var before := Blocked(order, n - 1);
      assert forall i :: 0 <= i < |before| ==> before[i] in before;
    }
  }
}
