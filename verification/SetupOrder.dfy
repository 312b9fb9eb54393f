/**
 Ordering a setup batch before anything is submitted.

 Explicit receipt dependencies and scheduling-key order form one graph; the batch
 is sorted topologically, or refused when the graph has a cycle.
 */
module SetupOrder {
  import opened Wrappers
  import opened Scheduling

  datatype SetupError =
    | WorkloadInSetup(index: nat)
    | MissingId(index: nat)
    | DuplicateId(index: nat)
    | UnknownDependency(index: nat, dependency: string)
    | DependencyCycle(blocked: seq<nat>)

  /** At most this many blocked transactions are named in a cycle report. */
  const MAX_REPORTED := 12

  // ---------------------------------------------------------------- graphs

  /** `g[j]` holds the predecessors of node `j`. */
  type Graph = seq<set<nat>>

  ghost predicate InRange(g: Graph) {
    forall j, i :: 0 <= j < |g| && i in g[j] ==> i < |g|
  }

  /** Consecutive nodes of `p` are joined by edges of `g`. */
  ghost predicate IsWalk(g: Graph, p: seq<nat>) {
    && (forall k :: 0 <= k < |p| ==> p[k] < |g|)
    && (forall k :: 0 < k < |p| ==> p[k - 1] in g[p[k]])
  }

  ghost predicate IsCycle(g: Graph, p: seq<nat>) {
    |p| >= 2 && IsWalk(g, p) && p[0] == p[|p| - 1]
  }

  ghost predicate HasCycle(g: Graph) {
    exists p :: IsCycle(g, p)
  }

  function Elements(s: seq<nat>): set<nat> {
    set x | x in s
  }

  ghost predicate IsPermutation(order: seq<nat>, n: nat) {
    && |order| == n
    && NoDuplicates(order)
    && forall k :: 0 <= k < |order| ==> order[k] < n
  }

  /** Every edge of `g` goes forward in `order`. */
  ghost predicate Respects(g: Graph, order: seq<nat>) {
    forall a, b :: 0 <= a < |order| && 0 <= b < |order| && order[b] < |g| && order[a] in g[order[b]] ==> a < b
  }

  lemma {:induction false} DistinctCount(s: seq<nat>)
    requires NoDuplicates(s)
    ensures |Elements(s)| == |s|
  {
    if s != [] {
      var n := |s| - 1;
      DistinctCount(s[..n]);
      assert s == s[..n] + [s[n]];
      assert Elements(s) == Elements(s[..n]) + {s[n]};
      assert s[n] !in s[..n];
    }
  }

  function Below(n: nat): (r: set<nat>)
    ensures forall x: nat :: x in r <==> x < n
    ensures |r| == n
  {
    if n == 0 then {} else Below(n - 1) + {n - 1}
  }

  lemma SubsetCount(a: set<nat>, b: set<nat>)
    requires a <= b
    ensures |a| <= |b|
    ensures |a| == |b| ==> a == b
  {
    assert b == a + (b - a);
    assert |b| == |a| + |b - a|;
  }

  /** A duplicate-free list of `n` numbers below `n` holds all of them. */
  lemma PermutationCovers(order: seq<nat>, n: nat)
    requires IsPermutation(order, n)
    ensures forall x: nat :: x < n ==> x in order
  {
    DistinctCount(order);
    assert forall x :: x in order ==> x < n;
    assert Elements(order) <= Below(n);
    SubsetCount(Elements(order), Below(n));
    forall x: nat | x < n ensures x in order {
      assert x in Elements(order);
    }
  }

  /** A walk visits the nodes of a respecting order at increasing positions. */
  lemma {:induction false} WalkAscends(g: Graph, order: seq<nat>, p: seq<nat>, a: nat, b: nat)
    requires IsPermutation(order, |g|) && Respects(g, order)
    requires IsWalk(g, p) && |p| >= 2
    requires a < |order| && b < |order| && order[a] == p[0] && order[b] == p[|p| - 1]
    ensures a < b
  {
    if |p| > 2 {
      PermutationCovers(order, |g|);
      assert p[|p| - 2] in order;
      var m :| 0 <= m < |order| && order[m] == p[|p| - 2];
      WalkAscends(g, order, p[..|p| - 1], a, m);
    }
  }

  lemma RespectedGraphIsAcyclic(g: Graph, order: seq<nat>)
    requires IsPermutation(order, |g|) && Respects(g, order)
    ensures !HasCycle(g)
  {
    if HasCycle(g) {
      var p :| IsCycle(g, p);
      PermutationCovers(order, |g|);
      assert p[0] in order;
      var a :| 0 <= a < |order| && order[a] == p[0];
      WalkAscends(g, order, p, a, a);
    }
  }

  /** Walk backwards inside `rest` for `n` steps, arriving at `x`. */
  lemma {:induction false} BackwardWalk(g: Graph, rest: set<nat>, x: nat, n: nat) returns (p: seq<nat>)
    requires x in rest
    requires forall j :: j in rest ==> j < |g| && g[j] * rest != {}
    ensures |p| == n + 1 && IsWalk(g, p) && p[n] == x
    ensures forall k :: 0 <= k < |p| ==> p[k] in rest
    decreases n
  {
    if n == 0 {
      p := [x];
    } else {
      var i :| i in g[x] * rest;
      var q := BackwardWalk(g, rest, i, n - 1);
      p := q + [x];
    }
  }

  /** If every node of a nonempty set has a predecessor inside the set, there is a cycle inside it. */
  lemma StuckSetHasCycle(g: Graph, rest: set<nat>) returns (p: seq<nat>)
    requires rest != {}
    requires forall j :: j in rest ==> j < |g| && g[j] * rest != {}
    ensures IsCycle(g, p) && forall x :: x in p ==> x in rest
  {
    var x :| x in rest;
    var w := BackwardWalk(g, rest, x, |rest|);
    if NoDuplicates(w) {
      DistinctCount(w);
      SubsetCount(Elements(w), rest);
      assert false;
    }
    var a, b :| 0 <= a < b < |w| && w[a] == w[b];
    p := w[a..b + 1];
  }

  // ----------------------------------------------------- the batch's graphs

  ghost predicate ValidTx(txs: seq<GeneratedTx>, i: nat)
    requires i < |txs|
  {
    && txs[i].phase == Setup
    && txs[i].id.Some? && txs[i].id.value != ""
    && forall h :: 0 <= h < i ==> txs[h].id != txs[i].id
  }

  /** Setup phase, nonempty ids and no repeated id among the first `n` transactions. */
  ghost predicate ValidIds(txs: seq<GeneratedTx>, n: nat)
    requires n <= |txs|
  {
    forall i :: 0 <= i < n ==> ValidTx(txs, i)
  }

  /** Transaction `i` carries the id `d`. */
  predicate Names(txs: seq<GeneratedTx>, i: nat, d: string) {
    i < |txs| && txs[i].id == Some(d)
  }

  ghost predicate Known(txs: seq<GeneratedTx>, d: string) {
    exists i :: Names(txs, i, d)
  }

  ghost predicate KnownDependencies(txs: seq<GeneratedTx>, n: nat)
    requires n <= |txs|
  {
    forall j, d :: 0 <= j < n && d in txs[j].dependsOn ==> Known(txs, d)
  }

  /** `i` is named as a dependency of `j`. */
  predicate Depends(txs: seq<GeneratedTx>, i: nat, j: nat)
    requires i < |txs| && j < |txs|
  {
    txs[i].id.Some? && txs[i].id.value in txs[j].dependsOn
  }

  /**
   What the batch declares: explicit dependencies, and input order between any
   two users of the same scheduling key.
   */
  ghost predicate MustPrecede(txs: seq<GeneratedTx>, i: nat, j: nat)
    requires i < |txs| && j < |txs|
  {
    Depends(txs, i, j) || (i < j && KeySet(txs[i]) * KeySet(txs[j]) != {})
  }

  ghost function Declared(txs: seq<GeneratedTx>): (g: Graph)
    ensures |g| == |txs| && InRange(g)
    ensures forall j, i: nat :: 0 <= j < |g| && i < |g| ==> (i in g[j] <==> MustPrecede(txs, i, j))
  {
    seq(|txs|, j requires 0 <= j < |txs| => set i: nat | i < |txs| && MustPrecede(txs, i, j))
  }

  /** The latest transaction before `j` that uses `key`. */
  function LastUser(txs: seq<GeneratedTx>, key: SchedulingKey, j: nat): (r: Option<nat>)
    requires j <= |txs|
    ensures r.Some? ==> r.value < j && key in KeySet(txs[r.value])
    ensures forall m :: (if r.Some? then r.value + 1 else 0) <= m < j ==> key !in KeySet(txs[m])
  {
    if j == 0 then None
    else if key in KeySet(txs[j - 1]) then Some(j - 1)
    else LastUser(txs, key, j - 1)
  }

  /** The edges the sort uses: dependencies and the previous user of each key. */
  function BuiltPreds(txs: seq<GeneratedTx>, j: nat): set<nat>
    requires j < |txs|
  {
    (set i: nat | i < |txs| && Depends(txs, i, j)) +
    (set k | k in KeySet(txs[j]) && LastUser(txs, k, j).Some? :: LastUser(txs, k, j).value)
  }

  function Built(txs: seq<GeneratedTx>): (g: Graph)
    ensures |g| == |txs| && InRange(g)
    ensures forall j :: 0 <= j < |g| ==> g[j] == BuiltPreds(txs, j)
  {
    seq(|txs|, j requires 0 <= j < |txs| => BuiltPreds(txs, j))
  }

  /** Chaining each user of a key to the previous one orders all users of the key. */
  lemma {:induction false} LaneOrder(txs: seq<GeneratedTx>, order: seq<nat>, key: SchedulingKey, a: nat, b: nat)
    requires IsPermutation(order, |txs|) && Respects(Built(txs), order)
    requires a < |order| && b < |order| && order[a] < order[b]
    requires key in KeySet(txs[order[a]]) && key in KeySet(txs[order[b]])
    ensures a < b
    decreases order[b]
  {
    var last := LastUser(txs, key, order[b]);
    assert last.Some? && order[a] <= last.value && last.value in BuiltPreds(txs, order[b]);
    PermutationCovers(order, |txs|);
    assert last.value in order;
    var m :| 0 <= m < |order| && order[m] == last.value;
    if order[a] < last.value {
      LaneOrder(txs, order, key, a, m);
    }
  }

  /** The smaller edge set has the same topological orders as the declared graph. */
  lemma BuiltOrdersDeclared(txs: seq<GeneratedTx>, order: seq<nat>)
    requires IsPermutation(order, |txs|) && Respects(Built(txs), order)
    ensures Respects(Declared(txs), order)
  {
    forall a, b | 0 <= a < |order| && 0 <= b < |order| && order[a] in Declared(txs)[order[b]]
      ensures a < b
    {
      if Depends(txs, order[a], order[b]) {
        assert order[a] in BuiltPreds(txs, order[b]);
      } else {
        var key :| key in KeySet(txs[order[a]]) * KeySet(txs[order[b]]);
        LaneOrder(txs, order, key, a, b);
      }
    }
  }

  lemma BuiltCycle(txs: seq<GeneratedTx>, p: seq<nat>)
    requires IsCycle(Built(txs), p)
    ensures IsCycle(Declared(txs), p)
  {
    forall k | 0 < k < |p|
      ensures p[k - 1] in Declared(txs)[p[k]]
    {
      if !Depends(txs, p[k - 1], p[k]) {
        var key :| key in KeySet(txs[p[k]]) && LastUser(txs, key, p[k]) == Some(p[k - 1]);
        assert key in KeySet(txs[p[k - 1]]) * KeySet(txs[p[k]]);
      }
    }
  }

  lemma JoinWalks(g: Graph, a: seq<nat>, b: seq<nat>)
    requires IsWalk(g, a) && IsWalk(g, b) && a != [] && b != [] && a[|a| - 1] == b[0]
    ensures IsWalk(g, a + b[1..])
  {
  }

  /** From one user of a key to a later one the built graph leads through the users between them. */
  lemma {:induction false} LaneWalk(txs: seq<GeneratedTx>, key: SchedulingKey, i: nat, j: nat) returns (p: seq<nat>)
    requires i < j < |txs| && key in KeySet(txs[i]) && key in KeySet(txs[j])
    ensures IsWalk(Built(txs), p) && |p| >= 2 && p[0] == i && p[|p| - 1] == j
    decreases j
  {
    var last := LastUser(txs, key, j).value;
    assert last in BuiltPreds(txs, j);
    if last == i {
      p := [i, j];
    } else {
      var q := LaneWalk(txs, key, i, last);
      JoinWalks(Built(txs), q, [last, j]);
      p := q + [last, j][1..];
    }
  }

  lemma {:induction false} DeclaredWalk(txs: seq<GeneratedTx>, p: seq<nat>) returns (q: seq<nat>)
    requires IsWalk(Declared(txs), p) && |p| >= 2
    ensures IsWalk(Built(txs), q) && |q| >= 2 && q[0] == p[0] && q[|q| - 1] == p[|p| - 1]
  {
    var n := |p| - 1;
    var edge := DeclaredEdge(txs, p[n - 1], p[n]);
    if n == 1 {
      q := edge;
    } else {
      var before := DeclaredWalk(txs, p[..n]);
      JoinWalks(Built(txs), before, edge);
      q := before + edge[1..];
    }
  }

  lemma DeclaredEdge(txs: seq<GeneratedTx>, i: nat, j: nat) returns (q: seq<nat>)
    requires i < |txs| && j < |txs| && MustPrecede(txs, i, j)
    ensures IsWalk(Built(txs), q) && |q| >= 2 && q[0] == i && q[|q| - 1] == j
  {
    if Depends(txs, i, j) {
      assert i in BuiltPreds(txs, j);
      q := [i, j];
    } else {
      var key :| key in KeySet(txs[i]) * KeySet(txs[j]);
      q := LaneWalk(txs, key, i, j);
    }
  }

  /** The smaller edge set has a cycle exactly when the declared graph has one. */
  lemma BuiltCycleIsDeclared(txs: seq<GeneratedTx>)
    ensures HasCycle(Built(txs)) <==> HasCycle(Declared(txs))
  {
    if p :| IsCycle(Built(txs), p) {
      BuiltCycle(txs, p);
    }
    if p :| IsCycle(Declared(txs), p) {
      var q := DeclaredWalk(txs, p);
      assert IsCycle(Built(txs), q);
    }
  }

  // ------------------------------------------- the order, without counters

  /** The successors of `i` among the first `n` nodes, ascending. */
  function Successors(g: Graph, i: nat, n: nat): (r: seq<nat>)
    requires n <= |g|
    ensures forall j: nat :: j in r <==> j < n && i in g[j]
    ensures NoDuplicates(r)
  {
    if n == 0 then []
    else Successors(g, i, n - 1) + (if i in g[n - 1] then [n - 1] else [])
  }

  predicate Free(g: Graph, j: nat, order: seq<nat>) {
    j < |g| && forall i :: i in g[j] ==> i in order
  }

  /** The nodes of `candidates` whose predecessors have all been emitted. */
  function Freed(g: Graph, candidates: seq<nat>, order: seq<nat>): (r: seq<nat>)
    ensures forall j :: j in r <==> j in candidates && Free(g, j, order)
    ensures NoDuplicates(candidates) ==> NoDuplicates(r)
  {
    if candidates == [] then []
    else
      var n := |candidates| - 1;
      assert candidates == candidates[..n] + [candidates[n]];
      Freed(g, candidates[..n], order) + (if Free(g, candidates[n], order) then [candidates[n]] else [])
  }

  function Upto(n: nat): (r: seq<nat>)
    ensures |r| == n && forall i :: 0 <= i < n ==> r[i] == i
  {
    seq(n, i => i)
  }

  /** Repeatedly emit the oldest ready node, then queue the nodes it freed. */
  function Emit(g: Graph, ready: seq<nat>, order: seq<nat>, fuel: nat): seq<nat>
    decreases fuel
  {
    if ready == [] || fuel == 0 then order
    else
      var order' := order + [ready[0]];
      Emit(g, ready[1..] + Freed(g, Successors(g, ready[0], |g|), order'), order', fuel - 1)
  }

  /** A function of the batch alone: no hash iteration order enters it. */
  function SubmissionOrder(txs: seq<GeneratedTx>): seq<nat> {
    var g := Built(txs);
    Emit(g, Freed(g, Upto(|txs|), []), [], |txs|)
  }

  ghost function Remaining(g: Graph, j: nat, order: seq<nat>): nat
    requires j < |g|
  {
    |g[j] - Elements(order)|
  }

  lemma RemainingAfter(g: Graph, j: nat, order: seq<nat>, x: nat)
    requires j < |g| && x !in order
    ensures Remaining(g, j, order) == Remaining(g, j, order + [x]) + if x in g[j] then 1 else 0
  {
    assert Elements(order + [x]) == Elements(order) + {x};
    if x in g[j] {
      assert g[j] - Elements(order) == (g[j] - Elements(order + [x])) + {x};
    } else {
      assert g[j] - Elements(order) == g[j] - Elements(order + [x]);
    }
  }

  lemma RemainingZero(g: Graph, j: nat, order: seq<nat>)
    requires j < |g|
    ensures Remaining(g, j, order) == 0 <==> Free(g, j, order)
  {
    if Remaining(g, j, order) == 0 {
      assert g[j] - Elements(order) == {};
      forall i | i in g[j] ensures i in order {
        assert i !in g[j] - Elements(order);
      }
    } else {
      var i :| i in g[j] - Elements(order);
      assert i in g[j] && i !in order;
    }
  }

  /** What holds between two rounds of the emitting loop. */
  ghost predicate Emitting(g: Graph, incoming: seq<nat>, ready: seq<nat>, order: seq<nat>) {
    && |incoming| == |g|
    && (forall j :: 0 <= j < |g| ==> incoming[j] == Remaining(g, j, order))
    && Queued(g, ready, order)
  }

  /** The emitted and the waiting nodes are exactly the free ones, each listed once. */
  ghost predicate Queued(g: Graph, ready: seq<nat>, order: seq<nat>) {
    && NoDuplicates(order) && NoDuplicates(ready)
    && (forall j :: j in order ==> j !in ready)
    && (forall j :: j in order || j in ready <==> Free(g, j, order))
    && (forall b :: 0 <= b < |order| ==> Free(g, order[b], order[..b]))
  }

  lemma EmittedFits(g: Graph, order: seq<nat>)
    requires NoDuplicates(order)
    requires forall j :: j in order ==> j < |g|
    ensures |order| <= |g|
    ensures |order| == |g| ==> IsPermutation(order, |g|)
  {
    DistinctCount(order);
    assert Elements(order) <= Below(|g|);
    SubsetCount(Elements(order), Below(|g|));
    assert forall k :: 0 <= k < |order| ==> order[k] in order;
  }

  /** Emission in dependency order respects every edge. */
  lemma EmittedRespects(g: Graph, incoming: seq<nat>, order: seq<nat>)
    requires InRange(g) && Emitting(g, incoming, [], order)
    ensures Respects(g, order)
  {
    forall a, b | 0 <= a < |order| && 0 <= b < |order| && order[b] < |g| && order[a] in g[order[b]]
      ensures a < b
    {
      assert Free(g, order[b], order[..b]);
      var c :| 0 <= c < b && order[..b][c] == order[a];
    }
  }

  /** A drained queue with nodes left over proves a cycle among them. */
  lemma LeftoverHasCycle(g: Graph, incoming: seq<nat>, order: seq<nat>) returns (p: seq<nat>)
    requires InRange(g) && Emitting(g, incoming, [], order)
    requires |order| < |g|
    ensures IsCycle(g, p) && forall x :: x in p ==> x !in order
  {
    var rest := set j: nat | j < |g| && j !in order;
    if rest == {} {
      assert forall x: nat :: x < |g| ==> x in order by {
        forall x: nat | x < |g| ensures x in order { assert x !in rest; }
      }
      DistinctCount(order);
      assert Below(|g|) <= Elements(order);
      SubsetCount(Below(|g|), Elements(order));
      assert false;
    }
    forall j | j in rest ensures g[j] * rest != {} {
      assert !Free(g, j, order);
      var i :| i in g[j] && i !in order;
      assert i in g[j] * rest;
    }
    p := StuckSetHasCycle(g, rest);
  }

  // ------------------------------------------------------------ the method

  ghost predicate IdIndex(txs: seq<GeneratedTx>, ids: map<string, nat>, n: nat)
    requires n <= |txs|
  {
    && (forall d :: d in ids ==> ids[d] < n && txs[ids[d]].id == Some(d))
    && (forall i :: 0 <= i < n ==> txs[i].id.Some? && txs[i].id.value in ids)
  }

  /** The error names the first transaction that breaks a rule about ids, and the rule it breaks. */
  ghost predicate IdFault(txs: seq<GeneratedTx>, e: SetupError) {
    match e
    case WorkloadInSetup(i) => i < |txs| && ValidIds(txs, i) && txs[i].phase != Setup
    case MissingId(i) => i < |txs| && ValidIds(txs, i) && txs[i].phase == Setup && txs[i].id in {None, Some("")}
    case DuplicateId(i) =>
      && i < |txs| && ValidIds(txs, i) && txs[i].phase == Setup
      && txs[i].id !in {None, Some("")} && exists h :: 0 <= h < i && txs[h].id == txs[i].id
    case _ => false
  }

  /** Index every id, reporting the first transaction that breaks a rule. */
  method IndexIds(txs: seq<GeneratedTx>) returns (r: Result<map<string, nat>, SetupError>)
    ensures r.Ok? <==> ValidIds(txs, |txs|)
    ensures r.Ok? ==> IdIndex(txs, r.value, |txs|)
    ensures r.Err? ==> IdFault(txs, r.error)
  {
    var ids: map<string, nat> := map[];
    for index := 0 to |txs|
      invariant ValidIds(txs, index) && IdIndex(txs, ids, index)
    {
      var tx := txs[index];
      if tx.phase != Setup {
        assert !ValidTx(txs, index);
        return Err(WorkloadInSetup(index));
      }
      if tx.id == None || tx.id == Some("") {
        assert !ValidTx(txs, index);
        return Err(MissingId(index));
      }
      if tx.id.value in ids {
        assert txs[ids[tx.id.value]].id == txs[index].id;
        assert !ValidTx(txs, index);
        return Err(DuplicateId(index));
      }
      ids := ids[tx.id.value := index];
    }
    return Ok(ids);
  }

  /** The transactions named in `dependsOn`, or the first name that is unknown. */
  method DependencyIndexes(txs: seq<GeneratedTx>, ids: map<string, nat>, index: nat)
    returns (r: Result<set<nat>, SetupError>)
    requires index < |txs| && ValidIds(txs, |txs|) && IdIndex(txs, ids, |txs|)
    ensures r.Ok? <==> forall d :: d in txs[index].dependsOn ==> Known(txs, d)
    ensures r.Err? ==> r.error.UnknownDependency? && r.error.index == index &&
                       r.error.dependency in txs[index].dependsOn && !Known(txs, r.error.dependency)
    ensures r.Ok? ==> r.value == set i: nat | i < |txs| && Depends(txs, i, index)
  {
    var dependsOn := txs[index].dependsOn;
    var predecessors: set<nat> := {};
    for n := 0 to |dependsOn|
      invariant forall d :: d in dependsOn[..n] ==> Known(txs, d)
      invariant forall i: nat :: i in predecessors <==>
        i < |txs| && txs[i].id.Some? && txs[i].id.value in dependsOn[..n]
    {
      var d := dependsOn[n];
      if d !in ids {
        assert !Known(txs, d);
        return Err(UnknownDependency(index, d));
      }
      assert Names(txs, ids[d], d);
      forall i: nat | i < |txs| && txs[i].id == Some(d) ensures i == ids[d] {
        assert ValidTx(txs, i) && ValidTx(txs, ids[d]);
      }
      predecessors := predecessors + {ids[d]};
    }
    assert dependsOn[..|dependsOn|] == dependsOn;
    return Ok(predecessors);
  }

  /** `previous` maps each key to its latest user before `index`. */
  ghost predicate TracksLastUsers(txs: seq<GeneratedTx>, previous: map<SchedulingKey, nat>, index: nat)
    requires index <= |txs|
  {
    && (forall k :: k in previous <==> LastUser(txs, k, index).Some?)
    && (forall k :: k in previous ==> LastUser(txs, k, index) == Some(previous[k]))
  }

  lemma NoUsersYet(txs: seq<GeneratedTx>)
    ensures TracksLastUsers(txs, map[], 0)
  {
  }

  /** Chain the transaction to the previous user of each of its keys, in any key order. */
  method LanePredecessors(txs: seq<GeneratedTx>, previous: map<SchedulingKey, nat>, index: nat)
    returns (predecessors: set<nat>, previous': map<SchedulingKey, nat>)
    requires index < |txs| && TracksLastUsers(txs, previous, index)
    ensures predecessors ==
      set k | k in KeySet(txs[index]) && LastUser(txs, k, index).Some? :: LastUser(txs, k, index).value
    ensures TracksLastUsers(txs, previous', index + 1)
  {
    hide TracksLastUsers, LastUser;
    previous' := previous;
    predecessors := {};
    var keys := KeySet(txs[index]);
    ghost var seen: set<SchedulingKey> := {};
    while keys != {}
      invariant keys + seen == KeySet(txs[index]) && keys !! seen
      invariant forall k :: k in previous' <==> k in previous || k in seen
      invariant forall k :: k in previous' ==> previous'[k] == if k in seen then index else previous[k]
      invariant predecessors == set k | k in seen && k in previous :: previous[k]
      decreases keys
    {
      var key :| key in keys;
      if key in previous' {
        predecessors := predecessors + {previous'[key]};
      }
      previous' := previous'[key := index];
      keys := keys - {key};
      seen := seen + {key};
    }
    LaneStep(txs, previous, previous', index);
    LanePreds(txs, previous, KeySet(txs[index]), index);
  }

  lemma LaneStep(txs: seq<GeneratedTx>, previous: map<SchedulingKey, nat>, previous': map<SchedulingKey, nat>,
                 index: nat)
    requires index < |txs| && TracksLastUsers(txs, previous, index)
    requires forall k :: k in previous' <==> k in previous || k in KeySet(txs[index])
    requires forall k :: k in previous' ==> previous'[k] == if k in KeySet(txs[index]) then index else previous[k]
    ensures TracksLastUsers(txs, previous', index + 1)
  {
    hide KeySet;
  }

  lemma LanePreds(txs: seq<GeneratedTx>, previous: map<SchedulingKey, nat>, keys: set<SchedulingKey>, index: nat)
    requires index < |txs| && TracksLastUsers(txs, previous, index)
    ensures (set k | k in keys && k in previous :: previous[k]) ==
            set k | k in keys && LastUser(txs, k, index).Some? :: LastUser(txs, k, index).value
  {
    hide LastUser;
  }

  /** Add one edge from each predecessor, in ascending order. */
  method LinkPredecessors(ghost g: Graph, successors: seq<seq<nat>>, incoming: seq<nat>, preds: set<nat>, index: nat)
    returns (successors': seq<seq<nat>>, incoming': seq<nat>)
    requires InRange(g) && index < |g| && |successors| == |g| && |incoming| == |g| && preds == g[index]
    requires forall i :: 0 <= i < |g| ==> successors[i] == Successors(g, i, index)
    requires incoming[index] == 0
    ensures |successors'| == |g|
    ensures forall i :: 0 <= i < |g| ==> successors'[i] == Successors(g, i, index + 1)
    ensures incoming' == incoming[index := |g[index]|]
  {
    hide Successors;
    successors', incoming' := successors, incoming;
    var predecessors := preds;
    while predecessors != {}
      invariant predecessors <= g[index]
      invariant |successors'| == |g|
      invariant forall i :: 0 <= i < |g| ==>
        successors'[i] == successors[i] + if i in g[index] && i !in predecessors then [index] else []
      invariant |predecessors| <= |g[index]|
      invariant incoming' == incoming[index := |g[index]| - |predecessors|]
      decreases predecessors
    {
      var some :| some in predecessors;
      LeastExists(predecessors, some);
      var prior :| prior in predecessors && forall q :: q in predecessors ==> prior <= q;
      successors' := successors'[prior := successors'[prior] + [index]];
      incoming' := incoming'[index := incoming'[index] + 1];
      predecessors := predecessors - {prior};
    }
    NextSuccessors(g, index, successors, successors');
  }

  /** Adjacency lists and in-degrees of the built graph, or the first unknown dependency. */
  method BuildEdges(txs: seq<GeneratedTx>, ids: map<string, nat>)
    returns (r: Result<(seq<seq<nat>>, seq<nat>), SetupError>)
    requires ValidIds(txs, |txs|) && IdIndex(txs, ids, |txs|)
    ensures r.Ok? <==> KnownDependencies(txs, |txs|)
    ensures r.Err? ==> r.error.UnknownDependency? && r.error.index < |txs| &&
                       KnownDependencies(txs, r.error.index) &&
                       r.error.dependency in txs[r.error.index].dependsOn && !Known(txs, r.error.dependency)
    ensures r.Ok? ==> |r.value.0| == |txs| && |r.value.1| == |txs|
    ensures r.Ok? ==> forall i :: 0 <= i < |txs| ==> r.value.0[i] == Successors(Built(txs), i, |txs|)
    ensures r.Ok? ==> forall j :: 0 <= j < |txs| ==> r.value.1[j] == |Built(txs)[j]|
  {
    hide IdIndex, ValidIds, TracksLastUsers, InRange;
    ghost var g := Built(txs);
    var successors: seq<seq<nat>> := seq(|txs|, _ => []);
    var incoming: seq<nat> := seq(|txs|, _ => 0);
    var previous: map<SchedulingKey, nat> := map[];
    NoUsersYet(txs);
    for index := 0 to |txs|
      invariant |successors| == |txs| && |incoming| == |txs|
      invariant KnownDependencies(txs, index)
      invariant forall i :: 0 <= i < |txs| ==> successors[i] == Successors(g, i, index)
      invariant forall j :: 0 <= j < |txs| ==> incoming[j] == if j < index then |g[j]| else 0
      invariant TracksLastUsers(txs, previous, index)
    {
      var found := DependencyIndexes(txs, ids, index);
      if found.Err? {
        return Err(found.error);
      }
      var lanes;
      lanes, previous := LanePredecessors(txs, previous, index);
      successors, incoming := LinkPredecessors(g, successors, incoming, found.value + lanes, index);
    }
    return Ok((successors, incoming));
  }

  lemma {:induction false} LeastExists(s: set<nat>, x: nat)
    requires x in s
    ensures exists y :: y in s && forall q :: q in s ==> y <= q
    decreases x
  {
    if y: nat :| y in s && y < x {
      LeastExists(s, y);
    }
  }

  lemma NextSuccessors(g: Graph, index: nat, before: seq<seq<nat>>, after: seq<seq<nat>>)
    requires index < |g| && |before| == |after| == |g|
    requires forall i :: 0 <= i < |g| ==> before[i] == Successors(g, i, index)
    requires forall i :: 0 <= i < |g| ==> after[i] == before[i] + if i in g[index] then [index] else []
    ensures forall i :: 0 <= i < |g| ==> after[i] == Successors(g, i, index + 1)
  {
  }

  /** The first at most `MAX_REPORTED` nodes, ascending, that were never emitted. */
  function Blocked(order: seq<nat>, n: nat): seq<nat> {
    if n == 0 then []
    else
      var p := Blocked(order, n - 1);
      if n - 1 !in order && |p| < MAX_REPORTED then p + [n - 1] else p
  }

  method BlockedNodes(ghost g: Graph, incoming: seq<nat>, ghost order: seq<nat>) returns (blocked: seq<nat>)
    requires Emitting(g, incoming, [], order)
    ensures blocked == Blocked(order, |g|)
  {
    blocked := [];
    for index := 0 to |incoming|
      invariant blocked == Blocked(order, index)
    {
      RemainingZero(g, index, order);
      assert index in order <==> Free(g, index, order);
      if incoming[index] > 0 && |blocked| < MAX_REPORTED {
        blocked := blocked + [index];
      }
    }
  }

  /** The nodes without predecessors, ascending. */
  method Roots(ghost g: Graph, incoming: seq<nat>) returns (ready: seq<nat>)
    requires |incoming| == |g| && forall j :: 0 <= j < |g| ==> incoming[j] == |g[j]|
    ensures ready == Freed(g, Upto(|g|), [])
    ensures Emitting(g, incoming, ready, [])
  {
    hide Emitting, Free;
    RootsQueued(g, incoming);
    ready := [];
    for index := 0 to |incoming|
      invariant ready == Freed(g, Upto(index), [])
    {
      assert Upto(index + 1)[..index] == Upto(index);
      if incoming[index] == 0 {
        ready := ready + [index];
      }
    }
  }

  lemma RootsQueued(g: Graph, incoming: seq<nat>)
    requires |incoming| == |g| && forall j :: 0 <= j < |g| ==> incoming[j] == |g[j]|
    ensures Emitting(g, incoming, Freed(g, Upto(|g|), []), [])
    ensures forall j :: 0 <= j < |g| ==> (incoming[j] == 0 <==> Free(g, j, []))
  {
    forall j: nat | Free(g, j, []) ensures j in Upto(|g|) {
      assert Upto(|g|)[j] == j;
    }
    forall j | 0 <= j < |g| ensures incoming[j] == Remaining(g, j, []) {
      assert g[j] - Elements([]) == g[j];
    }
    forall j | 0 <= j < |g| ensures incoming[j] == 0 <==> Free(g, j, []) {
      RemainingZero(g, j, []);
    }
  }

  /** Emit until no node is ready. */
  method Drain(ghost g: Graph, successors: seq<seq<nat>>, incoming: seq<nat>, ready: seq<nat>)
    returns (incoming': seq<nat>, order: seq<nat>)
    requires InRange(g) && |successors| == |g|
    requires forall i :: 0 <= i < |g| ==> successors[i] == Successors(g, i, |g|)
    requires Emitting(g, incoming, ready, [])
    ensures Emitting(g, incoming', [], order) && |order| <= |g|
    ensures order == Emit(g, ready, [], |g|)
  {
    hide Emitting, Successors, Emit, Freed;
    order := [];
    incoming' := incoming;
    var queue := ready;
    while queue != []
      invariant Emitting(g, incoming', queue, order)
      invariant |order| <= |g|
      invariant Emit(g, queue, order, |g| - |order|) == Emit(g, ready, [], |g|)
      decreases |g| - |order|
    {
      ghost var before, emitted := queue, order;
      incoming', queue, order := EmitNext(g, successors, incoming', queue, order);
      EmitOnce(g, before, emitted, |g| - |emitted|);
    }
    EmitDone(g, order, |g| - |order|);
  }

  /** One round of the order, as a step of its specification. */
  lemma EmitOnce(g: Graph, ready: seq<nat>, order: seq<nat>, fuel: nat)
    requires ready != [] && fuel > 0
    ensures var order' := order + [ready[0]];
      Emit(g, ready, order, fuel) ==
      Emit(g, ready[1..] + Freed(g, Successors(g, ready[0], |g|), order'), order', fuel - 1)
  {
  }

  lemma EmitDone(g: Graph, order: seq<nat>, fuel: nat)
    ensures Emit(g, [], order, fuel) == order
  {
  }

  /**
   Validate a setup batch and order it. The result is independent of how hash
   sets are iterated, lists every transaction once, and honours every declared
   edge; a batch with valid ids and known dependencies is refused exactly when
   the declared graph has a cycle.
   */
  method SetupSubmissionOrder(txs: seq<GeneratedTx>) returns (r: Result<seq<nat>, SetupError>)
    ensures r.Ok? <==> ValidIds(txs, |txs|) && KnownDependencies(txs, |txs|) && !HasCycle(Declared(txs))
    ensures r.Ok? ==> r.value == SubmissionOrder(txs)
    ensures r.Ok? ==> IsPermutation(r.value, |txs|) && Respects(Declared(txs), r.value)
    ensures r.Err? && r.error.DependencyCycle? ==>
      && ValidIds(txs, |txs|) && KnownDependencies(txs, |txs|) && HasCycle(Declared(txs))
      && r.error.blocked == Blocked(SubmissionOrder(txs), |txs|)
    ensures r.Err? && r.error.UnknownDependency? ==>
      && ValidIds(txs, |txs|) && r.error.index < |txs| && KnownDependencies(txs, r.error.index)
      && r.error.dependency in txs[r.error.index].dependsOn && !Known(txs, r.error.dependency)
    ensures r.Err? && !r.error.DependencyCycle? && !r.error.UnknownDependency? ==>
      !ValidIds(txs, |txs|) && IdFault(txs, r.error)
    ensures r.Err? && r.error.DependencyCycle? ==> CycleOutside(Declared(txs), SubmissionOrder(txs))
  {
    hide HasCycle, Respects, IsPermutation, Successors, ValidIds, KnownDependencies, IdIndex, Known, CycleOutside;
    var indexed := IndexIds(txs);
    if indexed.Err? {
      return Err(indexed.error);
    }
    var edges := BuildEdges(txs, indexed.value);
    if edges.Err? {
      return Err(edges.error);
    }
    r := SortGraph(txs, edges.value.0, edges.value.1);
  }

  /** A cycle among the nodes that the order leaves out. */
  ghost predicate CycleOutside(g: Graph, order: seq<nat>) {
    exists p :: IsCycle(g, p) && forall x :: x in p ==> x !in order
  }

  lemma DeclaredCycle(txs: seq<GeneratedTx>, p: seq<nat>, order: seq<nat>)
    requires IsCycle(Declared(txs), p) && forall x :: x in p ==> x !in order
    ensures HasCycle(Declared(txs)) && CycleOutside(Declared(txs), order)
  {
    hide MustPrecede;
  }

  /** The sort proper, on the counters and adjacency lists of the built graph. */
  method SortGraph(ghost txs: seq<GeneratedTx>, successors: seq<seq<nat>>, incoming: seq<nat>)
    returns (r: Result<seq<nat>, SetupError>)
    requires |successors| == |txs| && |incoming| == |txs|
    requires forall i :: 0 <= i < |txs| ==> successors[i] == Successors(Built(txs), i, |txs|)
    requires forall j :: 0 <= j < |txs| ==> incoming[j] == |Built(txs)[j]|
    ensures r.Ok? <==> !HasCycle(Declared(txs))
    ensures r.Ok? ==> r.value == SubmissionOrder(txs)
    ensures r.Ok? ==> IsPermutation(r.value, |txs|) && Respects(Declared(txs), r.value)
    ensures r.Err? ==> r.error == DependencyCycle(Blocked(SubmissionOrder(txs), |txs|))
    ensures r.Err? ==> CycleOutside(Declared(txs), SubmissionOrder(txs))
  {
    hide HasCycle, Respects, IsPermutation, Successors, Blocked, MustPrecede, BuiltPreds, CycleOutside, IsCycle;
    ghost var g := Built(txs);
    var ready := Roots(g, incoming);
    var counters, order := Drain(g, successors, incoming, ready);
    if |order| != |incoming| {
      ghost var p := LeftoverHasCycle(g, counters, order);
      BuiltCycle(txs, p);
      DeclaredCycle(txs, p, order);
      var blocked := BlockedNodes(g, counters, order);
      return Err(DependencyCycle(blocked));
    }
    EmittedFits(g, order);
    EmittedRespects(g, counters, order);
    BuiltOrdersDeclared(txs, order);
    RespectedGraphIsAcyclic(Declared(txs), order);
    return Ok(order);
  }

  /** One round: emit the oldest ready node and lower its successors' counters. */
  method EmitNext(ghost g: Graph, successors: seq<seq<nat>>, incoming: seq<nat>, ready: seq<nat>, order: seq<nat>)
    returns (incoming': seq<nat>, ready': seq<nat>, order': seq<nat>)
    requires InRange(g) && |successors| == |g|
    requires forall i :: 0 <= i < |g| ==> successors[i] == Successors(g, i, |g|)
    requires Emitting(g, incoming, ready, order) && ready != []
    ensures Emitting(g, incoming', ready', order')
    ensures order' == order + [ready[0]] && |order'| <= |g|
    ensures ready' == ready[1..] + Freed(g, Successors(g, ready[0], |g|), order')
  {
    var index := ready[0];
    assert index in ready;
    order' := order + [index];
    forall j | 0 <= j < |g|
      ensures incoming[j] == Remaining(g, j, order') + if j in successors[index] then 1 else 0
    {
      RemainingAfter(g, j, order, index);
    }
    incoming', ready' := LowerCounters(g, successors[index], incoming, ready[1..], order');
    QueuedAfter(g, ready, order);
  }

  /** The counters still include the edges from the emitted node, so none underflows. */
  method LowerCounters(ghost g: Graph, nexts: seq<nat>, incoming: seq<nat>, ready: seq<nat>, ghost order: seq<nat>)
    returns (incoming': seq<nat>, ready': seq<nat>)
    requires |incoming| == |g| && NoDuplicates(nexts) && forall j :: j in nexts ==> j < |g|
    requires forall j :: 0 <= j < |g| ==> incoming[j] == Remaining(g, j, order) + if j in nexts then 1 else 0
    ensures |incoming'| == |g|
    ensures forall j :: 0 <= j < |g| ==> incoming'[j] == Remaining(g, j, order)
    ensures ready' == ready + Freed(g, nexts, order)
  {
    hide Remaining, Freed, Free;
    ready' := ready;
    incoming' := incoming;
    NoneFreed(g, order);
    assert nexts[..0] == [] && nexts[0..] == nexts;
    for t := 0 to |nexts|
      invariant |incoming'| == |g|
      invariant ready' == ready + Freed(g, nexts[..t], order)
      invariant forall j :: 0 <= j < |g| ==>
        incoming'[j] == Remaining(g, j, order) + if j in nexts[t..] then 1 else 0
    {
      var next := nexts[t];
      assert next in nexts && next < |g|;
      SplitAt(nexts, t);
      FreedOnce(g, nexts, t, order);
      incoming' := incoming'[next := incoming'[next] - 1];
      RemainingZero(g, next, order);
      if incoming'[next] == 0 {
        ready' := ready' + [next];
      }
    }
    assert nexts[..|nexts|] == nexts;
  }

  lemma NoneFreed(g: Graph, order: seq<nat>)
    ensures Freed(g, [], order) == []
  {
  }

  lemma FreedOnce(g: Graph, nexts: seq<nat>, t: nat, order: seq<nat>)
    requires t < |nexts|
    ensures Freed(g, nexts[..t + 1], order) ==
            Freed(g, nexts[..t], order) + if Free(g, nexts[t], order) then [nexts[t]] else []
  {
    hide Free;
    assert nexts[..t + 1][..t] == nexts[..t];
  }

  /** A duplicate-free list falls into an element and those that are not it. */
  lemma SplitAt(nexts: seq<nat>, t: nat)
    requires NoDuplicates(nexts) && t < |nexts|
    ensures nexts[t..] == [nexts[t]] + nexts[t + 1..]
    ensures nexts[t] in nexts[t..] && nexts[t] !in nexts[t + 1..]
    ensures forall j :: j != nexts[t] ==> (j in nexts[t..] <==> j in nexts[t + 1..])
  {
    assert nexts[t..] == [nexts[t]] + nexts[t + 1..];
  }

  lemma Appended(a: seq<nat>, b: seq<nat>)
    requires NoDuplicates(a) && NoDuplicates(b) && forall x :: x in a ==> x !in b
    ensures NoDuplicates(a + b)
    ensures forall x :: x in a + b <==> x in a || x in b
  {
    forall i, j | 0 <= i < j < |a + b| ensures (a + b)[i] != (a + b)[j] {
      if i < |a| <= j {
        assert a[i] in a && b[j - |a|] in b;
      }
    }
  }

  /** Emitting `x` frees exactly the successors of `x` that were not free before. */
  lemma FreeAfter(g: Graph, ready: seq<nat>, order: seq<nat>, x: nat)
    requires InRange(g) && Queued(g, ready, order) && x < |g|
    requires x !in order
    ensures forall j :: Free(g, j, order + [x]) <==>
      Free(g, j, order) || j in Freed(g, Successors(g, x, |g|), order + [x])
    ensures forall j :: j in Freed(g, Successors(g, x, |g|), order + [x]) ==> !Free(g, j, order)
  {
    forall j: nat | Free(g, j, order + [x]) && !Free(g, j, order)
      ensures j in Freed(g, Successors(g, x, |g|), order + [x])
    {
      assert x in g[j];
    }
  }

  lemma QueuedAfter(g: Graph, ready: seq<nat>, order: seq<nat>)
    requires InRange(g) && Queued(g, ready, order) && ready != []
    ensures var order' := order + [ready[0]];
            && Queued(g, ready[1..] + Freed(g, Successors(g, ready[0], |g|), order'), order')
            && |order'| <= |g|
  {
    hide Successors, Freed, Free;
    var x := ready[0];
    var order' := order + [x];
    var freed := Freed(g, Successors(g, x, |g|), order');
    assert x in ready && x !in order;
    FreeInRange(g, order);
    FreeAfter(g, ready, order, x);
    SplitAt(ready, 0);
    assert ready[0..] == ready;
    QueueMoves(g, ready, order, freed);
    EmittedFits(g, order');
  }

  lemma FreeInRange(g: Graph, order: seq<nat>)
    ensures forall j: nat :: Free(g, j, order) ==> j < |g|
  {
  }

  /** The emitted node leaves the queue and the freed ones join it. */
  lemma QueueMoves(g: Graph, ready: seq<nat>, order: seq<nat>, freed: seq<nat>)
    requires Queued(g, ready, order) && ready != [] && NoDuplicates(freed)
    requires var order' := order + [ready[0]];
      && (forall j :: Free(g, j, order') <==> Free(g, j, order) || j in freed)
      && forall j :: j in freed ==> !Free(g, j, order)
    ensures Queued(g, ready[1..] + freed, order + [ready[0]])
    ensures forall j :: j in order + [ready[0]] ==> Free(g, j, order)
  {
    hide Free;
    var x := ready[0];
    var order' := order + [x];
    SplitAt(ready, 0);
    assert ready[0..] == ready;
    Appended(ready[1..], freed);
    Appended(order, [x]);
    forall b | 0 <= b < |order'| ensures Free(g, order'[b], order'[..b]) {
      assert order'[..b] == order[..b];
      assert b == |order| ==> order[..b] == order && x in ready;
    }
  }
}
