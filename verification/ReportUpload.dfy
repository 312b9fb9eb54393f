/**
 Uploading a report: batches are split until their encoding fits, encoded by a bounded
 number of concurrent workers, and sent in input order. A request body is modelled by
 the samples it encodes, its length by a size function.
 */
module ReportUpload {
  import opened Wrappers

  type Sample = nat

  type Body = seq<Sample>

  /** Which samples are encoded at all, and how long the encoding of a list is. */
  datatype Encoding = Encoding(valid: Sample -> bool, size: seq<Sample> -> nat)

  /** A part of a list never encodes longer than the whole. */
  ghost predicate Monotone(e: Encoding) {
    forall s: seq<Sample>, t: seq<Sample>, u: seq<Sample> :: e.size(t) <= e.size(s + t + u)
  }

  predicate HasValid(e: Encoding, s: seq<Sample>) {
    exists x :: x in s && e.valid(x)
  }

  function ValidOf(e: Encoding, s: seq<Sample>): seq<Sample> {
    if s == [] then [] else ValidOf(e, s[..|s| - 1]) + if e.valid(s[|s| - 1]) then [s[|s| - 1]] else []
  }

  function Concat<T>(parts: seq<seq<T>>): seq<T> {
    if parts == [] then [] else Concat(parts[..|parts| - 1]) + parts[|parts| - 1]
  }

  datatype UploadError = ReadFailed | SampleTooLarge | Rejected

  // --------------------------------------------------------------- splitting

  /** Halve until each part fits; parts without a valid sample make no request. */
  function Split(e: Encoding, batch: seq<Sample>, maxBytes: nat): (r: Result<seq<Body>, UploadError>)
    ensures r.Err? ==> r.error == SampleTooLarge
    decreases |batch|
  {
    if e.size(batch) > maxBytes then
      if |batch| <= 1 then Err(SampleTooLarge)
      else
        var left := Split(e, batch[..|batch| / 2], maxBytes);
        if left.Err? then left
        else
          var right := Split(e, batch[|batch| / 2..], maxBytes);
          if right.Err? then right else Ok(left.value + right.value)
    else if HasValid(e, batch) then Ok([batch])
    else Ok([])
  }

  method EncodeBoundedRequests(e: Encoding, batch: seq<Sample>, maxBytes: nat, bodies: seq<Body>)
    returns (error: Option<UploadError>, all: seq<Body>)
    ensures error.Some? ==> Split(e, batch, maxBytes) == Err(error.value)
    ensures error.None? ==> Split(e, batch, maxBytes).Ok? && all == bodies + Split(e, batch, maxBytes).value
    decreases |batch|
  {
    all := bodies;
    if e.size(batch) > maxBytes {
      if |batch| <= 1 {
        return Some(SampleTooLarge), all;
      }
      error, all := EncodeBoundedRequests(e, batch[..|batch| / 2], maxBytes, all);
      if error.Some? {
        return;
      }
      error, all := EncodeBoundedRequests(e, batch[|batch| / 2..], maxBytes, all);
    } else {
      if HasValid(e, batch) {
        all := all + [batch];
      }
      error := None;
    }
  }

  lemma {:induction false} ValidBoth(e: Encoding, a: seq<Sample>, b: seq<Sample>)
    ensures ValidOf(e, a + b) == ValidOf(e, a) + ValidOf(e, b)
    decreases |b|
  {
    if b == [] {
      assert a + b == a;
    } else {
      assert (a + b)[..|a + b| - 1] == a + b[..|b| - 1];
      ValidBoth(e, a, b[..|b| - 1]);
    }
  }

  lemma {:induction false} ConcatBoth<T>(a: seq<seq<T>>, b: seq<seq<T>>)
    ensures Concat(a + b) == Concat(a) + Concat(b)
    decreases |b|
  {
    if b == [] {
      assert a + b == a;
    } else {
      var n := |b| - 1;
      assert (a + b)[..|a + b| - 1] == a + b[..n] && (a + b)[|a + b| - 1] == b[n];
      ConcatBoth(a, b[..n]);
      ConcatLast(a + b);
      ConcatLast(b);
      hide Concat;
      assert Concat(a) + Concat(b[..n]) + b[n] == Concat(a) + (Concat(b[..n]) + b[n]);
    }
  }

  lemma ConcatLast<T>(a: seq<seq<T>>)
    requires a != []
    ensures Concat(a) == Concat(a[..|a| - 1]) + a[|a| - 1]
  {
  }

  lemma {:induction false} NothingValid(e: Encoding, s: seq<Sample>)
    requires !HasValid(e, s)
    ensures ValidOf(e, s) == []
  {
    if s != [] {
      assert s[|s| - 1] in s && !HasValid(e, s[..|s| - 1]);
      NothingValid(e, s[..|s| - 1]);
    }
  }

  /** `bodies` are the parts of a cut of `batch` into consecutive slices that hold a valid sample. */
  ghost predicate CutsInto(e: Encoding, batch: seq<Sample>, slices: seq<seq<Sample>>, bodies: seq<Body>) {
    Concat(slices) == batch && bodies == Kept(e, slices)
  }

  function Kept(e: Encoding, slices: seq<seq<Sample>>): seq<seq<Sample>> {
    if slices == [] then []
    else Kept(e, slices[..|slices| - 1]) + if HasValid(e, slices[|slices| - 1]) then [slices[|slices| - 1]] else []
  }

  lemma {:induction false} KeptBoth(e: Encoding, a: seq<seq<Sample>>, b: seq<seq<Sample>>)
    ensures Kept(e, a + b) == Kept(e, a) + Kept(e, b)
    decreases |b|
  {
    if b == [] {
      assert a + b == a;
    } else {
      assert (a + b)[..|a + b| - 1] == a + b[..|b| - 1];
      KeptBoth(e, a, b[..|b| - 1]);
    }
  }

  /**
   A split cuts the batch into consecutive slices, keeps those with a valid sample, and
   so covers all valid samples in order, each body within the limit.
   */
  lemma {:induction false} SplitCovers(e: Encoding, batch: seq<Sample>, maxBytes: nat)
    returns (slices: seq<seq<Sample>>)
    requires Split(e, batch, maxBytes).Ok?
    ensures var bodies := Split(e, batch, maxBytes).value;
      && CutsInto(e, batch, slices, bodies)
      && ValidOf(e, Concat(bodies)) == ValidOf(e, batch)
      && forall b :: b in bodies ==> e.size(b) <= maxBytes && HasValid(e, b)
    decreases |batch|
  {
    if e.size(batch) > maxBytes {
      var left, right := batch[..|batch| / 2], batch[|batch| / 2..];
      assert left + right == batch;
      var l, r := Split(e, left, maxBytes), Split(e, right, maxBytes);
      assert Split(e, batch, maxBytes).value == l.value + r.value;
      var a := SplitCovers(e, left, maxBytes);
      var b := SplitCovers(e, right, maxBytes);
      slices := a + b;
      hide Split, HasValid;
      CoversBoth(e, left, right, a, b, l.value, r.value);
    } else {
      slices := [batch];
      assert [batch][..|[batch]| - 1] == [] && Concat([batch]) == [] + batch == batch;
      assert Kept(e, [batch]) == [] + (if HasValid(e, batch) then [batch] else []);
      assert CutsInto(e, batch, slices, Split(e, batch, maxBytes).value);
      if !HasValid(e, batch) {
        NothingValid(e, batch);
      }
    }
  }

  lemma CoversBoth(e: Encoding, left: seq<Sample>, right: seq<Sample>, a: seq<seq<Sample>>, b: seq<seq<Sample>>,
                   l: seq<Body>, r: seq<Body>)
    requires CutsInto(e, left, a, l) && CutsInto(e, right, b, r)
    requires ValidOf(e, Concat(l)) == ValidOf(e, left) && ValidOf(e, Concat(r)) == ValidOf(e, right)
    ensures CutsInto(e, left + right, a + b, l + r)
    ensures ValidOf(e, Concat(l + r)) == ValidOf(e, left + right)
  {
    hide Concat, Kept, ValidOf;
    ConcatBoth(a, b);
    KeptBoth(e, a, b);
    ConcatBoth(l, r);
    ValidBoth(e, Concat(l), Concat(r));
    ValidBoth(e, left, right);
  }

  /** A batch that fits is sent whole, if it holds anything to send. */
  lemma FittingIsWhole(e: Encoding, batch: seq<Sample>, maxBytes: nat)
    requires e.size(batch) <= maxBytes
    ensures Split(e, batch, maxBytes) == Ok(if ValidOf(e, batch) == [] then [] else [batch])
  {
    if HasValid(e, batch) {
      SomeValid(e, batch);
    } else {
      NothingValid(e, batch);
    }
  }

  lemma {:induction false} SomeValid(e: Encoding, s: seq<Sample>)
    requires HasValid(e, s)
    ensures ValidOf(e, s) != []
  {
    if !e.valid(s[|s| - 1]) {
      var x :| x in s && e.valid(x);
      assert x in s[..|s| - 1];
      SomeValid(e, s[..|s| - 1]);
    }
  }

  /** `b` is a half of a slice that does not fit. */
  ghost predicate HalfOfLarge(e: Encoding, b: seq<Sample>, maxBytes: nat) {
    exists s: seq<Sample> :: e.size(s) > maxBytes && |s| > 1 && (b == s[..|s| / 2] || b == s[|s| / 2..])
  }

  /** A batch is cut only where it has to be: every body is the batch, or a half of what does not fit. */
  lemma {:induction false} CutOnlyIfLarge(e: Encoding, batch: seq<Sample>, maxBytes: nat)
    requires Split(e, batch, maxBytes).Ok?
    ensures forall b :: b in Split(e, batch, maxBytes).value ==> b == batch || HalfOfLarge(e, b, maxBytes)
    decreases |batch|
  {
    if e.size(batch) > maxBytes {
      var left, right := batch[..|batch| / 2], batch[|batch| / 2..];
      CutOnlyIfLarge(e, left, maxBytes);
      CutOnlyIfLarge(e, right, maxBytes);
      assert HalfOfLarge(e, left, maxBytes) && HalfOfLarge(e, right, maxBytes);
    }
  }

  /** Splitting fails exactly when one sample alone is too large. */
  lemma {:induction false} SplitFailsOnLargeSample(e: Encoding, batch: seq<Sample>, maxBytes: nat)
    requires Monotone(e) && e.size([]) == 0
    ensures Split(e, batch, maxBytes).Err? <==> exists i :: 0 <= i < |batch| && e.size([batch[i]]) > maxBytes
    decreases |batch|
  {
    if e.size(batch) > maxBytes {
      if |batch| <= 1 {
        assert batch != [];
        assert batch == [batch[0]];
      } else {
        var half := |batch| / 2;
        var left, right := batch[..half], batch[half..];
        SplitFailsOnLargeSample(e, left, maxBytes);
        SplitFailsOnLargeSample(e, right, maxBytes);
        hide Split;
        forall i | 0 <= i < |batch| ensures batch[i] == if i < half then left[i] else right[i - half] {
        }
        if i :| 0 <= i < |batch| && e.size([batch[i]]) > maxBytes {
          assert if i < half then e.size([left[i]]) > maxBytes else e.size([right[i - half]]) > maxBytes;
        }
        if i :| 0 <= i < |left| && e.size([left[i]]) > maxBytes {
          assert batch[i] == left[i];
        }
        if i :| 0 <= i < |right| && e.size([right[i]]) > maxBytes {
          assert batch[half + i] == right[i];
        }
        SplitHalves(e, batch, maxBytes);
      }
    } else {
      forall i | 0 <= i < |batch| ensures e.size([batch[i]]) <= maxBytes {
        assert batch == batch[..i] + [batch[i]] + batch[i + 1..];
      }
    }
  }

  lemma SplitHalves(e: Encoding, batch: seq<Sample>, maxBytes: nat)
    requires e.size(batch) > maxBytes && |batch| > 1
    ensures Split(e, batch, maxBytes).Err? <==>
      Split(e, batch[..|batch| / 2], maxBytes).Err? || Split(e, batch[|batch| / 2..], maxBytes).Err?
  {
  }

  // --------------------------------------------------------------- uploading

  /**
   One report: its input chunks (none where reading fails), the worker limit, and the
   endpoint's answers, whatever they are, to the requests in the order they are sent.
   */
  datatype Job = Job(
    encoding: Encoding,
    limit: nat,
    chunks: seq<Option<seq<Sample>>>,
    encodeWorkers: nat,
    accepts: nat -> bool)
  {
    /** As many as configured, but at least one. */
    function Workers(): (r: nat)
      ensures r >= 1 && r >= encodeWorkers && (r == 1 || r == encodeWorkers)
    {
      if encodeWorkers > 1 then encodeWorkers else 1
    }
  }

  datatype PreparedBatch = PreparedBatch(idx: nat, samples: nat, bodies: seq<Body>)

  /** Chunk `i` could be read, and each of its samples fits. */
  predicate Sendable(job: Job, i: nat)
    requires i < |job.chunks|
  {
    job.chunks[i].Some? && Split(job.encoding, job.chunks[i].value, job.limit).Ok?
  }

  ghost predicate AllSendable(job: Job) {
    forall i: nat :: i < |job.chunks| ==> Sendable(job, i)
  }

  /** The request bodies of one chunk; one that cannot be sent has none. */
  function BodiesOf(job: Job, i: nat): seq<Body>
    requires i < |job.chunks|
  {
    if Sendable(job, i) then Split(job.encoding, job.chunks[i].value, job.limit).value else []
  }

  /** All bodies of the first `n` chunks, in input order. */
  function AllBodies(job: Job, n: nat): seq<Body>
    requires n <= |job.chunks|
  {
    if n == 0 then [] else AllBodies(job, n - 1) + BodiesOf(job, n - 1)
  }

  function AllSamples(job: Job, n: nat): nat
    requires n <= |job.chunks|
  {
    if n == 0 then 0 else AllSamples(job, n - 1) + if job.chunks[n - 1].Some? then |job.chunks[n - 1].value| else 0
  }

  lemma {:induction false} BodiesGrow(job: Job, m: nat, n: nat)
    requires m <= n <= |job.chunks|
    ensures AllBodies(job, m) <= AllBodies(job, n)
    decreases n
  {
    if m < n {
      BodiesGrow(job, m, n - 1);
    }
  }

  method PrepareBatch(job: Job, idx: nat) returns (r: Result<PreparedBatch, UploadError>)
    requires idx < |job.chunks| && job.chunks[idx].Some?
    ensures r.Ok? ==> IsPrepared(job, idx, r.value)
    ensures r.Err? ==> r.error == SampleTooLarge && !Sendable(job, idx)
  {
    var batch := job.chunks[idx].value;
    var error, bodies := EncodeBoundedRequests(job.encoding, batch, job.limit, []);
    if error.Some? {
      return Err(error.value);
    }
    return Ok(PreparedBatch(idx, |batch|, bodies));
  }

  /** Every request before the `n`th was accepted. */
  ghost predicate AcceptsBelow(job: Job, n: nat) {
    forall k: nat :: k < n ==> job.accepts(k)
  }

  /** Send a batch's bodies as the requests from `first` on; stop at the first refusal. */
  method Send(job: Job, batch: PreparedBatch, first: nat) returns (ok: bool, accepted: seq<Body>)
    requires AcceptsBelow(job, first)
    ensures accepted <= batch.bodies && AcceptsBelow(job, first + |accepted|)
    ensures ok ==> accepted == batch.bodies
    ensures !ok ==> |accepted| < |batch.bodies| && !job.accepts(first + |accepted|)
  {
    ok, accepted := true, [];
    for i := 0 to |batch.bodies|
      invariant ok && accepted == batch.bodies[..i] && AcceptsBelow(job, first + i)
    {
      if !job.accepts(first + i) {
        return false, accepted;
      }
      accepted := accepted + [batch.bodies[i]];
    }
  }

  /** Where the upload stands: chunks taken, workers at work, batches waiting for their turn. */
  datatype Upload = Upload(taken: nat, tasks: set<nat>, prepared: map<nat, PreparedBatch>, next: nat, inputDone: bool)

  const BEGIN := Upload(0, {}, map[], 0, false)

  function Spawned(u: Upload): Upload {
    u.(taken := u.taken + 1, tasks := u.tasks + {u.taken})
  }

  function Joined(u: Upload, idx: nat, batch: PreparedBatch): Upload {
    u.(tasks := u.tasks - {idx}, prepared := u.prepared[idx := batch])
  }

  function Taken(u: Upload): Upload {
    u.(prepared := u.prepared - {u.next}, next := u.next + 1)
  }

  ghost predicate IsPrepared(job: Job, i: nat, batch: PreparedBatch)
    requires i < |job.chunks|
  {
    Sendable(job, i) && batch == PreparedBatch(i, |job.chunks[i].value|, BodiesOf(job, i))
  }

  /** One move: a worker starts, the input ends, some worker finishes, or the next batch goes out. */
  ghost predicate Follows(job: Job, u: Upload, v: Upload) {
    || (u.taken < |job.chunks| && v == Spawned(u))
    || (u.taken == |job.chunks| && v == u.(inputDone := true))
    || (exists idx, batch ::
          idx in u.tasks && idx < |job.chunks| && IsPrepared(job, idx, batch) && v == Joined(u, idx, batch))
    || (u.next in u.prepared && v == Taken(u))
  }

  /** The moves from the beginning to `u`, never with more tasks than workers. */
  ghost predicate Traced(job: Job, trace: seq<Upload>, u: Upload) {
    && trace != [] && trace[0] == BEGIN && trace[|trace| - 1] == u
    && (forall k :: 0 <= k < |trace| - 1 ==> Follows(job, trace[k], trace[k + 1]))
    && (forall k :: 0 <= k < |trace| ==> |trace[k].tasks| <= job.Workers())
  }

  lemma Extends(job: Job, trace: seq<Upload>, u: Upload, v: Upload)
    requires Traced(job, trace, u) && Follows(job, u, v) && |v.tasks| <= job.Workers()
    ensures Traced(job, trace + [v], v)
  {
    hide Follows;
  }

  /** The batches not yet uploaded are at work or prepared, each in one place, and workers are bounded. */
  ghost predicate InOrder(job: Job, u: Upload) {
    && Placed(|job.chunks|, u) && Known(job, u)
    && |u.tasks| <= job.Workers() && (u.inputDone ==> u.taken == |job.chunks|)
  }

  ghost predicate Placed(chunks: nat, u: Upload) {
    && u.next <= u.taken <= chunks
    && u.tasks !! u.prepared.Keys
    && forall i :: i in u.tasks || i in u.prepared <==> u.next <= i < u.taken
  }

  /** Every chunk taken was readable, and every one uploaded or prepared could be split. */
  ghost predicate Known(job: Job, u: Upload) {
    && u.next <= u.taken <= |job.chunks|
    && (forall i: nat :: i < u.taken ==> job.chunks[i].Some?)
    && (forall i: nat :: i < u.next ==> Sendable(job, i))
    && (forall i :: i in u.prepared ==> i < |job.chunks| && IsPrepared(job, i, u.prepared[i]))
  }

  ghost function Work(job: Job, u: Upload): nat {
    (if u.taken <= |job.chunks| then 2 * (|job.chunks| - u.taken) else 0) + 2 * |u.tasks| + |u.prepared|
  }

  /** Spawn workers until they are all busy or the input ends. */
  method FillEncodeTasks(job: Job, u: Upload, ghost trace: seq<Upload>)
    returns (failed: bool, v: Upload, ghost trace': seq<Upload>)
    requires InOrder(job, u) && Traced(job, trace, u)
    ensures InOrder(job, v) && Traced(job, trace', v)
    ensures v.next == u.next <= |job.chunks| && v.prepared == u.prepared && Work(job, v) == Work(job, u)
    ensures !failed ==> v.inputDone || |v.tasks| == job.Workers()
    ensures failed ==> exists i: nat :: i < |job.chunks| && job.chunks[i].None?
  {
    hide Sendable, IsPrepared, Traced, Follows, Placed, Known;
    v, trace' := u, trace;
    InOrderBounds(job, u);
    while !v.inputDone && |v.tasks| < job.Workers()
      invariant InOrder(job, v) && Traced(job, trace', v)
      invariant v.next == u.next && v.prepared == u.prepared && Work(job, v) == Work(job, u)
      decreases |job.chunks| - v.taken, if v.inputDone then 0 else 1
    {
      ghost var before := v;
      InOrderBounds(job, v);
      if v.taken < |job.chunks| {
        if job.chunks[v.taken].None? {
          return true, v, trace';
        }
        SpawnedInOrder(job, v);
        v := v.(taken := v.taken + 1, tasks := v.tasks + {v.taken});
      } else {
        EndedInOrder(job, v);
        v := v.(inputDone := true);
      }
      assert Follows(job, before, v) by { FillFollows(job, before, v); }
      Extends(job, trace', before, v);
      trace' := trace' + [v];
    }
    failed := false;
  }

  lemma FillFollows(job: Job, u: Upload, v: Upload)
    requires (u.taken < |job.chunks| && v == Spawned(u)) || (u.taken == |job.chunks| && v == u.(inputDone := true))
    ensures Follows(job, u, v)
  {
  }

  lemma InOrderBounds(job: Job, u: Upload)
    requires InOrder(job, u)
    ensures u.next <= u.taken <= |job.chunks|
  {
  }

  lemma SpawnedInOrder(job: Job, u: Upload)
    requires InOrder(job, u) && u.taken < |job.chunks| && job.chunks[u.taken].Some? && |u.tasks| < job.Workers()
    requires !u.inputDone
    ensures InOrder(job, Spawned(u)) && Work(job, Spawned(u)) == Work(job, u)
  {
    hide Sendable, IsPrepared;
    SpawnedPlaced(|job.chunks|, u);
    hide Placed;
  }

  lemma EndedInOrder(job: Job, u: Upload)
    requires InOrder(job, u) && u.taken == |job.chunks|
    ensures InOrder(job, u.(inputDone := true)) && Work(job, u.(inputDone := true)) == Work(job, u)
  {
    hide Sendable, IsPrepared;
  }

  lemma SpawnedPlaced(chunks: nat, u: Upload)
    requires Placed(chunks, u) && u.taken < chunks
    ensures u.taken !in u.tasks && Placed(chunks, Spawned(u))
  {
  }

  lemma JoinedPlaced(chunks: nat, u: Upload, idx: nat, batch: PreparedBatch)
    requires Placed(chunks, u) && idx in u.tasks
    ensures idx < u.taken <= chunks && idx !in u.prepared && Placed(chunks, Joined(u, idx, batch))
  {
  }

  lemma JoinedKnown(job: Job, u: Upload, idx: nat, batch: PreparedBatch)
    requires Known(job, u) && idx < |job.chunks| && IsPrepared(job, idx, batch)
    ensures Known(job, Joined(u, idx, batch))
  {
    hide Sendable, IsPrepared;
  }

  lemma TakenPlaced(chunks: nat, u: Upload)
    requires Placed(chunks, u) && u.next in u.prepared
    ensures u.next < u.taken && Placed(chunks, Taken(u))
  {
  }

  /** Some worker finishes, in no particular order, and its batch waits for its turn. */
  method JoinNext(job: Job, u: Upload, ghost trace: seq<Upload>)
    returns (failed: bool, v: Upload, ghost trace': seq<Upload>)
    requires InOrder(job, u) && u.tasks != {} && Traced(job, trace, u)
    ensures Traced(job, trace', v) && InOrder(job, v) && v.next == u.next <= |job.chunks|
    ensures !failed ==> Work(job, v) < Work(job, u)
    ensures failed ==> exists i: nat :: i < |job.chunks| && job.chunks[i].Some? && !Sendable(job, i)
  {
    hide Traced, Follows, Sendable, IsPrepared, Work;
    var idx :| idx in u.tasks;
    JoinedPlaced(|job.chunks|, u, idx, PreparedBatch(0, 0, []));
    var batch := PrepareBatch(job, idx);
    if batch.Err? {
      return true, u, trace;
    }
    v := u.(tasks := u.tasks - {idx}, prepared := u.prepared[idx := batch.value]);
    JoinedInOrder(job, u, idx, batch.value);
    hide InOrder;
    Extends(job, trace, u, v);
    return false, v, trace + [v];
  }

  lemma JoinedInOrder(job: Job, u: Upload, idx: nat, batch: PreparedBatch)
    requires InOrder(job, u) && idx in u.tasks && idx < |job.chunks| && IsPrepared(job, idx, batch)
    ensures var v := Joined(u, idx, batch);
      InOrder(job, v) && v.next <= |job.chunks| && Work(job, v) < Work(job, u)
      && Follows(job, u, v) && |v.tasks| <= job.Workers()
  {
    hide IsPrepared, Sendable, Split, BodiesOf;
    JoinedPlaced(|job.chunks|, u, idx, batch);
    JoinedKnown(job, u, idx, batch);
    JoinFollows(job, u, idx, batch);
    hide Placed, Known, Follows;
    KeysCount(u.prepared, u.prepared[idx := batch], idx);
  }

  lemma JoinFollows(job: Job, u: Upload, idx: nat, batch: PreparedBatch)
    requires idx in u.tasks && idx < |job.chunks| && IsPrepared(job, idx, batch)
    ensures Follows(job, u, Joined(u, idx, batch))
  {
    hide IsPrepared;
  }

  lemma KeysCount(a: map<nat, PreparedBatch>, b: map<nat, PreparedBatch>, idx: nat)
    requires b.Keys == a.Keys + {idx} && idx !in a.Keys
    ensures |b| == |a| + 1
  {
    assert |b| == |b.Keys| && |a| == |a.Keys|;
  }

  /** The next batch in input order leaves the waiting batches. */
  method TakeNext(job: Job, u: Upload, ghost trace: seq<Upload>)
    returns (batch: PreparedBatch, v: Upload, ghost trace': seq<Upload>)
    requires InOrder(job, u) && u.next in u.prepared && Traced(job, trace, u)
    ensures InOrder(job, v) && Traced(job, trace', v) && v.next == u.next + 1 <= |job.chunks|
    ensures Work(job, v) < Work(job, u)
    ensures job.chunks[u.next].Some? && batch.bodies == BodiesOf(job, u.next) &&
      batch.samples == |job.chunks[u.next].value|
  {
    batch := u.prepared[u.next];
    v := u.(prepared := u.prepared - {u.next}, next := u.next + 1);
    TakenInOrder(job, u);
    hide InOrder, Traced, Follows, Sendable, BodiesOf, Work;
    Extends(job, trace, u, v);
    trace' := trace + [v];
  }

  lemma TakenInOrder(job: Job, u: Upload)
    requires InOrder(job, u) && u.next in u.prepared
    ensures u.next < |job.chunks| && IsPrepared(job, u.next, u.prepared[u.next])
    ensures var v := Taken(u);
      InOrder(job, v) && Work(job, v) < Work(job, u) && Follows(job, u, v) && |v.tasks| <= job.Workers()
  {
    var v := Taken(u);
    TakenPlaced(|job.chunks|, u);
    hide Split, BodiesOf, Follows;
    assert Follows(job, u, v) by { TakeFollows(job, u); }
    TakenKnown(job, u);
    hide Known, Placed, Sendable, IsPrepared;
    assert u.prepared.Keys == v.prepared.Keys + {u.next};
    KeysCount(v.prepared, u.prepared, u.next);
  }

  lemma TakeFollows(job: Job, u: Upload)
    requires u.next in u.prepared
    ensures Follows(job, u, Taken(u))
  {
    hide IsPrepared;
  }

  lemma TakenKnown(job: Job, u: Upload)
    requires Known(job, u) && u.next in u.prepared && u.next < u.taken
    ensures IsPrepared(job, u.next, u.prepared[u.next]) && Known(job, Taken(u))
  {
    hide Sendable, BodiesOf;
    assert IsPrepared(job, u.next, u.prepared[u.next]) && Sendable(job, u.next);
    hide IsPrepared;
  }

  /** Send the batch while workers go on finishing. */
  method SendWhileJoining(job: Job, batch: PreparedBatch, first: nat, u: Upload, ghost trace: seq<Upload>)
    returns (error: Option<UploadError>, v: Upload, accepted: seq<Body>, ghost trace': seq<Upload>)
    requires InOrder(job, u) && Traced(job, trace, u) && AcceptsBelow(job, first)
    ensures accepted <= batch.bodies && AcceptsBelow(job, first + |accepted|) && Traced(job, trace', v)
    ensures error.None? ==>
      accepted == batch.bodies && InOrder(job, v) && v.next == u.next && Work(job, v) <= Work(job, u)
    ensures error.Some? ==> Explained(job, error.value, first + |accepted|)
    ensures error == Some(Rejected) ==> |accepted| < |batch.bodies|
  {
    hide InOrder, Work, Traced, AcceptsBelow, Sendable;
    v, trace' := u, trace;
    var ok;
    ok, accepted := Send(job, batch, first);
    var sending := true;
    while sending
      invariant InOrder(job, v) && Traced(job, trace', v) && v.next == u.next && Work(job, v) <= Work(job, u)
      decreases Work(job, v), sending
    {
      var joins: bool := *;
      if v.tasks != {} && joins {
        var failed;
        failed, v, trace' := JoinNext(job, v, trace');
        error := if failed then Some(SampleTooLarge) else None;
        if error.None? {
          failed, v, trace' := FillEncodeTasks(job, v, trace');
          error := if failed then Some(ReadFailed) else None;
        }
        if error.Some? {
          var sent: nat :| sent <= |accepted|;
          FewerAccepted(job, first + |accepted|, first + sent);
          return error, v, accepted[..sent], trace';
        }
      } else {
        sending := false;
      }
    }
    return if ok then None else Some(Rejected), v, accepted, trace';
  }

  lemma FewerAccepted(job: Job, n: nat, m: nat)
    requires AcceptsBelow(job, n) && m <= n
    ensures AcceptsBelow(job, m)
  {
  }

  /** Every error has its cause: an unreadable chunk, a sample that is too large, or a refused request. */
  ghost predicate Explained(job: Job, error: UploadError, sent: nat) {
    match error
    case ReadFailed => exists i: nat :: i < |job.chunks| && job.chunks[i].None?
    case SampleTooLarge => exists i: nat :: i < |job.chunks| && job.chunks[i].Some? && !Sendable(job, i)
    case Rejected => !job.accepts(sent)
  }

  /**
   The whole upload, for every order in which workers finish and whatever the endpoint
   answers. It succeeds exactly when every chunk can be sent and every request is accepted,
   and then every body was accepted once, in input order. Otherwise the accepted bodies are
   a prefix of that order, cut before the first chunk that cannot be sent, and the error has
   its cause. `trace` lists the moves, which never have more tasks than workers.
   */
  method PushReport(job: Job) returns (r: Result<nat, UploadError>, uploaded: seq<Body>, ghost trace: seq<Upload>)
    ensures var all := AllBodies(job, |job.chunks|);
      && uploaded <= all && AcceptsBelow(job, |uploaded|)
      && (r.Ok? <==> AllSendable(job) && AcceptsBelow(job, |all|))
      && (r.Ok? ==> uploaded == all && r.value == AllSamples(job, |job.chunks|))
      && (r.Err? ==> Explained(job, r.error, |uploaded|))
      && (r == Err(Rejected) ==> |uploaded| < |all|)
    ensures forall i: nat :: i < |job.chunks| && !Sendable(job, i) ==> uploaded <= AllBodies(job, i)
    ensures exists u ::
      Traced(job, trace, u) && (r.Ok? ==> u.next == |job.chunks| && u.tasks == {} && u.prepared == map[])
  {
    hide Sendable, BodiesOf, IsPrepared, InOrder, Work, Traced, AcceptsBelow, AllSendable, Explained;
    var u := BEGIN;
    trace := [BEGIN];
    NothingTaken(job);
    var pushed := 0;
    uploaded := [];
    while true
      invariant InOrder(job, u) && u.next <= |job.chunks| && Traced(job, trace, u)
      invariant uploaded == AllBodies(job, u.next) && pushed == AllSamples(job, u.next)
      invariant AcceptsBelow(job, |uploaded|)
      decreases Work(job, u)
    {
      var failed;
      failed, u, trace := FillEncodeTasks(job, u, trace);
      if failed {
        Unreadable(job, |uploaded|);
        Stopped(job, u, uploaded, ReadFailed);
        return Err(ReadFailed), uploaded, trace;
      }
      if u.next in u.prepared {
        var batch, accepted, error;
        batch, u, trace := TakeNext(job, u, trace);
        pushed := pushed + batch.samples;
        ghost var taken := u;
        error, u, accepted, trace := SendWhileJoining(job, batch, |uploaded|, u, trace);
        if error.Some? {
          StoppedWhileSending(job, taken, uploaded, accepted, error.value);
          return Err(error.value), uploaded + accepted, trace;
        }
        uploaded := uploaded + accepted;
        continue;
      }
      if u.inputDone && u.tasks == {} && u.prepared == map[] {
        AllUploaded(job, u);
        break;
      }
      if u.tasks != {} {
        failed, u, trace := JoinNext(job, u, trace);
        if failed {
          Unsplittable(job, |uploaded|);
          Stopped(job, u, uploaded, SampleTooLarge);
          return Err(SampleTooLarge), uploaded, trace;
        }
      } else {
        NothingLeft(job, u);
        assert false;
      }
    }
    return Ok(pushed), uploaded, trace;
  }

  lemma NothingTaken(job: Job)
    ensures InOrder(job, BEGIN) && Traced(job, [BEGIN], BEGIN) && AcceptsBelow(job, 0)
  {
  }

  lemma Unreadable(job: Job, sent: nat)
    requires exists i: nat :: i < |job.chunks| && job.chunks[i].None?
    ensures Explained(job, ReadFailed, sent)
  {
  }

  lemma Unsplittable(job: Job, sent: nat)
    requires exists i: nat :: i < |job.chunks| && job.chunks[i].Some? && !Sendable(job, i)
    ensures Explained(job, SampleTooLarge, sent)
  {
  }

  /** An upload that stops has sent only chunks before any that cannot be sent, and could not have succeeded. */
  lemma Stopped(job: Job, u: Upload, uploaded: seq<Body>, error: UploadError)
    requires InOrder(job, u) && uploaded == AllBodies(job, u.next) && Explained(job, error, |uploaded|)
    requires error == Rejected ==> |uploaded| < |AllBodies(job, |job.chunks|)|
    ensures forall i: nat :: i < |job.chunks| && !Sendable(job, i) ==> uploaded <= AllBodies(job, i)
    ensures uploaded <= AllBodies(job, |job.chunks|)
    ensures !(AllSendable(job) && AcceptsBelow(job, |AllBodies(job, |job.chunks|)|))
  {
    assert forall i: nat :: i < |job.chunks| && job.chunks[i].None? ==> !Sendable(job, i);
    hide Sendable, AllBodies;
    BodiesGrow(job, u.next, |job.chunks|);
    forall i: nat | i < |job.chunks| && !Sendable(job, i) ensures uploaded <= AllBodies(job, i) {
      BodiesGrow(job, u.next, i);
    }
  }

  lemma StoppedWhileSending(job: Job, u: Upload, uploaded: seq<Body>, accepted: seq<Body>, error: UploadError)
    requires InOrder(job, u) && u.next > 0 && Explained(job, error, |uploaded| + |accepted|)
    requires uploaded == AllBodies(job, u.next - 1) && accepted <= BodiesOf(job, u.next - 1)
    requires error == Rejected ==> |accepted| < |BodiesOf(job, u.next - 1)|
    ensures var sent := uploaded + accepted;
      && (forall i: nat :: i < |job.chunks| && !Sendable(job, i) ==> sent <= AllBodies(job, i))
      && sent <= AllBodies(job, |job.chunks|)
      && !(AllSendable(job) && AcceptsBelow(job, |AllBodies(job, |job.chunks|)|))
      && (error == Rejected ==> |sent| < |AllBodies(job, |job.chunks|)|)
  {
    assert forall i: nat :: i < |job.chunks| && job.chunks[i].None? ==> !Sendable(job, i);
    hide Sendable, BodiesOf;
    var whole := AllBodies(job, u.next);
    assert uploaded + accepted <= whole && (error == Rejected ==> |uploaded + accepted| < |whole|);
    hide AllBodies;
    BodiesGrow(job, u.next, |job.chunks|);
    forall i: nat | i < |job.chunks| && !Sendable(job, i) ensures uploaded + accepted <= AllBodies(job, i) {
      BodiesGrow(job, u.next, i);
    }
  }

  lemma AllUploaded(job: Job, u: Upload)
    requires InOrder(job, u) && u.inputDone && u.tasks == {} && u.prepared == map[]
    ensures u.next == |job.chunks| && AllSendable(job)
    ensures forall i: nat :: i < |job.chunks| ==> Sendable(job, i)
  {
    hide Sendable;
    assert u.next < u.taken ==> u.next in u.tasks || u.next in u.prepared;
  }

  /** The loop never waits for nothing: with no worker left, the next batch is prepared or all is done. */
  lemma NothingLeft(job: Job, u: Upload)
    requires InOrder(job, u) && u.tasks == {} && u.next !in u.prepared
    ensures u.prepared == map[] && u.next == u.taken
  {
    hide Sendable;
    assert u.next < u.taken ==> u.next in u.tasks || u.next in u.prepared;
    assert forall i :: i !in u.prepared;
  }

  // -------------------------------------------------------------- the whole

  /** The samples of the first `n` chunks, in input order. */
  function Input(job: Job, n: nat): seq<Sample>
    requires n <= |job.chunks|
  {
    if n == 0 then [] else Input(job, n - 1) + if job.chunks[n - 1].Some? then job.chunks[n - 1].value else []
  }

  lemma NoBodies(job: Job)
    ensures Concat(AllBodies(job, 0)) == Input(job, 0)
  {
  }

  lemma ChunkCovers(job: Job, i: nat)
    requires i < |job.chunks| && AllSendable(job)
    ensures job.chunks[i].Some?
    ensures ValidOf(job.encoding, Concat(BodiesOf(job, i))) == ValidOf(job.encoding, job.chunks[i].value)
  {
    assert Sendable(job, i);
    hide Split, ValidOf, Concat, CutsInto;
    var slices := SplitCovers(job.encoding, job.chunks[i].value, job.limit);
  }

  lemma {:induction false} BodiesCover(job: Job, n: nat)
    requires n <= |job.chunks| && AllSendable(job)
    ensures ValidOf(job.encoding, Concat(AllBodies(job, n))) == ValidOf(job.encoding, Input(job, n))
    ensures AllSamples(job, n) == |Input(job, n)|
  {
    hide Split, ValidOf, Concat, BodiesOf, Monotone;
    if n == 0 {
      NoBodies(job);
    } else {
      BodiesCover(job, n - 1);
      ChunkCovers(job, n - 1);
      var chunk := job.chunks[n - 1].value;
      ConcatBoth(AllBodies(job, n - 1), BodiesOf(job, n - 1));
      ValidBoth(job.encoding, Concat(AllBodies(job, n - 1)), Concat(BodiesOf(job, n - 1)));
      ValidBoth(job.encoding, Input(job, n - 1), chunk);
    }
  }

  /** A finished upload has sent every valid sample of the report once, in input order, and counts all samples. */
  lemma UploadCovers(job: Job, uploaded: seq<Body>, count: nat)
    requires AllSendable(job)
    requires uploaded == AllBodies(job, |job.chunks|) && count == AllSamples(job, |job.chunks|)
    ensures ValidOf(job.encoding, Concat(uploaded)) == ValidOf(job.encoding, Input(job, |job.chunks|))
    ensures count == |Input(job, |job.chunks|)|
  {
    BodiesCover(job, |job.chunks|);
  }
}
