/**
 When the count of disagreements does not depend on the order of arrival.

 The count of a log is the sum of one count per record, each a function of the
 digests that this record's answers carried, in order. Reordering the log leaves
 the count alone exactly when every record's answers are balanced.
 */
module ReplayOrder {
  import opened Wrappers
  import opened ReplayRecorder

  /** One answer of a record: its digest, and whether it belongs to the first pass. */
  datatype Answer = Answer(digest: nat, first: bool)

  function AnswerOf(o: Observation, slot: nat): seq<Answer> {
    if o.slot == slot && o.response.Some? then [Answer(o.response.value.digest, o.authoritative)] else []
  }

  /** The answers of one record, in order of arrival. */
  function Answers(log: seq<Observation>, slot: nat): seq<Answer> {
    if log == [] then [] else AnswerOf(log[0], slot) + Answers(log[1..], slot)
  }

  /** The digest compared with, after one more answer. */
  function NextDigest(known: Option<nat>, x: Answer): Option<nat> {
    if known.None? || x.first then Some(x.digest) else known
  }

  function FinalDigest(known: Option<nat>, q: seq<Answer>): Option<nat>
    decreases |q|
  {
    if q == [] then known else FinalDigest(NextDigest(known, q[0]), q[1..])
  }

  function Differs(known: Option<nat>, x: Answer): nat {
    if known.Some? && known.value != x.digest then 1 else 0
  }

  /** How many answers differ from the digest they are compared with. */
  function Disagreements(known: Option<nat>, q: seq<Answer>): nat
    decreases |q|
  {
    if q == [] then 0 else Differs(known, q[0]) + Disagreements(NextDigest(known, q[0]), q[1..])
  }

  /** The disagreements of the first `n` records. */
  function Sum(log: seq<Observation>, n: nat): nat {
    if n == 0 then 0 else Sum(log, n - 1) + Disagreements(None, Answers(log, n - 1))
  }

  // --------------------------------------------- the total is a sum by record

  lemma {:induction false} AnswersAppend(a: seq<Observation>, b: seq<Observation>, slot: nat)
    ensures Answers(a + b, slot) == Answers(a, slot) + Answers(b, slot)
  {
    if a == [] {
      assert a + b == b;
    } else {
      assert (a + b)[0] == a[0] && (a + b)[1..] == a[1..] + b;
      AnswersAppend(a[1..], b, slot);
    }
  }

  lemma AnswersLast(log: seq<Observation>, slot: nat)
    requires log != []
    ensures var n := |log| - 1; Answers(log, slot) == Answers(log[..n], slot) + AnswerOf(log[n], slot)
  {
    var n := |log| - 1;
    assert log == log[..n] + [log[n]] && [log[n]][1..] == [];
    AnswersAppend(log[..n], [log[n]], slot);
  }

  lemma {:induction false} LastAnswer(known: Option<nat>, q: seq<Answer>, x: Answer)
    ensures FinalDigest(known, q + [x]) == NextDigest(FinalDigest(known, q), x)
    ensures Disagreements(known, q + [x]) == Disagreements(known, q) + Differs(FinalDigest(known, q), x)
    decreases |q|
  {
    if q == [] {
      assert q + [x] == [x] && [x][1..] == [];
    } else {
      assert (q + [x])[0] == q[0] && (q + [x])[1..] == q[1..] + [x];
      LastAnswer(NextDigest(known, q[0]), q[1..], x);
    }
  }

  function DigestOf(r: Option<Reference>): Option<nat> {
    if r.Some? then Some(r.value.digest) else None
  }

  /** Two logs that differ in one record only differ by that record's count. */
  lemma {:induction false} SumChanges(log: seq<Observation>, other: seq<Observation>, slot: nat, n: nat)
    requires forall t: nat :: t != slot ==> Answers(log, t) == Answers(other, t)
    ensures if slot < n then
        Sum(log, n) + Disagreements(None, Answers(other, slot)) ==
        Sum(other, n) + Disagreements(None, Answers(log, slot))
      else Sum(log, n) == Sum(other, n)
  {
    hide Disagreements, Answers;
    if n > 0 {
      SumChanges(log, other, slot, n - 1);
    }
  }

  lemma SumLast(log: seq<Observation>, n: nat)
    requires log != []
    ensures var o := log[|log| - 1]; var before := log[..|log| - 1];
      if o.slot < n then
        Sum(log, n) + Disagreements(None, Answers(before, o.slot)) ==
        Sum(before, n) + Disagreements(None, Answers(log, o.slot))
      else Sum(log, n) == Sum(before, n)
  {
    hide Disagreements, Answers, Sum;
    var before := log[..|log| - 1];
    forall slot: nat ensures slot != log[|log| - 1].slot ==> Answers(log, slot) == Answers(before, slot) {
      AnswersLast(log, slot);
    }
    SumChanges(log, before, log[|log| - 1].slot, n);
  }

  /** What one observation does to its own record, and to no other. */
  lemma ObserveRecord(records: seq<RecordKey>, cap: nat, t: Tally, o: Observation)
    requires o.slot < |records| == |t.references|
    ensures var t' := Observe(records, cap, t, o); var known := DigestOf(t.references[o.slot]);
      && (forall slot :: 0 <= slot < |records| && slot != o.slot ==> t'.references[slot] == t.references[slot])
      && (AnswerOf(o, o.slot) == [] ==> t'.total == t.total && t'.references == t.references)
      && (AnswerOf(o, o.slot) != [] ==>
            && t'.total == t.total + Differs(known, AnswerOf(o, o.slot)[0])
            && DigestOf(t'.references[o.slot]) == NextDigest(known, AnswerOf(o, o.slot)[0]))
  {
  }

  /** Each record's reference and count depend on its own answers only, and the total adds the counts up. */
  lemma {:induction false} TotalIsSum(records: seq<RecordKey>, cap: nat, log: seq<Observation>)
    requires InCorpus(records, log)
    ensures var t := Replay(records, cap, log);
      && t.total == Sum(log, |records|)
      && forall slot :: 0 <= slot < |records| ==> DigestOf(t.references[slot]) == FinalDigest(None, Answers(log, slot))
  {
    hide Observe, Sum, Disagreements, FinalDigest, Answers, Differs, NextDigest;
    if log == [] {
      EmptySum(|records|);
    } else {
      var n := |log| - 1;
      var o := log[n];
      assert o in log && forall p :: p in log[..n] ==> p in log;
      TotalIsSum(records, cap, log[..n]);
      var before := Replay(records, cap, log[..n]);
      assert Replay(records, cap, log) == Observe(records, cap, before, o);
      ObserveRecord(records, cap, before, o);
      hide Replay;
      SumLast(log, |records|);
      RecordLast(log);
    }
  }

  /** The last observation changes its own record's answers only. */
  lemma RecordLast(log: seq<Observation>)
    requires log != []
    ensures var o := log[|log| - 1]; var before := log[..|log| - 1];
      && (forall slot: nat :: slot != o.slot ==> Answers(log, slot) == Answers(before, slot))
      && (AnswerOf(o, o.slot) == [] ==> Answers(log, o.slot) == Answers(before, o.slot))
      && (AnswerOf(o, o.slot) != [] ==>
            && FinalDigest(None, Answers(log, o.slot)) ==
               NextDigest(FinalDigest(None, Answers(before, o.slot)), AnswerOf(o, o.slot)[0])
            && Disagreements(None, Answers(log, o.slot)) == Disagreements(None, Answers(before, o.slot)) +
               Differs(FinalDigest(None, Answers(before, o.slot)), AnswerOf(o, o.slot)[0]))
  {
    hide Answers, Disagreements, FinalDigest, Differs, NextDigest;
    var o, before := log[|log| - 1], log[..|log| - 1];
    forall slot: nat ensures Answers(log, slot) == Answers(before, slot) + AnswerOf(o, slot) {
      AnswersLast(log, slot);
    }
    if AnswerOf(o, o.slot) != [] {
      LastAnswer(None, Answers(before, o.slot), AnswerOf(o, o.slot)[0]);
    }
  }

  // ------------------------------------------------- which records are listed

  /** The record of each counted answer, in order of arrival. */
  function Counted(records: seq<RecordKey>, log: seq<Observation>): seq<RecordKey>
    requires InCorpus(records, log)
  {
    if log == [] then []
    else
      var n := |log| - 1;
      assert log[n] in log && forall o :: o in log[..n] ==> o in log;
      var x := AnswerOf(log[n], log[n].slot);
      Counted(records, log[..n]) +
      if x != [] && Differs(FinalDigest(None, Answers(log[..n], log[n].slot)), x[0]) == 1
      then [records[log[n].slot]]
      else []
  }

  /** The reported list names the records of the first counted answers, up to the cap. */
  lemma {:induction false} ListNamesCounted(records: seq<RecordKey>, cap: nat, log: seq<Observation>)
    requires InCorpus(records, log)
    ensures var t := Replay(records, cap, log); var all := Counted(records, log);
      |all| == t.total && t.differing == if t.total <= cap then all else all[..cap]
  {
    hide FinalDigest, Answers, Differs;
    if log != [] {
      var n := |log| - 1;
      var o := log[n];
      assert o in log && forall p :: p in log[..n] ==> p in log;
      ListNamesCounted(records, cap, log[..n]);
      TotalIsSum(records, cap, log[..n]);
      var before := Replay(records, cap, log[..n]);
      assert Replay(records, cap, log) == Observe(records, cap, before, o);
      hide Replay, Sum;
      ObserveRecord(records, cap, before, o);
      ObserveLists(records, cap, before, o);
    }
  }

  lemma ObserveLists(records: seq<RecordKey>, cap: nat, t: Tally, o: Observation)
    requires o.slot < |records| == |t.references|
    ensures var t' := Observe(records, cap, t, o);
      t'.differing == if t'.total > t.total && |t.differing| < cap then t.differing + [records[o.slot]] else t.differing
    ensures var t' := Observe(records, cap, t, o); t'.total <= t.total + 1
  {
  }

  lemma {:induction false} EmptySum(n: nat)
    ensures Sum([], n) == 0
    ensures forall slot :: FinalDigest(None, Answers([], slot)) == None
  {
    if n > 0 {
      EmptySum(n - 1);
    }
  }

  // ------------------------------------------------------ one record's answers

  /** How many answers carry digest `d`. */
  function Carrying(m: multiset<Answer>, d: nat): nat {
    m[Answer(d, true)] + m[Answer(d, false)]
  }

  ghost predicate HasFirst(m: multiset<Answer>) {
    exists d :: Answer(d, true) in m
  }

  ghost predicate AllAlike(m: multiset<Answer>) {
    forall d :: Carrying(m, d) == 0 || Carrying(m, d) == |m|
  }

  ghost predicate AllDistinct(m: multiset<Answer>) {
    forall d :: Carrying(m, d) <= 1
  }

  ghost predicate EquallyOften(m: multiset<Answer>) {
    forall d, e :: Carrying(m, d) > 0 && Carrying(m, e) > 0 ==> Carrying(m, d) == Carrying(m, e)
  }

  /**
   With a first-pass answer, the digests are all alike or all distinct; without
   one, every digest that occurs does so equally often.
   */
  ghost predicate Balanced(m: multiset<Answer>) {
    if HasFirst(m) then AllAlike(m) || AllDistinct(m) else EquallyOften(m)
  }

  lemma Unfold(q: seq<Answer>)
    requires q != []
    ensures multiset(q) == multiset{q[0]} + multiset(q[1..])
    ensures forall d :: Carrying(multiset(q), d) == Carrying(multiset(q[1..]), d) + if q[0].digest == d then 1 else 0
  {
    assert q == [q[0]] + q[1..];
  }

  /** While no first-pass answer changes it, the digest compared with stays. */
  lemma {:induction false} LaterAnswers(known: nat, q: seq<Answer>)
    requires forall x :: x in q && x.first ==> x.digest == known
    ensures Disagreements(Some(known), q) == |q| - Carrying(multiset(q), known)
    ensures FinalDigest(Some(known), q) == Some(known)
  {
    if q != [] {
      Unfold(q);
      assert q[0] in q && forall x :: x in q[1..] ==> x in q;
      assert NextDigest(Some(known), q[0]) == Some(known);
      LaterAnswers(known, q[1..]);
    }
  }

  lemma {:induction false} AlikeAnswers(known: nat, q: seq<Answer>)
    requires forall x :: x in q ==> x.digest == known
    ensures Disagreements(Some(known), q) == 0
  {
    if q != [] {
      assert q[0] in q && forall x :: x in q[1..] ==> x in q;
      AlikeAnswers(known, q[1..]);
    }
  }

  lemma {:induction false} DistinctAnswers(known: nat, q: seq<Answer>)
    requires AllDistinct(multiset(q)) && Carrying(multiset(q), known) == 0
    ensures Disagreements(Some(known), q) == |q|
    decreases |q|
  {
    if q != [] {
      Unfold(q);
      assert Carrying(multiset(q), q[0].digest) <= 1;
      assert forall d :: Carrying(multiset(q[1..]), d) <= Carrying(multiset(q), d);
      DistinctAnswers(NextDigest(Some(known), q[0]).value, q[1..]);
    }
  }

  /** Balanced answers disagree equally often in every order. */
  lemma BalancedCount(q: seq<Answer>, r: seq<Answer>)
    requires Balanced(multiset(q)) && multiset(q) == multiset(r)
    ensures Disagreements(None, q) == Disagreements(None, r)
  {
    assert |q| == |multiset(q)| == |multiset(r)| == |r|;
    if q != [] {
      FirstCarries(q);
      FirstCarries(r);
      if !HasFirst(multiset(q)) {
        UnauthenticCount(q);
        UnauthenticCount(r);
        assert Carrying(multiset(q), q[0].digest) == Carrying(multiset(q), r[0].digest);
      } else if AllAlike(multiset(q)) {
        AlikeCount(q);
        AlikeCount(r);
      } else {
        DistinctCount(q);
        DistinctCount(r);
      }
    }
  }

  lemma FirstCarries(q: seq<Answer>)
    requires q != []
    ensures Carrying(multiset(q), q[0].digest) > 0
  {
    Unfold(q);
  }

  lemma UnauthenticCount(q: seq<Answer>)
    requires q != [] && !HasFirst(multiset(q))
    ensures Disagreements(None, q) == |q| - Carrying(multiset(q), q[0].digest)
  {
    forall x | x in q ensures !x.first {
      assert x in multiset(q);
      assert x == Answer(x.digest, x.first);
    }
    Unfold(q);
    LaterAnswers(q[0].digest, q[1..]);
  }

  lemma AlikeCount(q: seq<Answer>)
    requires q != [] && AllAlike(multiset(q))
    ensures Disagreements(None, q) == 0
  {
    var d := q[0].digest;
    FirstCarries(q);
    forall x | x in q ensures x.digest == d {
      if x.digest != d {
        CarryingTwo(multiset(q), x, d);
      }
    }
    AlikeAnswers(d, q[1..]);
  }

  /** A digest carried by everything leaves no room for another one. */
  lemma CarryingTwo(m: multiset<Answer>, x: Answer, d: nat)
    requires x in m && x.digest != d
    ensures Carrying(m, d) < |m|
  {
    var rest := m[Answer(d, true) := 0][Answer(d, false) := 0];
    assert x in rest;
    assert m == rest + multiset{}[Answer(d, true) := m[Answer(d, true)]][Answer(d, false) := m[Answer(d, false)]];
  }

  lemma DistinctCount(q: seq<Answer>)
    requires q != [] && AllDistinct(multiset(q))
    ensures Disagreements(None, q) == |q| - 1
  {
    Unfold(q);
    assert Carrying(multiset(q), q[0].digest) <= 1;
    assert forall d :: Carrying(multiset(q[1..]), d) <= Carrying(multiset(q), d);
    DistinctAnswers(q[0].digest, q[1..]);
  }

  // ------------------------------------------------------- whole logs

  /** Reordering a log reorders each record's answers. */
  lemma {:induction false} SameAnswers(log: seq<Observation>, other: seq<Observation>, slot: nat)
    requires multiset(log) == multiset(other)
    ensures multiset(Answers(log, slot)) == multiset(Answers(other, slot))
  {
    if log == [] {
      assert |other| == |multiset(other)| == |multiset(log)| == 0;
    } else {
      assert log[0] in multiset(log) && log[0] in multiset(other);
      var i :| 0 <= i < |other| && other[i] == log[0];
      var rest := other[..i] + other[i + 1..];
      Without(other, i);
      assert log == [log[0]] + log[1..];
      assert multiset(log) == multiset{log[0]} + multiset(log[1..]);
      assert multiset(log[1..]) == multiset(log) - multiset{log[0]} == multiset(rest);
      SameAnswers(log[1..], rest, slot);
      PulledAnswers(other, i, slot);
    }
  }

  lemma Without(log: seq<Observation>, i: nat)
    requires i < |log|
    ensures multiset(log) == multiset{log[i]} + multiset(log[..i] + log[i + 1..])
  {
    assert log == log[..i] + [log[i]] + log[i + 1..];
  }

  /** Taking one observation out takes its answer out. */
  lemma PulledAnswers(log: seq<Observation>, i: nat, slot: nat)
    requires i < |log|
    ensures var rest := log[..i] + log[i + 1..];
      && multiset(Answers(log, slot)) == multiset(AnswerOf(log[i], slot)) + multiset(Answers(rest, slot))
      && (log[i].slot != slot ==> Answers(log, slot) == Answers(rest, slot))
  {
    hide Answers;
    var a, b := log[..i], log[i + 1..];
    assert log == a + ([log[i]] + b);
    AnswersAppend(a, [log[i]] + b, slot);
    AnswersAppend(a, b, slot);
    FrontAnswers(log[i], b, slot);
    TakenOut(Answers(a, slot), AnswerOf(log[i], slot), Answers(b, slot));
  }

  lemma FrontAnswers(o: Observation, b: seq<Observation>, slot: nat)
    ensures Answers([o] + b, slot) == AnswerOf(o, slot) + Answers(b, slot)
  {
    assert ([o] + b)[1..] == b;
  }

  lemma TakenOut(a: seq<Answer>, x: seq<Answer>, b: seq<Answer>)
    ensures multiset(a + (x + b)) == multiset(x) + multiset(a + b)
    ensures x == [] ==> a + (x + b) == a + b
  {
    assert multiset(a + (x + b)) == multiset(a) + multiset(x + b);
    assert multiset(x + b) == multiset(x) + multiset(b);
  }

  /** `rest` is the log without one observation of the record, whose answer is `x`. */
  ghost predicate Pulls(log: seq<Observation>, slot: nat, x: Answer, o: Observation, rest: seq<Observation>) {
    && multiset(log) == multiset([o] + rest) && o.slot == slot && AnswerOf(o, slot) == [x]
    && multiset(Answers(log, slot)) == multiset{x} + multiset(Answers(rest, slot))
    && forall t: nat :: t != slot ==> Answers(log, t) == Answers(rest, t)
  }

  lemma {:induction false} FindAnswer(log: seq<Observation>, slot: nat, x: Answer) returns (i: nat)
    requires x in Answers(log, slot)
    ensures i < |log| && AnswerOf(log[i], slot) == [x]
  {
    if x in AnswerOf(log[0], slot) {
      i := 0;
    } else {
      i := FindAnswer(log[1..], slot, x);
      i := i + 1;
    }
  }

  lemma Pull(log: seq<Observation>, slot: nat, x: Answer) returns (o: Observation, rest: seq<Observation>)
    requires x in multiset(Answers(log, slot))
    ensures Pulls(log, slot, x, o, rest)
  {
    var i := FindAnswer(log, slot, x);
    o, rest := log[i], log[..i] + log[i + 1..];
    Without(log, i);
    forall t: nat ensures t != slot ==> Answers(log, t) == Answers(rest, t) {
      PulledAnswers(log, i, t);
    }
    PulledAnswers(log, i, slot);
  }

  /** `other` is a reordering of the log that only moves the answers of one record. */
  ghost predicate Moves(log: seq<Observation>, slot: nat, other: seq<Observation>) {
    && multiset(log) == multiset(other)
    && forall t: nat :: t != slot ==> Answers(log, t) == Answers(other, t)
  }

  /** The answers in `xs` can be brought to the front, in that order. */
  lemma {:induction false} BringForward(log: seq<Observation>, slot: nat, xs: seq<Answer>)
    returns (other: seq<Observation>)
    requires multiset(xs) <= multiset(Answers(log, slot))
    ensures Moves(log, slot, other)
    ensures |xs| <= |Answers(other, slot)| && Answers(other, slot)[..|xs|] == xs
    decreases |xs|
  {
    hide Answers, Pulls, Moves;
    if xs == [] {
      other := log;
      MovesNothing(log, slot);
    } else {
      Front(xs, multiset(Answers(log, slot)));
      var o, rest := Pull(log, slot, xs[0]);
      PulledRest(log, slot, xs[0], o, rest);
      var tail := BringForward(rest, slot, xs[1..]);
      other := [o] + tail;
      PutFirst(log, slot, xs[0], o, rest, tail);
      PrefixGrows(Answers(tail, slot), xs);
    }
  }

  lemma MovesNothing(log: seq<Observation>, slot: nat)
    ensures Moves(log, slot, log)
  {
    hide Answers;
  }

  lemma PrefixGrows(q: seq<Answer>, xs: seq<Answer>)
    requires xs != [] && |xs| - 1 <= |q| && q[..|xs| - 1] == xs[1..]
    ensures ([xs[0]] + q)[..|xs|] == xs
  {
    assert ([xs[0]] + q)[..|xs|] == [xs[0]] + q[..|xs| - 1];
  }

  lemma PulledRest(log: seq<Observation>, slot: nat, x: Answer, o: Observation, rest: seq<Observation>)
    requires Pulls(log, slot, x, o, rest)
    ensures multiset(Answers(rest, slot)) == multiset(Answers(log, slot)) - multiset{x}
  {
    hide Answers;
  }

  lemma PutFirst(log: seq<Observation>, slot: nat, x: Answer, o: Observation, rest: seq<Observation>,
                 tail: seq<Observation>)
    requires Pulls(log, slot, x, o, rest) && Moves(rest, slot, tail)
    ensures Moves(log, slot, [o] + tail)
    ensures Answers([o] + tail, slot) == [x] + Answers(tail, slot)
  {
    hide Answers;
    assert multiset([o] + tail) == multiset{o} + multiset(tail);
    assert multiset([o] + rest) == multiset{o} + multiset(rest);
    FrontAnswers(o, tail, slot);
    forall t: nat | t != slot ensures Answers(log, t) == Answers([o] + tail, t) {
      FrontAnswers(o, tail, t);
    }
  }

  lemma Front(xs: seq<Answer>, m: multiset<Answer>)
    requires xs != [] && multiset(xs) <= m
    ensures xs[0] in m && multiset(xs[1..]) <= m - multiset{xs[0]}
  {
    assert xs == [xs[0]] + xs[1..];
  }

  /** The record's answers, continued after a prefix. */
  lemma AfterPrefix(q: seq<Answer>, xs: seq<Answer>)
    requires |xs| <= |q| && q[..|xs|] == xs
    ensures q == xs + q[|xs|..] && multiset(q) == multiset(xs) + multiset(q[|xs|..])
  {
    assert q == xs + q[|xs|..];
  }

  lemma {:induction false} Continue(known: Option<nat>, a: seq<Answer>, b: seq<Answer>)
    ensures Disagreements(known, a + b) == Disagreements(known, a) + Disagreements(FinalDigest(known, a), b)
    decreases |a|
  {
    if a == [] {
      assert a + b == b;
    } else {
      assert (a + b)[0] == a[0] && (a + b)[1..] == a[1..] + b;
      Continue(NextDigest(known, a[0]), a[1..], b);
    }
  }

  lemma RestIsLater(xs: seq<Answer>, rest: seq<Answer>, a: nat)
    requires Answer(a, true) in xs
    requires forall d :: (multiset(xs) + multiset(rest))[Answer(d, true)] <= if d == a then 1 else 0
    ensures forall x :: x in rest ==> !x.first
  {
    assert Answer(a, true) in multiset(xs);
    assert forall x :: x in rest ==> x in multiset(rest);
    assert forall x: Answer :: x.first ==> x == Answer(x.digest, true);
  }

  /** With the first-pass answer in front, only later answers follow. */
  lemma CountAfterFirst(known: Option<nat>, q: seq<Answer>, xs: seq<Answer>, a: nat)
    requires |xs| <= |q| && q[..|xs|] == xs && xs != [] && xs[|xs| - 1] == Answer(a, true)
    requires forall d :: multiset(q)[Answer(d, true)] <= if d == a then 1 else 0
    ensures Carrying(multiset(q), a) >= Carrying(multiset(xs), a)
    ensures Disagreements(known, q) ==
            Disagreements(known, xs) + |q| - |xs| - (Carrying(multiset(q), a) - Carrying(multiset(xs), a))
  {
    hide Disagreements, FinalDigest;
    AfterPrefix(q, xs);
    var rest := q[|xs|..];
    RestIsLater(xs, rest, a);
    Continue(known, xs, rest);
    var n := |xs| - 1;
    assert xs == xs[..n] + [xs[n]];
    LastAnswer(known, xs[..n], xs[n]);
    LaterAnswers(a, rest);
  }

  // --------------------------------------------------------- the condition

  ghost predicate AtMostOneFirst(m: multiset<Answer>) {
    forall d, e :: Answer(d, true) in m && Answer(e, true) in m ==> d == e && m[Answer(d, true)] == 1
  }

  /** Two orders of the same answers that disagree a different number of times. */
  ghost predicate Apart(m: multiset<Answer>, xs: seq<Answer>, ys: seq<Answer>) {
    && multiset(xs) <= m && multiset(ys) <= m
    && forall q, r :: multiset(q) == m && multiset(r) == m && |xs| <= |q| && |ys| <= |r| ==>
         q[..|xs|] == xs && r[..|ys|] == ys ==> Disagreements(None, q) != Disagreements(None, r)
  }

  lemma ThreeAnswers(x: Answer, y: Answer, z: Answer)
    ensures var xs := [x, y, z];
      && Disagreements(None, xs) == Differs(Some(x.digest), y) + Differs(NextDigest(Some(x.digest), y), z)
      && forall d :: Carrying(multiset(xs), d) ==
           (if x.digest == d then 1 else 0) + (if y.digest == d then 1 else 0) + if z.digest == d then 1 else 0
  {
    assert [x, y, z] == [x] + [y, z] && [y, z] == [y] + [z];
    Continue(None, [x], [y, z]);
    Continue(Some(x.digest), [y], [z]);
    assert [x][1..] == [] && [y][1..] == [] && [z][1..] == [];
    Unfold([x, y, z]);
    Unfold([y, z]);
    Unfold([z]);
  }

  lemma OneAnswer(x: Answer)
    ensures Disagreements(None, [x]) == 0
    ensures forall d :: Carrying(multiset([x]), d) == if x.digest == d then 1 else 0
  {
    assert [x][1..] == [];
    Unfold([x]);
  }

  lemma UnequalApart(m: multiset<Answer>, d: nat, e: nat) returns (xs: seq<Answer>, ys: seq<Answer>)
    requires !HasFirst(m) && Carrying(m, d) > 0 && Carrying(m, e) > 0 && Carrying(m, d) != Carrying(m, e)
    ensures Apart(m, xs, ys)
  {
    xs, ys := [Answer(d, false)], [Answer(e, false)];
    forall q, r | multiset(q) == m && multiset(r) == m && 1 <= |q| && 1 <= |r| && q[..1] == xs && r[..1] == ys
      ensures Disagreements(None, q) != Disagreements(None, r)
    {
      assert |q| == |multiset(q)| == |multiset(r)| == |r|;
      assert q[0] == q[..1][0] && r[0] == r[..1][0];
      UnauthenticCount(q);
      UnauthenticCount(r);
    }
  }

  lemma AlikeApart(m: multiset<Answer>, a: nat, b: nat) returns (xs: seq<Answer>, ys: seq<Answer>)
    requires AtMostOneFirst(m) && Answer(a, true) in m && Carrying(m, a) > 1 && Carrying(m, b) > 0 && a != b
    ensures Apart(m, xs, ys)
  {
    xs, ys := [Answer(a, true)], [Answer(b, false), Answer(a, false), Answer(a, true)];
    OneAnswer(xs[0]);
    ThreeAnswers(ys[0], ys[1], ys[2]);
    forall q, r | multiset(q) == m && multiset(r) == m && 1 <= |q| && 3 <= |r| && q[..1] == xs && r[..3] == ys
      ensures Disagreements(None, q) != Disagreements(None, r)
    {
      assert |q| == |multiset(q)| == |multiset(r)| == |r|;
      CountAfterFirst(None, q, xs, a);
      CountAfterFirst(None, r, ys, a);
    }
  }

  lemma TwiceApart(m: multiset<Answer>, a: nat, b: nat) returns (xs: seq<Answer>, ys: seq<Answer>)
    requires AtMostOneFirst(m) && Answer(a, true) in m && Carrying(m, b) > 1 && a != b
    ensures Apart(m, xs, ys)
  {
    xs, ys := [Answer(a, true)], [Answer(b, false), Answer(b, false), Answer(a, true)];
    OneAnswer(xs[0]);
    ThreeAnswers(ys[0], ys[1], ys[2]);
    forall q, r | multiset(q) == m && multiset(r) == m && 1 <= |q| && 3 <= |r| && q[..1] == xs && r[..3] == ys
      ensures Disagreements(None, q) != Disagreements(None, r)
    {
      assert |q| == |multiset(q)| == |multiset(r)| == |r|;
      CountAfterFirst(None, q, xs, a);
      CountAfterFirst(None, r, ys, a);
    }
  }

  lemma UnbalancedApart(m: multiset<Answer>) returns (xs: seq<Answer>, ys: seq<Answer>)
    requires AtMostOneFirst(m) && !Balanced(m)
    ensures Apart(m, xs, ys)
  {
    if !HasFirst(m) {
      var d, e :| Carrying(m, d) > 0 && Carrying(m, e) > 0 && Carrying(m, d) != Carrying(m, e);
      xs, ys := UnequalApart(m, d, e);
    } else {
      var a :| Answer(a, true) in m;
      var b :| Carrying(m, b) > 1;
      if a != b {
        xs, ys := TwiceApart(m, a, b);
      } else {
        var c :| Carrying(m, c) != 0 && Carrying(m, c) != |m|;
        var other := OtherDigest(m, a, c);
        xs, ys := AlikeApart(m, a, other);
      }
    }
  }

  lemma OtherDigest(m: multiset<Answer>, a: nat, c: nat) returns (b: nat)
    requires Carrying(m, c) != 0 && Carrying(m, c) != |m|
    ensures b != a && Carrying(m, b) > 0
  {
    if c != a {
      b := c;
    } else {
      var rest := m[Answer(a, true) := 0][Answer(a, false) := 0];
      assert m == rest + multiset{}[Answer(a, true) := m[Answer(a, true)]][Answer(a, false) := m[Answer(a, false)]];
      var x :| x in rest;
      b := x.digest;
    }
  }

  lemma {:induction false} OneFirstAnswer(log: seq<Observation>, slot: nat)
    requires OneFirstPass(log)
    ensures AtMostOneFirst(multiset(Answers(log, slot)))
  {
    if log != [] {
      assert OneFirstPass(log[1..]) by { LaterPasses(log); }
      OneFirstAnswer(log[1..], slot);
      if log[0].slot == slot && log[0].authoritative {
        LaterPasses(log);
        NoFirstAnswer(log[1..], slot);
      }
      hide OneFirstPass, Answers;
      FirstAnswers(AnswerOf(log[0], slot), multiset(Answers(log[1..], slot)));
      assert Answers(log, slot) == AnswerOf(log[0], slot) + Answers(log[1..], slot) by { AnswersOnce(log, slot); }
    }
  }

  lemma AnswersOnce(log: seq<Observation>, slot: nat)
    requires log != []
    ensures Answers(log, slot) == AnswerOf(log[0], slot) + Answers(log[1..], slot)
  {
  }

  lemma LaterPasses(log: seq<Observation>)
    requires OneFirstPass(log) && log != []
    ensures OneFirstPass(log[1..])
    ensures forall o :: o in log[1..] && o.slot == log[0].slot ==> !(log[0].authoritative && o.authoritative)
  {
    forall o | o in log[1..] && o.slot == log[0].slot ensures !(log[0].authoritative && o.authoritative) {
      var i :| 0 <= i < |log| - 1 && log[1..][i] == o;
      assert log[i + 1] == o;
    }
    forall i, j | 0 <= i < j < |log| - 1 && log[1..][i].slot == log[1..][j].slot
      ensures !(log[1..][i].authoritative && log[1..][j].authoritative)
    {
      assert log[1..][i] == log[i + 1] && log[1..][j] == log[j + 1];
    }
  }

  lemma {:induction false} NoFirstAnswer(log: seq<Observation>, slot: nat)
    requires forall o :: o in log && o.slot == slot ==> !o.authoritative
    ensures forall x :: x in Answers(log, slot) ==> !x.first
  {
    if log != [] {
      NoFirstAnswer(log[1..], slot);
      assert log[0] in log;
    }
  }

  lemma FirstAnswers(x: seq<Answer>, m: multiset<Answer>)
    requires |x| <= 1 && AtMostOneFirst(m)
    requires x != [] && x[0].first ==> forall y :: y in m ==> !y.first
    ensures AtMostOneFirst(multiset(x) + m)
  {
    if x != [] {
      assert x == [x[0]];
    }
  }

  /** Every reordering of the log counts the same total. */
  ghost predicate OrderFree(records: seq<RecordKey>, cap: nat, log: seq<Observation>)
    requires InCorpus(records, log)
  {
    forall other :: multiset(other) == multiset(log) ==>
      InCorpus(records, other) && Replay(records, cap, other).total == Replay(records, cap, log).total
  }

  ghost predicate BalancedRecords(records: seq<RecordKey>, log: seq<Observation>) {
    forall slot :: 0 <= slot < |records| ==> Balanced(multiset(Answers(log, slot)))
  }

  lemma {:induction false} SumOfBalanced(log: seq<Observation>, other: seq<Observation>, n: nat)
    requires forall slot :: 0 <= slot < n ==> Balanced(multiset(Answers(log, slot)))
    requires multiset(other) == multiset(log)
    ensures Sum(log, n) == Sum(other, n)
  {
    hide Disagreements, Balanced, Answers;
    if n > 0 {
      SumOfBalanced(log, other, n - 1);
      SameAnswers(log, other, n - 1);
      BalancedCount(Answers(log, n - 1), Answers(other, n - 1));
    }
  }

  lemma SameCorpus(records: seq<RecordKey>, log: seq<Observation>, other: seq<Observation>)
    requires InCorpus(records, log) && multiset(other) == multiset(log)
    ensures InCorpus(records, other)
  {
    forall o | o in other ensures o in log {
      assert o in multiset(other);
    }
  }

  /** An unbalanced record has two orders that change the total. */
  lemma UnbalancedTotals(records: seq<RecordKey>, cap: nat, log: seq<Observation>, slot: nat)
    requires InCorpus(records, log) && OneFirstPass(log) && slot < |records|
    requires !Balanced(multiset(Answers(log, slot)))
    ensures !OrderFree(records, cap, log)
  {
    hide Balanced, Disagreements, Answers, Replay, Sum, InCorpus, OneFirstPass, OrderFree;
    var m := multiset(Answers(log, slot));
    OneFirstAnswer(log, slot);
    var xs, ys := UnbalancedApart(m);
    var left := BringForward(log, slot, xs);
    var right := BringForward(log, slot, ys);
    SameAnswers(log, left, slot);
    SameAnswers(log, right, slot);
    SameCorpus(records, log, left);
    SameCorpus(records, log, right);
    TotalIsSum(records, cap, left);
    TotalIsSum(records, cap, right);
    SumChanges(left, right, slot, |records|);
    hide Apart, Moves;
    TwoTotals(records, cap, log, left, right);
  }

  lemma TwoTotals(records: seq<RecordKey>, cap: nat, log: seq<Observation>, left: seq<Observation>,
                  right: seq<Observation>)
    requires InCorpus(records, log) && InCorpus(records, left) && InCorpus(records, right)
    requires multiset(left) == multiset(log) && multiset(right) == multiset(log)
    requires Replay(records, cap, left).total != Replay(records, cap, right).total
    ensures !OrderFree(records, cap, log)
  {
    hide InCorpus, Replay;
  }

  /**
   The total does not depend on the order of arrival exactly when each record's
   answers are balanced.
   */
  lemma TotalIsOrderFree(records: seq<RecordKey>, cap: nat, log: seq<Observation>)
    requires InCorpus(records, log) && OneFirstPass(log)
    ensures OrderFree(records, cap, log) <==> BalancedRecords(records, log)
  {
    hide InCorpus, Balanced, Replay, OneFirstPass;
    if BalancedRecords(records, log) {
      forall other | multiset(other) == multiset(log)
        ensures InCorpus(records, other) && Replay(records, cap, other).total == Replay(records, cap, log).total
      {
        SameCorpus(records, log, other);
        SumOfBalanced(log, other, |records|);
        TotalIsSum(records, cap, log);
        TotalIsSum(records, cap, other);
      }
    } else {
      var slot :| 0 <= slot < |records| && !Balanced(multiset(Answers(log, slot)));
      UnbalancedTotals(records, cap, log, slot);
    }
  }

  // ------------------------------------------------ the open loop comes first

  /** The open-loop answers all carry digest `a`. */
  ghost predicate OnlyDigest(open: multiset<Answer>, a: nat) {
    forall d :: Carrying(open, d) > 0 ==> d == a
  }

  /** Later passes of the closed loop repeat neither `a` nor any open-loop digest. */
  ghost predicate NeverAgain(open: multiset<Answer>, closed: multiset<Answer>, a: nat) {
    && closed[Answer(a, false)] == 0
    && forall d :: Carrying(open, d) > 0 ==> closed[Answer(d, false)] == 0
  }

  /** The first pass confirms the open loop, or nothing it replaces comes back. */
  ghost predicate FirstSettles(open: multiset<Answer>, closed: multiset<Answer>) {
    forall a :: Answer(a, true) in closed ==> OnlyDigest(open, a) || NeverAgain(open, closed, a)
  }

  /** Every digest of the open loop occurs equally often in both loops together. */
  ghost predicate OpenEquallyOften(open: multiset<Answer>, closed: multiset<Answer>) {
    forall d, e :: Carrying(open, d) > 0 && Carrying(open, e) > 0 ==>
      Carrying(open + closed, d) == Carrying(open + closed, e)
  }

  /** The condition on a record whose `open` answers come before its `closed` ones. */
  ghost predicate BalancedPhases(open: multiset<Answer>, closed: multiset<Answer>) {
    if open == multiset{} then Balanced(closed) else OpenEquallyOften(open, closed) && FirstSettles(open, closed)
  }

  ghost predicate NoFirst(q: seq<Answer>) {
    forall x :: x in q ==> !x.first
  }

  /** Two digests that only the first pass links are never met again. */
  lemma {:induction false} NeverAgrees(known: nat, d: nat, a: nat, q: seq<Answer>)
    requires d != a && (known == d || (known == a && NoFirst(q)))
    requires forall x :: x in q ==> if x.first then x.digest == a else x.digest != a && x.digest != d
    requires multiset(q)[Answer(a, true)] <= 1
    ensures Disagreements(Some(known), q) == |q|
    decreases |q|
  {
    if q != [] {
      var x, rest := q[0], q[1..];
      assert q == [x] + rest && x in q && forall y :: y in rest ==> y in q;
      assert multiset(q) == multiset{x} + multiset(rest);
      if x.first {
        assert x == Answer(a, true) && Answer(a, true) !in multiset(rest);
        forall y | y in rest ensures !y.first {
          assert y in multiset(rest) && (y.first ==> y == Answer(a, true));
        }
      }
      NeverAgrees(NextDigest(Some(known), x).value, d, a, rest);
    }
  }

  lemma FirstIs(q: seq<Answer>, a: nat)
    requires AtMostOneFirst(multiset(q)) && Answer(a, true) in multiset(q)
    ensures forall x :: x in q && x.first ==> x.digest == a
    ensures multiset(q)[Answer(a, true)] == 1
  {
    forall x | x in q && x.first ensures x.digest == a {
      assert x == Answer(x.digest, true) && x in multiset(q);
    }
  }

  /** Open-loop answers set the digest that the closed loop starts from. */
  lemma OpenCount(o: seq<Answer>, c: seq<Answer>)
    requires o != [] && NoFirst(o)
    ensures var d := o[0].digest;
      && Carrying(multiset(o), d) > 0
      && Disagreements(None, o + c) == |o| - Carrying(multiset(o), d) + Disagreements(Some(d), c)
  {
    var d := o[0].digest;
    assert o == [o[0]] + o[1..] && forall x :: x in o[1..] ==> x in o;
    Unfold(o);
    LaterAnswers(d, o[1..]);
    Continue(None, o, c);
  }

  /** With a settling first pass only the first open-loop digest matters. */
  lemma SettledCount(o: seq<Answer>, c: seq<Answer>)
    requires o != [] && NoFirst(o) && AtMostOneFirst(multiset(c)) && FirstSettles(multiset(o), multiset(c))
    ensures Carrying(multiset(o), o[0].digest) > 0
    ensures Disagreements(None, o + c) == |o| + |c| - Carrying(multiset(o) + multiset(c), o[0].digest)
  {
    var d := o[0].digest;
    hide Disagreements;
    OpenCount(o, c);
    if a :| Answer(a, true) in multiset(c) && a != d {
      FirstIs(c, a);
      assert NeverAgain(multiset(o), multiset(c), a);
      forall x | x in c && !x.first ensures x.digest != a && x.digest != d {
        assert x in multiset(c) && x == Answer(x.digest, false);
      }
      assert multiset(c)[Answer(d, true)] == 0;
      NeverAgrees(d, d, a, c);
    } else {
      forall x | x in c && x.first ensures x.digest == d {
        assert x == Answer(x.digest, true) && x in multiset(c);
      }
      LaterAnswers(d, c);
    }
  }

  /** Balanced phases disagree equally often in all orders that keep them apart. */
  lemma BalancedPhasesCount(o: seq<Answer>, c: seq<Answer>, o': seq<Answer>, c': seq<Answer>)
    requires NoFirst(o) && AtMostOneFirst(multiset(c)) && BalancedPhases(multiset(o), multiset(c))
    requires multiset(o) == multiset(o') && multiset(c) == multiset(c')
    ensures Disagreements(None, o + c) == Disagreements(None, o' + c')
  {
    assert |o| == |multiset(o)| == |multiset(o')| == |o'| && |c| == |multiset(c)| == |multiset(c')| == |c'|;
    hide Disagreements, AtMostOneFirst, FirstSettles, Balanced;
    if o == [] {
      assert o + c == c && o' + c' == c';
      BalancedCount(c, c');
    } else {
      assert o[0] in multiset(o);
      forall x | x in o' ensures !x.first {
        assert x in multiset(o');
      }
      SettledCount(o, c);
      SettledCount(o', c');
    }
  }

  /** Moving one later answer in front of the first pass changes the count by one. */
  lemma FirstMoves(c: seq<Answer>, c': seq<Answer>, d: nat, a: nat, x: Answer)
    requires AtMostOneFirst(multiset(c)) && Answer(a, true) in multiset(c) && multiset(c) == multiset(c')
    requires d != a && x in {Answer(d, false), Answer(a, false)}
    requires 1 <= |c| && c[..1] == [Answer(a, true)]
    requires 2 <= |c'| && c'[..2] == [x, Answer(a, true)]
    ensures Disagreements(Some(d), c) != Disagreements(Some(d), c')
  {
    assert |c| == |multiset(c)| == |multiset(c')| == |c'|;
    var first := Answer(a, true);
    CountAfterFirst(Some(d), c, [first], a);
    CountAfterFirst(Some(d), c', [x, first], a);
    Unfold([first]);
    Unfold([x, first]);
    assert [first][1..] == [] && [x, first][1..] == [first];
    assert Disagreements(Some(d), [first]) == 1;
    assert Disagreements(Some(d), [x, first]) == (if x.digest == d then 0 else 1) + 1;
  }

  /** A reordering that moves the answers of one record only, within each loop. */
  ghost predicate MovesBoth(open: seq<Observation>, closed: seq<Observation>, slot: nat,
                            o: seq<Observation>, c: seq<Observation>) {
    Moves(open, slot, o) && Moves(closed, slot, c)
  }

  ghost function PhaseCount(o: seq<Observation>, c: seq<Observation>, slot: nat): nat {
    Disagreements(None, Answers(o, slot) + Answers(c, slot))
  }

  lemma NoOpenAnswers(open: seq<Observation>, closed: seq<Observation>, slot: nat)
    returns (c: seq<Observation>, c': seq<Observation>)
    requires Answers(open, slot) == [] && AtMostOneFirst(multiset(Answers(closed, slot)))
    requires !Balanced(multiset(Answers(closed, slot)))
    ensures Moves(closed, slot, c) && Moves(closed, slot, c')
    ensures PhaseCount(open, c, slot) != PhaseCount(open, c', slot)
  {
    hide Answers, Balanced, AtMostOneFirst, Disagreements;
    var xs, ys := UnbalancedApart(multiset(Answers(closed, slot)));
    c := BringForward(closed, slot, xs);
    c' := BringForward(closed, slot, ys);
    SameAnswers(closed, c, slot);
    SameAnswers(closed, c', slot);
    assert [] + Answers(c, slot) == Answers(c, slot) && [] + Answers(c', slot) == Answers(c', slot);
  }

  /** What the first pass replaces comes back: its place among the later answers shows. */
  lemma UnsettledFirst(open: seq<Observation>, closed: seq<Observation>, slot: nat)
    returns (o: seq<Observation>, c: seq<Observation>, c': seq<Observation>)
    requires NoFirst(Answers(open, slot)) && AtMostOneFirst(multiset(Answers(closed, slot)))
    requires !FirstSettles(multiset(Answers(open, slot)), multiset(Answers(closed, slot)))
    ensures Moves(open, slot, o) && Moves(closed, slot, c) && Moves(closed, slot, c')
    ensures PhaseCount(o, c, slot) != PhaseCount(o, c', slot)
  {
    hide Answers, Moves, Disagreements, OnlyDigest, NeverAgain, NoFirst, AtMostOneFirst;
    var om, cm := multiset(Answers(open, slot)), multiset(Answers(closed, slot));
    var a :| Answer(a, true) in cm && !OnlyDigest(om, a) && !NeverAgain(om, cm, a);
    hide FirstSettles;
    var d, x := UnsettledDigest(om, cm, a);
    OpenAnswer(Answers(open, slot), d);
    Within([Answer(d, false)], om);
    Within([Answer(a, true)], cm);
    Within([x, Answer(a, true)], cm);
    o := BringForward(open, slot, [Answer(d, false)]);
    c := BringForward(closed, slot, [Answer(a, true)]);
    c' := BringForward(closed, slot, [x, Answer(a, true)]);
    SameMoved(open, o, slot);
    SameMoved(closed, c, slot);
    SameMoved(closed, c', slot);
    MovedFirst(open, o, slot, d);
    FirstMoves(Answers(c, slot), Answers(c', slot), d, a, x);
    OpenCount(Answers(o, slot), Answers(c, slot));
    OpenCount(Answers(o, slot), Answers(c', slot));
  }

  lemma Within(xs: seq<Answer>, m: multiset<Answer>)
    requires NoDuplicates(xs) && forall x :: x in xs ==> x in m
    ensures multiset(xs) <= m
  {
    forall x ensures multiset(xs)[x] <= m[x] {
      OccursOnce(xs, x);
    }
  }

  lemma {:induction false} OccursOnce(xs: seq<Answer>, x: Answer)
    requires NoDuplicates(xs)
    ensures multiset(xs)[x] == if x in xs then 1 else 0
  {
    if xs != [] {
      assert xs == [xs[0]] + xs[1..] && xs[0] !in xs[1..];
      OccursOnce(xs[1..], x);
    }
  }

  lemma UnsettledDigest(open: multiset<Answer>, closed: multiset<Answer>, a: nat) returns (d: nat, x: Answer)
    requires !OnlyDigest(open, a) && !NeverAgain(open, closed, a)
    ensures d != a && Carrying(open, d) > 0
    ensures x in {Answer(d, false), Answer(a, false)} && x in closed
  {
    if e :| Carrying(open, e) > 0 && e != a && Answer(e, false) in closed {
      d, x := e, Answer(e, false);
    } else {
      d :| Carrying(open, d) > 0 && d != a;
      x := Answer(a, false);
    }
  }

  lemma OpenAnswer(q: seq<Answer>, d: nat)
    requires NoFirst(q) && Carrying(multiset(q), d) > 0
    ensures Answer(d, false) in multiset(q) && Answer(d, true) !in multiset(q)
  {
    assert Answer(d, true) in multiset(q) ==> Answer(d, true) in q;
  }

  lemma SameMoved(log: seq<Observation>, other: seq<Observation>, slot: nat)
    requires Moves(log, slot, other)
    ensures multiset(Answers(log, slot)) == multiset(Answers(other, slot))
  {
    SameAnswers(log, other, slot);
  }

  lemma MovedFirst(open: seq<Observation>, o: seq<Observation>, slot: nat, d: nat)
    requires NoFirst(Answers(open, slot)) && multiset(Answers(open, slot)) == multiset(Answers(o, slot))
    requires 1 <= |Answers(o, slot)| && Answers(o, slot)[..1] == [Answer(d, false)]
    ensures NoFirst(Answers(o, slot)) && Answers(o, slot)[0].digest == d
  {
    hide Answers;
    var q := Answers(o, slot);
    forall x | x in q ensures !x.first {
      assert x in multiset(q);
    }
    assert q[0] == q[..1][0];
  }

  /** Two open-loop digests that do not occur equally often: the first one answered decides. */
  lemma UnequalOpen(open: seq<Observation>, closed: seq<Observation>, slot: nat)
    returns (o: seq<Observation>, o': seq<Observation>)
    requires NoFirst(Answers(open, slot)) && AtMostOneFirst(multiset(Answers(closed, slot)))
    requires FirstSettles(multiset(Answers(open, slot)), multiset(Answers(closed, slot)))
    requires !OpenEquallyOften(multiset(Answers(open, slot)), multiset(Answers(closed, slot)))
    ensures Moves(open, slot, o) && Moves(open, slot, o')
    ensures PhaseCount(o, closed, slot) != PhaseCount(o', closed, slot)
  {
    hide Answers, Moves, Disagreements, FirstSettles, AtMostOneFirst;
    var om, cm := multiset(Answers(open, slot)), multiset(Answers(closed, slot));
    var d, e :| Carrying(om, d) > 0 && Carrying(om, e) > 0 && Carrying(om + cm, d) != Carrying(om + cm, e);
    OpenAnswer(Answers(open, slot), d);
    OpenAnswer(Answers(open, slot), e);
    o := BringForward(open, slot, [Answer(d, false)]);
    o' := BringForward(open, slot, [Answer(e, false)]);
    SameMoved(open, o, slot);
    SameMoved(open, o', slot);
    MovedFirst(open, o, slot, d);
    MovedFirst(open, o', slot, e);
    SettledCount(Answers(o, slot), Answers(closed, slot));
    SettledCount(Answers(o', slot), Answers(closed, slot));
    assert |Answers(o, slot)| == |multiset(Answers(o, slot))| == |Answers(o', slot)|;
  }

  lemma UnbalancedPhases(open: seq<Observation>, closed: seq<Observation>, slot: nat)
    returns (o: seq<Observation>, c: seq<Observation>, o': seq<Observation>, c': seq<Observation>)
    requires NoFirst(Answers(open, slot)) && AtMostOneFirst(multiset(Answers(closed, slot)))
    requires !BalancedPhases(multiset(Answers(open, slot)), multiset(Answers(closed, slot)))
    ensures MovesBoth(open, closed, slot, o, c) && MovesBoth(open, closed, slot, o', c')
    ensures PhaseCount(o, c, slot) != PhaseCount(o', c', slot)
  {
    hide Answers, Moves, PhaseCount, FirstSettles, OpenEquallyOften, AtMostOneFirst, Balanced;
    MovesNothing(open, slot);
    MovesNothing(closed, slot);
    o, c, o', c' := open, closed, open, closed;
    if multiset(Answers(open, slot)) == multiset{} {
      assert |Answers(open, slot)| == |multiset(Answers(open, slot))| == 0;
      c, c' := NoOpenAnswers(open, closed, slot);
    } else if !FirstSettles(multiset(Answers(open, slot)), multiset(Answers(closed, slot))) {
      o, c, c' := UnsettledFirst(open, closed, slot);
      o' := o;
    } else {
      o, o' := UnequalOpen(open, closed, slot);
    }
  }

  /** Every order that keeps the open loop before the closed one counts the same total. */
  ghost predicate PhaseFree(records: seq<RecordKey>, cap: nat, open: seq<Observation>, closed: seq<Observation>)
    requires InCorpus(records, open + closed)
  {
    forall o, c :: multiset(o) == multiset(open) && multiset(c) == multiset(closed) ==>
      InCorpus(records, o + c) && Replay(records, cap, o + c).total == Replay(records, cap, open + closed).total
  }

  ghost predicate BalancedLoops(records: seq<RecordKey>, open: seq<Observation>, closed: seq<Observation>) {
    forall slot :: 0 <= slot < |records| ==>
      BalancedPhases(multiset(Answers(open, slot)), multiset(Answers(closed, slot)))
  }

  /** The open loop is never a first pass, and the closed loop makes one per record at most. */
  ghost predicate Loops(open: seq<Observation>, closed: seq<Observation>) {
    (forall o :: o in open ==> !o.authoritative) && OneFirstPass(closed)
  }

  lemma LoopAnswers(open: seq<Observation>, closed: seq<Observation>, slot: nat)
    requires Loops(open, closed)
    ensures NoFirst(Answers(open, slot)) && AtMostOneFirst(multiset(Answers(closed, slot)))
  {
    NoFirstAnswer(open, slot);
    OneFirstAnswer(closed, slot);
  }

  lemma {:induction false} SumOfLoops(open: seq<Observation>, closed: seq<Observation>, o: seq<Observation>,
                                      c: seq<Observation>, n: nat)
    requires Loops(open, closed) && multiset(o) == multiset(open) && multiset(c) == multiset(closed)
    requires forall slot :: 0 <= slot < n ==>
      BalancedPhases(multiset(Answers(open, slot)), multiset(Answers(closed, slot)))
    ensures Sum(open + closed, n) == Sum(o + c, n)
  {
    hide Disagreements, BalancedPhases, Answers, Loops, AtMostOneFirst;
    if n > 0 {
      SumOfLoops(open, closed, o, c, n - 1);
      LoopAnswers(open, closed, n - 1);
      SameAnswers(open, o, n - 1);
      SameAnswers(closed, c, n - 1);
      AnswersAppend(open, closed, n - 1);
      AnswersAppend(o, c, n - 1);
      BalancedPhasesCount(Answers(open, n - 1), Answers(closed, n - 1), Answers(o, n - 1), Answers(c, n - 1));
    }
  }

  lemma SameLoops(records: seq<RecordKey>, open: seq<Observation>, closed: seq<Observation>,
                  o: seq<Observation>, c: seq<Observation>)
    requires InCorpus(records, open + closed) && multiset(o) == multiset(open) && multiset(c) == multiset(closed)
    ensures InCorpus(records, o + c)
  {
    assert multiset(o + c) == multiset(o) + multiset(c) == multiset(open + closed);
    SameCorpus(records, open + closed, o + c);
  }

  /** An unbalanced record has two orders of the loops' answers that change the total. */
  lemma UnbalancedLoops(records: seq<RecordKey>, cap: nat, open: seq<Observation>, closed: seq<Observation>, slot: nat)
    requires InCorpus(records, open + closed) && Loops(open, closed) && slot < |records|
    requires !BalancedPhases(multiset(Answers(open, slot)), multiset(Answers(closed, slot)))
    ensures !PhaseFree(records, cap, open, closed)
  {
    hide BalancedPhases, Disagreements, Answers, Replay, Sum, InCorpus, Loops, PhaseFree, AtMostOneFirst;
    LoopAnswers(open, closed, slot);
    var o, c, o', c' := UnbalancedPhases(open, closed, slot);
    forall t: nat ensures t != slot ==> Answers(o + c, t) == Answers(o' + c', t) {
      AnswersAppend(o, c, t);
      AnswersAppend(o', c', t);
    }
    AnswersAppend(o, c, slot);
    AnswersAppend(o', c', slot);
    SameLoops(records, open, closed, o, c);
    SameLoops(records, open, closed, o', c');
    TotalIsSum(records, cap, o + c);
    TotalIsSum(records, cap, o' + c');
    SumChanges(o + c, o' + c', slot, |records|);
    TwoPhaseTotals(records, cap, open, closed, o, c, o', c');
  }

  lemma TwoPhaseTotals(records: seq<RecordKey>, cap: nat, open: seq<Observation>, closed: seq<Observation>,
                       o: seq<Observation>, c: seq<Observation>, o': seq<Observation>, c': seq<Observation>)
    requires InCorpus(records, open + closed) && InCorpus(records, o + c) && InCorpus(records, o' + c')
    requires multiset(o) == multiset(open) && multiset(c) == multiset(closed)
    requires multiset(o') == multiset(open) && multiset(c') == multiset(closed)
    requires Replay(records, cap, o + c).total != Replay(records, cap, o' + c').total
    ensures !PhaseFree(records, cap, open, closed)
  {
    hide InCorpus, Replay;
  }

  /**
   The total does not depend on the order of arrival within the open loop and within
   the closed loop that follows it exactly when each record's phases are balanced.
   */
  lemma PhasedTotalIsOrderFree(records: seq<RecordKey>, cap: nat, open: seq<Observation>, closed: seq<Observation>)
    requires InCorpus(records, open + closed) && Loops(open, closed)
    ensures PhaseFree(records, cap, open, closed) <==> BalancedLoops(records, open, closed)
  {
    hide InCorpus, BalancedPhases, Replay, Loops;
    if BalancedLoops(records, open, closed) {
      forall o, c | multiset(o) == multiset(open) && multiset(c) == multiset(closed)
        ensures InCorpus(records, o + c)
        ensures Replay(records, cap, o + c).total == Replay(records, cap, open + closed).total
      {
        SameLoops(records, open, closed, o, c);
        SumOfLoops(open, closed, o, c, |records|);
        TotalIsSum(records, cap, open + closed);
        TotalIsSum(records, cap, o + c);
      }
    } else {
      var slot :| 0 <= slot < |records| &&
        !BalancedPhases(multiset(Answers(open, slot)), multiset(Answers(closed, slot)));
      UnbalancedLoops(records, cap, open, closed, slot);
    }
  }
}
