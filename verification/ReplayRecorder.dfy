/**
 Shared accounting of a replay. Observations are made one at a time under a lock; the
 recorder's counters are a function of the order in which they arrive.
 */
module ReplayRecorder {
  import opened Wrappers

  datatype Kind = OkResponse | RpcErrorResponse

  datatype Status = StatusOk | RpcError | HttpError | TransportError | Timeout

  /** The part of a response that is compared and reported. */
  datatype Reference = Reference(kind: Kind, digest: nat, len: nat)

  datatype Outcome = Outcome(latency: nat, status: Status, response: Option<Reference>)

  datatype RecordKey = RecordKey(recordIndex: nat, key: string)

  datatype OpenRow = OpenRow(offset: nat, recordIndex: nat, key: string, latency: nat, status: Status)

  datatype ClosedRow = ClosedRow(recordIndex: nat, key: string, pass: nat, latency: nat, status: Status)

  datatype ResponseRow = ResponseRow(recordIndex: nat, key: string, reference: Reference)

  /** What digest comparison keeps: a reference per record, and the disagreements met. */
  datatype Tally = Tally(references: seq<Option<Reference>>, differing: seq<RecordKey>, total: nat)

  /** One recorded request: its record, whether it is a first-pass one, and what came back. */
  datatype Observation = Observation(slot: nat, authoritative: bool, response: Option<Reference>)

  /** Compare one response with its record's reference. */
  function Observe(records: seq<RecordKey>, cap: nat, t: Tally, o: Observation): (r: Tally)
    requires o.slot < |records| == |t.references|
    ensures |r.references| == |t.references|
  {
    if o.response.None? then t
    else
      var known := t.references[o.slot];
      if known.Some? && known.value.digest == o.response.value.digest then t
      else
        var counted :=
          if known.None? then t
          else t.(total := t.total + 1,
                  differing := if |t.differing| < cap then t.differing + [records[o.slot]] else t.differing);
        if known.Some? && !o.authoritative then counted
        else counted.(references := t.references[o.slot := o.response])
  }

  function Untouched(n: nat): Tally {
    Tally(seq(n, _ => None), [], 0)
  }

  ghost predicate InCorpus(records: seq<RecordKey>, log: seq<Observation>) {
    forall o :: o in log ==> o.slot < |records|
  }

  /** The tally after all observations, in their order of arrival. */
  function Replay(records: seq<RecordKey>, cap: nat, log: seq<Observation>): (t: Tally)
    requires InCorpus(records, log)
    ensures |t.references| == |records|
  {
    if log == [] then Untouched(|records|)
    else
      var n := |log| - 1;
      assert log[n] in log && forall o :: o in log[..n] ==> o in log;
      Observe(records, cap, Replay(records, cap, log[..n]), log[n])
  }

  class Recorder {
    const records: seq<RecordKey>
    const maxNondeterministic: nat
    var openLoop: seq<OpenRow>
    var closedLoop: seq<ClosedRow>
    var references: seq<Option<Reference>>
    var dropped: map<string, nat>
    var nondeterministic: seq<RecordKey>
    var nondeterministicTotal: nat
    ghost var log: seq<Observation>

    ghost function View(): Tally
      reads this
    {
      Tally(references, nondeterministic, nondeterministicTotal)
    }

    /** The counters are those of the observations made so far. */
    ghost predicate Valid()
      reads this
    {
      && InCorpus(records, log) && |references| == |records|
      && View() == Replay(records, maxNondeterministic, log)
    }

    constructor (records: seq<RecordKey>, maxNondeterministic: nat)
      ensures Valid() && log == [] && openLoop == [] && closedLoop == [] && dropped == map[]
      ensures this.records == records && this.maxNondeterministic == maxNondeterministic
    {
      this.records, this.maxNondeterministic := records, maxNondeterministic;
      openLoop, closedLoop, dropped, nondeterministic, nondeterministicTotal := [], [], map[], [], 0;
      references := seq(|records|, _ => None);
      log := [];
    }

    method RecordOpenLoop(slot: nat, offset: nat, outcome: Outcome)
      requires Valid() && slot < |records|
      modifies this
      ensures Valid() && log == old(log) + [Observation(slot, false, outcome.response)]
      ensures openLoop == old(openLoop)
        + [OpenRow(offset, records[slot].recordIndex, records[slot].key, outcome.latency, outcome.status)]
      ensures closedLoop == old(closedLoop) && dropped == old(dropped)
    {
      openLoop := openLoop
        + [OpenRow(offset, records[slot].recordIndex, records[slot].key, outcome.latency, outcome.status)];
      Compare(slot, outcome, false);
    }

    /** Only the first pass is authoritative. */
    method RecordClosedLoop(slot: nat, pass: nat, outcome: Outcome)
      requires Valid() && slot < |records|
      modifies this
      ensures Valid() && log == old(log) + [Observation(slot, pass == 0, outcome.response)]
      ensures closedLoop == old(closedLoop)
        + [ClosedRow(records[slot].recordIndex, records[slot].key, pass, outcome.latency, outcome.status)]
      ensures openLoop == old(openLoop) && dropped == old(dropped)
    {
      closedLoop := closedLoop
        + [ClosedRow(records[slot].recordIndex, records[slot].key, pass, outcome.latency, outcome.status)];
      Compare(slot, outcome, pass == 0);
    }

    method RecordDropped(slot: nat)
      requires Valid() && slot < |records|
      modifies this`dropped
      ensures var key := records[slot].key;
        dropped == old(dropped)[key := (if key in old(dropped) then old(dropped)[key] else 0) + 1]
      ensures Valid()
    {
      var key := records[slot].key;
      var count: nat := if key in dropped then dropped[key] else 0;
      dropped := dropped[key := count + 1];
    }

    method Compare(slot: nat, outcome: Outcome, authoritative: bool)
      requires Valid() && slot < |records|
      modifies this`references, this`nondeterministic, this`nondeterministicTotal, this`log
      ensures Valid() && log == old(log) + [Observation(slot, authoritative, outcome.response)]
    {
      ghost var o := Observation(slot, authoritative, outcome.response);
      ghost var before := View();
      log := log + [o];
      assert log[..|log| - 1] == old(log);
      assert Replay(records, maxNondeterministic, log) == Observe(records, maxNondeterministic, before, o);
      if outcome.response.None? {
        return;
      }
      var known := references[slot];
      if known.Some? && known.value.digest == outcome.response.value.digest {
        return;
      }
      if known.Some? {
        nondeterministicTotal := nondeterministicTotal + 1;
        if |nondeterministic| < maxNondeterministic {
          nondeterministic := nondeterministic + [records[slot]];
        }
        if !authoritative {
          return;
        }
      }
      references := references[slot := outcome.response];
    }

    /** The responses file: one row for each record that was ever answered, in corpus order. */
    method Finish() returns (responses: seq<ResponseRow>)
      requires Valid()
      ensures responses == Responses(records, references)
    {
      responses := [];
      for i := 0 to |records|
        invariant responses == Responses(records[..i], references[..i])
      {
        assert records[..i + 1][..i] == records[..i] && references[..i + 1][..i] == references[..i];
        if references[i].Some? {
          responses := responses + [ResponseRow(records[i].recordIndex, records[i].key, references[i].value)];
        }
      }
      assert records[..|records|] == records && references[..|references|] == references;
    }
  }

  function Responses(records: seq<RecordKey>, references: seq<Option<Reference>>): seq<ResponseRow>
    requires |records| == |references|
  {
    if records == [] then []
    else
      var n := |records| - 1;
      Responses(records[..n], references[..n])
      + if references[n].Some? then [ResponseRow(records[n].recordIndex, records[n].key, references[n].value)] else []
  }

  /** The answered records, ascending. */
  ghost predicate AnsweredAt(references: seq<Option<Reference>>, ps: seq<nat>) {
    && (forall i, j :: 0 <= i < j < |ps| ==> ps[i] < ps[j])
    && (forall i :: 0 <= i < |ps| ==> ps[i] < |references| && references[ps[i]].Some?)
    && (forall k: nat :: k < |references| && references[k].Some? ==> k in ps)
  }

  /** The rows are those of the records that were answered, in corpus order. */
  lemma {:induction false} ResponsesAre(records: seq<RecordKey>, references: seq<Option<Reference>>)
    returns (ps: seq<nat>)
    requires |records| == |references|
    ensures AnsweredAt(references, ps) && |Responses(records, references)| == |ps|
    ensures forall i :: 0 <= i < |ps| ==>
      var key := records[ps[i]];
      Responses(records, references)[i] == ResponseRow(key.recordIndex, key.key, references[ps[i]].value)
  {
    if records == [] {
      ps := [];
    } else {
      hide AnsweredAt, Responses;
      var n := |records| - 1;
      var before := ResponsesAre(records[..n], references[..n]);
      NextRow(records, references);
      NextAnswered(references, before);
      ps := if references[n].Some? then before + [n] else before;
      forall i | 0 <= i < |ps|
        ensures ps[i] < |records| && references[ps[i]].Some?
        ensures Responses(records, references)[i] ==
                ResponseRow(records[ps[i]].recordIndex, records[ps[i]].key, references[ps[i]].value)
      {
        if i < |before| {
          AnsweredBelow(references[..n], before, i);
          assert records[..n][before[i]] == records[before[i]];
        }
      }
    }
  }

  lemma NextRow(records: seq<RecordKey>, references: seq<Option<Reference>>)
    requires |records| == |references| && records != []
    ensures var n := |records| - 1;
      Responses(records, references) == Responses(records[..n], references[..n]) +
        if references[n].Some? then [ResponseRow(records[n].recordIndex, records[n].key, references[n].value)] else []
  {
  }

  lemma AnsweredBelow(references: seq<Option<Reference>>, ps: seq<nat>, i: nat)
    requires AnsweredAt(references, ps) && i < |ps|
    ensures ps[i] < |references| && references[ps[i]].Some?
  {
  }

  lemma NextAnswered(references: seq<Option<Reference>>, before: seq<nat>)
    requires references != [] && AnsweredAt(references[..|references| - 1], before)
    ensures var n := |references| - 1;
      AnsweredAt(references, if references[n].Some? then before + [n] else before)
  {
    var n := |references| - 1;
    assert forall k: nat :: k < n ==> references[..n][k] == references[k];
    assert forall k :: k in before + [n] <==> k in before || k == n;
  }

  // --------------------------------------------------------------- meaning

  /** The first answer a record got. */
  ghost function FirstAnswer(log: seq<Observation>, slot: nat): Option<Reference> {
    if log == [] then None
    else
      var before := FirstAnswer(log[..|log| - 1], slot);
      var o := log[|log| - 1];
      if before.Some? then before else if o.slot == slot then o.response else None
  }

  /** The answer of a record's first pass. */
  ghost function FirstPassAnswer(log: seq<Observation>, slot: nat): Option<Reference> {
    if log == [] then None
    else
      var before := FirstPassAnswer(log[..|log| - 1], slot);
      var o := log[|log| - 1];
      if before.Some? then before else if o.slot == slot && o.authoritative then o.response else None
  }

  /** A record goes through its first pass at most once. */
  ghost predicate OneFirstPass(log: seq<Observation>) {
    forall i, j :: 0 <= i < j < |log| && log[i].slot == log[j].slot ==> !(log[i].authoritative && log[j].authoritative)
  }

  lemma {:induction false} FirstPassSeen(log: seq<Observation>, slot: nat)
    ensures FirstPassAnswer(log, slot).Some? ==> exists o :: o in log && o.slot == slot && o.authoritative
  {
    if log != [] {
      FirstPassSeen(log[..|log| - 1], slot);
      assert log[|log| - 1] in log;
    }
  }

  /**
   Whatever the order of arrival, a record's final reference has the digest of its
   first-pass answer if there was one, and otherwise of the first answer seen.
   */
  lemma {:induction false} FinalReference(records: seq<RecordKey>, cap: nat, log: seq<Observation>, slot: nat)
    requires InCorpus(records, log) && OneFirstPass(log) && slot < |records|
    ensures var final := Replay(records, cap, log).references[slot];
      var first := if FirstPassAnswer(log, slot).Some? then FirstPassAnswer(log, slot) else FirstAnswer(log, slot);
      final.Some? == first.Some? && (final.Some? ==> final.value.digest == first.value.digest)
  {
    if log != [] {
      var n := |log| - 1;
      assert log[n] in log && forall o :: o in log[..n] ==> o in log;
      PassesBefore(log, slot);
      FinalReference(records, cap, log[..n], slot);
      FirstAnswerSeen(log[..n], slot);
      assert Replay(records, cap, log) == Observe(records, cap, Replay(records, cap, log[..n]), log[n]);
      hide InCorpus, OneFirstPass, Replay;
    }
  }

  /** A record's first pass comes once, so nothing of it was seen before it. */
  lemma PassesBefore(log: seq<Observation>, slot: nat)
    requires OneFirstPass(log) && log != []
    ensures var n := |log| - 1;
      && OneFirstPass(log[..n])
      && (log[n].slot == slot && log[n].authoritative ==> FirstPassAnswer(log[..n], slot).None?)
  {
    var n := |log| - 1;
    assert forall i :: 0 <= i < n ==> log[..n][i] == log[i];
    FirstPassSeen(log[..n], slot);
    hide FirstPassAnswer;
    forall o | o in log[..n] && o.slot == slot
      ensures !(o.authoritative && log[n].slot == slot && log[n].authoritative)
    {
      var i :| 0 <= i < n && log[..n][i] == o;
    }
  }

  /** The reference is itself an answer that the record got. */
  lemma {:induction false} FinalIsAnswer(records: seq<RecordKey>, cap: nat, log: seq<Observation>, slot: nat)
    requires InCorpus(records, log) && slot < |records|
    ensures var final := Replay(records, cap, log).references[slot];
      final.Some? ==> exists o :: o in log && o.slot == slot && o.response == final
  {
    if log != [] {
      var n := |log| - 1;
      assert log[n] in log && forall o :: o in log[..n] ==> o in log;
      FinalIsAnswer(records, cap, log[..n], slot);
      assert Replay(records, cap, log) == Observe(records, cap, Replay(records, cap, log[..n]), log[n]);
      hide InCorpus, Replay;
    }
  }

  lemma {:induction false} FirstAnswerSeen(log: seq<Observation>, slot: nat)
    ensures FirstPassAnswer(log, slot).Some? ==> FirstAnswer(log, slot).Some?
  {
    if log != [] {
      FirstAnswerSeen(log[..|log| - 1], slot);
    }
  }

  /** All answers of each record carry the same digest. */
  ghost predicate Agree(log: seq<Observation>) {
    forall i, j ::
      0 <= i < j < |log| && log[i].slot == log[j].slot && log[i].response.Some? && log[j].response.Some? ==>
      log[i].response.value.digest == log[j].response.value.digest
  }

  /** While nothing differs, a record's reference has the digest of each of its answers. */
  ghost predicate References(log: seq<Observation>, references: seq<Option<Reference>>) {
    && (forall i :: 0 <= i < |log| && log[i].response.Some? && log[i].slot < |references| ==>
          references[log[i].slot].Some? && references[log[i].slot].value.digest == log[i].response.value.digest)
    && (forall slot :: 0 <= slot < |references| && references[slot].Some? ==>
          exists i :: 0 <= i < |log| && log[i].slot == slot && log[i].response.Some?)
  }

  lemma {:induction false} TotalCountsDisagreement(records: seq<RecordKey>, cap: nat, log: seq<Observation>)
    requires InCorpus(records, log)
    ensures Replay(records, cap, log).total == 0 ==> References(log, Replay(records, cap, log).references)
    ensures Replay(records, cap, log).total == 0 <==> Agree(log)
  {
    if log != [] {
      var n := |log| - 1;
      assert log[n] in log && forall o :: o in log[..n] ==> o in log;
      TotalCountsDisagreement(records, cap, log[..n]);
      var before := Replay(records, cap, log[..n]);
      assert Replay(records, cap, log) == Observe(records, cap, before, log[n]);
      assert forall i :: 0 <= i < |log| ==> log[i] in log;
      assert forall i :: 0 <= i < |log| ==> log[i].slot < |records|;
      ObserveCounts(records, cap, before, log[n]);
      hide InCorpus, Replay, Observe, Agree, References;
      if before.total == 0 {
        ObserveAgrees(records, cap, log, before);
      } else {
        AgreeShorter(log);
      }
    }
  }

  lemma ObserveCounts(records: seq<RecordKey>, cap: nat, t: Tally, o: Observation)
    requires o.slot < |records| == |t.references|
    ensures Observe(records, cap, t, o).total >= t.total
  {
  }

  lemma AgreeShorter(log: seq<Observation>)
    requires log != []
    ensures Agree(log) ==> Agree(log[..|log| - 1])
  {
  }

  lemma ObserveAgrees(records: seq<RecordKey>, cap: nat, log: seq<Observation>, before: Tally)
    requires log != [] && log[|log| - 1].slot < |records| == |before.references|
    requires forall i :: 0 <= i < |log| ==> log[i].slot < |records|
    requires before.total == 0 && Agree(log[..|log| - 1]) && References(log[..|log| - 1], before.references)
    ensures var after := Observe(records, cap, before, log[|log| - 1]);
      (after.total == 0 <==> Agree(log)) && (after.total == 0 ==> References(log, after.references))
  {
    var n := |log| - 1;
    var o := log[n];
    var after := Observe(records, cap, before, o);
    assert forall i :: 0 <= i < n ==> log[..n][i] == log[i];
    if after.total == 0 {
      forall slot | 0 <= slot < |after.references| && after.references[slot].Some?
        ensures exists i :: 0 <= i < |log| && log[i].slot == slot && log[i].response.Some?
      {
        SeenBefore(log, before, slot);
        assert slot == o.slot && o.response.Some? ==> log[n].slot == slot;
      }
      hide Observe;
    } else {
      SeenBefore(log, before, o.slot);
      var i :| 0 <= i < n && log[i].slot == o.slot && log[i].response.Some?;
      assert log[..n][i].response.value.digest == before.references[o.slot].value.digest;
    }
  }

  /** A record that has a reference was answered before. */
  lemma SeenBefore(log: seq<Observation>, before: Tally, slot: nat)
    requires log != [] && References(log[..|log| - 1], before.references) && slot < |before.references|
    ensures before.references[slot].Some? ==>
      exists i :: 0 <= i < |log| - 1 && log[i].slot == slot && log[i].response.Some?
  {
    if before.references[slot].Some? {
      var i :| 0 <= i < |log| - 1 && log[..|log| - 1][i].slot == slot && log[..|log| - 1][i].response.Some?;
      assert log[i].slot == slot;
    }
  }

  /** The reported list is cut at the cap; the total is not. */
  lemma {:induction false} ReportIsCapped(records: seq<RecordKey>, cap: nat, log: seq<Observation>)
    requires InCorpus(records, log)
    ensures var t := Replay(records, cap, log); |t.differing| == if t.total < cap then t.total else cap
  {
    if log != [] {
      var n := |log| - 1;
      assert log[n] in log && forall o :: o in log[..n] ==> o in log;
      ReportIsCapped(records, cap, log[..n]);
    }
  }

  /** The total itself depends on the order: the same three answers can count once or twice. */
  lemma TotalDependsOnOrder()
    ensures var a, b := Some(Reference(OkResponse, 1, 0)), Some(Reference(OkResponse, 2, 0));
      var first, second, third := Observation(0, true, a), Observation(0, false, b), Observation(0, false, b);
      var records := [RecordKey(0, "")];
      && InCorpus(records, [first, second, third]) && Replay(records, 0, [first, second, third]).total == 2
      && InCorpus(records, [second, third, first]) && Replay(records, 0, [second, third, first]).total == 1
  {
    var a, b := Some(Reference(OkResponse, 1, 0)), Some(Reference(OkResponse, 2, 0));
    var first, second := Observation(0, true, a), Observation(0, false, b);
    var records := [RecordKey(0, "")];
    var none := Untouched(1);
    assert Replay(records, 0, []) == none;
    var withA := none.(references := [a]);
    assert [first][..0] == [] && Replay(records, 0, [first]) == withA;
    assert [first, second][..1] == [first] && Replay(records, 0, [first, second]) == withA.(total := 1);
    assert [first, second, second][..2] == [first, second];
    var withB := none.(references := [b]);
    assert [second][..0] == [] && Replay(records, 0, [second]) == withB;
    assert [second, second][..1] == [second] && Replay(records, 0, [second, second]) == withB;
    assert [second, second, first][..2] == [second, second];
  }
}

/** The closed-loop workers: any number of them take tickets from one cursor and record as they finish. */
module ReplayRuns {
  import opened Wrappers
  import opened ReplayRecorder

  datatype Worker = Idle | Sending(ticket: nat) | Stopped

  datatype Done = Done(ticket: nat, outcome: Outcome)

  /** `log` is the order in which the recorder saw the outcomes. */
  datatype System = System(cursor: nat, workers: seq<Worker>, log: seq<Done>)

  datatype Step = Take(worker: nat) | Record(worker: nat, outcome: Outcome)

  const U32: nat := 0x1_0000_0000
  const U64_MAX: nat := 0xffff_ffff_ffff_ffff

  function Total(passes: nat, records: nat): nat {
    if passes * records > U64_MAX then U64_MAX else passes * records
  }

  function Slot(records: nat, ticket: nat): nat
    requires records > 0
  {
    ticket % records
  }

  /** The pass is cut to 32 bits. */
  function Pass(records: nat, ticket: nat): nat
    requires records > 0
  {
    (ticket / records) % U32
  }

  ghost predicate Next(total: nat, s: System, step: Step, s': System) {
    match step
    case Take(w) =>
      && w < |s.workers| && s.workers[w].Idle?
      && s' == s.(cursor := s.cursor + 1,
                  workers := s.workers[w := if s.cursor >= total then Stopped else Sending(s.cursor)])
    case Record(w, outcome) =>
      && w < |s.workers| && s.workers[w].Sending?
      && s' == s.(workers := s.workers[w := Idle], log := s.log + [Done(s.workers[w].ticket, outcome)])
  }

  ghost predicate IsRun(total: nat, workers: nat, states: seq<System>, steps: seq<Step>) {
    && |states| == |steps| + 1
    && states[0] == System(0, seq(workers, _ => Idle), [])
    && forall n :: 0 <= n < |steps| ==> Next(total, states[n], steps[n], states[n + 1])
  }

  ghost predicate AllStopped(s: System) {
    forall w :: 0 <= w < |s.workers| ==> s.workers[w].Stopped?
  }

  ghost predicate Recorded(s: System, ticket: nat) {
    exists i :: 0 <= i < |s.log| && s.log[i].ticket == ticket
  }

  ghost predicate InFlight(s: System, ticket: nat) {
    exists w :: 0 <= w < |s.workers| && s.workers[w] == Sending(ticket)
  }

  /** Every ticket below the cursor is recorded or in flight, once. */
  ghost predicate Inv(total: nat, s: System) {
    && (forall i :: 0 <= i < |s.log| ==> s.log[i].ticket < s.cursor && s.log[i].ticket < total)
    && (forall i, j :: 0 <= i < j < |s.log| ==> s.log[i].ticket != s.log[j].ticket)
    && (forall w :: 0 <= w < |s.workers| && s.workers[w].Sending? ==>
          s.workers[w].ticket < s.cursor && s.workers[w].ticket < total && !Recorded(s, s.workers[w].ticket))
    && (forall v, w :: 0 <= v < w < |s.workers| && s.workers[v].Sending? ==> s.workers[v] != s.workers[w])
    && (forall t: nat :: t < s.cursor && t < total ==> Recorded(s, t) || InFlight(s, t))
    && (forall w :: 0 <= w < |s.workers| && s.workers[w].Stopped? ==> s.cursor > total)
  }

  lemma TakeKeepsInv(total: nat, s: System, w: nat, s': System)
    requires Inv(total, s) && Next(total, s, Take(w), s')
    ensures Inv(total, s')
  {
    assert forall t: nat :: Recorded(s', t) <==> Recorded(s, t);
    forall t: nat | t < s'.cursor && t < total ensures Recorded(s', t) || InFlight(s', t) {
      if t == s.cursor {
        assert s'.workers[w] == Sending(t);
      } else if InFlight(s, t) {
        var v :| 0 <= v < |s.workers| && s.workers[v] == Sending(t);
        assert s'.workers[v] == Sending(t);
      }
    }
    assert !Recorded(s, s.cursor);
    hide Recorded, InFlight;
  }

  lemma RecordKeepsInv(total: nat, s: System, w: nat, outcome: Outcome, s': System)
    requires Inv(total, s) && Next(total, s, Record(w, outcome), s')
    ensures Inv(total, s')
  {
    var ticket := s.workers[w].ticket;
    forall t: nat ensures Recorded(s', t) <==> Recorded(s, t) || t == ticket {
      if Recorded(s, t) {
        var i :| 0 <= i < |s.log| && s.log[i].ticket == t;
        assert s'.log[i].ticket == t;
      }
      assert s'.log[|s.log|].ticket == ticket;
    }
    forall t: nat | t < s'.cursor && t < total ensures Recorded(s', t) || InFlight(s', t) {
      if t != ticket && InFlight(s, t) {
        var v :| 0 <= v < |s.workers| && s.workers[v] == Sending(t);
        assert s'.workers[v] == Sending(t);
      }
    }
    forall i | 0 <= i < |s.log| ensures s.log[i].ticket != ticket {
      assert !Recorded(s, ticket);
    }
    hide Recorded, InFlight;
  }

  lemma {:induction false} RunKeepsInv(total: nat, workers: nat, states: seq<System>, steps: seq<Step>, n: nat)
    requires IsRun(total, workers, states, steps) && n <= |steps|
    ensures Inv(total, states[n]) && |states[n].workers| == workers
  {
    if n > 0 {
      RunKeepsInv(total, workers, states, steps, n - 1);
      hide Inv;
      assert Next(total, states[n - 1], steps[n - 1], states[n]);
      match steps[n - 1] {
        case Take(w) => TakeKeepsInv(total, states[n - 1], w, states[n]);
        case Record(w, outcome) => RecordKeepsInv(total, states[n - 1], w, outcome, states[n]);
      }
    }
  }

  /** When every worker has stopped, every ticket has been recorded exactly once. */
  lemma RunRecordsEveryTicket(total: nat, workers: nat, states: seq<System>, steps: seq<Step>, t: nat)
    requires IsRun(total, workers, states, steps) && workers > 0
    requires AllStopped(states[|steps|])
    requires t < total
    ensures exists i :: 0 <= i < |states[|steps|].log| && states[|steps|].log[i].ticket == t
    ensures forall i, j ::
      0 <= i < j < |states[|steps|].log| ==> states[|steps|].log[i].ticket != states[|steps|].log[j].ticket
  {
    RunKeepsInv(total, workers, states, steps, |steps|);
    var s := states[|steps|];
    hide IsRun;
    assert s.workers[0].Stopped?;
    assert !InFlight(s, t);
    assert Recorded(s, t);
  }

  // ------------------------------------------------- tickets, records, passes

  lemma DivMod(records: nat, slot: nat, pass: nat)
    requires slot < records
    ensures (pass * records + slot) % records == slot && (pass * records + slot) / records == pass
  {
    var t := pass * records + slot;
    var q, r := t / records, t % records;
    assert t == q * records + r;
    if q < pass {
      assert (pass - q) * records >= records by { MulAtLeast(pass - q, records); }
    } else if q > pass {
      assert (q - pass) * records >= records by { MulAtLeast(q - pass, records); }
    }
  }

  lemma MulAtLeast(k: nat, records: nat)
    requires k >= 1
    ensures k * records >= records
  {
  }

  lemma Recompose(records: nat, t: nat)
    requires records > 0
    ensures t == (t / records) * records + t % records
  {
  }

  /** Tickets walk the corpus in order, pass after pass. */
  lemma TicketsInOrder(records: nat, pass: nat, slot: nat)
    requires slot < records && pass < 0x1_0000_0000
    ensures Slot(records, pass * records + slot) == slot && Pass(records, pass * records + slot) == pass
  {
    var t := pass * records + slot;
    Recompose(records, t);
    QuotientIs(records, pass, slot);
  }

  lemma QuotientIs(records: nat, pass: nat, slot: nat)
    requires slot < records
    ensures (pass * records + slot) / records == pass && (pass * records + slot) % records == slot
  {
    var t := pass * records + slot;
    Quotient(records, t / records, t % records, pass, slot);
  }

  /** A number falls in one way only into a multiple and a remainder. */
  lemma Quotient(d: nat, q: nat, r: nat, p: nat, s: nat)
    requires r < d && s < d && q * d + r == p * d + s
    ensures q == p && r == s
  {
    if q < p {
      assert p * d == q * d + (p - q) * d;
      Multiple(p - q, d);
    } else if p < q {
      assert q * d == p * d + (q - p) * d;
      Multiple(q - p, d);
    }
  }

  lemma Multiple(k: nat, d: nat)
    requires k > 0
    ensures k * d >= d
  {
  }

  /** Every (record, pass) pair has its one ticket exactly when the passes fit in 32 bits. */
  lemma TicketsAreDistinct(passes: nat, records: nat)
    requires records > 0 && passes * records <= U64_MAX
    ensures passes <= U32 <==>
      forall a: nat, b: nat :: a < b < Total(passes, records) ==>
        !(Slot(records, a) == Slot(records, b) && Pass(records, a) == Pass(records, b))
  {
    if passes <= U32 {
      forall a: nat, b: nat | a < b < passes * records
        ensures !(Slot(records, a) == Slot(records, b) && Pass(records, a) == Pass(records, b))
      {
        PassFits(passes, records, a);
        PassFits(passes, records, b);
        Recompose(records, a);
        Recompose(records, b);
      }
    } else {
      var b := U32 * records + 0;
      DivMod(records, 0, U32);
      DivMod(records, 0, 0);
      assert b < passes * records by { MulLess(U32, passes, records); }
      assert Slot(records, 0) == Slot(records, b) && Pass(records, 0) == Pass(records, b);
    }
  }

  lemma MulLess(a: nat, b: nat, c: nat)
    requires a < b && c > 0
    ensures a * c < b * c
  {
  }

  lemma PassFits(passes: nat, records: nat, t: nat)
    requires records > 0 && t < passes * records && passes <= U32
    ensures t / records < passes && Pass(records, t) == t / records
  {
    var q := t / records;
    Recompose(records, t);
    if q >= passes {
      MulMonotone(passes, q, records);
    }
  }

  lemma MulMonotone(a: nat, b: nat, c: nat)
    requires a <= b
    ensures a * c <= b * c
  {
  }

  lemma TicketOf(passes: nat, records: nat, slot: nat, pass: nat)
    requires slot < records && pass < passes <= U32 && passes * records <= U64_MAX
    ensures var t := pass * records + slot;
      t < Total(passes, records) && Slot(records, t) == slot && Pass(records, t) == pass
  {
    DivMod(records, slot, pass);
    assert (pass + 1) * records <= passes * records by { MulMonotone(pass + 1, passes, records); }
  }

  /** What the recorder sees of a finished request. */
  function Seen(records: nat, d: Done): Observation
    requires records > 0
  {
    Observation(Slot(records, d.ticket), Pass(records, d.ticket) == 0, d.outcome.response)
  }

  function SeenAll(records: nat, log: seq<Done>): seq<Observation>
    requires records > 0
  {
    seq(|log|, i requires 0 <= i < |log| => Seen(records, log[i]))
  }

  /** Under any interleaving every (record, pass) pair is replayed and recorded exactly once. */
  lemma RunReplaysEveryPair(passes: nat, records: nat, workers: nat, states: seq<System>, steps: seq<Step>, slot: nat,
                            pass: nat)
    requires records > 0 && workers > 0 && passes <= U32 && passes * records <= U64_MAX
    requires IsRun(Total(passes, records), workers, states, steps)
    requires AllStopped(states[|steps|])
    requires slot < records && pass < passes
    ensures var log := states[|steps|].log;
      && (exists i :: 0 <= i < |log| && Slot(records, log[i].ticket) == slot && Pass(records, log[i].ticket) == pass)
      && forall i, j :: 0 <= i < j < |log| ==>
           !(Slot(records, log[i].ticket) == Slot(records, log[j].ticket) &&
             Pass(records, log[i].ticket) == Pass(records, log[j].ticket))
  {
    var t := pass * records + slot;
    TicketOf(passes, records, slot, pass);
    RunRecordsEveryTicket(Total(passes, records), workers, states, steps, t);
    RunKeepsInv(Total(passes, records), workers, states, steps, |steps|);
    TicketsAreDistinct(passes, records);
    hide IsRun, Slot, Pass;
    var log := states[|steps|].log;
    forall i, j | 0 <= i < j < |log|
      ensures !(Slot(records, log[i].ticket) == Slot(records, log[j].ticket) &&
                Pass(records, log[i].ticket) == Pass(records, log[j].ticket))
    {
      if log[i].ticket < log[j].ticket {
        assert log[j].ticket < Total(passes, records);
      } else {
        assert log[j].ticket < log[i].ticket < Total(passes, records);
      }
    }
  }

  /**
   Whatever the workers' interleaving, after any open-loop observations: the reference of a record is its
   first-pass answer if it got one, else the first answer; nothing is counted exactly when all answers agree.
   */
  lemma RunReferences(keys: seq<RecordKey>, cap: nat, open: seq<Observation>, passes: nat, workers: nat,
                      states: seq<System>, steps: seq<Step>, slot: nat)
    requires slot < |keys| && passes <= U32 && passes * |keys| <= U64_MAX
    requires IsRun(Total(passes, |keys|), workers, states, steps)
    requires InCorpus(keys, open) && forall o :: o in open ==> !o.authoritative
    ensures var log := open + SeenAll(|keys|, states[|steps|].log);
      && InCorpus(keys, log)
      && (var final := Replay(keys, cap, log).references[slot];
          var first := if FirstPassAnswer(log, slot).Some? then FirstPassAnswer(log, slot) else FirstAnswer(log, slot);
          final.Some? == first.Some? && (final.Some? ==> final.value.digest == first.value.digest))
      && (Replay(keys, cap, log).total == 0 <==> Agree(log))
  {
    var done := states[|steps|].log;
    var log := open + SeenAll(|keys|, done);
    RunKeepsInv(Total(passes, |keys|), workers, states, steps, |steps|);
    TicketsAreDistinct(passes, |keys|);
    hide IsRun;
    assert InCorpus(keys, log);
    forall i, j | 0 <= i < j < |log| && log[i].slot == log[j].slot
      ensures !(log[i].authoritative && log[j].authoritative)
    {
      if i < |open| {
        assert log[i] in open;
      } else {
        var a, b := done[i - |open|].ticket, done[j - |open|].ticket;
        assert log[i] == Seen(|keys|, done[i - |open|]) && log[j] == Seen(|keys|, done[j - |open|]);
        assert a != b && a < Total(passes, |keys|) && b < Total(passes, |keys|);
        assert a < b || b < a;
      }
    }
    FinalReference(keys, cap, log, slot);
    TotalCountsDisagreement(keys, cap, log);
  }
}
