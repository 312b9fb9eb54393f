/**
 The receipt tracker as a protocol: registrants, dropped waiters, scanners and a
 growing chain take steps in any order. A scanner step ends where the scanner next
 awaits the endpoint or lets go of the lock.
 */
module ReceiptTrackerRuns {
  import opened Wrappers
  import opened ReceiptTracker

  datatype Block = Block(hashes: seq<Hash>, timestamp: nat)

  /** Where a scanner stands; `head` and `left` belong to the scan under way. */
  datatype Phase =
    | Top
    | AwaitHead
    | AwaitBlock(head: nat, left: nat)
    | AwaitReceipts(head: nat, left: nat)
    | Expiring(head: nat, left: nat)
    | Dead
  {
    predicate Scanning() { AwaitBlock? || AwaitReceipts? || Expiring? }
    predicate Awaiting() { AwaitHead? || AwaitBlock? || AwaitReceipts? }
  }

  datatype Scanner = Scanner(cursor: Option<nat>, phase: Phase)

  /** A registration waits for its channel, is ready to register, is about to be dropped, or is gone. */
  datatype Registration = Waiting(channel: nat) | Ready | Done | Gone

  datatype Filed = Filed(hash: Hash, interest: Interest)

  datatype System = System(
    lock: Lock,
    scanners: seq<Scanner>,
    registrations: seq<Registration>,
    filed: seq<Filed>,          // every interest ever registered, by id
    withdrawn: set<nat>,        // interests whose waiter was dropped while they were pending
    log: seq<Answer>,
    chain: seq<Block>)

  datatype Step =
    | Prepare
    | Observe(registration: nat)
    | DropRegistration(registration: nat)
    | Register(registration: nat, hash: Hash, interest: Interest)
    | DropWaiter(id: nat)
    | StopIfIdle(scanner: nat)
    | FetchHead(scanner: nat, head: nat)
    | FetchBlock(scanner: nat, sent: seq<Answer>)
    | FetchReceipts(scanner: nat, sent: seq<Answer>)
    | ExpireAt(scanner: nat, sent: seq<Answer>)
    | Retry(scanner: nat)
    | Shutdown(scanner: nat, sent: seq<Answer>)
    | AppendBlock(block: Block)

  const BLOCKS_PER_SCAN: nat := 64

  function LastChannel(l: Lock): Option<bool> {
    if l.channels == [] then None else l.channels[|l.channels| - 1]
  }

  function Announced(l: Lock, value: bool): Lock
    requires l.channels != []
  {
    l.(channels := l.channels[|l.channels| - 1 := Some(value)])
  }

  function Moved(s: System, i: nat, scanner: Scanner): System
    requires i < |s.scanners|
  {
    s.(scanners := s.scanners[i := scanner])
  }

  ghost predicate OnChain(s: System, h: Hash) {
    exists n :: 0 <= n < |s.chain| && h in s.chain[n].hashes
  }

  /** A lock step that answers `gone` and moves scanner `i`. */
  ghost predicate Settles(s: System, i: nat, gone: set<(Hash, nat)>, outcome: Outcome, sent: seq<Answer>,
                          next: Scanner, s': System)
    requires i < |s.scanners|
  {
    && Sends(sent, gone, outcome)
    && s' == Moved(s, i, next).(lock := s.lock.(pending := Keep(s.lock.pending, gone)), log := s.log + sent)
  }

  function Observed(s: System, channel: nat): Option<Registration>
    requires channel < |s.lock.channels|
  {
    match s.lock.channels[channel]
    case Some(true) => Some(Ready)
    case Some(false) => Some(Done)
    case None => if channel == |s.lock.channels| - 1 then None else Some(Done)
  }

  /** After the head is known: the baseline, a rolled-back cursor, or the first block of a scan. */
  function HeadKnown(scanner: Scanner, head: nat): Scanner {
    if scanner.cursor.None? then Scanner(Some(head + 1), Top)
    else
      var number := if head + 1 < scanner.cursor.value then head + 1 else scanner.cursor.value;
      Scanner(Some(number), if number > head then Top else AwaitBlock(head, BLOCKS_PER_SCAN))
  }

  function Advanced(scanner: Scanner): Scanner
    requires scanner.cursor.Some? && scanner.phase.Expiring?
  {
    var number := scanner.cursor.value + 1;
    var left := if scanner.phase.left > 0 then scanner.phase.left - 1 else 0;
    Scanner(Some(number),
            if left == 0 || number > scanner.phase.head then Top else AwaitBlock(scanner.phase.head, left))
  }

  /** With the block's hashes known: fetch its receipts if somebody wants one, else expire. */
  ghost function NextAfterBlock(s: System, i: nat): Scanner
    requires i < |s.scanners| && s.scanners[i].phase.AwaitBlock?
    requires s.scanners[i].cursor.Some? && s.scanners[i].cursor.value < |s.chain|
  {
    var p := s.scanners[i].phase;
    s.scanners[i].(phase :=
      if NeedsReceipts(s.lock.pending, s.chain[s.scanners[i].cursor.value].hashes)
      then AwaitReceipts(p.head, p.left)
      else Expiring(p.head, p.left))
  }

  ghost predicate RegistrantNext(s: System, step: Step, s': System) {
    match step
    case Prepare =>
      && s.lock.channels != []
      && s' == s.(
        lock := Prepared(s.lock),
        scanners := if s.lock.running then s.scanners else s.scanners + [Scanner(None, Top)],
        registrations := s.registrations + [Waiting(|Prepared(s.lock).channels| - 1)])
    case Observe(r) =>
      && r < |s.registrations| && s.registrations[r].Waiting?
      && s.registrations[r].channel < |s.lock.channels|
      && Observed(s, s.registrations[r].channel).Some?
      && s' == s.(registrations := s.registrations[r := Observed(s, s.registrations[r].channel).value])
    case DropRegistration(r) =>
      && r < |s.registrations| && !s.registrations[r].Gone? && s.lock.preparing > 0
      && s' == s.(registrations := s.registrations[r := Gone], lock := s.lock.(preparing := s.lock.preparing - 1))
    case Register(r, hash, interest) =>
      && r < |s.registrations| && s.registrations[r].Ready? && s.lock.channels != []
      && (var t := s.(registrations := s.registrations[r := Done]);
          s' == if CanRegister(s.lock)
                then t.(lock := Registered(s.lock, hash, interest), filed := s.filed + [Filed(hash, interest)])
                else t)
    case DropWaiter(id) =>
      && id < |s.filed|
      && s' == s.(lock := s.lock.(pending := Keep(s.lock.pending, {(s.filed[id].hash, id)})),
                  withdrawn := s.withdrawn + if In(s.lock.pending, s.filed[id].hash, id) then {id} else {})
    case AppendBlock(block) => s' == s.(chain := s.chain + [block])
    case _ => false
  }

  ghost predicate ScannerNext(s: System, step: Step, s': System) {
    match step
    case StopIfIdle(i) =>
      && i < |s.scanners| && s.scanners[i].phase.Top?
      && s' == if IsIdle(s.lock)
               then Moved(s, i, s.scanners[i].(phase := Dead)).(lock := s.lock.(running := false))
               else Moved(s, i, s.scanners[i].(phase := AwaitHead))
    case FetchHead(i, head) =>
      && i < |s.scanners| && s.scanners[i].phase.AwaitHead? && head < |s.chain| && s.lock.channels != []
      && s' == Moved(s, i, HeadKnown(s.scanners[i], head)).(
                 lock := if s.scanners[i].cursor.None? then Announced(s.lock, true) else s.lock)
    case FetchBlock(i, sent) =>
      && i < |s.scanners| && s.scanners[i].phase.AwaitBlock?
      && s.scanners[i].cursor.Some? && s.scanners[i].cursor.value < |s.chain|
      && (var hashes := s.chain[s.scanners[i].cursor.value].hashes;
          Settles(s, i, HashOnly(s.lock.pending, hashes), Included(false), sent, NextAfterBlock(s, i), s'))
    case FetchReceipts(i, sent) =>
      && i < |s.scanners| && s.scanners[i].phase.AwaitReceipts?
      && s.scanners[i].cursor.Some? && s.scanners[i].cursor.value < |s.chain|
      && (var p, hashes := s.scanners[i].phase, s.chain[s.scanners[i].cursor.value].hashes;
          Settles(s, i, AllOf(s.lock.pending, hashes), Included(true), sent,
                  s.scanners[i].(phase := Expiring(p.head, p.left)), s'))
    case ExpireAt(i, sent) =>
      && i < |s.scanners| && s.scanners[i].phase.Expiring?
      && s.scanners[i].cursor.Some? && s.scanners[i].cursor.value < |s.chain|
      && Settles(s, i, LapsedAt(s.lock.pending, s.chain[s.scanners[i].cursor.value].timestamp), Expired, sent,
                 Advanced(s.scanners[i]), s')
    case Retry(i) =>
      && i < |s.scanners| && s.scanners[i].phase.Awaiting()
      && s' == Moved(s, i, s.scanners[i].(phase := Top))
    case Shutdown(i, sent) =>
      && i < |s.scanners| && s.scanners[i].phase.Awaiting() && s.lock.channels != []
      && Sends(sent, Everyone(s.lock.pending), Failed)
      && s' == Moved(s, i, s.scanners[i].(phase := Dead)).(lock := ShutDown(s.lock), log := s.log + sent)
    case _ => false
  }

  ghost predicate Next(s: System, step: Step, s': System) {
    RegistrantNext(s, step, s') || ScannerNext(s, step, s')
  }

  /** No registrant yet; the chain may already hold any blocks. */
  ghost predicate IsInitial(s: System) {
    s == System(INITIAL, [], [], [], {}, [], s.chain)
  }

  ghost predicate IsRun(states: seq<System>, steps: seq<Step>) {
    && |states| == |steps| + 1 && IsInitial(states[0])
    && forall n :: 0 <= n < |steps| ==> Next(states[n], steps[n], states[n + 1])
  }

  // --------------------------------------- what the later theorems ask for

  ghost predicate Ordered(chain: seq<Block>) {
    forall m, n :: 0 <= m < n < |chain| ==> chain[m].timestamp <= chain[n].timestamp
  }

  /** The block may hold the hash only below its expiry. */
  predicate Respects(b: Block, f: Filed) {
    f.hash in b.hashes && f.interest.expiresAt.Some? ==> b.timestamp < f.interest.expiresAt.value
  }

  ghost predicate AllRespect(s: System, id: nat) {
    id < |s.filed| && forall n :: 0 <= n < |s.chain| ==> Respects(s.chain[n], s.filed[id])
  }

  /** The scanner has already passed a block that holds the hash. */
  ghost predicate Passed(s: System, h: Hash) {
    exists n :: 0 <= n < Covered(s) && n < |s.chain| && h in s.chain[n].hashes
  }

  /** If the step registers interest `id`, its hash was not passed before. Other interests are not restricted. */
  ghost predicate InTime(s: System, step: Step, id: nat) {
    step.Register? && s.lock.channels != [] && CanRegister(s.lock) && |s.filed| == id ==> !Passed(s, step.hash)
  }

  /** A run whose first `n` steps register interest `id` in time, if at all. */
  ghost predicate IsTimelyRun(states: seq<System>, steps: seq<Step>, n: nat, id: nat) {
    IsRun(states, steps) && n <= |steps| && forall k :: 0 <= k < n ==> InTime(states[k], steps[k], id)
  }

  /** Step `r` is the one that registers interest `id`. */
  ghost predicate RegisteredAt(states: seq<System>, steps: seq<Step>, r: nat, id: nat) {
    && r < |steps| && |states| == |steps| + 1 && steps[r].Register?
    && |states[r].filed| == id && |states[r + 1].filed| == id + 1
  }

  // -------------------------------------------------------------- invariants

  ghost predicate Answered(s: System, id: nat) {
    exists a :: a in s.log && a.id == id
  }

  /** Every registered interest is pending, answered once, or withdrawn; never two of these. */
  ghost predicate Accounted(s: System) {
    && NoEmptyBuckets(s.lock.pending)
    && |s.filed| == s.lock.nextId
    && (forall h: Hash, id: nat :: In(s.lock.pending, h, id) ==>
          id < |s.filed| && s.filed[id] == Filed(h, s.lock.pending[h][id]) && id !in s.withdrawn)
    && (forall a :: a in s.log ==>
          a.id < |s.filed| && s.filed[a.id].hash == a.hash && a.id !in s.withdrawn && !In(s.lock.pending, a.hash, a.id))
    && (forall i, j :: 0 <= i < j < |s.log| ==> s.log[i].id != s.log[j].id)
    && (forall id :: id in s.withdrawn ==> id < |s.filed|)
    && (forall id: nat :: id < |s.filed| ==>
          In(s.lock.pending, s.filed[id].hash, id) || Answered(s, id) || id in s.withdrawn)
  }

  function Live(rs: seq<Registration>): nat {
    if rs == [] then 0 else (if rs[0].Gone? then 0 else 1) + Live(rs[1..])
  }

  function Current(s: System): Scanner {
    if s.scanners == [] then Scanner(None, Dead) else s.scanners[|s.scanners| - 1]
  }

  /** `running` holds exactly while one scanner, the latest, is alive. */
  ghost predicate Lifecycle(s: System) {
    && |s.lock.channels| == |s.scanners| + 1
    && (s.lock.running ==> s.scanners != [])
    && (forall i :: 0 <= i < |s.scanners| ==> (!s.scanners[i].phase.Dead? <==> s.lock.running && i == |s.scanners| - 1))
    && s.lock.preparing == Live(s.registrations)
    && (s.lock.running ==> LastChannel(s.lock) == if Current(s).cursor.Some? then Some(true) else None)
    && (s.lock.pending != map[] ==> s.lock.running && Current(s).cursor.Some?)
    && (forall r :: 0 <= r < |s.registrations| && s.registrations[r].Waiting? ==>
          Hopeful(s, s.registrations[r].channel))
  }

  /** A preparing caller's channel has its value, or the running scanner will set it. */
  ghost predicate Hopeful(s: System, channel: nat) {
    && channel < |s.lock.channels|
    && (s.lock.channels[channel].None? ==> s.lock.running && channel == |s.lock.channels| - 1)
  }

  /** How many blocks are known to hold no pending hash. */
  function Covered(s: System): nat {
    match Current(s).cursor
    case None => 0
    case Some(n) => if Current(s).phase.Dead? then 0 else if Current(s).phase.Expiring? then n + 1 else n
  }

  /** The cursor does not run ahead of the chain, nor a scan ahead of its head. */
  ghost predicate Bounded(s: System) {
    && (Current(s).cursor.Some? && !Current(s).phase.Dead? ==> Current(s).cursor.value <= |s.chain|)
    && (Current(s).phase.Scanning() ==>
          Current(s).cursor.Some? && Current(s).cursor.value <= Current(s).phase.head < |s.chain|)
  }

  ghost predicate Genuine(s: System) {
    forall a :: a in s.log && a.outcome.Included? ==> OnChain(s, a.hash)
  }

  /** A block of the chain is at or past the expiry. */
  ghost predicate WasDue(s: System, f: Filed) {
    f.interest.expiresAt.Some? && exists n :: 0 <= n < |s.chain| && f.interest.expiresAt.value <= s.chain[n].timestamp
  }

  /** Who wants a receipt is not put off with a bare inclusion, and nobody expires early. */
  ghost predicate Fitting(s: System) {
    forall a :: a in s.log ==>
      && a.id < |s.filed|
      && (a.outcome == Included(false) ==> !s.filed[a.id].interest.receipt)
      && (a.outcome.Expired? ==> WasDue(s, s.filed[a.id]))
  }

  ghost predicate Inv(s: System) {
    Accounted(s) && Lifecycle(s) && Bounded(s) && Genuine(s) && Fitting(s)
  }

  ghost predicate Pends(s: System, id: nat) {
    id < |s.filed| && In(s.lock.pending, s.filed[id].hash, id)
  }

  /** While the interest is pending, no covered block holds its hash. */
  ghost predicate Scanned(s: System, id: nat) {
    Pends(s, id) ==> forall n :: 0 <= n < Covered(s) && n < |s.chain| ==> s.filed[id].hash !in s.chain[n].hashes
  }

  /** Blocks up to one no earlier than the expiry do not hold the hash. */
  ghost predicate ProvenExpired(s: System, f: Filed) {
    exists n :: 0 <= n < |s.chain| && Lapsed(f.interest, s.chain[n].timestamp)
      && forall m :: 0 <= m <= n ==> f.hash !in s.chain[m].hashes
  }

  ghost predicate Truthful(s: System, id: nat) {
    forall a :: a in s.log && a.id == id && a.outcome.Expired? ==> id < |s.filed| && ProvenExpired(s, s.filed[id])
  }

  ghost predicate TimelyInv(s: System, id: nat) {
    Inv(s) && Scanned(s, id) && Truthful(s, id)
  }

  // -------------------------------------------------------------- accounting

  /** Answering pending interests keeps the accounts. */
  lemma SettledAccounts(s: System, gone: set<(Hash, nat)>, outcome: Outcome, sent: seq<Answer>, s': System)
    requires Accounted(s) && gone <= Everyone(s.lock.pending) && Sends(sent, gone, outcome)
    requires s'.lock.pending == Keep(s.lock.pending, gone) && s'.log == s.log + sent
    requires s'.filed == s.filed && s'.withdrawn == s.withdrawn && s'.lock.nextId == s.lock.nextId
    ensures Accounted(s')
  {
    KeepIn(s.lock.pending, gone);
    hide Keep, NoEmptyBuckets;
    forall a | a in s'.log
      ensures a.id < |s.filed| && s.filed[a.id].hash == a.hash && a.id !in s.withdrawn &&
        !In(s'.lock.pending, a.hash, a.id)
    {
      if a in sent {
        assert In(s.lock.pending, a.hash, a.id);
      }
    }
    SettledOnce(s, gone, outcome, sent);
    forall id: nat | id < |s.filed|
      ensures In(s'.lock.pending, s.filed[id].hash, id) || Answered(s', id) || id in s.withdrawn
    {
      SettledOne(s, gone, outcome, sent, s', id);
    }
  }

  lemma SettledOnce(s: System, gone: set<(Hash, nat)>, outcome: Outcome, sent: seq<Answer>)
    requires Accounted(s) && gone <= Everyone(s.lock.pending) && Sends(sent, gone, outcome)
    ensures var log := s.log + sent; forall i, j :: 0 <= i < j < |log| ==> log[i].id != log[j].id
  {
    var log := s.log + sent;
    forall i, j | 0 <= i < j < |log| ensures log[i].id != log[j].id {
      if j >= |s.log| {
        assert log[j] in sent && In(s.lock.pending, log[j].hash, log[j].id);
        if i >= |s.log| {
          assert log[i] in sent && In(s.lock.pending, log[i].hash, log[i].id) && sent[i - |s.log|] != sent[j - |s.log|];
        } else {
          assert log[i] in s.log;
        }
      }
    }
  }

  lemma SettledOne(s: System, gone: set<(Hash, nat)>, outcome: Outcome, sent: seq<Answer>, s': System, id: nat)
    requires Accounted(s) && Sends(sent, gone, outcome) && id < |s.filed|
    requires forall h: Hash, i: nat :: In(s'.lock.pending, h, i) <==> In(s.lock.pending, h, i) && (h, i) !in gone
    requires s'.log == s.log + sent && s'.withdrawn == s.withdrawn
    ensures In(s'.lock.pending, s.filed[id].hash, id) || Answered(s', id) || id in s.withdrawn
  {
    var h := s.filed[id].hash;
    if In(s.lock.pending, h, id) && (h, id) in gone {
      assert Answer(h, id, outcome) in s'.log;
    } else if Answered(s, id) {
      var a :| a in s.log && a.id == id;
      assert a in s'.log;
    }
  }

  lemma RegisteredAccounts(s: System, hash: Hash, interest: Interest, s': System)
    requires Accounted(s) && s'.lock == Registered(s.lock, hash, interest)
    requires s'.filed == s.filed + [Filed(hash, interest)] && s'.withdrawn == s.withdrawn && s'.log == s.log
    ensures Accounted(s')
  {
    var id := s.lock.nextId;
    forall h: Hash, i: nat ensures In(s'.lock.pending, h, i) <==> In(s.lock.pending, h, i) || (h == hash && i == id) {
    }
    assert forall h: Hash, i: nat :: In(s.lock.pending, h, i) ==> s'.lock.pending[h][i] == s.lock.pending[h][i];
    assert id in s'.lock.pending[hash];
    assert NoEmptyBuckets(s'.lock.pending);
    hide Registered, NoEmptyBuckets;
    forall i: nat | i < |s'.filed|
      ensures In(s'.lock.pending, s'.filed[i].hash, i) || Answered(s', i) || i in s'.withdrawn
    {
      if i < |s.filed| && Answered(s, i) {
        var a :| a in s.log && a.id == i;
        assert a in s'.log;
      }
    }
  }

  lemma WithdrawnAccounts(s: System, id: nat, s': System)
    requires Accounted(s) && id < |s.filed| && s'.filed == s.filed && s'.log == s.log && s'.lock.nextId == s.lock.nextId
    requires s'.lock.pending == Keep(s.lock.pending, {(s.filed[id].hash, id)})
    requires s'.withdrawn == s.withdrawn + if In(s.lock.pending, s.filed[id].hash, id) then {id} else {}
    ensures Accounted(s')
  {
    hide Keep, NoEmptyBuckets, Answered;
    KeepIn(s.lock.pending, {(s.filed[id].hash, id)});
    SameAnswered(s, s');
    hide In;
  }

  lemma SameAnswered(s: System, s': System)
    requires s'.log == s.log
    ensures forall id: nat :: Answered(s, id) <==> Answered(s', id)
  {
  }

  lemma SameAccounts(s: System, s': System)
    requires Accounted(s) && s'.lock.pending == s.lock.pending && s'.lock.nextId == s.lock.nextId
    requires s'.filed == s.filed && s'.withdrawn == s.withdrawn && s'.log == s.log
    ensures Accounted(s')
  {
    hide Answered, NoEmptyBuckets;
    SameAnswered(s, s');
  }

  lemma KeepNobody(p: Pending)
    ensures Keep(p, Everyone(p)) == map[]
  {
  }

  lemma StepAccounts(s: System, step: Step, s': System)
    requires Accounted(s) && Next(s, step, s')
    ensures Accounted(s')
  {
    hide Accounted, Sends, Keep, NeedsReceipts;
    match step {
      case Register(_, hash, interest) =>
        if CanRegister(s.lock) {
          RegisteredAccounts(s, hash, interest, s');
        } else {
          SameAccounts(s, s');
        }
      case DropWaiter(id) => WithdrawnAccounts(s, id, s');
      case FetchBlock(i, sent) =>
        var hashes := s.chain[s.scanners[i].cursor.value].hashes;
        SettledAccounts(s, HashOnly(s.lock.pending, hashes), Included(false), sent, s');
      case FetchReceipts(i, sent) =>
        var hashes := s.chain[s.scanners[i].cursor.value].hashes;
        SettledAccounts(s, AllOf(s.lock.pending, hashes), Included(true), sent, s');
      case ExpireAt(i, sent) =>
        var timestamp := s.chain[s.scanners[i].cursor.value].timestamp;
        SettledAccounts(s, LapsedAt(s.lock.pending, timestamp), Expired, sent, s');
      case Shutdown(i, sent) =>
        KeepNobody(s.lock.pending);
        SettledAccounts(s, Everyone(s.lock.pending), Failed, sent, s');
      case _ => SameAccounts(s, s');
    }
  }

  // --------------------------------------------------------------- lifecycle

  lemma {:induction false} LiveUpdate(rs: seq<Registration>, r: nat, x: Registration)
    requires r < |rs|
    ensures Live(rs[r := x]) + (if rs[r].Gone? then 0 else 1) == Live(rs) + (if x.Gone? then 0 else 1)
  {
    if r == 0 {
      assert rs[0 := x][1..] == rs[1..];
    } else {
      assert rs[r := x][1..] == rs[1..][r - 1 := x];
      LiveUpdate(rs[1..], r - 1, x);
    }
  }

  lemma {:induction false} LiveAppend(rs: seq<Registration>, x: Registration)
    ensures Live(rs + [x]) == Live(rs) + (if x.Gone? then 0 else 1)
  {
    if rs == [] {
      assert rs + [x] == [x];
    } else {
      assert (rs + [x])[1..] == rs[1..] + [x];
      LiveAppend(rs[1..], x);
    }
  }

  lemma {:induction false} NoneLive(rs: seq<Registration>, r: nat)
    requires Live(rs) == 0 && r < |rs|
    ensures rs[r].Gone?
  {
    if r > 0 {
      NoneLive(rs[1..], r - 1);
    }
  }

  lemma PrepareLifecycle(s: System, s': System)
    requires Lifecycle(s) && Next(s, Prepare, s')
    ensures Lifecycle(s')
  {
    LiveAppend(s.registrations, s'.registrations[|s.registrations|]);
    hide Live;
    forall r | 0 <= r < |s'.registrations| && s'.registrations[r].Waiting?
      ensures Hopeful(s', s'.registrations[r].channel)
    {
      if r < |s.registrations| {
        assert Hopeful(s, s.registrations[r].channel);
      }
    }
  }

  /** A registration moves on; at most the preparation count and the pending interests change with it. */
  lemma RegistrationLifecycle(s: System, r: nat, x: Registration, s': System)
    requires Lifecycle(s) && r < |s.registrations| && !s.registrations[r].Gone? && !x.Waiting?
    requires s'.registrations == s.registrations[r := x] && s'.scanners == s.scanners
    requires s'.lock.running == s.lock.running && s'.lock.channels == s.lock.channels
    requires s'.lock.preparing == s.lock.preparing - (if x.Gone? then 1 else 0)
    requires s'.lock.pending == s.lock.pending || (s.lock.running && Current(s).cursor.Some?)
    ensures Lifecycle(s')
  {
    LiveUpdate(s.registrations, r, x);
    hide Live;
    forall q | 0 <= q < |s'.registrations| && s'.registrations[q].Waiting?
      ensures Hopeful(s', s'.registrations[q].channel)
    {
      assert Hopeful(s, s.registrations[q].channel);
    }
  }

  /** A live scanner moves on without stopping; interests only leave. */
  lemma MovedLifecycle(s: System, i: nat, next: Scanner, s': System)
    requires Lifecycle(s) && i < |s.scanners| && !s.scanners[i].phase.Dead? && !next.phase.Dead?
    requires s'.scanners == s.scanners[i := next] && s'.registrations == s.registrations
    requires s'.lock.running == s.lock.running && s'.lock.preparing == s.lock.preparing
    requires s'.lock.pending != map[] ==> s.lock.pending != map[]
    requires s.scanners[i].cursor.Some? ==> next.cursor.Some?
    requires s'.lock.channels ==
      if s.scanners[i].cursor.None? && next.cursor.Some? then Announced(s.lock, true).channels else s.lock.channels
    ensures Lifecycle(s')
  {
    hide Live;
    forall q | 0 <= q < |s'.registrations| && s'.registrations[q].Waiting?
      ensures Hopeful(s', s'.registrations[q].channel)
    {
      assert Hopeful(s, s.registrations[q].channel);
    }
  }

  lemma StoppedLifecycle(s: System, i: nat, s': System)
    requires Lifecycle(s) && i < |s.scanners| && s.scanners[i].phase.Top? && IsIdle(s.lock)
    requires s' == Moved(s, i, s.scanners[i].(phase := Dead)).(lock := s.lock.(running := false))
    ensures Lifecycle(s')
  {
    forall r | 0 <= r < |s.registrations| ensures s.registrations[r].Gone? {
      NoneLive(s.registrations, r);
    }
    hide Live;
  }

  lemma ShutdownLifecycle(s: System, i: nat, sent: seq<Answer>, s': System)
    requires Lifecycle(s) && Next(s, Shutdown(i, sent), s')
    ensures Lifecycle(s')
  {
    hide Live, Sends;
    forall q | 0 <= q < |s'.registrations| && s'.registrations[q].Waiting?
      ensures Hopeful(s', s'.registrations[q].channel)
    {
      assert Hopeful(s, s.registrations[q].channel);
    }
  }

  lemma SameLifecycle(s: System, s': System)
    requires Lifecycle(s) && s'.registrations == s.registrations && s'.scanners == s.scanners
    requires s'.lock.running == s.lock.running && s'.lock.channels == s.lock.channels &&
      s'.lock.preparing == s.lock.preparing
    requires s'.lock.pending != map[] ==> s.lock.pending != map[]
    ensures Lifecycle(s')
  {
    forall q | 0 <= q < |s'.registrations| && s'.registrations[q].Waiting?
      ensures Hopeful(s', s'.registrations[q].channel)
    {
      assert Hopeful(s, s.registrations[q].channel);
    }
  }

  lemma KeepNonempty(p: Pending, gone: set<(Hash, nat)>)
    ensures Keep(p, gone) != map[] ==> p != map[]
  {
  }

  lemma RegisterReady(s: System)
    requires Lifecycle(s) && s.lock.channels != [] && CanRegister(s.lock)
    ensures s.lock.running && Current(s).cursor.Some?
  {
  }

  lemma SettledLifecycle(s: System, i: nat, gone: set<(Hash, nat)>, outcome: Outcome, sent: seq<Answer>,
                         next: Scanner, s': System)
    requires Lifecycle(s) && i < |s.scanners| && !s.scanners[i].phase.Dead? && !next.phase.Dead?
    requires s.scanners[i].cursor.Some? && next.cursor.Some?
    requires Settles(s, i, gone, outcome, sent, next, s')
    ensures Lifecycle(s')
  {
    KeepNonempty(s.lock.pending, gone);
    hide Lifecycle, Keep, Sends;
    MovedLifecycle(s, i, next, s');
  }

  lemma StepLifecycle(s: System, step: Step, s': System)
    requires Lifecycle(s) && Next(s, step, s')
    ensures Lifecycle(s')
  {
    hide Lifecycle, Sends, Keep, NeedsReceipts, HashOnly, AllOf, LapsedAt;
    match step {
      case Prepare => PrepareLifecycle(s, s');
      case Observe(r) => RegistrationLifecycle(s, r, Observed(s, s.registrations[r].channel).value, s');
      case DropRegistration(r) => RegistrationLifecycle(s, r, Gone, s');
      case Register(r, hash, interest) =>
        if CanRegister(s.lock) {
          RegisterReady(s);
        }
        RegistrationLifecycle(s, r, Done, s');
      case DropWaiter(id) =>
        KeepNonempty(s.lock.pending, {(s.filed[id].hash, id)});
        SameLifecycle(s, s');
      case AppendBlock(_) => SameLifecycle(s, s');
      case StopIfIdle(i) =>
        if IsIdle(s.lock) {
          StoppedLifecycle(s, i, s');
        } else {
          MovedLifecycle(s, i, s.scanners[i].(phase := AwaitHead), s');
        }
      case FetchHead(i, head) => MovedLifecycle(s, i, HeadKnown(s.scanners[i], head), s');
      case Retry(i) => MovedLifecycle(s, i, s.scanners[i].(phase := Top), s');
      case Shutdown(i, sent) => ShutdownLifecycle(s, i, sent, s');
      case _ => AnswerLifecycle(s, step, s');
    }
  }

  lemma AnswerLifecycle(s: System, step: Step, s': System)
    requires Lifecycle(s) && Next(s, step, s') && (step.FetchBlock? || step.FetchReceipts? || step.ExpireAt?)
    ensures Lifecycle(s')
  {
    hide Lifecycle, Sends, Keep, NeedsReceipts, HashOnly, AllOf, LapsedAt, Settles;
    match step {
      case FetchBlock(i, sent) =>
        var hashes := s.chain[s.scanners[i].cursor.value].hashes;
        SettledLifecycle(s, i, HashOnly(s.lock.pending, hashes), Included(false), sent, NextAfterBlock(s, i), s');
      case FetchReceipts(i, sent) =>
        var p, hashes := s.scanners[i].phase, s.chain[s.scanners[i].cursor.value].hashes;
        SettledLifecycle(s, i, AllOf(s.lock.pending, hashes), Included(true), sent,
                         s.scanners[i].(phase := Expiring(p.head, p.left)), s');
      case ExpireAt(i, sent) =>
        var timestamp := s.chain[s.scanners[i].cursor.value].timestamp;
        SettledLifecycle(s, i, LapsedAt(s.lock.pending, timestamp), Expired, sent, Advanced(s.scanners[i]), s');
      case _ =>
    }
  }

  // ---------------------------------------------------------------- scanning

  lemma AliveIsCurrent(s: System, i: nat)
    requires Lifecycle(s) && i < |s.scanners| && !s.scanners[i].phase.Dead?
    ensures i == |s.scanners| - 1 && s.lock.running && Current(s) == s.scanners[i]
    ensures s.lock.pending != map[] ==> s.scanners[i].cursor.Some?
  {
    hide Live;
  }

  lemma MovedBounded(s: System, i: nat, next: Scanner, s': System)
    requires Lifecycle(s) && i < |s.scanners| && !s.scanners[i].phase.Dead?
    requires s'.scanners == s.scanners[i := next] && s'.chain == s.chain
    requires next.cursor.Some? && !next.phase.Dead? ==> next.cursor.value <= |s.chain|
    requires next.phase.Scanning() ==> next.cursor.Some? && next.cursor.value <= next.phase.head < |s.chain|
    ensures Bounded(s')
  {
    AliveIsCurrent(s, i);
    assert Current(s') == next;
  }

  /** A chain that only grows stays ahead of an unchanged scanner. */
  lemma SameBounded(s: System, s': System)
    requires Bounded(s) && Current(s') == Current(s) && |s.chain| <= |s'.chain|
    ensures Bounded(s')
  {
  }

  lemma PreparedBounded(s: System, s': System)
    requires Bounded(s) && Next(s, Prepare, s')
    ensures Bounded(s')
  {
    assert !s.lock.running ==> Current(s') == Scanner(None, Top);
  }

  lemma AnswerBounded(s: System, step: Step, s': System)
    requires Bounded(s) && Lifecycle(s) && Next(s, step, s')
    requires step.FetchBlock? || step.FetchReceipts? || step.ExpireAt?
    ensures Bounded(s')
  {
    hide Lifecycle, Sends, Keep, NeedsReceipts, HashOnly, AllOf, LapsedAt;
    match step {
      case FetchBlock(i, _) => AliveIsCurrent(s, i); MovedBounded(s, i, NextAfterBlock(s, i), s');
      case FetchReceipts(i, _) => AliveIsCurrent(s, i); MovedBounded(s, i, s'.scanners[i], s');
      case ExpireAt(i, _) => AliveIsCurrent(s, i); MovedBounded(s, i, Advanced(s.scanners[i]), s');
      case _ =>
    }
  }

  lemma StepBounded(s: System, step: Step, s': System)
    requires Bounded(s) && Lifecycle(s) && Next(s, step, s')
    ensures Bounded(s')
  {
    hide Lifecycle, Sends, Keep, NeedsReceipts, Registered, Settles, HashOnly, AllOf, LapsedAt;
    match step {
      case Prepare => PreparedBounded(s, s');
      case FetchHead(i, head) => MovedBounded(s, i, HeadKnown(s.scanners[i], head), s');
      case FetchBlock(_, _) => AnswerBounded(s, step, s');
      case FetchReceipts(_, _) => AnswerBounded(s, step, s');
      case ExpireAt(_, _) => AnswerBounded(s, step, s');
      case Retry(i) => AliveIsCurrent(s, i); MovedBounded(s, i, s'.scanners[i], s');
      case StopIfIdle(i) => AliveIsCurrent(s, i); MovedBounded(s, i, s'.scanners[i], s');
      case Shutdown(i, _) => AliveIsCurrent(s, i); MovedBounded(s, i, s'.scanners[i], s');
      case _ => SameBounded(s, s');
    }
  }

  /** What was free of the hash stays free when the interest leaves or the cursor moves back. */
  lemma ShrunkScanned(s: System, s': System, id: nat)
    requires Scanned(s, id) && s'.chain == s.chain && Covered(s') <= Covered(s)
    requires Pends(s', id) ==> Pends(s, id) && s'.filed[id] == s.filed[id]
    ensures Scanned(s', id)
  {
  }

  lemma NothingPends(s: System, id: nat)
    requires s.lock.pending == map[]
    ensures !Pends(s, id)
  {
  }

  lemma KeptPends(s: System, gone: set<(Hash, nat)>, s': System, id: nat)
    requires s'.lock.pending == Keep(s.lock.pending, gone) && s'.filed == s.filed
    ensures Pends(s', id) <==> Pends(s, id) && (s.filed[id].hash, id) !in gone
  {
    KeepIn(s.lock.pending, gone);
  }

  lemma RegisteredScanned(s: System, r: nat, hash: Hash, interest: Interest, s': System, id: nat)
    requires Scanned(s, id) && Accounted(s) && Next(s, Register(r, hash, interest), s') && CanRegister(s.lock)
    requires InTime(s, Register(r, hash, interest), id)
    ensures Scanned(s', id)
  {
    assert |s.filed| == s.lock.nextId && Covered(s') == Covered(s);
    hide Accounted;
    if id < |s.filed| {
      assert Pends(s', id) ==> Pends(s, id);
    } else if id == |s.filed| {
      assert forall n :: 0 <= n < Covered(s) && n < |s.chain| ==> hash !in s.chain[n].hashes;
    }
    hide Registered, Passed;
  }

  lemma AppendedScanned(s: System, block: Block, s': System, id: nat)
    requires Scanned(s, id) && Bounded(s) && s' == s.(chain := s.chain + [block])
    ensures Scanned(s', id)
  {
    assert Current(s') == Current(s);
    assert Covered(s') <= |s.chain|;
  }

  /** The block at the cursor is done once no pending interest names one of its hashes. */
  lemma BlockDone(s: System, i: nat, gone: set<(Hash, nat)>, s': System, id: nat)
    requires Scanned(s, id) && Lifecycle(s) && i < |s.scanners| && i < |s'.scanners|
    requires s.scanners[i].phase.Scanning() && !s.scanners[i].phase.Expiring? && s.scanners[i].cursor.Some?
    requires s'.scanners == s.scanners[i := s'.scanners[i]] && s'.scanners[i].cursor == s.scanners[i].cursor
    requires s'.scanners[i].phase.Expiring? && s'.chain == s.chain && s'.filed == s.filed
    requires s'.lock.pending == Keep(s.lock.pending, gone) && s.scanners[i].cursor.value < |s.chain|
    requires forall h: Hash, u: nat ::
      In(s.lock.pending, h, u) && h in s.chain[s.scanners[i].cursor.value].hashes ==> (h, u) in gone
    ensures Scanned(s', id)
  {
    KeptPends(s, gone, s', id);
    AliveIsCurrent(s, i);
    hide Keep, Lifecycle;
    assert Current(s') == s'.scanners[i];
    assert Covered(s') == Covered(s) + 1 == s.scanners[i].cursor.value + 1;
  }

  lemma BareBlockDone(p: Pending, hashes: seq<Hash>)
    requires !NeedsReceipts(p, hashes)
    ensures forall h: Hash, id: nat :: In(p, h, id) && h in hashes ==> (h, id) in HashOnly(p, hashes)
  {
  }

  lemma WholeBlockDone(p: Pending, hashes: seq<Hash>)
    ensures forall h: Hash, id: nat :: In(p, h, id) && h in hashes ==> (h, id) in AllOf(p, hashes)
  {
  }

  lemma FetchedScanned(s: System, i: nat, sent: seq<Answer>, s': System, id: nat)
    requires Scanned(s, id) && Lifecycle(s) && Next(s, FetchBlock(i, sent), s')
    ensures Scanned(s', id)
  {
    hide Lifecycle, Sends, NeedsReceipts, Keep, HashOnly, In, Scanned;
    AliveIsCurrent(s, i);
    var hashes := s.chain[s.scanners[i].cursor.value].hashes;
    var gone := HashOnly(s.lock.pending, hashes);
    if NeedsReceipts(s.lock.pending, hashes) {
      KeptPends(s, gone, s', id);
      assert Current(s') == s'.scanners[i];
      ShrunkScanned(s, s', id);
    } else {
      BareBlockDone(s.lock.pending, hashes);
      BlockDone(s, i, gone, s', id);
    }
  }

  lemma ReceiptsScanned(s: System, i: nat, sent: seq<Answer>, s': System, id: nat)
    requires Scanned(s, id) && Lifecycle(s) && Next(s, FetchReceipts(i, sent), s')
    ensures Scanned(s', id)
  {
    hide Lifecycle, Sends, Keep, AllOf, In, Scanned;
    AliveIsCurrent(s, i);
    var hashes := s.chain[s.scanners[i].cursor.value].hashes;
    WholeBlockDone(s.lock.pending, hashes);
    BlockDone(s, i, AllOf(s.lock.pending, hashes), s', id);
  }

  lemma ExpiredScanned(s: System, i: nat, sent: seq<Answer>, s': System, id: nat)
    requires Scanned(s, id) && Lifecycle(s) && Next(s, ExpireAt(i, sent), s')
    ensures Scanned(s', id)
  {
    hide Lifecycle, Sends, Keep, LapsedAt, In, Scanned;
    AliveIsCurrent(s, i);
    KeptPends(s, LapsedAt(s.lock.pending, s.chain[s.scanners[i].cursor.value].timestamp), s', id);
    assert Current(s') == Advanced(s.scanners[i]);
    ShrunkScanned(s, s', id);
  }

  lemma HeadScanned(s: System, i: nat, head: nat, s': System, id: nat)
    requires Scanned(s, id) && Lifecycle(s) && Next(s, FetchHead(i, head), s')
    ensures Scanned(s', id)
  {
    AliveIsCurrent(s, i);
    hide Lifecycle;
    assert Current(s') == HeadKnown(s.scanners[i], head);
    if s.scanners[i].cursor.None? {
      NothingPends(s', id);
    } else {
      ShrunkScanned(s, s', id);
    }
  }

  lemma PreparedScanned(s: System, s': System, id: nat)
    requires Scanned(s, id) && Lifecycle(s) && Next(s, Prepare, s')
    ensures Scanned(s', id)
  {
    hide Live;
    if s.lock.running {
      assert Current(s') == Current(s);
      hide Lifecycle;
      ShrunkScanned(s, s', id);
    } else {
      NothingPends(s', id);
    }
  }

  lemma StepScanned(s: System, step: Step, s': System, id: nat)
    requires Scanned(s, id) && Accounted(s) && Lifecycle(s) && Bounded(s) && Next(s, step, s') && InTime(s, step, id)
    ensures Scanned(s', id)
  {
    hide Accounted, Lifecycle, Bounded, Scanned, Sends, Keep, NeedsReceipts, Settles, HeadKnown, Registered, InTime,
      In;
    match step {
      case Prepare => PreparedScanned(s, s', id);
      case Register(r, hash, interest) =>
        if CanRegister(s.lock) {
          RegisteredScanned(s, r, hash, interest, s', id);
        } else {
          ShrunkScanned(s, s', id);
        }
      case DropWaiter(u) =>
        KeptPends(s, {(s.filed[u].hash, u)}, s', id);
        ShrunkScanned(s, s', id);
      case AppendBlock(block) => AppendedScanned(s, block, s', id);
      case FetchHead(i, head) => HeadScanned(s, i, head, s', id);
      case FetchBlock(i, sent) => FetchedScanned(s, i, sent, s', id);
      case FetchReceipts(i, sent) => ReceiptsScanned(s, i, sent, s', id);
      case ExpireAt(i, sent) => ExpiredScanned(s, i, sent, s', id);
      case Observe(_) => ShrunkScanned(s, s', id);
      case DropRegistration(_) => ShrunkScanned(s, s', id);
      case Retry(i) =>
        AliveIsCurrent(s, i);
        ShrunkScanned(s, s', id);
      case StopIfIdle(i) =>
        AliveIsCurrent(s, i);
        ShrunkScanned(s, s', id);
      case Shutdown(i, _) =>
        NothingPends(s', id);
        ShrunkScanned(s, s', id);
    }
  }

  // ------------------------------------------------------------------- truth

  lemma ChainGrows(s: System, step: Step, s': System)
    requires Next(s, step, s')
    ensures s.chain <= s'.chain && s.filed <= s'.filed
  {
    hide Keep, Sends, HeadKnown, Advanced, Registered, NeedsReceipts;
  }

  /** Old answers stay genuine while the chain grows. */
  lemma GrownGenuine(s: System, sent: seq<Answer>, s': System)
    requires Genuine(s) && s.chain <= s'.chain && s'.log == s.log + sent
    requires forall a :: a in sent && a.outcome.Included? ==> OnChain(s', a.hash)
    ensures Genuine(s')
  {
    forall a | a in s.log && a.outcome.Included? ensures OnChain(s', a.hash) {
      var n :| 0 <= n < |s.chain| && a.hash in s.chain[n].hashes;
      assert s'.chain[n] == s.chain[n];
    }
    hide OnChain;
  }

  lemma IncludedGenuine(s: System, i: nat, gone: set<(Hash, nat)>, receipt: bool, sent: seq<Answer>, next: Scanner,
                        s': System)
    requires Genuine(s) && i < |s.scanners| && s.scanners[i].cursor.Some? && s.scanners[i].cursor.value < |s.chain|
    requires Settles(s, i, gone, Included(receipt), sent, next, s')
    requires forall h, id :: (h, id) in gone ==> h in s.chain[s.scanners[i].cursor.value].hashes
    ensures Genuine(s')
  {
    forall a | a in sent && a.outcome.Included? ensures OnChain(s', a.hash) {
      assert (a.hash, a.id) in gone;
    }
    hide Keep, OnChain;
    GrownGenuine(s, sent, s');
  }

  lemma StepGenuine(s: System, step: Step, s': System)
    requires Genuine(s) && Next(s, step, s')
    ensures Genuine(s')
  {
    hide Genuine, Keep, NeedsReceipts, HeadKnown, Registered, Advanced, OnChain;
    match step {
      case FetchBlock(i, sent) =>
        hide Settles, Sends;
        IncludedGenuine(s, i, HashOnly(s.lock.pending, s.chain[s.scanners[i].cursor.value].hashes), false, sent,
                        NextAfterBlock(s, i), s');
      case FetchReceipts(i, sent) =>
        hide Settles, Sends;
        var p, hashes := s.scanners[i].phase, s.chain[s.scanners[i].cursor.value].hashes;
        IncludedGenuine(s, i, AllOf(s.lock.pending, hashes), true, sent,
          s.scanners[i].(phase := Expiring(p.head, p.left)), s');
      case ExpireAt(_, sent) => GrownGenuine(s, sent, s');
      case Shutdown(_, sent) => GrownGenuine(s, sent, s');
      case _ =>
        assert s'.log == s.log + [];
        GrownGenuine(s, [], s');
    }
  }

  lemma DueStays(s: System, s': System, f: Filed)
    requires WasDue(s, f) && s.chain <= s'.chain
    ensures WasDue(s', f)
  {
    var n :| 0 <= n < |s.chain| && f.interest.expiresAt.value <= s.chain[n].timestamp;
    assert s'.chain[n] == s.chain[n];
  }

  lemma GrownFitting(s: System, sent: seq<Answer>, s': System)
    requires Fitting(s) && s.chain <= s'.chain && s.filed <= s'.filed && s'.log == s.log + sent
    requires forall a :: a in sent ==>
      && a.id < |s'.filed|
      && (a.outcome == Included(false) ==> !s'.filed[a.id].interest.receipt)
      && (a.outcome.Expired? ==> WasDue(s', s'.filed[a.id]))
    ensures Fitting(s')
  {
    forall a | a in s.log && a.outcome.Expired? ensures WasDue(s', s'.filed[a.id]) {
      DueStays(s, s', s.filed[a.id]);
    }
    hide WasDue;
  }

  /** The interests that a step answers are pending ones, so they are on file. */
  lemma SettledOnFile(s: System, gone: set<(Hash, nat)>, outcome: Outcome, sent: seq<Answer>)
    requires Accounted(s) && Sends(sent, gone, outcome) && gone <= Everyone(s.lock.pending)
    ensures forall a :: a in sent ==>
      && (a.hash, a.id) in gone && a.outcome == outcome && a.id < |s.filed|
      && a.hash in s.lock.pending && a.id in s.lock.pending[a.hash]
      && s.filed[a.id].interest == s.lock.pending[a.hash][a.id]
  {
    hide NoEmptyBuckets, Answered;
    forall a | a in sent
      ensures a.id < |s.filed| && a.hash in s.lock.pending && a.id in s.lock.pending[a.hash]
      ensures s.filed[a.id].interest == s.lock.pending[a.hash][a.id]
    {
      assert (a.hash, a.id) in Everyone(s.lock.pending);
      assert In(s.lock.pending, a.hash, a.id);
    }
  }

  lemma StepFitting(s: System, step: Step, s': System)
    requires Accounted(s) && Fitting(s) && Next(s, step, s')
    ensures Fitting(s')
  {
    hide Accounted, Fitting, Keep, NeedsReceipts, HeadKnown, Registered, Advanced, Sends, HashOnly, AllOf, LapsedAt;
    ChainGrows(s, step, s');
    match step {
      case FetchBlock(i, sent) =>
        var hashes := s.chain[s.scanners[i].cursor.value].hashes;
        MembersOfBare(s.lock.pending, hashes);
        SettledOnFile(s, HashOnly(s.lock.pending, hashes), Included(false), sent);
        GrownFitting(s, sent, s');
      case FetchReceipts(i, sent) =>
        var hashes := s.chain[s.scanners[i].cursor.value].hashes;
        MembersOfAll(s.lock.pending, hashes);
        SettledOnFile(s, AllOf(s.lock.pending, hashes), Included(true), sent);
        GrownFitting(s, sent, s');
      case ExpireAt(i, sent) =>
        var timestamp := s.chain[s.scanners[i].cursor.value].timestamp;
        MembersOfLapsed(s.lock.pending, timestamp);
        SettledOnFile(s, LapsedAt(s.lock.pending, timestamp), Expired, sent);
        GrownFitting(s, sent, s');
      case Shutdown(i, sent) =>
        SettledOnFile(s, Everyone(s.lock.pending), Failed, sent);
        GrownFitting(s, sent, s');
      case _ =>
        assert s'.log == s.log + [];
        GrownFitting(s, [], s');
    }
  }

  lemma {:induction false} ProvenStays(s: System, s': System, f: Filed)
    requires ProvenExpired(s, f) && s.chain <= s'.chain
    ensures ProvenExpired(s', f)
  {
    var n :| 0 <= n < |s.chain| && Lapsed(f.interest, s.chain[n].timestamp)
      && forall m :: 0 <= m <= n ==> f.hash !in s.chain[m].hashes;
    assert s'.chain[n] == s.chain[n];
    assert forall m :: 0 <= m <= n ==> s'.chain[m] == s.chain[m];
  }

  /** A step whose own expiries are proven keeps the interest's answers true. */
  lemma GrownTruth(s: System, sent: seq<Answer>, s': System, id: nat)
    requires Truthful(s, id) && s.chain <= s'.chain && s.filed <= s'.filed && s'.log == s.log + sent
    requires forall a :: a in sent && a.id == id && a.outcome.Expired? ==>
      id < |s'.filed| && ProvenExpired(s', s'.filed[id])
    ensures Truthful(s', id)
  {
    forall a | a in s.log && a.id == id && a.outcome.Expired?
      ensures id < |s'.filed| && ProvenExpired(s', s'.filed[id])
    {
      ProvenStays(s, s', s.filed[id]);
    }
    hide ProvenExpired;
  }

  lemma ExpiredTruth(s: System, i: nat, sent: seq<Answer>, s': System, id: nat)
    requires TimelyInv(s, id) && Next(s, ExpireAt(i, sent), s')
    ensures Truthful(s', id)
  {
    AliveIsCurrent(s, i);
    hide Lifecycle, Keep, NoEmptyBuckets, Answered, Genuine;
    var n := s.scanners[i].cursor.value;
    forall a | a in sent && a.id == id && a.outcome.Expired?
      ensures id < |s'.filed| && ProvenExpired(s', s'.filed[id])
    {
      assert (a.hash, a.id) in LapsedAt(s.lock.pending, s.chain[n].timestamp);
      assert In(s.lock.pending, a.hash, a.id);
      assert Lapsed(s'.filed[a.id].interest, s'.chain[n].timestamp);
      assert Covered(s) == n + 1;
    }
    hide Accounted, Scanned, ProvenExpired, Bounded;
    GrownTruth(s, sent, s', id);
  }

  lemma StepTruth(s: System, step: Step, s': System, id: nat)
    requires TimelyInv(s, id) && Next(s, step, s')
    ensures Truthful(s', id)
  {
    hide Accounted, Lifecycle, Bounded, Genuine, Scanned, Truthful;
    hide Keep, NeedsReceipts, HeadKnown, Registered, Advanced;
    ChainGrows(s, step, s');
    match step {
      case ExpireAt(i, sent) => ExpiredTruth(s, i, sent, s', id);
      case FetchBlock(_, sent) => GrownTruth(s, sent, s', id);
      case FetchReceipts(_, sent) => GrownTruth(s, sent, s', id);
      case Shutdown(_, sent) => GrownTruth(s, sent, s', id);
      case _ =>
        assert s'.log == s.log + [];
        GrownTruth(s, [], s', id);
    }
  }

  // ---------------------------------------------------------------- theorems

  lemma StepKeepsInv(s: System, step: Step, s': System)
    requires Inv(s) && Next(s, step, s')
    ensures Inv(s')
  {
    hide Accounted, Lifecycle, Bounded, Genuine, Fitting, Next;
    StepAccounts(s, step, s');
    StepFitting(s, step, s');
    StepLifecycle(s, step, s');
    StepBounded(s, step, s');
    StepGenuine(s, step, s');
  }

  /** A step that does not register interest `id` too late keeps what is known about it. */
  lemma StepKeepsTimelyInv(s: System, step: Step, s': System, id: nat)
    requires TimelyInv(s, id) && Next(s, step, s') && InTime(s, step, id)
    ensures TimelyInv(s', id)
  {
    StepTruth(s, step, s', id);
    hide Accounted, Lifecycle, Bounded, Genuine, Fitting, Scanned, Truthful, Next, InTime;
    StepScanned(s, step, s', id);
    hide Inv;
    StepKeepsInv(s, step, s');
  }

  lemma {:induction false} RunKeepsInv(states: seq<System>, steps: seq<Step>, n: nat)
    requires IsRun(states, steps) && n <= |steps|
    ensures Inv(states[n])
  {
    if n > 0 {
      RunKeepsInv(states, steps, n - 1);
      hide Inv;
      assert Next(states[n - 1], steps[n - 1], states[n]) by { hide Next; }
      hide Next;
      StepKeepsInv(states[n - 1], steps[n - 1], states[n]);
    }
  }

  lemma {:induction false} RunKeepsTimelyInv(states: seq<System>, steps: seq<Step>, n: nat, id: nat)
    requires IsTimelyRun(states, steps, n, id)
    ensures TimelyInv(states[n], id)
  {
    if n > 0 {
      RunKeepsTimelyInv(states, steps, n - 1, id);
      hide TimelyInv;
      assert Next(states[n - 1], steps[n - 1], states[n]) by { hide Next; }
      hide Next, InTime;
      StepKeepsTimelyInv(states[n - 1], steps[n - 1], states[n], id);
    }
  }

  /** The chain, the registrations and the answers only grow. */
  lemma {:induction false} RunGrows(states: seq<System>, steps: seq<Step>, m: nat, n: nat)
    requires IsRun(states, steps) && m <= n <= |steps|
    ensures states[m].log <= states[n].log && states[m].chain <= states[n].chain && states[m].filed <= states[n].filed
    decreases n - m
  {
    if m < n {
      RunGrows(states, steps, m, n - 1);
      assert Next(states[n - 1], steps[n - 1], states[n]) by { hide Next; }
      hide IsRun;
      StepLogGrows(states[n - 1], steps[n - 1], states[n]);
      ChainGrows(states[n - 1], steps[n - 1], states[n]);
    }
  }

  lemma StepLogGrows(s: System, step: Step, s': System)
    requires Next(s, step, s')
    ensures s.log <= s'.log
  {
    hide Keep, Sends, HeadKnown, Advanced, Registered;
  }

  /** At most one interest is registered per step, by `Register`. */
  lemma StepFiles(s: System, step: Step, s': System)
    requires Next(s, step, s')
    ensures s'.filed == s.filed || (step.Register? && |s'.filed| == |s.filed| + 1)
    ensures step.Register? && s.lock.channels != [] && CanRegister(s.lock) ==>
      s'.filed == s.filed + [Filed(step.hash, step.interest)]
  {
    hide Keep, Sends, HeadKnown, Advanced, Registered, NeedsReceipts;
  }

  /** Every interest was registered at some step. */
  lemma {:induction false} FiledAt(states: seq<System>, steps: seq<Step>, n: nat, id: nat) returns (r: nat)
    requires IsRun(states, steps) && n <= |steps| && id < |states[n].filed|
    ensures r < n && RegisteredAt(states, steps, r, id)
  {
    assert n > 0;
    assert Next(states[n - 1], steps[n - 1], states[n]) by { hide Next; }
    hide Next;
    StepFiles(states[n - 1], steps[n - 1], states[n]);
    if id < |states[n - 1].filed| {
      r := FiledAt(states, steps, n - 1, id);
    } else {
      r := n - 1;
    }
  }

  /**
   In every run an interest that wants a receipt is never answered without one, and an
   interest is answered `Expired` only if a block of the chain is at or past its expiry.
   */
  lemma RunAnswersFit(states: seq<System>, steps: seq<Step>, n: nat, a: Answer)
    requires IsRun(states, steps) && n <= |steps| && a in states[n].log
    ensures a.id < |states[n].filed|
    ensures states[n].filed[a.id].interest.receipt ==> a.outcome != Included(false)
    ensures a.outcome.Expired? ==>
      && states[n].filed[a.id].interest.expiresAt.Some?
      && exists b :: 0 <= b < |states[n].chain| &&
                     states[n].filed[a.id].interest.expiresAt.value <= states[n].chain[b].timestamp
  {
    RunKeepsInv(states, steps, n);
    hide IsRun, Accounted, Lifecycle, Bounded, Genuine;
  }

  /** After the expiry step of a block every interest still pending expires later than that block. */
  lemma ExpiryClears(s: System, i: nat, sent: seq<Answer>, s': System)
    requires Next(s, ExpireAt(i, sent), s')
    ensures forall h, id :: h in s'.lock.pending && id in s'.lock.pending[h] ==>
      var expiry := s'.lock.pending[h][id].expiresAt;
      expiry.Some? ==> s.chain[s.scanners[i].cursor.value].timestamp < expiry.value
    ensures forall h, id ::
      h in s.lock.pending && id in s.lock.pending[h] && s.lock.pending[h][id].expiresAt.None? ==>
      h in s'.lock.pending && id in s'.lock.pending[h]
  {
    var timestamp := s.chain[s.scanners[i].cursor.value].timestamp;
    MembersOfLapsed(s.lock.pending, timestamp);
    SettledEach(s.lock.pending, LapsedAt(s.lock.pending, timestamp), s'.lock.pending, sent, Expired);
    hide Keep, LapsedAt, Sends, Advanced;
  }

  /** Where a scanner stands after another `k` blocks of its scan. */
  function AfterBlocks(scanner: Scanner, k: nat): Option<Scanner> {
    if k == 0 then Some(scanner)
    else
      var before := AfterBlocks(scanner, k - 1);
      if before.Some? && before.value.phase.AwaitBlock? && before.value.cursor.Some? then
        Some(Advanced(before.value.(phase := Expiring(before.value.phase.head, before.value.phase.left))))
      else None
  }

  /** A scan starts at the cursor, reads one block after the other, and stops after 64 of them or past the head. */
  lemma {:induction false} ScanReads(scanner: Scanner, head: nat, k: nat)
    requires scanner.cursor.Some? && scanner.cursor.value <= head
    requires k <= 64 && k <= head + 1 - scanner.cursor.value
    ensures var r := AfterBlocks(HeadKnown(scanner, head), k);
      && r.Some? && r.value.cursor == Some(scanner.cursor.value + k)
      && (if k == 64 || k == head + 1 - scanner.cursor.value then r.value.phase.Top?
          else r.value.phase == AwaitBlock(head, 64 - k))
  {
    if k > 0 {
      ScanReads(scanner, head, k - 1);
    }
  }

  /** Without a baseline, or with the head fallen behind, the next block to read is the one after the head. */
  lemma HeadResets(scanner: Scanner, head: nat)
    requires scanner.cursor.Some? ==> head + 1 < scanner.cursor.value
    ensures HeadKnown(scanner, head) == Scanner(Some(head + 1), Top)
  {
  }

  /** `Included` is answered only for hashes on the chain. */
  lemma RunIncludedIsTrue(states: seq<System>, steps: seq<Step>, n: nat, a: Answer)
    requires IsRun(states, steps) && n <= |steps| && a in states[n].log && a.outcome.Included?
    ensures OnChain(states[n], a.hash)
  {
    RunKeepsInv(states, steps, n);
  }

  /** After an expiry in time a block can hold the hash only from the expiry on. */
  lemma ExpiredOffChain(s: System, a: Answer)
    requires TimelyInv(s, a.id) && Ordered(s.chain) && a in s.log && a.outcome.Expired?
    ensures a.id < |s.filed| && s.filed[a.id].hash == a.hash
    ensures AllRespect(s, a.id) ==> !OnChain(s, a.hash)
  {
    hide Lifecycle, Scanned, Bounded, Genuine, Fitting;
    var f := s.filed[a.id];
    assert f.hash == a.hash;
    hide Accounted;
    var n :| 0 <= n < |s.chain| && Lapsed(f.interest, s.chain[n].timestamp)
      && forall m :: 0 <= m <= n ==> f.hash !in s.chain[m].hashes;
    forall m | 0 <= m < |s.chain| && Respects(s.chain[m], f) ensures a.hash !in s.chain[m].hashes {
    }
  }

  /**
   An interest registered in time is answered `Expired` only if its hash is on no block,
   then or later, as long as block times are ordered and no block holds it past its expiry.
   */
  lemma RunExpiredIsForever(states: seq<System>, steps: seq<Step>, m: nat, n: nat, a: Answer)
    requires IsTimelyRun(states, steps, n, a.id) && m <= n && a in states[m].log && a.outcome.Expired?
    requires Ordered(states[n].chain) && AllRespect(states[n], a.id)
    ensures !OnChain(states[n], a.hash)
  {
    RunGrows(states, steps, m, n);
    assert a in states[n].log;
    RunKeepsTimelyInv(states, steps, n, a.id);
    hide IsRun, IsTimelyRun;
    ExpiredOffChain(states[n], a);
  }

  /** An interest is registered once, so only that step can be late. */
  lemma TimelyUntil(states: seq<System>, steps: seq<Step>, r: nat, n: nat, id: nat)
    requires IsRun(states, steps) && RegisteredAt(states, steps, r, id) && n <= |steps|
    requires !Passed(states[r], steps[r].hash)
    ensures IsTimelyRun(states, steps, n, id)
  {
    hide Passed;
    forall k | 0 <= k < n ensures InTime(states[k], steps[k], id) {
      if k < r {
        assert Next(states[k], steps[k], states[k + 1]) by { hide Next; }
        hide Next;
        StepFiles(states[k], steps[k], states[k + 1]);
        RunGrows(states, steps, k + 1, r);
      } else if k > r {
        hide Next;
        RunGrows(states, steps, r + 1, k);
      }
    }
  }

  /**
   Exactly when a hash that was called expired is on the chain, then or later: the
   scanner had passed a block with it when the interest was registered, or a block
   holds it at or after its expiry.
   */
  lemma RunExpiredExactly(states: seq<System>, steps: seq<Step>, m: nat, n: nat, a: Answer) returns (r: nat)
    requires IsRun(states, steps) && m <= n <= |steps| && a in states[m].log && a.outcome.Expired?
    requires Ordered(states[n].chain)
    ensures r < m && RegisteredAt(states, steps, r, a.id) && steps[r].hash == a.hash
    ensures OnChain(states[n], a.hash) <==> Passed(states[r], a.hash) || !AllRespect(states[n], a.id)
  {
    RunKeepsInv(states, steps, m);
    assert a.id < |states[m].filed| && states[m].filed[a.id].hash == a.hash by {
      hide Lifecycle, Bounded, Genuine, Fitting, IsRun;
    }
    r := FiledAt(states, steps, m, a.id);
    assert Next(states[r], steps[r], states[r + 1]) by { hide Next; }
    hide Next, Inv;
    RegisteredHash(states[r], steps[r], states[r + 1]);
    RunGrows(states, steps, r + 1, m);
    RunGrows(states, steps, m, n);
    RunGrows(states, steps, r, n);
    if Passed(states[r], a.hash) {
      PassedStays(states[r], states[n], a.hash);
    } else if AllRespect(states[n], a.id) {
      TimelyUntil(states, steps, r, n, a.id);
      RunExpiredIsForever(states, steps, m, n, a);
    }
    hide IsRun, Passed;
  }

  lemma RegisteredHash(s: System, step: Step, s': System)
    requires Next(s, step, s') && step.Register? && |s'.filed| == |s.filed| + 1
    ensures s'.filed[|s.filed|].hash == step.hash
  {
    hide Registered;
  }

  lemma PassedStays(s: System, s': System, h: Hash)
    requires Passed(s, h) && s.chain <= s'.chain
    ensures OnChain(s', h)
  {
    var n :| 0 <= n < |s.chain| && h in s.chain[n].hashes;
    assert s'.chain[n] == s.chain[n];
  }

  /**
   No interest is lost: each is pending under a live scanner that has its baseline,
   answered, or withdrawn by its own waiter, and never two of these.
   */
  lemma RunInterestNotLost(states: seq<System>, steps: seq<Step>, n: nat, id: nat)
    requires IsRun(states, steps) && n <= |steps| && id < |states[n].filed|
    ensures var s := states[n];
      var pending := In(s.lock.pending, s.filed[id].hash, id);
      && (pending || Answered(s, id) || id in s.withdrawn)
      && !(pending && Answered(s, id)) && !(pending && id in s.withdrawn) && !(Answered(s, id) && id in s.withdrawn)
      && (pending ==> s.lock.running && !Current(s).phase.Dead? && Current(s).cursor.Some?)
  {
    RunKeepsInv(states, steps, n);
    hide IsRun, Bounded, Genuine, Fitting, Live;
  }

  lemma RunAnsweredOnce(states: seq<System>, steps: seq<Step>, n: nat, i: nat, j: nat)
    requires IsRun(states, steps) && n <= |steps| && i < j < |states[n].log|
    ensures states[n].log[i].id != states[n].log[j].id
  {
    RunKeepsInv(states, steps, n);
    hide IsRun, Lifecycle, Bounded, Genuine, Fitting;
  }

  /** `running` holds exactly while a scanner is alive, and there is at most one. */
  lemma RunOneScanner(states: seq<System>, steps: seq<Step>, n: nat)
    requires IsRun(states, steps) && n <= |steps|
    ensures var s := states[n];
      && (s.lock.running <==> exists i :: 0 <= i < |s.scanners| && !s.scanners[i].phase.Dead?)
      && forall i, j :: 0 <= i < j < |s.scanners| ==> s.scanners[i].phase.Dead? || s.scanners[j].phase.Dead?
  {
    RunKeepsInv(states, steps, n);
    var s := states[n];
    hide IsRun, Accounted, Bounded, Genuine, Fitting, Live;
    if s.lock.running {
      assert !s.scanners[|s.scanners| - 1].phase.Dead?;
    }
  }

  /** A registration succeeds only once the one live scanner has a baseline. */
  lemma RunRegistersAfterBaseline(states: seq<System>, steps: seq<Step>, n: nat)
    requires IsRun(states, steps) && n < |steps| && steps[n].Register? && |states[n + 1].filed| > |states[n].filed|
    ensures var s := states[n + 1];
      && s.lock.running && !Current(s).phase.Dead? && Current(s).cursor.Some?
      && In(s.lock.pending, steps[n].hash, states[n].lock.nextId)
  {
    RunKeepsInv(states, steps, n);
    RunKeepsInv(states, steps, n + 1);
    assert Next(states[n], steps[n], states[n + 1]);
    hide IsRun, Bounded, Genuine, Fitting, Live;
  }

  /** A scanner stops when nobody waits and nobody prepares, or after failing every interest. */
  lemma StopLeavesNobody(s: System, step: Step, s': System)
    requires Inv(s) && Next(s, step, s') && s.lock.running && !s'.lock.running
    ensures s'.lock.pending == map[]
    ensures (s.lock.pending == map[] && forall r :: 0 <= r < |s.registrations| ==> s.registrations[r].Gone?)
      || (LastChannel(s'.lock) == Some(false) &&
          forall id: nat :: id < |s.filed| ==> id in s'.withdrawn || Answered(s', id))
  {
    hide Keep, Sends, HeadKnown, Advanced, Registered, NeedsReceipts;
    StepKeepsInv(s, step, s');
    hide Bounded, Genuine, Fitting, Inv;
    match step {
      case StopIfIdle(i) =>
        forall r | 0 <= r < |s.registrations| ensures s.registrations[r].Gone? {
          InvLive(s);
          NoneLive(s.registrations, r);
        }
      case Shutdown(i, sent) =>
        forall id: nat | id < |s.filed| ensures id in s'.withdrawn || Answered(s', id) {
          InvAccount(s', id);
        }
      case _ =>
    }
  }

  lemma InvLive(s: System)
    requires Inv(s)
    ensures s.lock.preparing == Live(s.registrations)
  {
  }

  lemma InvAccount(s: System, id: nat)
    requires Inv(s) && id < |s.filed|
    ensures In(s.lock.pending, s.filed[id].hash, id) || Answered(s, id) || id in s.withdrawn
  {
    hide Lifecycle, Bounded, Genuine, Fitting;
  }

  /** A preparing caller is never left behind: its channel has a value, or the live scanner will set it. */
  lemma RunPreparerNotLost(states: seq<System>, steps: seq<Step>, n: nat, r: nat)
    requires IsRun(states, steps) && n <= |steps| && r < |states[n].registrations| &&
      states[n].registrations[r].Waiting?
    ensures Hopeful(states[n], states[n].registrations[r].channel)
  {
    RunKeepsInv(states, steps, n);
    hide IsRun, Accounted, Bounded, Genuine, Fitting;
  }

  /**
   Once the cursor has passed the block that holds the hash of an interest registered in
   time, nobody waits for it any more, and it was not called expired, as long as block
   times are ordered and no block holds it past its expiry.
   */
  lemma RunPassedBlocksAreAnswered(states: seq<System>, steps: seq<Step>, n: nat, id: nat, b: nat)
    requires IsTimelyRun(states, steps, n, id) && id < |states[n].filed|
    requires Ordered(states[n].chain) && AllRespect(states[n], id)
    requires b < Covered(states[n]) && b < |states[n].chain| && states[n].filed[id].hash in states[n].chain[b].hashes
    requires id !in states[n].withdrawn
    ensures exists a :: a in states[n].log && a.id == id && !a.outcome.Expired?
  {
    var s := states[n];
    RunKeepsTimelyInv(states, steps, n, id);
    hide IsRun, IsTimelyRun;
    assert !Pends(s, id) by { hide Inv, Truthful; }
    InvAccount(s, id);
    var a :| a in s.log && a.id == id;
    assert a.hash == s.filed[id].hash by { hide Lifecycle, Scanned, Truthful, Bounded, Genuine, Fitting; }
    if a.outcome.Expired? {
      ExpiredOffChain(s, a);
    }
  }

  // -------------------------------------------- a hash registered too late

  const LATE := Interest(false, Some(5))

  function LateSteps(): seq<Step> {
    [Prepare, StopIfIdle(0), FetchHead(0, 0), Observe(0), Register(0, 7, LATE), StopIfIdle(0),
     AppendBlock(Block([], 5)), FetchHead(0, 1), FetchBlock(0, []), ExpireAt(0, [Answer(7, 0, Expired)])]
  }

  /** The states of that run, each computed from the previous one. */
  function LateStates(): seq<System> {
    var s0 := System(INITIAL, [], [], [], {}, [], [Block([7], 0)]);
    var s1 := s0.(lock := Lock(true, 1, 0, [None, None], map[]), scanners := [Scanner(None, Top)],
                  registrations := [Waiting(1)]);
    var s2 := s1.(scanners := [Scanner(None, AwaitHead)]);
    var s3 := s2.(scanners := [Scanner(Some(1), Top)], lock := Lock(true, 1, 0, [None, Some(true)], map[]));
    var s4 := s3.(registrations := [Ready]);
    var s5 := s4.(registrations := [Done], filed := [Filed(7, LATE)],
                  lock := Lock(true, 1, 1, [None, Some(true)], map[7 := map[0 := LATE]]));
    var s6 := s5.(scanners := [Scanner(Some(1), AwaitHead)]);
    var s7 := s6.(chain := [Block([7], 0), Block([], 5)]);
    var s8 := s7.(scanners := [Scanner(Some(1), AwaitBlock(1, BLOCKS_PER_SCAN))]);
    var s9 := s8.(scanners := [Scanner(Some(1), Expiring(1, BLOCKS_PER_SCAN))]);
    var s10 := s9.(scanners := [Scanner(Some(2), Top)], lock := Lock(true, 1, 1, [None, Some(true)], map[]),
                   log := [Answer(7, 0, Expired)]);
    [s0, s1, s2, s3, s4, s5, s6, s7, s8, s9, s10]
  }

  lemma LateBegins()
    ensures forall n :: 0 <= n < 5 ==> Next(LateStates()[n], LateSteps()[n], LateStates()[n + 1])
  {
    var s, steps := LateStates(), LateSteps();
    assert Next(s[0], steps[0], s[1]);
    assert Next(s[1], steps[1], s[2]);
    assert Next(s[2], steps[2], s[3]);
    assert Next(s[3], steps[3], s[4]);
    assert Next(s[4], steps[4], s[5]);
  }

  lemma LateKeeps()
    ensures var pending: Pending := map[7 := map[0 := LATE]];
      Keep(pending, {}) == pending && HashOnly(pending, []) == {} && !NeedsReceipts(pending, [])
  {
    var pending: Pending := map[7 := map[0 := LATE]];
    assert 0 in pending[7];
    assert Keep(pending, {})[7] == map[0 := LATE];
  }

  lemma LateScans()
    ensures forall n :: 5 <= n < 9 ==> Next(LateStates()[n], LateSteps()[n], LateStates()[n + 1])
  {
    var s, steps := LateStates(), LateSteps();
    LateKeeps();
    assert Next(s[5], steps[5], s[6]);
    assert Next(s[6], steps[6], s[7]);
    assert Next(s[7], steps[7], s[8]);
    hide Keep, HashOnly, NeedsReceipts;
    assert Next(s[8], steps[8], s[9]);
  }

  lemma LateExpires()
    ensures Next(LateStates()[9], LateSteps()[9], LateStates()[10])
  {
    var pending := LateStates()[9].lock.pending;
    assert pending[7][0] == LATE;
    assert LapsedAt(pending, 5) == {(7, 0)};
    assert Keep(pending, {(7, 0)}) == map[];
  }

  /** Registered only after its block was scanned past, a hash on the chain is called expired long after inclusion. */
  lemma LateRegistrationExpires()
    ensures IsRun(LateStates(), LateSteps()) && RegisteredAt(LateStates(), LateSteps(), 4, 0)
    ensures var s := LateStates()[10];
      Ordered(s.chain) && AllRespect(s, 0) && OnChain(s, 7) && Answer(7, 0, Expired) in s.log
  {
    LateBegins();
    LateScans();
    LateExpires();
    hide Next;
    assert 7 in LateStates()[10].chain[0].hashes;
  }
}
