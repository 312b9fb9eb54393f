/**
 The incremental scanner over a JSON-RPC response body: two nested byte automata that
 resume at any chunk boundary. The hasher is modelled as the bytes fed to it.
 */
module ResponseScanner {
  import opened Wrappers

  const QUOTE: byte := 34
  const COMMA: byte := 44
  const COLON: byte := 58
  const OPEN_BRACKET: byte := 91
  const BACKSLASH: byte := 92
  const CLOSE_BRACKET: byte := 93
  const OPEN_BRACE: byte := 123
  const CLOSE_BRACE: byte := 125

  const MAX_ERROR_CAPTURE: nat := 65536
  const MAX_KEY_LEN: nat := 32

  /** Space, tab, line feed, form feed and carriage return. */
  predicate IsWhitespace(b: byte) {
    b == 32 || b == 9 || b == 10 || b == 12 || b == 13
  }

  /** The member names `result` and `error` in ASCII. */
  const RESULT: seq<byte> := [114, 101, 115, 117, 108, 116]
  const ERROR: seq<byte> := [101, 114, 114, 111, 114]

  // ------------------------------------------------- one byte at a time

  datatype ValueState = ValueState(depth: nat, inString: bool, escaped: bool, literal: bool, started: bool)

  const UNSTARTED := ValueState(0, false, false, false, false)

  /** Once started, a value that is neither a string nor a literal is inside a bracket. */
  predicate Balanced(v: ValueState) {
    v.started && !v.inString && !v.literal ==> v.depth > 0
  }

  /** What one byte does to a value: skipped before it, part of it, its last byte, or past its end. */
  datatype ValueStep = Skip | Take(next: ValueState) | TakeLast(next: ValueState) | Past

  predicate EndsLiteral(b: byte) {
    IsWhitespace(b) || b == COMMA || b == CLOSE_BRACE || b == CLOSE_BRACKET
  }

  function StepValue(v: ValueState, b: byte): (r: ValueStep)
    requires Balanced(v)
    ensures r.Take? ==> Balanced(r.next) && r.next.started
    ensures r.Skip? ==> !v.started
  {
    if !v.started then
      if IsWhitespace(b) then Skip
      else if b == OPEN_BRACE || b == OPEN_BRACKET then Take(v.(started := true, depth := 1))
      else if b == QUOTE then Take(v.(started := true, inString := true))
      else Take(v.(started := true, literal := true))
    else if v.inString then
      if v.escaped then Take(v.(escaped := false))
      else if b == BACKSLASH then Take(v.(escaped := true))
      else if b == QUOTE then
        if v.depth == 0 then TakeLast(v.(inString := false))
        else Take(v.(inString := false))
      else Take(v)
    else if v.literal then
      if EndsLiteral(b) then Past else Take(v)
    else if b == QUOTE then Take(v.(inString := true))
    else if b == OPEN_BRACE || b == OPEN_BRACKET then Take(v.(depth := v.depth + 1))
    else if b == CLOSE_BRACE || b == CLOSE_BRACKET then
      if v.depth == 1 then TakeLast(v.(depth := 0)) else Take(v.(depth := v.depth - 1))
    else Take(v)
  }

  datatype Phase =
    | BeforeObject
    | BeforeKey
    | InKey(escaped: bool)
    | BeforeColon
    | InValue
    | AfterValue
    | Finished

  datatype Member = ResultMember | ErrorMember | OtherMember

  datatype Scan = Scan(
    phase: Phase,
    key: seq<byte>,
    keyOverflow: bool,
    value: ValueState,
    member: Member,
    result: Option<seq<byte>>,
    error: Option<seq<byte>>)

  const START := Scan(BeforeObject, [], false, UNSTARTED, OtherMember, None, None)

  datatype ScanError = NotAnObject | Malformed

  /** A key byte becomes a Latin-1 character, two bytes long from 128 on. */
  function KeyLen(key: seq<byte>): nat {
    if key == [] then 0 else KeyLen(key[..|key| - 1]) + (if key[|key| - 1] < 128 then 1 else 2)
  }

  function PushKey(s: Scan, b: byte): Scan {
    if KeyLen(s.key) >= MAX_KEY_LEN then s.(keyOverflow := true) else s.(key := s.key + [b])
  }

  function Classify(key: seq<byte>, overflow: bool): Member {
    if overflow then OtherMember
    else if key == RESULT then ResultMember
    else if key == ERROR then ErrorMember
    else OtherMember
  }

  function Capped(captured: seq<byte>, more: seq<byte>): seq<byte> {
    var room := if |captured| < MAX_ERROR_CAPTURE then MAX_ERROR_CAPTURE - |captured| else 0;
    captured + if |more| < room then more else more[..room]
  }

  function StartMember(s: Scan): Scan {
    match s.member
    case ResultMember => s.(result := Some([]))
    case ErrorMember => s.(error := Some([]))
    case OtherMember => s
  }

  function Consume(s: Scan, bytes: seq<byte>): Scan {
    match s.member
    case ResultMember => if s.result.Some? then s.(result := Some(s.result.value + bytes)) else s
    case ErrorMember => if s.error.Some? then s.(error := Some(Capped(s.error.value, bytes))) else s
    case OtherMember => s
  }

  function AfterMember(s: Scan): Scan {
    s.(member := OtherMember, phase := AfterValue)
  }

  function StepAfterValue(s: Scan, b: byte): Result<Scan, ScanError> {
    if b == COMMA then Ok(s.(phase := BeforeKey))
    else if b == CLOSE_BRACE then Ok(s.(phase := Finished))
    else if IsWhitespace(b) then Ok(s)
    else Err(Malformed)
  }

  /** The value under scan is balanced, and what is retained stays within its caps. */
  ghost predicate Fit(s: Scan) {
    && (s.phase.InValue? ==> Balanced(s.value))
    && KeyLen(s.key) <= MAX_KEY_LEN + 1
    && (s.error.Some? ==> |s.error.value| <= MAX_ERROR_CAPTURE)
  }

  function Step(s: Scan, b: byte): (r: Result<Scan, ScanError>)
    requires s.phase.InValue? ==> Balanced(s.value)
    ensures r.Ok? && r.value.phase.InValue? ==> Balanced(r.value.value)
  {
    match s.phase
    case BeforeObject =>
      if b == OPEN_BRACE then Ok(s.(phase := BeforeKey)) else if IsWhitespace(b) then Ok(s) else Err(NotAnObject)
    case BeforeKey =>
      if b == QUOTE then Ok(s.(key := [], keyOverflow := false, phase := InKey(false)))
      else if b == CLOSE_BRACE then Ok(s.(phase := Finished))
      else if b == COMMA || IsWhitespace(b) then Ok(s)
      else Err(Malformed)
    case InKey(escaped) =>
      if escaped then Ok(PushKey(s, b).(phase := InKey(false)))
      else if b == BACKSLASH then Ok(s.(phase := InKey(true)))
      else if b == QUOTE then Ok(s.(member := Classify(s.key, s.keyOverflow), phase := BeforeColon))
      else Ok(PushKey(s, b))
    case BeforeColon =>
      if b == COLON then Ok(StartMember(s.(value := UNSTARTED)).(phase := InValue))
      else if IsWhitespace(b) then Ok(s)
      else Err(Malformed)
    case InValue =>
      (match StepValue(s.value, b)
       case Skip => Ok(s)
       case Take(v) => Ok(Consume(s, [b]).(value := v))
       case TakeLast(v) => Ok(AfterMember(Consume(s, [b]).(value := v)))
       case Past => StepAfterValue(AfterMember(s), b))
    case AfterValue => StepAfterValue(s, b)
    case Finished => Ok(s)
  }

  /** The whole scan of a byte string, one byte at a time; the first error ends it. */
  function Run(s: Scan, bytes: seq<byte>): (r: Result<Scan, ScanError>)
    requires s.phase.InValue? ==> Balanced(s.value)
    ensures r.Ok? && r.value.phase.InValue? ==> Balanced(r.value.value)
    decreases |bytes|
  {
    if bytes == [] then Ok(s)
    else
      var r := Step(s, bytes[0]);
      if r.Err? then r else Run(r.value, bytes[1..])
  }

  /** One byte more of a chunk. */
  lemma RunAt(s: Scan, chunk: seq<byte>, index: nat)
    requires (s.phase.InValue? ==> Balanced(s.value)) && index < |chunk|
    ensures var r := Step(s, chunk[index]);
      Run(s, chunk[index..]) == if r.Err? then r else Run(r.value, chunk[index + 1..])
  {
    hide Step;
    assert chunk[index..][1..] == chunk[index + 1..];
  }

  lemma RunNothing(s: Scan)
    requires s.phase.InValue? ==> Balanced(s.value)
    ensures Run(s, []) == Ok(s)
  {
  }

  datatype FinishError = Truncated | NeitherResultNorError

  datatype Summary = Answered(text: seq<byte>) | RpcError(captured: seq<byte>)

  function Summarize(s: Scan): Result<Summary, FinishError> {
    if !s.phase.Finished? then Err(Truncated)
    else if s.error.Some? then Ok(RpcError(s.error.value))
    else if s.result.None? then Err(NeitherResultNorError)
    else Ok(Answered(s.result.value))
  }

  function Concat(chunks: seq<seq<byte>>): seq<byte> {
    if chunks == [] then [] else chunks[0] + Concat(chunks[1..])
  }

  // -------------------------------------------------------- chunk at a time

  datatype Progress = Progress(skipped: nat, end: nat, complete: bool)

  /** A value scan over a whole chunk, and how far it got. */
  function ScanValue(v: ValueState, chunk: seq<byte>): (r: (ValueState, Progress))
    requires Balanced(v)
    ensures r.1.skipped <= r.1.end <= |chunk|
    ensures v.started ==> r.1.skipped == 0
    ensures !r.1.complete ==> r.1.end == |chunk| && Balanced(r.0)
    decreases |chunk|
  {
    if chunk == [] then (v, Progress(0, 0, false))
    else
      match StepValue(v, chunk[0])
      case Skip =>
        var r := ScanValue(v, chunk[1..]);
        (r.0, Progress(r.1.skipped + 1, r.1.end + 1, r.1.complete))
      case Take(next) =>
        var r := ScanValue(next, chunk[1..]);
        (r.0, Progress(r.1.skipped, r.1.end + 1, r.1.complete))
      case TakeLast(next) => (next, Progress(0, 1, true))
      case Past => (v, Progress(0, 0, true))
  }

  /** A value scan takes one byte more of a chunk. */
  lemma ScanAt(v: ValueState, chunk: seq<byte>, index: nat)
    requires Balanced(v) && index < |chunk|
    ensures var r := ScanValue(v, chunk[index..]); var rest := chunk[index + 1..];
      match StepValue(v, chunk[index])
      case Skip =>
        var t := ScanValue(v, rest);
        !v.started && r == (t.0, Progress(t.1.skipped + 1, t.1.end + 1, t.1.complete))
      case Take(next) =>
        var t := ScanValue(next, rest);
        next.started && Balanced(next) && r == (t.0, Progress(t.1.skipped, t.1.end + 1, t.1.complete))
      case TakeLast(next) => next.started && r == (next, Progress(0, 1, true))
      case Past => r == (v, Progress(0, 0, true))
  {
    assert chunk[index..][1..] == chunk[index + 1..];
  }

  lemma ScanNothing(v: ValueState)
    requires Balanced(v)
    ensures ScanValue(v, []) == (v, Progress(0, 0, false))
  {
  }

  class ValueScan {
    var depth: nat
    var inString: bool
    var escaped: bool
    var literal: bool
    var started: bool

    ghost function View(): ValueState
      reads this
    {
      ValueState(depth, inString, escaped, literal, started)
    }

    constructor ()
      ensures View() == UNSTARTED
    {
      depth, inString, escaped, literal, started := 0, false, false, false, false;
    }

    /** Look at one byte: `taken` when it belongs to this member, `complete` when the value has ended. */
    method FeedByte(b: byte) returns (taken: bool, complete: bool)
      requires Balanced(View())
      modifies this
      ensures match StepValue(old(View()), b)
        case Skip => View() == old(View()) && taken && !complete
        case Take(next) => View() == next && taken && !complete
        case TakeLast(next) => View() == next && taken && complete
        case Past => View() == old(View()) && !taken && complete
    {
      if !started {
        if IsWhitespace(b) {
          return true, false;
        }
        started := true;
        if b == OPEN_BRACE || b == OPEN_BRACKET {
          depth := 1;
        } else if b == QUOTE {
          inString := true;
        } else {
          literal := true;
        }
        return true, false;
      }
      if inString {
        if escaped {
          escaped := false;
        } else if b == BACKSLASH {
          escaped := true;
        } else if b == QUOTE {
          inString := false;
          return true, depth == 0;
        }
        return true, false;
      }
      if literal {
        var ends := IsWhitespace(b) || b == COMMA || b == CLOSE_BRACE || b == CLOSE_BRACKET;
        return !ends, ends;
      }
      if b == QUOTE {
        inString := true;
      } else if b == OPEN_BRACE || b == OPEN_BRACKET {
        depth := depth + 1;
      } else if b == CLOSE_BRACE || b == CLOSE_BRACKET {
        depth := depth - 1;
        return true, depth == 0;
      }
      return true, false;
    }

    method Feed(chunk: seq<byte>) returns (p: Progress)
      requires Balanced(View())
      modifies this
      ensures (View(), p) == ScanValue(old(View()), chunk)
    {
      hide ScanValue, StepValue;
      ghost var whole := ScanValue(View(), chunk);
      assert chunk[0..] == chunk;
      var index, skipped := 0, 0;
      while index < |chunk|
        invariant skipped <= index <= |chunk| && Balanced(View()) && (started || skipped == index)
        invariant var rest := ScanValue(View(), chunk[index..]);
          whole == (rest.0, Progress(rest.1.skipped + skipped, rest.1.end + index, rest.1.complete))
        decreases |chunk| - index
      {
        ScanAt(View(), chunk, index);
        var taken, complete := FeedByte(chunk[index]);
        if taken {
          index := index + 1;
          if !started {
            skipped := skipped + 1;
          }
        }
        if complete {
          return Progress(skipped, index, true);
        }
      }
      ScanNothing(View());
      return Progress(skipped, index, false);
    }
  }

  lemma CappedTwice(e: seq<byte>, a: seq<byte>, b: seq<byte>)
    ensures Capped(Capped(e, a), b) == Capped(e, a + b)
  {
  }

  lemma ConsumeTwice(s: Scan, a: seq<byte>, b: seq<byte>)
    ensures Consume(Consume(s, a), b) == Consume(s, a + b)
  {
    if s.member.ResultMember? && s.result.Some? {
      assert s.result.value + (a + b) == s.result.value + a + b;
    } else if s.member.ErrorMember? && s.error.Some? {
      CappedTwice(s.error.value, a, b);
    }
  }

  /** The part of a chunk that a value scan consumed, fed as one slice. */
  function Consumed(s: Scan, chunk: seq<byte>): Scan
    requires Balanced(s.value)
  {
    var r := ScanValue(s.value, chunk);
    var t := Consume(s, chunk[r.1.skipped..r.1.end]).(value := r.0);
    if r.1.complete then AfterMember(t) else t
  }

  /** The first byte of a chunk that meets a value scan. */
  lemma ValueRuns(s: Scan, chunk: seq<byte>)
    requires s.phase.InValue? && Balanced(s.value) && chunk != []
    ensures match StepValue(s.value, chunk[0])
      case Skip => Run(s, chunk) == Run(s, chunk[1..])
      case Take(v) => Run(s, chunk) == Run(Consume(s, [chunk[0]]).(value := v), chunk[1..])
      case TakeLast(v) => Run(s, chunk) == Run(AfterMember(Consume(s, [chunk[0]]).(value := v)), chunk[1..])
      case Past => Run(s, chunk) == Run(AfterMember(s), chunk)
  {
    hide Consume, IsWhitespace, StepAfterValue, StepValue;
  }

  /** Feeding a value in one slice is feeding it byte by byte. */
  lemma {:induction false} ValueFeeds(s: Scan, chunk: seq<byte>)
    requires s.phase.InValue? && Balanced(s.value)
    ensures Run(s, chunk) == Run(Consumed(s, chunk), chunk[ScanValue(s.value, chunk).1.end..])
    decreases |chunk|
  {
    hide Consume, Run, StepValue, Consumed, ScanValue;
    if chunk == [] {
      ConsumedNothing(s);
    } else {
      ValueRuns(s, chunk);
      var end := ScanValue(s.value, chunk).1.end;
      match StepValue(s.value, chunk[0])
      case Skip =>
        ValueFeeds(s, chunk[1..]);
        ConsumedSkip(s, chunk);
        assert chunk[1..][end - 1..] == chunk[end..];
      case Take(v) =>
        var t := Consume(s, [chunk[0]]).(value := v);
        ConsumedTake(s, chunk, v);
        ValueFeeds(t, chunk[1..]);
        assert chunk[1..][end - 1..] == chunk[end..];
      case TakeLast(v) =>
        ConsumedLast(s, chunk, v);
      case Past =>
        ConsumedPast(s, chunk);
        assert chunk[0..] == chunk;
    }
  }

  lemma ConsumedNothing(s: Scan)
    requires s.phase.InValue? && Balanced(s.value)
    ensures Consumed(s, []) == s && ScanValue(s.value, []).1.end == 0
  {
    ConsumeNothing(s);
  }

  lemma ConsumedLast(s: Scan, chunk: seq<byte>, v: ValueState)
    requires s.phase.InValue? && Balanced(s.value) && chunk != [] && StepValue(s.value, chunk[0]) == TakeLast(v)
    ensures Consumed(s, chunk) == AfterMember(Consume(s, [chunk[0]]).(value := v))
    ensures ScanValue(s.value, chunk).1.end == 1
  {
    hide Consume, StepValue;
    assert chunk[0..1] == [chunk[0]];
  }

  lemma ConsumedPast(s: Scan, chunk: seq<byte>)
    requires s.phase.InValue? && Balanced(s.value) && chunk != [] && StepValue(s.value, chunk[0]).Past?
    ensures Consumed(s, chunk) == AfterMember(s) && ScanValue(s.value, chunk).1.end == 0
  {
    hide StepValue;
    assert chunk[0..0] == [];
    ConsumeNothing(s);
    hide Consume;
  }

  lemma ConsumedSkip(s: Scan, chunk: seq<byte>)
    requires s.phase.InValue? && Balanced(s.value) && chunk != [] && StepValue(s.value, chunk[0]).Skip?
    ensures Consumed(s, chunk) == Consumed(s, chunk[1..])
    ensures ScanValue(s.value, chunk).1.end == ScanValue(s.value, chunk[1..]).1.end + 1
  {
    hide StepValue, Consume, AfterMember, ScanValue;
    assert chunk[0..] == chunk;
    ScanAt(s.value, chunk, 0);
    var p := ScanValue(s.value, chunk).1;
    assert chunk[1..][p.skipped - 1..p.end - 1] == chunk[p.skipped..p.end];
  }

  lemma ConsumedTake(s: Scan, chunk: seq<byte>, v: ValueState)
    requires s.phase.InValue? && Balanced(s.value) && chunk != [] && StepValue(s.value, chunk[0]) == Take(v)
    ensures var t := Consume(s, [chunk[0]]).(value := v);
      t.phase.InValue? && Balanced(v) && Consumed(s, chunk) == Consumed(t, chunk[1..])
      && ScanValue(s.value, chunk).1.end == ScanValue(v, chunk[1..]).1.end + 1
  {
    var r := ScanValue(s.value, chunk);
    assert v.started && r.1.skipped == 0;
    var t := Consume(s, [chunk[0]]).(value := v);
    assert t.phase == s.phase;
    hide StepValue;
    var tail := chunk[1..][0..r.1.end - 1];
    assert chunk[0..r.1.end] == [chunk[0]] + tail;
    ConsumeTwice(s, [chunk[0]], tail);
    ConsumeKeepsValue(s, [chunk[0]], tail, v, r.0);
    hide Consume;
  }

  lemma ConsumeNothing(s: Scan)
    ensures Consume(s, []) == s
  {
    if s.member.ErrorMember? && s.error.Some? {
      assert Capped(s.error.value, []) == s.error.value;
    } else if s.member.ResultMember? && s.result.Some? {
      assert s.result.value + [] == s.result.value;
    }
  }

  lemma ConsumeKeepsValue(s: Scan, a: seq<byte>, b: seq<byte>, v: ValueState, w: ValueState)
    ensures Consume(Consume(s, a).(value := v), b).(value := w) == Consume(Consume(s, a), b).(value := w)
  {
  }

  class ResponseScanner {
    var phase: Phase
    var key: seq<byte>
    var keyOverflow: bool
    var value: ValueScan
    var member: Member
    var result: Option<seq<byte>>
    var error: Option<seq<byte>>

    ghost function View(): Scan
      reads this, value
    {
      Scan(phase, key, keyOverflow, value.View(), member, result, error)
    }

    constructor ()
      ensures View() == START && fresh(value)
    {
      phase, key, keyOverflow, member := BeforeObject, [], false, OtherMember;
      result, error := None, None;
      value := new ValueScan();
    }

    method PushKeyByte(b: byte)
      modifies this
      ensures value == old(value) && View() == PushKey(old(View()), b)
    {
      if KeyLen(key) >= MAX_KEY_LEN {
        keyOverflow := true;
        return;
      }
      key := key + [b];
    }

    method BeginMember()
      modifies this
      ensures value == old(value) && View() == StartMember(old(View()))
    {
      match member {
        case ResultMember => result := Some([]);
        case ErrorMember => error := Some([]);
        case OtherMember =>
      }
    }

    method ConsumeMember(bytes: seq<byte>)
      modifies this
      ensures value == old(value) && View() == Consume(old(View()), bytes)
    {
      match member {
        case ResultMember =>
          if result.Some? {
            result := Some(result.value + bytes);
          }
        case ErrorMember =>
          if error.Some? {
            var room := if |error.value| < MAX_ERROR_CAPTURE then MAX_ERROR_CAPTURE - |error.value| else 0;
            var take := if |bytes| < room then |bytes| else room;
            assert |bytes| < room ==> bytes[..take] == bytes;
            error := Some(error.value + bytes[..take]);
          }
        case OtherMember =>
      }
    }

    /** Feed one byte outside a value. */
    method FeedByte(b: byte) returns (r: Option<ScanError>)
      requires !phase.InValue? && !phase.Finished?
      modifies this
      ensures value == old(value) || fresh(value)
      ensures Step(old(View()), b) == if r.Some? then Err(r.value) else Ok(View())
    {
      match phase {
        case BeforeObject =>
          if b == OPEN_BRACE {
            phase := BeforeKey;
          } else if !IsWhitespace(b) {
            return Some(NotAnObject);
          }
        case BeforeKey =>
          if b == QUOTE {
            key, keyOverflow, phase := [], false, InKey(false);
          } else if b == CLOSE_BRACE {
            phase := Finished;
          } else if b != COMMA && !IsWhitespace(b) {
            return Some(Malformed);
          }
        case InKey(escaped) =>
          if escaped {
            PushKeyByte(b);
            phase := InKey(false);
          } else if b == BACKSLASH {
            phase := InKey(true);
          } else if b == QUOTE {
            member := Classify(key, keyOverflow);
            phase := BeforeColon;
          } else {
            PushKeyByte(b);
          }
        case BeforeColon =>
          if b == COLON {
            value := new ValueScan();
            BeginMember();
            phase := InValue;
          } else if !IsWhitespace(b) {
            return Some(Malformed);
          }
        case AfterValue =>
          if b == COMMA {
            phase := BeforeKey;
          } else if b == CLOSE_BRACE {
            phase := Finished;
          } else if !IsWhitespace(b) {
            return Some(Malformed);
          }
      }
      return None;
    }

    /** Let the value scan go as far as it can, and hash or capture what it consumed. */
    method FeedValue(chunk: seq<byte>) returns (end: nat)
      requires phase.InValue? && Balanced(value.View()) && chunk != []
      modifies this, value
      ensures value == old(value) && end <= |chunk|
      ensures phase.InValue? ==> Balanced(value.View()) && end == |chunk|
      ensures Run(old(View()), chunk) == Run(View(), chunk[end..])
    {
      ghost var t := View();
      ValueFeeds(t, chunk);
      hide Run, ScanValue;
      var p := value.Feed(chunk);
      ConsumeMember(chunk[p.skipped..p.end]);
      assert View() == Consume(t, chunk[p.skipped..p.end]).(value := ScanValue(t.value, chunk).0);
      if p.complete {
        member := OtherMember;
        phase := AfterValue;
      }
      assert View() == Consumed(t, chunk);
      end := p.end;
    }

    /** Feeding a chunk leaves the scanner where feeding its bytes one at a time would. */
    method Feed(chunk: seq<byte>) returns (r: Option<ScanError>)
      requires phase.InValue? ==> Balanced(value.View())
      modifies this, value
      ensures value == old(value) || fresh(value)
      ensures Run(old(View()), chunk) == if r.Some? then Err(r.value) else Ok(View())
    {
      hide Run, Step, Balanced;
      ghost var s := View();
      assert chunk[0..] == chunk;
      var index := 0;
      while index < |chunk|
        invariant index <= |chunk| && (value == old(value) || fresh(value))
        invariant phase.InValue? ==> Balanced(value.View())
        invariant Run(s, chunk) == Run(View(), chunk[index..])
        decreases |chunk| - index, if phase.InValue? then 1 else 0
      {
        if phase.InValue? {
          var end := FeedValue(chunk[index..]);
          assert chunk[index..][end..] == chunk[index + end..];
          index := index + end;
        } else if phase.Finished? {
          FinishedStays(View(), chunk[index..]);
          return None;
        } else {
          RunAt(View(), chunk, index);
          var failed := FeedByte(chunk[index]);
          if failed.Some? {
            return failed;
          }
          index := index + 1;
        }
      }
      assert chunk[index..] == [];
      RunNothing(View());
      return None;
    }

    method Finish() returns (r: Result<Summary, FinishError>)
      ensures r == Summarize(View())
    {
      if !phase.Finished? {
        return Err(Truncated);
      }
      if error.Some? {
        return Ok(RpcError(error.value));
      }
      if result.None? {
        return Err(NeitherResultNorError);
      }
      return Ok(Answered(result.value));
    }
  }

  lemma {:induction false} FinishedStays(s: Scan, bytes: seq<byte>)
    requires s.phase.Finished?
    ensures Run(s, bytes) == Ok(s)
    decreases |bytes|
  {
    if bytes != [] {
      FinishedStays(s, bytes[1..]);
    }
  }

  datatype DigestError = InBody(ScanError) | AtEnd(FinishError)

  function Digest(body: seq<byte>): Result<Summary, DigestError> {
    match Run(START, body)
    case Err(e) => Err(InBody(e))
    case Ok(s) =>
      match Summarize(s)
      case Err(e) => Err(AtEnd(e))
      case Ok(summary) => Ok(summary)
  }

  /** However the body is cut into chunks, the outcome is that of the whole body. */
  method DigestResponse(chunks: seq<seq<byte>>) returns (r: Result<Summary, DigestError>)
    ensures r == Digest(Concat(chunks))
  {
    var scanner := new ResponseScanner();
    for i := 0 to |chunks|
      invariant fresh(scanner) && fresh(scanner.value)
      invariant Run(START, Concat(chunks[..i])) == Ok(scanner.View())
    {
      ConcatNext(chunks, i);
      ghost var s := scanner.View();
      RunBoth(START, Concat(chunks[..i]), chunks[i]);
      var failed := scanner.Feed(chunks[i]);
      if failed.Some? {
        ConcatRest(chunks, i + 1);
        RunBoth(START, Concat(chunks[..i + 1]), Concat(chunks[i + 1..]));
        return Err(InBody(failed.value));
      }
    }
    assert chunks[..|chunks|] == chunks;
    var summary := scanner.Finish();
    match summary
    case Err(e) => return Err(AtEnd(e));
    case Ok(v) => return Ok(v);
  }

  // ---------------------------------------------------- cutting into chunks

  lemma {:induction false} RunBoth(s: Scan, a: seq<byte>, b: seq<byte>)
    requires s.phase.InValue? ==> Balanced(s.value)
    ensures Run(s, a + b) == if Run(s, a).Err? then Run(s, a) else Run(Run(s, a).value, b)
    decreases |a|
  {
    if a == [] {
      assert a + b == b;
    } else {
      assert (a + b)[1..] == a[1..] + b;
      if Step(s, a[0]).Ok? {
        RunBoth(Step(s, a[0]).value, a[1..], b);
      }
    }
  }

  lemma {:induction false} ConcatNext(chunks: seq<seq<byte>>, i: nat)
    requires i < |chunks|
    ensures Concat(chunks[..i + 1]) == Concat(chunks[..i]) + chunks[i]
  {
    if i == 0 {
      assert chunks[..1] == [chunks[0]] && chunks[..0] == [];
    } else {
      ConcatNext(chunks[1..], i - 1);
      assert chunks[..i + 1][1..] == chunks[1..][..i] && chunks[..i][1..] == chunks[1..][..i - 1];
      assert Concat(chunks[..i]) == chunks[0] + Concat(chunks[1..][..i - 1]);
    }
  }

  lemma {:induction false} ConcatRest(chunks: seq<seq<byte>>, i: nat)
    requires i <= |chunks|
    ensures Concat(chunks) == Concat(chunks[..i]) + Concat(chunks[i..])
    decreases |chunks|
  {
    if i == 0 {
      assert chunks[..0] == [] && chunks[0..] == chunks;
    } else {
      ConcatRest(chunks[1..], i - 1);
      assert chunks[..i][1..] == chunks[1..][..i - 1] && chunks[1..][i - 1..] == chunks[i..];
    }
  }

  /** The same for a scan that ends in an error: all ways of cutting a body agree. */
  lemma ChunksAgree(s: Scan, first: seq<seq<byte>>, second: seq<seq<byte>>)
    requires s.phase.InValue? ==> Balanced(s.value)
    requires Concat(first) == Concat(second)
    ensures RunChunks(s, first) == RunChunks(s, second)
  {
    RunChunksIsRun(s, first);
    RunChunksIsRun(s, second);
  }

  function RunChunks(s: Scan, chunks: seq<seq<byte>>): Result<Scan, ScanError>
    requires s.phase.InValue? ==> Balanced(s.value)
    decreases |chunks|
  {
    if chunks == [] then Ok(s)
    else
      var r := Run(s, chunks[0]);
      if r.Err? then r else RunChunks(r.value, chunks[1..])
  }

  lemma {:induction false} RunChunksIsRun(s: Scan, chunks: seq<seq<byte>>)
    requires s.phase.InValue? ==> Balanced(s.value)
    ensures RunChunks(s, chunks) == Run(s, Concat(chunks))
    decreases |chunks|
  {
    if chunks != [] {
      RunBoth(s, chunks[0], Concat(chunks[1..]));
      if Run(s, chunks[0]).Ok? {
        RunChunksIsRun(Run(s, chunks[0]).value, chunks[1..]);
      }
    }
  }

  /** A scanner never retains more than 33 key bytes and 64 KiB of an error. */
  lemma {:induction false} RunStaysFit(s: Scan, bytes: seq<byte>)
    requires Fit(s)
    ensures Run(s, bytes).Ok? ==> Fit(Run(s, bytes).value)
    decreases |bytes|
  {
    if bytes != [] {
      var r := Step(s, bytes[0]);
      if r.Ok? {
        StepStaysFit(s, bytes[0]);
        RunStaysFit(r.value, bytes[1..]);
      }
    }
  }

  /** Whatever the body, at most 33 bytes of a name and 64 KiB of an error are retained. */
  lemma RetainsLittle(body: seq<byte>)
    requires Run(START, body).Ok?
    ensures var s := Run(START, body).value;
      |s.key| <= 33 && (s.error.Some? ==> |s.error.value| <= 65536)
  {
    NoKeyLen();
    RunStaysFit(START, body);
    KeyLenCovers(Run(START, body).value.key);
  }

  lemma {:induction false} KeyLenCovers(key: seq<byte>)
    ensures |key| <= KeyLen(key)
  {
    if key != [] {
      KeyLenCovers(key[..|key| - 1]);
    }
  }

  lemma StepStaysFit(s: Scan, b: byte)
    requires Fit(s)
    ensures Step(s, b).Ok? ==> Fit(Step(s, b).value)
  {
    hide Consume, PushKey, KeyLen, StepValue, Classify, IsWhitespace;
    PushKeyFits(s, b);
    ConsumeFits(s, [b]);
    NoKeyLen();
  }

  lemma NoKeyLen()
    ensures KeyLen([]) == 0
  {
  }

  lemma PushKeyFits(s: Scan, b: byte)
    requires Fit(s)
    ensures KeyLen(PushKey(s, b).key) <= MAX_KEY_LEN + 1
    ensures PushKey(s, b) == s.(key := PushKey(s, b).key, keyOverflow := PushKey(s, b).keyOverflow)
  {
    assert (s.key + [b])[..|s.key|] == s.key;
  }

  lemma ConsumeFits(s: Scan, bytes: seq<byte>)
    requires Fit(s)
    ensures var t := Consume(s, bytes);
      t == s.(result := t.result, error := t.error) && (t.error.Some? ==> |t.error.value| <= MAX_ERROR_CAPTURE)
  {
  }
}
