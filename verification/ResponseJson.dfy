/**
 JSON texts by the grammar of RFC 8259 (sections 2 and 4 to 7), and what the response
 scanner makes of an object printed with any whitespace.
 */
module ResponseJson {
  import opened Wrappers
  import opened ResponseScanner

  type Blank = seq<byte>

  /** Section 2: space, tab, line feed, carriage return. */
  predicate IsBlank(w: Blank) {
    forall b :: b in w ==> b == 32 || b == 9 || b == 10 || b == 13
  }

  /** Section 7, as bytes: unescaped, a two-character escape, or a `u` escape with four hex digits. */
  datatype Char = Plain(b: byte) | Escape(b: byte) | Unicode(hex: seq<byte>)
  {
    predicate Valid() {
      match this
      case Plain(b) => b >= 32 && b != QUOTE && b != BACKSLASH
      case Escape(b) => b in {QUOTE, BACKSLASH, 47, 98, 102, 110, 114, 116}
      case Unicode(hex) => |hex| == 4 && forall h :: h in hex ==> IsDigit(h) || 65 <= h <= 70 || 97 <= h <= 102
    }

    /** The bytes of the escape after its backslash. */
    function Stripped(): seq<byte> {
      match this
      case Plain(b) => [b]
      case Escape(b) => [b]
      case Unicode(hex) => [117] + hex
    }

    function Text(): seq<byte> {
      if Plain? then [b] else [BACKSLASH] + Stripped()
    }
  }

  predicate IsDigit(b: byte) {
    48 <= b <= 57
  }

  predicate IsDigits(s: seq<byte>) {
    s != [] && forall b :: b in s ==> IsDigit(b)
  }

  /** Sections 3 and 6: the three names, and numbers. */
  datatype Literal =
    | True
    | False
    | Null
    | Number(minus: bool, whole: seq<byte>, fraction: Option<seq<byte>>, exponent: Option<Exponent>)
  {
    predicate Valid() {
      Number? ==>
        && IsDigits(whole) && (|whole| > 1 ==> whole[0] != 48)
        && (fraction.Some? ==> IsDigits(fraction.value))
        && (exponent.Some? ==> IsDigits(exponent.value.digits))
    }

    function Text(): seq<byte> {
      match this
      case True => [116, 114, 117, 101]
      case False => [102, 97, 108, 115, 101]
      case Null => [110, 117, 108, 108]
      case Number(minus, whole, fraction, exponent) =>
        (if minus then [45] else []) + whole
        + (if fraction.Some? then [46] + fraction.value else [])
        + (if exponent.Some? then exponent.value.Text() else [])
    }
  }

  datatype Sign = NoSign | Plus | Minus

  datatype Exponent = Exponent(upper: bool, sign: Sign, digits: seq<byte>)
  {
    function Text(): seq<byte> {
      [if upper then 69 else 101] + (match sign case NoSign => [] case Plus => [43] case Minus => [45]) + digits
    }
  }

  datatype Value =
    | Lit(literal: Literal)
    | Str(chars: seq<Char>)
    | Arr(blank: Blank, items: Items)
    | Obj(blank: Blank, members: Members)

  datatype Items = NoItems | Item(before: Blank, value: Value, after: Blank, rest: Items)

  datatype Members =
    | NoMembers
    | Entry(before: Blank, key: seq<Char>, mid: Blank, gap: Blank, value: Value, after: Blank, rest: Members)

  predicate ValidChars(cs: seq<Char>) {
    forall c :: c in cs ==> c.Valid()
  }

  predicate ValidValue(v: Value) {
    match v
    case Lit(l) => l.Valid()
    case Str(cs) => ValidChars(cs)
    case Arr(blank, items) => IsBlank(blank) && ValidItems(items)
    case Obj(blank, members) => IsBlank(blank) && ValidMembers(members)
  }

  predicate ValidItems(items: Items) {
    items.Item? ==> IsBlank(items.before) && ValidValue(items.value) && IsBlank(items.after) && ValidItems(items.rest)
  }

  predicate ValidMembers(ms: Members) {
    ms.Entry? ==>
      && IsBlank(ms.before) && ValidChars(ms.key) && IsBlank(ms.mid) && IsBlank(ms.gap)
      && ValidValue(ms.value) && IsBlank(ms.after) && ValidMembers(ms.rest)
  }

  function CharsText(cs: seq<Char>): seq<byte> {
    if cs == [] then [] else cs[0].Text() + CharsText(cs[1..])
  }

  function Quoted(cs: seq<Char>): seq<byte> {
    [QUOTE] + CharsText(cs) + [QUOTE]
  }

  /** The text of a value. */
  function Text(v: Value): seq<byte> {
    match v
    case Lit(l) => l.Text()
    case Str(cs) => Quoted(cs)
    case Arr(blank, items) =>
      [OPEN_BRACKET] + (if items.NoItems? then blank else ItemsText(items)) + [CLOSE_BRACKET]
    case Obj(blank, members) =>
      [OPEN_BRACE] + (if members.NoMembers? then blank else MembersText(members)) + [CLOSE_BRACE]
  }

  function ItemsText(items: Items): seq<byte> {
    if items.NoItems? then []
    else
      items.before + Text(items.value) + items.after
      + (if items.rest.NoItems? then [] else [COMMA] + ItemsText(items.rest))
  }

  function EntryText(ms: Members): seq<byte>
    requires ms.Entry?
    decreases ms, 0
  {
    ms.before + Quoted(ms.key) + ms.mid + [COLON] + ms.gap + Text(ms.value) + ms.after
  }

  function MembersText(ms: Members): seq<byte>
    decreases ms, 1
  {
    if ms.NoMembers? then []
    else EntryText(ms) + (if ms.rest.NoMembers? then [] else [COMMA] + MembersText(ms.rest))
  }

  // --------------------------------------------------------- inside a value

  ghost predicate Ready(s: Scan) {
    s.phase.InValue? ==> Balanced(s.value)
  }

  /** Feeding `bytes` takes the scanner from `s` to `t`. */
  ghost predicate Feeds(s: Scan, bytes: seq<byte>, t: Scan) {
    Ready(s) && Run(s, bytes) == Ok(t)
  }

  lemma FeedsBoth(s: Scan, a: seq<byte>, t: Scan, b: seq<byte>, u: Scan)
    requires Feeds(s, a, t) && Feeds(t, b, u)
    ensures Feeds(s, a + b, u)
  {
    RunBoth(s, a, b);
  }

  lemma FeedsOne(s: Scan, b: byte)
    requires Ready(s) && Step(s, b).Ok?
    ensures Feeds(s, [b], Step(s, b).value)
  {
    var t := Step(s, b).value;
    hide Step;
    assert [b][1..] == [];
    assert Run(t, [b][1..]) == Ok(t);
  }

  lemma FeedsNone(s: Scan)
    requires Ready(s)
    ensures Feeds(s, [], s)
  {
  }

  ghost predicate InBracket(s: Scan) {
    s.phase.InValue? && s.value == ValueState(s.value.depth, false, false, false, true) && s.value.depth > 0
  }

  ghost predicate InString(s: Scan) {
    s.phase.InValue? && s.value == ValueState(s.value.depth, true, false, false, true)
  }

  ghost predicate InLiteral(s: Scan) {
    s.phase.InValue? && s.value == ValueState(0, false, false, true, true)
  }

  /** A byte that neither opens nor closes anything. */
  predicate IsQuiet(b: byte) {
    b != QUOTE && b != OPEN_BRACE && b != OPEN_BRACKET && b != CLOSE_BRACE && b != CLOSE_BRACKET
  }

  /** A slice that leaves the value's state alone is just consumed. */
  lemma {:induction false} StillFeeds(s: Scan, bytes: seq<byte>)
    requires s.phase.InValue? && Balanced(s.value)
    requires forall b :: b in bytes ==> StepValue(s.value, b) == Take(s.value)
    ensures Feeds(s, bytes, Consume(s, bytes))
    decreases |bytes|
  {
    hide StepValue, Capped;
    if bytes == [] {
      ConsumeNothing(s);
    } else {
      var t := Consume(s, [bytes[0]]);
      assert Step(s, bytes[0]) == Ok(t);
      StillFeeds(t, bytes[1..]);
      ConsumeTwice(s, [bytes[0]], bytes[1..]);
      assert [bytes[0]] + bytes[1..] == bytes;
    }
  }

  lemma {:induction false} CharsFeed(s: Scan, cs: seq<Char>)
    requires InString(s) && ValidChars(cs)
    ensures Feeds(s, CharsText(cs), Consume(s, CharsText(cs)))
    decreases |cs|
  {
    if cs == [] {
      ConsumeNothing(s);
    } else {
      CharFeeds(s, cs[0]);
      hide Consume, Run, Char.Text;
      var t := Consume(s, cs[0].Text());
      ConsumeKeeps(s, cs[0].Text());
      CharsFeed(t, cs[1..]);
      FeedsBoth(s, cs[0].Text(), t, CharsText(cs[1..]), Consume(t, CharsText(cs[1..])));
      ConsumeTwice(s, cs[0].Text(), CharsText(cs[1..]));
    }
  }

  lemma ConsumeKeeps(s: Scan, bytes: seq<byte>)
    ensures Consume(s, bytes).phase == s.phase && Consume(s, bytes).value == s.value
    ensures Consume(s, bytes).member == s.member
  {
  }

  lemma CharFeeds(s: Scan, c: Char)
    requires InString(s) && c.Valid()
    ensures Feeds(s, c.Text(), Consume(s, c.Text()))
  {
    hide Consume;
    ConsumeKeeps(s, [BACKSLASH]);
    match c {
      case Plain(b) => StillFeeds(s, [b]);
      case Escape(b) =>
        assert c.Text() == [BACKSLASH, b];
        EscapeFeeds(s, b);
      case Unicode(hex) =>
        EscapeFeeds(s, 117);
        var t := Consume(s, [BACKSLASH, 117]);
        ConsumeKeeps(s, [BACKSLASH, 117]);
        StillFeeds(t, hex);
        FeedsBoth(s, [BACKSLASH, 117], t, hex, Consume(t, hex));
        ConsumeTwice(s, [BACKSLASH, 117], hex);
        assert c.Text() == [BACKSLASH, 117] + hex;
    }
  }

  lemma EscapeFeeds(s: Scan, b: byte)
    requires InString(s)
    ensures Feeds(s, [BACKSLASH, b], Consume(s, [BACKSLASH, b]))
  {
    var t := Consume(s, [BACKSLASH]).(value := s.value.(escaped := true));
    assert Step(s, BACKSLASH) == Ok(t);
    FeedsOne(s, BACKSLASH);
    FeedsOne(t, b);
    FeedsBoth(s, [BACKSLASH], t, [b], Step(t, b).value);
    ConsumeTwice(s, [BACKSLASH], [b]);
    ConsumeKeepsValue(s, [BACKSLASH], [b], t.value, s.value);
    assert [BACKSLASH] + [b] == [BACKSLASH, b];
  }

  /** A string inside a bracket is consumed whole. */
  lemma QuotedFeeds(s: Scan, cs: seq<Char>)
    requires InBracket(s) && ValidChars(cs)
    ensures Feeds(s, Quoted(cs), Consume(s, Quoted(cs)))
  {
    var body := CharsText(cs);
    var t := Consume(s, [QUOTE]).(value := s.value.(inString := true));
    assert Step(s, QUOTE) == Ok(t);
    FeedsOne(s, QUOTE);
    CharsFeed(t, cs);
    var u := Consume(t, body);
    FeedsBoth(s, [QUOTE], t, body, u);
    assert Step(u, QUOTE) == Ok(Consume(u, [QUOTE]).(value := s.value));
    FeedsOne(u, QUOTE);
    FeedsBoth(s, [QUOTE] + body, u, [QUOTE], Step(u, QUOTE).value);
    ConsumeThrice(s, [QUOTE], body, [QUOTE], t.value, s.value);
  }

  lemma ConsumeThrice(s: Scan, a: seq<byte>, b: seq<byte>, c: seq<byte>, v: ValueState, w: ValueState)
    ensures Consume(Consume(Consume(s, a).(value := v), b), c).(value := w) == Consume(s, a + b + c).(value := w)
  {
    ConsumeTwice(s, a, b);
    ConsumeTwice(s, a + b, c);
    var t := Consume(s, a);
    assert Consume(t.(value := v), b) == Consume(t, b).(value := v) by { hide Capped; }
    assert Consume(Consume(t, b).(value := v), c) == Consume(Consume(t, b), c).(value := v) by { hide Capped; }
  }

  lemma LiteralIsQuiet(l: Literal)
    requires l.Valid()
    ensures l.Text() != []
    ensures forall b :: b in l.Text() ==> IsQuiet(b) && !EndsLiteral(b)
  {
    if l.Number? {
      forall b | b in l.Text() ensures IsDigit(b) || b in {45, 46, 69, 101, 43} {
      }
    }
  }

  /** Inside a bracket every valid value is consumed whole and leaves the depth where it was. */
  lemma {:induction false} ValueFeedsInside(s: Scan, v: Value)
    requires InBracket(s) && ValidValue(v)
    ensures Feeds(s, Text(v), Consume(s, Text(v)))
    decreases v
  {
    match v {
      case Lit(l) =>
        LiteralIsQuiet(l);
        StillFeeds(s, l.Text());
      case Str(cs) => QuotedFeeds(s, cs);
      case Arr(blank, items) =>
        if items.NoItems? {
          BlankBody(s, OPEN_BRACKET, blank);
          BracketFeeds(s, OPEN_BRACKET, blank, CLOSE_BRACKET);
        } else {
          ItemsFeed(Opened(s, OPEN_BRACKET), items);
          BracketFeeds(s, OPEN_BRACKET, ItemsText(items), CLOSE_BRACKET);
        }
      case Obj(blank, members) =>
        if members.NoMembers? {
          BlankBody(s, OPEN_BRACE, blank);
          BracketFeeds(s, OPEN_BRACE, blank, CLOSE_BRACE);
        } else {
          MembersFeed(Opened(s, OPEN_BRACE), members);
          BracketFeeds(s, OPEN_BRACE, MembersText(members), CLOSE_BRACE);
        }
    }
  }

  /** One bracket deeper, the bracket consumed. */
  ghost function Opened(s: Scan, open: byte): (t: Scan)
    requires InBracket(s)
    ensures InBracket(t)
  {
    Consume(s, [open]).(value := s.value.(depth := s.value.depth + 1))
  }

  lemma BlankFeeds(s: Scan, blank: Blank)
    requires InBracket(s) && IsBlank(blank)
    ensures Feeds(s, blank, Consume(s, blank))
  {
    StillFeeds(s, blank);
  }

  lemma BlankBody(s: Scan, open: byte, blank: Blank)
    requires InBracket(s) && IsBlank(blank)
    ensures Feeds(Opened(s, open), blank, Consume(Opened(s, open), blank))
  {
    BlankFeeds(Opened(s, open), blank);
  }

  lemma BracketFeeds(s: Scan, open: byte, body: seq<byte>, close: byte)
    requires InBracket(s) && (open == OPEN_BRACE || open == OPEN_BRACKET) &&
      (close == CLOSE_BRACE || close == CLOSE_BRACKET)
    requires Feeds(Opened(s, open), body, Consume(Opened(s, open), body))
    ensures Feeds(s, [open] + body + [close], Consume(s, [open] + body + [close]))
  {
    hide Feeds, Capped, Run;
    var t := Opened(s, open);
    assert Step(s, open) == Ok(t);
    FeedsOne(s, open);
    var u := Consume(t, body);
    FeedsBoth(s, [open], t, body, u);
    ConsumeKeeps(t, body);
    assert Step(u, close) == Ok(Consume(u, [close]).(value := s.value));
    FeedsOne(u, close);
    FeedsBoth(s, [open] + body, u, [close], Step(u, close).value);
    ConsumeThrice(s, [open], body, [close], t.value, s.value);
    ConsumeKeeps(s, [open] + body + [close]);
  }

  lemma {:induction false} ItemsFeed(s: Scan, items: Items)
    requires InBracket(s) && ValidItems(items)
    ensures Feeds(s, ItemsText(items), Consume(s, ItemsText(items)))
    decreases items
  {
    if items.NoItems? {
      ConsumeNothing(s);
      FeedsNone(s);
    } else {
      hide Consume, Feeds;
      BlankFeeds(s, items.before);
      var a := Consumes(s, items.before);
      ValueFeedsInside(a, items.value);
      var b := Extends(s, items.before, Text(items.value));
      BlankFeeds(b, items.after);
      var c := Extends(s, items.before + Text(items.value), items.after);
      if !items.rest.NoItems? {
        StillFeeds(c, [COMMA]);
        var d := Extends(s, items.before + Text(items.value) + items.after, [COMMA]);
        ItemsFeed(d, items.rest);
        var head := items.before + Text(items.value) + items.after;
        var e := Extends(s, head + [COMMA], ItemsText(items.rest));
        assert head + ([COMMA] + ItemsText(items.rest)) == head + [COMMA] + ItemsText(items.rest);
      } else {
        assert ItemsText(items) == items.before + Text(items.value) + items.after;
      }
    }
  }

  lemma Consumes(s: Scan, a: seq<byte>) returns (t: Scan)
    requires InBracket(s)
    ensures t == Consume(s, a) && InBracket(t)
  {
    t := Consume(s, a);
  }

  /** Consuming `a` and then `b` inside a bracket is consuming both. */
  lemma Extends(s: Scan, a: seq<byte>, b: seq<byte>) returns (t: Scan)
    requires InBracket(s) && Feeds(s, a, Consume(s, a)) && Feeds(Consume(s, a), b, Consume(Consume(s, a), b))
    ensures t == Consume(s, a + b) && InBracket(t) && Feeds(s, a + b, t)
  {
    FeedsBoth(s, a, Consume(s, a), b, Consume(Consume(s, a), b));
    ConsumeTwice(s, a, b);
    t := Consume(s, a + b);
    ConsumeKeeps(s, a + b);
  }

  lemma {:induction false} MembersFeed(s: Scan, ms: Members)
    requires InBracket(s) && ValidMembers(ms)
    ensures Feeds(s, MembersText(ms), Consume(s, MembersText(ms)))
    decreases ms, 1
  {
    if ms.NoMembers? {
      ConsumeNothing(s);
      FeedsNone(s);
    } else {
      var text, more := EntryText(ms), MembersText(ms.rest);
      assert MembersText(ms) == text + if ms.rest.NoMembers? then [] else [COMMA] + more;
      assert text + [] == text && text + ([COMMA] + more) == text + [COMMA] + more;
      EntryIsValid(ms);
      EntryFeeds(s, ms);
      hide Consume, Feeds, EntryText, MembersText, ValidMembers;
      if !ms.rest.NoMembers? {
        var c := Consumes(s, text);
        StillFeeds(c, [COMMA]);
        var d := Extends(s, text, [COMMA]);
        MembersFeed(d, ms.rest);
        var e := Extends(s, text + [COMMA], more);
      }
    }
  }

  lemma {:induction false} EntryFeeds(s: Scan, ms: Members)
    requires InBracket(s) && ms.Entry? && ValidMembers(ms)
    ensures Feeds(s, EntryText(ms), Consume(s, EntryText(ms)))
    decreases ms, 0
  {
    hide Consume, Feeds, Quoted;
    var text := ms.before;
    BlankFeeds(s, text);
    var t := Consumes(s, text);
    QuotedFeeds(t, ms.key);
    t := Extends(s, text, Quoted(ms.key));
    text := text + Quoted(ms.key);
    BlankFeeds(t, ms.mid);
    t := Extends(s, text, ms.mid);
    text := text + ms.mid;
    StillFeeds(t, [COLON]);
    t := Extends(s, text, [COLON]);
    text := text + [COLON];
    BlankFeeds(t, ms.gap);
    t := Extends(s, text, ms.gap);
    text := text + ms.gap;
    ValueFeedsInside(t, ms.value);
    t := Extends(s, text, Text(ms.value));
    text := text + Text(ms.value);
    BlankFeeds(t, ms.after);
    t := Extends(s, text, ms.after);
  }

  // ---------------------------------------------------------- member names

  /** A member name as the scanner reads it: escapes lose their backslash and are not decoded. */
  function ReadName(cs: seq<Char>): seq<byte> {
    if cs == [] then [] else cs[0].Stripped() + ReadName(cs[1..])
  }

  function Named(name: seq<byte>): Member {
    if name == RESULT then ResultMember else if name == ERROR then ErrorMember else OtherMember
  }

  function PushAll(s: Scan, bytes: seq<byte>): Scan
    decreases |bytes|
  {
    if bytes == [] then s else PushAll(PushKey(s, bytes[0]), bytes[1..])
  }

  lemma {:induction false} PushBoth(s: Scan, a: seq<byte>, b: seq<byte>)
    ensures PushAll(s, a + b) == PushAll(PushAll(s, a), b)
    decreases |a|
  {
    if a == [] {
      assert a + b == b;
    } else {
      assert (a + b)[1..] == a[1..] + b;
      PushBoth(PushKey(s, a[0]), a[1..], b);
    }
  }

  lemma {:induction false} KeyLenBound(key: seq<byte>)
    ensures KeyLen(key) <= 2 * |key|
  {
    if key != [] {
      KeyLenBound(key[..|key| - 1]);
    }
  }

  /** Pushing only ever touches the key; an overflow means at least sixteen bytes were named. */
  lemma {:induction false} PushedKey(s: Scan, bytes: seq<byte>)
    requires !s.keyOverflow
    ensures var t := PushAll(s, bytes);
      && t == s.(key := t.key, keyOverflow := t.keyOverflow)
      && if t.keyOverflow then |s.key + bytes| >= 16 else t.key == s.key + bytes
    decreases |bytes|
  {
    if bytes == [] {
      assert s.key + bytes == s.key;
    } else {
      KeyLenBound(s.key);
      var u := PushKey(s, bytes[0]);
      hide KeyLen;
      if u.keyOverflow {
        hide PushKey;
        OverflowStays(u, bytes[1..]);
      } else {
        assert u == s.(key := s.key + [bytes[0]]);
        hide PushKey;
        PushedKey(u, bytes[1..]);
        assert u.key + bytes[1..] == s.key + bytes;
      }
    }
  }

  lemma {:induction false} OverflowStays(s: Scan, bytes: seq<byte>)
    requires s.keyOverflow
    ensures var t := PushAll(s, bytes); t == s.(key := t.key) && t.keyOverflow
    decreases |bytes|
  {
    if bytes != [] {
      OverflowStays(PushKey(s, bytes[0]), bytes[1..]);
    }
  }

  lemma {:induction false} PlainBytesPush(s: Scan, bytes: seq<byte>)
    requires s.phase == InKey(false) && forall b :: b in bytes ==> b != QUOTE && b != BACKSLASH
    ensures Feeds(s, bytes, PushAll(s, bytes))
    decreases |bytes|
  {
    if bytes != [] {
      assert bytes == [bytes[0]] + bytes[1..];
      forall b | b in bytes[1..] ensures b != QUOTE && b != BACKSLASH {
        assert b in bytes;
      }
      var t := PushKey(s, bytes[0]);
      assert bytes[0] in bytes && Step(s, bytes[0]) == Ok(t);
      FeedsOne(s, bytes[0]);
      PlainBytesPush(t, bytes[1..]);
      FeedsBoth(s, [bytes[0]], t, bytes[1..], PushAll(t, bytes[1..]));
    }
  }

  lemma NameCharPushes(s: Scan, c: Char)
    requires s.phase == InKey(false) && c.Valid()
    ensures Feeds(s, c.Text(), PushAll(s, c.Stripped()))
  {
    hide Feeds, PushAll, PushKey;
    match c {
      case Plain(b) => PlainBytesPush(s, [b]);
      case Escape(b) =>
        EscapePushes(s, b);
        assert c.Text() == [BACKSLASH, b];
      case Unicode(hex) =>
        var t := PushKey(s, 117);
        EscapePushes(s, 117);
        PlainBytesPush(t, hex);
        FeedsBoth(s, [BACKSLASH, 117], t, hex, PushAll(t, hex));
        PushBoth(s, [117], hex);
        assert c.Text() == [BACKSLASH, 117] + hex;
    }
  }

  lemma EscapePushes(s: Scan, b: byte)
    requires s.phase == InKey(false)
    ensures Feeds(s, [BACKSLASH, b], PushKey(s, b)) && PushKey(s, b).phase == InKey(false) &&
      PushAll(s, [b]) == PushKey(s, b)
  {
    var escaped := s.(phase := InKey(true));
    assert Step(s, BACKSLASH) == Ok(escaped);
    FeedsOne(s, BACKSLASH);
    assert Step(escaped, b) == Ok(PushKey(s, b));
    FeedsOne(escaped, b);
    FeedsBoth(s, [BACKSLASH], escaped, [b], PushKey(s, b));
    assert [BACKSLASH] + [b] == [BACKSLASH, b];
    assert [b][1..] == [];
  }

  lemma {:induction false} NamePushes(s: Scan, cs: seq<Char>)
    requires s.phase == InKey(false) && ValidChars(cs)
    ensures Feeds(s, CharsText(cs), PushAll(s, ReadName(cs)))
    decreases |cs|
  {
    if cs == [] {
      FeedsNone(s);
    } else {
      NameCharPushes(s, cs[0]);
      hide Feeds, PushKey;
      var t := PushAll(s, cs[0].Stripped());
      PushKeepsPhase(s, cs[0].Stripped());
      NamePushes(t, cs[1..]);
      FeedsBoth(s, cs[0].Text(), t, CharsText(cs[1..]), PushAll(t, ReadName(cs[1..])));
      PushBoth(s, cs[0].Stripped(), ReadName(cs[1..]));
    }
  }

  lemma {:induction false} PushKeepsPhase(s: Scan, bytes: seq<byte>)
    ensures PushAll(s, bytes).phase == s.phase
    decreases |bytes|
  {
    if bytes != [] {
      PushKeepsPhase(PushKey(s, bytes[0]), bytes[1..]);
    }
  }

  /** After a quoted name the scanner stands before the colon and has classified the member. */
  lemma NameFeeds(s: Scan, cs: seq<Char>) returns (t: Scan)
    requires s.phase == BeforeKey && ValidChars(cs)
    ensures Feeds(s, Quoted(cs), t)
    ensures t.phase == BeforeColon && t.member == Named(ReadName(cs)) && t.result == s.result && t.error == s.error
  {
    var a := s.(key := [], keyOverflow := false, phase := InKey(false));
    FeedsOne(s, QUOTE);
    NamePushes(a, cs);
    var b := PushAll(a, ReadName(cs));
    FeedsBoth(s, [QUOTE], a, CharsText(cs), b);
    PushedKey(a, ReadName(cs));
    assert a.key + ReadName(cs) == ReadName(cs);
    t := b.(member := Classify(b.key, b.keyOverflow), phase := BeforeColon);
    assert Step(b, QUOTE) == Ok(t);
    FeedsOne(b, QUOTE);
    FeedsBoth(s, [QUOTE] + CharsText(cs), b, [QUOTE], t);
  }

  // --------------------------------------------------------- the whole object

  lemma {:induction false} Idles(s: Scan, bytes: seq<byte>)
    requires Ready(s) && forall b :: b in bytes ==> Step(s, b) == Ok(s)
    ensures Feeds(s, bytes, s)
    decreases |bytes|
  {
    if bytes != [] {
      FeedsOne(s, bytes[0]);
      hide Step;
      Idles(s, bytes[1..]);
      FeedsBoth(s, [bytes[0]], s, bytes[1..], s);
      assert [bytes[0]] + bytes[1..] == bytes;
    } else {
      FeedsNone(s);
    }
  }

  /** A member value has been consumed; a literal still waits for the byte that ends it. */
  ghost predicate Ended(s: Scan) {
    s.phase.AfterValue? || InLiteral(s)
  }

  lemma EndFeeds(s: Scan, after: Blank, b: byte) returns (t: Scan)
    requires Ended(s) && IsBlank(after) && (b == COMMA || b == CLOSE_BRACE)
    ensures Feeds(s, after + [b], t)
    ensures t.phase == (if b == COMMA then BeforeKey else Finished) && t.result == s.result && t.error == s.error
  {
    var u := if s.phase.AfterValue? then s else AfterMember(s);
    var v := u.(phase := if b == COMMA then BeforeKey else Finished);
    if after == [] {
      assert after + [b] == [b];
      FeedsOne(s, b);
      return v;
    }
    assert after == [after[0]] + after[1..] && after[0] in after;
    assert Step(s, after[0]) == Ok(u);
    FeedsOne(s, after[0]);
    forall x | x in after[1..] ensures Step(u, x) == Ok(u) {
      assert x in after;
    }
    Idles(u, after[1..]);
    FeedsBoth(s, [after[0]], u, after[1..], u);
    FeedsOne(u, b);
    FeedsBoth(s, after, u, [b], v);
    t := v;
  }

  lemma TopString(s: Scan, cs: seq<Char>) returns (t: Scan)
    requires s.phase.InValue? && s.value == UNSTARTED && ValidChars(cs)
    ensures Feeds(s, Quoted(cs), t) && Ended(t) && t.phase.AfterValue?
    ensures t.result == Consume(s, Quoted(cs)).result && t.error == Consume(s, Quoted(cs)).error
  {
    var body := CharsText(cs);
    var a := Consume(s, [QUOTE]).(value := ValueState(0, true, false, false, true));
    assert Step(s, QUOTE) == Ok(a);
    FeedsOne(s, QUOTE);
    CharsFeed(a, cs);
    var b := Consume(a, body);
    FeedsBoth(s, [QUOTE], a, body, b);
    var last := ValueState(0, false, false, false, true);
    t := AfterMember(Consume(b, [QUOTE]).(value := last));
    assert Step(b, QUOTE) == Ok(t);
    FeedsOne(b, QUOTE);
    FeedsBoth(s, [QUOTE] + body, b, [QUOTE], t);
    ConsumeThrice(s, [QUOTE], body, [QUOTE], a.value, last);
  }

  lemma TopBracket(s: Scan, open: byte, body: seq<byte>, close: byte) returns (t: Scan)
    requires s.phase.InValue? && s.value == UNSTARTED
    requires (open == OPEN_BRACE || open == OPEN_BRACKET) && (close == CLOSE_BRACE || close == CLOSE_BRACKET)
    requires var a := Entered(s, open); Feeds(a, body, Consume(a, body))
    ensures Feeds(s, [open] + body + [close], t) && Ended(t) && t.phase.AfterValue?
    ensures var u := Consume(s, [open] + body + [close]); t.result == u.result && t.error == u.error
  {
    hide Feeds, Capped, Run;
    var a := Entered(s, open);
    assert Step(s, open) == Ok(a);
    FeedsOne(s, open);
    var b := Consume(a, body);
    FeedsBoth(s, [open], a, body, b);
    ConsumeKeeps(a, body);
    var last := ValueState(0, false, false, false, true);
    t := AfterMember(Consume(b, [close]).(value := last));
    assert Step(b, close) == Ok(t);
    FeedsOne(b, close);
    FeedsBoth(s, [open] + body, b, [close], t);
    ConsumeThrice(s, [open], body, [close], a.value, last);
  }

  /** The outermost bracket of a member value. */
  ghost function Entered(s: Scan, open: byte): (t: Scan)
    requires s.phase.InValue?
    ensures InBracket(t)
  {
    Consume(s, [open]).(value := ValueState(1, false, false, false, true))
  }

  lemma TopLiteral(s: Scan, l: Literal) returns (t: Scan)
    requires s.phase.InValue? && s.value == UNSTARTED && l.Valid()
    ensures Feeds(s, l.Text(), t) && Ended(t)
    ensures t.result == Consume(s, l.Text()).result && t.error == Consume(s, l.Text()).error
  {
    LiteralIsQuiet(l);
    var text := l.Text();
    hide Literal.Text;
    assert text == [text[0]] + text[1..] && text[0] in text;
    var a := Consume(s, [text[0]]).(value := ValueState(0, false, false, true, true));
    assert Step(s, text[0]) == Ok(a);
    FeedsOne(s, text[0]);
    StillFeeds(a, text[1..]);
    t := Consume(a, text[1..]);
    FeedsBoth(s, [text[0]], a, text[1..], t);
    ConsumeTwice(s, [text[0]], text[1..]);
    ConsumeKeepsValue(s, [text[0]], text[1..], a.value, a.value);
    ConsumeKeeps(a, text[1..]);
  }

  lemma TopValue(s: Scan, v: Value) returns (t: Scan)
    requires s.phase.InValue? && s.value == UNSTARTED && ValidValue(v)
    ensures Feeds(s, Text(v), t) && Ended(t) && (!v.Lit? ==> t.phase.AfterValue?)
    ensures t.result == Consume(s, Text(v)).result && t.error == Consume(s, Text(v)).error
  {
    hide Feeds, Consume, Ended;
    match v {
      case Lit(l) => t := TopLiteral(s, l);
      case Str(cs) => t := TopString(s, cs);
      case Arr(blank, items) =>
        if items.NoItems? {
          BlankFeeds(Entered(s, OPEN_BRACKET), blank);
          t := TopBracket(s, OPEN_BRACKET, blank, CLOSE_BRACKET);
        } else {
          ItemsFeed(Entered(s, OPEN_BRACKET), items);
          t := TopBracket(s, OPEN_BRACKET, ItemsText(items), CLOSE_BRACKET);
        }
      case Obj(blank, members) =>
        if members.NoMembers? {
          BlankFeeds(Entered(s, OPEN_BRACE), blank);
          t := TopBracket(s, OPEN_BRACE, blank, CLOSE_BRACE);
        } else {
          MembersFeed(Entered(s, OPEN_BRACE), members);
          t := TopBracket(s, OPEN_BRACE, MembersText(members), CLOSE_BRACE);
        }
    }
  }

  /** What a response says, by the names its members are read as; later members replace earlier ones. */
  datatype Found = Found(result: Option<seq<byte>>, error: Option<seq<byte>>)

  function Noted(found: Found, member: Member, text: seq<byte>): Found {
    match member
    case ResultMember => found.(result := Some(text))
    case ErrorMember => found.(error := Some(Capped([], text)))
    case OtherMember => found
  }

  function Expected(found: Found, ms: Members): Found
    decreases ms
  {
    if ms.NoMembers? then found
    else Expected(Noted(found, Named(ReadName(ms.key)), Text(ms.value)), ms.rest)
  }

  /** The colon starts a member afresh, and the value's text is all it takes in. */
  lemma MemberTakesText(s: Scan, t: Scan, text: seq<byte>)
    requires s == StartMember(t.(value := UNSTARTED)).(phase := InValue)
    ensures var u := Consume(s, text); Found(u.result, u.error) == Noted(Found(t.result, t.error), t.member, text)
  {
    assert [] + text == text;
  }

  /** A member up to the end of its value. */
  function KeyedText(ms: Members): seq<byte>
    requires ms.Entry?
  {
    ms.before + Quoted(ms.key) + ms.mid + [COLON] + ms.gap + Text(ms.value)
  }

  lemma TopKeyed(s: Scan, ms: Members) returns (t: Scan)
    requires s.phase == BeforeKey && ms.Entry? && ValidMembers(ms)
    ensures Feeds(s, KeyedText(ms), t) && Ended(t) && (!ms.value.Lit? ==> t.phase.AfterValue?)
    ensures Found(t.result, t.error) == Noted(Found(s.result, s.error), Named(ReadName(ms.key)), Text(ms.value))
  {
    hide Quoted, Text, Consume, EndsLiteral, Ended, Run, ValidMembers;
    assert ValidChars(ms.key) && IsBlank(ms.before) && IsBlank(ms.mid) && IsBlank(ms.gap) && IsBlank(ms.after)
      && ValidValue(ms.value) by { EntryIsValid(ms); }
    Idles(s, ms.before);
    var a := NameFeeds(s, ms.key);
    FeedsBoth(s, ms.before, s, Quoted(ms.key), a);
    Idles(a, ms.mid);
    FeedsBoth(s, ms.before + Quoted(ms.key), a, ms.mid, a);
    var c := StartMember(a.(value := UNSTARTED)).(phase := InValue);
    assert Step(a, COLON) == Ok(c);
    FeedsOne(a, COLON);
    FeedsBoth(s, ms.before + Quoted(ms.key) + ms.mid, a, [COLON], c);
    assert c.phase.InValue? && c.value == UNSTARTED;
    Idles(c, ms.gap);
    FeedsBoth(s, ms.before + Quoted(ms.key) + ms.mid + [COLON], c, ms.gap, c);
    hide Feeds, Step, StartMember;
    t := TopValue(c, ms.value);
    FeedsBoth(s, ms.before + Quoted(ms.key) + ms.mid + [COLON] + ms.gap, c, Text(ms.value), t);
    MemberTakesText(c, a, Text(ms.value));
  }

  lemma TopEntry(s: Scan, ms: Members, b: byte) returns (t: Scan)
    requires s.phase == BeforeKey && ms.Entry? && ValidMembers(ms) && (b == COMMA || b == CLOSE_BRACE)
    ensures Feeds(s, EntryText(ms) + [b], t)
    ensures t.phase == (if b == COMMA then BeforeKey else Finished)
    ensures Found(t.result, t.error) == Noted(Found(s.result, s.error), Named(ReadName(ms.key)), Text(ms.value))
  {
    hide Feeds, Ended, Text, Quoted, ValidMembers;
    EntryIsValid(ms);
    var d := TopKeyed(s, ms);
    t := EndFeeds(d, ms.after, b);
    FeedsBoth(s, KeyedText(ms), d, ms.after + [b], t);
    assert EntryText(ms) + [b] == KeyedText(ms) + (ms.after + [b]);
  }

  lemma EntryIsValid(ms: Members)
    requires ms.Entry? && ValidMembers(ms)
    ensures ValidChars(ms.key) && IsBlank(ms.before) && IsBlank(ms.mid) && IsBlank(ms.gap) && IsBlank(ms.after)
    ensures ValidValue(ms.value) && ValidMembers(ms.rest)
  {
  }

  lemma {:induction false} TopMembers(s: Scan, ms: Members, b: byte) returns (t: Scan)
    requires s.phase == BeforeKey && ms.Entry? && ValidMembers(ms) && (b == COMMA || b == CLOSE_BRACE)
    ensures Feeds(s, MembersText(ms) + [b], t)
    ensures t.phase == if b == COMMA then BeforeKey else Finished
    ensures Found(t.result, t.error) == Expected(Found(s.result, s.error), ms)
    decreases ms
  {
    hide Feeds, EntryText, Text, ReadName, Noted, Named;
    EntryIsValid(ms);
    hide ValidMembers;
    if ms.rest.NoMembers? {
      t := TopEntry(s, ms, b);
      assert MembersText(ms) == EntryText(ms);
    } else {
      var u := TopEntry(s, ms, COMMA);
      t := TopMembers(u, ms.rest, b);
      FeedsBoth(s, EntryText(ms) + [COMMA], u, MembersText(ms.rest) + [b], t);
      assert MembersText(ms) + [b] == EntryText(ms) + [COMMA] + (MembersText(ms.rest) + [b]);
    }
  }

  /**
   Every valid object, whatever its members, their order and its whitespace, is scanned to
   the texts of its last `result` and its last `error`; what follows the object is ignored.
   */
  lemma ObjectScanned(lead: Blank, blank: Blank, ms: Members, trail: seq<byte>)
    requires IsBlank(lead) && ValidValue(Obj(blank, ms))
    ensures var r := Run(START, lead + Text(Obj(blank, ms)) + trail);
      && r.Ok? && r.value.phase.Finished?
      && Found(r.value.result, r.value.error) == Expected(Found(None, None), ms)
  {
    var a := START.(phase := BeforeKey);
    var t := BodyScanned(a, blank, ms);
    var body := (if ms.NoMembers? then blank else MembersText(ms)) + [CLOSE_BRACE];
    Idles(START, lead);
    FeedsOne(START, OPEN_BRACE);
    FinishedStays(t, trail);
    assert lead + Text(Obj(blank, ms)) == lead + [OPEN_BRACE] + body;
    hide Step, MembersText, Text, Expected;
    FeedsBoth(START, lead, START, [OPEN_BRACE], a);
    FeedsBoth(START, lead + [OPEN_BRACE], a, body, t);
    FeedsBoth(START, lead + [OPEN_BRACE] + body, t, trail, t);
  }

  lemma BodyScanned(s: Scan, blank: Blank, ms: Members) returns (t: Scan)
    requires s.phase == BeforeKey && IsBlank(blank) && ValidMembers(ms)
    ensures Feeds(s, (if ms.NoMembers? then blank else MembersText(ms)) + [CLOSE_BRACE], t)
    ensures t.phase.Finished? && Found(t.result, t.error) == Expected(Found(s.result, s.error), ms)
  {
    if ms.NoMembers? {
      Idles(s, blank);
      t := s.(phase := Finished);
      FeedsOne(s, CLOSE_BRACE);
      FeedsBoth(s, blank, s, [CLOSE_BRACE], t);
    } else {
      t := TopMembers(s, ms, CLOSE_BRACE);
    }
  }

  // -------------------------------------------------------- refused bodies

  /** An error is final, and so is the end of the object. */
  lemma {:induction false} PrefixOf(s: Scan, bytes: seq<byte>, k: nat)
    requires Ready(s) && k <= |bytes| && Run(s, bytes).Ok?
    ensures Run(s, bytes[..k]).Ok?
    ensures Run(s, bytes[..k]).value.phase.Finished? ==> Run(s, bytes).value.phase.Finished?
  {
    assert bytes == bytes[..k] + bytes[k..];
    RunBoth(s, bytes[..k], bytes[k..]);
    if Run(s, bytes[..k]).Ok? && Run(s, bytes[..k]).value.phase.Finished? {
      FinishedStays(Run(s, bytes[..k]).value, bytes[k..]);
    }
  }

  /** The text of an object up to its closing brace. */
  function OpenText(lead: Blank, blank: Blank, ms: Members): seq<byte> {
    lead + [OPEN_BRACE] + if ms.NoMembers? then blank else MembersText(ms)
  }

  lemma OpenIsPrefix(lead: Blank, blank: Blank, ms: Members)
    ensures lead + Text(Obj(blank, ms)) == OpenText(lead, blank, ms) + [CLOSE_BRACE]
  {
  }

  /** Before the closing brace the scanner has neither failed nor finished: a comma could still follow. */
  lemma OpenScanned(lead: Blank, blank: Blank, ms: Members) returns (t: Scan)
    requires IsBlank(lead) && ValidValue(Obj(blank, ms))
    ensures Feeds(START, OpenText(lead, blank, ms) + [COMMA], t) && t.phase == BeforeKey
  {
    var a := START.(phase := BeforeKey);
    Idles(START, lead);
    FeedsOne(START, OPEN_BRACE);
    FeedsBoth(START, lead, START, [OPEN_BRACE], a);
    var body := if ms.NoMembers? then blank else MembersText(ms);
    if ms.NoMembers? {
      Idles(a, blank);
      FeedsOne(a, COMMA);
      FeedsBoth(a, blank, a, [COMMA], a);
      t := a;
    } else {
      t := TopMembers(a, ms, COMMA);
    }
    hide Feeds, MembersText;
    FeedsBoth(START, lead + [OPEN_BRACE], a, body + [COMMA], t);
    assert lead + [OPEN_BRACE] + (body + [COMMA]) == OpenText(lead, blank, ms) + [COMMA];
  }

  /** A body cut off anywhere before the closing brace of its object is refused as truncated. */
  lemma TruncatedIsRefused(lead: Blank, blank: Blank, ms: Members, k: nat)
    requires IsBlank(lead) && ValidValue(Obj(blank, ms)) && k < |lead + Text(Obj(blank, ms))|
    ensures Digest((lead + Text(Obj(blank, ms)))[..k]) == Err(AtEnd(Truncated))
  {
    var open := OpenText(lead, blank, ms);
    OpenIsPrefix(lead, blank, ms);
    var t := OpenScanned(lead, blank, ms);
    hide OpenText, Text, Step;
    var whole := lead + Text(Obj(blank, ms));
    assert whole[..k] == (open + [COMMA])[..k];
    PrefixOf(START, open + [COMMA], k);
    hide Run;
  }

  /** A byte that may not stand here: neither blank, for the scanner, nor in `allowed`. */
  predicate IsStray(b: byte, allowed: seq<byte>) {
    !IsBlank([b]) && b != 12 && b !in allowed
  }

  /** The text of an object up to where its next member begins. */
  function BegunText(lead: Blank, ms: Members): seq<byte> {
    lead + [OPEN_BRACE] + if ms.NoMembers? then [] else MembersText(ms) + [COMMA]
  }

  lemma BegunScanned(lead: Blank, ms: Members) returns (t: Scan)
    requires IsBlank(lead) && ValidMembers(ms)
    ensures Feeds(START, BegunText(lead, ms), t) && t.phase == BeforeKey
  {
    t := START.(phase := BeforeKey);
    Idles(START, lead);
    FeedsOne(START, OPEN_BRACE);
    FeedsBoth(START, lead, START, [OPEN_BRACE], t);
    assert lead + [OPEN_BRACE] + [] == lead + [OPEN_BRACE];
    if ms.Entry? {
      var a := t;
      hide Feeds, MembersText;
      t := TopMembers(a, ms, COMMA);
      FeedsBoth(START, lead + [OPEN_BRACE], a, MembersText(ms) + [COMMA], t);
    }
  }

  /** Only a name, another comma or the closing brace may stand where a member begins. */
  lemma StrayMemberIsRefused(lead: Blank, ms: Members, gap: Blank, b: byte, rest: seq<byte>)
    requires IsBlank(lead) && ValidMembers(ms) && IsBlank(gap) && IsStray(b, [QUOTE, COMMA, CLOSE_BRACE])
    ensures Digest(BegunText(lead, ms) + gap + [b] + rest) == Err(InBody(Malformed))
  {
    hide BegunText;
    var t := BegunScanned(lead, ms);
    assert b in [b];
    Idles(t, gap);
    FeedsBoth(START, BegunText(lead, ms), t, gap, t);
    RefusedAfter(START, BegunText(lead, ms) + gap, t, b, rest, Malformed);
  }

  /** Only a colon may follow a member's name. */
  lemma StrayColonIsRefused(lead: Blank, ms: Members, gap: Blank, key: seq<Char>, mid: Blank, b: byte, rest: seq<byte>)
    requires IsBlank(lead) && ValidMembers(ms) && IsBlank(gap) && ValidChars(key) && IsBlank(mid) && IsStray(b, [COLON])
    ensures Digest(BegunText(lead, ms) + gap + Quoted(key) + mid + [b] + rest) == Err(InBody(Malformed))
  {
    hide BegunText, Quoted;
    var t := BegunScanned(lead, ms);
    assert b in [b];
    Idles(t, gap);
    FeedsBoth(START, BegunText(lead, ms), t, gap, t);
    var u := NameFeeds(t, key);
    FeedsBoth(START, BegunText(lead, ms) + gap, t, Quoted(key), u);
    Idles(u, mid);
    FeedsBoth(START, BegunText(lead, ms) + gap + Quoted(key), u, mid, u);
    RefusedAfter(START, BegunText(lead, ms) + gap + Quoted(key) + mid, u, b, rest, Malformed);
  }

  /** Only a comma or the closing brace may follow a string, an array or an object. */
  lemma StrayEndIsRefused(lead: Blank, ms: Members, last: Members, b: byte, rest: seq<byte>)
    requires IsBlank(lead) && ValidMembers(ms) && last.Entry? && ValidMembers(last) && !last.value.Lit?
    requires IsStray(b, [COMMA, CLOSE_BRACE])
    ensures Digest(BegunText(lead, ms) + KeyedText(last) + last.after + [b] + rest) == Err(InBody(Malformed))
  {
    hide BegunText, KeyedText, ValidMembers;
    EntryIsValid(last);
    var t := BegunScanned(lead, ms);
    assert b in [b];
    var u := TopKeyed(t, last);
    FeedsBoth(START, BegunText(lead, ms), t, KeyedText(last), u);
    Idles(u, last.after);
    FeedsBoth(START, BegunText(lead, ms) + KeyedText(last), u, last.after, u);
    RefusedAfter(START, BegunText(lead, ms) + KeyedText(last) + last.after, u, b, rest, Malformed);
  }

  /** A body whose first byte that is not blank is not an opening brace is refused. */
  lemma NotAnObjectIsRefused(lead: Blank, b: byte, rest: seq<byte>)
    requires IsBlank(lead) && IsStray(b, [OPEN_BRACE])
    ensures Digest(lead + [b] + rest) == Err(InBody(NotAnObject))
  {
    assert b in [b];
    Idles(START, lead);
    RefusedAfter(START, lead, START, b, rest, NotAnObject);
  }

  lemma RefusedAfter(s: Scan, bytes: seq<byte>, t: Scan, b: byte, rest: seq<byte>, e: ScanError)
    requires Feeds(s, bytes, t) && Ready(t) && Step(t, b) == Err(e)
    ensures Run(s, bytes + [b] + rest) == Err(e)
  {
    hide Step;
    assert bytes + [b] + rest == bytes + ([b] + rest);
    RunBoth(s, bytes, [b] + rest);
    assert ([b] + rest)[0] == b;
  }

  // ------------------------------------------------------------- the answer

  function Size(ms: Members): nat {
    if ms.NoMembers? then 0 else 1 + Size(ms.rest)
  }

  function Nth(ms: Members, i: nat): Members
    requires i < Size(ms)
    ensures Nth(ms, i).Entry?
  {
    if i == 0 then ms else Nth(ms.rest, i - 1)
  }

  predicate Unescaped(cs: seq<Char>) {
    forall c :: c in cs ==> c.Plain?
  }

  lemma {:induction false} UnescapedIsRead(cs: seq<Char>)
    requires Unescaped(cs)
    ensures ReadName(cs) == CharsText(cs)
  {
    if cs != [] {
      UnescapedIsRead(cs[1..]);
    }
  }

  /** Member `i` is the only one written `name`. */
  ghost predicate OnlyAt(ms: Members, i: nat, name: seq<byte>) {
    i < Size(ms) && forall j: nat :: j < Size(ms) ==> (CharsText(Nth(ms, j).key) == name <==> j == i)
  }

  ghost predicate NoneNamed(ms: Members, name: seq<byte>) {
    forall j: nat :: j < Size(ms) ==> CharsText(Nth(ms, j).key) != name
  }

  ghost predicate PlainKeys(ms: Members) {
    forall j: nat :: j < Size(ms) ==> Unescaped(Nth(ms, j).key)
  }

  lemma {:induction false} NoneFound(found: Found, ms: Members)
    requires PlainKeys(ms)
    ensures NoneNamed(ms, RESULT) ==> Expected(found, ms).result == found.result
    ensures NoneNamed(ms, ERROR) ==> Expected(found, ms).error == found.error
    decreases ms
  {
    hide Text;
    if ms.Entry? {
      KeyAndRest(ms);
      UnescapedIsRead(ms.key);
      NoneFound(Noted(found, Named(ReadName(ms.key)), Text(ms.value)), ms.rest);
    }
  }

  lemma KeyAndRest(ms: Members)
    requires ms.Entry?
    ensures Nth(ms, 0) == ms
    ensures forall j: nat :: j < Size(ms.rest) ==> j + 1 < Size(ms) && Nth(ms, j + 1) == Nth(ms.rest, j)
    ensures PlainKeys(ms) ==> Unescaped(ms.key) && PlainKeys(ms.rest)
    ensures forall name :: NoneNamed(ms, name) ==> NoneNamed(ms.rest, name) && CharsText(ms.key) != name
  {
    assert Nth(ms, 0) == ms;
    forall j: nat | j < Size(ms.rest) ensures j + 1 < Size(ms) && Nth(ms, j + 1) == Nth(ms.rest, j) {
    }
  }

  lemma {:induction false} OnlyFound(found: Found, ms: Members, i: nat)
    requires PlainKeys(ms)
    ensures OnlyAt(ms, i, RESULT) ==> Expected(found, ms).result == Some(Text(Nth(ms, i).value))
    ensures OnlyAt(ms, i, ERROR) ==> Expected(found, ms).error == Some(Capped([], Text(Nth(ms, i).value)))
    decreases ms
  {
    hide Text, Capped;
    if ms.Entry? {
      KeyAndRest(ms);
      UnescapedIsRead(ms.key);
      var next := Noted(found, Named(ReadName(ms.key)), Text(ms.value));
      if i == 0 {
        forall name | OnlyAt(ms, 0, name) ensures NoneNamed(ms.rest, name) && CharsText(ms.key) == name {
          forall j: nat | j < Size(ms.rest) ensures CharsText(Nth(ms.rest, j).key) != name {
            assert Nth(ms, j + 1) == Nth(ms.rest, j);
          }
        }
        NoneFound(next, ms.rest);
      } else {
        forall name | OnlyAt(ms, i, name) ensures OnlyAt(ms.rest, i - 1, name) {
          forall j: nat | j < Size(ms.rest) ensures CharsText(Nth(ms.rest, j).key) == name <==> j == i - 1 {
            assert Nth(ms, j + 1) == Nth(ms.rest, j);
          }
        }
        OnlyFound(next, ms.rest, i - 1);
      }
    }
  }

  /** With one `result` and no `error`, the digested bytes are exactly the text of the `result` value. */
  lemma AnswersWithResultText(lead: Blank, blank: Blank, ms: Members, trail: seq<byte>, i: nat)
    requires IsBlank(lead) && ValidValue(Obj(blank, ms)) && PlainKeys(ms)
    requires OnlyAt(ms, i, RESULT) && NoneNamed(ms, ERROR)
    ensures Digest(lead + Text(Obj(blank, ms)) + trail) == Ok(Answered(Text(Nth(ms, i).value)))
  {
    ObjectScanned(lead, blank, ms, trail);
    OnlyFound(Found(None, None), ms, i);
    NoneFound(Found(None, None), ms);
  }

  /** With an `error` member, its text is captured up to the cap, whatever else is there. */
  lemma AnswersWithErrorText(lead: Blank, blank: Blank, ms: Members, trail: seq<byte>, i: nat)
    requires IsBlank(lead) && ValidValue(Obj(blank, ms)) && PlainKeys(ms) && OnlyAt(ms, i, ERROR)
    ensures var text := Text(Nth(ms, i).value);
      Digest(lead + Text(Obj(blank, ms)) + trail)
      == Ok(RpcError(if |text| < 65536 then text else text[..65536]))
  {
    ObjectScanned(lead, blank, ms, trail);
    OnlyFound(Found(None, None), ms, i);
    var text := Text(Nth(ms, i).value);
    assert [] + text == text && [] + text[..0] == [];
    hide Text, Expected;
    assert Capped([], text) == if |text| < 65536 then text else text[..65536];
  }

  // ---------------------------------------------------------- escaped names

  function HexDigit(b: byte): nat {
    if b >= 97 then b - 87 else if b >= 65 then b - 55 else if b >= 48 then b - 48 else 0
  }

  /** The character a string character stands for. */
  function Decoded(c: Char): nat
    requires c.Valid()
  {
    match c
    case Plain(b) => b
    case Escape(b) =>
      if b == 98 then 8 else if b == 102 then 12 else if b == 110 then 10
      else if b == 114 then 13 else if b == 116 then 9 else b
    case Unicode(hex) =>
      ((HexDigit(hex[0]) * 16 + HexDigit(hex[1])) * 16 + HexDigit(hex[2])) * 16 + HexDigit(hex[3])
  }

  predicate Means(cs: seq<Char>, name: seq<byte>) {
    ValidChars(cs) && |cs| == |name| && forall i :: 0 <= i < |cs| ==> Decoded(cs[i]) == name[i]
  }

  lemma {:induction false} ReadNameLength(cs: seq<Char>)
    requires ValidChars(cs)
    ensures |ReadName(cs)| >= |cs|
    ensures |ReadName(cs)| == |cs| ==> forall c :: c in cs ==> !c.Unicode?
  {
    if cs != [] {
      ReadNameLength(cs[1..]);
      assert cs == [cs[0]] + cs[1..];
    }
  }

  lemma {:induction false} NameCharByChar(cs: seq<Char>)
    requires forall c :: c in cs ==> !c.Unicode?
    ensures |ReadName(cs)| == |cs| && forall i :: 0 <= i < |cs| ==> ReadName(cs)[i] == cs[i].b
  {
    if cs != [] {
      NameCharByChar(cs[1..]);
      assert cs[0] in cs;
    }
  }

  lemma {:induction false} ChosenText(cs: seq<Char>)
    requires ValidChars(cs)
    ensures BACKSLASH !in CharsText(cs) ==> Unescaped(cs)
  {
    if cs != [] {
      ChosenText(cs[1..]);
      assert cs == [cs[0]] + cs[1..];
      if !cs[0].Plain? {
        assert CharsText(cs)[0] == BACKSLASH;
      }
    }
  }

  /** How the scanner classifies a member name. */
  function ReadAs(cs: seq<Char>): Member {
    Named(ReadName(cs))
  }

  /** The member that a name stands for once its escapes are decoded. */
  function Meaning(cs: seq<Char>): Member {
    if Means(cs, RESULT) then ResultMember else if Means(cs, ERROR) then ErrorMember else OtherMember
  }

  /** Both names are lower-case letters only. */
  predicate IsWord(name: seq<byte>) {
    forall b :: b in name ==> 97 <= b <= 122
  }

  /** A name of letters is read and meant at once exactly when it is written out. */
  lemma WordReadRight(cs: seq<Char>, name: seq<byte>)
    requires ValidChars(cs) && IsWord(name)
    ensures (ReadName(cs) == name && Means(cs, name)) <==> CharsText(cs) == name
    ensures CharsText(cs) == name ==> Unescaped(cs)
  {
    if ReadName(cs) == name && Means(cs, name) {
      ReadNameLength(cs);
      NameCharByChar(cs);
      forall i | 0 <= i < |cs| ensures cs[i].Plain? {
        assert cs[i] in cs && cs[i].Valid();
        assert name[i] in name;
        assert cs[i].b == Decoded(cs[i]) == name[i];
      }
      UnescapedIsRead(cs);
    }
    if CharsText(cs) == name {
      ChosenText(cs);
      UnescapedIsRead(cs);
      NameCharByChar(cs);
    }
  }

  /** An unescaped name is read as what it means. */
  lemma UnescapedMeans(cs: seq<Char>, name: seq<byte>)
    requires ValidChars(cs) && Unescaped(cs)
    ensures ReadName(cs) == name <==> Means(cs, name)
  {
    NameCharByChar(cs);
    assert forall i :: 0 <= i < |cs| ==> cs[i] in cs;
  }

  /**
   Exactly the escaped names that are read as `result` or `error`, or mean one of
   them, are misread.
   */
  lemma NamesMisread(cs: seq<Char>)
    requires ValidChars(cs)
    ensures ReadAs(cs) != Meaning(cs) <==> !Unescaped(cs) && (ReadAs(cs) != OtherMember || Meaning(cs) != OtherMember)
  {
    WordReadRight(cs, RESULT);
    WordReadRight(cs, ERROR);
    if Unescaped(cs) {
      UnescapedMeans(cs, RESULT);
      UnescapedMeans(cs, ERROR);
    }
    hide Means, ReadName, Unescaped;
  }

  /** Neither name is ever mistaken for the other. */
  lemma NamesNotSwapped(cs: seq<Char>)
    requires ValidChars(cs)
    ensures !(ReadAs(cs) == ResultMember && Meaning(cs) == ErrorMember)
    ensures !(ReadAs(cs) == ErrorMember && Meaning(cs) == ResultMember)
  {
    ReadNameLength(cs);
    EscapeLength(cs);
  }

  /** A `u` escape is read as five bytes, so it makes a name at least four bytes too long. */
  lemma {:induction false} EscapeLength(cs: seq<Char>)
    requires ValidChars(cs)
    ensures |ReadName(cs)| == |cs| || |ReadName(cs)| >= |cs| + 4
  {
    if cs != [] {
      EscapeLength(cs[1..]);
      assert cs == [cs[0]] + cs[1..] && cs[0] in cs;
    }
  }

  // ------------------------------------------------- misread names in an object

  /** The last member that `named` takes for `m`. */
  function LastNamed(ms: Members, named: seq<Char> -> Member, m: Member): (r: Option<nat>)
    ensures r.Some? ==> r.value < Size(ms) && named(Nth(ms, r.value).key) == m
    ensures r.Some? ==> forall j: nat :: r.value < j < Size(ms) ==> named(Nth(ms, j).key) != m
    ensures r.None? ==> forall j: nat :: j < Size(ms) ==> named(Nth(ms, j).key) != m
  {
    if ms.NoMembers? then None
    else
      KeyAndRest(ms);
      match LastNamed(ms.rest, named, m)
      case Some(i) => assert Nth(ms, i + 1) == Nth(ms.rest, i); Some(i + 1)
      case None => if named(ms.key) == m then Some(0) else None
  }

  /** The member that decides the answer: the last `error`, or else the last `result`. */
  function Decider(ms: Members, named: seq<Char> -> Member): (r: Option<nat>)
    ensures r.Some? ==> r.value < Size(ms) && named(Nth(ms, r.value).key) != OtherMember
    ensures r.None? ==> forall j: nat :: j < Size(ms) ==> named(Nth(ms, j).key) == OtherMember
    ensures (r.Some? && named(Nth(ms, r.value).key) == ErrorMember) <==>
            exists j: nat :: j < Size(ms) && named(Nth(ms, j).key) == ErrorMember
  {
    var e := LastNamed(ms, named, ErrorMember);
    if e.Some? then e else LastNamed(ms, named, ResultMember)
  }

  function Outcome(m: Member, text: seq<byte>): Summary {
    if m == ErrorMember then RpcError(Capped([], text)) else Answered(text)
  }

  /** What an object says under a reading of its names. */
  function Verdict(ms: Members, named: seq<Char> -> Member): Result<Summary, DigestError> {
    match Decider(ms, named)
    case None => Err(AtEnd(NeitherResultNorError))
    case Some(i) => Ok(Outcome(named(Nth(ms, i).key), Text(Nth(ms, i).value)))
  }

  function TextAt(ms: Members, i: Option<nat>): Option<seq<byte>>
    requires i.Some? ==> i.value < Size(ms)
  {
    if i.Some? then Some(Text(Nth(ms, i.value).value)) else None
  }

  lemma {:induction false} LastIsExpected(found: Found, ms: Members)
    ensures var r := LastNamed(ms, ReadAs, ResultMember);
      Expected(found, ms).result == if r.Some? then TextAt(ms, r) else found.result
    ensures var e := LastNamed(ms, ReadAs, ErrorMember);
      Expected(found, ms).error == if e.Some? then Some(Capped([], Text(Nth(ms, e.value).value))) else found.error
    decreases ms
  {
    hide Text, Capped, ReadName;
    if ms.Entry? {
      LastIsExpected(Noted(found, Named(ReadName(ms.key)), Text(ms.value)), ms.rest);
    }
  }

  /** Every valid object is digested to its deciding member, by the names as the scanner reads them. */
  lemma DigestIsVerdict(lead: Blank, blank: Blank, ms: Members, trail: seq<byte>)
    requires IsBlank(lead) && ValidValue(Obj(blank, ms))
    ensures Digest(lead + Text(Obj(blank, ms)) + trail) == Verdict(ms, ReadAs)
  {
    ObjectScanned(lead, blank, ms, trail);
    LastIsExpected(Found(None, None), ms);
    hide Text, Capped, ReadName, Expected, Run, ReadAs, LastNamed;
  }

  lemma {:induction false} KeysAreValid(ms: Members, i: nat)
    requires ValidMembers(ms) && i < Size(ms)
    ensures ValidChars(Nth(ms, i).key)
  {
    if i > 0 {
      KeysAreValid(ms.rest, i - 1);
    }
  }

  /**
   The answer is the intended one exactly when the reading picks the member that the
   meaning picks, or picks another one that says the same.
   */
  lemma DigestReadRight(lead: Blank, blank: Blank, ms: Members, trail: seq<byte>)
    requires IsBlank(lead) && ValidValue(Obj(blank, ms))
    ensures var i, j := Decider(ms, ReadAs), Decider(ms, Meaning);
      Digest(lead + Text(Obj(blank, ms)) + trail) == Verdict(ms, Meaning) <==>
        i == j || (i.Some? && j.Some? && ReadAs(Nth(ms, i.value).key) == Meaning(Nth(ms, j.value).key) &&
                   Outcome(ReadAs(Nth(ms, i.value).key), Text(Nth(ms, i.value).value)) ==
                   Outcome(Meaning(Nth(ms, j.value).key), Text(Nth(ms, j.value).value)))
  {
    DigestIsVerdict(lead, blank, ms, trail);
    var i, j := Decider(ms, ReadAs), Decider(ms, Meaning);
    if i.Some? && j.Some? {
      KeysAreValid(ms, i.value);
      NamesNotSwapped(Nth(ms, i.value).key);
    }
    hide Text, ReadAs, Meaning, Digest, Decider;
  }

  /**
   An answer is taken for an RPC error exactly when some name is read as `error`, and
   meant as one when some name means it.
   */
  lemma DigestKind(lead: Blank, blank: Blank, ms: Members, trail: seq<byte>)
    requires IsBlank(lead) && ValidValue(Obj(blank, ms))
    ensures var r := Digest(lead + Text(Obj(blank, ms)) + trail);
      (r.Ok? && r.value.RpcError?) <==> exists j: nat :: j < Size(ms) && ReadAs(Nth(ms, j).key) == ErrorMember
    ensures var r := Verdict(ms, Meaning);
      (r.Ok? && r.value.RpcError?) <==> exists j: nat :: j < Size(ms) && Meaning(Nth(ms, j).key) == ErrorMember
  {
    DigestIsVerdict(lead, blank, ms, trail);
    VerdictKind(ms, ReadAs);
    VerdictKind(ms, Meaning);
    hide Text, Digest, Verdict, Nth, Size, Named, ReadName, Means;
  }

  lemma VerdictKind(ms: Members, named: seq<Char> -> Member)
    ensures var r := Verdict(ms, named);
      (r.Ok? && r.value.RpcError?) <==> exists j: nat :: j < Size(ms) && named(Nth(ms, j).key) == ErrorMember
  {
    hide Text, Capped;
    var i := Decider(ms, named);
    if i.Some? {
      assert Verdict(ms, named) == Ok(Outcome(named(Nth(ms, i.value).key), Text(Nth(ms, i.value).value)));
      assert Verdict(ms, named).value.RpcError? <==> named(Nth(ms, i.value).key) == ErrorMember;
      assert named(Nth(ms, i.value).key) == ErrorMember <==>
             exists j: nat :: j < Size(ms) && named(Nth(ms, j).key) == ErrorMember;
    } else {
      assert Verdict(ms, named).Err?;
    }
  }

  /** Without an escaped name that is read as, or means, `result` or `error`, the answer is the intended one. */
  lemma DigestWithoutMisreading(lead: Blank, blank: Blank, ms: Members, trail: seq<byte>)
    requires IsBlank(lead) && ValidValue(Obj(blank, ms))
    requires forall j: nat :: j < Size(ms) ==> var key := Nth(ms, j).key;
      Unescaped(key) || (ReadAs(key) == OtherMember && Meaning(key) == OtherMember)
    ensures Digest(lead + Text(Obj(blank, ms)) + trail) == Verdict(ms, Meaning)
  {
    forall j: nat | j < Size(ms) ensures ReadAs(Nth(ms, j).key) == Meaning(Nth(ms, j).key) {
      KeysAreValid(ms, j);
      NamesMisread(Nth(ms, j).key);
    }
    DigestIsVerdict(lead, blank, ms, trail);
    hide Text, ReadAs, Meaning, Digest, Unescaped, Nth;
    SameLast(ms, ResultMember);
    SameLast(ms, ErrorMember);
  }

  lemma SameLast(ms: Members, m: Member)
    requires forall j: nat :: j < Size(ms) ==> ReadAs(Nth(ms, j).key) == Meaning(Nth(ms, j).key)
    ensures LastNamed(ms, ReadAs, m) == LastNamed(ms, Meaning, m)
  {
    hide ReadAs, Meaning, Nth, Size;
    var i, j := LastNamed(ms, ReadAs, m), LastNamed(ms, Meaning, m);
    hide LastNamed;
  }

  /** A carriage return written as an escape makes another name read as `result`. */
  lemma EscapedNameTakenForResult() returns (cs: seq<Char>)
    ensures ValidChars(cs) && ReadName(cs) == RESULT && !Means(cs, RESULT)
  {
    cs := [Escape(114), Plain(101), Plain(115), Plain(117), Plain(108), Plain(116)];
    NameCharByChar(cs);
    assert Decoded(cs[0]) == 13;
  }

  /** Another one is read as `error`, and turns the answer of an object with a good `result` into an RPC error. */
  lemma EscapedNameTakenForError() returns (ms: Members)
    ensures ValidValue(Obj([], ms)) && Verdict(ms, Meaning) == Ok(Answered(Text(Lit(True))))
    ensures Digest(Text(Obj([], ms))) == Ok(RpcError(Text(Lit(Null))))
  {
    hide Digest, Text, Capped, ReadAs, Meaning, Verdict, ValidChars;
    var result := [Plain(114), Plain(101), Plain(115), Plain(117), Plain(108), Plain(116)];
    var other := [Plain(101), Escape(114), Plain(114), Plain(111), Plain(114)];
    ResultWritten(result);
    TakenForError(other);
    ms := Entry([], result, [], [], Lit(True), [], Entry([], other, [], [], Lit(Null), [], NoMembers));
    TwoMembers(ms, ReadAs);
    TwoMembers(ms, Meaning);
    NullText();
    DigestIsVerdict([], [], ms, []);
    assert [] + Text(Obj([], ms)) + [] == Text(Obj([], ms));
  }

  lemma TwoMembers(ms: Members, named: seq<Char> -> Member)
    requires ms.Entry? && ms.rest.Entry? && ms.rest.rest.NoMembers? && named(ms.key) == ResultMember
    ensures named(ms.rest.key) == ErrorMember ==> Verdict(ms, named) == Ok(RpcError(Capped([], Text(ms.rest.value))))
    ensures named(ms.rest.key) == OtherMember ==> Verdict(ms, named) == Ok(Answered(Text(ms.value)))
  {
    hide Text, Capped;
    assert Nth(ms, 0) == ms && Nth(ms, 1) == ms.rest;
    forall m ensures LastNamed(ms.rest, named, m) == if named(ms.rest.key) == m then Some(0) else None {
      assert LastNamed(ms.rest.rest, named, m) == None;
    }
    assert LastNamed(ms, named, ErrorMember) == if named(ms.rest.key) == ErrorMember then Some(1) else None;
    assert LastNamed(ms, named, ResultMember) == if named(ms.rest.key) == ResultMember then Some(1) else Some(0);
    assert Decider(ms, named) == if named(ms.rest.key) == OtherMember then Some(0) else Some(1);
  }

  lemma NullText()
    ensures Capped([], Text(Lit(Null))) == Text(Lit(Null))
  {
    assert [] + Text(Lit(Null)) == Text(Lit(Null));
  }

  lemma ResultWritten(cs: seq<Char>)
    requires cs == [Plain(114), Plain(101), Plain(115), Plain(117), Plain(108), Plain(116)]
    ensures ValidChars(cs) && ReadAs(cs) == ResultMember && Meaning(cs) == ResultMember
  {
    NameCharByChar(cs);
  }

  lemma TakenForError(cs: seq<Char>)
    requires cs == [Plain(101), Escape(114), Plain(114), Plain(111), Plain(114)]
    ensures ValidChars(cs) && ReadAs(cs) == ErrorMember && Meaning(cs) == OtherMember
  {
    NameCharByChar(cs);
    assert Decoded(cs[1]) == 13;
  }

  /** A `result` whose first letter is written as a `u` escape is not found. */
  lemma EscapedResultMissed() returns (cs: seq<Char>)
    ensures ValidChars(cs) && Means(cs, RESULT) && Named(ReadName(cs)) == OtherMember
  {
    cs := [Unicode([48, 48, 55, 50]), Plain(101), Plain(115), Plain(117), Plain(108), Plain(116)];
    assert ReadName(cs)[0] == 117;
  }
}
