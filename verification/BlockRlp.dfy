/**
 Raw transaction extraction from RLP-encoded blocks, against the encoding of appendix B
 of the Yellow Paper and the transaction envelopes of EIP-2718.
 */
module BlockRlp {
  import opened Wrappers

  type Bytes = seq<byte>

  datatype RlpError =
    | TooShort
    | NonCanonicalByte
    | NonCanonicalSize
    | LeadingZero
    | UnexpectedString
    | UnexpectedList
    | TrailingBytes

  datatype Header = Header(list: bool, payloadLength: nat)

  // ---------------------------------------------------------------- encoding

  /** Big endian with no leading zero. */
  function BE(n: nat): Bytes {
    if n == 0 then [] else BE(n / 256) + [n % 256]
  }

  function FromBE(s: Bytes): nat {
    if s == [] then 0 else FromBE(s[..|s| - 1]) * 256 + s[|s| - 1]
  }

  const LIMIT: nat := 0x1_0000_0000_0000_0000

  function EncodeHeader(list: bool, length: nat): Bytes
    requires length < LIMIT
  {
    if length < 56 then [(if list then 192 else 128) + length]
    else
      BELength(length);
      [(if list then 247 else 183) + |BE(length)|] + BE(length)
  }

  function EncodeString(payload: Bytes): Bytes
    requires |payload| < LIMIT
  {
    if |payload| == 1 && payload[0] < 128 then payload else EncodeHeader(false, |payload|) + payload
  }

  function EncodeList(payload: Bytes): Bytes
    requires |payload| < LIMIT
  {
    EncodeHeader(true, |payload|) + payload
  }

  /** The first examples that the specification of RLP gives: "dog", the list of "cat" and "dog", and the empty ones. */
  lemma RlpExamples()
    ensures EncodeString([100, 111, 103]) == [0x83, 100, 111, 103]
    ensures var cat, dog := EncodeString([99, 97, 116]), EncodeString([100, 111, 103]);
      EncodeList(cat + dog) == [0xc8, 0x83, 99, 97, 116, 0x83, 100, 111, 103]
    ensures EncodeString([]) == [0x80] && EncodeList([]) == [0xc0]
    ensures EncodeString([0]) == [0] && EncodeString([15]) == [15] && EncodeString([4, 0]) == [0x82, 4, 0]
  {
    assert EncodeString([99, 97, 116]) == [0x83, 99, 97, 116];
  }

  /** From 56 bytes on the length stands behind the first byte, big-endian. */
  lemma LongHeaders()
    ensures EncodeHeader(false, 56) == [0xb8, 56] && EncodeHeader(true, 56) == [0xf8, 56]
    ensures EncodeHeader(false, 1024) == [0xb9, 4, 0] && EncodeHeader(true, 1024) == [0xf9, 4, 0]
  {
    assert BE(0) == [] && BE(4) == [4] && BE(56) == [56] && BE(1024) == [4, 0];
  }

  /** A transaction: the fields of a legacy one, or the bytes of a typed one. */
  datatype Tx = Legacy(fields: Bytes) | Typed(envelope: Bytes)
  {
    predicate Valid() { if Legacy? then |fields| < LIMIT else |envelope| < LIMIT }

    /** How it stands in a block body. */
    function InBody(): Bytes
      requires Valid()
    {
      if Legacy? then EncodeList(fields) else EncodeString(envelope)
    }

    /** Its own encoding: the list itself, or the envelope without the string around it. */
    function Encoded(): Bytes
      requires Valid()
    {
      if Legacy? then EncodeList(fields) else envelope
    }
  }

  predicate ValidTxs(txs: seq<Tx>) {
    forall t :: t in txs ==> t.Valid()
  }

  function Payload(txs: seq<Tx>): Bytes
    requires ValidTxs(txs)
  {
    if txs == [] then []
    else
      assert txs[0] in txs && forall t :: t in txs[1..] ==> t in txs;
      txs[0].InBody() + Payload(txs[1..])
  }

  function Encodings(txs: seq<Tx>): seq<Bytes>
    requires ValidTxs(txs)
  {
    if txs == [] then []
    else
      assert txs[0] in txs && forall t :: t in txs[1..] ==> t in txs;
      [txs[0].Encoded()] + Encodings(txs[1..])
  }

  lemma {:induction false} BELength(n: nat)
    requires n < LIMIT
    ensures |BE(n)| <= 8
  {
    BEBound(n, 8);
  }

  function Pow256(k: nat): nat {
    if k == 0 then 1 else 256 * Pow256(k - 1)
  }

  lemma {:induction false} BEBound(n: nat, k: nat)
    requires n < Pow256(k)
    ensures |BE(n)| <= k
  {
    if n > 0 {
      BEBound(n / 256, k - 1);
    }
  }

  lemma {:induction false} FromBEInverse(n: nat)
    ensures FromBE(BE(n)) == n && (n > 0 ==> BE(n) != [] && BE(n)[0] != 0)
  {
    if n > 0 {
      FromBEInverse(n / 256);
      var s := BE(n);
      assert s[..|s| - 1] == BE(n / 256);
    }
  }

  lemma {:induction false} BEInverse(s: Bytes)
    requires s == [] || s[0] != 0
    ensures BE(FromBE(s)) == s && (s != [] ==> FromBE(s) > 0)
  {
    if s != [] {
      var init := s[..|s| - 1];
      BEInverse(init);
      assert s == init + [s[|s| - 1]];
      var n := FromBE(init) * 256 + s[|s| - 1];
      assert n / 256 == FromBE(init) && n % 256 == s[|s| - 1];
    }
  }

  // ---------------------------------------------------------------- decoding

  /** A header, and the input after it; a byte below 128 is its own payload. */
  function Decode(buf: Bytes): (r: Result<(Header, Bytes), RlpError>)
    ensures r.Ok? ==> r.value.0.payloadLength <= |r.value.1| <= |buf| && r.value.1 == buf[|buf| - |r.value.1|..]
    ensures r.Ok? ==> r.value.0.payloadLength > 0 || |r.value.1| < |buf|
  {
    if buf == [] then Err(TooShort)
    else if buf[0] < 128 then Ok((Header(false, 1), buf))
    else if buf[0] < 184 then DecodeShort(buf, false, buf[0] - 128)
    else if buf[0] < 192 then DecodeLong(buf, false, buf[0] - 183)
    else if buf[0] < 248 then DecodeShort(buf, true, buf[0] - 192)
    else DecodeLong(buf, true, buf[0] - 247)
  }

  function DecodeShort(buf: Bytes, list: bool, length: nat): (r: Result<(Header, Bytes), RlpError>)
    requires buf != []
    ensures r.Ok? ==> r.value == (Header(list, length), buf[1..]) && length <= |buf| - 1
  {
    if !list && length == 1 && |buf| < 2 then Err(TooShort)
    else if !list && length == 1 && buf[1] < 128 then Err(NonCanonicalByte)
    else if |buf| - 1 < length then Err(TooShort)
    else Ok((Header(list, length), buf[1..]))
  }

  function DecodeLong(buf: Bytes, list: bool, lengthOfLength: nat): (r: Result<(Header, Bytes), RlpError>)
    requires buf != [] && lengthOfLength > 0
    ensures r.Ok? ==>
      && lengthOfLength < |buf|
      && r.value == (Header(list, FromBE(buf[1..1 + lengthOfLength])), buf[1 + lengthOfLength..])
      && FromBE(buf[1..1 + lengthOfLength]) <= |buf| - 1 - lengthOfLength
  {
    if |buf| - 1 < lengthOfLength then Err(TooShort)
    else if buf[1] == 0 then Err(LeadingZero)
    else
      var length := FromBE(buf[1..1 + lengthOfLength]);
      if length < 56 then Err(NonCanonicalSize)
      else if |buf| - 1 - lengthOfLength < length then Err(TooShort)
      else Ok((Header(list, length), buf[1 + lengthOfLength..]))
  }

  /** The payload of an item that must be a list, and what follows it. */
  function DecodeListBytes(buf: Bytes): Result<(Bytes, Bytes), RlpError> {
    var h := Decode(buf);
    if h.Err? then Err(h.error)
    else if !h.value.0.list then Err(UnexpectedString)
    else Ok((h.value.1[..h.value.0.payloadLength], h.value.1[h.value.0.payloadLength..]))
  }

  method BlockRlpFields(raw: Bytes) returns (r: Result<Bytes, RlpError>)
    ensures r == Fields(raw)
  {
    var d := DecodeListBytes(raw);
    if d.Err? {
      return Err(d.error);
    }
    if d.value.1 != [] {
      return Err(TrailingBytes);
    }
    return Ok(d.value.0);
  }

  function Fields(raw: Bytes): Result<Bytes, RlpError> {
    var d := DecodeListBytes(raw);
    if d.Err? then Err(d.error) else if d.value.1 != [] then Err(TrailingBytes) else Ok(d.value.0)
  }

  function SkipItem(buf: Bytes): Result<Bytes, RlpError> {
    var h := Decode(buf);
    if h.Err? then Err(h.error) else Ok(h.value.1[h.value.0.payloadLength..])
  }

  /** The transactions of a payload, item by item. */
  function Items(payload: Bytes): Result<seq<Tx>, RlpError>
    decreases |payload|
  {
    if payload == [] then Ok([])
    else
      var h := Decode(payload);
      if h.Err? then Err(h.error)
      else
        var content, rest := h.value.1[..h.value.0.payloadLength], h.value.1[h.value.0.payloadLength..];
        var more := Items(rest);
        if more.Err? then more
        else Ok([if h.value.0.list then Legacy(content) else Typed(content)] + more.value)
  }

  /** The raw bytes of each item: a list with its header, a string without. */
  function Slices(payload: Bytes): Result<seq<Bytes>, RlpError>
    decreases |payload|
  {
    if payload == [] then Ok([])
    else
      var h := Decode(payload);
      if h.Err? then Err(h.error)
      else
        var n := h.value.0.payloadLength;
        var headerLength := |payload| - |h.value.1|;
        var more := Slices(h.value.1[n..]);
        if more.Err? then more
        else Ok([if h.value.0.list then payload[..headerLength + n] else h.value.1[..n]] + more.value)
  }

  method ExtractEncodedTxsFromBody(body: Bytes) returns (r: Result<seq<Bytes>, RlpError>)
    ensures r == Extracted(body)
  {
    var d := DecodeListBytes(body);
    if d.Err? {
      return Err(d.error);
    }
    var payload := d.value.0;
    ghost var whole := payload;
    var transactions: seq<Bytes> := [];
    PrependNothing(Slices(payload));
    while payload != []
      invariant Slices(whole) == Prepended(transactions, Slices(payload))
      decreases |payload|
    {
      var itemStart := payload;
      var h := Decode(payload);
      if h.Err? {
        return Err(h.error);
      }
      payload := h.value.1;
      var headerLength := |itemStart| - |payload|;
      var n := h.value.0.payloadLength;
      ghost var before := transactions;
      if h.value.0.list {
        transactions := transactions + [itemStart[..headerLength + n]];
      } else {
        transactions := transactions + [payload[..n]];
      }
      payload := payload[n..];
      PrependOne(before, transactions[|transactions| - 1], Slices(payload));
    }
    assert transactions + [] == transactions;
    return Ok(transactions);
  }

  function Prepended(done: seq<Bytes>, more: Result<seq<Bytes>, RlpError>): Result<seq<Bytes>, RlpError> {
    if more.Err? then more else Ok(done + more.value)
  }

  lemma PrependNothing(more: Result<seq<Bytes>, RlpError>)
    ensures Prepended([], more) == more
  {
    if more.Ok? {
      assert [] + more.value == more.value;
    }
  }

  lemma PrependOne(done: seq<Bytes>, one: Bytes, more: Result<seq<Bytes>, RlpError>)
    ensures Prepended(done, Prepended([one], more)) == Prepended(done + [one], more)
  {
    if more.Ok? {
      assert done + ([one] + more.value) == done + [one] + more.value;
    }
  }

  function Extracted(body: Bytes): Result<seq<Bytes>, RlpError> {
    var d := DecodeListBytes(body);
    if d.Err? then Err(d.error) else Slices(d.value.0)
  }

  method ExtractEncodedTxsFromBlock(raw: Bytes) returns (r: Result<seq<Bytes>, RlpError>)
    ensures r == ExtractedBlock(raw)
  {
    var fields := BlockRlpFields(raw);
    if fields.Err? {
      return Err(fields.error);
    }
    var body := SkipItem(fields.value);
    if body.Err? {
      return Err(body.error);
    }
    r := ExtractEncodedTxsFromBody(body.value);
  }

  function ExtractedBlock(raw: Bytes): Result<seq<Bytes>, RlpError> {
    var fields := Fields(raw);
    if fields.Err? then Err(fields.error)
    else
      var body := SkipItem(fields.value);
      if body.Err? then Err(body.error) else Extracted(body.value)
  }

  // -------------------------------------------------------------- round trips

  lemma DecodesHeader(list: bool, payload: Bytes, rest: Bytes)
    requires |payload| < LIMIT && (list || |payload| != 1 || payload[0] >= 128)
    ensures Decode(EncodeHeader(list, |payload|) + payload + rest) == Ok((Header(list, |payload|), payload + rest))
  {
    hide Decode, EncodeHeader;
    if |payload| < 56 {
      DecodesShortHeader(list, payload, rest);
    } else {
      DecodesLongHeader(list, payload, rest);
    }
  }

  lemma DecodesShortHeader(list: bool, payload: Bytes, rest: Bytes)
    requires |payload| < 56 && (list || |payload| != 1 || payload[0] >= 128)
    ensures Decode(EncodeHeader(list, |payload|) + payload + rest) == Ok((Header(list, |payload|), payload + rest))
  {
    hide BE, FromBE, DecodeLong;
    var n := |payload|;
    var first: byte := (if list then 192 else 128) + n;
    var buf := EncodeHeader(list, n) + payload + rest;
    assert buf == [first] + (payload + rest);
    assert buf[0] == first && buf[1..] == payload + rest;
    assert n > 0 ==> (payload + rest)[0] == payload[0] && buf[1] == buf[1..][0];
  }

  lemma DecodesLongHeader(list: bool, payload: Bytes, rest: Bytes)
    requires 56 <= |payload| < LIMIT
    ensures Decode(EncodeHeader(list, |payload|) + payload + rest) == Ok((Header(list, |payload|), payload + rest))
  {
    hide BE, FromBE, DecodeShort;
    var n := |payload|;
    BELength(n);
    FromBEInverse(n);
    var first: byte := (if list then 247 else 183) + |BE(n)|;
    var buf := EncodeHeader(list, n) + payload + rest;
    assert buf == [first] + (BE(n) + (payload + rest));
    assert buf[0] == first && buf[1..] == BE(n) + (payload + rest);
    assert buf[1..1 + |BE(n)|] == BE(n) && buf[1 + |BE(n)|..] == payload + rest;
    assert buf[1] == BE(n)[0];
  }

  /** Decoding a transaction's place in a body yields its content and leaves what follows. */
  lemma DecodesTx(t: Tx, rest: Bytes)
    requires t.Valid()
    ensures var buf := t.InBody() + rest;
      var content := if t.Legacy? then t.fields else t.envelope;
      && Decode(buf) == Ok((Header(t.Legacy?, |content|), content + rest))
      && t.InBody() != []
  {
    var content := if t.Legacy? then t.fields else t.envelope;
    if t.Typed? && |content| == 1 && content[0] < 128 {
      assert t.InBody() + rest == content + rest;
    } else {
      DecodesHeader(t.Legacy?, content, rest);
    }
  }

  /** Extracting from the encoding of any mix of transactions gives their encodings, in order. */
  lemma {:induction false} SlicesOfPayload(txs: seq<Tx>)
    requires ValidTxs(txs)
    ensures Slices(Payload(txs)) == Ok(Encodings(txs))
    decreases |txs|
  {
    if txs != [] {
      var t := txs[0];
      assert t in txs && forall x :: x in txs[1..] ==> x in txs;
      var rest := Payload(txs[1..]);
      SlicesOfPayload(txs[1..]);
      DecodesTx(t, rest);
      var content := if t.Legacy? then t.fields else t.envelope;
      var payload := t.InBody() + rest;
      assert (content + rest)[|content|..] == rest && (content + rest)[..|content|] == content;
      assert payload[..|t.InBody()|] == t.InBody();
      assert t.Legacy? ==> |payload| - |content + rest| + |content| == |t.InBody()|;
    }
  }

  /** A block: its header item, the transaction list, and whatever fields follow. */
  function EncodeBlock(header: Tx, txs: seq<Tx>, others: Bytes): Bytes
    requires header.Valid() && ValidTxs(txs) && |Payload(txs)| < LIMIT
    requires |header.InBody() + EncodeList(Payload(txs)) + others| < LIMIT
  {
    EncodeList(header.InBody() + EncodeList(Payload(txs)) + others)
  }

  lemma ListRoundTrip(payload: Bytes, rest: Bytes)
    requires |payload| < LIMIT
    ensures DecodeListBytes(EncodeList(payload) + rest) == Ok((payload, rest))
  {
    DecodesHeader(true, payload, rest);
    assert EncodeList(payload) + rest == EncodeHeader(true, |payload|) + payload + rest;
    assert (payload + rest)[..|payload|] == payload && (payload + rest)[|payload|..] == rest;
  }

  lemma BodyRoundTrip(txs: seq<Tx>, others: Bytes)
    requires ValidTxs(txs) && |Payload(txs)| < LIMIT
    ensures Extracted(EncodeList(Payload(txs)) + others) == Ok(Encodings(txs))
  {
    ListRoundTrip(Payload(txs), others);
    SlicesOfPayload(txs);
  }

  lemma SkipsHeader(header: Tx, rest: Bytes)
    requires header.Valid()
    ensures SkipItem(header.InBody() + rest) == Ok(rest)
  {
    DecodesTx(header, rest);
    var content := if header.Legacy? then header.fields else header.envelope;
    assert (content + rest)[|content|..] == rest;
  }

  /** Extraction from any block returns its transactions' encodings in order. */
  lemma BlockRoundTrip(header: Tx, txs: seq<Tx>, others: Bytes)
    requires header.Valid() && ValidTxs(txs) && |Payload(txs)| < LIMIT
    requires |header.InBody() + EncodeList(Payload(txs)) + others| < LIMIT
    ensures ExtractedBlock(EncodeBlock(header, txs, others)) == Ok(Encodings(txs))
  {
    hide EncodeList, DecodeListBytes, SkipItem, Extracted, Encodings, Payload;
    var body := EncodeList(Payload(txs)) + others;
    var inner := header.InBody() + EncodeList(Payload(txs)) + others;
    assert inner == header.InBody() + body;
    ListRoundTrip(inner, []);
    assert EncodeList(inner) + [] == EncodeList(inner);
    SkipsHeader(header, body);
    BodyRoundTrip(txs, others);
  }

  /** The header read determines the bytes it was read from: no second encoding is accepted. */
  lemma DecodeIsCanonical(buf: Bytes)
    requires Decode(buf).Ok? && Decode(buf).value.0.payloadLength < LIMIT
    ensures var (h, rest) := Decode(buf).value;
      var content := rest[..h.payloadLength];
      buf == (if h.list then EncodeList(content) else EncodeString(content)) + rest[h.payloadLength..]
  {
    if buf[0] < 128 {
      assert buf[..1] == [buf[0]] && buf == buf[..1] + buf[1..];
    } else if buf[0] < 184 {
      ShortIsCanonical(buf, false, buf[0] - 128);
    } else if buf[0] < 192 {
      LongIsCanonical(buf, false, buf[0] - 183);
    } else if buf[0] < 248 {
      ShortIsCanonical(buf, true, buf[0] - 192);
    } else {
      LongIsCanonical(buf, true, buf[0] - 247);
    }
  }

  lemma ShortIsCanonical(buf: Bytes, list: bool, length: nat)
    requires buf != [] && buf[0] == (if list then 192 else 128) + length && length < 56 &&
      DecodeShort(buf, list, length).Ok?
    ensures var content := buf[1..][..length];
      buf == (if list then EncodeList(content) else EncodeString(content)) + buf[1..][length..]
  {
    var content := buf[1..][..length];
    assert buf == [buf[0]] + content + buf[1..][length..];
    assert !list && length == 1 ==> content[0] == buf[1];
    assert EncodeHeader(list, length) == [buf[0]];
  }

  lemma LongIsCanonical(buf: Bytes, list: bool, k: nat)
    requires buf != [] && buf[0] == (if list then 247 else 183) + k && 0 < k <= 8 && DecodeLong(buf, list, k).Ok?
    requires FromBE(buf[1..1 + k]) < LIMIT
    ensures var length := FromBE(buf[1..1 + k]);
      var content := buf[1 + k..][..length];
      buf == (if list then EncodeList(content) else EncodeString(content)) + buf[1 + k..][length..]
  {
    hide BE, FromBE;
    var bytes := buf[1..1 + k];
    var length := FromBE(bytes);
    var tail := buf[1 + k..];
    BEInverse(bytes);
    assert EncodeHeader(list, length) == [buf[0]] + bytes;
    hide DecodeLong, EncodeHeader;
    assert buf == [buf[0]] + bytes + tail && tail == tail[..length] + tail[length..];
    assert [buf[0]] + bytes + tail == ([buf[0]] + bytes + tail[..length]) + tail[length..];
  }

  /** Whatever is extracted encodes back to the payload it came from. */
  lemma {:induction false} ItemsReencode(payload: Bytes)
    requires |payload| < LIMIT && Items(payload).Ok?
    ensures var txs := Items(payload).value;
      ValidTxs(txs) && Payload(txs) == payload && Slices(payload) == Ok(Encodings(txs))
    decreases |payload|
  {
    if payload != [] {
      var (h, rest) := Decode(payload).value;
      var after := rest[h.payloadLength..];
      ItemsReencode(after);
      DecodeIsCanonical(payload);
      var txs := Items(payload).value;
      assert txs[1..] == Items(after).value;
      forall t | t in txs ensures t.Valid() {
        if t != txs[0] {
          assert t in txs[1..];
        }
      }
      SlicesOfPayload(txs);
    }
  }

  /** An item read off the front, as a transaction would be. */
  lemma ReadItem(buf: Bytes) returns (item: Tx, rest: Bytes)
    requires |buf| < LIMIT && Decode(buf).Ok?
    ensures item.Valid() && buf == item.InBody() + rest && SkipItem(buf) == Ok(rest)
    ensures item.Legacy? <==> Decode(buf).value.0.list
    ensures item.Legacy? ==> DecodeListBytes(buf) == Ok((item.fields, rest))
  {
    var (h, after) := Decode(buf).value;
    var content := after[..h.payloadLength];
    rest := after[h.payloadLength..];
    DecodeIsCanonical(buf);
    item := if h.list then Legacy(content) else Typed(content);
  }

  /** Only encodings of blocks are accepted, and their transactions are what is returned. */
  lemma BlockIsCanonical(raw: Bytes) returns (header: Tx, txs: seq<Tx>, others: Bytes)
    requires |raw| < LIMIT && ExtractedBlock(raw).Ok?
    ensures header.Valid() && ValidTxs(txs) && |Payload(txs)| < LIMIT
    ensures |header.InBody() + EncodeList(Payload(txs)) + others| < LIMIT
    ensures raw == EncodeBlock(header, txs, others) && ExtractedBlock(raw) == Ok(Encodings(txs))
  {
    hide Decode, EncodeHeader, EncodeString, Payload, Encodings, Slices, Items;
    var block, none := ReadItem(raw);
    assert raw == block.InBody() && none == [] by { assert block.InBody() + [] == block.InBody(); }
    var inner := block.fields;
    var head, body := ReadItem(inner);
    var list, after := ReadItem(body);
    header, others := head, after;
    var payload := list.fields;
    ItemsOfSlices(payload);
    ItemsReencode(payload);
    txs := Items(payload).value;
    assert inner == header.InBody() + (EncodeList(payload) + others) == header.InBody() + EncodeList(payload) + others;
  }

  lemma {:induction false} ItemsOfSlices(payload: Bytes)
    requires Slices(payload).Ok?
    ensures Items(payload).Ok?
    decreases |payload|
  {
    if payload != [] {
      var h := Decode(payload).value;
      ItemsOfSlices(h.1[h.0.payloadLength..]);
    }
  }

  // ------------------------------------------------------------------- reorgs

  const REORG_NON_BLOB_TX_DROP_INTERVAL: nat := 10

  predicate IsBlob(encoded: Bytes) {
    encoded != [] && encoded[0] == 3
  }

  function NonBlob(encoded: seq<Bytes>): seq<Bytes> {
    if encoded == [] then []
    else NonBlob(encoded[..|encoded| - 1]) + if IsBlob(encoded[|encoded| - 1]) then [] else [encoded[|encoded| - 1]]
  }

  /** All but every tenth. */
  function NineOfTen(s: seq<Bytes>): seq<Bytes> {
    if s == [] then [] else NineOfTen(s[..|s| - 1]) + if |s| % 10 == 0 then [] else [s[|s| - 1]]
  }

  lemma NothingKept()
    ensures NonBlob([]) == [] && NineOfTen([]) == []
  {
  }

  /** What one more transaction adds. */
  lemma NextKept(all: seq<Bytes>, i: nat)
    requires i < |all|
    ensures var before, after := NonBlob(all[..i]), NonBlob(all[..i + 1]);
      if IsBlob(all[i]) then after == before
      else
        && after == before + [all[i]]
        && NineOfTen(after) == NineOfTen(before) + if |after| % 10 == 0 then [] else [all[i]]
  {
    hide IsBlob;
    assert all[..i + 1][..i] == all[..i];
    var before := NonBlob(all[..i]);
    assert before + [] == before;
    assert (before + [all[i]])[..|before|] == before;
  }

  method ExtractReorgTransactions(body: Bytes) returns (r: Result<seq<Bytes>, RlpError>)
    ensures r.Err? <==> Extracted(body).Err?
    ensures r.Err? ==> r.error == Extracted(body).error
    ensures r.Ok? ==> r.value == NineOfTen(NonBlob(Extracted(body).value))
  {
    var encoded := ExtractEncodedTxsFromBody(body);
    if encoded.Err? {
      return Err(encoded.error);
    }
    var all := encoded.value;
    var transactions: seq<Bytes> := [];
    var nonBlobTxs := 0;
    NothingKept();
    assert all[..0] == [];
    hide NonBlob, NineOfTen, IsBlob;
    for i := 0 to |all|
      invariant nonBlobTxs == |NonBlob(all[..i])| && transactions == NineOfTen(NonBlob(all[..i]))
    {
      NextKept(all, i);
      if IsBlob(all[i]) {
        continue;
      }
      nonBlobTxs := nonBlobTxs + 1;
      if nonBlobTxs % REORG_NON_BLOB_TX_DROP_INTERVAL != 0 {
        transactions := transactions + [all[i]];
      }
    }
    assert all[..|all|] == all;
    return Ok(transactions);
  }

  /** Of n transactions n - n/10 remain, and the i-th that remains was the (i + i/9)-th. */
  lemma {:induction false} NineOfTenKeeps(s: seq<Bytes>)
    ensures |NineOfTen(s)| == |s| - |s| / 10
    ensures forall i :: 0 <= i < |NineOfTen(s)| ==> i + i / 9 < |s| && NineOfTen(s)[i] == s[i + i / 9]
  {
    if s != [] {
      var n := |s| - 1;
      NineOfTenKeeps(s[..n]);
      var kept := NineOfTen(s[..n]);
      assert |kept| == n - n / 10;
      if |s| % 10 != 0 {
        LastKept(n);
      } else {
        assert NineOfTen(s) == kept;
      }
    }
  }

  lemma LastKept(n: nat)
    requires (n + 1) % 10 != 0
    ensures var i := n - n / 10; i + i / 9 == n
  {
    var q, r := n / 10, n % 10;
    assert n == 10 * q + r && r < 9;
    var i := 9 * q + r;
    assert i / 9 == q;
  }

  /** EIP-2718 type 3: the envelope of a typed transaction starts with the byte 3. */
  predicate CarriesBlobs(t: Tx) {
    t.Typed? && t.envelope != [] && t.envelope[0] == 3
  }

  /** The positions of the transactions without blobs, ascending. */
  ghost predicate PlainPositions(txs: seq<Tx>, ps: seq<nat>) {
    && (forall i, j :: 0 <= i < j < |ps| ==> ps[i] < ps[j])
    && (forall i :: 0 <= i < |ps| ==> ps[i] < |txs|)
    && (forall k: nat :: k in ps <==> k < |txs| && !CarriesBlobs(txs[k]))
  }

  lemma {:induction false} PlainPositionsExist(txs: seq<Tx>) returns (ps: seq<nat>)
    requires ValidTxs(txs)
    ensures PlainPositions(txs, ps) && |NonBlob(Encodings(txs))| == |ps|
    ensures forall i :: 0 <= i < |ps| ==> txs[ps[i]] in txs && NonBlob(Encodings(txs))[i] == txs[ps[i]].Encoded()
  {
    hide Encodings, IsBlob, CarriesBlobs, NonBlob, Tx.Encoded, PlainPositions;
    if txs == [] {
      ps := [];
      NoPositions();
    } else {
      var n := |txs| - 1;
      var t := txs[n];
      EncodingsLast(txs);
      var before := PlainPositionsExist(txs[..n]);
      BlobByte(t);
      var all := Encodings(txs);
      assert all[..|all| - 1] == Encodings(txs[..n]) && all[|all| - 1] == t.Encoded();
      NextNonBlob(all);
      NextPosition(txs, before);
      ps := if CarriesBlobs(t) then before else before + [n];
      forall i | 0 <= i < |ps| ensures ps[i] < |txs| && NonBlob(all)[i] == txs[ps[i]].Encoded() {
        if i < |before| {
          assert before[i] < n && txs[..n][before[i]] == txs[before[i]];
        }
      }
    }
  }

  lemma NoPositions()
    ensures PlainPositions([], []) && NonBlob(Encodings([])) == []
  {
  }

  lemma NextPosition(txs: seq<Tx>, before: seq<nat>)
    requires txs != [] && PlainPositions(txs[..|txs| - 1], before)
    ensures forall i :: 0 <= i < |before| ==> before[i] < |txs| - 1
    ensures PlainPositions(txs, if CarriesBlobs(txs[|txs| - 1]) then before else before + [|txs| - 1])
  {
    hide CarriesBlobs;
    var n := |txs| - 1;
    assert forall k: nat :: k < n ==> txs[..n][k] == txs[k];
    var after := before + [n];
    assert forall k :: k in after <==> k in before || k == n;
  }

  lemma NextNonBlob(all: seq<Bytes>)
    requires all != []
    ensures var before, last := NonBlob(all[..|all| - 1]), all[|all| - 1];
      NonBlob(all) == if IsBlob(last) then before else before + [last]
  {
  }

  lemma NoEncodings()
    ensures Encodings([]) == []
  {
  }

  lemma EncodingsFirst(txs: seq<Tx>)
    requires ValidTxs(txs) && txs != []
    ensures ValidTxs(txs[1..]) && txs[0].Valid() && Encodings(txs) == [txs[0].Encoded()] + Encodings(txs[1..])
  {
    hide Tx.Encoded, Tx.Valid;
    assert txs[0] in txs && forall t :: t in txs[1..] ==> t in txs;
  }

  lemma {:induction false} EncodingsLast(txs: seq<Tx>)
    requires ValidTxs(txs) && txs != []
    ensures var n := |txs| - 1;
      ValidTxs(txs[..n]) && txs[n].Valid() && Encodings(txs) == Encodings(txs[..n]) + [txs[n].Encoded()]
  {
    hide Tx.Encoded, Tx.Valid, Encodings;
    var n := |txs| - 1;
    assert txs[n] in txs && forall x :: x in txs[..n] ==> x in txs;
    EncodingsFirst(txs);
    if n > 0 {
      assert forall x :: x in txs[1..] ==> x in txs;
      EncodingsLast(txs[1..]);
      EncodingsFirst(txs[..n]);
      assert txs[1..][..n - 1] == txs[..n][1..];
    } else {
      NoEncodings();
      assert txs[..0] == [] && txs[1..] == [];
    }
  }

  /** The list of a legacy transaction starts above the types of EIP-2718. */
  lemma BlobByte(t: Tx)
    requires t.Valid()
    ensures IsBlob(t.Encoded()) <==> CarriesBlobs(t)
  {
    if t.Legacy? {
      assert t.Encoded()[0] >= 192;
    }
  }

  /** The synthetic fork keeps the transactions of the block without blobs, in order, but for every tenth of them. */
  lemma ReorgRoundTrip(txs: seq<Tx>, others: Bytes) returns (ps: seq<nat>)
    requires ValidTxs(txs) && |Payload(txs)| < LIMIT
    ensures PlainPositions(txs, ps)
    ensures var body := EncodeList(Payload(txs)) + others;
      && Extracted(body) == Ok(Encodings(txs))
      && (var left := NineOfTen(NonBlob(Encodings(txs)));
          && |left| == |ps| - |ps| / 10
          && forall i :: 0 <= i < |left| ==> i + i / 9 < |ps| && left[i] == txs[ps[i + i / 9]].Encoded())
  {
    BodyRoundTrip(txs, others);
    ps := PlainPositionsExist(txs);
    NineOfTenKeeps(NonBlob(Encodings(txs)));
    hide Extracted, EncodeList, NineOfTen, NonBlob, Encodings, Payload;
  }
}
