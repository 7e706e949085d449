/** The length-prefixed private IPC frames of apps/vscode/src/managed.ts: an
    incremental parser fed arbitrary chunks, and the encoder of the other end.
    JSON decoding is a parameter that may reject a frame. */
module PrivateFrames {
  import opened Wrappers

  type byte = x: int | 0 <= x < 0x100
  type Bytes = seq<byte>

  const MAX_FRAME: nat := 2 * 1024 * 1024

  /** How a push ends: it returns and waits for more bytes, or it throws. */
  datatype Outcome = Waiting | BadHeader | BadJson

  datatype Parsed<V> = Parsed(values: seq<V>, rest: Bytes, outcome: Outcome)
  {
    /** The same after other values. */
    function After(earlier: seq<V>): Parsed<V> {
      this.(values := earlier + values)
    }
  }

  lemma AfterAfter<V>(a: seq<V>, b: seq<V>, p: Parsed<V>)
    ensures p.After(b).After(a) == p.After(a + b)
  {
    assert a + (b + p.values) == a + b + p.values;
  }

  function ReadUInt32BE(b: Bytes): (n: nat)
    requires |b| >= 4
  {
    ((b[0] as int * 0x100 + b[1] as int) * 0x100 + b[2] as int) * 0x100 + b[3] as int
  }

  function WriteUInt32BE(n: nat): (b: Bytes)
    requires n < 0x1_0000_0000
    ensures |b| == 4 && ReadUInt32BE(b) == n
  {
    var upper := n / 0x100;
    var top := upper / 0x100;
    [top / 0x100, top % 0x100, upper % 0x100, n % 0x100]
  }

  /** The header is the length in four bytes, the most significant first. */
  lemma HeaderBytes(n: nat)
    requires n < 0x1_0000_0000
    ensures var b := WriteUInt32BE(n);
            && b[0] == n / 0x100_0000 && b[1] == n / 0x1_0000 % 0x100
            && b[2] == n / 0x100 % 0x100 && b[3] == n % 0x100
  {
    assert n / 0x100 / 0x100 == n / 0x1_0000;
    assert n / 0x100 / 0x100 / 0x100 == n / 0x100_0000;
  }

  /** And it reads as such. */
  lemma HeaderValue(b: Bytes)
    requires |b| >= 4
    ensures ReadUInt32BE(b)
         == b[0] as int * 0x100_0000 + b[1] as int * 0x1_0000 + b[2] as int * 0x100 + b[3] as int
  {
  }

  function Encode(payload: Bytes): Bytes
    requires |payload| <= MAX_FRAME
  {
    WriteUInt32BE(|payload|) + payload
  }

  predicate Sendable(payloads: seq<Bytes>) {
    forall i :: 0 <= i < |payloads| ==> 0 < |payloads[i]| <= MAX_FRAME
  }

  function EncodeAll(payloads: seq<Bytes>): Bytes
    requires Sendable(payloads)
  {
    if payloads == [] then [] else Encode(payloads[0]) + EncodeAll(payloads[1..])
  }

  /** What the head of the stream shows: too few bytes, a header announcing an empty or
      oversized frame, or one whole frame and what follows it. */
  datatype Head = Partial | Invalid | Frame(payload: Bytes, tail: Bytes)

  function Next(s: Bytes): (h: Head)
    ensures h.Frame? ==> |h.tail| < |s|
    ensures h.Partial? ==> |s| < MAX_FRAME + 4
    ensures h.Invalid? ==> |s| >= 4
  {
    if |s| < 4 then Partial
    else
      var size := ReadUInt32BE(s[..4]);
      if size == 0 || size > MAX_FRAME then Invalid
      else if |s| < size + 4 then Partial
      else
        Frame(s[4..size + 4], s[size + 4..])
  }

  /** A stream shows a bad header exactly when its first four bytes announce nothing or more
      than two megabytes, and a frame when they announce at most what follows them. */
  lemma HeadsExactlyWhen(s: Bytes)
    ensures var size := if |s| >= 4 then s[0] as int * 0x100_0000 + s[1] as int * 0x1_0000 + s[2] as int * 0x100
                                         + s[3] as int else 0;
            && (Next(s).Invalid? <==> |s| >= 4 && (size == 0 || size > 2_097_152))
            && (Next(s).Frame? <==> |s| >= 4 && 0 < size <= 2_097_152 && size + 4 <= |s|)
            && (Next(s).Frame? ==> Next(s).payload == s[4..4 + size] && Next(s).tail == s[4 + size..])
  {
    if |s| >= 4 {
      HeaderValue(s[..4]);
    }
  }

  /** What one push delivers from all the bytes it can see. */
  function Parse<V>(decode: Bytes -> Option<V>, s: Bytes): (p: Parsed<V>)
    ensures p.outcome == Waiting ==> Next(p.rest) == Partial
    ensures p.outcome == BadHeader ==> Next(p.rest) == Invalid
    decreases |s|
  {
    match Next(s)
    case Partial => Parsed([], s, Waiting)
    case Invalid => Parsed([], s, BadHeader)
    case Frame(payload, tail) =>
      match decode(payload)
      case None => Parsed([], tail, BadJson)
      case Some(v) =>
        Parse(decode, tail).After([v])
  }

  class PrivateFrames<V(!new)> {
    const decode: Bytes -> Option<V>
    var pending: Bytes
    var received: seq<V>  // the values handed to the receive callback so far

    constructor (decode: Bytes -> Option<V>)
      ensures this.decode == decode && pending == [] && received == []
    {
      this.decode := decode;
      pending, received := [], [];
    }

    method Push(chunk: Bytes) returns (outcome: Outcome)
      modifies this
      ensures Parsed(received, pending, outcome) == Parse(decode, old(pending) + chunk).After(old(received))
    {
      hide Parse, Next, ReadUInt32BE;
      pending := pending + chunk;
      ghost var goal := Parse(decode, pending).After(received);
      while |pending| >= 4
        invariant Parse(decode, pending).After(received) == goal
        decreases |pending|
      {
        NextByHeader(pending);
        var size := ReadUInt32BE(pending[..4]);
        if size == 0 || size > MAX_FRAME {
          NothingMore(decode, pending, received);
          return BadHeader;
        }
        if |pending| < size + 4 {
          break;
        }
        ParseOne(decode, pending, received);
        var frame := pending[4..size + 4];
        pending := pending[size + 4..];
        match decode(frame) {
          case None =>
            return BadJson;
          case Some(value) =>
            received := received + [value];
        }
      }
      if |pending| > MAX_FRAME + 4 {
        assert false;  // the final overflow guard of the source cannot fire
      }
      ShortIsPartial(pending);
      NothingMore(decode, pending, received);
      return Waiting;
    }
  }

  lemma ShortIsPartial(s: Bytes)
    ensures |s| < 4 ==> Next(s) == Partial
  {
  }

  lemma NextByHeader(s: Bytes)
    requires |s| >= 4
    ensures var size := ReadUInt32BE(s[..4]);
            Next(s) == if size == 0 || size > MAX_FRAME then Invalid
                       else if |s| < size + 4 then Partial
                       else Frame(s[4..size + 4], s[size + 4..])
  {
  }

  lemma NothingMore<V>(decode: Bytes -> Option<V>, s: Bytes, received: seq<V>)
    requires !Next(s).Frame?
    ensures Parse(decode, s).After(received) == Parsed(received, s, if Next(s).Invalid? then BadHeader else Waiting)
  {
    assert received + [] == received;
  }

  lemma ParseOne<V>(decode: Bytes -> Option<V>, s: Bytes, received: seq<V>)
    requires Next(s).Frame?
    ensures var v := decode(Next(s).payload);
            Parse(decode, s).After(received)
            == if v.None? then Parsed(received, Next(s).tail, BadJson)
               else Parse(decode, Next(s).tail).After(received + [v.value])
  {
    var v := decode(Next(s).payload);
    if v.Some? {
      AfterAfter(received, [v.value], Parse(decode, Next(s).tail));
    } else {
      assert received + [] == received;
    }
  }

  // ----- one push after another -----

  /** Bytes that follow a whole frame, or a bad header, do not change how it reads. */
  lemma NextAppend(s: Bytes, t: Bytes)
    ensures Next(s).Invalid? ==> Next(s + t).Invalid?
    ensures Next(s).Frame? ==> Next(s + t) == Next(s).(tail := Next(s).tail + t)
  {
    if |s| >= 4 {
      assert (s + t)[..4] == s[..4];
      var n := ReadUInt32BE(s[..4]) + 4;
      if n <= |s| {
        assert (s + t)[4..n] == s[4..n] && (s + t)[n..] == s[n..] + t;
      }
    }
  }

  lemma {:induction false} ParseAppend<V>(decode: Bytes -> Option<V>, s: Bytes, t: Bytes)
    ensures var p := Parse(decode, s);
            var q := Parse(decode, p.rest + t);
            Parse(decode, s + t) ==
            if p.outcome == Waiting then q.After(p.values) else p.(rest := p.rest + t)
    decreases |s|
  {
    NextAppend(s, t);
    match Next(s) {
      case Partial =>
        assert [] + Parse(decode, s + t).values == Parse(decode, s + t).values;
      case Frame(payload, tail) =>
        if decode(payload).Some? {
          ParseAppend(decode, tail, t);
          var p := Parse(decode, tail);
          AfterAfter([decode(payload).value], p.values, Parse(decode, p.rest + t));
        }
      case _ =>
    }
  }

  function Concat(chunks: seq<Bytes>): Bytes {
    if chunks == [] then [] else chunks[0] + Concat(chunks[1..])
  }

  /** Pushing the chunks in order and giving up at the first throw; rest holds what
      is pending followed by the chunks not read. */
  function PushUntilThrow<V>(decode: Bytes -> Option<V>, pending: Bytes, chunks: seq<Bytes>): Parsed<V>
    decreases |chunks|
  {
    if chunks == [] then Parsed([], pending, Waiting)
    else
      var p := Parse(decode, pending + chunks[0]);
      if p.outcome != Waiting then p.(rest := p.rest + Concat(chunks[1..]))
      else
        var q := PushUntilThrow(decode, p.rest, chunks[1..]);
        q.After(p.values)
  }

  /** The listener of the source keeps pushing after a throw; outcome says how the last
      push ended. */
  function PushAll<V>(decode: Bytes -> Option<V>, pending: Bytes, chunks: seq<Bytes>): Parsed<V>
    decreases |chunks|
  {
    if chunks == [] then Parsed([], pending, Waiting)
    else
      var p := Parse(decode, pending + chunks[0]);
      if chunks[1..] == [] then p
      else
        var q := PushAll(decode, p.rest, chunks[1..]);
        q.After(p.values)
  }

  /** Up to the first throw, every way of cutting a stream into chunks delivers the same
      values, leaves the same bytes and throws the same error as one push of the whole. */
  lemma {:induction false} ChunkingInvariance<V>(decode: Bytes -> Option<V>, pending: Bytes, chunks: seq<Bytes>)
    requires Next(pending) == Partial
    ensures PushUntilThrow(decode, pending, chunks) == Parse(decode, pending + Concat(chunks))
    decreases |chunks|
  {
    if chunks == [] {
      assert pending + Concat(chunks) == pending;
    } else {
      var s, t := pending + chunks[0], Concat(chunks[1..]);
      assert pending + Concat(chunks) == s + t;
      ParseAppend(decode, s, t);
      if Parse(decode, s).outcome == Waiting {
        ChunkingInvariance(decode, Parse(decode, s).rest, chunks[1..]);
      }
    }
  }

  /** A bad header is never consumed: every later push fails on it and delivers nothing. */
  lemma BadHeaderIsSticky<V>(decode: Bytes -> Option<V>, pending: Bytes, chunk: Bytes)
    requires Next(pending) == Invalid
    ensures Parse(decode, pending + chunk) == Parsed([], pending + chunk, BadHeader)
  {
    NextAppend(pending, chunk);
  }

  lemma {:induction false} PushAllAfterBadHeader<V>(decode: Bytes -> Option<V>, pending: Bytes, chunks: seq<Bytes>)
    requires Next(pending) == Invalid
    ensures var q := PushAll(decode, pending, chunks);
            q.values == [] && q.rest == pending + Concat(chunks) && (chunks != [] ==> q.outcome == BadHeader)
    decreases |chunks|
  {
    if chunks != [] {
      var s := pending + chunks[0];
      BadHeaderIsSticky(decode, pending, chunks[0]);
      assert pending + Concat(chunks) == s + Concat(chunks[1..]);
      PushAllAfterBadHeader(decode, s, chunks[1..]);
    }
  }

  /** All values the stream holds when a frame whose JSON is bad is stepped over. */
  function Eventual<V>(decode: Bytes -> Option<V>, s: Bytes): seq<V>
    decreases |s|
  {
    match Next(s)
    case Frame(payload, tail) =>
      (match decode(payload) case None => [] case Some(v) => [v]) + Eventual(decode, tail)
    case _ => []
  }

  lemma {:induction false} EventualAfterParse<V>(decode: Bytes -> Option<V>, s: Bytes, t: Bytes)
    ensures Eventual(decode, s + t)
         == Parse(decode, s).values + Eventual(decode, Parse(decode, s).rest + t)
    decreases |s|
  {
    NextAppend(s, t);
    match Next(s) {
      case Frame(payload, tail) =>
        if decode(payload).Some? {
          EventualAfterParse(decode, tail, t);
          var p := Parse(decode, tail);
          var v, e := decode(payload).value, Eventual(decode, p.rest + t);
          assert [v] + (p.values + e) == [v] + p.values + e;
        }
      case _ =>
    }
  }

  /** Pushing on after a throw loses and repeats nothing: what has been delivered, and
      what the pending bytes still hold, are together the values of the whole stream. */
  lemma {:induction false} DeliveryIsConserved<V>(decode: Bytes -> Option<V>, pending: Bytes, chunks: seq<Bytes>)
    ensures var q := PushAll(decode, pending, chunks);
            q.values + Eventual(decode, q.rest) == Eventual(decode, pending + Concat(chunks))
    decreases |chunks|
  {
    if chunks == [] {
      assert pending + Concat(chunks) == pending;
    } else {
      var s, t := pending + chunks[0], Concat(chunks[1..]);
      assert pending + Concat(chunks) == s + t;
      EventualAfterParse(decode, s, t);
      if chunks[1..] == [] {
        assert t == [];
        assert Parse(decode, s).rest + t == Parse(decode, s).rest;
      } else {
        DeliveryIsConserved(decode, Parse(decode, s).rest, chunks[1..]);
      }
    }
  }

  /** Whatever the chunking, the values before the first bad frame are delivered first. */
  lemma {:induction false} PushAllDeliversFirstRun<V>(decode: Bytes -> Option<V>, pending: Bytes, chunks: seq<Bytes>)
    requires Next(pending) == Partial
    ensures Parse(decode, pending + Concat(chunks)).values <= PushAll(decode, pending, chunks).values
    decreases |chunks|
  {
    if chunks == [] {
      assert pending + Concat(chunks) == pending;
    } else {
      var s, t := pending + chunks[0], Concat(chunks[1..]);
      assert pending + Concat(chunks) == s + t;
      ParseAppend(decode, s, t);
      if chunks[1..] == [] {
        assert s + t == s;
      } else if Parse(decode, s).outcome == Waiting {
          PushAllDeliversFirstRun(decode, Parse(decode, s).rest, chunks[1..]);
      }
    }
  }

  /** No frame of the stream can be decoded. */
  predicate NoGood<V>(decode: Bytes -> Option<V>, s: Bytes)
    decreases |s|
  {
    match Next(s)
    case Frame(payload, tail) => decode(payload).None? && NoGood(decode, tail)
    case _ => true
  }

  /** No good frame follows a frame whose JSON is bad. */
  predicate NoGoodAfterBad<V>(decode: Bytes -> Option<V>, s: Bytes)
    decreases |s|
  {
    match Next(s)
    case Frame(payload, tail) => if decode(payload).None? then NoGood(decode, tail) else NoGoodAfterBad(decode, tail)
    case _ => true
  }

  lemma {:induction false} NoGoodIsEmpty<V>(decode: Bytes -> Option<V>, s: Bytes)
    ensures NoGood(decode, s) <==> Eventual(decode, s) == []
    decreases |s|
  {
    match Next(s) {
      case Frame(_, tail) => NoGoodIsEmpty(decode, tail);
      case _ =>
    }
  }

  lemma {:induction false} FirstRunIsAll<V>(decode: Bytes -> Option<V>, s: Bytes)
    ensures NoGoodAfterBad(decode, s) <==> Parse(decode, s).values == Eventual(decode, s)
    decreases |s|
  {
    match Next(s) {
      case Frame(payload, tail) =>
        NoGoodIsEmpty(decode, tail);
        FirstRunIsAll(decode, tail);
        if decode(payload).Some? {
          var v, a, b := decode(payload).value, Parse(decode, tail).values, Eventual(decode, tail);
          assert ([v] + a)[1..] == a && ([v] + b)[1..] == b;
        }
      case _ =>
    }
  }

  /** The stream one byte at a time. */
  function ByteByByte(s: Bytes): seq<Bytes> {
    if s == [] then [] else [[s[0]]] + ByteByByte(s[1..])
  }

  lemma {:induction false} BytesConcat(s: Bytes)
    ensures Concat(ByteByByte(s)) == s
  {
    if s != [] {
      BytesConcat(s[1..]);
    }
  }

  /** One more byte completes at most one frame, and leaves nothing behind it. */
  lemma OneMoreByte(pending: Bytes, b: byte)
    requires Next(pending) == Partial && Next(pending + [b]).Frame?
    ensures Next(pending + [b]).tail == []
  {
    var s := pending + [b];
    if |pending| >= 4 {
      assert s[..4] == pending[..4];
    }
  }

  lemma {:induction false} BytesDeliverAll<V>(decode: Bytes -> Option<V>, pending: Bytes, s: Bytes)
    requires Next(pending) == Partial
    ensures PushAll(decode, pending, ByteByByte(s)).values == Eventual(decode, pending + s)
    decreases |s|
  {
    if s == [] {
      assert pending + s == pending;
    } else {
      var chunks, more := ByteByByte(s), pending + [s[0]];
      assert pending + s == more + s[1..] && chunks[1..] == ByteByByte(s[1..]);
      EventualAfterParse(decode, more, s[1..]);
      ParseOneByte(decode, pending, s[0]);
      var p := Parse(decode, more);
      if s[1..] == [] {
        assert p.rest + s[1..] == p.rest;
      } else if p.outcome == BadHeader {
        PushAllAfterBadHeader(decode, p.rest, chunks[1..]);
        NextAppend(p.rest, s[1..]);
      } else {
        BytesDeliverAll(decode, p.rest, s[1..]);
      }
    }
  }

  lemma ParseOneByte<V>(decode: Bytes -> Option<V>, pending: Bytes, b: byte)
    requires Next(pending) == Partial
    ensures var p := Parse(decode, pending + [b]);
            if p.outcome == BadHeader then Next(p.rest) == Invalid && p.values == []
            else Next(p.rest) == Partial && Eventual(decode, p.rest) == []
  {
    if Next(pending + [b]).Frame? {
      OneMoreByte(pending, b);
    }
  }

  lemma OneChunk<V>(decode: Bytes -> Option<V>, s: Bytes)
    ensures Concat([s]) == s && PushAll(decode, [], [s]) == Parse(decode, s)
  {
    assert [s][1..] == [] && [] + s == s && s + [] == s;
  }

  ghost predicate SameForAllChunkings<V(!new)>(decode: Bytes -> Option<V>, s: Bytes) {
    forall a, b | Concat(a) == s && Concat(b) == s :: PushAll(decode, [], a).values == PushAll(decode, [], b).values
  }

  /** With a listener that keeps pushing, what is delivered is independent of the chunking
      exactly when no good frame follows a frame whose JSON is bad. */
  lemma PushingOnIsChunkingInvariant<V(!new)>(decode: Bytes -> Option<V>, s: Bytes)
    ensures SameForAllChunkings(decode, s) <==> NoGoodAfterBad(decode, s)
  {
    FirstRunIsAll(decode, s);
    if SameForAllChunkings(decode, s) {
      OneChunk(decode, s);
      BytesConcat(s);
      BytesDeliverAll(decode, [], s);
      assert [] + s == s;
      assert PushAll(decode, [], [s]).values == PushAll(decode, [], ByteByByte(s)).values;
    }
    if NoGoodAfterBad(decode, s) {
      forall a | Concat(a) == s ensures PushAll(decode, [], a).values == Eventual(decode, s) {
        DeliversAll(decode, s, a);
      }
    }
  }

  lemma DeliversAll<V>(decode: Bytes -> Option<V>, s: Bytes, chunks: seq<Bytes>)
    requires Concat(chunks) == s && Parse(decode, s).values == Eventual(decode, s)
    ensures PushAll(decode, [], chunks).values == Eventual(decode, s)
  {
    hide Eventual, Parse, PushAll, Concat;
    assert [] + s == s;
    DeliveryIsConserved(decode, [], chunks);
    PushAllDeliversFirstRun(decode, [], chunks);
  }

  // ----- round trip -----

  predicate Decodable<V>(decode: Bytes -> Option<V>, payloads: seq<Bytes>) {
    forall i :: 0 <= i < |payloads| ==> decode(payloads[i]).Some?
  }

  function DecodeAll<V>(decode: Bytes -> Option<V>, payloads: seq<Bytes>): seq<V>
    requires Decodable(decode, payloads)
  {
    if payloads == [] then [] else [decode(payloads[0]).value] + DecodeAll(decode, payloads[1..])
  }

  lemma NextOfEncoded(payload: Bytes, tail: Bytes)
    requires 0 < |payload| <= MAX_FRAME
    ensures Next(Encode(payload) + tail) == Frame(payload, tail)
  {
    var s := WriteUInt32BE(|payload|) + payload + tail;
    assert s[..4] == WriteUInt32BE(|payload|);
    assert s[4..|payload| + 4] == payload && s[|payload| + 4..] == tail;
  }

  /** Parsing encoded payloads gives back their values and goes on with what follows. */
  lemma {:induction false} RoundTrip<V>(decode: Bytes -> Option<V>, payloads: seq<Bytes>, more: Bytes)
    requires Sendable(payloads) && Decodable(decode, payloads)
    ensures var q := Parse(decode, more);
            Parse(decode, EncodeAll(payloads) + more) == q.After(DecodeAll(decode, payloads))
  {
    if payloads == [] {
      assert EncodeAll(payloads) + more == more;
    } else {
      var tail := EncodeAll(payloads[1..]) + more;
      assert EncodeAll(payloads) + more == Encode(payloads[0]) + tail;
      NextOfEncoded(payloads[0], tail);
      RoundTrip(decode, payloads[1..], more);
      AfterAfter([decode(payloads[0]).value], DecodeAll(decode, payloads[1..]), Parse(decode, more));
    }
  }

  /** The other direction: what is parsed was encoded, and the rest holds no whole frame. */
  lemma {:induction false} ParsedBytesWereEncoded<V>(decode: Bytes -> Option<V>, s: Bytes)
      returns (payloads: seq<Bytes>)
    requires Parse(decode, s).outcome != BadJson
    ensures Sendable(payloads) && Decodable(decode, payloads)
    ensures s == EncodeAll(payloads) + Parse(decode, s).rest && !Next(Parse(decode, s).rest).Frame?
    ensures Parse(decode, s).values == DecodeAll(decode, payloads)
    decreases |s|
  {
    payloads := [];
    match Next(s) {
      case Frame(payload, tail) =>
        NextWasEncoded(s);
        var later := ParsedBytesWereEncoded(decode, tail);
        payloads := [payload] + later;
        OneMore(decode, payload, later);
        EncodeMore(payload, later, Parse(decode, tail).rest);
      case _ =>
    }
  }

  lemma OneMore<V>(decode: Bytes -> Option<V>, payload: Bytes, later: seq<Bytes>)
    requires 0 < |payload| <= MAX_FRAME && Sendable(later) && decode(payload).Some? && Decodable(decode, later)
    ensures Sendable([payload] + later) && Decodable(decode, [payload] + later)
    ensures DecodeAll(decode, [payload] + later) == [decode(payload).value] + DecodeAll(decode, later)
  {
    assert ([payload] + later)[1..] == later;
  }

  lemma EncodeMore(payload: Bytes, later: seq<Bytes>, rest: Bytes)
    requires 0 < |payload| <= MAX_FRAME && Sendable(later) && Sendable([payload] + later)
    ensures EncodeAll([payload] + later) + rest == Encode(payload) + (EncodeAll(later) + rest)
  {
    assert ([payload] + later)[1..] == later;
  }

  lemma NextWasEncoded(s: Bytes)
    requires Next(s).Frame?
    ensures 0 < |Next(s).payload| <= MAX_FRAME && s == Encode(Next(s).payload) + Next(s).tail
  {
    HeaderOf(s[..4]);
  }

  lemma HeaderOf(b: Bytes)
    requires |b| == 4
    ensures WriteUInt32BE(ReadUInt32BE(b)) == b
  {
    var n := ReadUInt32BE(b);
    assert n / 0x100 == (b[0] as int * 0x100 + b[1] as int) * 0x100 + b[2] as int;
    assert n / 0x100 / 0x100 == b[0] as int * 0x100 + b[1] as int;
  }

  /** A bad frame and then a good one: in one chunk nothing is delivered, in two the value. */
  lemma BadThenGood<V>(decode: Bytes -> Option<V>, bad: Bytes, good: Bytes)
    requires 0 < |bad| <= MAX_FRAME && 0 < |good| <= MAX_FRAME && decode(bad).None? && decode(good).Some?
    ensures PushAll(decode, [], [Encode(bad) + Encode(good)]).values == []
    ensures PushAll(decode, [], [Encode(bad), Encode(good)]).values == [decode(good).value]
    ensures Concat([Encode(bad), Encode(good)]) == Encode(bad) + Encode(good)
  {
    var x, y := Encode(bad), Encode(good);
    NextOfEncoded(bad, y);
    NextOfEncoded(bad, []);
    NextOfEncoded(good, []);
    OneChunk(decode, x + y);
    assert x + [] == x && y + [] == y && [] + x == x && [] + y == y;
    assert [x, y][1..] == [y];
    OneChunk(decode, y);
    assert Parse(decode, y).values == [decode(good).value];
  }
}
