/**
 Length-prefixed framing between hub and agent: the Rust side
 (crates/lasterm-agent/src/framing.rs) and the TypeScript side
 (packages/shared/src/framing.ts). A payload's MessagePack decoder is a
 parameter `decode`; None is a payload it rejects.
 */
module Framing {
  import opened Prelude

  type Bytes = seq<Byte>

  const MAX_FRAME_SIZE: nat := 10 * 1024 * 1024
  const U32: nat := 0x1_0000_0000

  // ----- the little-endian header

  function Le32(n: nat): (r: Bytes)
    requires n < U32
    ensures |r| == 4
  {
    [(n % 256) as Byte, (n / 256 % 256) as Byte, (n / 256 / 256 % 256) as Byte, (n / 256 / 256 / 256) as Byte]
  }

  function FromLe32(b: Bytes): (n: nat)
    requires |b| >= 4
    ensures n < U32
  {
    b[0] as nat + 256 * (b[1] as nat + 256 * (b[2] as nat + 256 * b[3] as nat))
  }

  lemma HeaderRoundTrip(n: nat, rest: Bytes)
    requires n < U32
    ensures FromLe32(Le32(n) + rest) == n
  {
    var b := Le32(n) + rest;
    assert b[0] == Le32(n)[0] && b[1] == Le32(n)[1] && b[2] == Le32(n)[2] && b[3] == Le32(n)[3];
  }

  /** The header's bytes are the base-256 digits of the length, the least significant first. */
  lemma {:induction false} HeaderIsLittleEndian(n: nat)
    requires n < U32
    ensures var b := Le32(n); n == b[0] as nat + 0x100 * b[1] as nat + 0x1_0000 * b[2] as nat + 0x100_0000 * b[3] as nat
  {
    var a := n / 256;
    var c := a / 256;
    assert n == 256 * a + n % 256 && a == 256 * c + a % 256 && c == 256 * (c / 256) + c % 256;
  }

  // ----- what a stream contains

  /** The complete payloads of a stream, the bytes after them, and whether these
      start with a header that announces too long a frame. */
  datatype Parsed = Parsed(payloads: seq<Bytes>, rest: Bytes, oversized: bool)

  function Parse(buf: Bytes): (p: Parsed)
    ensures |p.rest| <= |buf|
    decreases |buf|
  {
    if |buf| < 4 then Parsed([], buf, false)
    else
      var len := FromLe32(buf);
      if len > MAX_FRAME_SIZE then Parsed([], buf, true)
      else if |buf| < 4 + len then Parsed([], buf, false)
      else
        var tail := Parse(buf[4 + len..]);
        tail.(payloads := [buf[4..4 + len]] + tail.payloads)
  }

  /** The result of a parse when more bytes arrive. */
  function Continue(p: Parsed, more: Bytes): Parsed {
    if p.oversized then Parsed(p.payloads, p.rest + more, true)
    else var q := Parse(p.rest + more); Parsed(p.payloads + q.payloads, q.rest, q.oversized)
  }

  lemma ContinueAfterFrame(payload: Bytes, tail: Parsed, more: Bytes)
    ensures var c := Continue(tail, more);
            Continue(tail.(payloads := [payload] + tail.payloads), more) == c.(payloads := [payload] + c.payloads)
  {
    var q := Parse(tail.rest + more);
    assert [payload] + tail.payloads + q.payloads == [payload] + (tail.payloads + q.payloads);
  }

  /** Parsing a longer stream continues where parsing its prefix stopped. */
  lemma {:induction false} ParseContinues(a: Bytes, b: Bytes)
    ensures Parse(a + b) == Continue(Parse(a), b)
    decreases |a|
  {
    if |a| >= 4 && FromLe32(a) <= MAX_FRAME_SIZE && |a| >= 4 + FromLe32(a) {
      var len := FromLe32(a);
      assert (a + b)[4 + len..] == a[4 + len..] + b;
      assert (a + b)[4..4 + len] == a[4..4 + len];
      ParseContinues(a[4 + len..], b);
      ContinueAfterFrame(a[4..4 + len], Parse(a[4 + len..]), b);
    } else {
      assert Parse(a).rest == a;
      assert [] + Parse(a + b).payloads == Parse(a + b).payloads;
    }
  }

  /** The leftover is less than one frame, so a reader's buffer is bounded. */
  lemma {:induction false} LeftoverIsPartial(buf: Bytes)
    requires !Parse(buf).oversized
    ensures |Parse(buf).rest| < 4 + MAX_FRAME_SIZE
    ensures Parse(Parse(buf).rest) == Parsed([], Parse(buf).rest, false)
    decreases |buf|
  {
    if |buf| >= 4 && FromLe32(buf) <= MAX_FRAME_SIZE && |buf| >= 4 + FromLe32(buf) {
      LeftoverIsPartial(buf[4 + FromLe32(buf)..]);
    }
  }

  // ----- encoders

  /** The Rust encoder narrows the length to 32 bits before it compares. */
  function EncodeRust(payload: Bytes): Option<Bytes> {
    var len := |payload| % U32;
    if len > MAX_FRAME_SIZE then None else Some(Le32(len) + payload)
  }

  function EncodeTs(payload: Bytes): Option<Bytes> {
    if |payload| > MAX_FRAME_SIZE then None else Some(Le32(|payload|) + payload)
  }

  function Frame(payload: Bytes): Bytes
    requires |payload| <= MAX_FRAME_SIZE
  {
    Le32(|payload|) + payload
  }

  /** Within the limit both encoders produce the same frame; beyond it the hub refuses. */
  lemma {:induction false} EncodersAgree(payload: Bytes)
    ensures |payload| <= 10_485_760 ==> EncodeRust(payload) == EncodeTs(payload) == Some(Frame(payload))
    ensures EncodeTs(payload).Some? <==> |payload| <= 10_485_760
  {
    hide Le32;
    assert MAX_FRAME_SIZE == 10_485_760 < U32;
  }

  lemma FrameThenStream(payload: Bytes, stream: Bytes)
    requires |payload| <= MAX_FRAME_SIZE
    ensures var p := Parse(stream); Parse(Frame(payload) + stream) == Parsed([payload] + p.payloads, p.rest, p.oversized)
  {
    var buf := Frame(payload) + stream;
    HeaderRoundTrip(|payload|, payload + stream);
    assert buf == Le32(|payload|) + (payload + stream);
    assert buf[4..4 + |payload|] == payload;
    assert buf[4 + |payload|..] == stream;
  }

  ghost predicate WithinLimit(payloads: seq<Bytes>) {
    forall i :: 0 <= i < |payloads| ==> |payloads[i]| <= MAX_FRAME_SIZE
  }

  ghost function FrameAll(payloads: seq<Bytes>): Bytes
    requires WithinLimit(payloads)
  {
    if payloads == [] then [] else Frame(payloads[0]) + FrameAll(payloads[1..])
  }

  /** Frames of payloads within the limit decode back, in order, with nothing left over. */
  lemma {:induction false} RoundTrip(payloads: seq<Bytes>)
    requires WithinLimit(payloads)
    ensures Parse(FrameAll(payloads)) == Parsed(payloads, [], false)
  {
    if payloads != [] {
      RoundTrip(payloads[1..]);
      FrameThenStream(payloads[0], FrameAll(payloads[1..]));
      assert [payloads[0]] + payloads[1..] == payloads;
    }
  }

  lemma FrameReadsBack(payload: Bytes)
    requires |payload| <= MAX_FRAME_SIZE
    ensures Parse(Frame(payload)) == Parsed([payload], [], false)
  {
    FrameThenStream(payload, []);
    assert Frame(payload) + [] == Frame(payload);
  }

  /** A narrowed length announces a different payload. */
  lemma CutFrameReadsWrong(payload: Bytes)
    requires |payload| > MAX_FRAME_SIZE && EncodeRust(payload).Some?
    ensures Parse(EncodeRust(payload).value).payloads != []
    ensures Parse(EncodeRust(payload).value).payloads[0] == payload[..|payload| % U32] != payload
  {
    var len := |payload| % U32;
    var frame := Le32(len) + payload;
    HeaderRoundTrip(len, payload);
    assert len < |payload|;
    assert frame[4..4 + len] == payload[..len];
  }

  /** A single Rust frame reads back as its payload exactly when the payload is
      within the limit: longer ones are refused or, from 4 GiB on, may be cut. */
  lemma RustRoundTripIsExact(payload: Bytes)
    ensures (EncodeRust(payload).Some? && Parse(EncodeRust(payload).value) == Parsed([payload], [], false)) <==> |payload| <= 10_485_760
  {
    EncodersAgree(payload);
    if |payload| <= MAX_FRAME_SIZE {
      FrameReadsBack(payload);
    } else if EncodeRust(payload).Some? {
      CutFrameReadsWrong(payload);
    }
  }

  lemma FourGiBPayloadIsCut() returns (payload: Bytes)
    ensures EncodeRust(payload).Some? && EncodeTs(payload) == None
    ensures Parse(EncodeRust(payload).value).payloads != [payload]
  {
    payload := seq(U32, _ => 0 as Byte);
    CutFrameReadsWrong(payload);
  }

  // ----- feeding a stream in chunks

  function Flat(chunks: seq<Bytes>): Bytes {
    if chunks == [] then [] else chunks[0] + Flat(chunks[1..])
  }

  /** A reader's view of successive chunks; it is abandoned at the first oversized header. */
  function Feed(buf: Bytes, chunks: seq<Bytes>): Parsed
    decreases |chunks|
  {
    if chunks == [] then Parsed([], buf, false)
    else
      var p := Parse(buf + chunks[0]);
      if p.oversized then Parsed([], p.rest, true)
      else var f := Feed(p.rest, chunks[1..]); f.(payloads := p.payloads + f.payloads)
  }

  /** However a stream is cut, feeding it yields what one push of all of it yields. */
  lemma {:induction false} ChunkingDoesNotMatter(buf: Bytes, chunks: seq<Bytes>)
    requires Parse(buf) == Parsed([], buf, false) && !Parse(buf + Flat(chunks)).oversized
    ensures Feed(buf, chunks) == Parse(buf + Flat(chunks))
    decreases |chunks|
  {
    if chunks == [] {
      assert buf + Flat(chunks) == buf;
    } else {
      assert buf + Flat(chunks) == (buf + chunks[0]) + Flat(chunks[1..]);
      ParseContinues(buf + chunks[0], Flat(chunks[1..]));
      LeftoverIsPartial(buf + chunks[0]);
      ChunkingDoesNotMatter(Parse(buf + chunks[0]).rest, chunks[1..]);
    }
  }

  /** With an oversized header the reader stops at the first chunk that completes it;
      what was delivered is what the chunks before that one contain. */
  lemma {:induction false} OversizedStopsAtItsChunk(buf: Bytes, chunks: seq<Bytes>) returns (k: nat)
    requires Parse(buf) == Parsed([], buf, false) && Parse(buf + Flat(chunks)).oversized
    ensures k < |chunks| && !Parse(buf + Flat(chunks[..k])).oversized && Parse(buf + Flat(chunks[..k + 1])).oversized
    ensures Feed(buf, chunks).oversized && Feed(buf, chunks).payloads == Parse(buf + Flat(chunks[..k])).payloads
    decreases |chunks|
  {
    hide Parse;
    assert chunks != [] by { assert buf + [] == buf; }
    var first, rest := chunks[0], chunks[1..];
    var p := Parse(buf + first);
    assert chunks[..1] == [first] && Flat([first]) == first + [] == first;
    if p.oversized {
      k := 0;
      assert buf + Flat(chunks[..0]) == buf;
    } else {
      assert buf + Flat(chunks) == (buf + first) + Flat(rest);
      ParseContinues(buf + first, Flat(rest));
      LeftoverIsPartial(buf + first);
      var j := OversizedStopsAtItsChunk(p.rest, rest);
      k := j + 1;
      PrefixContinues(buf, chunks, j);
      PrefixContinues(buf, chunks, j + 1);
    }
  }

  lemma PrefixContinues(buf: Bytes, chunks: seq<Bytes>, j: nat)
    requires j < |chunks| && !Parse(buf + chunks[0]).oversized
    ensures var p, q := Parse(buf + chunks[0]), Parse(Parse(buf + chunks[0]).rest + Flat(chunks[1..][..j]));
            Parse(buf + Flat(chunks[..j + 1])) == q.(payloads := p.payloads + q.payloads)
  {
    assert chunks[..j + 1][1..] == chunks[1..][..j];
    assert buf + Flat(chunks[..j + 1]) == (buf + chunks[0]) + Flat(chunks[1..][..j]);
    ParseContinues(buf + chunks[0], Flat(chunks[1..][..j]));
  }

  // ----- the Rust reader

  /** A decoded message, or the INVALID_MESSAGE error put in place of a payload. */
  datatype Item<M> = Decoded(message: M) | Undecodable(payload: Bytes)

  datatype RustResult<M> = Messages(items: seq<Item<M>>) | TooLarge

  function ItemOf<M>(payload: Bytes, decode: Bytes -> Option<M>): Item<M> {
    match decode(payload) case Some(m) => Decoded(m) case None => Undecodable(payload)
  }

  function Items<M>(payloads: seq<Bytes>, decode: Bytes -> Option<M>): (r: seq<Item<M>>)
    ensures |r| == |payloads| && forall i :: 0 <= i < |r| ==> r[i] == ItemOf(payloads[i], decode)
  {
    seq(|payloads|, i requires 0 <= i < |payloads| => ItemOf(payloads[i], decode))
  }

  /** A payload that decodes becomes its message, any other an error that names it. */
  lemma {:induction false} ItemsTell<M>(payloads: seq<Bytes>, decode: Bytes -> Option<M>, i: nat)
    requires i < |payloads|
    ensures forall m :: Items(payloads, decode)[i] == Decoded(m) <==> decode(payloads[i]) == Some(m)
    ensures forall p :: Items(payloads, decode)[i] == Undecodable(p) <==> decode(payloads[i]) == None && p == payloads[i]
  {
    var d := decode(payloads[i]);
    assert d.Some? ==> d == Some(d.value);
  }

  lemma ItemsAppend<M>(a: seq<Bytes>, b: seq<Bytes>, decode: Bytes -> Option<M>)
    ensures Items(a + b, decode) == Items(a, decode) + Items(b, decode)
  {
  }

  /** After `done`, what is left of `stream` is `buf`. */
  ghost predicate Resumes(stream: Bytes, done: seq<Bytes>, buf: Bytes) {
    Parse(stream) == Parsed(done + Parse(buf).payloads, Parse(buf).rest, Parse(buf).oversized)
  }

  lemma ResumesStep(stream: Bytes, done: seq<Bytes>, buf: Bytes)
    requires Resumes(stream, done, buf)
    requires |buf| >= 4 && FromLe32(buf) <= MAX_FRAME_SIZE && |buf| >= 4 + FromLe32(buf)
    ensures Resumes(stream, done + [buf[4..4 + FromLe32(buf)]], buf[4 + FromLe32(buf)..])
  {
    var payload, tail := buf[4..4 + FromLe32(buf)], buf[4 + FromLe32(buf)..];
    assert done + ([payload] + Parse(tail).payloads) == (done + [payload]) + Parse(tail).payloads;
  }

  lemma ResumesEnd(stream: Bytes, done: seq<Bytes>, buf: Bytes)
    requires Resumes(stream, done, buf)
    requires |buf| < 4 || FromLe32(buf) > MAX_FRAME_SIZE || |buf| < 4 + FromLe32(buf)
    ensures Parse(stream) == Parsed(done, buf, |buf| >= 4 && FromLe32(buf) > MAX_FRAME_SIZE)
  {
    assert done + [] == done;
  }

  class FrameReader<M> {
    var buf: Bytes

    constructor ()
      ensures buf == []
    {
      buf := [];
    }

    method Push(data: Bytes, decode: Bytes -> Option<M>) returns (r: RustResult<M>)
      modifies this
      ensures var p := Parse(old(buf) + data);
              buf == p.rest && r == if p.oversized then TooLarge else Messages(Items(p.payloads, decode))
    {
      hide Parse, FromLe32;
      buf := buf + data;
      ghost var stream, done := buf, [];
      assert [] + Parse(buf).payloads == Parse(buf).payloads;
      var items := [];
      while |buf| >= 4
        invariant Resumes(stream, done, buf) && items == Items(done, decode)
        decreases |buf|
      {
        var len := FromLe32(buf);
        if len > MAX_FRAME_SIZE {
          ResumesEnd(stream, done, buf);
          return TooLarge;
        }
        if |buf| < 4 + len { break; }
        ResumesStep(stream, done, buf);
        var payload := buf[4..4 + len];
        ItemsAppend(done, [payload], decode);
        items := items + [ItemOf(payload, decode)];
        done := done + [payload];
        buf := buf[4 + len..];
      }
      ResumesEnd(stream, done, buf);
      r := Messages(items);
    }
  }

  /** After `done`, what is left of feeding `chunks` is feeding `later` to `buf`. */
  ghost predicate Feeding(chunks: seq<Bytes>, done: seq<Bytes>, buf: Bytes, later: seq<Bytes>) {
    var f := Feed(buf, later);
    Feed([], chunks) == Parsed(done + f.payloads, f.rest, f.oversized)
  }

  lemma FeedingStarts(chunks: seq<Bytes>)
    ensures Feeding(chunks, [], [], chunks[0..])
  {
    assert [] + Feed([], chunks).payloads == Feed([], chunks).payloads && chunks[0..] == chunks;
  }

  lemma FeedingStep(chunks: seq<Bytes>, done: seq<Bytes>, buf: Bytes, i: nat)
    requires i < |chunks| && Feeding(chunks, done, buf, chunks[i..])
    ensures var p := Parse(buf + chunks[i]);
            if p.oversized then Feed([], chunks) == Parsed(done, p.rest, true)
            else Feeding(chunks, done + p.payloads, p.rest, chunks[i + 1..])
  {
    var p := Parse(buf + chunks[i]);
    assert chunks[i..][1..] == chunks[i + 1..];
    if p.oversized {
      assert done + [] == done;
    } else {
      var f := Feed(p.rest, chunks[i + 1..]);
      assert done + (p.payloads + f.payloads) == (done + p.payloads) + f.payloads;
    }
  }

  lemma FeedingEnds(chunks: seq<Bytes>, done: seq<Bytes>, buf: Bytes)
    requires Feeding(chunks, done, buf, chunks[|chunks|..])
    ensures Feed([], chunks) == Parsed(done, buf, false)
  {
    assert done + [] == done;
  }

  lemma FeedMeetsParse(chunks: seq<Bytes>)
    ensures Feed([], chunks).oversized <==> Parse(Flat(chunks)).oversized
    ensures !Parse(Flat(chunks)).oversized ==> Feed([], chunks) == Parse(Flat(chunks))
  {
    assert [] + Flat(chunks) == Flat(chunks);
    if Parse(Flat(chunks)).oversized {
      var _ := OversizedStopsAtItsChunk([], chunks);
    } else {
      ChunkingDoesNotMatter([], chunks);
    }
  }

  /** A Rust reader fed a whole stream in chunks, given up at the first error. */
  method ReadRust<M>(chunks: seq<Bytes>, decode: Bytes -> Option<M>) returns (items: seq<Item<M>>, leftover: Bytes, failed: bool)
    ensures failed <==> Parse(Flat(chunks)).oversized
    ensures !failed ==> items == Items(Parse(Flat(chunks)).payloads, decode) && leftover == Parse(Flat(chunks)).rest
    ensures items == Items(Feed([], chunks).payloads, decode)
  {
    var reader := new FrameReader<M>();
    items := [];
    ghost var done := [];
    FeedMeetsParse(chunks);
    FeedingStarts(chunks);
    var i := 0;
    while i < |chunks|
      invariant 0 <= i <= |chunks|
      invariant Feeding(chunks, done, reader.buf, chunks[i..])
      invariant items == Items(done, decode)
    {
      FeedingStep(chunks, done, reader.buf, i);
      ghost var p := Parse(reader.buf + chunks[i]);
      var r := reader.Push(chunks[i], decode);
      if r == TooLarge { return items, reader.buf, true; }
      ItemsAppend(done, p.payloads, decode);
      items := items + r.items;
      done := done + p.payloads;
      i := i + 1;
    }
    FeedingEnds(chunks, done, reader.buf);
    leftover, failed := reader.buf, false;
  }

  // ----- the TypeScript reader

  datatype TsStatus = Fine | RangeError | DecodeError

  datatype Scanned<M> = Scanned(messages: seq<M>, rest: Bytes, status: TsStatus)

  /** The loop of the TypeScript reader: a payload that does not decode throws before
      its frame is consumed. */
  function Scan<M>(buf: Bytes, decode: Bytes -> Option<M>): Scanned<M>
    decreases |buf|
  {
    if |buf| < 4 then Scanned([], buf, Fine)
    else
      var len := FromLe32(buf);
      if len > MAX_FRAME_SIZE then Scanned([], buf, RangeError)
      else if |buf| < 4 + len then Scanned([], buf, Fine)
      else match decode(buf[4..4 + len])
           case None => Scanned([], buf, DecodeError)
           case Some(m) =>
             var tail := Scan(buf[4 + len..], decode);
             tail.(messages := [m] + tail.messages)
  }

  ghost predicate AllDecode<M>(payloads: seq<Bytes>, decode: Bytes -> Option<M>) {
    forall i :: 0 <= i < |payloads| ==> decode(payloads[i]).Some?
  }

  function MessagesOf<M>(payloads: seq<Bytes>, decode: Bytes -> Option<M>): (r: seq<M>)
    requires AllDecode(payloads, decode)
    ensures |r| == |payloads| && forall i :: 0 <= i < |r| ==> decode(payloads[i]) == Some(r[i])
  {
    seq(|payloads|, i requires 0 <= i < |payloads| => decode(payloads[i]).value)
  }

  predicate HasFrame(buf: Bytes) {
    |buf| >= 4 && FromLe32(buf) <= MAX_FRAME_SIZE && |buf| >= 4 + FromLe32(buf)
  }

  lemma ScanFrame<M>(buf: Bytes, payload: Bytes, tail: Bytes, m: M, decode: Bytes -> Option<M>)
    requires HasFrame(buf) && payload == buf[4..4 + FromLe32(buf)] && tail == buf[4 + FromLe32(buf)..] && decode(payload) == Some(m)
    ensures Parse(buf) == Parsed([payload] + Parse(tail).payloads, Parse(tail).rest, Parse(tail).oversized)
    ensures Scan(buf, decode) == Scanned([m] + Scan(tail, decode).messages, Scan(tail, decode).rest, Scan(tail, decode).status)
  {
  }

  /** On payloads that all decode, both readers parse alike. */
  lemma {:induction false} ScanAgreesWithParse<M>(buf: Bytes, decode: Bytes -> Option<M>)
    requires AllDecode(Parse(buf).payloads, decode)
    ensures Scan(buf, decode) == Scanned(MessagesOf(Parse(buf).payloads, decode), Parse(buf).rest, if Parse(buf).oversized then RangeError else Fine)
    decreases |buf|
  {
    if HasFrame(buf) {
      var payload, tail := buf[4..4 + FromLe32(buf)], buf[4 + FromLe32(buf)..];
      var later := Parse(tail).payloads;
      assert Parse(buf).payloads == [payload] + later;
      forall i | 0 <= i < |later| ensures decode(later[i]).Some? {
        assert later[i] == ([payload] + later)[i + 1];
      }
      assert decode(([payload] + later)[0]).Some?;
      ScanFrame(buf, payload, tail, decode(payload).value, decode);
      ScanAgreesWithParse(tail, decode);
      assert MessagesOf([payload] + later, decode) == [decode(payload).value] + MessagesOf(later, decode);
    }
  }

  /** It throws on a payload exactly when the stream has a complete one that does not decode. */
  lemma {:induction false} ScanThrowsIffUndecodable<M>(buf: Bytes, decode: Bytes -> Option<M>)
    ensures Scan(buf, decode).status == DecodeError <==> !AllDecode(Parse(buf).payloads, decode)
    decreases |buf|
  {
    if HasFrame(buf) {
      var payload, tail := buf[4..4 + FromLe32(buf)], buf[4 + FromLe32(buf)..];
      var all, later := Parse(buf).payloads, Parse(tail).payloads;
      assert all == [payload] + later;
      assert all[0] == payload;
      if decode(payload).Some? {
        ScanFrame(buf, payload, tail, decode(payload).value, decode);
        ScanThrowsIffUndecodable(tail, decode);
        assert forall i :: 0 <= i < |later| ==> later[i] == all[i + 1];
        assert forall i :: 0 < i < |all| ==> all[i] == later[i - 1];
      }
    }
  }

  /** They differ on a payload that does not decode: the Rust reader reports it and goes
      on, the TypeScript reader throws on it again at every later push. */
  lemma {:induction false} UndecodableFrameStays<M>(buf: Bytes, more: Bytes, decode: Bytes -> Option<M>)
    requires Scan(buf, decode).status == DecodeError
    ensures Scan(Scan(buf, decode).rest + more, decode) == Scanned([], Scan(buf, decode).rest + more, DecodeError)
    decreases |buf|
  {
    assert HasFrame(buf);
    var len := FromLe32(buf);
    if decode(buf[4..4 + len]).Some? {
      UndecodableFrameStays(buf[4 + len..], more, decode);
    } else {
      BadFrameStays(buf, more, decode);
    }
  }

  lemma BadFrameStays<M>(buf: Bytes, more: Bytes, decode: Bytes -> Option<M>)
    requires HasFrame(buf) && decode(buf[4..4 + FromLe32(buf)]) == None
    ensures Scan(buf + more, decode) == Scanned([], buf + more, DecodeError)
  {
    assert (buf + more)[4..4 + FromLe32(buf)] == buf[4..4 + FromLe32(buf)];
  }

  class TsFrameReader<M> {
    var buffer: Bytes

    constructor ()
      ensures buffer == []
    {
      buffer := [];
    }

    /** When it throws, the messages scanned before are gone with it. */
    method Push(data: Bytes, decode: Bytes -> Option<M>) returns (messages: seq<M>, status: TsStatus)
      modifies this
      ensures var s := Scan(old(buffer) + data, decode);
              buffer == s.rest && status == s.status && messages == if s.status == Fine then s.messages else []
    {
      buffer := buffer + data;
      ghost var stream := buffer;
      messages := [];
      while |buffer| >= 4
        invariant var s := Scan(buffer, decode); Scan(stream, decode) == s.(messages := messages + s.messages)
        decreases |buffer|
      {
        var len := FromLe32(buffer);
        if len > MAX_FRAME_SIZE { return [], RangeError; }
        if |buffer| < 4 + len { break; }
        var decoded := decode(buffer[4..4 + len]);
        if decoded == None { return [], DecodeError; }
        messages := messages + [decoded.value];
        buffer := buffer[4 + len..];
      }
      assert messages + [] == messages;
      status := Fine;
    }
  }

  /** One chunk of a stream that decodes throughout. */
  lemma TsStep<M>(chunks: seq<Bytes>, done: seq<Bytes>, buf: Bytes, i: nat, decode: Bytes -> Option<M>)
    requires i < |chunks| && Feeding(chunks, done, buf, chunks[i..])
    requires !Feed([], chunks).oversized && AllDecode(Feed([], chunks).payloads, decode)
    ensures var p := Parse(buf + chunks[i]);
            && Feeding(chunks, done + p.payloads, p.rest, chunks[i + 1..])
            && AllDecode(p.payloads, decode) && AllDecode(done + p.payloads, decode)
            && Scan(buf + chunks[i], decode) == Scanned(MessagesOf(p.payloads, decode), p.rest, Fine)
  {
    var p := Parse(buf + chunks[i]);
    FeedingStep(chunks, done, buf, i);
    var all, later := Feed([], chunks).payloads, Feed(p.rest, chunks[i + 1..]).payloads;
    assert all == done + p.payloads + later;
    forall k | 0 <= k < |done + p.payloads| ensures decode((done + p.payloads)[k]).Some? { assert (done + p.payloads)[k] == all[k]; }
    forall k | 0 <= k < |p.payloads| ensures decode(p.payloads[k]).Some? { assert p.payloads[k] == all[|done| + k]; }
    ScanAgreesWithParse(buf + chunks[i], decode);
  }

  lemma MessagesAppend<M>(a: seq<Bytes>, b: seq<Bytes>, decode: Bytes -> Option<M>)
    requires AllDecode(a, decode) && AllDecode(b, decode) && AllDecode(a + b, decode)
    ensures MessagesOf(a + b, decode) == MessagesOf(a, decode) + MessagesOf(b, decode)
  {
  }

  /** A TypeScript reader fed the same stream agrees with the Rust reader when every
      payload decodes and no header is oversized. */
  method ReadTs<M>(chunks: seq<Bytes>, decode: Bytes -> Option<M>) returns (messages: seq<M>, leftover: Bytes)
    requires !Parse(Flat(chunks)).oversized && AllDecode(Parse(Flat(chunks)).payloads, decode)
    ensures messages == MessagesOf(Parse(Flat(chunks)).payloads, decode) && leftover == Parse(Flat(chunks)).rest
  {
    var reader := new TsFrameReader<M>();
    messages := [];
    ghost var done := [];
    FeedMeetsParse(chunks);
    FeedingStarts(chunks);
    var i := 0;
    while i < |chunks|
      invariant 0 <= i <= |chunks|
      invariant Feeding(chunks, done, reader.buffer, chunks[i..])
      invariant AllDecode(done, decode) && messages == MessagesOf(done, decode)
    {
      TsStep(chunks, done, reader.buffer, i, decode);
      ghost var p := Parse(reader.buffer + chunks[i]);
      var more, _ := reader.Push(chunks[i], decode);
      MessagesAppend(done, p.payloads, decode);
      messages := messages + more;
      done := done + p.payloads;
      i := i + 1;
    }
    FeedingEnds(chunks, done, reader.buffer);
    leftover := reader.buffer;
  }
}
