/**
 From PTY reads to output batches (crates/lasterm-agent/src/handler.rs `strip_dsr`
 and `spawn_reader_task`, crates/lasterm-agent/src/batch.rs `batch_loop`).
 */
module OutputBatching {
  import opened Prelude

  type Bytes = seq<Byte>

  const READ_MAX := 4096
  const BATCH_MAX_BYTES := 4096

  // ----- stripping cursor-position queries

  /** The device status report query, ESC [ 6 n. */
  const DSR: Bytes := [0x1b, 0x5b, 0x36, 0x6e]

  predicate DsrAt(data: Bytes, i: int) {
    0 <= i && i + 4 <= |data| && data[i] == 0x1b && data[i + 1] == 0x5b && data[i + 2] == 0x36 && data[i + 3] == 0x6e
  }

  /** Byte `i` lies inside some occurrence of the query in `data`. */
  predicate Covered(data: Bytes, i: int) {
    DsrAt(data, i) || DsrAt(data, i - 1) || DsrAt(data, i - 2) || DsrAt(data, i - 3)
  }

  /** Which bytes lie inside some query. */
  function Mask(data: Bytes): (r: seq<bool>)
    ensures |r| == |data| && forall i :: 0 <= i < |r| ==> r[i] == Covered(data, i)
  {
    seq(|data|, i requires 0 <= i < |data| => Covered(data, i))
  }

  /** The bytes from `i` on that are not removed. */
  function Kept(data: Bytes, removed: seq<bool>, i: nat): (r: Bytes)
    requires |removed| == |data|
    ensures i <= |data| ==> |r| <= |data| - i
    decreases |data| - i
  {
    if i >= |data| then []
    else if removed[i] then Kept(data, removed, i + 1)
    else [data[i]] + Kept(data, removed, i + 1)
  }

  /** The bytes from `i` on that no occurrence covers. */
  function Uncovered(data: Bytes, i: nat): Bytes {
    Kept(data, Mask(data), i)
  }

  function Stripped(data: Bytes): (r: Bytes)
    ensures |r| <= |data|
  {
    Uncovered(data, 0)
  }

  lemma {:induction false} UncoveredWithoutDsr(data: Bytes, i: nat)
    requires i <= |data| && forall k :: !DsrAt(data, k)
    ensures Uncovered(data, i) == data[i..]
    decreases |data| - i
  {
    if i < |data| { UncoveredWithoutDsr(data, i + 1); }
  }

  /** The query's bytes are distinct, so its occurrences cannot overlap. */
  lemma DsrDoesNotOverlap(data: Bytes, i: int, k: int)
    requires DsrAt(data, i) && i < k < i + 4
    ensures !DsrAt(data, k)
  {
  }

  lemma SkipOne(data: Bytes, i: nat)
    requires i < |data| && Covered(data, i)
    ensures Uncovered(data, i) == Uncovered(data, i + 1)
  {
  }

  lemma SkipCovered(data: Bytes, i: nat)
    requires DsrAt(data, i)
    ensures Uncovered(data, i) == Uncovered(data, i + 4)
  {
    SkipOne(data, i);
    SkipOne(data, i + 1);
    SkipOne(data, i + 2);
    SkipOne(data, i + 3);
  }

  lemma KeepUncovered(data: Bytes, i: nat)
    requires i < |data| && AtBoundary(data, i) && !DsrAt(data, i)
    ensures Uncovered(data, i) == [data[i]] + Uncovered(data, i + 1) && AtBoundary(data, i + 1)
  {
  }

  method ContainsDsr(data: Bytes) returns (found: bool)
    ensures found <==> exists k :: DsrAt(data, k)
  {
    var i := 0;
    while i + 4 <= |data|
      invariant 0 <= i && forall k :: 0 <= k < i ==> !DsrAt(data, k)
    {
      if DsrAt(data, i) { return true; }
      i := i + 1;
    }
    found := false;
  }

  /** No occurrence that started before `i` reaches it. */
  ghost predicate AtBoundary(data: Bytes, i: nat) {
    forall k :: i - 4 < k < i ==> !DsrAt(data, k)
  }

  lemma BoundaryAfterDsr(data: Bytes, i: nat)
    requires DsrAt(data, i)
    ensures AtBoundary(data, i + 4)
  {
    forall k | i < k < i + 4 ensures !DsrAt(data, k) { DsrDoesNotOverlap(data, i, k); }
  }

  /** The slow path of `strip_dsr`. */
  method RemoveDsr(data: Bytes) returns (out: Bytes)
    ensures out == Stripped(data)
  {
    out := [];
    var i := 0;
    while i < |data|
      invariant 0 <= i <= |data| && AtBoundary(data, i)
      invariant Assembled(data, out, i)
    {
      if DsrAt(data, i) {
        SkipKeepsAssembled(data, out, i);
        i := i + 4;
      } else {
        KeepKeepsAssembled(data, out, i);
        out := out + [data[i]];
        i := i + 1;
      }
    }
    assert out + [] == out;
  }

  ghost predicate Assembled(data: Bytes, out: Bytes, i: nat) {
    out + Uncovered(data, i) == Stripped(data)
  }

  lemma SkipKeepsAssembled(data: Bytes, out: Bytes, i: nat)
    requires DsrAt(data, i) && Assembled(data, out, i)
    ensures Assembled(data, out, i + 4) && AtBoundary(data, i + 4)
  {
    SkipCovered(data, i);
    BoundaryAfterDsr(data, i);
  }

  lemma KeepKeepsAssembled(data: Bytes, out: Bytes, i: nat)
    requires i < |data| && AtBoundary(data, i) && !DsrAt(data, i) && Assembled(data, out, i)
    ensures Assembled(data, out + [data[i]], i + 1) && AtBoundary(data, i + 1)
  {
    KeepUncovered(data, i);
    assert out + ([data[i]] + Uncovered(data, i + 1)) == (out + [data[i]]) + Uncovered(data, i + 1);
  }

  method StripDsr(data: Bytes) returns (out: Bytes)
    ensures out == Stripped(data)
  {
    var found := ContainsDsr(data);
    if found {
      out := RemoveDsr(data);
    } else {
      UncoveredWithoutDsr(data, 0);
      out := data;
    }
  }

  /** Removal can join the bytes around a query into a new one, which stays. */
  lemma StrippingCanLeaveAQuery() returns (data: Bytes)
    ensures Stripped(data) == DSR
  {
    data := [0x1b, 0x1b, 0x5b, 0x36, 0x6e, 0x5b, 0x36, 0x6e];
    assert DsrAt(data, 1);
    assert Uncovered(data, 8) == [];
    assert Uncovered(data, 7) == [0x6e];
    assert Uncovered(data, 6) == [0x36, 0x6e];
    assert Uncovered(data, 5) == [0x5b, 0x36, 0x6e];
    SkipCovered(data, 1);
  }

  // ----- when a query is left

  /** The first position from `i` on that is not removed. */
  function NextKept(removed: seq<bool>, i: nat): (r: nat)
    requires i <= |removed|
    ensures i <= r <= |removed|
    decreases |removed| - i
  {
    if i < |removed| && removed[i] then NextKept(removed, i + 1) else i
  }

  /** The bytes from `i` on, the removed ones skipped, begin with `want`. */
  predicate Spells(data: Bytes, removed: seq<bool>, i: nat, want: Bytes)
    requires |removed| == |data| && i <= |data|
    decreases want
  {
    want == [] || (
      var q := NextKept(removed, i);
      q < |data| && data[q] == want[0] && Spells(data, removed, q + 1, want[1..]))
  }

  /** An ESC that stays at `p` is followed, the removed bytes skipped, by `[`, `6` and `n`. */
  predicate JoinedAt(data: Bytes, removed: seq<bool>, p: nat)
    requires |removed| == |data|
  {
    p < |data| && !removed[p] && Spells(data, removed, p, DSR)
  }

  lemma {:induction false} KeptHead(data: Bytes, removed: seq<bool>, i: nat)
    requires |removed| == |data| && i <= |data|
    ensures var q := NextKept(removed, i); Kept(data, removed, i) == if q < |data| then [data[q]] + Kept(data, removed, q + 1) else []
    decreases |data| - i
  {
    if i < |data| && removed[i] { KeptHead(data, removed, i + 1); }
  }

  lemma {:induction false} PrefixUnfolds(want: Bytes, head: Byte, rest: Bytes)
    requires want != []
    ensures want <= [head] + rest <==> head == want[0] && want[1..] <= rest
  {
    var out := [head] + rest;
    assert want == [want[0]] + want[1..] && out[1..] == rest;
    if want <= out { assert want[1..] == out[..|want|][1..] == rest[..|want| - 1]; }
    if head == want[0] && want[1..] <= rest { assert want == out[..|want|]; }
  }

  lemma {:induction false} SpellsIsPrefix(data: Bytes, removed: seq<bool>, i: nat, want: Bytes)
    requires |removed| == |data| && i <= |data|
    ensures Spells(data, removed, i, want) <==> want <= Kept(data, removed, i)
    decreases want
  {
    if want != [] {
      hide Kept, NextKept;
      var q := NextKept(removed, i);
      KeptHead(data, removed, i);
      if q < |data| {
        SpellsIsPrefix(data, removed, q + 1, want[1..]);
        PrefixUnfolds(want, data[q], Kept(data, removed, q + 1));
      }
    }
  }

  lemma DsrIsPrefix(out: Bytes)
    ensures DsrAt(out, 0) <==> DSR <= out
  {
  }

  lemma HeadIsJoined(data: Bytes, removed: seq<bool>, p: nat)
    requires |removed| == |data| && p < |data| && !removed[p]
    ensures DsrAt(Kept(data, removed, p), 0) <==> JoinedAt(data, removed, p)
  {
    hide Kept, Spells, DsrAt;
    SpellsIsPrefix(data, removed, p, DSR);
    DsrIsPrefix(Kept(data, removed, p));
  }

  lemma {:induction false} QueryIsJoined(data: Bytes, removed: seq<bool>, i: nat, k: int) returns (p: nat)
    requires |removed| == |data| && DsrAt(Kept(data, removed, i), k)
    ensures JoinedAt(data, removed, p)
    decreases |data| - i
  {
    if removed[i] {
      p := QueryIsJoined(data, removed, i + 1, k);
    } else if k > 0 {
      p := QueryIsJoined(data, removed, i + 1, k - 1);
    } else {
      HeadIsJoined(data, removed, i);
      p := i;
    }
  }

  lemma {:induction false} JoinedIsQuery(data: Bytes, removed: seq<bool>, i: nat, p: nat) returns (k: int)
    requires |removed| == |data| && i <= p && JoinedAt(data, removed, p)
    ensures DsrAt(Kept(data, removed, i), k)
    decreases |data| - i
  {
    if i == p {
      HeadIsJoined(data, removed, p);
      k := 0;
    } else {
      k := JoinedIsQuery(data, removed, i + 1, p);
      if !removed[i] { k := k + 1; }
    }
  }

  ghost predicate HasQuery(out: Bytes) {
    exists k :: DsrAt(out, k)
  }

  ghost predicate HasJoin(data: Bytes, removed: seq<bool>)
    requires |removed| == |data|
  {
    exists p: nat :: JoinedAt(data, removed, p)
  }

  lemma {:induction false} KeptQueryIsJoined(data: Bytes, removed: seq<bool>)
    requires |removed| == |data|
    ensures HasQuery(Kept(data, removed, 0)) <==> HasJoin(data, removed)
  {
    hide JoinedAt, DsrAt, Kept;
    var out := Kept(data, removed, 0);
    if HasQuery(out) {
      var k :| DsrAt(out, k);
      var p := QueryIsJoined(data, removed, 0, k);
      assert HasJoin(data, removed);
    }
    if HasJoin(data, removed) {
      var p: nat :| JoinedAt(data, removed, p);
      var k := JoinedIsQuery(data, removed, 0, p);
      assert HasQuery(out);
    }
  }

  /** Stripping leaves a query exactly when some ESC outside every query is followed by
      the rest of one once the queries in between are skipped. */
  lemma {:induction false} QueryIsLeftIffJoined(data: Bytes)
    ensures HasQuery(Stripped(data)) <==> HasJoin(data, Mask(data))
  {
    assert Stripped(data) == Kept(data, Mask(data), 0);
    hide Stripped, Kept, Mask, HasQuery, HasJoin;
    KeptQueryIsJoined(data, Mask(data));
  }

  // ----- the reader task

  datatype OutputEvent = OutputEvent(channel: string, seqNo: nat, data: Bytes)

  /** What reaches the batcher from one reader: the reads before the end, stripped. */
  function StrippedReads(chunks: seq<Bytes>): Bytes {
    if chunks == [] || chunks[0] == [] then [] else Stripped(chunks[0]) + StrippedReads(chunks[1..])
  }

  /** The bytes of the reads before the end, and which of them are stripped. */
  function RawReads(chunks: seq<Bytes>): Bytes {
    if chunks == [] || chunks[0] == [] then [] else chunks[0] + RawReads(chunks[1..])
  }

  function RemovedInReads(chunks: seq<Bytes>): (r: seq<bool>)
    ensures |r| == |RawReads(chunks)|
  {
    if chunks == [] || chunks[0] == [] then [] else Mask(chunks[0]) + RemovedInReads(chunks[1..])
  }

  lemma {:induction false} KeptShifts(a: Bytes, removedA: seq<bool>, b: Bytes, removedB: seq<bool>, i: nat)
    requires |a| == |removedA| && |b| == |removedB|
    ensures Kept(a + b, removedA + removedB, |a| + i) == Kept(b, removedB, i)
    decreases |b| - i
  {
    if i < |b| { KeptShifts(a, removedA, b, removedB, i + 1); }
  }

  lemma {:induction false} KeptConcat(a: Bytes, removedA: seq<bool>, b: Bytes, removedB: seq<bool>, i: nat)
    requires |a| == |removedA| && |b| == |removedB| && i <= |a|
    ensures Kept(a + b, removedA + removedB, i) == Kept(a, removedA, i) + Kept(b, removedB, 0)
    decreases |a| - i
  {
    if i < |a| {
      KeptConcat(a, removedA, b, removedB, i + 1);
    } else {
      KeptShifts(a, removedA, b, removedB, 0);
    }
  }

  lemma {:induction false} StrippedReadsAreKept(chunks: seq<Bytes>)
    ensures StrippedReads(chunks) == Kept(RawReads(chunks), RemovedInReads(chunks), 0)
  {
    if chunks != [] && chunks[0] != [] {
      StrippedReadsAreKept(chunks[1..]);
      KeptConcat(chunks[0], Mask(chunks[0]), RawReads(chunks[1..]), RemovedInReads(chunks[1..]), 0);
    }
  }

  /** Each read is stripped on its own, so over all reads a query is left exactly when
      its bytes follow one another once the queries inside single reads are skipped. */
  lemma {:induction false} QueryIsSentIffJoined(chunks: seq<Bytes>)
    ensures HasQuery(StrippedReads(chunks)) <==> HasJoin(RawReads(chunks), RemovedInReads(chunks))
  {
    StrippedReadsAreKept(chunks);
    hide StrippedReads, RawReads, RemovedInReads, Kept, HasQuery, HasJoin;
    KeptQueryIsJoined(RawReads(chunks), RemovedInReads(chunks));
  }

  /** A query split between two reads passes whole. */
  lemma SplitQueryIsSent() returns (chunks: seq<Bytes>)
    ensures RawReads(chunks) == DSR && StrippedReads(chunks) == DSR
  {
    chunks := [[0x1b, 0x5b], [0x36, 0x6e]];
    assert chunks[1..] == [chunks[1]] && chunks[1..][1..] == [];
    assert Stripped(chunks[0]) == chunks[0] by { UncoveredWithoutDsr(chunks[0], 0); }
    assert Stripped(chunks[1]) == chunks[1] by { UncoveredWithoutDsr(chunks[1], 0); }
  }

  function DataOf(events: seq<OutputEvent>): Bytes {
    if events == [] then [] else DataOf(events[..|events| - 1]) + events[|events| - 1].data
  }

  lemma DataOfAppend(events: seq<OutputEvent>, e: OutputEvent)
    ensures DataOf(events + [e]) == DataOf(events) + e.data
  {
    assert (events + [e])[..|events|] == events;
  }

  /** An event carries one stripped, non-empty read of its channel, numbered by the read. */
  ghost predicate IsRead(e: OutputEvent, channel: string, chunks: seq<Bytes>) {
    && e.channel == channel && 1 <= e.seqNo <= |chunks|
    && e.data == Stripped(chunks[e.seqNo - 1]) && 1 <= |e.data| <= 4096
  }

  ghost predicate Numbered(events: seq<OutputEvent>, last: nat) {
    && (forall i :: 0 <= i < |events| ==> events[i].seqNo <= last)
    && (forall i, j :: 0 <= i < j < |events| ==> events[i].seqNo < events[j].seqNo)
  }

  /** What the reader sends for one read. */
  function Sent(channel: string, seqNo: nat, data: Bytes): seq<OutputEvent> {
    if data == [] then [] else [OutputEvent(channel, seqNo, data)]
  }

  ghost predicate DataSoFar(events: seq<OutputEvent>, chunks: seq<Bytes>, done: nat)
    requires done <= |chunks|
  {
    DataOf(events) + StrippedReads(chunks[done..]) == StrippedReads(chunks)
  }

  ghost predicate EventsSoFar(events: seq<OutputEvent>, channel: string, chunks: seq<Bytes>, done: nat) {
    Numbered(events, done) && forall i :: 0 <= i < |events| ==> IsRead(events[i], channel, chunks)
  }

  lemma ReadKeepsData(events: seq<OutputEvent>, channel: string, chunks: seq<Bytes>, done: nat, data: Bytes)
    requires done < |chunks| && DataSoFar(events, chunks, done) && chunks[done] != [] && data == Stripped(chunks[done])
    ensures DataSoFar(events + Sent(channel, done + 1, data), chunks, done + 1)
  {
    var rest := StrippedReads(chunks[done + 1..]);
    assert chunks[done..][1..] == chunks[done + 1..];
    assert StrippedReads(chunks[done..]) == data + rest;
    if data == [] {
      assert events + Sent(channel, done + 1, data) == events && data + rest == rest;
    } else {
      DataOfAppend(events, OutputEvent(channel, done + 1, data));
      assert DataOf(events) + (data + rest) == (DataOf(events) + data) + rest;
    }
  }

  lemma ReadKeepsEvents(events: seq<OutputEvent>, channel: string, chunks: seq<Bytes>, done: nat, data: Bytes)
    requires done < |chunks| && EventsSoFar(events, channel, chunks, done)
    requires |chunks[done]| <= READ_MAX && data == Stripped(chunks[done])
    ensures EventsSoFar(events + Sent(channel, done + 1, data), channel, chunks, done + 1)
  {
  }

  lemma ReaderStarts(channel: string, chunks: seq<Bytes>)
    ensures DataSoFar([], chunks, 0) && EventsSoFar([], channel, chunks, 0)
  {
    assert chunks[0..] == chunks;
  }

  lemma ReaderEnds(events: seq<OutputEvent>, chunks: seq<Bytes>, done: nat)
    requires done <= |chunks| && DataSoFar(events, chunks, done) && (done < |chunks| ==> chunks[done] == [])
    ensures DataOf(events) == StrippedReads(chunks)
  {
    assert StrippedReads(chunks[done..]) == [];
    assert DataOf(events) + [] == DataOf(events);
  }

  /** The events after `done` reads: their bytes, their numbers and where they come from. */
  ghost predicate ReaderOk(events: seq<OutputEvent>, channel: string, chunks: seq<Bytes>, done: nat) {
    done <= |chunks| && DataSoFar(events, chunks, done) && EventsSoFar(events, channel, chunks, done)
  }

  /** One turn of the reader: number the read, strip it, and send it unless nothing is left. */
  method HandleRead(channel: string, seqNo: nat, raw: Bytes, ghost events: seq<OutputEvent>, ghost chunks: seq<Bytes>)
    returns (sent: seq<OutputEvent>)
    requires 1 <= seqNo <= |chunks| && raw == chunks[seqNo - 1] && 1 <= |raw| <= READ_MAX
    requires ReaderOk(events, channel, chunks, seqNo - 1)
    ensures ReaderOk(events + sent, channel, chunks, seqNo)
    ensures sent == Sent(channel, seqNo, Stripped(raw))
  {
    var data := StripDsr(raw);
    ReadKeepsData(events, channel, chunks, seqNo - 1, data);
    ReadKeepsEvents(events, channel, chunks, seqNo - 1, data);
    sent := if data == [] then [] else [OutputEvent(channel, seqNo, data)];
  }

  /** `chunks` are the results of successive PTY reads into a 4096-byte buffer; an
      empty one is the end. A read that strips to nothing still uses up a number. */
  method ReaderTask(channel: string, chunks: seq<Bytes>) returns (events: seq<OutputEvent>)
    requires forall i :: 0 <= i < |chunks| ==> |chunks[i]| <= READ_MAX
    ensures DataOf(events) == StrippedReads(chunks)
    ensures EventsSoFar(events, channel, chunks, |chunks|)
  {
    events := [];
    var seqNo := 0;
    ReaderStarts(channel, chunks);
    while seqNo < |chunks| && chunks[seqNo] != []
      invariant 0 <= seqNo <= |chunks|
      invariant ReaderOk(events, channel, chunks, seqNo)
    {
      seqNo := seqNo + 1;
      var sent := HandleRead(channel, seqNo, chunks[seqNo - 1], events, chunks);
      events := events + sent;
    }
    ReaderEnds(events, chunks, seqNo);
  }

  // ----- the batch loop

  datatype Batch = Batch(channel: string, seqNo: nat, data: Bytes)

  datatype Input = Arrived(event: OutputEvent) | Tick

  datatype ChannelBuffer = ChannelBuffer(data: Bytes, lastSeq: nat)

  type Buffers = map<string, ChannelBuffer>

  /** Everything received for a channel from reads numbered up to `upTo`, in order. */
  function Received(inputs: seq<Input>, channel: string, upTo: nat): Bytes {
    if inputs == [] then []
    else
      var last := inputs[|inputs| - 1];
      Received(inputs[..|inputs| - 1], channel, upTo)
      + if last.Arrived? && last.event.channel == channel && last.event.seqNo <= upTo then last.event.data else []
  }

  /** Everything received for a channel. */
  function Stream(inputs: seq<Input>, channel: string): Bytes {
    if inputs == [] then []
    else
      var last := inputs[|inputs| - 1];
      Stream(inputs[..|inputs| - 1], channel) + if last.Arrived? && last.event.channel == channel then last.event.data else []
  }

  /** The number of the channel's latest event, 0 before the first. */
  function LastSeq(inputs: seq<Input>, channel: string): nat {
    if inputs == [] then 0
    else
      var last := inputs[|inputs| - 1];
      if last.Arrived? && last.event.channel == channel then last.event.seqNo
      else LastSeq(inputs[..|inputs| - 1], channel)
  }

  function Emitted(out: seq<Batch>, channel: string): Bytes {
    if out == [] then []
    else
      Emitted(out[..|out| - 1], channel) + if out[|out| - 1].channel == channel then out[|out| - 1].data else []
  }

  function Residual(buffers: Buffers, channel: string): Bytes {
    if channel in buffers then buffers[channel].data else []
  }

  /** One reader per channel: numbers only grow, and no event is empty or larger than a read. */
  ghost predicate FromReaders(inputs: seq<Input>) {
    inputs != [] ==>
      var last, before := inputs[|inputs| - 1], inputs[..|inputs| - 1];
      && FromReaders(before)
      && (last.Arrived? ==> LastSeq(before, last.event.channel) < last.event.seqNo && 1 <= |last.event.data| <= READ_MAX)
  }

  /** Batch `j` closes exactly the channel's reads numbered up to its own number. */
  ghost predicate Aligned(inputs: seq<Input>, out: seq<Batch>, j: nat)
    requires j < |out|
  {
    && out[j].seqNo <= LastSeq(inputs, out[j].channel)
    && Emitted(out[..j + 1], out[j].channel) == Received(inputs, out[j].channel, out[j].seqNo)
  }

  /** Nothing is lost, duplicated or reordered within a channel. */
  ghost predicate Conserved(inputs: seq<Input>, out: seq<Batch>, buffers: Buffers, c: string) {
    && Emitted(out, c) + Residual(buffers, c) == Stream(inputs, c)
    && (c in buffers ==> buffers[c].lastSeq == LastSeq(inputs, c))
  }

  const BATCH_LIMIT := 8191

  ghost predicate BatchesOk(inputs: seq<Input>, out: seq<Batch>) {
    forall j :: 0 <= j < |out| ==> Aligned(inputs, out, j) && |out[j].data| <= BATCH_LIMIT
  }

  ghost predicate Inv(inputs: seq<Input>, out: seq<Batch>, buffers: Buffers) {
    && (forall c :: Conserved(inputs, out, buffers, c))
    && (forall j :: 0 <= j < |out| ==> out[j].data != [])
    && (FromReaders(inputs) ==> BatchesOk(inputs, out) && forall c :: c in buffers ==> |buffers[c].data| <= BATCH_LIMIT)
  }

  ghost predicate Small(buffers: Buffers) {
    forall c :: c in buffers ==> |buffers[c].data| < BATCH_MAX_BYTES
  }

  /** Up to its latest number, a channel has received everything. */
  lemma {:induction false} ReceivedIsStream(inputs: seq<Input>, c: string, upTo: nat)
    requires FromReaders(inputs) && LastSeq(inputs, c) <= upTo
    ensures Received(inputs, c, upTo) == Stream(inputs, c)
  {
    if inputs != [] {
      ReceivedIsStream(inputs[..|inputs| - 1], c, upTo);
    }
  }

  lemma InputAppends(inputs: seq<Input>, i: Input)
    ensures (inputs + [i])[..|inputs|] == inputs && (inputs + [i])[|inputs|] == i
    ensures FromReaders(inputs + [i]) ==> FromReaders(inputs)
  {
    assert (inputs + [i])[..|inputs|] == inputs;
  }

  lemma EmittedAppends(out: seq<Batch>, b: Batch, c: string)
    ensures Emitted(out + [b], c) == Emitted(out, c) + if b.channel == c then b.data else []
  {
    assert (out + [b])[..|out|] == out;
  }

  /** A later read of the channel does not count towards an earlier number. */
  lemma ArrivalKeepsBatches(inputs: seq<Input>, out: seq<Batch>, e: OutputEvent)
    requires FromReaders(inputs + [Arrived(e)]) && BatchesOk(inputs, out)
    ensures BatchesOk(inputs + [Arrived(e)], out)
  {
    InputAppends(inputs, Arrived(e));
    forall j | 0 <= j < |out| ensures Aligned(inputs + [Arrived(e)], out, j) && |out[j].data| <= BATCH_LIMIT {
      assert Aligned(inputs, out, j);
    }
  }

  function Buffered(buffers: Buffers, e: OutputEvent): Buffers {
    buffers[e.channel := ChannelBuffer(Residual(buffers, e.channel) + e.data, e.seqNo)]
  }

  /** An arrival only appends to its own channel's buffer. */
  lemma ArrivalKeepsInv(inputs: seq<Input>, out: seq<Batch>, buffers: Buffers, e: OutputEvent)
    requires Inv(inputs, out, buffers) && Small(buffers)
    ensures Inv(inputs + [Arrived(e)], out, Buffered(buffers, e))
  {
    InputAppends(inputs, Arrived(e));
    forall c ensures Conserved(inputs + [Arrived(e)], out, Buffered(buffers, e), c) {
      assert Conserved(inputs, out, buffers, c);
    }
    if FromReaders(inputs + [Arrived(e)]) {
      ArrivalKeepsBatches(inputs, out, e);
    }
  }

  function Flushed(buffers: Buffers, c: string): Buffers
    requires c in buffers
  {
    buffers[c := buffers[c].(data := [])]
  }

  function BatchOf(buffers: Buffers, c: string): Batch
    requires c in buffers
  {
    Batch(c, buffers[c].lastSeq, buffers[c].data)
  }

  /** Flushing moves a channel's buffer to the output. */
  lemma FlushKeepsInv(inputs: seq<Input>, out: seq<Batch>, buffers: Buffers, c: string)
    requires Inv(inputs, out, buffers) && c in buffers && buffers[c].data != []
    ensures Inv(inputs, out + [BatchOf(buffers, c)], Flushed(buffers, c))
  {
    var b := BatchOf(buffers, c);
    var sent := out + [b];
    forall d ensures Conserved(inputs, sent, Flushed(buffers, c), d) {
      assert Conserved(inputs, out, buffers, d);
      EmittedAppends(out, b, d);
    }
    if FromReaders(inputs) {
      forall j | 0 <= j < |sent| ensures Aligned(inputs, sent, j) && |sent[j].data| <= BATCH_LIMIT {
        if j < |out| {
          assert Aligned(inputs, out, j);
          assert sent[..j + 1] == out[..j + 1];
        } else {
          assert sent[..j + 1] == sent;
          assert Conserved(inputs, sent, Flushed(buffers, c), c) && Conserved(inputs, out, buffers, c);
          ReceivedIsStream(inputs, c, b.seqNo);
        }
      }
    }
  }

  lemma TickKeepsInv(inputs: seq<Input>, out: seq<Batch>, buffers: Buffers)
    requires Inv(inputs, out, buffers)
    ensures Inv(inputs + [Tick], out, buffers)
  {
    InputAppends(inputs, Tick);
    forall c ensures Conserved(inputs + [Tick], out, buffers, c) {
      assert Conserved(inputs, out, buffers, c);
    }
    if FromReaders(inputs) {
      forall j | 0 <= j < |out| ensures Aligned(inputs + [Tick], out, j) && |out[j].data| <= BATCH_LIMIT {
        assert Aligned(inputs, out, j);
      }
    }
  }

  /** The timer arm: flush every non-empty channel, in whatever order the map yields them. */
  method FlushAll(ghost inputs: seq<Input>, out: seq<Batch>, buffers: Buffers) returns (sent: seq<Batch>, held: Buffers)
    requires Inv(inputs, out, buffers) && Small(buffers)
    ensures Inv(inputs, sent, held) && out <= sent
    ensures held.Keys == buffers.Keys && forall c :: c in held ==> held[c].data == []
    ensures FlushedFrom(buffers, sent[|out|..], held)
  {
    hide Inv, FlushedFrom, Small;
    sent, held := out, buffers;
    NothingFlushed(out, buffers);
    var ids := set c | c in buffers && buffers[c].data != [];
    while ids != {}
      invariant Inv(inputs, sent, held) && out <= sent && held.Keys == buffers.Keys
      invariant FlushedFrom(buffers, sent[|out|..], held)
      invariant ids <= held.Keys && forall c :: c in held ==> (c in ids <==> held[c].data != [])
      decreases |ids|
    {
      var id :| id in ids;
      FlushKeepsInv(inputs, sent, held, id);
      FlushOneMore(buffers, sent[|out|..], held, id);
      assert (sent + [BatchOf(held, id)])[|out|..] == sent[|out|..] + [BatchOf(held, id)];
      sent := sent + [BatchOf(held, id)];
      held := Flushed(held, id);
      ids := ids - {id};
    }
  }

  /** After the first `n` inputs, when `sent` batches had been sent, less than 4096 bytes
      of each channel were held back, and none after a tick. */
  ghost predicate OnTimeAt(inputs: seq<Input>, out: seq<Batch>, n: nat, sent: nat)
    requires n <= |inputs| && sent <= |out|
  {
    forall c {:trigger Emitted(out[..sent], c)} ::
      && Emitted(out[..sent], c) <= Stream(inputs[..n], c)
      && |Stream(inputs[..n], c)| - |Emitted(out[..sent], c)| < 4096
      && (n > 0 && inputs[n - 1] == Tick ==> Emitted(out[..sent], c) == Stream(inputs[..n], c))
  }

  /** `marks[n]` batches were sent by the time `n` inputs had been taken. */
  ghost predicate OnTime(inputs: seq<Input>, out: seq<Batch>, marks: seq<nat>) {
    && |marks| == |inputs| + 1 && marks[0] == 0 && marks[|inputs|] == |out|
    && (forall m, n :: 0 <= m < n <= |inputs| ==> marks[m] <= marks[n])
    && (forall n :: 0 <= n <= |inputs| ==> marks[n] <= |out| && OnTimeAt(inputs, out, n, marks[n]))
  }

  lemma {:induction false} HeldBackIsResidual(inputs: seq<Input>, out: seq<Batch>, buffers: Buffers)
    requires Inv(inputs, out, buffers) && Small(buffers)
    requires inputs != [] && inputs[|inputs| - 1] == Tick ==> forall c :: c in buffers ==> buffers[c].data == []
    ensures OnTimeAt(inputs, out, |inputs|, |out|)
  {
    assert inputs[..|inputs|] == inputs && out[..|out|] == out;
    forall c
      ensures Emitted(out, c) <= Stream(inputs, c) && |Stream(inputs, c)| - |Emitted(out, c)| < BATCH_MAX_BYTES
      ensures inputs != [] && inputs[|inputs| - 1] == Tick ==> Emitted(out, c) == Stream(inputs, c)
    {
      assert Conserved(inputs, out, buffers, c);
      assert Emitted(out, c) + Residual(buffers, c) == Stream(inputs, c) && |Residual(buffers, c)| < BATCH_MAX_BYTES;
      if Residual(buffers, c) == [] { assert Emitted(out, c) + [] == Emitted(out, c); }
    }
  }

  lemma {:induction false} MarkAppends(inputs: seq<Input>, out: seq<Batch>, marks: seq<nat>, i: Input, more: seq<Batch>)
    requires OnTime(inputs, out, marks) && out <= more && OnTimeAt(inputs + [i], more, |inputs| + 1, |more|)
    ensures OnTime(inputs + [i], more, marks + [|more|])
  {
    hide Emitted, Stream;
    var longer, now := inputs + [i], marks + [|more|];
    forall n | 0 <= n <= |longer| ensures now[n] <= |more| && OnTimeAt(longer, more, n, now[n]) {
      if n <= |inputs| {
        assert OnTimeAt(inputs, out, n, marks[n]);
        assert longer[..n] == inputs[..n] && more[..marks[n]] == out[..marks[n]];
      }
    }
  }

  // ----- when a batch is sent, and what is in it

  /** What waits for a channel: its bytes since it was last sent, at a tick or on reaching 4096. */
  function Waiting(inputs: seq<Input>, c: string): Bytes {
    if inputs == [] then []
    else
      var before, last := inputs[..|inputs| - 1], inputs[|inputs| - 1];
      match last
      case Tick => []
      case Arrived(e) =>
        if e.channel != c then Waiting(before, c)
        else if |Waiting(before, c) + e.data| >= 4096 then []
        else Waiting(before, c) + e.data
  }

  /** The batches sent on taking input `i`: one for a channel that reaches 4096 bytes, and at a
      tick one for every channel with waiting bytes, in some order. */
  ghost predicate SendsOn(before: seq<Input>, i: Input, sent: seq<Batch>) {
    match i
    case Arrived(e) =>
      var bytes := Waiting(before, e.channel) + e.data;
      sent == if |bytes| >= 4096 then [Batch(e.channel, e.seqNo, bytes)] else []
    case Tick =>
      && (forall j :: 0 <= j < |sent| ==>
            sent[j].data != [] && sent[j] == Batch(sent[j].channel, LastSeq(before, sent[j].channel), Waiting(before, sent[j].channel)))
      && (forall j, k :: 0 <= j < k < |sent| ==> sent[j].channel != sent[k].channel)
      && (forall c :: Waiting(before, c) != [] ==> exists j :: 0 <= j < |sent| && sent[j].channel == c)
  }

  /** The buffers hold what waits. */
  ghost predicate HoldsWaiting(inputs: seq<Input>, buffers: Buffers) {
    forall c :: Residual(buffers, c) == Waiting(inputs, c)
  }

  lemma {:induction false} WaitingAfter(before: seq<Input>, i: Input, c: string)
    ensures Waiting(before + [i], c) ==
            if i == Tick then []
            else if i.event.channel != c then Waiting(before, c)
            else if |Waiting(before, c) + i.event.data| >= BATCH_MAX_BYTES then []
            else Waiting(before, c) + i.event.data
  {
    assert (before + [i])[..|before|] == before;
  }

  lemma {:induction false} ArrivalHoldsWaiting(before: seq<Input>, buffers: Buffers, e: OutputEvent, held: Buffers)
    requires HoldsWaiting(before, buffers)
    requires var bytes := Residual(buffers, e.channel) + e.data;
             held == buffers[e.channel := ChannelBuffer(if |bytes| >= BATCH_MAX_BYTES then [] else bytes, e.seqNo)]
    ensures HoldsWaiting(before + [Arrived(e)], held)
  {
    hide Waiting;
    forall c ensures Residual(held, c) == Waiting(before + [Arrived(e)], c) { WaitingAfter(before, Arrived(e), c); }
  }

  lemma {:induction false} TickHoldsWaiting(before: seq<Input>, held: Buffers)
    requires forall c :: c in held ==> held[c].data == []
    ensures HoldsWaiting(before + [Tick], held)
  {
    hide Waiting;
    forall c ensures Residual(held, c) == Waiting(before + [Tick], c) { WaitingAfter(before, Tick, c); }
  }

  /** The flushed channels, one batch each, with what their buffers held. */
  ghost predicate FlushedFrom(buffers: Buffers, sent: seq<Batch>, held: Buffers) {
    && (forall j :: 0 <= j < |sent| ==> sent[j].channel in buffers && sent[j] == BatchOf(buffers, sent[j].channel) && sent[j].data != [])
    && (forall j, k :: 0 <= j < k < |sent| ==> sent[j].channel != sent[k].channel)
    && (forall c :: c in buffers ==> c in held && (held[c] == buffers[c] || exists j :: 0 <= j < |sent| && sent[j].channel == c))
    && (forall j :: 0 <= j < |sent| ==> sent[j].channel in held && held[sent[j].channel].data == [])
  }

  lemma {:induction false} NothingFlushed(out: seq<Batch>, buffers: Buffers)
    ensures FlushedFrom(buffers, out[|out|..], buffers)
  {
  }

  lemma {:induction false} FlushOneMore(buffers: Buffers, sent: seq<Batch>, held: Buffers, id: string)
    requires FlushedFrom(buffers, sent, held) && id in buffers && id in held && held[id].data != []
    ensures FlushedFrom(buffers, sent + [BatchOf(held, id)], Flushed(held, id))
  {
    var more := sent + [BatchOf(held, id)];
    assert held[id] == buffers[id];
    forall c | c in buffers && Flushed(held, id)[c] != buffers[c] ensures exists j :: 0 <= j < |more| && more[j].channel == c {
      if c == id { assert more[|sent|].channel == c; }
      else {
        var j :| 0 <= j < |sent| && sent[j].channel == c;
        assert more[j].channel == c;
      }
    }
  }

  lemma {:induction false} TickSends(before: seq<Input>, out: seq<Batch>, buffers: Buffers, sent: seq<Batch>, held: Buffers)
    requires Inv(before, out, buffers) && HoldsWaiting(before, buffers)
    requires FlushedFrom(buffers, sent, held) && forall c :: c in held ==> held[c].data == []
    ensures SendsOn(before, Tick, sent)
  {
    hide Waiting, Emitted, Stream, LastSeq;
    forall j | 0 <= j < |sent|
      ensures sent[j] == Batch(sent[j].channel, LastSeq(before, sent[j].channel), Waiting(before, sent[j].channel))
    {
      assert Conserved(before, out, buffers, sent[j].channel) && Residual(buffers, sent[j].channel) == Waiting(before, sent[j].channel);
    }
    forall c | Waiting(before, c) != [] ensures exists j :: 0 <= j < |sent| && sent[j].channel == c {
      assert Residual(buffers, c) == Waiting(before, c);
    }
  }

  /** Batch by batch, what each input makes the loop send. */
  ghost predicate SentExactly(inputs: seq<Input>, out: seq<Batch>, marks: seq<nat>) {
    && |marks| == |inputs| + 1 && marks[0] == 0 && marks[|inputs|] == |out|
    && forall n :: 0 <= n < |inputs| ==> SentAt(inputs, out, marks, n)
  }

  ghost predicate SentAt(inputs: seq<Input>, out: seq<Batch>, marks: seq<nat>, n: nat)
    requires n < |inputs| && |marks| == |inputs| + 1
  {
    marks[n] <= marks[n + 1] <= |out| && SendsOn(inputs[..n], inputs[n], out[marks[n]..marks[n + 1]])
  }

  lemma {:induction false} SentOneMore(inputs: seq<Input>, out: seq<Batch>, marks: seq<nat>, i: Input, more: seq<Batch>)
    requires SentExactly(inputs, out, marks) && out <= more && SendsOn(inputs, i, more[|out|..])
    ensures SentExactly(inputs + [i], more, marks + [|more|])
  {
    hide SendsOn;
    var longer, now := inputs + [i], marks + [|more|];
    forall n | 0 <= n < |longer| ensures SentAt(longer, more, now, n) {
      if n < |inputs| {
        assert SentAt(inputs, out, marks, n);
        assert longer[..n] == inputs[..n] && more[marks[n]..marks[n + 1]] == out[marks[n]..marks[n + 1]];
      } else {
        assert longer[..n] == inputs && more[|out|..|more|] == more[|out|..];
      }
    }
  }

  /** One input of the loop. */
  method BatchOne(ghost inputs: seq<Input>, out: seq<Batch>, residual: Buffers, i: Input) returns (sent: seq<Batch>, held: Buffers)
    requires Inv(inputs, out, residual) && Small(residual)
    ensures Inv(inputs + [i], sent, held) && Small(held) && out <= sent
    ensures i == Tick ==> forall c :: c in held ==> held[c].data == []
    ensures HoldsWaiting(inputs, residual) ==> HoldsWaiting(inputs + [i], held) && SendsOn(inputs, i, sent[|out|..])
  {
    hide Waiting;
    match i {
      case Arrived(e) =>
        ArrivalKeepsInv(inputs, out, residual, e);
        var buf := ChannelBuffer(Residual(residual, e.channel) + e.data, e.seqNo);
        sent, held := out, residual[e.channel := buf];
        if |buf.data| >= BATCH_MAX_BYTES {
          FlushKeepsInv(inputs + [i], out, held, e.channel);
          sent := out + [Batch(e.channel, buf.lastSeq, buf.data)];
          held := held[e.channel := buf.(data := [])];
        }
        if HoldsWaiting(inputs, residual) { ArrivalHoldsWaiting(inputs, residual, e, held); }
      case Tick =>
        TickKeepsInv(inputs, out, residual);
        sent, held := FlushAll(inputs + [i], out, residual);
        if HoldsWaiting(inputs, residual) {
          TickHoldsWaiting(inputs, held);
          TickSends(inputs, out, residual, sent[|out|..], held);
        }
    }
  }

  /** The whole loop over the inputs that arrive before its channel closes; what is
      still in `residual` at that point is dropped. */
  method BatchLoop(inputs: seq<Input>) returns (out: seq<Batch>, residual: Buffers, marks: seq<nat>)
    ensures forall c :: Conserved(inputs, out, residual, c)
    ensures forall j :: 0 <= j < |out| ==> out[j].data != []
    ensures FromReaders(inputs) ==> BatchesOk(inputs, out)
    ensures Small(residual) && OnTime(inputs, out, marks)
    ensures HoldsWaiting(inputs, residual) && SentExactly(inputs, out, marks)
  {
    out, residual, marks := [], map[], [0];
    assert inputs[..|inputs|] == inputs;
    HeldBackIsResidual([], out, residual);
    for i := 0 to |inputs|
      invariant Inv(inputs[..i], out, residual) && Small(residual) && OnTime(inputs[..i], out, marks)
      invariant HoldsWaiting(inputs[..i], residual) && SentExactly(inputs[..i], out, marks)
    {
      assert inputs[..i + 1] == inputs[..i] + [inputs[i]];
      ghost var before := out;
      out, residual := BatchOne(inputs[..i], out, residual, inputs[i]);
      HeldBackIsResidual(inputs[..i + 1], out, residual);
      MarkAppends(inputs[..i], before, marks, inputs[i], out);
      SentOneMore(inputs[..i], before, marks, inputs[i], out);
      marks := marks + [|out|];
    }
  }

  // ----- consequences for a consumer that follows one channel

  lemma {:induction false} EmittedGrows(out: seq<Batch>, i: nat, j: nat, c: string)
    requires i <= j <= |out|
    ensures |Emitted(out[..i], c)| <= |Emitted(out[..j], c)|
    decreases j
  {
    if i < j {
      assert out[..j] == out[..j - 1] + [out[j - 1]];
      EmittedAppends(out[..j - 1], out[j - 1], c);
      EmittedGrows(out, i, j - 1, c);
    }
  }

  lemma {:induction false} ReceivedGrows(inputs: seq<Input>, c: string, small: nat, large: nat)
    requires small <= large
    ensures |Received(inputs, c, small)| <= |Received(inputs, c, large)|
  {
    if inputs != [] {
      ReceivedGrows(inputs[..|inputs| - 1], c, small, large);
    }
  }

  /** The numbers of a channel's batches strictly increase. */
  lemma BatchNumbersIncrease(inputs: seq<Input>, out: seq<Batch>, i: nat, j: nat)
    requires BatchesOk(inputs, out) && i < j < |out| && out[i].channel == out[j].channel && out[j].data != []
    ensures out[i].seqNo < out[j].seqNo
  {
    hide Emitted, Received, LastSeq;
    var c := out[i].channel;
    assert Aligned(inputs, out, i) && Aligned(inputs, out, j);
    EmittedGrows(out, i + 1, j, c);
    assert out[..j + 1] == out[..j] + [out[j]];
    EmittedAppends(out[..j], out[j], c);
    if out[j].seqNo <= out[i].seqNo {
      ReceivedGrows(inputs, c, out[j].seqNo, out[i].seqNo);
    }
  }

  // ----- readers and batcher together

  function EventsOf(inputs: seq<Input>, channel: string): seq<OutputEvent> {
    if inputs == [] then []
    else
      var last := inputs[|inputs| - 1];
      EventsOf(inputs[..|inputs| - 1], channel) + if last.Arrived? && last.event.channel == channel then [last.event] else []
  }

  /** The inputs are some merge of ticks with what a reader task produced per channel. */
  ghost predicate MergeOfReaders(inputs: seq<Input>, chunks: string -> seq<Bytes>) {
    forall c {:trigger EventsOf(inputs, c)} ::
      && Numbered(EventsOf(inputs, c), |chunks(c)|)
      && forall i :: 0 <= i < |EventsOf(inputs, c)| ==> IsRead(EventsOf(inputs, c)[i], c, chunks(c))
  }

  lemma {:induction false} StreamIsData(inputs: seq<Input>, c: string)
    ensures Stream(inputs, c) == DataOf(EventsOf(inputs, c))
  {
    if inputs != [] {
      var before, last := inputs[..|inputs| - 1], inputs[|inputs| - 1];
      StreamIsData(before, c);
      if last.Arrived? && last.event.channel == c {
        DataOfAppend(EventsOf(before, c), last.event);
      } else {
        assert EventsOf(inputs, c) == EventsOf(before, c);
      }
    }
  }

  lemma {:induction false} LastSeqIsLastEvent(inputs: seq<Input>, c: string)
    ensures var events := EventsOf(inputs, c); LastSeq(inputs, c) == if events == [] then 0 else events[|events| - 1].seqNo
  {
    if inputs != [] {
      LastSeqIsLastEvent(inputs[..|inputs| - 1], c);
    }
  }

  lemma PrefixIsMerge(inputs: seq<Input>, chunks: string -> seq<Bytes>)
    requires inputs != [] && MergeOfReaders(inputs, chunks)
    ensures MergeOfReaders(inputs[..|inputs| - 1], chunks)
  {
    var before := inputs[..|inputs| - 1];
    forall c
      ensures Numbered(EventsOf(before, c), |chunks(c)|)
      ensures forall i :: 0 <= i < |EventsOf(before, c)| ==> IsRead(EventsOf(before, c)[i], c, chunks(c))
    {
      assert forall i :: 0 <= i < |EventsOf(before, c)| ==> EventsOf(before, c)[i] == EventsOf(inputs, c)[i];
    }
  }

  lemma {:induction false} MergeIsFromReaders(inputs: seq<Input>, chunks: string -> seq<Bytes>)
    requires MergeOfReaders(inputs, chunks)
    ensures FromReaders(inputs)
  {
    if inputs != [] {
      var before, last := inputs[..|inputs| - 1], inputs[|inputs| - 1];
      PrefixIsMerge(inputs, chunks);
      MergeIsFromReaders(before, chunks);
      if last.Arrived? {
        var c := last.event.channel;
        LastSeqIsLastEvent(before, c);
        var events := EventsOf(inputs, c);
        assert events == EventsOf(before, c) + [last.event];
        assert IsRead(events[|events| - 1], c, chunks(c));
        if EventsOf(before, c) != [] {
          assert events[|events| - 2] == EventsOf(before, c)[|events| - 2];
        }
      }
    }
  }
}
