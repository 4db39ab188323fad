/** Cutting an enriched test payload into byte-bounded request bodies. */
module Splitting {
  import opened Json
  import opened Serialization

  datatype SplitError =
    | InvalidPayload
    | NonPositiveLimit
    | WithoutEvents
    | DirectoryUnavailable
    | NotSerializable
    | EnvelopeExceedsLimit
    | SingleEventExceedsLimit(event: nat)
    | WriteFailed(index: nat)

  datatype Chunk = Chunk(index: nat, body: Bytes, start: nat, end: nat)

  datatype Result<+T> = Ok(value: T) | Err(error: SplitError)

  datatype Range = Range(start: nat, end: nat)

  // ---------------------------------------------------------------- the specification

  const EVENTS: string := "events"

  predicate HasEvents(payload: Json) {
    payload.Obj? && Get(payload.fields, EVENTS).Some? && Get(payload.fields, EVENTS).value.Arr?
  }

  function Events(payload: Json): seq<Json>
    requires HasEvents(payload)
  {
    Get(payload.fields, EVENTS).value.items
  }

  /** The payload with its events replaced. */
  function WithEvents(payload: Json, events: seq<Json>): Json
    requires payload.Obj?
  {
    Obj(Put(payload.fields, EVENTS, Arr(events)))
  }

  /** The canonical request body for the events in [start, end). */
  function SliceBody(p: Printer, payload: Json, start: nat, end: nat): Bytes
    requires HasEvents(payload) && start <= end <= |Events(payload)|
  {
    Encode(p, WithEvents(payload, Events(payload)[start..end]))
  }

  ghost predicate Fits(p: Printer, payload: Json, limit: int, r: Range)
    requires HasEvents(payload)
  {
    r.start <= r.end <= |Events(payload)| && |SliceBody(p, payload, r.start, r.end)| <= limit
  }

  /** Non-empty ranges that cover [from, n) in order. */
  ghost predicate TilesFrom(rs: seq<Range>, from: nat, n: nat) {
    if rs == [] then from == n
    else rs[0].start == from < rs[0].end <= n && TilesFrom(rs[1..], rs[0].end, n)
  }

  /** A contiguous partition of the events into bodies within the limit. */
  ghost predicate Partition(p: Printer, payload: Json, limit: int, rs: seq<Range>)
    requires HasEvents(payload)
  {
    TilesFrom(rs, 0, |Events(payload)|) && forall k :: 0 <= k < |rs| ==> Fits(p, payload, limit, rs[k])
  }

  function RangesOf(chunks: seq<Chunk>): (rs: seq<Range>)
    ensures |rs| == |chunks|
  {
    seq(|chunks|, k requires 0 <= k < |chunks| => Range(chunks[k].start, chunks[k].end))
  }

  // ---------------------------------------------------------------- the frame around the events

  /** Bytes that precede and follow the comma-joined events, whatever the events are. */
  ghost predicate IsFrame(p: Printer, payload: Json, prefix: Bytes, suffix: Bytes)
    requires payload.Obj?
  {
    forall events: seq<Json> ::
      Encode(p, WithEvents(payload, events)) == prefix + Join(EncodeAll(p, events)) + suffix
  }

  function FramePrefix(p: Printer, before: Dict): Bytes {
    [LEFT_BRACE] + (if before == [] then [] else Join(EncodeFields(p, before)) + [COMMA]) +
      (p.text(EVENTS) + [COLON, LEFT_BRACKET])
  }

  function FrameSuffix(p: Printer, after: Dict): Bytes {
    [RIGHT_BRACKET] + (if after == [] then [] else [COMMA] + Join(EncodeFields(p, after))) + [RIGHT_BRACE]
  }

  method BuildFrame(p: Printer, before: seq<Bytes>, after: seq<Bytes>, ghost front: Dict, ghost back: Dict)
      returns (prefix: Bytes, suffix: Bytes)
    requires before == EncodeFields(p, front) && after == EncodeFields(p, back)
    ensures prefix == FramePrefix(p, front) && suffix == FrameSuffix(p, back)
  {
    prefix := [LEFT_BRACE];
    if before != [] {
      prefix := prefix + (Join(before) + [COMMA]);
    }
    prefix := prefix + (p.text(EVENTS) + [COLON, LEFT_BRACKET]);
    suffix := [RIGHT_BRACKET];
    if after != [] {
      suffix := suffix + ([COMMA] + Join(after));
    }
    suffix := suffix + [RIGHT_BRACE];
  }

  lemma FrameIsExact(p: Printer, payload: Json, i: nat)
    requires payload.Obj? && DistinctKeys(payload.fields) && i < |payload.fields| && payload.fields[i].key == EVENTS
    ensures IsFrame(p, payload, FramePrefix(p, payload.fields[..i]), FrameSuffix(p, payload.fields[i + 1..]))
  {
    var d := payload.fields;
    forall events: seq<Json>
      ensures Encode(p, WithEvents(payload, events)) ==
              FramePrefix(p, d[..i]) + Join(EncodeAll(p, events)) + FrameSuffix(p, d[i + 1..])
    {
      FrameBytes(p, d[..i], d[i + 1..], events);
      EventsInPlace(d, i, events);
    }
  }

  lemma EventsInPlace(d: Dict, i: nat, events: seq<Json>)
    requires DistinctKeys(d) && i < |d| && d[i].key == EVENTS
    ensures Put(d, EVENTS, Arr(events)) == d[..i] + ([Field(EVENTS, Arr(events))] + d[i + 1..])
  {
    FindAt(d, i);
  }

  lemma EventsFieldBytes(p: Printer, events: seq<Json>)
    ensures EncodeFields(p, [Field(EVENTS, Arr(events))]) == [EncodeField(p, Field(EVENTS, Arr(events)))]
    ensures EncodeField(p, Field(EVENTS, Arr(events)))
         == p.text(EVENTS) + [COLON, LEFT_BRACKET] + Join(EncodeAll(p, events)) + [RIGHT_BRACKET]
  {
    assert Encode(p, Arr(events)) == [LEFT_BRACKET] + Join(EncodeAll(p, events)) + [RIGHT_BRACKET];
  }

  lemma FrameBytes(p: Printer, before: Dict, after: Dict, events: seq<Json>)
    ensures Encode(p, Obj(before + ([Field(EVENTS, Arr(events))] + after)))
         == FramePrefix(p, before) + Join(EncodeAll(p, events)) + FrameSuffix(p, after)
  {
    var field := Field(EVENTS, Arr(events));
    var head := if before == [] then [] else Join(EncodeFields(p, before)) + [COMMA];
    var tail := if after == [] then [] else [COMMA] + Join(EncodeFields(p, after));
    EventsFieldBytes(p, events);
    JoinAround(p, before, field, after, head, tail);
    Reassociate(head, p.text(EVENTS), Join(EncodeAll(p, events)), tail);
  }

  /** The fields of an object around one of them. */
  lemma JoinAround(p: Printer, before: Dict, field: Field, after: Dict, head: Bytes, tail: Bytes)
    requires head == if before == [] then [] else Join(EncodeFields(p, before)) + [COMMA]
    requires tail == if after == [] then [] else [COMMA] + Join(EncodeFields(p, after))
    ensures Join(EncodeFields(p, before + ([field] + after))) == head + (EncodeField(p, field) + tail)
  {
    EncodeFieldsAppend(p, before, [field] + after);
    EncodeFieldsAppend(p, [field], after);
    assert EncodeFields(p, [field]) == [EncodeField(p, field)];
    Around(EncodeFields(p, before), EncodeField(p, field), EncodeFields(p, after), head, tail);
  }

  lemma Around(before: seq<Bytes>, x: Bytes, after: seq<Bytes>, head: Bytes, tail: Bytes)
    requires head == if before == [] then [] else Join(before) + [COMMA]
    requires tail == if after == [] then [] else [COMMA] + Join(after)
    ensures Join(before + ([x] + after)) == head + (x + tail)
  {
    JoinAppend(before, [x] + after);
    JoinAppend([x], after);
    assert Join([x]) == x;
    assert Join([x] + after) == x + tail;
  }

  lemma Reassociate(head: Bytes, name: Bytes, inner: Bytes, tail: Bytes)
    ensures [LEFT_BRACE] + (head + (name + [COLON, LEFT_BRACKET] + inner + [RIGHT_BRACKET] + tail)) + [RIGHT_BRACE]
         == ([LEFT_BRACE] + head + (name + [COLON, LEFT_BRACKET])) + inner + ([RIGHT_BRACKET] + tail + [RIGHT_BRACE])
  {
  }

  /** Encoded fields met before the events key, and after it, in the first i fields. */
  ghost function Before(p: Printer, d: Dict, i: nat): seq<Bytes>
    requires i <= |d|
  {
    EncodeFields(p, d[..if Find(d, EVENTS) < i then Find(d, EVENTS) else i])
  }

  ghost function After(p: Printer, d: Dict, i: nat): seq<Bytes>
    requires i <= |d|
  {
    if Find(d, EVENTS) < i then EncodeFields(p, d[Find(d, EVENTS) + 1..i]) else []
  }

  lemma ListsStep(p: Printer, d: Dict, i: nat)
    requires DistinctKeys(d) && i < |d|
    ensures d[i].key == EVENTS <==> i == Find(d, EVENTS)
    ensures Before(p, d, i + 1) == if i < Find(d, EVENTS) then Before(p, d, i) + [EncodeField(p, d[i])]
            else Before(p, d, i)
    ensures After(p, d, i + 1) == if Find(d, EVENTS) < i then After(p, d, i) + [EncodeField(p, d[i])]
            else After(p, d, i)
  {
    var at := Find(d, EVENTS);
    FindAt(d, i);
    if i < at {
      EncodeFieldsSnoc(p, d, 0, i);
    } else if at < i {
      EncodeFieldsSnoc(p, d, at + 1, i);
    }
  }

  /** The two lists of encoded fields around the events key. */
  method FieldLists(p: Printer, d: Dict) returns (found: bool, before: seq<Bytes>, after: seq<Bytes>)
    requires DistinctKeys(d)
    ensures found <==> Has(d, EVENTS)
    ensures found ==>
            before == EncodeFields(p, d[..Find(d, EVENTS)]) && after == EncodeFields(p, d[Find(d, EVENTS) + 1..])
  {
    found, before, after := false, [], [];
    for i := 0 to |d|
      invariant found <==> Find(d, EVENTS) < i
      invariant before == Before(p, d, i) && after == After(p, d, i)
    {
      ListsStep(p, d, i);
      if d[i].key == EVENTS {
        found := true;
      } else {
        var entry := p.text(d[i].key) + [COLON] + Encode(p, d[i].value);
        if found {
          after := after + [entry];
        } else {
          before := before + [entry];
        }
      }
    }
    if found {
      assert d[Find(d, EVENTS) + 1..|d|] == d[Find(d, EVENTS) + 1..];
    }
  }

  lemma EncodeFieldsSnoc(p: Printer, d: Dict, from: nat, i: nat)
    requires from <= i < |d|
    ensures EncodeFields(p, d[from..i + 1]) == EncodeFields(p, d[from..i]) + [EncodeField(p, d[i])]
  {
    assert d[from..i + 1] == d[from..i] + [d[i]];
    EncodeFieldsAppend(p, d[from..i], [d[i]]);
    assert EncodeFields(p, [d[i]]) == [EncodeField(p, d[i])];
  }

  /** `_event_array_frame`: one pass over the fields, switching lists at the events key. */
  method EventArrayFrame(p: Printer, payload: Json) returns (found: bool, prefix: Bytes, suffix: Bytes)
    requires payload.Obj? && DistinctKeys(payload.fields)
    ensures found <==> Has(payload.fields, EVENTS)
    ensures found ==> IsFrame(p, payload, prefix, suffix)
  {
    var d := payload.fields;
    var before, after;
    found, before, after := FieldLists(p, d);
    if !found { return false, [], []; }
    var at := Find(d, EVENTS);
    FrameIsExact(p, payload, at);
    prefix, suffix := BuildFrame(p, before, after, d[..at], d[at + 1..]);
  }

  // ---------------------------------------------------------------- sizes

  /** Bytes of a chunk from its frame and its serialized events. */
  function ChunkSize(envelope: nat, bodies: seq<Bytes>, start: nat, end: nat): nat
    requires start < end <= |bodies|
  {
    envelope + Total(bodies[start..end]) + (end - start - 1)
  }

  lemma SliceSize(p: Printer, payload: Json, prefix: Bytes, suffix: Bytes, start: nat, end: nat)
    requires HasEvents(payload) && IsFrame(p, payload, prefix, suffix) && start < end <= |Events(payload)|
    ensures SliceBody(p, payload, start, end) == prefix + Join(EncodeAll(p, Events(payload))[start..end]) + suffix
    ensures |SliceBody(p, payload, start, end)| ==
            ChunkSize(|prefix| + |suffix|, EncodeAll(p, Events(payload)), start, end)
  {
    EncodeAllSlice(p, Events(payload), start, end);
    JoinSize(EncodeAll(p, Events(payload))[start..end]);
  }

  lemma SizeExtend(envelope: nat, bodies: seq<Bytes>, start: nat, end: nat)
    requires start < end < |bodies|
    ensures ChunkSize(envelope, bodies, start, end + 1) == ChunkSize(envelope, bodies, start, end) + 1 + |bodies[end]|
  {
    assert bodies[start..end + 1] == bodies[start..end] + [bodies[end]];
    TotalAppend(bodies[start..end], [bodies[end]]);
    assert Total([bodies[end]]) == |bodies[end]|;
  }

  lemma SizeOne(envelope: nat, bodies: seq<Bytes>, i: nat)
    requires i < |bodies|
    ensures ChunkSize(envelope, bodies, i, i + 1) == envelope + |bodies[i]|
  {
    assert bodies[i..i + 1] == [bodies[i]];
    assert Total([bodies[i]]) == |bodies[i]|;
  }

  /** A sub-range never needs more bytes. */
  lemma SizeMonotone(envelope: nat, bodies: seq<Bytes>, start: nat, end: nat, start': nat, end': nat)
    requires start <= start' < end' <= end <= |bodies|
    ensures ChunkSize(envelope, bodies, start', end') <= ChunkSize(envelope, bodies, start, end)
  {
    assert bodies[start..end] == bodies[start..start'] + (bodies[start'..end'] + bodies[end'..end]);
    TotalAppend(bodies[start..start'], bodies[start'..end'] + bodies[end'..end]);
    TotalAppend(bodies[start'..end'], bodies[end'..end]);
  }

  // ---------------------------------------------------------------- tilings

  lemma {:induction false} TilesExtend(rs: seq<Range>, from: nat, n: nat, end: nat)
    requires TilesFrom(rs, from, n) && n < end
    ensures TilesFrom(rs + [Range(n, end)], from, end)
  {
    if rs == [] {
      assert (rs + [Range(n, end)])[1..] == [];
    } else {
      TilesExtend(rs[1..], rs[0].end, n, end);
      assert (rs + [Range(n, end)])[1..] == rs[1..] + [Range(n, end)];
      TilesWiden(rs[1..], rs[0].end, n);
    }
  }

  lemma {:induction false} TilesWiden(rs: seq<Range>, from: nat, n: nat)
    requires TilesFrom(rs, from, n)
    ensures from <= n
    ensures forall k :: 0 <= k < |rs| ==> from <= rs[k].start < rs[k].end <= n
    ensures forall k :: 0 <= k < |rs| - 1 ==> rs[k + 1].start == rs[k].end
    ensures rs != [] ==> rs[0].start == from && rs[|rs| - 1].end == n
  {
    if rs != [] {
      TilesWiden(rs[1..], rs[0].end, n);
      forall k | 0 <= k < |rs|
        ensures from <= rs[k].start < rs[k].end <= n && (k < |rs| - 1 ==> rs[k + 1].start == rs[k].end) {
        if k > 0 { assert rs[k] == rs[1..][k - 1]; }
        if k < |rs| - 1 { assert rs[k + 1] == rs[1..][k]; }
      }
    }
  }

  lemma {:induction false} TilesCover(rs: seq<Range>, from: nat, n: nat, i: nat) returns (k: nat)
    requires TilesFrom(rs, from, n) && from <= i < n
    ensures k < |rs| && rs[k].start <= i < rs[k].end
  {
    if i < rs[0].end {
      k := 0;
    } else {
      k := TilesCover(rs[1..], rs[0].end, n, i);
      k := k + 1;
    }
  }

  // ---------------------------------------------------------------- the greedy cut

  /** Every range but the last would overflow with one more event. */
  ghost predicate Saturated(envelope: nat, bodies: seq<Bytes>, limit: int, rs: seq<Range>) {
    forall k :: 0 <= k < |rs| - 1 ==>
      rs[k].start < rs[k].end < |bodies| && ChunkSize(envelope, bodies, rs[k].start, rs[k].end + 1) > limit
  }

  /** Every range would overflow with one more event. */
  ghost predicate AllSaturated(envelope: nat, bodies: seq<Bytes>, limit: int, rs: seq<Range>) {
    forall k :: 0 <= k < |rs| ==>
      rs[k].start < rs[k].end < |bodies| && ChunkSize(envelope, bodies, rs[k].start, rs[k].end + 1) > limit
  }

  ghost predicate Within(envelope: nat, bodies: seq<Bytes>, limit: int, rs: seq<Range>) {
    forall k :: 0 <= k < |rs| ==>
      rs[k].start < rs[k].end <= |bodies| && ChunkSize(envelope, bodies, rs[k].start, rs[k].end) <= limit
  }

  ghost predicate AllFit(envelope: nat, bodies: seq<Bytes>, limit: int) {
    envelope <= limit && forall i :: 0 <= i < |bodies| ==> envelope + |bodies[i]| <= limit
  }

  method GreedyRanges(envelope: nat, bodies: seq<Bytes>, limit: int) returns (ranges: seq<Range>)
    requires bodies != [] && AllFit(envelope, bodies, limit)
    ensures TilesFrom(ranges, 0, |bodies|) && Within(envelope, bodies, limit, ranges)
    ensures Saturated(envelope, bodies, limit, ranges)
  {
    ranges := [];
    var chunkStart, chunkSize := 0, envelope;
    for i := 0 to |bodies|
      invariant chunkStart <= i && (chunkStart == i ==> i == 0)
      invariant chunkSize == if i == 0 then envelope else ChunkSize(envelope, bodies, chunkStart, i)
      invariant chunkSize <= limit
      invariant Progress(envelope, bodies, limit, ranges, chunkStart)
    {
      var separator := if i == chunkStart then 0 else 1;
      var candidate := chunkSize + separator + |bodies[i]|;
      SizeOne(envelope, bodies, i);
      if i > 0 { SizeExtend(envelope, bodies, chunkStart, i); }
      if candidate <= limit {
        chunkSize := candidate;
      } else {
        CloseRange(envelope, bodies, limit, ranges, chunkStart, i);
        ranges := ranges + [Range(chunkStart, i)];
        chunkStart := i;
        chunkSize := envelope + |bodies[i]|;
      }
    }
    LastRange(envelope, bodies, limit, ranges, chunkStart);
    ranges := ranges + [Range(chunkStart, |bodies|)];
  }

  /** The ranges closed so far cover the events before `start`, fit, and are saturated. */
  ghost predicate Progress(envelope: nat, bodies: seq<Bytes>, limit: int, ranges: seq<Range>, start: nat) {
    TilesFrom(ranges, 0, start) && Within(envelope, bodies, limit, ranges) &&
      AllSaturated(envelope, bodies, limit, ranges)
  }

  lemma CloseRange(envelope: nat, bodies: seq<Bytes>, limit: int, ranges: seq<Range>, start: nat, end: nat)
    requires Progress(envelope, bodies, limit, ranges, start) && start < end < |bodies|
    requires ChunkSize(envelope, bodies, start, end) <= limit < ChunkSize(envelope, bodies, start, end + 1)
    ensures Progress(envelope, bodies, limit, ranges + [Range(start, end)], end)
  {
    TilesExtend(ranges, 0, start, end);
    RangesAppend(envelope, bodies, limit, ranges, Range(start, end));
  }

  lemma RangesAppend(envelope: nat, bodies: seq<Bytes>, limit: int, ranges: seq<Range>, r: Range)
    requires Within(envelope, bodies, limit, ranges) && AllSaturated(envelope, bodies, limit, ranges)
    requires r.start < r.end <= |bodies| && ChunkSize(envelope, bodies, r.start, r.end) <= limit
    ensures Within(envelope, bodies, limit, ranges + [r]) && Saturated(envelope, bodies, limit, ranges + [r])
    ensures r.end < |bodies| && ChunkSize(envelope, bodies, r.start, r.end + 1) > limit ==>
            AllSaturated(envelope, bodies, limit, ranges + [r])
  {
  }

  lemma LastRange(envelope: nat, bodies: seq<Bytes>, limit: int, ranges: seq<Range>, start: nat)
    requires Progress(envelope, bodies, limit, ranges, start) && start < |bodies|
    requires ChunkSize(envelope, bodies, start, |bodies|) <= limit
    ensures var all := ranges + [Range(start, |bodies|)];
            TilesFrom(all, 0, |bodies|) && Within(envelope, bodies, limit, all) &&
              Saturated(envelope, bodies, limit, all)
  {
    TilesExtend(ranges, 0, start, |bodies|);
    RangesAppend(envelope, bodies, limit, ranges, Range(start, |bodies|));
  }

  /** Greedy stays ahead: its k-th range ends no earlier than the k-th range of any other cut. */
  lemma {:induction false} StaysAhead(envelope: nat, bodies: seq<Bytes>, limit: int, greedy: seq<Range>,
      other: seq<Range>, k: nat)
    requires TilesFrom(greedy, 0, |bodies|) && Saturated(envelope, bodies, limit, greedy)
    requires TilesFrom(other, 0, |bodies|) && Within(envelope, bodies, limit, other)
    requires k < |greedy| && k < |other|
    ensures other[k].end <= greedy[k].end
  {
    TilesWiden(greedy, 0, |bodies|);
    TilesWiden(other, 0, |bodies|);
    if k > 0 {
      StaysAhead(envelope, bodies, limit, greedy, other, k - 1);
    }
    if greedy[k].end < other[k].end {
      assert k < |greedy| - 1;
      SizeMonotone(envelope, bodies, other[k].start, other[k].end, greedy[k].start, greedy[k].end + 1);
    }
  }

  /** Only the last range ends at the end. */
  lemma {:induction false} TilesEnds(rs: seq<Range>, from: nat, n: nat, k: nat)
    requires TilesFrom(rs, from, n) && k < |rs|
    ensures if k == |rs| - 1 then rs[k].end == n else rs[k].end < n
    decreases k
  {
    if k > 0 {
      TilesEnds(rs[1..], rs[0].end, n, k - 1);
    } else if |rs| > 1 {
      assert rs[1..][0].end <= n;
    }
  }

  /** No contiguous cut into chunks within the limit has fewer chunks than the greedy one. */
  lemma GreedyIsOptimal(envelope: nat, bodies: seq<Bytes>, limit: int, greedy: seq<Range>, other: seq<Range>)
    requires TilesFrom(greedy, 0, |bodies|) && Saturated(envelope, bodies, limit, greedy)
    requires TilesFrom(other, 0, |bodies|) && Within(envelope, bodies, limit, other)
    ensures |greedy| <= |other|
  {
    if 0 < |other| < |greedy| {
      var k := |other| - 1;
      StaysAhead(envelope, bodies, limit, greedy, other, k);
      TilesEnds(other, 0, |bodies|, k);
      TilesEnds(greedy, 0, |bodies|, k);
    }
  }

  // ---------------------------------------------------------------- the whole operation

  /** Within, restated on canonical bodies. */
  lemma PartitionWithin(p: Printer, payload: Json, limit: int, prefix: Bytes, suffix: Bytes, rs: seq<Range>)
    requires HasEvents(payload) && IsFrame(p, payload, prefix, suffix) && TilesFrom(rs, 0, |Events(payload)|)
    ensures Within(|prefix| + |suffix|, EncodeAll(p, Events(payload)), limit, rs) <==> Partition(p, payload, limit, rs)
  {
    TilesWiden(rs, 0, |Events(payload)|);
    forall k | 0 <= k < |rs|
      ensures |SliceBody(p, payload, rs[k].start, rs[k].end)| ==
      ChunkSize(|prefix| + |suffix|, EncodeAll(p, Events(payload)), rs[k].start, rs[k].end) {
      SliceSize(p, payload, prefix, suffix, rs[k].start, rs[k].end);
    }
  }

  /** An event that does not fit alone fits in no chunk. */
  lemma NoPartition(p: Printer, payload: Json, limit: int, prefix: Bytes, suffix: Bytes, i: nat)
    requires HasEvents(payload) && IsFrame(p, payload, prefix, suffix) && i < |Events(payload)|
    requires |prefix| + |suffix| + |EncodeAll(p, Events(payload))[i]| > limit
    ensures forall rs :: !Partition(p, payload, limit, rs)
  {
    var bodies := EncodeAll(p, Events(payload));
    var envelope := |prefix| + |suffix|;
    forall rs: seq<Range> | TilesFrom(rs, 0, |bodies|) ensures !Partition(p, payload, limit, rs) {
      PartitionWithin(p, payload, limit, prefix, suffix, rs);
      var k := TilesCover(rs, 0, |bodies|, i);
      TilesWiden(rs, 0, |bodies|);
      SizeOne(envelope, bodies, i);
      SizeMonotone(envelope, bodies, rs[k].start, rs[k].end, i, i + 1);
    }
  }

  ghost predicate FitsAlone(p: Printer, payload: Json, limit: int, i: nat)
    requires HasEvents(payload)
  {
    Fits(p, payload, limit, Range(i, i + 1))
  }

  /** Event i does not fit in a body of its own, and every earlier one does. */
  ghost predicate FirstTooLarge(p: Printer, payload: Json, limit: int, i: nat)
    requires HasEvents(payload)
  {
    i < |Events(payload)| && !FitsAlone(p, payload, limit, i) &&
      forall j: nat :: j < i ==> FitsAlone(p, payload, limit, j)
  }

  lemma AloneSize(p: Printer, payload: Json, limit: int, prefix: Bytes, suffix: Bytes, i: nat)
    requires HasEvents(payload) && IsFrame(p, payload, prefix, suffix) && i < |Events(payload)|
    ensures FitsAlone(p, payload, limit, i) <==> |prefix| + |suffix| + |EncodeAll(p, Events(payload))[i]| <= limit
  {
    SliceSize(p, payload, prefix, suffix, i, i + 1);
    SizeOne(|prefix| + |suffix|, EncodeAll(p, Events(payload)), i);
  }

  /** No partition into fewer chunks. */
  ghost predicate Minimal(p: Printer, payload: Json, limit: int, count: nat)
    requires HasEvents(payload)
  {
    forall rs :: Partition(p, payload, limit, rs) ==> count <= |rs|
  }

  /** n is the least number of chunks that the limit allows. */
  ghost predicate Fewest(p: Printer, payload: Json, limit: int, n: nat)
    requires HasEvents(payload)
  {
    Minimal(p, payload, limit, n) && exists rs :: Partition(p, payload, limit, rs) && |rs| == n
  }

  predicate Writable(writable: nat -> bool, n: nat) { forall k: nat :: 1 <= k <= n ==> writable(k) }

  /** The payload can be cut within the limit, and every file of the cut can be written. */
  ghost predicate Splits(p: Printer, payload: Json, limit: int, directory: bool, writable: nat -> bool) {
    && limit > 0 && HasEvents(payload) && Events(payload) != [] && directory && Encodable(p, payload)
    && WritesFewest(p, payload, limit, writable)
  }

  ghost predicate WritesFewest(p: Printer, payload: Json, limit: int, writable: nat -> bool)
    requires HasEvents(payload)
  {
    exists n: nat :: Fewest(p, payload, limit, n) && Writable(writable, n)
  }

  lemma FewestWrites(p: Printer, payload: Json, limit: int, writable: nat -> bool, rs: seq<Range>)
    requires HasEvents(payload) && Partition(p, payload, limit, rs) && Minimal(p, payload, limit, |rs|)
    ensures Fewest(p, payload, limit, |rs|)
    ensures WritesFewest(p, payload, limit, writable) <==> Writable(writable, |rs|)
  {
    forall n: nat | Fewest(p, payload, limit, n) ensures n == |rs| {
      var other :| Partition(p, payload, limit, other) && |other| == n;
    }
  }

  ghost predicate ExactChunks(p: Printer, payload: Json, limit: int, chunks: seq<Chunk>)
    requires HasEvents(payload)
  {
    && Partition(p, payload, limit, RangesOf(chunks))
    && (forall k :: 0 <= k < |chunks| ==> chunks[k].index == k + 1 && ExactChunk(p, payload, chunks[k]))
  }

  ghost predicate ExactChunk(p: Printer, payload: Json, c: Chunk)
    requires HasEvents(payload)
  {
    c.start <= c.end <= |Events(payload)| && c.body == SliceBody(p, payload, c.start, c.end)
  }

  method PrepareTestChunks(p: Printer, payload: Json, limit: int, directory: bool, writable: nat -> bool)
    returns (r: Result<seq<Chunk>>)
    requires payload.Obj? ==> DistinctKeys(payload.fields)
    ensures r == Err(InvalidPayload) <==> !payload.Obj?
    ensures r == Err(NonPositiveLimit) <==> payload.Obj? && limit <= 0
    ensures r == Err(WithoutEvents) <==> payload.Obj? && limit > 0 && !(HasEvents(payload) && Events(payload) != [])
    ensures r == Err(DirectoryUnavailable) <==>
            payload.Obj? && limit > 0 && HasEvents(payload) && Events(payload) != [] && !directory
    ensures r == Err(NotSerializable) <==>
              limit > 0 && HasEvents(payload) && Events(payload) != [] && directory && !Encodable(p, payload)
    ensures r.Ok? ==>
            HasEvents(payload) && ExactChunks(p, payload, limit, r.value) && Minimal(p, payload, limit, |r.value|)
    ensures r.Err? && (r.error.EnvelopeExceedsLimit? || r.error.SingleEventExceedsLimit?) <==>
              limit > 0 && HasEvents(payload) && Events(payload) != [] && directory && Encodable(p, payload) &&
              forall rs :: !Partition(p, payload, limit, rs)
    ensures r.Err? && r.error.SingleEventExceedsLimit? ==>
              HasEvents(payload) && FirstTooLarge(p, payload, limit, r.error.event) && EnvelopeFits(p, payload, limit)
    ensures r.Err? && r.error.EnvelopeExceedsLimit? ==> HasEvents(payload) && !EnvelopeFits(p, payload, limit)
    ensures r.Err? && r.error.WriteFailed? ==> !writable(r.error.index)
    ensures r.Ok? <==> Splits(p, payload, limit, directory, writable)
  {
    if !payload.Obj? { return Err(InvalidPayload); }
    if limit <= 0 { return Err(NonPositiveLimit); }
    var field := Get(payload.fields, EVENTS);
    if field.None? || !field.value.Arr? || field.value.items == [] { return Err(WithoutEvents); }
    var events := field.value.items;
    if !directory { return Err(DirectoryUnavailable); }
    if !Encodable(p, payload) { return Err(NotSerializable); }
    var full := Encode(p, payload);
    assert Put(payload.fields, EVENTS, Arr(events)) == payload.fields;
    assert events[0..|events|] == events;
    if |full| <= limit {
      r := WriteWhole(p, payload, limit, full, writable);
      return;
    }
    var found, prefix, suffix := EventArrayFrame(p, payload);
    r := PrepareFramed(p, payload, limit, prefix, suffix, writable);
  }

  lemma WholePartition(p: Printer, payload: Json, limit: int)
    requires HasEvents(payload) && Events(payload) != [] && |SliceBody(p, payload, 0, |Events(payload)|)| <= limit
    ensures Partition(p, payload, limit, [Range(0, |Events(payload)|)])
  {
    var rs := [Range(0, |Events(payload)|)];
    assert rs[1..] == [];
    assert TilesFrom(rs[1..], |Events(payload)|, |Events(payload)|);
    assert Fits(p, payload, limit, rs[0]);
  }

  method WriteWhole(p: Printer, payload: Json, limit: int, full: Bytes, writable: nat -> bool)
      returns (r: Result<seq<Chunk>>)
    requires HasEvents(payload) && Events(payload) != []
    requires full == SliceBody(p, payload, 0, |Events(payload)|) && |full| <= limit
    ensures r.Ok? ==> ExactChunks(p, payload, limit, r.value) && Minimal(p, payload, limit, |r.value|)
    ensures r.Err? ==> r == Err(WriteFailed(1)) && !writable(1)
    ensures r.Ok? <==> WritesFewest(p, payload, limit, writable)
    ensures exists rs :: Partition(p, payload, limit, rs)
  {
    var n := |Events(payload)|;
    var chunk := Chunk(1, full, 0, n);
    assert RangesOf([chunk]) == [Range(0, n)];
    WholePartition(p, payload, limit);
    FewestWrites(p, payload, limit, writable, [Range(0, n)]);
    if writable(1) {
      r := Ok([chunk]);
    } else {
      r := Err(WriteFailed(1));
    }
  }

  method PrepareFramed(p: Printer, payload: Json, limit: int, prefix: Bytes, suffix: Bytes, writable: nat -> bool)
    returns (r: Result<seq<Chunk>>)
    requires HasEvents(payload) && Events(payload) != [] && IsFrame(p, payload, prefix, suffix)
    ensures r.Ok? ==> ExactChunks(p, payload, limit, r.value) && Minimal(p, payload, limit, |r.value|)
    ensures r.Err? ==> r.error.EnvelopeExceedsLimit? || r.error.SingleEventExceedsLimit? || r.error.WriteFailed?
    ensures r.Err? && (r.error.EnvelopeExceedsLimit? || r.error.SingleEventExceedsLimit?) <==>
            forall rs :: !Partition(p, payload, limit, rs)
    ensures r.Err? && r.error.SingleEventExceedsLimit? ==>
              FirstTooLarge(p, payload, limit, r.error.event) && EnvelopeFits(p, payload, limit)
    ensures r.Err? && r.error.EnvelopeExceedsLimit? ==> !EnvelopeFits(p, payload, limit)
    ensures r.Err? && r.error.WriteFailed? ==> !writable(r.error.index)
    ensures r.Ok? <==> WritesFewest(p, payload, limit, writable)
  {
    var envelope := |prefix| + |suffix|;
    var bodies := EncodeAll(p, Events(payload));
    EnvelopeSize(p, payload, limit, prefix, suffix);
    if envelope > limit {
      NoPartition(p, payload, limit, prefix, suffix, 0);
      return Err(EnvelopeExceedsLimit);
    }
    var large := FirstLarge(p, payload, limit, prefix, suffix);
    if large < |bodies| {
      NoPartition(p, payload, limit, prefix, suffix, large);
      return Err(SingleEventExceedsLimit(large));
    }
    var ranges := GreedyRanges(envelope, bodies, limit);
    GreedyPartition(p, payload, limit, prefix, suffix, ranges);
    FewestWrites(p, payload, limit, writable, ranges);
    r := WriteRanges(p, payload, limit, prefix, suffix, ranges, writable);
  }

  /** The body without events fits. */
  ghost predicate EnvelopeFits(p: Printer, payload: Json, limit: int)
    requires HasEvents(payload)
  {
    |Encode(p, WithEvents(payload, []))| <= limit
  }

  lemma EnvelopeSize(p: Printer, payload: Json, limit: int, prefix: Bytes, suffix: Bytes)
    requires HasEvents(payload) && IsFrame(p, payload, prefix, suffix)
    ensures EnvelopeFits(p, payload, limit) <==> |prefix| + |suffix| <= limit
  {
    var none: seq<Json> := [];
    assert EncodeAll(p, none) == [] && Join(EncodeAll(p, none)) == [];
    assert |Encode(p, WithEvents(payload, none))| == |prefix + Join(EncodeAll(p, none)) + suffix|;
  }

  /** The first event that does not fit alone, or their number. */
  method FirstLarge(p: Printer, payload: Json, limit: int, prefix: Bytes, suffix: Bytes) returns (i: nat)
    requires HasEvents(payload) && IsFrame(p, payload, prefix, suffix)
    ensures i <= |Events(payload)| && (i < |Events(payload)| ==> FirstTooLarge(p, payload, limit, i))
    ensures forall j: nat :: j < i ==> |prefix| + |suffix| + |EncodeAll(p, Events(payload))[j]| <= limit
    ensures i < |Events(payload)| ==> |prefix| + |suffix| + |EncodeAll(p, Events(payload))[i]| > limit
  {
    var envelope, bodies := |prefix| + |suffix|, EncodeAll(p, Events(payload));
    for k := 0 to |bodies|
      invariant forall j :: 0 <= j < k ==> envelope + |bodies[j]| <= limit
      invariant forall j: nat :: j < k ==> FitsAlone(p, payload, limit, j)
    {
      AloneSize(p, payload, limit, prefix, suffix, k);
      if envelope + |bodies[k]| > limit { return k; }
    }
    i := |bodies|;
  }

  lemma GreedyPartition(p: Printer, payload: Json, limit: int, prefix: Bytes, suffix: Bytes, ranges: seq<Range>)
    requires HasEvents(payload) && IsFrame(p, payload, prefix, suffix)
    requires TilesFrom(ranges, 0, |Events(payload)|)
    requires Within(|prefix| + |suffix|, EncodeAll(p, Events(payload)), limit, ranges)
    requires Saturated(|prefix| + |suffix|, EncodeAll(p, Events(payload)), limit, ranges)
    ensures Partition(p, payload, limit, ranges) && Minimal(p, payload, limit, |ranges|)
  {
    PartitionWithin(p, payload, limit, prefix, suffix, ranges);
    forall rs: seq<Range> | Partition(p, payload, limit, rs) ensures |ranges| <= |rs| {
      PartitionWithin(p, payload, limit, prefix, suffix, rs);
      GreedyIsOptimal(|prefix| + |suffix|, EncodeAll(p, Events(payload)), limit, ranges, rs);
    }
  }

  /** The first chunks written for the ranges. */
  ghost predicate Written(p: Printer, payload: Json, ranges: seq<Range>, chunks: seq<Chunk>)
    requires HasEvents(payload)
  {
    |chunks| <= |ranges| && forall l :: 0 <= l < |chunks| ==> WrittenAt(p, payload, ranges[l], chunks[l], l + 1)
  }

  ghost predicate WrittenAt(p: Printer, payload: Json, range: Range, c: Chunk, index: nat)
    requires HasEvents(payload)
  {
    c.index == index && Range(c.start, c.end) == range && ExactChunk(p, payload, c)
  }

  lemma WrittenStep(p: Printer, payload: Json, ranges: seq<Range>, chunks: seq<Chunk>, c: Chunk)
    requires HasEvents(payload) && Written(p, payload, ranges, chunks) && |chunks| < |ranges|
    requires WrittenAt(p, payload, ranges[|chunks|], c, |chunks| + 1)
    ensures Written(p, payload, ranges, chunks + [c])
  {
  }

  lemma AllWritten(p: Printer, payload: Json, limit: int, ranges: seq<Range>, chunks: seq<Chunk>)
    requires HasEvents(payload) && Partition(p, payload, limit, ranges) && Written(p, payload, ranges, chunks)
    requires |chunks| == |ranges|
    ensures ExactChunks(p, payload, limit, chunks) && RangesOf(chunks) == ranges
  {
    forall k | 0 <= k < |chunks|
      ensures RangesOf(chunks)[k] == ranges[k] && chunks[k].index == k + 1 && ExactChunk(p, payload, chunks[k]) {
      assert WrittenAt(p, payload, ranges[k], chunks[k], k + 1);
    }
    assert RangesOf(chunks) == ranges;
  }

  method WriteRanges(p: Printer, payload: Json, limit: int, prefix: Bytes, suffix: Bytes, ranges: seq<Range>,
      writable: nat -> bool)
    returns (r: Result<seq<Chunk>>)
    requires HasEvents(payload) && IsFrame(p, payload, prefix, suffix) && Partition(p, payload, limit, ranges)
    ensures r.Ok? ==> ExactChunks(p, payload, limit, r.value) && RangesOf(r.value) == ranges
    ensures r.Err? ==> r.error.WriteFailed? && !writable(r.error.index)
    ensures r.Ok? <==> Writable(writable, |ranges|)
  {
    var bodies := EncodeAll(p, Events(payload));
    TilesWiden(ranges, 0, |bodies|);
    var chunks: seq<Chunk> := [];
    for k := 0 to |ranges|
      invariant |chunks| == k && Written(p, payload, ranges, chunks) && Writable(writable, k)
    {
      var chunk := OneChunk(p, payload, limit, prefix, suffix, bodies, ranges[k], k + 1);
      if !writable(k + 1) {
        return Err(WriteFailed(k + 1));
      }
      WrittenStep(p, payload, ranges, chunks, chunk);
      chunks := chunks + [chunk];
    }
    AllWritten(p, payload, limit, ranges, chunks);
    r := Ok(chunks);
  }

  method OneChunk(p: Printer, payload: Json, limit: int, prefix: Bytes, suffix: Bytes, bodies: seq<Bytes>,
      range: Range, index: nat)
    returns (chunk: Chunk)
    requires HasEvents(payload) && IsFrame(p, payload, prefix, suffix) && bodies == EncodeAll(p, Events(payload))
    requires range.start < range.end && Fits(p, payload, limit, range)
    ensures ExactChunk(p, payload, chunk) && chunk.index == index && Range(chunk.start, chunk.end) == range
  {
    var body := prefix + Join(bodies[range.start..range.end]) + suffix;
    SliceSize(p, payload, prefix, suffix, range.start, range.end);
    assert |body| <= limit; // the source's internal AssertionError is unreachable
    chunk := Chunk(index, body, range.start, range.end);
  }
}
