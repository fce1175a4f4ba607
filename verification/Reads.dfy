/**
 Limit-capped reads of a stream: raw bytes with byte-accurate offsets, or whole
 JSON messages. The loops over stored segments are shown to compute a read of the
 abstract log, and chained reads to reassemble it.
 */
module Reads {
  import opened Bytes
  import opened Store
  import opened Appends

  /** The concatenation of a log's records. */
  function Flat(log: seq<ByteString>): ByteString {
    if log == [] then [] else Flat(log[..|log| - 1]) + log[|log| - 1]
  }

  function Min(a: nat, b: nat): nat {
    if a <= b then a else b
  }

  // ----- a read of the log -----

  /**
   Bytes from record `seqno`, `skip` bytes in, up to `tail`, at most `room` of them; and
   where the next read starts.
   */
  function TakeBytes(log: seq<ByteString>, seqno: nat, skip: nat, tail: nat, room: nat): (r: (ByteString, Offset))
    requires seqno <= tail <= |log|
    ensures |r.0| <= room && seqno <= r.1.seqno <= tail
    decreases tail - seqno
  {
    if seqno == tail || room == 0 then ([], Offset(seqno, skip))
    else
      var s := Min(skip, |log[seqno]|);
      var avail := log[seqno][s..];
      if |avail| <= room then Join(avail, TakeBytes(log, seqno + 1, 0, tail, room - |avail|))
      else (avail[..room], Offset(seqno, s + room))
  }

  function Join(b: ByteString, r: (ByteString, Offset)): (ByteString, Offset) {
    (b + r.0, r.1)
  }

  /**
   Whole messages from `seqno` on, after `count` messages of `total` bytes: the first
   always, then while the limit allows.
   */
  function TakeMessages(log: seq<ByteString>, seqno: nat, tail: nat, count: nat, total: nat,
          limit: nat): (ms: seq<ByteString>)
    requires seqno <= tail <= |log|
    ensures |ms| <= tail - seqno
    decreases tail - seqno
  {
    if seqno == tail || (count > 0 && total + |log[seqno]| > limit) then []
    else if total + |log[seqno]| >= limit then [log[seqno]]
    else [log[seqno]] + TakeMessages(log, seqno + 1, tail, count + 1, total + |log[seqno]|, limit)
  }

  /** The messages re-wrapped as one JSON array. */
  function WrapArray(ms: seq<ByteString>): ByteString {
    [91] + Commas(ms) + [93]
  }

  function Commas(ms: seq<ByteString>): ByteString {
    if ms == [] then [] else (if |ms| == 1 then [] else Commas(ms[..|ms| - 1]) + [44]) + ms[|ms| - 1]
  }

  datatype ReadResult = ReadResult(body: ByteString, next: Offset, upToDate: bool)

  function ReadLog(log: seq<ByteString>, json: bool, start: Offset, tail: nat, limit: nat): (r: ReadResult)
    requires tail <= |log|
  {
    if start.seqno >= tail then ReadResult(if json then WrapArray([]) else [], start, true)
    else if json then
      var ms := TakeMessages(log, start.seqno, tail, 0, 0, limit);
      ReadResult(WrapArray(ms), Offset(start.seqno + |ms|, 0), start.seqno + |ms| >= tail)
    else
      var r := TakeBytes(log, start.seqno, start.byte, tail, limit);
      ReadResult(r.0, r.1, r.1.seqno >= tail)
  }

  // ----- the loops over stored segments -----

  /** A run [startSeq, endSeq) of one stream's own stored records. */
  datatype Segment = Segment(id: nat, startSeq: nat, endSeq: nat)

  /** The segments are non-empty, in order and without gap, and cover exactly [from, to). */
  ghost predicate Tiles(segs: seq<Segment>, from: nat, to: nat) {
    if segs == [] then from == to
    else segs[0].startSeq == from && from < segs[0].endSeq <= to && Tiles(segs[1..], segs[0].endSeq, to)
  }

  ghost predicate Backs(store: Keyspace, seg: Segment, log: seq<ByteString>) {
    && seg.id < U64_LIMIT && seg.endSeq <= |log| && seg.endSeq <= U64_LIMIT
    && forall q :: seg.startSeq <= q < seg.endSeq ==> RecordAt(store, seg.id, q) == Some(log[q])
  }

  ghost predicate AllBack(store: Keyspace, segs: seq<Segment>, log: seq<ByteString>) {
    forall i :: 0 <= i < |segs| ==> Backs(store, segs[i], log)
  }

  /** A scan of a segment's stream yields the segment's records in order, and then nothing below its end. */
  lemma {:induction false} SegmentScan(store: Keyspace, seg: Segment, log: seq<ByteString>, end: Option<ByteString>,
          ks: seq<Key>, i: nat)
    requires AllFit(store) && Backs(store, seg, log) && seg.startSeq < seg.endSeq
    requires CoversPrefix(RecordPrefix(seg.id), end) && IsScan(store, Encode(Record(seg.id, seg.startSeq)), end, ks)
    ensures seg.startSeq + i < seg.endSeq ==> i < |ks| && ks[i] == Record(seg.id, seg.startSeq + i)
    ensures seg.startSeq + i == seg.endSeq && i < |ks| ==> ks[i].Record? && ks[i].seqno >= seg.endSeq
  {
    hide Encode, InRange, CoversPrefix, Less;
    forall q | seg.startSeq <= q < seg.endSeq ensures Record(seg.id, q) in store {
      assert RecordAt(store, seg.id, q) == Some(log[q]);
    }
    if seg.startSeq + i < seg.endSeq {
      RecordScanIsDense(store, seg.id, seg.startSeq, seg.endSeq, end, ks, i);
    } else if seg.startSeq + i == seg.endSeq && i < |ks| {
      RecordScanIsDense(store, seg.id, seg.startSeq, seg.endSeq, end, ks, i - 1);
      assert ks[i] in ks && ks[i - 1] in ks;
      RecordInScan(seg.id, seg.startSeq, end, ks[i]);
      ScanOrder(seg.id, ks, i - 1, i);
    }
  }

  /** A scan that starts with a segment's records and has nothing more of the segment after them. */
  ghost predicate StartsWith(ks: seq<Key>, seg: Segment)
    requires seg.startSeq < seg.endSeq
  {
    var n := seg.endSeq - seg.startSeq;
    && n <= |ks|
    && (forall i :: 0 <= i < n ==> ks[i] == Record(seg.id, seg.startSeq + i))
    && (n < |ks| ==> ks[n].Record? && ks[n].seqno >= seg.endSeq)
  }

  method ScanSegment(store: Keyspace, seg: Segment, ghost log: seq<ByteString>) returns (ks: seq<Key>)
    requires AllFit(store) && Backs(store, seg, log) && seg.startSeq < seg.endSeq
    ensures StartsWith(ks, seg)
  {
    var end := PrefixEnd(RecordPrefix(seg.id));
    ks := Scan(store, Encode(Record(seg.id, seg.startSeq)), end);
    hide Encode, IsScan, CoversPrefix, InRange, AllFit;
    ghost var n := seg.endSeq - seg.startSeq;
    forall i | 0 <= i < n ensures i < |ks| && ks[i] == Record(seg.id, seg.startSeq + i) {
      SegmentScan(store, seg, log, end, ks, i);
    }
    SegmentScan(store, seg, log, end, ks, n - 1);
    SegmentScan(store, seg, log, end, ks, n);
  }

  /** What a read that has gathered buf and stands at next will return. */
  ghost function Outcome(log: seq<ByteString>, tail: nat, limit: nat, buf: ByteString,
          next: Offset): (ByteString, Offset)
    requires next.seqno <= tail <= |log| && |buf| <= limit
  {
    Join(buf, TakeBytes(log, next.seqno, next.byte, tail, limit - |buf|))
  }

  /** One record of readSegmentsBinary: all that is left of it if there is room, else as much as fits. */
  method TakeRecord(payload: ByteString, recSeq: nat, start: Offset, limit: nat, buf0: ByteString,
          ghost log: seq<ByteString>, ghost tail: nat)
    returns (buf: ByteString, next: Offset, stop: bool)
    requires recSeq < tail <= |log| && payload == log[recSeq] && |buf0| < limit
    ensures |buf| <= limit && next.seqno <= tail
    ensures stop ==> (buf, next) == Outcome(log, tail, limit, buf0,
                     Offset(recSeq, if recSeq == start.seqno then start.byte else 0))
    ensures !stop ==> next == Offset(recSeq + 1, 0)
    ensures !stop ==> Outcome(log, tail, limit, buf, next) == Outcome(log, tail, limit, buf0,
                      Offset(recSeq, if recSeq == start.seqno then start.byte else 0))
  {
    hide TakeBytes;
    var skip := 0;
    if recSeq == start.seqno {
      skip := start.byte;
    }
    var room := limit - |buf0|;
    TakeBytesStep(log, recSeq, skip, tail, room);
    if skip > |payload| {
      skip := |payload|;
    }
    var avail := payload[skip..];
    if |avail| <= room {
      JoinTwice(buf0, avail, TakeBytes(log, recSeq + 1, 0, tail, room - |avail|));
      return buf0 + avail, Offset(recSeq + 1, 0), false;
    } else {
      return buf0 + avail[..room], Offset(recSeq, skip + room), true;
    }
  }

  /** One segment of readSegmentsBinary. */
  method ReadSegmentBinary(store: Keyspace, seg: Segment, start: Offset, limit: nat, buf0: ByteString, next0: Offset,
          ghost log: seq<ByteString>, ghost tail: nat)
    returns (buf: ByteString, next: Offset, stop: bool)
    requires AllFit(store) && Backs(store, seg, log) && seg.startSeq < seg.endSeq <= tail <= |log|
    requires next0.seqno == seg.startSeq >= start.seqno
             && next0.byte == (if next0.seqno == start.seqno then start.byte else 0)
    requires |buf0| <= limit
    ensures |buf| <= limit && next.seqno <= tail
    ensures stop || |buf| == limit ==> (buf, next) == Outcome(log, tail, limit, buf0, next0)
    ensures !stop && |buf| < limit ==>
            next == Offset(seg.endSeq, 0)
            && Outcome(log, tail, limit, buf, next) == Outcome(log, tail, limit, buf0, next0)
  {
    hide AllFit, TakeBytes, Outcome;
    var ks := ScanSegment(store, seg, log);
    buf, next, stop := buf0, next0, false;
    var i := 0;
    while |buf| < limit
      invariant seg.startSeq + i == next.seqno <= seg.endSeq && |buf| <= limit
      invariant next.byte == if next.seqno == start.seqno then start.byte else 0
      invariant Outcome(log, tail, limit, buf, next) == Outcome(log, tail, limit, buf0, next0)
      decreases seg.endSeq - next.seqno
    {
      if i >= |ks| {
        break;
      }
      var recSeq := ks[i].seqno;
      if recSeq >= seg.endSeq {
        break;
      }
      assert RecordAt(store, seg.id, recSeq) == Some(log[recSeq]);
      buf, next, stop := TakeRecord(store[ks[i]].payload, recSeq, start, limit, buf, log, tail);
      if stop {
        return;
      }
      i := i + 1;
    }
    OutcomeIfFull(log, tail, limit, buf, next);
  }

  lemma OutcomeIfFull(log: seq<ByteString>, tail: nat, limit: nat, buf: ByteString, next: Offset)
    requires next.seqno <= tail <= |log| && |buf| <= limit
    ensures |buf| == limit || next.seqno == tail ==> Outcome(log, tail, limit, buf, next) == (buf, next)
  {
    if |buf| == limit || next.seqno == tail {
      TakeNothing(log, next.seqno, next.byte, tail, limit - |buf|, buf);
    }
  }

  lemma JoinTwice(a: ByteString, b: ByteString, r: (ByteString, Offset))
    ensures Join(a + b, r) == Join(a, Join(b, r)) && Join([], r) == r
  {
    assert (a + b) + r.0 == a + (b + r.0) && [] + r.0 == r.0;
  }

  /** One round of the read. */
  lemma TakeBytesStep(log: seq<ByteString>, seqno: nat, skip: nat, tail: nat, room: nat)
    requires seqno < tail <= |log| && 0 < room
    ensures var s := Min(skip, |log[seqno]|);
            var avail := log[seqno][s..];
            TakeBytes(log, seqno, skip, tail, room) ==
              if |avail| <= room then Join(avail, TakeBytes(log, seqno + 1, 0, tail, room - |avail|))
              else (avail[..room], Offset(seqno, s + room))
  {
  }

  lemma TakeNothing(log: seq<ByteString>, seqno: nat, skip: nat, tail: nat, room: nat, buf: ByteString)
    requires seqno <= tail <= |log| && (seqno == tail || room == 0)
    ensures Join(buf, TakeBytes(log, seqno, skip, tail, room)) == (buf, Offset(seqno, skip))
  {
    assert buf + [] == buf;
  }

  method ReadSegmentsBinary(store: Keyspace, segs: seq<Segment>, start: Offset, tail: nat, limit: nat,
          ghost log: seq<ByteString>) returns (r: ReadResult)
    requires AllFit(store) && tail <= |log| && AllBack(store, segs, log) && start.seqno < tail
             && Tiles(segs, start.seqno, tail)
    ensures r == ReadLog(log, false, start, tail, limit)
  {
    JoinTwice([], [], TakeBytes(log, start.seqno, start.byte, tail, limit));
    hide AllFit, Backs, TakeBytes;
    var buf: ByteString := [];
    var next := start;
    var i := 0;
    while i < |segs|
      invariant i <= |segs| && |buf| <= limit
      invariant start.seqno <= next.seqno <= tail && next.byte == if next.seqno == start.seqno then start.byte else 0
      invariant Tiles(segs[i..], next.seqno, tail)
      invariant Outcome(log, tail, limit, buf, next) == Outcome(log, tail, limit, [], start)
    {
      assert Backs(store, segs[i], log);
      assert segs[i..][1..] == segs[i + 1..] && segs[i..][0] == segs[i];
      TilesBound(segs[i..], next.seqno, tail);
      var stop;
      buf, next, stop := ReadSegmentBinary(store, segs[i], start, limit, buf, next, log, tail);
      if stop || |buf| >= limit {
        return ReadResult(buf, next, next.seqno >= tail);
      }
      i := i + 1;
    }
    OutcomeIfFull(log, tail, limit, buf, next);
    return ReadResult(buf, next, next.seqno >= tail);
  }

  lemma {:induction false} TilesBound(segs: seq<Segment>, from: nat, to: nat)
    requires Tiles(segs, from, to)
    ensures from <= to
  {
    if segs != [] {
      TilesBound(segs[1..], segs[0].endSeq, to);
    }
  }

  // ----- JSON -----

  /** The messages a JSON read that has gathered recs will return. */
  ghost function Gathering(log: seq<ByteString>, tail: nat, limit: nat, recs: seq<ByteString>, total: nat,
          nextSeq: nat): seq<ByteString>
    requires nextSeq <= tail <= |log|
  {
    recs + TakeMessages(log, nextSeq, tail, |recs|, total, limit)
  }

  lemma GatheringStep(log: seq<ByteString>, tail: nat, limit: nat, recs: seq<ByteString>, total: nat, q: nat)
    requires q < tail <= |log|
    ensures Gathering(log, tail, limit, recs, total, q) ==
              if |recs| > 0 && total + |log[q]| > limit then recs
              else if total + |log[q]| >= limit then recs + [log[q]]
              else Gathering(log, tail, limit, recs + [log[q]], total + |log[q]|, q + 1)
  {
    var rest := TakeMessages(log, q + 1, tail, |recs| + 1, total + |log[q]|, limit);
    assert recs + ([log[q]] + rest) == (recs + [log[q]]) + rest && recs + [] == recs;
  }

  /** One message of readSegmentsJSON: taken if it is the first or fits, and then whether to stop. */
  method TakeMessage(payload: ByteString, recSeq: nat, limit: nat, recs0: seq<ByteString>, total0: nat,
          ghost log: seq<ByteString>, ghost tail: nat)
    returns (recs: seq<ByteString>, total: nat, stop: bool)
    requires recSeq < tail <= |log| && payload == log[recSeq]
    ensures recs == recs0 + [payload] || (stop && recs == recs0)
    ensures stop ==> recs == Gathering(log, tail, limit, recs0, total0, recSeq)
    ensures !stop ==> Gathering(log, tail, limit, recs, total, recSeq + 1) == Gathering(log, tail, limit, recs0,
                      total0, recSeq)
  {
    hide Gathering, TakeMessages;
    GatheringStep(log, tail, limit, recs0, total0, recSeq);
    recs, total := recs0, total0;
    if |recs| > 0 && total + |payload| > limit {
      stop := true;
      return;
    }
    recs := recs + [payload];
    total := total + |payload|;
    stop := total >= limit;
  }

  /** One segment of readSegmentsJSON. */
  method ReadSegmentJSON(store: Keyspace, seg: Segment, limit: nat, recs0: seq<ByteString>, total0: nat,
          ghost log: seq<ByteString>, ghost tail: nat)
    returns (recs: seq<ByteString>, total: nat, nextSeq: nat, stop: bool)
    requires AllFit(store) && Backs(store, seg, log) && seg.startSeq < seg.endSeq <= tail <= |log|
    ensures nextSeq <= tail && nextSeq == seg.startSeq + |recs| - |recs0|
    ensures stop ==> recs == Gathering(log, tail, limit, recs0, total0, seg.startSeq)
    ensures !stop ==> nextSeq == seg.endSeq && Gathering(log, tail, limit, recs, total, nextSeq)
                      == Gathering(log, tail, limit, recs0, total0, seg.startSeq)
  {
    hide AllFit, TakeMessages, Gathering;
    var ks := ScanSegment(store, seg, log);
    recs, total, nextSeq, stop := recs0, total0, seg.startSeq, false;
    while true
      invariant seg.startSeq <= nextSeq <= seg.endSeq && |recs| == |recs0| + nextSeq - seg.startSeq && !stop
      invariant Gathering(log, tail, limit, recs, total, nextSeq) == Gathering(log, tail, limit, recs0, total0,
                  seg.startSeq)
      decreases seg.endSeq - nextSeq
    {
      var i := nextSeq - seg.startSeq;
      if i >= |ks| {
        break;
      }
      var recSeq := ks[i].seqno;
      if recSeq >= seg.endSeq {
        break;
      }
      assert RecordAt(store, seg.id, recSeq) == Some(log[recSeq]);
      ghost var before := recs;
      recs, total, stop := TakeMessage(store[ks[i]].payload, recSeq, limit, recs, total, log, tail);
      if |recs| > i + |recs0| {
        nextSeq := recSeq + 1;
      }
      if stop {
        break;
      }
    }
  }

  method ReadSegmentsJSON(store: Keyspace, segs: seq<Segment>, start: Offset, tail: nat, limit: nat,
          ghost log: seq<ByteString>) returns (r: ReadResult)
    requires AllFit(store) && tail <= |log| && AllBack(store, segs, log) && start.seqno < tail
             && Tiles(segs, start.seqno, tail)
    ensures r == ReadLog(log, true, start, tail, limit)
  {
    ghost var ms := TakeMessages(log, start.seqno, tail, 0, 0, limit);
    assert [] + ms == ms;
    hide AllFit, Backs, TakeMessages;
    var recs: seq<ByteString>, total, nextSeq, stop := [], 0, start.seqno, false;
    var i := 0;
    while i < |segs|
      invariant i <= |segs| && nextSeq == start.seqno + |recs| <= tail
      invariant stop ==> recs == ms
      invariant !stop ==> Tiles(segs[i..], nextSeq, tail) && Gathering(log, tail, limit, recs, total, nextSeq) == ms
    {
      if stop {
        break;
      }
      assert Backs(store, segs[i], log);
      assert segs[i..][1..] == segs[i + 1..] && segs[i..][0] == segs[i];
      TilesBound(segs[i..], nextSeq, tail);
      recs, total, nextSeq, stop := ReadSegmentJSON(store, segs[i], limit, recs, total, log, tail);
      i := i + 1;
    }
    GatheringDone(log, tail, limit, recs, total, nextSeq);
    return ReadResult(WrapArray(recs), Offset(nextSeq, 0), nextSeq >= tail);
  }

  lemma GatheringDone(log: seq<ByteString>, tail: nat, limit: nat, recs: seq<ByteString>, total: nat, nextSeq: nat)
    requires nextSeq <= tail <= |log|
    ensures nextSeq == tail ==> Gathering(log, tail, limit, recs, total, nextSeq) == recs
  {
    assert recs + [] == recs;
  }

  // ----- what a read means -----

  /** How many bytes of the log lie before an offset. */
  function Pos(log: seq<ByteString>, o: Offset): nat
    requires o.seqno <= |log|
  {
    |Flat(log[..o.seqno])| + if o.seqno < |log| then Min(o.byte, |log[o.seqno]|) else 0
  }

  /** b is strictly further than a. */
  predicate Beyond(a: Offset, b: Offset) {
    a.seqno < b.seqno || (a.seqno == b.seqno && a.byte < b.byte)
  }

  lemma {:induction false} FlatPrefix(log: seq<ByteString>, q: nat)
    requires q <= |log|
    ensures Flat(log[..q]) <= Flat(log)
    decreases |log|
  {
    if q < |log| {
      var front := log[..|log| - 1];
      assert front[..q] == log[..q];
      FlatPrefix(front, q);
    } else {
      assert log[..q] == log;
    }
  }

  lemma FlatStep(log: seq<ByteString>, q: nat)
    requires q < |log|
    ensures Flat(log[..q + 1]) == Flat(log[..q]) + log[q]
  {
    assert log[..q + 1][..q] == log[..q];
  }

  /** The part of a record from s to e lies in the log at its offset. */
  lemma {:induction false} RecordPart(log: seq<ByteString>, q: nat, s: nat, e: nat)
    requires q < |log| && s <= e <= |log[q]|
    ensures |Flat(log[..q])| + e <= |Flat(log)|
    ensures log[q][s..e] == Flat(log)[|Flat(log[..q])| + s..|Flat(log[..q])| + e]
  {
    hide Flat;
    FlatStep(log, q);
    FlatPrefix(log, q + 1);
    var f, a := Flat(log), |Flat(log[..q])|;
    forall k | 0 <= k < e - s ensures log[q][s..e][k] == f[a + s..a + e][k] {
      assert f[a + s..a + e][k] == f[a + (s + k)] == Flat(log[..q + 1])[a + (s + k)] == log[q][s + k];
    }
  }

  lemma PosBound(log: seq<ByteString>, o: Offset)
    requires o.seqno <= |log|
    ensures Pos(log, o) <= |Flat(log)|
  {
    hide Flat;
    if o.seqno < |log| {
      RecordPart(log, o.seqno, 0, Min(o.byte, |log[o.seqno]|));
    } else {
      FlatPrefix(log, o.seqno);
    }
  }

  lemma PosNext(log: seq<ByteString>, q: nat)
    requires q < |log|
    ensures Pos(log, Offset(q + 1, 0)) == |Flat(log[..q])| + |log[q]|
  {
    hide Flat;
    FlatStep(log, q);
  }

  /** A binary read returns exactly the log's bytes between its two offsets. */
  lemma {:induction false} ReadIsSlice(log: seq<ByteString>, seqno: nat, skip: nat, tail: nat, room: nat)
    requires seqno <= tail <= |log|
    ensures var r := TakeBytes(log, seqno, skip, tail, room);
            && Pos(log, Offset(seqno, skip)) <= Pos(log, r.1) <= |Flat(log)|
            && r.0 == Flat(log)[Pos(log, Offset(seqno, skip))..Pos(log, r.1)]
    decreases tail - seqno
  {
    hide Flat, TakeBytes, Pos;
    var f, a := Flat(log), Pos(log, Offset(seqno, skip));
    PosBound(log, Offset(seqno, skip));
    if seqno == tail || room == 0 {
      TakeNothing(log, seqno, skip, tail, room, []);
      JoinTwice([], [], TakeBytes(log, seqno, skip, tail, room));
    } else {
      var s, b := Min(skip, |log[seqno]|), |Flat(log[..seqno])|;
      var avail := log[seqno][s..];
      PosIs(log, Offset(seqno, skip));
      TakeBytesStep(log, seqno, skip, tail, room);
      if |avail| <= room {
        ReadIsSlice(log, seqno + 1, 0, tail, room - |avail|);
        PosNext(log, seqno);
        RecordPart(log, seqno, s, |log[seqno]|);
        SliceJoin(f, a, b + |log[seqno]|, Pos(log, TakeBytes(log, seqno + 1, 0, tail, room - |avail|).1));
      } else {
        RecordPart(log, seqno, s, s + room);
        assert avail[..room] == log[seqno][s..s + room];
        PosIs(log, Offset(seqno, s + room));
      }
    }
  }

  lemma PosIs(log: seq<ByteString>, o: Offset)
    requires o.seqno < |log|
    ensures Pos(log, o) == |Flat(log[..o.seqno])| + Min(o.byte, |log[o.seqno]|)
  {
  }

  lemma SliceJoin<T>(f: seq<T>, a: nat, b: nat, c: nat)
    requires a <= b <= c <= |f|
    ensures f[a..b] + f[b..c] == f[a..c]
  {
  }

  /** A binary read with room strictly advances, and stops only at the tail or when the room is used up. */
  lemma {:induction false} ReadAdvances(log: seq<ByteString>, seqno: nat, skip: nat, tail: nat, room: nat)
    requires seqno < tail <= |log| && room > 0
    ensures var r := TakeBytes(log, seqno, skip, tail, room);
            Beyond(Offset(seqno, skip), r.1) && (|r.0| == room || r.1 == Offset(tail, 0))
    decreases tail - seqno
  {
    hide TakeBytes;
    TakeBytesStep(log, seqno, skip, tail, room);
    var left := room - |log[seqno][Min(skip, |log[seqno]|)..]|;
    if left >= 0 {
      if seqno + 1 < tail && left > 0 {
        ReadAdvances(log, seqno + 1, 0, tail, left);
      } else {
        TakeNothing(log, seqno + 1, 0, tail, left, []);
        JoinTwice([], [], TakeBytes(log, seqno + 1, 0, tail, left));
      }
    }
  }

  function Size(ms: seq<ByteString>): nat {
    |Flat(ms)|
  }

  // ----- the array body -----

  /** Where message i of the body starts: behind the bracket, the messages before it and as many commas. */
  function MessageAt(ms: seq<ByteString>, i: nat): nat
    requires i <= |ms|
  {
    1 + Size(ms[..i]) + i
  }

  predicate LiesAt(b: ByteString, at: nat, m: ByteString) {
    at + |m| <= |b| && b[at..at + |m|] == m
  }

  /** Message i is where it belongs, with a comma behind it exactly if another one follows. */
  predicate InArray(body: ByteString, ms: seq<ByteString>, i: nat)
    requires i < |ms|
  {
    && LiesAt(body, MessageAt(ms, i), ms[i])
    && LiesAt(body, MessageAt(ms, i) + |ms[i]|, [if i + 1 < |ms| then 44 else 93])
  }

  /** The body as a JSON array: brackets around the messages in order, with single commas between them. */
  ghost predicate IsArray(body: ByteString, ms: seq<ByteString>) {
    && |body| == 2 + Size(ms) + (if ms == [] then 0 else |ms| - 1)
    && body[0] == 91 && body[|body| - 1] == 93
    && forall i :: 0 <= i < |ms| ==> InArray(body, ms, i)
  }

  lemma SizeOfLast(ms: seq<ByteString>)
    requires ms != []
    ensures Size(ms) == Size(ms[..|ms| - 1]) + |ms[|ms| - 1]|
  {
  }

  lemma LiesFurther(a: ByteString, b: ByteString, at: nat, m: ByteString)
    requires a <= b && LiesAt(a, at, m)
    ensures LiesAt(b, at, m)
  {
    assert b[at..at + |m|] == a[at..at + |m|];
  }

  lemma LiesBehind(a: ByteString, m: ByteString)
    ensures LiesAt(a + m, |a|, m)
  {
  }

  /** The body without its closing bracket: all messages, and the commas between them. */
  ghost predicate IsOpen(b: ByteString, ms: seq<ByteString>) {
    && b != [] && b[0] == 91 && |b| == 1 + Size(ms) + (if ms == [] then 0 else |ms| - 1)
    && HasMessages(b, ms) && HasCommas(b, ms)
  }

  ghost predicate HasMessages(b: ByteString, ms: seq<ByteString>) {
    forall i :: 0 <= i < |ms| ==> LiesAt(b, MessageAt(ms, i), ms[i])
  }

  ghost predicate HasCommas(b: ByteString, ms: seq<ByteString>) {
    forall i :: 0 <= i < |ms| - 1 ==> LiesAt(b, MessageAt(ms, i) + |ms[i]|, [44])
  }

  lemma {:induction false} CommasAreOpen(ms: seq<ByteString>)
    ensures IsOpen([91] + Commas(ms), ms)
  {
    if ms != [] {
      var n := |ms| - 1;
      CommasAreOpen(ms[..n]);
      CommasStep(ms);
      hide Commas, Size;
      assert ms[..n] + [ms[n]] == ms;
      OpenOneMore([91] + Commas(ms[..n]), ms[..n], ms[n], [91] + Commas(ms));
    }
  }

  lemma {:induction false} CommasStep(ms: seq<ByteString>)
    requires ms != []
    ensures var n := |ms| - 1;
            [91] + Commas(ms) == [91] + Commas(ms[..n]) + (if n == 0 then [] else [44]) + ms[n]
  {
    var n, m := |ms| - 1, ms[|ms| - 1];
    var c := Commas(ms[..n]);
    if n == 0 {
      assert c == [] && Commas(ms) == [] + m;
    } else {
      assert Commas(ms) == (c + [44]) + m;
    }
    hide Commas;
    assert n > 0 ==> [91] + ((c + [44]) + m) == (([91] + c) + [44]) + m;
  }

  lemma FrontAt(front: seq<ByteString>, m: ByteString, i: nat)
    requires i < |front|
    ensures MessageAt(front + [m], i) == MessageAt(front, i) && (front + [m])[i] == front[i]
  {
    assert (front + [m])[..i] == front[..i];
  }

  lemma LastAt(front: seq<ByteString>, m: ByteString)
    ensures MessageAt(front + [m], |front|) == 1 + Size(front) + |front|
    ensures Size(front + [m]) == Size(front) + |m|
    ensures front != [] ==> MessageAt(front, |front| - 1) + |front[|front| - 1]| == Size(front) + |front|
    ensures front == [] ==> Size(front) == 0
  {
    var ms := front + [m];
    assert ms[..|front|] == front;
    SizeOfLast(ms);
    if front != [] {
      SizeOfLast(front);
    }
  }

  lemma {:induction false} EntriesOneMore(a: ByteString, front: seq<ByteString>, m: ByteString, b: ByteString)
    requires HasMessages(a, front) && a <= b && LiesAt(b, MessageAt(front + [m], |front|), m)
    ensures HasMessages(b, front + [m])
  {
    hide Size, LiesAt, MessageAt;
    var ms := front + [m];
    forall i | 0 <= i < |ms| ensures LiesAt(b, MessageAt(ms, i), ms[i]) {
      if i < |front| {
        FrontAt(front, m, i);
        LiesFurther(a, b, MessageAt(front, i), front[i]);
      }
    }
  }

  lemma {:induction false} SeparatorsOneMore(a: ByteString, front: seq<ByteString>, m: ByteString, b: ByteString)
    requires HasCommas(a, front) && a <= b
    requires front != [] ==> LiesAt(b, MessageAt(front, |front| - 1) + |front[|front| - 1]|, [44])
    ensures HasCommas(b, front + [m])
  {
    hide Size, LiesAt, MessageAt;
    var ms := front + [m];
    forall i | 0 <= i < |ms| - 1 ensures LiesAt(b, MessageAt(ms, i) + |ms[i]|, [44]) {
      FrontAt(front, m, i);
      if i < |front| - 1 {
        LiesFurther(a, b, MessageAt(front, i) + |front[i]|, [44]);
      }
    }
  }

  lemma {:induction false} OpenOneMore(a: ByteString, front: seq<ByteString>, m: ByteString, b: ByteString)
    requires IsOpen(a, front) && b == a + (if front == [] then [] else [44]) + m
    ensures IsOpen(b, front + [m])
  {
    var mid := a + if front == [] then [] else [44];
    hide Size, LiesAt, MessageAt, HasMessages, HasCommas;
    LastAt(front, m);
    LiesBehind(mid, m);
    if front != [] {
      LiesBehind(a, [44]);
      LiesFurther(mid, b, |a|, [44]);
    }
    EntriesOneMore(a, front, m, b);
    SeparatorsOneMore(a, front, m, b);
  }

  /** A JSON read's body is that array of its messages. */
  lemma {:induction false} BodyIsArray(ms: seq<ByteString>)
    ensures IsArray(WrapArray(ms), ms)
    ensures WrapArray([]) == [91, 93]
  {
    var a, body := [91] + Commas(ms), WrapArray(ms);
    CommasAreOpen(ms);
    assert body == a + [93];
    hide Commas, Size, WrapArray, LiesAt;
    forall i | 0 <= i < |ms| ensures InArray(body, ms, i) {
      LiesFurther(a, body, MessageAt(ms, i), ms[i]);
      if i < |ms| - 1 {
        LiesFurther(a, body, MessageAt(ms, i) + |ms[i]|, [44]);
      } else {
        assert ms[..i] == ms[..|ms| - 1];
        SizeOfLast(ms);
        LiesBehind(a, [93]);
      }
    }
  }

  /**
   A JSON read returns consecutive whole messages, at least one, within the limit unless
   it is only one, and stops only at the tail or when one more would pass the limit.
   */
  lemma {:induction false} MessagesAreRun(log: seq<ByteString>, seqno: nat, tail: nat, count: nat,
          total: nat, limit: nat)
    requires seqno <= tail <= |log|
    ensures var ms := TakeMessages(log, seqno, tail, count, total, limit);
            && ms == log[seqno..seqno + |ms|]
            && (count == 0 && seqno < tail ==> |ms| > 0)
            && (ms == [] || total + Size(ms) <= limit || (count == 0 && |ms| == 1))
            && (seqno + |ms| == tail || total + Size(ms) >= limit
                || total + Size(ms) + |log[seqno + |ms|]| > limit)
    decreases tail - seqno
  {
    var ms := TakeMessages(log, seqno, tail, count, total, limit);
    if ms != [] {
      var rest := ms[1..];
      if total + |log[seqno]| < limit {
        MessagesAreRun(log, seqno + 1, tail, count + 1, total + |log[seqno]|, limit);
        assert ms == [log[seqno]] + TakeMessages(log, seqno + 1, tail, count + 1, total + |log[seqno]|, limit);
        assert rest == TakeMessages(log, seqno + 1, tail, count + 1, total + |log[seqno]|, limit);
      }
      hide TakeMessages;
      SizeStep(log[seqno], rest);
      assert ms == [log[seqno]] + rest;
    }
  }

  lemma {:induction false} SizeStep(m: ByteString, rest: seq<ByteString>)
    ensures Size([m] + rest) == |m| + Size(rest)
  {
    if rest == [] {
      assert [m] + rest == [m] && [m][..0] == [];
    } else {
      var front := rest[..|rest| - 1];
      SizeStep(m, front);
      assert ([m] + rest)[..|rest|] == [m] + front;
    }
  }

  /** All of [seqno, tail) is returned when it is strictly under the limit. */
  lemma {:induction false} UnderLimitTakesAll(log: seq<ByteString>, seqno: nat, tail: nat, room: nat)
    requires seqno <= tail <= |log| && Size(log[seqno..tail]) < room
    ensures TakeBytes(log, seqno, 0, tail, room) == (Flat(log[seqno..tail]), Offset(tail, 0))
    decreases tail - seqno
  {
    if seqno < tail {
      assert log[seqno..tail] == [log[seqno]] + log[seqno + 1..tail];
      SizeStep(log[seqno], log[seqno + 1..tail]);
      FlatFirst(log[seqno], log[seqno + 1..tail]);
      UnderLimitTakesAll(log, seqno + 1, tail, room - |log[seqno]|);
    }
  }

  lemma {:induction false} FlatFirst(m: ByteString, rest: seq<ByteString>)
    ensures Flat([m] + rest) == m + Flat(rest)
  {
    if rest == [] {
      assert [m] + rest == [m] && [m][..0] == [];
    } else {
      var front, last := rest[..|rest| - 1], rest[|rest| - 1];
      FlatFirst(m, front);
      assert ([m] + rest)[..|rest|] == [m] + front;
      assert (m + Flat(front)) + last == m + (Flat(front) + last);
    }
  }

  lemma {:induction false} UnderLimitTakesAllMessages(log: seq<ByteString>, seqno: nat, tail: nat, count: nat,
          total: nat, limit: nat)
    requires seqno <= tail <= |log| && total + Size(log[seqno..tail]) < limit
    ensures TakeMessages(log, seqno, tail, count, total, limit) == log[seqno..tail]
    decreases tail - seqno
  {
    if seqno < tail {
      assert log[seqno..tail] == [log[seqno]] + log[seqno + 1..tail];
      SizeStep(log[seqno], log[seqno + 1..tail]);
      UnderLimitTakesAllMessages(log, seqno + 1, tail, count + 1, total + |log[seqno]|, limit);
    }
  }
}
