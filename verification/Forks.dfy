/**
 Forks: a stream that inherits another's records up to a divergence point. Reads
 of a fork are stitched from segments of its ancestors; creating one fixes the
 point, materialising a partial record when it falls inside one.
 */
module Forks {
  import opened Bytes
  import opened Store
  import opened Appends
  import opened Reads

  function MetaById(s: Keyspace, id: nat): Option<StreamMeta> {
    if PathAt(s, id).None? then None else MetaAt(s, PathAt(s, id).value)
  }

  /** A source has a smaller id than its forks. */
  ghost predicate ForksDescend(s: Keyspace) {
    forall id :: MetaById(s, id).Some? && MetaById(s, id).value.forkedFrom != 0 ==>
                 MetaById(s, id).value.forkedFrom < id
  }

  // ----- the segments of a read -----

  function Resolve(s: Keyspace, id: nat, forkedFrom: nat, forkOffset: nat, startSeq: nat, endSeq: nat): seq<Segment>
    requires ForksDescend(s) && (forkedFrom != 0 ==> forkedFrom < id)
    decreases id, 0
  {
    if startSeq >= endSeq then []
    else if forkedFrom == 0 then [Segment(id, startSeq, endSeq)]
    else
      (if startSeq < forkOffset then ResolveById(s, forkedFrom, startSeq, Min(endSeq, forkOffset)) else [])
      + (if endSeq > forkOffset then
          [Segment(id, if startSeq < forkOffset then forkOffset else startSeq, endSeq)] else [])
  }

  function ResolveById(s: Keyspace, id: nat, startSeq: nat, endSeq: nat): seq<Segment>
    requires ForksDescend(s)
    decreases id, 1
  {
    var m := MetaById(s, id);
    if m.None? then [] else Resolve(s, id, m.value.forkedFrom, m.value.forkOffset, startSeq, endSeq)
  }

  /** Every ancestor of the stream is still there. */
  ghost predicate Alive(s: Keyspace, id: nat, forkedFrom: nat)
    decreases id
  {
    forkedFrom != 0 ==>
      forkedFrom < id && MetaById(s, forkedFrom).Some? && Alive(s, forkedFrom, MetaById(s, forkedFrom).value.forkedFrom)
  }

  /** Record q as a reader of the stream sees it: its own from the divergence point on, the source's before. */
  function SeenAt(s: Keyspace, id: nat, forkedFrom: nat, forkOffset: nat, q: nat): Option<ByteString>
    decreases id
  {
    if forkedFrom == 0 || q >= forkOffset then RecordAt(s, id, q)
    else if forkedFrom >= id || MetaById(s, forkedFrom).None? then None
    else
      var m := MetaById(s, forkedFrom).value;
      SeenAt(s, forkedFrom, m.forkedFrom, m.forkOffset, q)
  }

  function SeenById(s: Keyspace, id: nat, q: nat): Option<ByteString> {
    var m := MetaById(s, id);
    if m.None? then None else SeenAt(s, id, m.value.forkedFrom, m.value.forkOffset, q)
  }

  lemma {:induction false} TilesJoin(a: seq<Segment>, b: seq<Segment>, from: nat, mid: nat, to: nat)
    requires Tiles(a, from, mid) && Tiles(b, mid, to)
    ensures Tiles(a + b, from, to)
  {
    if a == [] {
      assert a + b == b;
    } else {
      TilesJoin(a[1..], b, a[0].endSeq, mid, to);
      TilesBound(b, mid, to);
      TilesBound(a[1..], a[0].endSeq, mid);
      assert (a + b)[1..] == a[1..] + b;
    }
  }

  /** The segments are in order, without gap or overlap, and cover exactly the range. */
  lemma {:induction false} ResolveTiles(s: Keyspace, id: nat, forkedFrom: nat, forkOffset: nat, startSeq: nat,
          endSeq: nat)
    requires ForksDescend(s) && (forkedFrom != 0 ==> forkedFrom < id) && Alive(s, id, forkedFrom) && startSeq < endSeq
    ensures Tiles(Resolve(s, id, forkedFrom, forkOffset, startSeq, endSeq), startSeq, endSeq)
    decreases id
  {
    if forkedFrom == 0 {
      assert [Segment(id, startSeq, endSeq)][1..] == [];
    } else {
      var mid := if startSeq < forkOffset then Min(endSeq, forkOffset) else startSeq;
      var inherited := if startSeq < forkOffset then ResolveById(s, forkedFrom, startSeq, mid) else [];
      var own := if endSeq > forkOffset then [Segment(id, mid, endSeq)] else [];
      if startSeq < forkOffset {
        var m := MetaById(s, forkedFrom).value;
        ResolveTiles(s, forkedFrom, m.forkedFrom, m.forkOffset, startSeq, mid);
      }
      assert endSeq > forkOffset ==> own[1..] == [];
      TilesJoin(inherited, own, startSeq, mid, endSeq);
    }
  }

  /** What each segment's stream stores there is what the reader of the fork sees. */
  lemma {:induction false} ResolveShowsView(s: Keyspace, id: nat, forkedFrom: nat, forkOffset: nat, startSeq: nat,
          endSeq: nat, i: nat, q: nat)
    requires ForksDescend(s) && (forkedFrom != 0 ==> forkedFrom < id)
    requires var segs := Resolve(s, id, forkedFrom, forkOffset, startSeq, endSeq);
             i < |segs| && segs[i].startSeq <= q < segs[i].endSeq
    ensures var segs := Resolve(s, id, forkedFrom, forkOffset, startSeq, endSeq);
            RecordAt(s, segs[i].id, q) == SeenAt(s, id, forkedFrom, forkOffset, q) && segs[i].id <= id
              && segs[i].endSeq <= endSeq
    decreases id
  {
    if forkedFrom != 0 {
      var inherited := if startSeq < forkOffset then
        ResolveById(s, forkedFrom, startSeq, Min(endSeq, forkOffset)) else [];
      if i < |inherited| {
        var m := MetaById(s, forkedFrom).value;
        ResolveShowsView(s, forkedFrom, m.forkedFrom, m.forkOffset, startSeq, Min(endSeq, forkOffset), i, q);
      }
    }
  }

  /** Log is what a reader of the stream sees below the tail. */
  ghost predicate Shows(s: Keyspace, id: nat, forkedFrom: nat, forkOffset: nat, log: seq<ByteString>) {
    forall q :: 0 <= q < |log| ==> SeenAt(s, id, forkedFrom, forkOffset, q) == Some(log[q])
  }

  lemma {:induction false} ResolveBacks(s: Keyspace, id: nat, forkedFrom: nat, forkOffset: nat, startSeq: nat,
          endSeq: nat, log: seq<ByteString>)
    requires ForksDescend(s) && (forkedFrom != 0 ==> forkedFrom < id) && id < U64_LIMIT
    requires Shows(s, id, forkedFrom, forkOffset, log) && endSeq <= |log| && endSeq <= U64_LIMIT && startSeq < endSeq
             && Alive(s, id, forkedFrom)
    ensures AllBack(s, Resolve(s, id, forkedFrom, forkOffset, startSeq, endSeq), log)
  {
    var segs := Resolve(s, id, forkedFrom, forkOffset, startSeq, endSeq);
    hide Resolve, ForksDescend, Alive, SeenAt;
    ResolveTiles(s, id, forkedFrom, forkOffset, startSeq, endSeq);
    forall i | 0 <= i < |segs| ensures Backs(s, segs[i], log) {
      TileAt(segs, startSeq, endSeq, i);
      ResolveShowsView(s, id, forkedFrom, forkOffset, startSeq, endSeq, i, segs[i].startSeq);
      forall q | segs[i].startSeq <= q < segs[i].endSeq ensures RecordAt(s, segs[i].id, q) == Some(log[q]) {
        ResolveShowsView(s, id, forkedFrom, forkOffset, startSeq, endSeq, i, q);
      }
    }
  }

  lemma {:induction false} TileAt(segs: seq<Segment>, from: nat, to: nat, i: nat)
    requires Tiles(segs, from, to) && i < |segs|
    ensures from <= segs[i].startSeq < segs[i].endSeq <= to
  {
    if i > 0 {
      TileAt(segs[1..], segs[0].endSeq, to, i - 1);
    }
  }

  /** readRange: the stitched read of any stream is a read of what its reader sees. */
  method ReadRange(s: Keyspace, id: nat, forkedFrom: nat, forkOffset: nat, json: bool, start: Offset, tail: nat,
          limit: nat, ghost log: seq<ByteString>) returns (r: ReadResult)
    requires AllFit(s) && ForksDescend(s) && (forkedFrom != 0 ==> forkedFrom < id) && id < U64_LIMIT
             && tail <= U64_LIMIT
    requires Alive(s, id, forkedFrom) && Shows(s, id, forkedFrom, forkOffset, log) && tail <= |log|
    ensures r == ReadLog(log, json, start, tail, limit)
  {
    if start.seqno >= tail {
      return ReadResult(if json then WrapArray([]) else [], start, true);
    }
    var segs := Resolve(s, id, forkedFrom, forkOffset, start.seqno, tail);
    hide Resolve, ForksDescend, Alive, SeenAt, Shows, AllFit;
    ResolveTiles(s, id, forkedFrom, forkOffset, start.seqno, tail);
    ResolveBacks(s, id, forkedFrom, forkOffset, start.seqno, tail, log);
    if json {
      r := ReadSegmentsJSON(s, segs, start, tail, limit, log);
    } else {
      r := ReadSegmentsBinary(s, segs, start, tail, limit, log);
    }
  }

  /** recordAt: one record, from wherever in the chain it lives. */
  method RecordOf(s: Keyspace, id: nat, q: nat) returns (r: Option<ByteString>)
    requires ForksDescend(s) && (MetaById(s, id).Some? ==> Alive(s, id, MetaById(s, id).value.forkedFrom))
    ensures r == SeenById(s, id, q)
  {
    var segs := ResolveById(s, id, q, q + 1);
    if |segs| == 0 {
      if MetaById(s, id).Some? {
        var m := MetaById(s, id).value;
        ResolveTiles(s, id, m.forkedFrom, m.forkOffset, q, q + 1);
      }
      return None;
    }
    var seg := segs[|segs| - 1];
    ghost var m := MetaById(s, id).value;
    ResolveTiles(s, id, m.forkedFrom, m.forkOffset, q, q + 1);
    TileAt(segs, q, q + 1, |segs| - 1);
    ResolveShowsView(s, id, m.forkedFrom, m.forkOffset, q, q + 1, |segs| - 1, q);
    return RecordAt(s, seg.id, q);
  }
}
