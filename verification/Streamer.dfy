/**
 The streamer: one goroutine per live stream that validates a burst of appends
 against a pending overlay over lazily loaded caches, and lands all accepted
 effects in one batch. Every method is proved against module Appends.
 */
module Streamer {
  import opened Bytes
  import opened Store
  import opened Appends

  /** What a streamer remembers of its stream between bursts. */
  datatype Writer = Writer(
    path: ByteString,
    meta: StreamMeta,
    writeTail: nat,
    producers: map<ByteString, ProducerState>,
    loaded: set<ByteString>,
    writerSeq: ByteString,
    writerSeqLoaded: bool)

  /** newStreamer: everything but metadata and tail is loaded on first use. */
  function Spawn(path: ByteString, store: Keyspace): Writer
    requires MetaAt(store, path).Some?
  {
    var m := MetaAt(store, path).value;
    Writer(path, m, TailAt(store, m.id), map[], {}, [], false)
  }

  function CachedProducer(w: Writer, store: Keyspace, pid: ByteString): Option<ProducerState> {
    if pid in w.loaded then (if pid in w.producers then Some(w.producers[pid]) else None)
    else ProducerAt(store, w.meta.id, pid)
  }

  function CachedWriterSeq(w: Writer, store: Keyspace): ByteString {
    if w.writerSeqLoaded then w.writerSeq else WriterSeqAt(store, w.meta.id)
  }

  /**
   The streamer's view is the stored state v: what it remembers, completed by what
   it would load from `store`. In sync mode v is the store itself; in notifier mode
   v runs ahead of it by the writes still queued.
   */
  ghost predicate Reflects(w: Writer, store: Keyspace, v: Keyspace) {
    && MetaAt(v, w.path) == Some(w.meta)
    && w.writeTail == TailAt(v, w.meta.id)
    && w.producers.Keys <= w.loaded
    && (forall pid :: CachedProducer(w, store, pid) == ProducerAt(v, w.meta.id, pid))
    && CachedWriterSeq(w, store) == WriterSeqAt(v, w.meta.id)
  }

  function Stamp(reqs: seq<Request>, now: nat): (events: seq<Event>)
    ensures |events| == |reqs|
  {
    seq(|reqs|, i requires 0 <= i < |reqs| => Event(reqs[i], now))
  }

  /** The finished pending view of one group commit. */
  datatype CommitBurst = CommitBurst(
    batch: seq<Request>,
    ops: Batch,
    effects: Effects,
    responses: seq<Response>,
    accepted: seq<bool>)

  /**
   The contract of planning a burst and publishing the writer view: the answers and
   the batch are those of one-at-a-time processing, and the streamer now reflects the
   state the batch leads to.
   */
  ghost predicate Planned(w: Writer, store: Keyspace, v: Keyspace, reqs: seq<Request>, now: nat, w': Writer,
          b: CommitBurst)
    requires MetaAt(v, w.path).Some?
  {
    var o := AppendAll(v, w.path, Stamp(reqs, now));
    && b.batch == reqs && b.responses == o.responses && b.accepted == o.accepted
    && b.ops == BatchOf(w.path, w.meta, w.writeTail, b.effects, now)
    && Apply(v, b.ops) == o.store
    && b.effects.records == AcceptedRecords(Stamp(reqs, now), o.accepted)
    && w'.path == w.path && w'.meta.id == w.meta.id
    && Reflects(w', store, o.store)
    && w.loaded <= w'.loaded && b.effects.producers.Keys <= w'.loaded
    && (w.writerSeqLoaded || b.effects.writerSeq.Some? ==> w'.writerSeqLoaded)
  }

  function Payloads(ops: seq<(Key, ByteString)>): (ps: seq<ByteString>)
    ensures |ps| == |ops|
  {
    seq(|ops|, i requires 0 <= i < |ops| => ops[i].1)
  }

  /** A batch is known by the keys it touches and what it writes there. */
  lemma BatchIs(path: ByteString, m: StreamMeta, base: nat, e: Effects, now: int, b: Batch)
    requires e != NoEffects(m)
    requires forall k :: k in b <==> Touches(path, m, base, e, k)
    requires forall k :: k in b ==> b[k] == Writes(m, base, e, now, k)
    ensures b == BatchOf(path, m, base, e, now)
  {
    hide Touches, Writes;
  }

  /** The state after a batch, read through the writer's caches. */
  lemma ReflectsAfter(w: Writer, store: Keyspace, v: Keyspace, e: Effects, now: int, w': Writer)
    requires Reflects(w, store, v)
    requires e.producers.Keys <= w.loaded
    requires w' == w.(meta := w.meta.(closed := e.closed, deadline := e.deadline),
               writeTail := w.writeTail + |e.records|,
                      producers := w.producers + e.producers,
                      writerSeq := if e.writerSeq.Some? then e.writerSeq.value else w.writerSeq,
                      writerSeqLoaded := w.writerSeqLoaded || e.writerSeq.Some?)
    ensures Reflects(w', store, Apply(v, BatchOf(w.path, w.meta, w.writeTail, e, now)))
  {
    AfterBatch(v, w.path, w.meta, e, now);
    hide BatchOf, Apply;
    var t := Apply(v, BatchOf(w.path, w.meta, w.writeTail, e, now));
    forall pid ensures CachedProducer(w', store, pid) == ProducerAt(t, w.meta.id, pid) {
      assert CachedProducer(w, store, pid) == ProducerAt(v, w.meta.id, pid);
    }
  }

  lemma ReflectsMeta(w: Writer, store: Keyspace, v: Keyspace)
    requires Reflects(w, store, v)
    ensures MetaAt(v, w.path) == Some(w.meta)
  {
  }

  /** A commit that writes nothing the streamer has yet to load leaves its view as it was. */
  lemma LandingKeepsView(w: Writer, store: Keyspace, v: Keyspace, b: Batch)
    requires Reflects(w, store, v)
    requires forall pid :: Producer(w.meta.id, pid) in b ==> pid in w.loaded
    requires WriterSeq(w.meta.id) in b ==> w.writerSeqLoaded
    ensures Reflects(w, Apply(store, b), v)
  {
    var t := Apply(store, b);
    forall pid ensures CachedProducer(w, t, pid) == ProducerAt(v, w.meta.id, pid) {
      assert CachedProducer(w, store, pid) == ProducerAt(v, w.meta.id, pid);
      assert Get(t, Producer(w.meta.id, pid)) == Get(store, Producer(w.meta.id, pid)) || pid in w.loaded;
    }
    assert Get(t, WriterSeq(w.meta.id)) == Get(store, WriterSeq(w.meta.id)) || w.writerSeqLoaded;
  }

  /**
   Group commit preserves meaning: planning a burst a + b and planning a, then b, give
   the same answers, lead to the same stored map, and leave the same writer view.
   */
  lemma {:induction false} GroupCommitPreservesMeaning(
      w: Writer, store: Keyspace, v: Keyspace, a: seq<Request>, b: seq<Request>, now: nat,
      whole: CommitBurst, w': Writer,
      first: CommitBurst, w1: Writer, store1: Keyspace, second: CommitBurst, w2: Writer)
    requires Reflects(w, store, v)
    requires Planned(w, store, v, a + b, now, w', whole)
    requires Planned(w, store, v, a, now, w1, first)
    requires Reflects(w1, store1, Apply(v, first.ops))
    requires Planned(w1, store1, Apply(v, first.ops), b, now, w2, second)
    ensures whole.responses == first.responses + second.responses
    ensures whole.accepted == first.accepted + second.accepted
    ensures Apply(v, whole.ops) == Apply(Apply(v, first.ops), second.ops)
    ensures w'.writeTail == w2.writeTail && w'.meta == w2.meta
    ensures forall pid :: CachedProducer(w', store, pid) == CachedProducer(w2, store1, pid)
    ensures CachedWriterSeq(w', store) == CachedWriterSeq(w2, store1)
  {
    hide Apply, AppendAll, BatchOf, Reflects, AcceptedRecords, CachedProducer, CachedWriterSeq;
    assert Stamp(a + b, now) == Stamp(a, now) + Stamp(b, now);
    ReflectsMeta(w, store, v);
    GroupingIsInvisible(v, w.path, Stamp(a, now), Stamp(b, now));
    var t := AppendAll(v, w.path, Stamp(a + b, now)).store;
    assert Reflects(w', store, t) && Reflects(w2, store1, t);
    SameView(w', store, w2, store1, t);
  }

  /** Two streamers that reflect one state hold the same view of it. */
  lemma SameView(w: Writer, store: Keyspace, x: Writer, other: Keyspace, t: Keyspace)
    requires w.path == x.path && Reflects(w, store, t) && Reflects(x, other, t)
    ensures w.writeTail == x.writeTail && w.meta == x.meta
    ensures forall pid :: CachedProducer(w, store, pid) == CachedProducer(x, other, pid)
    ensures CachedWriterSeq(w, store) == CachedWriterSeq(x, other)
  {
  }

  // ----- retire and respawn -----

  /** A key that belongs to the stream at path. */
  predicate OwnKey(path: ByteString, id: nat, k: Key) {
    match k
    case Meta(p) => p == path
    case Tail(i) => i == id
    case Record(i, _) => i == id
    case Producer(i, _) => i == id
    case WriterSeq(i) => i == id
    case _ => false
  }

  /** s and t hold the same stream at path: its metadata, tail, records and producers. */
  ghost predicate Alike(s: Keyspace, t: Keyspace, path: ByteString) {
    && MetaAt(s, path).Some?
    && forall k :: OwnKey(path, MetaAt(s, path).value.id, k) ==> Get(s, k) == Get(t, k)
  }

  /** Then whatever is read of the stream is the same. */
  lemma AlikeReads(s: Keyspace, t: Keyspace, path: ByteString)
    requires Alike(s, t, path)
    ensures MetaAt(t, path) == MetaAt(s, path)
    ensures var id := MetaAt(s, path).value.id;
            && TailAt(t, id) == TailAt(s, id) && WriterSeqAt(t, id) == WriterSeqAt(s, id)
            && forall pid :: ProducerAt(t, id, pid) == ProducerAt(s, id, pid)
  {
    var id := MetaAt(s, path).value.id;
    assert Get(s, Meta(path)) == Get(t, Meta(path)) && Get(s, Tail(id)) == Get(t, Tail(id));
    assert Get(s, WriterSeq(id)) == Get(t, WriterSeq(id));
    forall pid ensures ProducerAt(t, id, pid) == ProducerAt(s, id, pid) {
      assert Get(s, Producer(id, pid)) == Get(t, Producer(id, pid));
    }
  }

  lemma {:induction false} AlikeStep(s: Keyspace, t: Keyspace, path: ByteString, req: Request, now: nat)
    requires Alike(s, t, path) && MetaAt(t, path).Some?
    ensures var a, b := AppendOne(s, path, req, now), AppendOne(t, path, req, now);
            a.response == b.response && a.accepted == b.accepted && Alike(a.store, b.store, path)
  {
    var m := MetaAt(s, path).value;
    AlikeReads(s, t, path);
    assert ViewOf(s, m, req) == ViewOf(t, m, req);
    match Decide(ViewOf(s, m, req), req)
    case Refuse(_) =>
    case Accept(_, p) =>
      var e := EffectsOf(m, req, p, now);
      AfterBatch(s, path, m, e, now);
      var b := BatchOf(path, m, TailAt(s, m.id), e, now);
      hide BatchOf, Decide;
      forall k | OwnKey(path, m.id, k) ensures Get(Apply(s, b), k) == Get(Apply(t, b), k) {
        assert Get(s, k) == Get(t, k);
      }
  }

  lemma {:induction false} AlikeRuns(s: Keyspace, t: Keyspace, path: ByteString, events: seq<Event>)
    requires Alike(s, t, path) && MetaAt(t, path).Some?
    ensures var a, b := AppendAll(s, path, events), AppendAll(t, path, events);
            a.responses == b.responses && a.accepted == b.accepted && Alike(a.store, b.store, path)
  {
    if events != [] {
      AlikeRuns(s, t, path, events[..|events| - 1]);
      var a, b := AppendAll(s, path, events[..|events| - 1]), AppendAll(t, path, events[..|events| - 1]);
      AlikeStep(a.store, b.store, path, events[|events| - 1].req, events[|events| - 1].now);
    }
  }

  /**
   Retiring is invisible: if what the retiring streamer reflects is what is stored,
   then any further traffic is answered by the respawned streamer's line exactly as
   it would have been by the retired one's, and leaves the same stream behind.
   */
  lemma {:induction false} RespawnIsInvisible(w: Writer, store: Keyspace, v: Keyspace, later: seq<Event>)
    requires Reflects(w, store, v) && Alike(v, store, w.path)
    ensures MetaAt(v, w.path).Some? && MetaAt(store, w.path) == MetaAt(v, w.path)
    ensures Reflects(Spawn(w.path, store), store, store)
    ensures Spawn(w.path, store).writeTail == w.writeTail
    ensures AppendAll(v, w.path, later).responses == AppendAll(store, w.path, later).responses
    ensures AppendAll(v, w.path, later).accepted == AppendAll(store, w.path, later).accepted
    ensures Alike(AppendAll(v, w.path, later).store, AppendAll(store, w.path, later).store, w.path)
  {
    AlikeReads(v, store, w.path);
    AlikeRuns(v, store, w.path, later);
  }

  class PendingBurst {
    var tail: nat
    var closed: bool
    var deadline: nat
    var producers: map<ByteString, ProducerState>
    var writerSeq: Option<ByteString>
    var recordOps: seq<(Key, ByteString)>
    const now: nat

    constructor (tail: nat, closed: bool, deadline: nat, now: nat)
      ensures this.tail == tail && this.closed == closed && this.deadline == deadline && this.now == now
      ensures producers == map[] && writerSeq == None && recordOps == []
    {
      this.tail, this.closed, this.deadline, this.now := tail, closed, deadline, now;
      producers, writerSeq, recordOps := map[], None, [];
    }

    ghost function Gathered(): Effects
      reads this
    {
      Effects(Payloads(recordOps), producers, writerSeq, closed, deadline)
    }

    /** Each record takes the next sequence number. */
    method AssignRecords(id: nat, records: seq<ByteString>)
      modifies this`recordOps, this`tail
      ensures tail == old(tail) + |records|
      ensures Payloads(recordOps) == old(Payloads(recordOps)) + records
      ensures recordOps[..|old(recordOps)|] == old(recordOps)
      ensures forall j :: |old(recordOps)| <= j < |recordOps| ==>
                          recordOps[j].0 == Record(id, old(tail) + (j - |old(recordOps)|))
    {
      var start := tail;
      ghost var ops0 := recordOps;
      for i := 0 to |records|
        invariant |recordOps| == |ops0| + i && recordOps[..|ops0|] == ops0
        invariant forall j :: |ops0| <= j < |recordOps| ==>
                              recordOps[j] == (Record(id, start + (j - |ops0|)), records[j - |ops0|])
        modifies this`recordOps
      {
        recordOps := recordOps + [(Record(id, start + i), records[i])];
      }
      tail := start + |records|;
      assert forall j :: 0 <= j < |ops0| ==> recordOps[j] == recordOps[..|ops0|][j];
    }

    /** slideTTL: rate-limited to one move per granularity window. */
    method SlideTTL(ttl: nat)
      modifies this`deadline
      ensures deadline == Slide(old(deadline), ttl, now)
    {
      if ttl == 0 {
        return;
      }
      var nowTTL := AddU64(now, ttl);
      if nowTTL < deadline {
        return;
      }
      var gran := ttl / 4;
      if gran < 1 {
        gran := 1;
      } else if gran > 600 {
        gran := 600;
      }
      deadline := AddU64(nowTTL, gran);
    }
  }

  lemma BatchTouches(path: ByteString, m: StreamMeta, base: nat, e: Effects, now: int, b: Batch)
    requires b == BatchOf(path, m, base, e, now)
    ensures forall pid :: Producer(m.id, pid) in b ==> pid in e.producers
    ensures WriterSeq(m.id) in b ==> e.writerSeq.Some?
  {
  }

  /** What a read does to a stream with a sliding TTL. */
  function TouchBatch(path: ByteString, m: StreamMeta, now: nat): Batch {
    var d := Slide(m.deadline, m.ttl, now);
    if m.ttl == 0 || AddU64(now, m.ttl) < m.deadline then map[]
    else
      map[Expiry(d, m.id) := Some(U64Val(m.ttl))]
      + (if m.deadline > 0 && m.deadline != d then map[Expiry(m.deadline, m.id) := None] else map[])
      + map[Meta(path) := Some(MetaVal(m.(deadline := d)))]
  }

  function Touched(s: Keyspace, path: ByteString, now: nat): Keyspace {
    if MetaAt(s, path).None? then s else Apply(s, TouchBatch(path, MetaAt(s, path).value, now))
  }

  lemma TouchKeepsView(w: Writer, v: Keyspace, now: nat, w': Writer)
    requires Reflects(w, v, v)
    requires TouchBatch(w.path, w.meta, now) != map[]
    requires w' == w.(meta := w.meta.(deadline := Slide(w.meta.deadline, w.meta.ttl, now)))
    ensures Reflects(w', Touched(v, w.path, now), Touched(v, w.path, now))
  {
    hide Slide;
    var b := TouchBatch(w.path, w.meta, now);
    var t := Apply(v, b);
    assert Get(t, Meta(w.path)) == b[Meta(w.path)];
    assert Get(t, Tail(w.meta.id)) == Get(v, Tail(w.meta.id));
    assert Get(t, WriterSeq(w.meta.id)) == Get(v, WriterSeq(w.meta.id));
    forall pid ensures CachedProducer(w', t, pid) == ProducerAt(t, w.meta.id, pid) {
      assert Get(t, Producer(w.meta.id, pid)) == Get(v, Producer(w.meta.id, pid));
      assert CachedProducer(w, v, pid) == ProducerAt(v, w.meta.id, pid);
    }
  }

  /** The storage engine: one ordered map, changed by atomic batches. */
  class Engine {
    var data: Keyspace

    constructor ()
      ensures data == map[]
    {
      data := map[];
    }

    /** Whether the write fails is the environment's choice; a failed write changes nothing. */
    method Commit(b: Batch, fails: bool) returns (ok: bool)
      modifies this
      ensures ok == !fails
      ensures data == if ok then Apply(old(data), b) else old(data)
    {
      ok := !fails;
      if ok {
        data := Apply(data, b);
      }
    }
  }

  /** failAccepted: what would have been acknowledged is answered 500. */
  function FailAccepted(responses: seq<Response>, accepted: seq<bool>): (r: seq<Response>)
    requires |responses| == |accepted|
    ensures |r| == |responses|
    ensures forall i :: 0 <= i < |r| ==> r[i] == if accepted[i] then Plain(500) else responses[i]
  {
    seq(|responses|, i requires 0 <= i < |responses| => if accepted[i] then Plain(500) else responses[i])
  }

  class Streamer {
    const path: ByteString
    var meta: StreamMeta
    var producers: map<ByteString, ProducerState>
    var producerLoaded: set<ByteString>
    var writerSeq: ByteString
    var writerSeqLoaded: bool
    var writeTail: nat

    // Reader-visible state and what gates retirement.
    var tail: nat
    var closed: bool
    var pending: int
    var readers: nat
    var queued: nat
    var dead: bool

    ghost function Snapshot(): Writer
      reads this
    {
      Writer(path, meta, writeTail, producers, producerLoaded, writerSeq, writerSeqLoaded)
    }

    /** Reader and writer views differ only while durability callbacks are outstanding. */
    ghost predicate Settled()
      reads this
    {
      pending == 0 ==> tail == writeTail && closed == meta.closed
    }

    constructor (path: ByteString, store: Keyspace)
      requires MetaAt(store, path).Some?
      ensures Snapshot() == Spawn(path, store)
      ensures tail == writeTail && closed == meta.closed && pending == 0 && readers == 0 && queued == 0 && !dead
      ensures Reflects(Snapshot(), store, store)
    {
      this.path := path;
      meta := MetaAt(store, path).value;
      producers, producerLoaded, writerSeq, writerSeqLoaded := map[], {}, [], false;
      writeTail := TailAt(store, MetaAt(store, path).value.id);
      tail, closed := TailAt(store, MetaAt(store, path).value.id), MetaAt(store, path).value.closed;
      pending, readers, queued, dead := 0, 0, 0, false;
    }

    method LoadProducer(pid: ByteString, store: Keyspace, ghost v: Keyspace) returns (r: Option<ProducerState>)
      requires Reflects(Snapshot(), store, v)
      modifies this`producers, this`producerLoaded
      ensures Reflects(Snapshot(), store, v)
      ensures r == ProducerAt(v, meta.id, pid)
      ensures producerLoaded == old(producerLoaded) + {pid}
    {
      assert CachedProducer(Snapshot(), store, pid) == ProducerAt(v, meta.id, pid);
      if pid in producerLoaded {
        return if pid in producers then Some(producers[pid]) else None;
      }
      producerLoaded := producerLoaded + {pid};
      r := ProducerAt(store, meta.id, pid);
      if r.Some? {
        producers := producers[pid := r.value];
      }
      ghost var w0, w := old(Snapshot()), Snapshot();
      forall q ensures CachedProducer(w, store, q) == ProducerAt(v, meta.id, q) {
        assert CachedProducer(w0, store, q) == ProducerAt(v, meta.id, q);
      }
    }

    method LoadWriterSeq(store: Keyspace, ghost v: Keyspace) returns (r: ByteString)
      requires Reflects(Snapshot(), store, v)
      modifies this`writerSeq, this`writerSeqLoaded
      ensures Reflects(Snapshot(), store, v)
      ensures r == WriterSeqAt(v, meta.id) && writerSeqLoaded
    {
      if !writerSeqLoaded {
        writerSeqLoaded := true;
        writerSeq := WriterSeqAt(store, meta.id);
      }
      ghost var w0, w := old(Snapshot()), Snapshot();
      forall q ensures CachedProducer(w, store, q) == ProducerAt(v, meta.id, q) {
        assert CachedProducer(w0, store, q) == ProducerAt(v, meta.id, q);
      }
      return writerSeq;
    }

    /** pend overlays this streamer's view: its effects start at the writer tail. */
    ghost predicate Overlays(pend: PendingBurst)
      reads this, pend
    {
      && pend.tail == writeTail + |pend.recordOps|
      && (forall i :: 0 <= i < |pend.recordOps| ==> pend.recordOps[i].0 == Record(meta.id, writeTail + i))
      && (meta.closed ==> pend.closed)
      && (pend.deadline == meta.deadline || pend.deadline == Slide(meta.deadline, meta.ttl, pend.now))
      && (forall pid :: pid in pend.producers ==> pid in producerLoaded)
      && (pend.writerSeq.Some? ==> writerSeqLoaded)
    }

    /** The state v with the pending effects landed. */
    ghost function Landed(pend: PendingBurst, v: Keyspace): Keyspace
      reads this`meta, this`writeTail, pend
    {
      Apply(v, BatchOf(path, meta, writeTail, pend.Gathered(), pend.now))
    }

    method EffProducer(pend: PendingBurst, pid: ByteString, store: Keyspace, ghost v: Keyspace)
      returns (r: Option<ProducerState>)
      requires Reflects(Snapshot(), store, v) && Overlays(pend)
      modifies this`producers, this`producerLoaded
      ensures Reflects(Snapshot(), store, v) && Overlays(pend)
      ensures r == ProducerAt(Landed(pend, v), meta.id, pid)
      ensures pid in producerLoaded
      ensures old(producerLoaded) <= producerLoaded && (old(writerSeqLoaded) ==> writerSeqLoaded)
    {
      AfterBatch(v, path, meta, pend.Gathered(), pend.now);
      if pid in pend.producers {
        return Some(pend.producers[pid]);
      }
      r := LoadProducer(pid, store, v);
    }

    method EffWriterSeq(pend: PendingBurst, store: Keyspace, ghost v: Keyspace) returns (r: ByteString)
      requires Reflects(Snapshot(), store, v) && Overlays(pend)
      modifies this`writerSeq, this`writerSeqLoaded
      ensures Reflects(Snapshot(), store, v) && Overlays(pend)
      ensures r == WriterSeqAt(Landed(pend, v), meta.id)
      ensures writerSeqLoaded
      ensures old(producerLoaded) <= producerLoaded && (old(writerSeqLoaded) ==> writerSeqLoaded)
    {
      AfterBatch(v, path, meta, pend.Gathered(), pend.now);
      if pend.writerSeq.Some? {
        return pend.writerSeq.value;
      }
      r := LoadWriterSeq(store, v);
    }

    /** The metadata and the view a request is judged by within the burst. */
    ghost function PendingMeta(pend: PendingBurst): StreamMeta
      reads this`meta, pend
    {
      meta.(closed := pend.closed, deadline := pend.deadline)
    }

    ghost function PendingView(pend: PendingBurst, v: Keyspace, req: Request): View
      reads this`meta, this`writeTail, pend
    {
      ViewOf(Landed(pend, v), PendingMeta(pend), req)
    }

    lemma PendingViewIs(pend: PendingBurst, req: Request, store: Keyspace, v: Keyspace)
      requires Reflects(Snapshot(), store, v) && Overlays(pend)
      ensures var view := PendingView(pend, v, req);
              && view.tail == pend.tail && view.closed == pend.closed && view.mediaType == meta.mediaType
              && view.prior == (if req.producer.Some? then
                   ProducerAt(Landed(pend, v), meta.id, req.producer.value.id) else None)
              && view.writerSeq == WriterSeqAt(Landed(pend, v), meta.id)
    {
      hide BatchOf, Apply, Slide;
      AfterBatch(v, path, meta, pend.Gathered(), pend.now);
    }

    method JudgeClosed(pend: PendingBurst, req: Request, store: Keyspace, ghost v: Keyspace) returns (resp: Response)
      requires Reflects(Snapshot(), store, v) && Overlays(pend) && pend.closed
      modifies this`producers, this`producerLoaded
      ensures Reflects(Snapshot(), store, v) && Overlays(pend)
      ensures DecideClosed(PendingView(pend, v, req), req) == Refuse(resp)
      ensures old(producerLoaded) <= producerLoaded && (old(writerSeqLoaded) ==> writerSeqLoaded)
    {
      PendingViewIs(pend, req, store, v);
      hide Landed, PendingView, Reflects, Overlays, ProducerAt;
      if !req.hasBody {
        return AtTail(204, pend.tail, true);
      }
      if req.producer.Some? {
        var prior := EffProducer(pend, req.producer.value.id, store, v);
        if Validate(prior, req.producer.value).Duplicate? {
          return AtTail(204, pend.tail, true).(epoch := Some(prior.value.epoch),
              producerSeq := Some(prior.value.lastSeq));
        }
      }
      return AtTail(409, pend.tail, true);
    }

    /** Idempotent-producer validation: the refusal, or the state to record. */
    method JudgeProducer(pend: PendingBurst, req: Request, store: Keyspace, ghost v: Keyspace)
      returns (refusal: Option<Response>, newState: ProducerState)
      requires Reflects(Snapshot(), store, v) && Overlays(pend)
      requires req.producer.Some? && !pend.closed && !(req.hasBody && req.mediaType != meta.mediaType)
      modifies this`producers, this`producerLoaded
      ensures Reflects(Snapshot(), store, v) && Overlays(pend)
      ensures var view := PendingView(pend, v, req);
              match refusal
              case Some(r) => Decide(view, req) == Refuse(r)
              case None => Decide(view, req) == if StaleStreamSeq(view, req) then
                Refuse(Plain(409)) else Accept(AcceptedResponse(view, req), Some(newState))
      ensures req.producer.value.id in producerLoaded
      ensures old(producerLoaded) <= producerLoaded && (old(writerSeqLoaded) ==> writerSeqLoaded)
    {
      PendingViewIs(pend, req, store, v);
      var h := req.producer.value;
      hide Landed, PendingView, Apply, ProducerAt, Reflects, Overlays;
      var prior := EffProducer(pend, h.id, store, v);
      newState := ProducerState(0, 0, false);
      match Validate(prior, h) {
        case StaleEpoch(e) => refusal := Some(Plain(403).(epoch := Some(e)));
        case BadSeqStart => refusal := Some(Plain(400));
        case Gap(x, y) => refusal := Some(Plain(409).(expected := Some(x), received := Some(y)));
        case Duplicate =>
          refusal := Some(AtTail(204, pend.tail, pend.closed).(epoch := Some(prior.value.epoch),
                producerSeq := Some(prior.value.lastSeq)));
        case Accepted(st) =>
          refusal, newState := None, st.(closedBy := req.close);
      }
    }

    /** The validation half of planAppend. */
    method Judge(pend: PendingBurst, req: Request, store: Keyspace, ghost v: Keyspace) returns (d: Decision)
      requires Reflects(Snapshot(), store, v) && Overlays(pend)
      modifies this`producers, this`producerLoaded, this`writerSeq, this`writerSeqLoaded
      ensures Reflects(Snapshot(), store, v) && Overlays(pend)
      ensures d == Decide(PendingView(pend, v, req), req)
      ensures d.Accept? && d.producer.Some? ==> req.producer.Some? && req.producer.value.id in producerLoaded
      ensures d.Accept? && req.streamSeq.Some? ==> writerSeqLoaded
      ensures d.Accept? ==> !pend.closed
      ensures old(producerLoaded) <= producerLoaded && (old(writerSeqLoaded) ==> writerSeqLoaded)
    {
      PendingViewIs(pend, req, store, v);
      ghost var view := PendingView(pend, v, req);
      hide Landed, PendingView, Reflects, Overlays, ProducerAt, Validate, DecideClosed;
      if pend.closed {
        var resp := JudgeClosed(pend, req, store, v);
        return Refuse(resp);
      }
      if req.hasBody && req.mediaType != meta.mediaType {
        return Refuse(Plain(409));
      }
      var newState: Option<ProducerState> := None;
      if req.producer.Some? {
        var refusal, st := JudgeProducer(pend, req, store, v);
        if refusal.Some? {
          return Refuse(refusal.value);
        }
        newState := Some(st);
      }
      assert Decide(view, req) == if StaleStreamSeq(view, req) then
             Refuse(Plain(409)) else Accept(AcceptedResponse(view, req), newState);
      hide Decide;
      if req.streamSeq.Some? {
        var last := EffWriterSeq(pend, store, v);
        if AtMost(req.streamSeq.value, last) {
          return Refuse(Plain(409));
        }
      }
      var status := 204;
      var epoch, producerSeq := None, None;
      if req.producer.Some? {
        epoch, producerSeq := Some(req.producer.value.epoch), Some(req.producer.value.seqno);
        if |req.records| > 0 {
          status := 200;
        }
      }
      return Accept(Response(status, Offset(pend.tail + |req.records|, 0), pend.closed || req.close, epoch,
            producerSeq, None, None), newState);
    }

    /** The recording half of planAppend: sequence numbers are assigned and the effects enter the pending view. */
    method Gather(pend: PendingBurst, req: Request, newState: Option<ProducerState>)
      requires Overlays(pend)
      requires newState.Some? ==> req.producer.Some? && req.producer.value.id in producerLoaded
      requires req.streamSeq.Some? ==> writerSeqLoaded
      modifies pend
      ensures Overlays(pend)
      ensures pend.Gathered() == old(Merge(pend.Gathered(), EffectsOf(PendingMeta(pend), req, newState, pend.now)))
    {
      hide Slide, AddU64, Granularity;
      SlideIsIdempotent(meta.deadline, meta.ttl, pend.now);
      pend.AssignRecords(meta.id, req.records);
      if newState.Some? {
        pend.producers := pend.producers[req.producer.value.id := newState.value];
      }
      if req.streamSeq.Some? {
        pend.writerSeq := req.streamSeq;
      }
      if req.close {
        pend.closed := true;
      }
      pend.SlideTTL(meta.ttl);
    }

    /** planAppend: the reference step, taken in the overlaid state. */
    method PlanAppend(pend: PendingBurst, req: Request, store: Keyspace, ghost v: Keyspace)
      returns (resp: Response, accepted: bool)
      requires Reflects(Snapshot(), store, v) && Overlays(pend)
      modifies this`producers, this`producerLoaded, this`writerSeq, this`writerSeqLoaded, pend
      ensures Reflects(Snapshot(), store, v) && Overlays(pend)
      ensures MetaAt(old(Landed(pend, v)), path).Some?
      ensures AppendOne(old(Landed(pend, v)), path, req, pend.now) == Outcome(Landed(pend, v), resp, accepted)
      ensures pend.Gathered().records == old(pend.Gathered().records) + if accepted then req.records else []
      ensures accepted ==> !old(pend.closed)
      ensures pend.closed == (old(pend.closed) || (accepted && req.close))
      ensures old(producerLoaded) <= producerLoaded && (old(writerSeqLoaded) ==> writerSeqLoaded)
    {
      hide BatchOf, Apply, Decide;
      AfterBatch(v, path, meta, pend.Gathered(), pend.now);
      ghost var e0 := pend.Gathered();
      ghost var m2 := PendingMeta(pend);
      var d := Judge(pend, req, store, v);
      if d.Refuse? {
        return d.response, false;
      }
      ghost var e1 := EffectsOf(m2, req, d.producer, pend.now);
      SlideIsIdempotent(meta.deadline, meta.ttl, pend.now);
      MergedBatch(v, path, meta, writeTail, e0, e1, pend.now);
      Gather(pend, req, d.producer);
      return d.response, true;
    }

    method RecordOps(pend: PendingBurst) returns (ops: Batch)
      requires Overlays(pend)
      ensures forall k :: k in ops <==>
                          k.Record? && k.id == meta.id && writeTail <= k.seqno < writeTail + |pend.recordOps|
      ensures forall k :: k in ops ==> ops[k] == Writes(meta, writeTail, pend.Gathered(), pend.now, k)
    {
      ops := map[];
      for i := 0 to |pend.recordOps|
        invariant forall k :: k in ops <==> k.Record? && k.id == meta.id && writeTail <= k.seqno < writeTail + i
        invariant forall k :: k in ops ==> ops[k] == Writes(meta, writeTail, pend.Gathered(), pend.now, k)
      {
        ops := ops[pend.recordOps[i].0 := Some(RecordVal(pend.recordOps[i].1))];
      }
    }

    method ProducerOps(pend: PendingBurst) returns (ops: Batch)
      ensures forall k :: k in ops <==> k.Producer? && k.id == meta.id && k.producerId in pend.producers
      ensures forall k :: k in ops ==> ops[k] == Writes(meta, writeTail, pend.Gathered(), pend.now, k)
    {
      ops := map[];
      var rest := pend.producers.Keys;
      while rest != {}
        invariant rest <= pend.producers.Keys
        invariant forall k :: k in ops <==> k.Producer? && k.id == meta.id && k.producerId in pend.producers
                                            && k.producerId !in rest
        invariant forall k :: k in ops ==> ops[k] == Writes(meta, writeTail, pend.Gathered(), pend.now, k)
        decreases |rest|
      {
        var pid :| pid in rest;
        ops := ops[Producer(meta.id, pid) := Some(ProducerVal(pend.producers[pid]))];
        rest := rest - {pid};
      }
    }

    /** The keys that carry one value each: tail, Stream-Seq, the deadline index and the metadata. */
    method ScalarOps(pend: PendingBurst, metaChanged: bool) returns (ops: Batch)
      requires Overlays(pend)
      requires metaChanged <==> pend.closed != meta.closed
      ensures forall k :: k in ops <==> !k.Record? && !k.Producer? && Touches(path, meta, writeTail, pend.Gathered(), k)
      ensures forall k :: k in ops ==> ops[k] == Writes(meta, writeTail, pend.Gathered(), pend.now, k)
    {
      hide Slide;
      ops := map[Tail(meta.id) := Some(TailVal(pend.tail, pend.now))];
      if pend.writerSeq.Some? {
        ops := ops[WriterSeq(meta.id) := Some(SeqVal(pend.writerSeq.value))];
      }
      var rewriteMeta := metaChanged;
      if pend.deadline != meta.deadline {
        ops := ops[Expiry(pend.deadline, meta.id) := Some(U64Val(meta.ttl))];
        if meta.deadline > 0 {
          ops := ops[Expiry(meta.deadline, meta.id) := None];
        }
        rewriteMeta := true;
      }
      if rewriteMeta {
        ops := ops[Meta(path) := Some(MetaVal(meta.(closed := pend.closed, deadline := pend.deadline)))];
      }
    }

    /** Assembles one batch from the final pending view: mutable keys carry only their final value. */
    method AssembleOps(pend: PendingBurst, metaChanged: bool) returns (ops: Batch)
      requires Overlays(pend) && pend.Gathered() != NoEffects(meta)
      requires metaChanged <==> pend.closed != meta.closed
      ensures ops == BatchOf(path, meta, writeTail, pend.Gathered(), pend.now)
    {
      var records := RecordOps(pend);
      var scalars := ScalarOps(pend, metaChanged);
      var producerOps := ProducerOps(pend);
      ops := records + scalars + producerOps;
      BatchIs(path, meta, writeTail, pend.Gathered(), pend.now, ops);
    }

    /** The state after the first i requests is the pending view landed on v. */
    ghost predicate MidBurst(pend: PendingBurst, v: Keyspace, batch: seq<Request>, i: nat, responses: seq<Response>,
            accepted: seq<bool>)
      requires i <= |batch| && MetaAt(v, path).Some?
      reads this`meta, this`writeTail, pend
    {
      && |responses| == |accepted| == i
      && AppendAll(v, path, Stamp(batch[..i], pend.now)) == Outcomes(Landed(pend, v), responses, accepted)
      && pend.Gathered().records == AcceptedRecords(Stamp(batch[..i], pend.now), accepted)
    }

    method PlanNext(pend: PendingBurst, batch: seq<Request>, i: nat, responses: seq<Response>, accepted: seq<bool>,
            store: Keyspace, ghost v: Keyspace)
      returns (r: Response, ok: bool)
      requires i < |batch| && Reflects(Snapshot(), store, v) && Overlays(pend)
      requires MidBurst(pend, v, batch, i, responses, accepted)
      modifies this`producers, this`producerLoaded, this`writerSeq, this`writerSeqLoaded, pend
      ensures Reflects(Snapshot(), store, v) && Overlays(pend)
      ensures MidBurst(pend, v, batch, i + 1, responses + [r], accepted + [ok])
      ensures ok ==> !old(pend.closed)
      ensures pend.closed == (old(pend.closed) || (ok && batch[i].close))
      ensures old(producerLoaded) <= producerLoaded && (old(writerSeqLoaded) ==> writerSeqLoaded)
    {
      hide Landed, Reflects, Overlays, AppendOne, PendingBurst.Gathered, Slide;
      r, ok := PlanAppend(pend, batch[i], store, v);
      ghost var events := Stamp(batch[..i + 1], pend.now);
      assert events[..i] == Stamp(batch[..i], pend.now);
      assert (accepted + [ok])[..i] == accepted;
    }

    method NewBurst(batch: seq<Request>, now: nat, ghost v: Keyspace) returns (pend: PendingBurst)
      requires MetaAt(v, path).Some?
      ensures fresh(pend) && pend.now == now && Overlays(pend) && pend.closed == meta.closed
      ensures MidBurst(pend, v, batch, 0, [], [])
    {
      hide Slide, Touches, Writes;
      pend := new PendingBurst(writeTail, meta.closed, meta.deadline, now);
      assert pend.Gathered() == NoEffects(meta);
      SameContents(Landed(pend, v), v);
    }

    /** processBurst: validates each append in order against the shared pending view. */
    method ProcessBurst(batch: seq<Request>, now: nat, store: Keyspace, ghost v: Keyspace)
      returns (pend: PendingBurst, burst: CommitBurst)
      requires Reflects(Snapshot(), store, v)
      modifies this`producers, this`producerLoaded, this`writerSeq, this`writerSeqLoaded
      ensures fresh(pend) && Overlays(pend) && Reflects(Snapshot(), store, v)
      ensures pend.now == now && burst.batch == batch && burst.effects == pend.Gathered()
      ensures burst.ops == BatchOf(path, meta, writeTail, burst.effects, now)
      ensures AppendAll(v, path, Stamp(batch, now)) == Outcomes(Apply(v, burst.ops), burst.responses, burst.accepted)
      ensures burst.effects.records == AcceptedRecords(Stamp(batch, now), burst.accepted)
      ensures old(producerLoaded) <= producerLoaded && (old(writerSeqLoaded) ==> writerSeqLoaded)
    {
      hide Slide, Reflects, Landed, MidBurst, Apply, BatchOf, AppendAll, AcceptedRecords;
      ReflectsMeta(Snapshot(), store, v);
      pend := NewBurst(batch, now, v);
      var responses, accepted := [], [];
      var metaChanged := false;
      for i := 0 to |batch|
        invariant Reflects(Snapshot(), store, v) && Overlays(pend)
        invariant MidBurst(pend, v, batch, i, responses, accepted)
        invariant metaChanged <==> pend.closed != meta.closed
        invariant old(producerLoaded) <= producerLoaded && (old(writerSeqLoaded) ==> writerSeqLoaded)
        modifies this`producers, this`producerLoaded, this`writerSeq, this`writerSeqLoaded, pend
      {
        var r, ok := PlanNext(pend, batch, i, responses, accepted, store, v);
        responses, accepted := responses + [r], accepted + [ok];
        if ok && batch[i].close {
          metaChanged := true;
        }
      }
      burst := Finish(pend, batch, metaChanged, responses, accepted, v);
    }

    /** A burst that changed nothing needs no batch. */
    method Finish(pend: PendingBurst, batch: seq<Request>, metaChanged: bool, responses: seq<Response>,
            accepted: seq<bool>, ghost v: Keyspace)
      returns (burst: CommitBurst)
      requires Overlays(pend) && MetaAt(v, path).Some?
      requires MidBurst(pend, v, batch, |batch|, responses, accepted)
      requires metaChanged <==> pend.closed != meta.closed
      ensures burst.batch == batch && burst.effects == pend.Gathered()
      ensures burst.ops == BatchOf(path, meta, writeTail, burst.effects, pend.now)
      ensures AppendAll(v, path, Stamp(batch, pend.now)) == Outcomes(Apply(v, burst.ops), burst.responses,
                burst.accepted)
      ensures burst.effects.records == AcceptedRecords(Stamp(batch, pend.now), burst.accepted)
    {
      hide Slide, Touches, Writes, Apply, AppendOne;
      assert batch[..|batch|] == batch;
      var ops: Batch := map[];
      if !(pend.recordOps == [] && !metaChanged && pend.writerSeq == None && pend.producers == map[]
          && pend.deadline == meta.deadline) {
        ops := AssembleOps(pend, metaChanged);
      }
      burst := CommitBurst(batch, ops, Effects(Payloads(pend.recordOps), pend.producers, pend.writerSeq, pend.closed,
            pend.deadline), responses, accepted);
    }

    /** applyWriter: the next burst is validated against what this one planned. */
    method ApplyWriter(pend: PendingBurst, ghost store: Keyspace, ghost v: Keyspace)
      requires Reflects(Snapshot(), store, v) && Overlays(pend)
      modifies this`writeTail, this`meta, this`producers, this`writerSeq, this`writerSeqLoaded
      ensures Reflects(Snapshot(), store, old(Landed(pend, v)))
      ensures meta == old(meta).(closed := pend.closed, deadline := pend.deadline) && writeTail == pend.tail
      ensures old(writerSeqLoaded) || pend.writerSeq.Some? ==> writerSeqLoaded
    {
      hide Reflects, BatchOf, Apply, Slide;
      ghost var w0 := Snapshot();
      if pend.closed != meta.closed || pend.deadline != meta.deadline {
        meta := meta.(closed := pend.closed, deadline := pend.deadline);
      }
      writeTail := pend.tail;
      producers := producers + pend.producers;
      if pend.writerSeq.Some? {
        writerSeq, writerSeqLoaded := pend.writerSeq.value, true;
      }
      ReflectsAfter(w0, store, v, pend.Gathered(), pend.now, Snapshot());
    }

    /**
     The streamer's side of a notifier-mode commit: plan the burst, publish the writer
     view, and hand over the burst. `pending` rises before the committer sees the job.
     */
    method Submit(batch: seq<Request>, now: nat, store: Keyspace, ghost v: Keyspace) returns (burst: CommitBurst)
      requires Reflects(Snapshot(), store, v)
      modifies this
      ensures Planned(old(Snapshot()), store, v, batch, now, Snapshot(), burst)
      ensures pending == old(pending) + if burst.ops == map[] then 0 else 1
      ensures tail == old(tail) && closed == old(closed)
    {
      hide BatchOf, Apply, Slide, Touches, Reflects, AppendAll, AcceptedRecords;
      ReflectsMeta(Snapshot(), store, v);
      ghost var w0 := Snapshot();
      var pend;
      pend, burst := ProcessBurst(batch, now, store, v);
      if burst.ops == map[] {
        SameContents(Apply(v, burst.ops), v);
        return;
      }
      ApplyWriter(pend, store, v);
      pending := pending + 1;
    }

    /** applyReader: readers never see closure before the tail it closes at. */
    method ApplyReader(target: nat, targetClosed: bool)
      modifies this`tail, this`closed
      ensures tail == target && closed == (old(closed) || targetClosed)
    {
      tail := target;
      if targetClosed {
        closed := true;
      }
    }

    /**
     A sync-mode burst from start to finish. When the write succeeds, the stored map and
     the answers are those of processing the requests one at a time; when it fails,
     nothing has changed and every request it would have acknowledged is answered 500.
     */
    method AppendSync(db: Engine, batch: seq<Request>, now: nat, fails: bool) returns (responses: seq<Response>)
      requires Reflects(Snapshot(), db.data, db.data) && tail == writeTail && closed == meta.closed
      modifies this, db
      ensures Reflects(Snapshot(), db.data, db.data) && tail == writeTail && closed == meta.closed
              && pending == old(pending)
      ensures var o := AppendAll(old(db.data), path, Stamp(batch, now));
              if !fails then db.data == o.store && responses == o.responses
              else && db.data == old(db.data)
                   && (responses == FailAccepted(o.responses, o.accepted)
                       || (o.store == old(db.data) && responses == o.responses))
    {
      hide BatchOf, Apply, Slide, AppendAll;
      ghost var v := db.data;
      var pend, burst := ProcessBurst(batch, now, db.data, v);
      if burst.ops == map[] {
        SameContents(Apply(v, burst.ops), v);
        return burst.responses;
      }
      var ok := db.Commit(burst.ops, fails);
      if !ok {
        return FailAccepted(burst.responses, burst.accepted);
      }
      ghost var w0, m0, tail0 := Snapshot(), meta, writeTail;
      var changed := pend.closed != meta.closed || pend.deadline != meta.deadline;
      ApplyWriter(pend, v, v);
      BatchTouches(path, m0, tail0, burst.effects, now, burst.ops);
      LandingKeepsView(Snapshot(), v, db.data, burst.ops);
      ApplyReader(pend.tail, changed && pend.closed);
      return burst.responses;
    }

    /** tryRetire: only an idle streamer with nothing in flight leaves the registry. */
    method TryRetire() returns (retired: bool)
      requires Settled() && pending >= 0
      modifies this`dead
      ensures retired <==> queued == 0 && readers == 0 && pending == 0
      ensures retired ==> dead && tail == writeTail && closed == meta.closed
      ensures !retired ==> dead == old(dead)
    {
      if queued > 0 || readers > 0 || pending > 0 {
        return false;
      }
      dead := true;
      return true;
    }

    /** refreshTTLOnRead: the deadline slides in the index and in the metadata, or not at all. */
    method RefreshTTLOnRead(db: Engine, now: nat, fails: bool)
      requires Reflects(Snapshot(), db.data, db.data)
      modifies this`meta, db
      ensures Reflects(Snapshot(), db.data, db.data)
      ensures db.data == if fails then old(db.data) else Touched(old(db.data), path, now)
    {
      hide Reflects, AddU64, Apply;
      ReflectsMeta(Snapshot(), db.data, db.data);
      var nowTTL := AddU64(now, meta.ttl);
      if meta.ttl == 0 || nowTTL < meta.deadline {
        SameContents(Apply(db.data, map[]), db.data);
        return;
      }
      var previous := meta.deadline;
      var gran := meta.ttl / 4;
      if gran < 1 {
        gran := 1;
      } else if gran > 600 {
        gran := 600;
      }
      meta := meta.(deadline := AddU64(nowTTL, gran));
      var ops: Batch := map[Expiry(meta.deadline, meta.id) := Some(U64Val(meta.ttl))];
      if previous > 0 && previous != meta.deadline {
        ops := ops[Expiry(previous, meta.id) := None];
      }
      ops := ops[Meta(path) := Some(MetaVal(meta))];
      ghost var w0, v := old(Snapshot()), db.data;
      assert ops == TouchBatch(path, w0.meta, now) && Meta(path) in ops;
      var ok := db.Commit(ops, fails);
      if !ok {
        meta := meta.(deadline := previous);
        assert Snapshot() == w0;
      } else {
        TouchKeepsView(w0, v, now, Snapshot());
      }
    }
  }
}
