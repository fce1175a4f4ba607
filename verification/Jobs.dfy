/**
 The sequence of bursts ever submitted, and the states it passes through: what the
 store holds after the first k of them and what each stream's log then is.
 */
module Jobs {
  import opened Bytes
  import opened Store
  import opened Appends
  import opened Streamer

  datatype Job = Job(path: ByteString, meta: StreamMeta, base: nat, burst: CommitBurst, now: nat)

  /** The tail the stream has once the job has landed. */
  function Target(j: Job): nat {
    j.base + |j.burst.effects.records|
  }

  /** The streams that exist when the server starts, with their ids and logs. */
  datatype World = World(store: Keyspace, ids: map<ByteString, nat>, logs: map<ByteString, seq<ByteString>>)

  ghost predicate Founded(w: World) {
    && w.ids.Keys == w.logs.Keys
    && (forall p, q :: p in w.ids && q in w.ids && p != q ==> w.ids[p] != w.ids[q])
    && (forall p :: p in w.ids ==> MetaAt(w.store, p).Some? && MetaAt(w.store, p).value.id == w.ids[p])
    && (forall p :: p in w.ids ==> HoldsLog(w.store, w.ids[p], w.logs[p]))
  }

  ghost predicate HoldsLog(s: Keyspace, id: nat, log: seq<ByteString>) {
    && TailAt(s, id) == |log|
    && forall n :: 0 <= n < |log| ==> RecordAt(s, id, n) == Some(log[n])
  }

  ghost function StoreAt(w: World, jobs: seq<Job>, k: nat): Keyspace
    requires k <= |jobs|
  {
    if k == 0 then w.store else Apply(StoreAt(w, jobs, k - 1), jobs[k - 1].burst.ops)
  }

  /** The abstract log: the accepted records of a stream's bursts, appended in submission order. */
  function LogAt(w: World, jobs: seq<Job>, path: ByteString, k: nat): seq<ByteString>
    requires k <= |jobs| && path in w.logs
  {
    if k == 0 then w.logs[path]
    else LogAt(w, jobs, path, k - 1) + if jobs[k - 1].path == path then jobs[k - 1].burst.effects.records else []
  }

  /** The records accepted from the first i requests of a job. */
  function Taken(j: Job, i: nat): seq<ByteString>
    requires i <= |j.burst.batch| == |j.burst.accepted|
  {
    AcceptedRecords(Stamp(j.burst.batch, j.now)[..i], j.burst.accepted[..i])
  }

  /** Each accepted request is answered with the offset right behind its own records. */
  ghost predicate WellAnswered(j: Job) {
    && |j.burst.batch| == |j.burst.responses| == |j.burst.accepted|
    && j.burst.effects.records == Taken(j, |j.burst.batch|)
    && forall i :: 0 <= i < |j.burst.batch| && j.burst.accepted[i] ==>
                   j.burst.responses[i].next == Offset(j.base + |Taken(j, i + 1)|, 0)
  }

  /**
   Job k belongs to an existing stream, starts where that stream's log then ends, its
   batch is its effects, and its answers are right.
   */
  ghost predicate Sound(w: World, jobs: seq<Job>, k: nat)
    requires k < |jobs| && w.ids.Keys == w.logs.Keys
  {
    var j := jobs[k];
    && j.path in w.ids && j.meta.id == w.ids[j.path]
    && j.base == |LogAt(w, jobs, j.path, k)|
    && j.burst.ops == BatchOf(j.path, j.meta, j.base, j.burst.effects, j.now) && j.burst.ops != map[]
    && WellAnswered(j)
  }

  ghost predicate AllSound(w: World, jobs: seq<Job>) {
    Founded(w) && forall k :: 0 <= k < |jobs| ==> Sound(w, jobs, k)
  }

  /** The records of an accepted request lie in its job's right before the offset it is answered with. */
  lemma {:induction false} OwnRecords(j: Job, r: nat)
    requires WellAnswered(j) && r < |j.burst.batch| && j.burst.accepted[r]
    ensures var next, mine := j.burst.responses[r].next, j.burst.batch[r].records;
            && next.byte == 0 && j.base + |mine| <= next.seqno <= Target(j)
            && j.burst.effects.records[next.seqno - j.base - |mine|..next.seqno - j.base] == mine
  {
    var events, accepted := Stamp(j.burst.batch, j.now), j.burst.accepted;
    RecordsInOrder(events, accepted, r);
    assert events[..|events|] == events && accepted[..|events|] == accepted;
    var front, mine, all := Taken(j, r), j.burst.batch[r].records, j.burst.effects.records;
    assert Taken(j, r + 1) == front + mine && front + mine <= all;
    hide AcceptedRecords, Taken;
    assert j.burst.responses[r].next == Offset(j.base + |Taken(j, r + 1)|, 0);
    InTheMiddle(front, mine, all);
  }

  lemma InTheMiddle<T>(x: seq<T>, y: seq<T>, z: seq<T>)
    requires x + y <= z
    ensures z[|x|..|x| + |y|] == y
  {
    forall k | 0 <= k < |y| ensures z[|x|..|x| + |y|][k] == y[k] {
      assert z[|x|..|x| + |y|][k] == z[|x| + k] == (x + y)[|x| + k];
    }
  }

  // ----- growth -----

  lemma {:induction false} StorePrefix(w: World, jobs: seq<Job>, more: seq<Job>, k: nat)
    requires k <= |jobs| && jobs <= more
    ensures StoreAt(w, more, k) == StoreAt(w, jobs, k)
  {
    if k > 0 {
      StorePrefix(w, jobs, more, k - 1);
    }
  }

  lemma {:induction false} LogPrefix(w: World, jobs: seq<Job>, more: seq<Job>, path: ByteString, k: nat)
    requires k <= |jobs| && jobs <= more && path in w.logs
    ensures LogAt(w, more, path, k) == LogAt(w, jobs, path, k)
  {
    if k > 0 {
      LogPrefix(w, jobs, more, path, k - 1);
    }
  }

  lemma {:induction false} LogGrows(w: World, jobs: seq<Job>, path: ByteString, k: nat, l: nat)
    requires k <= l <= |jobs| && path in w.logs
    ensures LogAt(w, jobs, path, k) <= LogAt(w, jobs, path, l)
  {
    if k < l {
      LogGrows(w, jobs, path, k, l - 1);
    }
  }

  /** Appending a sound job keeps every job sound. */
  lemma {:induction false} ExtendSound(w: World, jobs: seq<Job>, j: Job)
    requires AllSound(w, jobs)
    requires Sound(w, jobs + [j], |jobs|)
    ensures AllSound(w, jobs + [j])
  {
    var more := jobs + [j];
    forall k | 0 <= k < |more| ensures Sound(w, more, k) {
      if k < |jobs| {
        assert Sound(w, jobs, k);
        LogPrefix(w, jobs, more, jobs[k].path, k);
      }
    }
  }

  // ----- what the store holds -----

  lemma JobWrites(w: World, jobs: seq<Job>, k: nat, key: Key)
    requires AllSound(w, jobs) && k < |jobs|
    ensures var j := jobs[k];
            Get(StoreAt(w, jobs, k + 1), key) == After(StoreAt(w, jobs, k), j.path, j.meta, j.base,
                j.burst.effects, j.now, key)
  {
    var j := jobs[k];
    assert Sound(w, jobs, k);
    BatchOfAt(StoreAt(w, jobs, k), j.path, j.meta, j.base, j.burst.effects, j.now, key);
  }

  /** Jobs of other streams leave a stream's keys alone. */
  lemma {:induction false} OthersKeepAway(w: World, jobs: seq<Job>, path: ByteString, k: nat, l: nat, key: Key)
    requires AllSound(w, jobs) && k <= l <= |jobs| && path in w.ids && OwnKey(path, w.ids[path], key)
    requires forall i :: k <= i < l ==> jobs[i].path != path
    ensures Get(StoreAt(w, jobs, l), key) == Get(StoreAt(w, jobs, k), key)
  {
    hide *;
    if k < l {
      OthersKeepAway(w, jobs, path, k, l - 1, key);
      OtherKeepsAway(w, jobs, path, l - 1, key);
    }
  }

  lemma OtherKeepsAway(w: World, jobs: seq<Job>, path: ByteString, k: nat, key: Key)
    requires AllSound(w, jobs) && k < |jobs| && path in w.ids && OwnKey(path, w.ids[path], key) && jobs[k].path != path
    ensures Get(StoreAt(w, jobs, k + 1), key) == Get(StoreAt(w, jobs, k), key)
  {
    hide StoreAt, LogAt, BatchOf, Apply, HoldsLog, MetaAt;
    assert Sound(w, jobs, k);
    JobWrites(w, jobs, k, key);
    hide AllSound;
  }

  /** One batch extends the log of its own stream and no other. */
  lemma BatchExtendsLog(s: Keyspace, j: Job, id: nat, log: seq<ByteString>)
    requires HoldsLog(s, id, log)
    requires j.meta.id == id ==> j.base == |log|
    requires j.burst.effects != NoEffects(j.meta)
    ensures HoldsLog(Apply(s, BatchOf(j.path, j.meta, j.base, j.burst.effects, j.now)), id,
                     log + if j.meta.id == id then j.burst.effects.records else [])
  {
    hide BatchOf, Apply;
    var e := j.burst.effects;
    var t := Apply(s, BatchOf(j.path, j.meta, j.base, e, j.now));
    var longer := log + if j.meta.id == id then e.records else [];
    BatchOfAt(s, j.path, j.meta, j.base, e, j.now, Tail(id));
    forall n | 0 <= n < |longer| ensures RecordAt(t, id, n) == Some(longer[n]) {
      BatchOfAt(s, j.path, j.meta, j.base, e, j.now, Record(id, n));
      assert n < |log| ==> RecordAt(s, id, n) == Some(log[n]);
    }
  }

  /** After k jobs the store holds exactly the abstract log of every stream. */
  lemma {:induction false} StoreHoldsLog(w: World, jobs: seq<Job>, path: ByteString, k: nat)
    requires AllSound(w, jobs) && k <= |jobs| && path in w.ids
    ensures HoldsLog(StoreAt(w, jobs, k), w.ids[path], LogAt(w, jobs, path, k))
  {
    hide BatchOf, Apply, MetaAt;
    if k > 0 {
      StoreHoldsLog(w, jobs, path, k - 1);
      assert Sound(w, jobs, k - 1);
      hide HoldsLog;
      assert jobs[k - 1].burst.effects != NoEffects(jobs[k - 1].meta);
      BatchExtendsLog(StoreAt(w, jobs, k - 1), jobs[k - 1], w.ids[path], LogAt(w, jobs, path, k - 1));
    }
  }

  // ----- folding several jobs into one commit -----

  predicate Consecutive(ids: seq<nat>, first: nat) {
    forall i :: 0 <= i < |ids| ==> ids[i] == first + i
  }

  function FoldOps(jobs: seq<Job>, ids: seq<nat>): Batch
    requires forall i :: 0 <= i < |ids| ==> ids[i] < |jobs|
  {
    if ids == [] then map[] else FoldOps(jobs, ids[..|ids| - 1]) + jobs[ids[|ids| - 1]].burst.ops
  }

  /** One commit of the folded operations does what the jobs do one after the other. */
  lemma {:induction false} FoldIsSequential(w: World, jobs: seq<Job>, ids: seq<nat>, first: nat)
    requires Consecutive(ids, first) && first + |ids| <= |jobs|
    ensures Apply(StoreAt(w, jobs, first), FoldOps(jobs, ids)) == StoreAt(w, jobs, first + |ids|)
    decreases |ids|
  {
    var s := StoreAt(w, jobs, first);
    if ids == [] {
      SameContents(Apply(s, map[]), s);
    } else {
      var front := ids[..|ids| - 1];
      FoldIsSequential(w, jobs, front, first);
      ApplyTwice(s, FoldOps(jobs, front), jobs[ids[|ids| - 1]].burst.ops);
    }
  }

  // ----- the streamers' views -----

  /** A view depends on the keys of its own stream only. */
  lemma ReflectsAgree(x: Writer, s: Keyspace, s': Keyspace, v: Keyspace, v': Keyspace)
    requires Reflects(x, s, v)
    requires forall key :: OwnKey(x.path, x.meta.id, key) ==> Get(s, key) == Get(s', key) && Get(v, key) == Get(v', key)
    ensures Reflects(x, s', v')
  {
    var id := x.meta.id;
    assert Get(v, Meta(x.path)) == Get(v', Meta(x.path)) && Get(v, Tail(id)) == Get(v', Tail(id));
    assert Get(v, WriterSeq(id)) == Get(v', WriterSeq(id)) && Get(s, WriterSeq(id)) == Get(s', WriterSeq(id));
    forall pid ensures CachedProducer(x, s', pid) == ProducerAt(v', id, pid) {
      var key := Producer(id, pid);
      assert Get(s, key) == Get(s', key) && Get(v, key) == Get(v', key);
      assert CachedProducer(x, s, pid) == ProducerAt(v, id, pid);
    }
  }

  /** Sequence numbers and logs of streams no job touches stand still. */
  lemma {:induction false} LogStandsStill(w: World, jobs: seq<Job>, path: ByteString, k: nat, l: nat)
    requires k <= l <= |jobs| && path in w.logs
    requires forall i :: k <= i < l ==> jobs[i].path != path
    ensures LogAt(w, jobs, path, l) == LogAt(w, jobs, path, k)
  {
    if k < l {
      LogStandsStill(w, jobs, path, k, l - 1);
    }
  }

  /** A folded commit writes producer and Stream-Seq state only for jobs that carry it. */
  lemma {:induction false} FoldTouches(w: World, jobs: seq<Job>, ids: seq<nat>, path: ByteString, x: Writer)
    requires AllSound(w, jobs) && path in w.ids
    requires forall i :: 0 <= i < |ids| ==> ids[i] < |jobs|
    requires forall i :: 0 <= i < |ids| && jobs[ids[i]].path == path ==>
               && jobs[ids[i]].burst.effects.producers.Keys <= x.loaded
               && (jobs[ids[i]].burst.effects.writerSeq.Some? ==> x.writerSeqLoaded)
    ensures forall pid :: Producer(w.ids[path], pid) in FoldOps(jobs, ids) ==> pid in x.loaded
    ensures WriterSeq(w.ids[path]) in FoldOps(jobs, ids) ==> x.writerSeqLoaded
  {
    if ids != [] {
      hide BatchOf;
      var front, k := ids[..|ids| - 1], ids[|ids| - 1];
      FoldTouches(w, jobs, front, path, x);
      var j := jobs[k];
      assert Sound(w, jobs, k);
      BatchTouches(j.path, j.meta, j.base, j.burst.effects, j.now, j.burst.ops);
      BatchAvoids(j, w.ids[path]);
    }
  }

  lemma BatchAvoids(j: Job, id: nat)
    ensures j.meta.id != id ==> var b := BatchOf(j.path, j.meta, j.base, j.burst.effects, j.now);
                                WriterSeq(id) !in b && forall pid :: Producer(id, pid) !in b
  {
  }

  /** A stream keeps its metadata entry and its id through every job. */
  lemma {:induction false} StreamKeepsId(w: World, jobs: seq<Job>, path: ByteString, k: nat)
    requires AllSound(w, jobs) && k <= |jobs| && path in w.ids
    ensures MetaAt(StoreAt(w, jobs, k), path).Some? && MetaAt(StoreAt(w, jobs, k), path).value.id == w.ids[path]
  {
    hide BatchOf, Apply, LogAt, HoldsLog, Touches;
    if k > 0 {
      hide StoreAt;
      StreamKeepsId(w, jobs, path, k - 1);
      if jobs[k - 1].path == path {
        JobKeepsId(w, jobs, path, k - 1);
      } else {
        OtherKeepsAway(w, jobs, path, k - 1, Meta(path));
      }
    }
  }

  lemma JobKeepsId(w: World, jobs: seq<Job>, path: ByteString, k: nat)
    requires AllSound(w, jobs) && k < |jobs| && path in w.ids && jobs[k].path == path
    requires MetaAt(StoreAt(w, jobs, k), path).Some? && MetaAt(StoreAt(w, jobs, k), path).value.id == w.ids[path]
    ensures MetaAt(StoreAt(w, jobs, k + 1), path).Some? && MetaAt(StoreAt(w, jobs, k + 1), path).value.id == w.ids[path]
  {
    hide BatchOf, Apply, LogAt, HoldsLog, StoreAt;
    JobWrites(w, jobs, k, Meta(path));
    assert Sound(w, jobs, k);
  }
}
