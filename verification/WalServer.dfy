/**
 The store object over its shards, index and watermark: its methods take exactly
 the steps whose runs are shown crash-safe.
 */
module WalServer {
  import opened Bytes
  import opened Watermark
  import opened WalCodec
  import opened WalStore
  import opened WalCrash

  class PwalStore {
    const shards: seq<WalShard>
    const wm: ContigWatermark
    var nextShard: nat
    var tree: Index
    var failed: bool
    ghost var history: seq<seq<Op>>

    ghost predicate Valid()
      reads this, shards, wm
    {
      && |shards| >= 1 && nextShard == |history| && wm.Valid()
      && (forall i, j :: 0 <= i < j < |shards| ==> shards[i] != shards[j])
      && (forall i :: 0 <= i < |shards| ==> shards[i].Valid() && shards[i].idx == i && shards[i].numShards == |shards|)
    }

    ghost function Views(): (vs: seq<Shard>)
      reads shards
      ensures |vs| == |shards|
      ensures forall i :: 0 <= i < |shards| ==> vs[i] == shards[i].View()
    {
      seq(|shards|, i requires 0 <= i < |shards| reads shards => shards[i].View())
    }

    ghost function View(): Wal
      reads this, shards, wm
    {
      Wal(Views(), tree, wm.marked, wm.value, failed, history)
    }

    constructor (shards: seq<WalShard>, wm: ContigWatermark)
      requires |shards| >= 1 && wm.Valid() && wm.marked == {} && wm.value == 0
      requires forall i, j :: 0 <= i < j < |shards| ==> shards[i] != shards[j]
      requires forall i :: 0 <= i < |shards| ==> shards[i].Valid() && shards[i].numShards == |shards|
                                                 && shards[i].View() == Shard(i, [], [], [], Idle, 0)
      ensures Valid() && this.shards == shards && this.wm == wm
      ensures |shards| < U64_LIMIT ==> Init(|shards|, View())
    {
      this.shards, this.wm := shards, wm;
      nextShard, tree, failed, history := 0, map[], false, [];
      new;
      assert forall i :: 0 <= i < |shards| ==> shards[i].idx == shards[i].View().idx;
    }

    /** The record's lengths must fit their fields. */
    method CommitAsync(sum: Checksum, ops: seq<Op>) returns (seqno: Option<nat>)
      requires Valid()
      requires Fits(SeqOf(shards[Turn(nextShard, |shards|)].localSeq, Turn(nextShard, |shards|), |shards|), ops)
      modifies this, shards
      ensures Valid()
      ensures old(failed) ==> seqno == None && View() == old(View())
      ensures !old(failed) ==> Commits(sum, |shards|, old(View()), View(), ops)
      ensures !old(failed) ==>
              seqno == Some(old(SeqOf(shards[Turn(nextShard, |shards|)].localSeq, Turn(nextShard, |shards|), |shards|)))
    {
      hide Entries, Fits, Turn, SeqOf, Staged, IndexedAt, Locations;
      if failed {
        return None;
      }
      var i := Turn(nextShard, |shards|);
      nextShard := nextShard + 1;
      history := history + [ops];
      ghost var es := Entries(ops, |shards[i].file|);
      EntriesDescribe(ops, |shards[i].file|);
      var q, locs := StageOn(sum, i, ops);
      tree := IndexCommit(tree, i, ops, locs, es);
      return Some(q);
    }

    method StageOn(sum: Checksum, i: nat, ops: seq<Op>) returns (seqno: nat, locs: seq<(ByteString, int, int)>)
      requires Valid() && i < |shards|
      modifies shards
      ensures Valid() && Views() == old(Views()[i := Staged(sum, |shards|, Views()[i], ops)])
      ensures seqno == SeqOf(old(shards[i].localSeq), i, |shards|)
      ensures Fits(seqno, ops) ==> locs == Locations(Entries(ops, |old(shards[i].file)|))
    {
      hide Entries, Fits, SeqOf, Staged, Locations;
      ghost var before := Views();
      seqno, locs := shards[i].Stage(sum, ops);
      assert Views() == before[i := Staged(sum, |shards|, before[i], ops)];
    }

    method CallSync(i: nat)
      requires Valid() && i < |shards| && shards[i].flight.Due?
      modifies shards
      ensures Valid() && Begins(|shards|, old(View()), View(), i)
    {
      ghost var before := Views();
      shards[i].CallSync();
      assert Views() == before[i := BeginSync(before[i])];
    }

    /** A failed fsync poisons the store; a successful one is folded into the watermark. */
    method SyncReturned(i: nat, ok: bool)
      requires Valid() && i < |shards| && shards[i].flight.Syncing?
      modifies this`failed, shards, wm
      ensures Valid() && Ends(|shards|, old(View()), View(), i, ok)
    {
      ghost var before := Views();
      var done := shards[i].SyncReturned(ok);
      assert Views() == before[i := EndSync(before[i], ok)];
      if ok {
        wm.Mark(done);
      } else {
        failed := true;
      }
    }
  }
}
