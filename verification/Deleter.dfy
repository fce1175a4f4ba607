/**
 Background deletion of a dead stream's records and producer state, in bounded
 chunks with a persisted cursor. Whatever commit a crash stops it after, resuming
 finishes the job, and no other stream's key is ever touched.
 */
module Deleter {
  import opened Bytes
  import opened Store

  const DELETE_CHUNK: nat := 1000

  /** The keys the deletion of a stream may touch. */
  predicate Belongs(id: nat, k: Key) {
    (k.Record? || k.Producer? || k.DeletePending?) && k.id == id
  }

  ghost predicate OthersUntouched(s: Keyspace, t: Keyspace, id: nat) {
    forall k :: !Belongs(id, k) ==> Get(t, k) == Get(s, k)
  }

  function CursorAt(s: Keyspace, id: nat): nat {
    if DeletePending(id) in s && s[DeletePending(id)].U64Val? then s[DeletePending(id)].n else 0
  }

  /** No record is left below the persisted cursor. */
  ghost predicate Resumable(s: Keyspace, id: nat) {
    AllFit(s) && id < U64_LIMIT && CursorAt(s, id) < U64_LIMIT && forall k ::
      k in s && k.Record? && k.id == id ==> k.seqno >= CursorAt(s, id)
  }

  /** Every interrupted deletion can be resumed. */
  ghost predicate AllResumable(s: Keyspace) {
    AllFit(s) && forall id :: DeletePending(id) in s ==> Resumable(s, id)
  }

  ghost predicate Cleared(s: Keyspace, id: nat) {
    forall k :: k in s ==> !Belongs(id, k)
  }

  function Remaining(s: Keyspace, id: nat): set<Key> {
    set k | k in s && (k.Record? || k.Producer?) && k.id == id
  }

  /** One chunk's deletes, and the cursor with them in the same batch. */
  function Deletes(keys: seq<Key>): (b: Batch)
    ensures forall k :: k in b <==> k in keys
    ensures forall k :: k in b ==> b[k] == None
  {
    map k | k in keys :: None
  }

  /** The stream's records from the cursor to `last`, all of them. */
  ghost predicate IsChunk(s: Keyspace, id: nat, keys: seq<Key>, last: nat) {
    forall k :: k in keys <==> k in s && k.Record? && k.id == id && CursorAt(s, id) <= k.seqno <= last
  }

  predicate AreProducers(id: nat, keys: seq<Key>) {
    forall k :: k in keys ==> k.Producer? && k.id == id
  }

  /** What one commit of the deletion may be: a chunk with its cursor, producers, or at the end the marker. */
  ghost predicate DeleterCommit(s: Keyspace, id: nat, b: Batch) {
    || (exists keys, last :: IsChunk(s, id, keys, last)
                             && b == Deletes(keys) + map[DeletePending(id) := Some(U64Val(AddU64(last, 1)))])
    || (exists keys :: AreProducers(id, keys) && b == Deletes(keys))
    || (b == map[DeletePending(id) := None] && forall k :: k in s && (k.Record? || k.Producer?) ==> k.id != id)
  }

  ghost predicate Advances(s: Keyspace, t: Keyspace, id: nat) {
    exists b :: DeleterCommit(s, id, b) && t == Apply(s, b)
  }

  /** A prefix of the records in sequence order is such a chunk. */
  lemma PrefixIsChunk(s: Keyspace, id: nat, ks: seq<Key>, keys: seq<Key>, last: nat)
    requires forall k :: k in ks <==> k in s && k.Record? && k.id == id && k.seqno >= CursorAt(s, id)
    requires forall i, j :: 0 <= i < j < |ks| ==> ks[i].seqno < ks[j].seqno
    requires keys <= ks && keys != [] && ks[|keys| - 1] in ks && last == ks[|keys| - 1].seqno
    ensures IsChunk(s, id, keys, last)
  {
    var n := |keys| - 1;
    assert forall x :: 0 <= x < |keys| ==> ks[x] == keys[x] && ks[x] in keys;
    forall k ensures k in keys <==> k in s && k.Record? && k.id == id && CursorAt(s, id) <= k.seqno <= last {
      if k in keys {
        var i :| 0 <= i < |keys| && keys[i] == k;
        assert ks[i] == k && k in ks && (i < n ==> ks[i].seqno < ks[n].seqno);
      } else if k in ks {
        var i :| 0 <= i < |ks| && ks[i] == k;
        assert i != n && (n < i ==> ks[n].seqno < ks[i].seqno);
      }
    }
  }

  lemma DeletesApplied(s: Keyspace, keys: seq<Key>, cursor: Option<(nat, nat)>)
    requires AllFit(s) && (cursor.Some? ==> cursor.value.0 < U64_LIMIT)
    requires forall k :: k in keys ==> !k.DeletePending?
    ensures var t := Apply(s, Deletes(keys) + if cursor.Some? then
              map[DeletePending(cursor.value.0) := Some(U64Val(cursor.value.1))] else map[]);
            && (forall k :: (cursor.Some? ==> k != DeletePending(cursor.value.0)) ==>
                            Get(t, k) == if k in keys then None else Get(s, k))
            && (cursor.Some? ==> CursorAt(t, cursor.value.0) == cursor.value.1)
            && AllFit(t)
  {
    var t := Apply(s, Deletes(keys) + if cursor.Some? then
        map[DeletePending(cursor.value.0) := Some(U64Val(cursor.value.1))] else map[]);
    if cursor.Some? {
      assert Get(t, DeletePending(cursor.value.0)) == Some(U64Val(cursor.value.1));
    }
    forall k | k in t ensures Fits(k) {
      assert Get(t, k).Some?;
    }
  }

  /** Deleting keys that are there leaves fewer. */
  lemma RemainingShrinks(s: Keyspace, t: Keyspace, id: nat, keys: seq<Key>)
    requires keys != [] && keys[0] in s && (keys[0].Record? || keys[0].Producer?) && keys[0].id == id
    requires forall k: Key :: !k.DeletePending? ==> Get(t, k) == if k in keys then None else Get(s, k)
    ensures |Remaining(t, id)| < |Remaining(s, id)|
  {
    var a, b := Remaining(s, id), Remaining(t, id);
    forall k | k in b ensures k in a && k != keys[0] {
      assert Get(t, k).Some?;
    }
    assert keys[0] in a;
    assert b <= a - {keys[0]};
    SmallerSet(b, a - {keys[0]});
  }

  lemma SmallerSet<T>(b: set<T>, a: set<T>)
    requires b <= a
    ensures |b| <= |a|
  {
    assert a == b + (a - b);
  }

  /** A scan of the stream's records from the cursor on, and of its producers, find exactly those keys. */
  lemma ScanFindsRecords(s: Keyspace, id: nat, cursor: nat, end: Option<ByteString>, ks: seq<Key>)
    requires AllFit(s) && id < U64_LIMIT && cursor < U64_LIMIT
    requires CoversPrefix(RecordPrefix(id), end) && IsScan(s, Encode(Record(id, cursor)), end, ks)
    ensures forall k :: k in ks <==> k in s && k.Record? && k.id == id && k.seqno >= cursor
    ensures forall i, j :: 0 <= i < j < |ks| ==> ks[i].seqno < ks[j].seqno
  {
    hide Encode, InRange, CoversPrefix, Less;
    forall k ensures k in ks <==> k in s && k.Record? && k.id == id && k.seqno >= cursor {
      if k in s {
        RecordInScan(id, cursor, end, k);
      }
    }
    forall i, j | 0 <= i < j < |ks| ensures ks[i].seqno < ks[j].seqno {
      assert ks[i] in ks && ks[j] in ks;
      ScanOrder(id, ks, i, j);
    }
  }

  lemma ScanFindsProducers(s: Keyspace, id: nat, end: Option<ByteString>, ks: seq<Key>)
    requires AllFit(s) && id < U64_LIMIT
    requires CoversPrefix(ProducerPrefix(id), end) && IsScan(s, ProducerPrefix(id), end, ks)
    ensures forall k :: k in ks <==> k in s && k.Producer? && k.id == id
  {
    hide Encode, InRange, Less;
    forall k ensures k in ks <==> k in s && k.Producer? && k.id == id {
      if k in s {
        HasProducerPrefix(id, k);
        assert InRange(ProducerPrefix(id), end, Encode(k)) <==> ProducerPrefix(id) <= Encode(k);
      }
    }
  }

  class BackgroundDeleter {
    var store: Keyspace
    ghost var trace: seq<Keyspace>

    /**
     The states a crash can leave: each comes from the one before by a commit of the
     deletion, touches nothing else and can be resumed from.
     */
    ghost predicate Safe(from: Keyspace, id: nat)
      reads this
    {
      && trace != [] && trace[|trace| - 1] == store
      && (forall i :: 0 <= i < |trace| ==> OthersUntouched(from, trace[i], id) && Resumable(trace[i], id))
      && (forall i :: 0 <= i < |trace| - 1 ==> Advances(trace[i], trace[i + 1], id))
    }

    constructor (store: Keyspace)
      ensures this.store == store && trace == [store]
    {
      this.store, trace := store, [store];
    }

    method Commit(b: Batch)
      modifies this
      ensures store == Apply(old(store), b) && trace == old(trace) + [store]
    {
      store := Apply(store, b);
      trace := trace + [store];
    }

    /** collectKeys: up to `limit` keys of the range, in order, and the sequence number of the last record seen. */
    method CollectKeys(start: ByteString, end: Option<ByteString>, limit: nat)
      returns (keys: seq<Key>, last: nat, ghost ks: seq<Key>)
      requires AllFit(store)
      ensures IsScan(store, start, end, ks) && keys <= ks && |keys| <= limit && (|keys| == limit || keys == ks)
      ensures keys != [] && keys[|keys| - 1].Record? ==> last == keys[|keys| - 1].seqno
    {
      var it := Scan(store, start, end);
      ks := it;
      keys, last := [], 0;
      while |keys| < limit
        invariant |keys| <= limit && keys <= it
        invariant keys != [] && keys[|keys| - 1].Record? ==> last == keys[|keys| - 1].seqno
        decreases limit - |keys|
      {
        if |keys| >= |it| {
          break;
        }
        var k := it[|keys|];
        assert keys + [k] == it[..|keys| + 1];
        keys := keys + [k];
        if k.Record? {
          last := k.seqno;
        }
      }
    }

    /** The next records to delete, from the cursor on: a prefix, in sequence order, of all there are. */
    method NextRecords(id: nat, cursor: nat) returns (keys: seq<Key>, last: nat, ghost ks: seq<Key>)
      requires AllFit(store) && id < U64_LIMIT && cursor < U64_LIMIT
      ensures forall k :: k in ks <==> k in store && k.Record? && k.id == id && k.seqno >= cursor
      ensures keys <= ks && |keys| <= DELETE_CHUNK && (keys == [] ==> ks == [])
              && (keys != [] ==> ks[|keys| - 1] in ks && last == ks[|keys| - 1].seqno)
      ensures forall i, j :: 0 <= i < j < |ks| ==> ks[i].seqno < ks[j].seqno
    {
      var end := PrefixEnd(RecordPrefix(id));
      keys, last, ks := CollectKeys(Encode(Record(id, cursor)), end, DELETE_CHUNK);
      ScanFindsRecords(store, id, cursor, end, ks);
      hide Encode, InRange, CoversPrefix, IsScan;
      if keys != [] {
        assert keys[|keys| - 1] == ks[|keys| - 1] && ks[|keys| - 1] in ks;
      }
    }

    method NextProducers(id: nat) returns (keys: seq<Key>)
      requires AllFit(store) && id < U64_LIMIT
      ensures |keys| <= DELETE_CHUNK && forall k :: k in keys ==> k in store && k.Producer? && k.id == id
      ensures keys == [] ==> forall k :: k in store && k.Producer? ==> k.id != id
    {
      var end := PrefixEnd(ProducerPrefix(id));
      ghost var ks;
      var last;
      keys, last, ks := CollectKeys(ProducerPrefix(id), end, DELETE_CHUNK);
      ScanFindsProducers(store, id, end, ks);
      hide Encode, InRange, CoversPrefix, IsScan;
      forall k | k in keys ensures k in ks {
        var i :| 0 <= i < |keys| && keys[i] == k;
        assert keys[i] == ks[i];
      }
    }

    /** A commit that touches only the stream's keys and stays resumable keeps the trace safe. */
    method CommitSafely(b: Batch, ghost from: Keyspace, id: nat)
      requires Safe(from, id) && OthersUntouched(store, Apply(store, b), id) && Resumable(Apply(store, b), id)
      requires DeleterCommit(store, id, b)
      modifies this
      ensures Safe(from, id) && store == Apply(old(store), b)
    {
      hide Resumable, Apply, DeleterCommit;
      assert OthersUntouched(from, trace[|trace| - 1], id);
      assert Advances(store, Apply(store, b), id);
      hide Advances;
      Commit(b);
      assert OthersUntouched(from, store, id);
      hide OthersUntouched;
    }

    ghost predicate Standing(from: Keyspace, id: nat)
      reads this
    {
      OthersUntouched(from, store, id) && Resumable(store, id)
    }

    lemma SafeNow(from: Keyspace, id: nat)
      requires Safe(from, id)
      ensures Standing(from, id)
    {
      assert trace[|trace| - 1] == store;
      hide OthersUntouched, Resumable;
    }

    /** backgroundDelete, from wherever the cursor stands. */
    method BackgroundDelete(id: nat)
      requires trace == [store] && Resumable(store, id)
      modifies this
      ensures Safe(old(store), id) && OthersUntouched(old(store), store, id)
      ensures Cleared(store, id)
    {
      ghost var from := store;
      DeleteRecords(id, from);
      DeleteProducers(id, from);
      SafeNow(from, id);
      LastCommit(store, id);
      assert DeleterCommit(store, id, map[DeletePending(id) := None]);
      CommitSafely(map[DeletePending(id) := None], from, id);
      SafeNow(from, id);
    }

    /** The streams whose deletion a crash interrupted. */
    method PendingIds() returns (ids: seq<nat>)
      requires AllFit(store)
      ensures forall id :: id in ids <==> DeletePending(id) in store
    {
      var end := PrefixEnd([8]);
      var ks := Scan(store, [8], end);
      forall k ensures k in ks <==> k in store && k.DeletePending? {
        if k in store {
          HasPendingPrefix(k);
          assert InRange([8], end, Encode(k)) <==> [8] <= Encode(k);
        }
      }
      hide IsScan, InRange, CoversPrefix, Encode;
      ids := [];
      var i := 0;
      while i < |ks|
        invariant i <= |ks| && |ids| == i
        invariant forall x :: 0 <= x < i ==> ks[x] == DeletePending(ids[x])
      {
        assert ks[i] in ks;
        ids := ids + [ks[i].id];
        i := i + 1;
      }
      forall id ensures id in ids <==> DeletePending(id) in store {
        if DeletePending(id) in store {
          assert DeletePending(id) in ks;
          var x :| 0 <= x < |ks| && ks[x] == DeletePending(id);
          assert ids[x] == id;
        }
        if id in ids {
          var x :| 0 <= x < |ids| && ids[x] == id;
          assert ks[x] in ks;
        }
      }
    }

    /**
     resumeDeletions: every interrupted deletion is finished and nothing else changes. A
     crash after any commit of the resumption leaves a state to resume from again.
     */
    method ResumeDeletions()
      requires trace == [store] && AllResumable(store)
      modifies this
      ensures forall id :: DeletePending(id) in old(store) ==> Cleared(store, id)
      ensures forall k :: (forall id :: DeletePending(id) in old(store) ==> !Belongs(id, k)) ==>
                          Get(store, k) == Get(old(store), k)
      ensures trace != [] && trace[0] == old(store) && trace[|trace| - 1] == store
      ensures forall x :: 0 <= x < |trace| ==> AllResumable(trace[x])
    {
      ghost var from, past := store, [store];
      var ids := PendingIds();
      hide Cleared, Belongs, Safe;
      var i := 0;
      while i < |ids|
        invariant i <= |ids| && AllResumable(store)
        invariant forall x :: 0 <= x < i ==> Cleared(store, ids[x])
        invariant forall x :: i <= x < |ids| ==> Resumable(store, ids[x]) || ids[x] in ids[..i]
        invariant forall k :: (forall id :: id in ids ==> !Belongs(id, k)) ==> Get(store, k) == Get(from, k)
        invariant past != [] && past[0] == from && past[|past| - 1] == store
        invariant forall x :: 0 <= x < |past| ==> AllResumable(past[x])
      {
        if ids[i] !in ids[..i] {
          ghost var before := store;
          trace := [store];
          BackgroundDelete(ids[i]);
          SafeIsResumable(before, ids[i]);
          past := past + trace;
          hide AllResumable;
          forall x | 0 <= x < i ensures Cleared(store, ids[x]) {
            ClearedAgrees(before, store, ids[x], ids[i]);
          }
          forall x | i < x < |ids| && ids[x] !in ids[..i + 1] ensures Resumable(store, ids[x]) {
            assert ids[i] in ids[..i + 1] && forall y :: y in ids[..i] ==> y in ids[..i + 1];
            ResumableAgrees(before, store, ids[x], ids[i]);
          }
          assert forall k :: (forall id :: id in ids ==> !Belongs(id, k)) ==> !Belongs(ids[i], k);
        } else {
          var y :| 0 <= y < i && ids[y] == ids[i];
        }
        assert forall y :: y in ids[..i] ==> y in ids[..i + 1];
        i := i + 1;
      }
      trace := past;
      forall id | DeletePending(id) in from ensures Cleared(store, id) {
        assert id in ids;
      }
    }

    /** While one deletion runs, all of them can be resumed. */
    lemma SafeIsResumable(from: Keyspace, id: nat)
      requires Safe(from, id) && AllResumable(from)
      ensures AllFit(store) && AllResumable(store) && trace != [] && trace[|trace| - 1] == store
      ensures forall x :: 0 <= x < |trace| ==> AllResumable(trace[x])
    {
      forall x | 0 <= x < |trace| ensures AllResumable(trace[x]) {
        StaysResumable(from, trace[x], id);
      }
      assert AllResumable(trace[|trace| - 1]);
    }

    method DeleteRecords(id: nat, ghost from: Keyspace)
      requires Safe(from, id)
      modifies this
      ensures Safe(from, id)
      ensures forall k :: k in store && k.Record? ==> k.id != id
    {
      SafeNow(from, id);
      hide Safe, AllFit, OthersUntouched, Remaining;
      var cursor := CursorAt(store, id);
      while true
        invariant Safe(from, id) && Standing(from, id) && cursor == CursorAt(store, id)
        decreases |Remaining(store, id)|
      {
        var keys, last, ks := NextRecords(id, cursor);
        if |keys| == 0 {
          break;
        }
        assert keys[0] == ks[0] && ks[0] in ks;
        ChunkCommitted(store, id, cursor, ks, keys, last);
        cursor := AddU64(last, 1);
        var b := Deletes(keys) + map[DeletePending(id) := Some(U64Val(cursor))];
        RemainingShrinks(store, Apply(store, b), id, keys);
        PrefixIsChunk(store, id, ks, keys, last);
        assert DeleterCommit(store, id, b);
        hide Apply, Deletes;
        CommitSafely(b, from, id);
        SafeNow(from, id);
      }
    }

    method DeleteProducers(id: nat, ghost from: Keyspace)
      requires Safe(from, id) && forall k :: k in store && k.Record? ==> k.id != id
      modifies this
      ensures Safe(from, id)
      ensures forall k :: k in store && (k.Record? || k.Producer?) ==> k.id != id
    {
      SafeNow(from, id);
      hide Safe, AllFit, OthersUntouched, Remaining;
      while true
        invariant Safe(from, id) && Standing(from, id) && forall k :: k in store && k.Record? ==> k.id != id
        decreases |Remaining(store, id)|
      {
        var keys := NextProducers(id);
        if |keys| == 0 {
          break;
        }
        assert keys[0] in keys;
        ProducersCommitted(store, id, keys);
        RemainingShrinks(store, Apply(store, Deletes(keys)), id, keys);
        NoNewKeys(store, Apply(store, Deletes(keys)), keys);
        assert AreProducers(id, keys) && DeleterCommit(store, id, Deletes(keys));
        hide Apply, Deletes;
        CommitSafely(Deletes(keys), from, id);
        SafeNow(from, id);
      }
    }
  }

  /** The marker keys of every interrupted deletion. */
  lemma HasPendingPrefix(k: Key)
    requires Fits(k)
    ensures [8] <= Encode(k) <==> k.DeletePending?
  {
    if [8] <= Encode(k) {
      assert [8][0] == Encode(k)[0];
    }
  }

  lemma ResumableAgrees(s: Keyspace, t: Keyspace, id: nat, other: nat)
    requires Resumable(s, id) && OthersUntouched(s, t, other) && id != other && AllFit(t)
    ensures Resumable(t, id)
  {
    assert Get(t, DeletePending(id)) == Get(s, DeletePending(id));
    forall k | k in t && k.Record? && k.id == id ensures k in s {
      assert Get(t, k) == Get(s, k);
    }
  }

  lemma StaysResumable(s: Keyspace, t: Keyspace, id: nat)
    requires AllResumable(s) && OthersUntouched(s, t, id) && Resumable(t, id)
    ensures AllResumable(t)
  {
    forall other | DeletePending(other) in t ensures Resumable(t, other) {
      if other != id {
        assert Get(t, DeletePending(other)) == Get(s, DeletePending(other));
        ResumableAgrees(s, t, other, id);
      }
    }
  }

  lemma ClearedAgrees(s: Keyspace, t: Keyspace, id: nat, other: nat)
    requires Cleared(s, id) && OthersUntouched(s, t, other) && id != other
    ensures Cleared(t, id)
  {
    forall k | k in t ensures !Belongs(id, k) {
      assert Belongs(id, k) ==> Get(t, k) == Get(s, k);
    }
  }

  lemma NoNewKeys(s: Keyspace, t: Keyspace, keys: seq<Key>)
    requires forall k :: Get(t, k) == if k in keys then None else Get(s, k)
    ensures forall k :: k in t ==> k in s
  {
    forall k | k in t ensures k in s {
      assert Get(t, k).Some?;
    }
  }

  lemma {:induction false} ChunkCommitted(s: Keyspace, id: nat, cursor: nat, ks: seq<Key>, keys: seq<Key>, last: nat)
    requires Resumable(s, id) && cursor == CursorAt(s, id)
    requires forall k :: k in ks <==> k in s && k.Record? && k.id == id && k.seqno >= cursor
    requires forall i, j :: 0 <= i < j < |ks| ==> ks[i].seqno < ks[j].seqno
    requires keys <= ks && keys != [] && last == ks[|keys| - 1].seqno
    ensures var t := Apply(s, Deletes(keys) + map[DeletePending(id) := Some(U64Val(AddU64(last, 1)))]);
            && OthersUntouched(s, t, id) && Resumable(t, id) && CursorAt(t, id) == AddU64(last, 1)
            && forall k: Key :: !k.DeletePending? ==> Get(t, k) == if k in keys then None else Get(s, k)
  {
    var t := Apply(s, Deletes(keys) + map[DeletePending(id) := Some(U64Val(AddU64(last, 1)))]);
    assert forall k :: k in keys ==> k in ks;
    DeletesApplied(s, keys, Some((id, AddU64(last, 1))));
    hide Apply, Deletes;
    forall k | k in t && k.Record? && k.id == id ensures k.seqno >= CursorAt(t, id) {
      assert Get(t, k).Some? && k !in keys;
      assert Get(s, k).Some?;
      assert k in ks;
      var j :| 0 <= j < |ks| && ks[j] == k;
      assert j >= |keys| by {
        assert forall x :: 0 <= x < |keys| ==> keys[x] == ks[x] && keys[x] in keys;
      }
    }
  }

  lemma {:induction false} ProducersCommitted(s: Keyspace, id: nat, keys: seq<Key>)
    requires Resumable(s, id) && forall k :: k in keys ==> k.Producer? && k.id == id
    ensures var t := Apply(s, Deletes(keys));
            && OthersUntouched(s, t, id) && Resumable(t, id)
            && forall k :: Get(t, k) == if k in keys then None else Get(s, k)
  {
    var t := Apply(s, Deletes(keys));
    assert Deletes(keys) + map[] == Deletes(keys);
    DeletesApplied(s, keys, None);
    hide Apply, Deletes;
    assert Get(t, DeletePending(id)) == Get(s, DeletePending(id));
    forall k | k in t ensures k in s {
      assert Get(t, k).Some?;
    }
  }

  lemma LastCommit(s: Keyspace, id: nat)
    requires Resumable(s, id) && forall k :: k in s && (k.Record? || k.Producer?) ==> k.id != id
    ensures var t := Apply(s, map[DeletePending(id) := None]);
            OthersUntouched(s, t, id) && Resumable(t, id) && Cleared(t, id)
  {
    var t := Apply(s, map[DeletePending(id) := None]);
    forall k | k in t ensures k in s && k != DeletePending(id) {
      assert Get(t, k).Some?;
    }
  }
}
