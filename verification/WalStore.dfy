/**
 The sharded write-ahead-log store: commits go round-robin to N shard files with
 independent fsync pipelines, an in-memory index maps keys to file locations, and
 reopening replays whatever a crash left of the files.
 */
module WalStore {
  import opened Bytes
  import opened WalCodec

  // ----- sequence numbers -----

  function SeqOf(local: nat, idx: nat, n: nat): nat {
    local * n + idx + 1
  }

  function ShardOf(seqno: nat, n: nat): (i: nat)
    requires n >= 1
    ensures i < n
  {
    ((seqno + U64_LIMIT - 1) % U64_LIMIT) % n
  }

  /** The local counter that reopening derives from the last sequence number found in shard idx. */
  function NextLocal(last: nat, idx: nat, n: nat): nat
    requires n >= 1 && idx + 1 < U64_LIMIT
  {
    ((last + U64_LIMIT - idx - 1) % U64_LIMIT) / n + 1
  }

  /** Round-robin: commit k of the history goes to this shard, as its commit of this round. */
  function Turn(k: nat, n: nat): (i: nat)
    requires n >= 1
    ensures i < n
  {
    k % n
  }

  function Round(k: nat, n: nat): nat
    requires n >= 1
  {
    k / n
  }

  lemma DivMod(q: nat, n: nat, r: nat)
    requires r < n
    ensures (q * n + r) / n == q && (q * n + r) % n == r
  {
    var x := q * n + r;
    QuotientUnique(q, x / n, n, r, x % n);
  }

  lemma QuotientUnique(a: nat, b: nat, n: nat, r: nat, s: nat)
    requires a * n + r == b * n + s && r < n && s < n
    ensures a == b
  {
    if a < b {
      MultipleGap(a, b, n);
    } else if b < a {
      MultipleGap(b, a, n);
    }
  }

  lemma {:induction false} MultipleGap(a: nat, b: nat, n: nat)
    requires a < b
    ensures a * n + n <= b * n
  {
    NextMultiple(b - 1, n);
    if a < b - 1 {
      MultipleGap(a, b - 1, n);
    }
  }

  lemma NextMultiple(a: nat, n: nat)
    ensures (a + 1) * n == a * n + n
  {
  }

  /** Sequence numbers and (local, shard) pairs determine each other. */
  lemma SequenceBijection(local: nat, idx: nat, n: nat)
    requires idx < n && SeqOf(local, idx, n) < U64_LIMIT
    ensures ShardOf(SeqOf(local, idx, n), n) == idx
    ensures Turn(SeqOf(local, idx, n) - 1, n) == idx && Round(SeqOf(local, idx, n) - 1, n) == local
    ensures NextLocal(SeqOf(local, idx, n), idx, n) == local + 1
  {
    DivMod(local, n, idx);
    DivMod(local, n, 0);
  }

  lemma SequenceIsOnto(seqno: nat, n: nat)
    requires n >= 1 && 1 <= seqno < U64_LIMIT
    ensures SeqOf((seqno - 1) / n, ShardOf(seqno, n), n) == seqno
  {
  }

  // ----- one shard -----

  datatype Flight = Idle | Due(seqs: seq<nat>) | Syncing(seqs: seq<nat>, upTo: nat)

  /**
   A shard: its file, the commits written to it, and its fsync pipeline. `synced` is
   the length covered by the last completed fsync.
   */
  datatype Shard = Shard(idx: nat, log: seq<Commit>, file: ByteString, pending: seq<nat>, flight: Flight, synced: nat)

  function Staged(sum: Checksum, n: nat, sh: Shard, ops: seq<Op>): Shard {
    var c := Commit(SeqOf(|sh.log|, sh.idx, n), ops);
    var written := sh.(log := sh.log + [c], file := sh.file + Record(sum, c.seqno, ops));
    if sh.flight.Idle? then written.(flight := Due(sh.pending + [c.seqno]), pending := [])
    else written.(pending := sh.pending + [c.seqno])
  }

  /** fsync is called: it will cover what the file holds now. */
  function BeginSync(sh: Shard): Shard
    requires sh.flight.Due?
  {
    sh.(flight := Syncing(sh.flight.seqs, |sh.file|))
  }

  /** fsync returns; the flush loop goes on with what was staged meanwhile. */
  function EndSync(sh: Shard, ok: bool): Shard
    requires sh.flight.Syncing?
  {
    sh.(synced := if ok then sh.flight.upTo else sh.synced,
        flight := if sh.pending == [] then Idle else Due(sh.pending),
        pending := [])
  }

  /** Sequence number q was written to the shard, within the first upTo bytes. */
  ghost predicate Written(sum: Checksum, log: seq<Commit>, q: nat, upTo: nat) {
    exists j :: 0 <= j < |log| && log[j].seqno == q && RecordStart(sum, log, j + 1) <= upTo
  }

  ghost predicate ShardOk(sum: Checksum, n: nat, sh: Shard) {
    && sh.file == FileOf(sum, sh.log) && AllFit(sh.log) && sh.synced <= |sh.file|
    && (forall j :: 0 <= j < |sh.log| ==> sh.log[j].seqno == SeqOf(j, sh.idx, n))
    && (forall q :: q in sh.pending ==> Written(sum, sh.log, q, |sh.file|))
    && (sh.flight.Due? ==> forall q :: q in sh.flight.seqs ==> Written(sum, sh.log, q, |sh.file|))
    && (sh.flight.Syncing? ==> sh.synced <= sh.flight.upTo <= |sh.file| && forall q ::
                               q in sh.flight.seqs ==> Written(sum, sh.log, q, sh.flight.upTo))
  }

  class WalShard {
    const idx: nat
    const numShards: nat
    ghost var log: seq<Commit>
    var localSeq: nat
    var file: ByteString
    var pending: seq<nat>
    var flight: Flight
    ghost var synced: nat

    ghost function View(): Shard
      reads this
    {
      Shard(idx, log, file, pending, flight, synced)
    }

    ghost predicate Valid()
      reads this
    {
      localSeq == |log| && numShards >= 1
    }

    constructor (idx: nat, numShards: nat)
      requires numShards >= 1
      ensures Valid() && View() == Shard(idx, [], [], [], Idle, 0) && this.numShards == numShards
    {
      this.idx, this.numShards := idx, numShards;
      localSeq, log, file, pending, flight, synced := 0, [], [], [], Idle, 0;
    }

    /** stage: write the record, report where each value went, and start a flush if none runs. */
    method Stage(sum: Checksum, ops: seq<Op>) returns (seqno: nat, locs: seq<(ByteString, int, int)>)
      requires Valid()
      modifies this
      ensures Valid() && View() == old(Staged(sum, numShards, View(), ops))
      ensures seqno == SeqOf(old(localSeq), idx, numShards)
      ensures Fits(seqno, ops) ==> locs == Locations(Entries(ops, |old(file)|))
    {
      hide Record, EncodeOps, Entries, Int32, Fits;
      var local := localSeq;
      localSeq := localSeq + 1;
      seqno := local * numShards + idx + 1;
      var rec, relOff, relLen := EncodeRecord(sum, seqno, ops);
      var base := |file|;
      file := file + rec;
      log := log + [Commit(seqno, ops)];
      locs := [];
      ghost var es := Entries(ops, base);
      var i := 0;
      while i < |ops|
        modifies {}
        invariant i <= |ops|
        invariant Fits(seqno, ops) ==> locs == Locations(es[..i])
      {
        EntryAt(ops, i, base);
        EntryAt(ops, i, 0);
        EntryIs(ops, i, base);
        assert es[..i + 1][..i] == es[..i];
        if !ops[i].del {
          locs := locs + [(ops[i].key, base + relOff[i], relLen[i])];
        }
        i := i + 1;
      }
      assert es[..|ops|] == es;
      pending := pending + [seqno];
      if flight != Idle {
        return;
      }
      flight := Due(pending);
      pending := [];
    }

    method CallSync()
      requires Valid() && flight.Due?
      modifies this`flight
      ensures Valid() && View() == old(BeginSync(View()))
    {
      flight := Syncing(flight.seqs, |file|);
    }

    /** The rest of a round of runFlush; the sequence numbers returned are marked durable. */
    method SyncReturned(ok: bool) returns (done: seq<nat>)
      requires Valid() && flight.Syncing?
      modifies this
      ensures Valid() && View() == old(EndSync(View(), ok))
      ensures done == if ok then old(flight.seqs) else []
    {
      done := if ok then flight.seqs else [];
      if ok {
        synced := flight.upTo;
      }
      if |pending| == 0 {
        flight := Idle;
        return;
      }
      flight := Due(pending);
      pending := [];
    }
  }

  /** The locations stage hands back: one per put, in order. */
  function Locations(es: seq<Entry>): seq<(ByteString, int, int)> {
    if es == [] then []
    else
      var e := es[|es| - 1];
      Locations(es[..|es| - 1]) + if e.del then [] else [(e.key, e.fileOff, e.n)]
  }

  lemma EntryIs(ops: seq<Op>, i: nat, at: nat)
    requires i < |ops|
    ensures Entries(ops, at)[i].key == ops[i].key && Entries(ops, at)[i].del == ops[i].del
  {
  }

  lemma {:induction false} WrittenStays(sum: Checksum, log: seq<Commit>, c: Commit, q: nat, upTo: nat, more: nat)
    requires Written(sum, log, q, upTo) && upTo <= more
    ensures Written(sum, log + [c], q, more)
  {
    var j :| 0 <= j < |log| && log[j].seqno == q && RecordStart(sum, log, j + 1) <= upTo;
    assert (log + [c])[..j + 1] == log[..j + 1];
    assert (log + [c])[j] == log[j];
  }

  lemma WrittenNow(sum: Checksum, log: seq<Commit>, c: Commit)
    ensures Written(sum, log + [c], c.seqno, |FileOf(sum, log + [c])|)
  {
    assert (log + [c])[..|log| + 1] == log + [c];
    assert (log + [c])[|log|] == c;
  }

  lemma FileAppends(sum: Checksum, log: seq<Commit>, c: Commit)
    ensures FileOf(sum, log + [c]) == FileOf(sum, log) + Record(sum, c.seqno, c.ops)
  {
    assert (log + [c])[..|log|] == log;
  }

  lemma {:induction false} StageKeepsShard(sum: Checksum, n: nat, sh: Shard, ops: seq<Op>)
    requires ShardOk(sum, n, sh) && Fits(SeqOf(|sh.log|, sh.idx, n), ops)
    ensures ShardOk(sum, n, Staged(sum, n, sh, ops))
  {
    hide FileOf, Record, SeqOf, Fits, RecordStart;
    var c := Commit(SeqOf(|sh.log|, sh.idx, n), ops);
    var t := Staged(sum, n, sh, ops);
    FileAppends(sum, sh.log, c);
    WrittenNow(sum, sh.log, c);
    hide Written;
    assert |sh.file| <= |t.file|;
    forall q | q in sh.pending || (sh.flight.Due? && q in sh.flight.seqs) ensures Written(sum, t.log, q, |t.file|) {
      WrittenStays(sum, sh.log, c, q, |sh.file|, |t.file|);
    }
    if sh.flight.Syncing? {
      forall q | q in sh.flight.seqs ensures Written(sum, t.log, q, sh.flight.upTo) {
        WrittenStays(sum, sh.log, c, q, sh.flight.upTo, sh.flight.upTo);
      }
    }
  }

  lemma SyncKeepsShard(sum: Checksum, n: nat, sh: Shard, ok: bool)
    requires ShardOk(sum, n, sh)
    ensures sh.flight.Due? ==> ShardOk(sum, n, BeginSync(sh))
    ensures sh.flight.Syncing? ==> ShardOk(sum, n, EndSync(sh, ok))
  {
    hide FileOf, Record, SeqOf, Fits, RecordStart, Written;
  }

  // ----- the index -----

  datatype Loc = Loc(shard: nat, fileOff: int, n: int)

  type Index = map<ByteString, Loc>

  type Table = map<ByteString, ByteString>

  function Find<T>(m: map<ByteString, T>, key: ByteString): Option<T> {
    if key in m then Some(m[key]) else None
  }

  /** A commit's operations on a plain map, in order. */
  function ApplyOps(t: Table, ops: seq<Op>): Table {
    if ops == [] then t
    else
      var u, op := ApplyOps(t, ops[..|ops| - 1]), ops[|ops| - 1];
      if op.del then u - {op.key} else u[op.key := op.val]
  }

  /** What the store should hold: every commit applied in commit order. */
  function Plain(history: seq<seq<Op>>): Table {
    if history == [] then map[] else ApplyOps(Plain(history[..|history| - 1]), history[|history| - 1])
  }

  /** The last operation on a key, or -1. */
  function LastOp(ops: seq<Op>, key: ByteString): (l: int)
    ensures -1 <= l < |ops|
    ensures l >= 0 ==> ops[l].key == key
  {
    if ops == [] then -1 else if ops[|ops| - 1].key == key then |ops| - 1 else LastOp(ops[..|ops| - 1], key)
  }

  /** The last operation that puts a key, or -1. */
  function LastPut(ops: seq<Op>, key: ByteString): (l: int)
    ensures -1 <= l < |ops|
    ensures l >= 0 ==> ops[l].key == key && !ops[l].del
  {
    if ops == [] then -1
    else if ops[|ops| - 1].key == key && !ops[|ops| - 1].del then |ops| - 1
    else LastPut(ops[..|ops| - 1], key)
  }

  lemma {:induction false} LastPutIsLastOp(ops: seq<Op>, key: ByteString)
    requires LastOp(ops, key) >= 0 && !ops[LastOp(ops, key)].del
    ensures LastPut(ops, key) == LastOp(ops, key)
  {
    if ops[|ops| - 1].key != key {
      LastPutIsLastOp(ops[..|ops| - 1], key);
    }
  }

  lemma {:induction false} PutIsFound(ops: seq<Op>, j: nat)
    requires j < |ops| && !ops[j].del
    ensures LastPut(ops, ops[j].key) >= 0
  {
    if j < |ops| - 1 {
      PutIsFound(ops[..|ops| - 1], j);
    }
  }

  lemma {:induction false} ApplyOpsAt(t: Table, ops: seq<Op>, key: ByteString)
    ensures var l := LastOp(ops, key);
            Find(ApplyOps(t, ops), key) == if l < 0 then Find(t, key) else if ops[l].del then None else Some(ops[l].val)
  {
    if ops != [] {
      ApplyOpsAt(t, ops[..|ops| - 1], key);
    }
  }

  /** What the index should say of a key after a commit whose values lie where `es` says. */
  function IndexedAt(tree: Index, shard: nat, ops: seq<Op>, es: seq<Entry>, key: ByteString): Option<Loc>
    requires |es| == |ops|
  {
    var l := LastOp(ops, key);
    if l < 0 then Find(tree, key) else if ops[l].del then None else Some(Loc(shard, es[l].fileOff, es[l].n))
  }

  function LastLocation(locs: seq<(ByteString, int, int)>, key: ByteString): Option<(int, int)> {
    if locs == [] then None
    else if locs[|locs| - 1].0 == key then Some((locs[|locs| - 1].1, locs[|locs| - 1].2))
    else LastLocation(locs[..|locs| - 1], key)
  }

  ghost predicate Describes(ops: seq<Op>, es: seq<Entry>) {
    |es| == |ops| && forall i :: 0 <= i < |ops| ==> es[i].key == ops[i].key && es[i].del == ops[i].del
  }

  lemma {:induction false} LastLocationIs(ops: seq<Op>, es: seq<Entry>, key: ByteString)
    requires Describes(ops, es)
    ensures var l := LastPut(ops, key);
            LastLocation(Locations(es), key) == if l < 0 then None else Some((es[l].fileOff, es[l].n))
  {
    if ops != [] {
      var n := |ops| - 1;
      LastLocationIs(ops[..n], es[..n], key);
      var front := Locations(es[..n]);
      if !es[n].del {
        var last := (es[n].key, es[n].fileOff as int, es[n].n);
        assert Locations(es) == front + [last];
        assert (front + [last])[..|front|] == front;
      } else {
        assert Locations(es) == front;
      }
    }
  }

  /** The first index loop of CommitAsync: the last location reported for each key. */
  method LastLocations(ops: seq<Op>, locs: seq<(ByteString, int, int)>, ghost es: seq<Entry>)
    returns (byKey: map<ByteString, (int, int)>)
    requires Describes(ops, es) && locs == Locations(es)
    ensures forall key :: Find(byKey, key) == LocatedPut(ops, es, key)
  {
    byKey := map[];
    var i := 0;
    while i < |locs|
      invariant i <= |locs|
      invariant forall key :: Find(byKey, key) == LastLocation(locs[..i], key)
    {
      assert locs[..i + 1][..i] == locs[..i];
      byKey := byKey[locs[i].0 := (locs[i].1, locs[i].2)];
      i := i + 1;
    }
    assert locs[..|locs|] == locs;
    forall key ensures Find(byKey, key) == LocatedPut(ops, es, key) {
      LastLocationIs(ops, es, key);
    }
  }

  /** The index loops of CommitAsync. */
  method IndexCommit(tree: Index, shard: nat, ops: seq<Op>, locs: seq<(ByteString, int, int)>, ghost es: seq<Entry>)
    returns (t: Index)
    requires Describes(ops, es) && locs == Locations(es)
    ensures forall key :: Find(t, key) == IndexedAt(tree, shard, ops, es, key)
  {
    hide LastLocation, Locations, LastPut, LastOp;
    var byKey := LastLocations(ops, locs, es);
    t := tree;
    NoLastOp(ops);
    var i := 0;
    while i < |ops|
      invariant i <= |ops|
      invariant forall key :: Find(t, key) == PartlyIndexed(tree, shard, ops, es, i, key)
    {
      var op := ops[i];
      ghost var was := t;
      if op.del {
        t := t - {op.key};
      } else {
        PutIsFound(ops, i);
        assert Find(byKey, op.key).Some?;
        var l := byKey[op.key];
        t := t[op.key := Loc(shard, l.0, l.1)];
      }
      forall key ensures Find(t, key) == PartlyIndexed(tree, shard, ops, es, i + 1, key) {
        assert Find(was, key) == PartlyIndexed(tree, shard, ops, es, i, key);
        LastOpOfMore(ops, i, key);
      }
      i := i + 1;
    }
    forall key ensures Find(t, key) == IndexedAt(tree, shard, ops, es, key) {
      WhollyIndexed(tree, shard, ops, es, key);
    }
  }

  lemma WhollyIndexed(tree: Index, shard: nat, ops: seq<Op>, es: seq<Entry>, key: ByteString)
    requires |es| == |ops|
    ensures PartlyIndexed(tree, shard, ops, es, |ops|, key) == IndexedAt(tree, shard, ops, es, key)
  {
    hide LastPut, LastOp;
    assert ops[..|ops|] == ops;
    var l := LastOp(ops, key);
    if l >= 0 && !ops[l].del {
      LastPutIsLastOp(ops, key);
    }
  }

  lemma NoLastOp(ops: seq<Op>)
    ensures forall key :: LastOp(ops[..0], key) == -1
  {
  }

  lemma LastOpOfMore(ops: seq<Op>, i: nat, key: ByteString)
    requires i < |ops|
    ensures LastOp(ops[..i + 1], key) == if ops[i].key == key then i else LastOp(ops[..i], key)
  {
    assert ops[..i + 1][..i] == ops[..i];
  }

  ghost function LocatedPut(ops: seq<Op>, es: seq<Entry>, key: ByteString): Option<(int, int)>
    requires |es| == |ops|
  {
    var l := LastPut(ops, key);
    if l < 0 then None else Some((es[l].fileOff, es[l].n))
  }

  /** After i operations of the loop: every put so far has stored the location of the commit's last put of its key. */
  ghost function PartlyIndexed(tree: Index, shard: nat, ops: seq<Op>, es: seq<Entry>, i: nat,
          key: ByteString): Option<Loc>
    requires |es| == |ops| && i <= |ops|
  {
    var l, p := LastOp(ops[..i], key), LocatedPut(ops, es, key);
    if l < 0 then Find(tree, key) else if ops[l].del || p.None? then None else Some(Loc(shard, p.value.0, p.value.1))
  }

  /** Replay applies a record's entries one by one. */
  function ReplayEntries(tree: Index, es: seq<Entry>, shard: nat): Index {
    if es == [] then tree
    else
      var t, e := ReplayEntries(tree, es[..|es| - 1], shard), es[|es| - 1];
      if e.del then t - {e.key} else t[e.key := Loc(shard, e.fileOff, e.n)]
  }

  lemma {:induction false} ReplayEntriesAt(tree: Index, ops: seq<Op>, es: seq<Entry>, shard: nat, key: ByteString)
    requires Describes(ops, es)
    ensures Find(ReplayEntries(tree, es, shard), key) == IndexedAt(tree, shard, ops, es, key)
  {
    if ops != [] {
      var n := |ops| - 1;
      ReplayEntriesAt(tree, ops[..n], es[..n], shard, key);
    }
  }

  /** The bytes at a location are v. */
  ghost predicate Holds(files: seq<ByteString>, l: Loc, v: ByteString) {
    && l.shard < |files| && 0 <= l.fileOff && 0 <= l.n && l.fileOff + l.n <= |files[l.shard]|
    && files[l.shard][l.fileOff..l.fileOff + l.n] == v
  }

  /** Reading every key through the index and the files gives the table. */
  ghost predicate Agrees(files: seq<ByteString>, tree: Index, t: Table) {
    && tree.Keys == t.Keys
    && forall key :: key in tree ==> Holds(files, tree[key], t[key])
  }

  method Get(files: seq<ByteString>, tree: Index, key: ByteString, ghost t: Table) returns (v: Option<ByteString>)
    requires Agrees(files, tree, t)
    ensures v == Find(t, key)
  {
    if key !in tree {
      return None;
    }
    var e := tree[key];
    assert Holds(files, e, t[key]);
    return Some(files[e.shard][e.fileOff..e.fileOff + e.n]);
  }

  ghost predicate Extends(files: seq<ByteString>, more: seq<ByteString>) {
    |files| == |more| && forall i :: 0 <= i < |files| ==> files[i] <= more[i]
  }

  /** An index updated for a commit whose values are in the files agrees with the table updated by it. */
  lemma {:induction false} CommitKeepsAgreement(files: seq<ByteString>, more: seq<ByteString>, tree: Index, t: Table,
          shard: nat, ops: seq<Op>, es: seq<Entry>, tree': Index)
    requires Agrees(files, tree, t) && Extends(files, more) && |es| == |ops|
    requires forall i :: 0 <= i < |ops| && !ops[i].del ==> Holds(more, Loc(shard, es[i].fileOff, es[i].n), ops[i].val)
    requires forall key :: Find(tree', key) == IndexedAt(tree, shard, ops, es, key)
    ensures Agrees(more, tree', ApplyOps(t, ops))
  {
    var u := ApplyOps(t, ops);
    hide ApplyOps, LastOp;
    forall key ensures key in tree' <==> key in u
      ensures key in tree' ==> Holds(more, tree'[key], u[key])
    {
      ApplyOpsAt(t, ops, key);
      assert Find(tree', key) == IndexedAt(tree, shard, ops, es, key);
      if LastOp(ops, key) < 0 && key in tree {
        assert Holds(files, tree[key], t[key]);
        HoldsStays(files, more, tree[key], t[key]);
      }
    }
    assert tree'.Keys == u.Keys;
  }

  lemma HoldsStays(files: seq<ByteString>, more: seq<ByteString>, l: Loc, v: ByteString)
    requires Extends(files, more) && Holds(files, l, v)
    ensures Holds(more, l, v)
  {
    var f, g := files[l.shard], more[l.shard];
    assert g[l.fileOff..l.fileOff + l.n] == f[l.fileOff..l.fileOff + l.n];
  }
}
