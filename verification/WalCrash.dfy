/**
 Runs of the sharded write-ahead-log store, crashes, and recovery: whatever each
 shard file loses beyond its last completed fsync, every commit the watermark
 covers survives, and the rebuilt index is the surviving commits in commit order.
 */
module WalCrash {
  import opened Bytes
  import opened Watermark
  import opened WalCodec
  import opened WalStore

  /** The store; `history` is every commit's operations in commit order. */
  datatype Wal = Wal(
    shards: seq<Shard>,
    tree: Index,
    marked: set<nat>,
    durable: nat,
    failed: bool,
    history: seq<seq<Op>>)

  function Files(w: Wal): (fs: seq<ByteString>)
    ensures |fs| == |w.shards|
  {
    seq(|w.shards|, i requires 0 <= i < |w.shards| => w.shards[i].file)
  }

  ghost predicate Init(n: nat, w: Wal) {
    && 1 <= n < U64_LIMIT && |w.shards| == n
    && (forall i :: 0 <= i < n ==> w.shards[i] == Shard(i, [], [], [], Idle, 0))
    && w.tree == map[] && w.marked == {} && w.durable == 0 && !w.failed && w.history == []
  }

  // ----- the steps -----

  /** CommitAsync: stage on the next shard in turn, then index. The record's lengths fit their fields. */
  ghost predicate Commits(sum: Checksum, n: nat, w: Wal, w': Wal, ops: seq<Op>) {
    && n >= 1 && |w.shards| == n && !w.failed
    && var i := Turn(|w.history|, n);
       var sh := w.shards[i];
       && Fits(SeqOf(|sh.log|, sh.idx, n), ops)
       && w' == w.(shards := w.shards[i := Staged(sum, n, sh, ops)], tree := w'.tree, history := w.history + [ops])
       && forall key :: Find(w'.tree, key) == IndexedAt(w.tree, i, ops, Entries(ops, |sh.file|), key)
  }

  ghost predicate Begins(n: nat, w: Wal, w': Wal, i: nat) {
    && i < n == |w.shards| && w.shards[i].flight.Due?
    && w' == w.(shards := w.shards[i := BeginSync(w.shards[i])])
  }

  ghost predicate Ends(n: nat, w: Wal, w': Wal, i: nat, ok: bool) {
    && i < n == |w.shards| && w.shards[i].flight.Syncing?
    && w' == w.(shards := w.shards[i := EndSync(w.shards[i], ok)],
                marked := if ok then w.marked + (set q | q in w.shards[i].flight.seqs) else w.marked,
                durable := w'.durable, failed := w.failed || !ok)
    && IsWatermark(w'.marked, w'.durable)
  }

  datatype Step = CommitStep(ops: seq<Op>) | BeginStep(i: nat) | EndStep(i: nat, ok: bool)

  ghost predicate Next(sum: Checksum, n: nat, w: Wal, w': Wal, step: Step) {
    match step
    case CommitStep(ops) => Commits(sum, n, w, w', ops)
    case BeginStep(i) => Begins(n, w, w', i)
    case EndStep(i, ok) => Ends(n, w, w', i, ok)
  }

  // ----- the invariant -----

  /** Shard i is well formed, is the next to take its turn within n commits, and holds its share of the history. */
  ghost predicate ShareOk(sum: Checksum, n: nat, history: seq<seq<Op>>, i: nat, sh: Shard) {
    && sh.idx == i && ShardOk(sum, n, sh)
    && |history| < SeqOf(|sh.log|, i, n) <= |history| + n
    && forall j :: 0 <= j < |sh.log| ==>
                   1 <= sh.log[j].seqno <= |history| && sh.log[j].ops == history[sh.log[j].seqno - 1]
  }

  ghost predicate SharesOk(sum: Checksum, n: nat, history: seq<seq<Op>>, shards: seq<Shard>) {
    |shards| == n && forall i :: 0 <= i < n ==> ShareOk(sum, n, history, i, shards[i])
  }

  /** What is marked durable is covered by a completed fsync of its shard. */
  ghost predicate MarksOk(sum: Checksum, n: nat, shards: seq<Shard>, marked: set<nat>)
    requires n >= 1
  {
    && |shards| == n
    && forall q :: q in marked ==> Written(sum, shards[ShardOf(q, n)].log, q, shards[ShardOf(q, n)].synced)
  }

  ghost predicate Inv(sum: Checksum, n: nat, w: Wal) {
    && 1 <= n < U64_LIMIT
    && SharesOk(sum, n, w.history, w.shards)
    && MarksOk(sum, n, w.shards, w.marked) && IsWatermark(w.marked, w.durable)
    && Agrees(Files(w), w.tree, Plain(w.history))
  }

  lemma InitImpliesInv(sum: Checksum, n: nat, w: Wal)
    requires Init(n, w)
    ensures Inv(sum, n, w)
  {
    forall i | 0 <= i < n ensures ShareOk(sum, n, w.history, i, w.shards[i]) {
      assert 0 * n == 0;
    }
  }

  lemma TurnNumber(local: nat, i: nat, n: nat, total: nat)
    requires n >= 1 && Turn(total, n) == i && total < SeqOf(local, i, n) <= total + n
    ensures SeqOf(local, i, n) == total + 1
  {
    var q := Round(total, n);
    assert total == q * n + i;
    if local < q {
      MultipleGap(local, q, n);
    } else if q < local {
      MultipleGap(q, local, n);
    }
  }

  /** The shard whose turn it is gives the commit the next number of the history. */
  lemma TurnIsNext(sum: Checksum, n: nat, history: seq<seq<Op>>, shards: seq<Shard>)
    requires n >= 1 && SharesOk(sum, n, history, shards)
    ensures var i := Turn(|history|, n); SeqOf(|shards[i].log|, i, n) == |history| + 1
  {
    hide ShardOk;
    var i := Turn(|history|, n);
    assert ShareOk(sum, n, history, i, shards[i]);
    hide *;
    TurnNumber(|shards[i].log|, i, n, |history|);
  }

  lemma TurnKeepsShare(sum: Checksum, n: nat, history: seq<seq<Op>>, i: nat, sh: Shard, ops: seq<Op>)
    requires n >= 1 && ShareOk(sum, n, history, i, sh) && SeqOf(|sh.log|, i, n) == |history| + 1
             && Fits(|history| + 1, ops)
    ensures ShareOk(sum, n, history + [ops], i, Staged(sum, n, sh, ops))
  {
    hide ShardOk, Fits, Record, SeqOf;
    StageKeepsShard(sum, n, sh, ops);
    NextSeq(|sh.log|, i, n);
    var t := Staged(sum, n, sh, ops);
    assert t.idx == i && t.log == sh.log + [Commit(|history| + 1, ops)];
    hide Staged;
    forall j | 0 <= j < |t.log|
      ensures 1 <= t.log[j].seqno <= |history| + 1 && t.log[j].ops == (history + [ops])[t.log[j].seqno - 1]
    {
      assert j < |sh.log| ==> t.log[j] == sh.log[j];
    }
  }

  lemma NextSeq(local: nat, i: nat, n: nat)
    ensures SeqOf(local + 1, i, n) == SeqOf(local, i, n) + n
  {
    NextMultiple(local, n);
  }

  lemma OthersKeepShare(sum: Checksum, n: nat, history: seq<seq<Op>>, i: nat, sh: Shard, ops: seq<Op>)
    requires i < n && ShareOk(sum, n, history, i, sh) && Turn(|history|, n) != i
    ensures ShareOk(sum, n, history + [ops], i, sh)
  {
    hide ShardOk;
    OthersWait(|sh.log|, i, n, |history|);
    hide SeqOf;
  }

  lemma {:induction false} CommitKeepsShares(sum: Checksum, n: nat, w: Wal, w': Wal, ops: seq<Op>)
    requires n >= 1 && SharesOk(sum, n, w.history, w.shards) && Commits(sum, n, w, w', ops)
    ensures SharesOk(sum, n, w'.history, w'.shards)
  {
    hide ShardOk, Staged, Fits, IndexedAt, SeqOf;
    TurnIsNext(sum, n, w.history, w.shards);
    forall i | 0 <= i < n ensures ShareOk(sum, n, w'.history, i, w'.shards[i]) {
      assert ShareOk(sum, n, w.history, i, w.shards[i]);
      if i == Turn(|w.history|, n) {
        TurnKeepsShare(sum, n, w.history, i, w.shards[i], ops);
      } else {
        OthersKeepShare(sum, n, w.history, i, w.shards[i], ops);
      }
    }
  }

  /** A shard whose turn it is not keeps the number it will give next. */
  lemma OthersWait(local: nat, i: nat, n: nat, total: nat)
    requires i < n && Turn(total, n) != i && total < SeqOf(local, i, n)
    ensures total + 1 < SeqOf(local, i, n)
  {
    DivMod(local, n, i);
  }

  lemma {:induction false} MarksStay(sum: Checksum, n: nat, shards: seq<Shard>, marked: set<nat>, i: nat, sh: Shard,
          c: Option<Commit>)
    requires n >= 1 && MarksOk(sum, n, shards, marked) && i < n
    requires sh.log == (if c.Some? then shards[i].log + [c.value] else shards[i].log) && shards[i].synced <= sh.synced
    ensures MarksOk(sum, n, shards[i := sh], marked)
  {
    hide RecordStart;
    forall q | q in marked
      ensures Written(sum, shards[i := sh][ShardOf(q, n)].log, q, shards[i := sh][ShardOf(q, n)].synced)
    {
      assert Written(sum, shards[ShardOf(q, n)].log, q, shards[ShardOf(q, n)].synced);
      if ShardOf(q, n) == i && c.Some? {
        hide Written;
        WrittenStays(sum, shards[i].log, c.value, q, shards[i].synced, sh.synced);
      }
    }
  }

  lemma {:induction false} EndKeepsMarks(sum: Checksum, n: nat, w: Wal, w': Wal, i: nat, ok: bool)
    requires Inv(sum, n, w) && Ends(n, w, w', i, ok)
    ensures MarksOk(sum, n, w'.shards, w'.marked)
  {
    var sh := w.shards[i];
    assert ShareOk(sum, n, w.history, i, sh);
    MarksStay(sum, n, w.shards, w.marked, i, EndSync(sh, ok), None);
    if ok {
      forall q | q in sh.flight.seqs
        ensures ShardOf(q, n) == i && Written(sum, w'.shards[i].log, q, w'.shards[i].synced)
      {
        assert Written(sum, sh.log, q, sh.flight.upTo);
        var j :| 0 <= j < |sh.log| && sh.log[j].seqno == q && RecordStart(sum, sh.log, j + 1) <= sh.flight.upTo;
        assert Fits(sh.log[j].seqno, sh.log[j].ops);
        SequenceBijection(j, i, n);
      }
    }
  }

  /** The values of a staged commit lie in the shard file where its entries say. */
  lemma {:induction false} StagedValues(sum: Checksum, n: nat, sh: Shard, ops: seq<Op>, k: nat, files: seq<ByteString>)
    requires ShardOk(sum, n, sh) && k < |ops| && !ops[k].del
    requires sh.idx < |files| && files[sh.idx] == Staged(sum, n, sh, ops).file
    ensures Holds(files, Loc(sh.idx, Entries(ops, |sh.file|)[k].fileOff, Entries(ops, |sh.file|)[k].n), ops[k].val)
  {
    hide Record, Entries, FileOf;
    var c := Commit(SeqOf(|sh.log|, sh.idx, n), ops);
    var log, j := sh.log + [c], |sh.log|;
    FileAppends(sum, sh.log, c);
    LastReplayed(sum, sh.log, c);
    assert files[sh.idx] == FileOf(sum, log) && sh.file == FileOf(sum, sh.log) && log[j] == c;
    hide ShardOk, Replayed, RecordStart, Staged, SeqOf;
    OffsetsPointAtValues(sum, log, j, k, Entries(ops, |sh.file|)[k]);
  }

  lemma LastReplayed(sum: Checksum, log: seq<Commit>, c: Commit)
    ensures Replayed(sum, log + [c])[|log|].entries == Entries(c.ops, |FileOf(sum, log)|)
  {
    hide Entries, FileOf;
    assert (log + [c])[..|log|] == log && (log + [c])[|log|] == c;
  }

  lemma {:induction false} CommitKeepsIndex(sum: Checksum, n: nat, w: Wal, w': Wal, ops: seq<Op>)
    requires Inv(sum, n, w) && Commits(sum, n, w, w', ops)
    ensures Agrees(Files(w'), w'.tree, Plain(w'.history))
  {
    var i := Turn(|w.history|, n);
    var sh := w.shards[i];
    assert ShareOk(sum, n, w.history, i, sh);
    var es := Entries(ops, |sh.file|);
    assert w'.history[..|w.history|] == w.history;
    assert Plain(w'.history) == ApplyOps(Plain(w.history), ops);
    hide ShardOk, SharesOk, MarksOk, Agrees, Plain, Fits, Record, IndexedAt, Holds, ApplyOps;
    assert Extends(Files(w), Files(w'));
    forall k | 0 <= k < |ops| && !ops[k].del ensures Holds(Files(w'), Loc(i, es[k].fileOff, es[k].n), ops[k].val) {
      StagedValues(sum, n, sh, ops, k, Files(w'));
    }
    hide Entries, Staged, Extends;
    CommitKeepsAgreement(Files(w), Files(w'), w.tree, Plain(w.history), i, ops, es, w'.tree);
  }

  lemma {:induction false} CommitKeepsInv(sum: Checksum, n: nat, w: Wal, w': Wal, ops: seq<Op>)
    requires Inv(sum, n, w) && Commits(sum, n, w, w', ops)
    ensures Inv(sum, n, w')
  {
    CommitKeepsShares(sum, n, w, w', ops);
    CommitKeepsIndex(sum, n, w, w', ops);
    var i := Turn(|w.history|, n);
    var sh := w.shards[i];
    hide SharesOk, MarksOk, Agrees, Plain, Fits, Record, IndexedAt, Entries, Files;
    MarksStay(sum, n, w.shards, w.marked, i, Staged(sum, n, sh, ops), Some(Commit(SeqOf(|sh.log|, sh.idx, n), ops)));
  }

  lemma {:induction false} SyncKeepsShares(sum: Checksum, n: nat, history: seq<seq<Op>>, shards: seq<Shard>,
          i: nat, ok: bool)
    requires SharesOk(sum, n, history, shards) && i < n
    ensures shards[i].flight.Due? ==> SharesOk(sum, n, history, shards[i := BeginSync(shards[i])])
    ensures shards[i].flight.Syncing? ==> SharesOk(sum, n, history, shards[i := EndSync(shards[i], ok)])
  {
    assert ShareOk(sum, n, history, i, shards[i]);
    SyncKeepsShard(sum, n, shards[i], ok);
    hide ShardOk;
  }

  lemma {:induction false} NextKeepsInv(sum: Checksum, n: nat, w: Wal, w': Wal, step: Step)
    requires Inv(sum, n, w) && Next(sum, n, w, w', step)
    ensures Inv(sum, n, w')
  {
    match step {
      case CommitStep(ops) =>
        CommitKeepsInv(sum, n, w, w', ops);
      case BeginStep(i) =>
        SyncKeepsShares(sum, n, w.history, w.shards, i, true);
        MarksStay(sum, n, w.shards, w.marked, i, BeginSync(w.shards[i]), None);
        assert Files(w') == Files(w);
        hide SharesOk, MarksOk, Agrees, Plain;
      case EndStep(i, ok) =>
        SyncKeepsShares(sum, n, w.history, w.shards, i, ok);
        EndKeepsMarks(sum, n, w, w', i, ok);
        assert Files(w') == Files(w);
        hide SharesOk, MarksOk, Agrees, Plain;
    }
  }

  ghost predicate Run(sum: Checksum, n: nat, states: seq<Wal>, steps: seq<Step>) {
    && |states| == |steps| + 1
    && Init(n, states[0])
    && forall i :: 0 <= i < |steps| ==> Next(sum, n, states[i], states[i + 1], steps[i])
  }

  /**
   In every reachable state the invariant holds; in particular reading through the index
   is reading the plain map of all commits.
   */
  lemma {:induction false} RunKeepsInv(sum: Checksum, n: nat, states: seq<Wal>, steps: seq<Step>, i: nat)
    requires Run(sum, n, states, steps) && i < |states|
    ensures Inv(sum, n, states[i])
  {
    hide Inv, Init, Next;
    if i == 0 {
      InitImpliesInv(sum, n, states[0]);
    } else {
      RunKeepsInv(sum, n, states, steps, i - 1);
      assert Next(sum, n, states[i - 1], states[i - 1 + 1], steps[i - 1]);
      NextKeepsInv(sum, n, states[i - 1], states[i], steps[i - 1]);
    }
  }

  // ----- recovery -----

  /** The records of the first m shard files, one shard after the other. */
  function AllRecords(sum: Checksum, files: seq<ByteString>, m: nat): seq<LogRecord>
    requires m <= |files|
  {
    if m == 0 then [] else AllRecords(sum, files, m - 1) + ParseShard(sum, files[m - 1], 0)
  }

  predicate Sorted(rs: seq<LogRecord>) {
    forall i, j :: 0 <= i < j < |rs| ==> rs[i].seqno <= rs[j].seqno
  }

  function ReplayRecords(rs: seq<LogRecord>, n: nat): Index
    requires n >= 1
  {
    if rs == [] then map[]
    else
      var r := rs[|rs| - 1];
      ReplayEntries(ReplayRecords(rs[..|rs| - 1], n), r.entries, ShardOf(r.seqno, n))
  }

  /** Each file is cut somewhere at or after its last completed fsync. */
  ghost predicate Crash(w: Wal, cuts: seq<nat>) {
    |cuts| == |w.shards| && forall i :: 0 <= i < |cuts| ==> w.shards[i].synced <= cuts[i] <= |w.shards[i].file|
  }

  function Left(w: Wal, cuts: seq<nat>): (fs: seq<ByteString>)
    requires |cuts| == |w.shards| && forall i :: 0 <= i < |cuts| ==> cuts[i] <= |w.shards[i].file|
    ensures |fs| == |cuts|
  {
    seq(|cuts|, i requires 0 <= i < |cuts| => w.shards[i].file[..cuts[i]])
  }

  /** The records recovered from shard i. */
  function Kept(sum: Checksum, w: Wal, cuts: seq<nat>, i: nat): seq<LogRecord>
    requires i < |w.shards| == |cuts|
  {
    Replayed(sum, w.shards[i].log)[..Whole(sum, w.shards[i].log, cuts[i])]
  }

  /** Commit k of the history is among the recovered. */
  predicate Survives(sum: Checksum, n: nat, w: Wal, cuts: seq<nat>, k: nat)
    requires 1 <= n == |w.shards| == |cuts|
  {
    Round(k, n) < |Kept(sum, w, cuts, Turn(k, n))|
  }

  function Survivor(sum: Checksum, n: nat, w: Wal, cuts: seq<nat>, k: nat): LogRecord
    requires 1 <= n == |w.shards| == |cuts| && Survives(sum, n, w, cuts, k)
  {
    Kept(sum, w, cuts, Turn(k, n))[Round(k, n)]
  }

  /** The surviving commits among the first m, in commit order. */
  function SurvivingOps(sum: Checksum, n: nat, w: Wal, cuts: seq<nat>, m: nat): seq<seq<Op>>
    requires 1 <= n == |w.shards| == |cuts| && m <= |w.history|
  {
    if m == 0 then []
    else SurvivingOps(sum, n, w, cuts, m - 1) + if Survives(sum, n, w, cuts, m - 1) then [w.history[m - 1]] else []
  }

  function SurvivingRecords(sum: Checksum, n: nat, w: Wal, cuts: seq<nat>, m: nat): seq<LogRecord>
    requires 1 <= n == |w.shards| == |cuts|
  {
    if m == 0 then []
    else
      SurvivingRecords(sum, n, w, cuts, m - 1)
      + if Survives(sum, n, w, cuts, m - 1) then [Survivor(sum, n, w, cuts, m - 1)] else []
  }

  /** Where commit k of the history was written. */
  lemma {:induction false} ShareOfHistory(sum: Checksum, n: nat, w: Wal, k: nat)
    requires n >= 1 && SharesOk(sum, n, w.history, w.shards) && k < |w.history|
    ensures var log := w.shards[Turn(k, n)].log;
            Round(k, n) < |log| && log[Round(k, n)] == Commit(k + 1, w.history[k])
  {
    hide ShardOk;
    var i, j := Turn(k, n), Round(k, n);
    var sh := w.shards[i];
    assert ShareOk(sum, n, w.history, i, sh);
    if |sh.log| <= j {
      if |sh.log| < j {
        MultipleGap(|sh.log|, j, n);
      }
      assert false;
    }
    LogNumbers(sum, n, w.history, i, sh, j);
  }

  lemma LogNumbers(sum: Checksum, n: nat, history: seq<seq<Op>>, i: nat, sh: Shard, j: nat)
    requires ShareOk(sum, n, history, i, sh) && j < |sh.log| && i < n
    ensures sh.log[j].seqno == SeqOf(j, i, n) < U64_LIMIT && ShardOf(sh.log[j].seqno, n) == i
            && Round(sh.log[j].seqno - 1, n) == j
    ensures sh.log[j].seqno <= |history| && sh.log[j].ops == history[sh.log[j].seqno - 1]
  {
    hide FileOf, Written, Payload, RecordStart;
    assert Fits(sh.log[j].seqno, sh.log[j].ops);
    SequenceBijection(j, i, n);
  }

  /** Whatever the watermark covers survives. */
  lemma {:induction false} DurableSurvives(sum: Checksum, n: nat, w: Wal, cuts: seq<nat>, k: nat)
    requires Inv(sum, n, w) && Crash(w, cuts) && k < w.durable
    ensures k < |w.history| && Survives(sum, n, w, cuts, k)
  {
    hide RecordStart, ShardOk, Agrees, Replayed, Whole;
    var q := k + 1;
    var i := ShardOf(q, n);
    var sh := w.shards[i];
    assert q in w.marked && Written(sum, sh.log, q, sh.synced) && ShareOk(sum, n, w.history, i, sh);
    var j :| 0 <= j < |sh.log| && sh.log[j].seqno == q && RecordStart(sum, sh.log, j + 1) <= sh.synced;
    LogNumbers(sum, n, w.history, i, sh, j);
    hide *;
    WholeIsInside(sum, sh.log, cuts[i], j);
    KeptCount(sum, w, cuts, i);
    SmallShard(k, n);
    CrashCut(w, cuts, i);
    SurvivesIf(sum, n, w, cuts, k);
  }

  lemma SmallShard(k: nat, n: nat)
    requires n >= 1
    ensures k + 1 < U64_LIMIT ==> ShardOf(k + 1, n) == Turn(k, n)
  {
  }

  lemma CrashCut(w: Wal, cuts: seq<nat>, i: nat)
    requires Crash(w, cuts) && i < |cuts|
    ensures |cuts| == |w.shards| && w.shards[i].synced <= cuts[i] <= |w.shards[i].file|
  {
  }

  lemma KeptCount(sum: Checksum, w: Wal, cuts: seq<nat>, i: nat)
    requires i < |w.shards| == |cuts|
    ensures |Kept(sum, w, cuts, i)| == Whole(sum, w.shards[i].log, cuts[i]) <= |w.shards[i].log|
  {
    hide Replayed, RecordStart;
  }

  lemma SurvivesIf(sum: Checksum, n: nat, w: Wal, cuts: seq<nat>, k: nat)
    requires 1 <= n == |w.shards| == |cuts|
    ensures Survives(sum, n, w, cuts, k) <==> Round(k, n) < |Kept(sum, w, cuts, Turn(k, n))|
    ensures Survives(sum, n, w, cuts, k) ==> Survivor(sum, n, w, cuts, k) == Kept(sum, w, cuts, Turn(k, n))[Round(k, n)]
  {
    hide Kept;
  }

  // ----- the merged records are the survivors in commit order -----

  predicate Ascending(rs: seq<LogRecord>) {
    forall i, j :: 0 <= i < j < |rs| ==> rs[i].seqno < rs[j].seqno
  }

  function Times(rs: seq<LogRecord>, x: LogRecord): nat {
    multiset(rs)[x]
  }

  lemma {:induction false} AscendingTimes(rs: seq<LogRecord>, x: LogRecord)
    requires Ascending(rs)
    ensures Times(rs, x) == if x in rs then 1 else 0
  {
    if rs != [] {
      var front, last := rs[..|rs| - 1], rs[|rs| - 1];
      AscendingTimes(front, x);
      assert rs == front + [last];
      assert x in rs <==> x in front || x == last;
      assert last in front ==> last.seqno < last.seqno;
    }
  }

  /** What is recovered from shard i: its first records, each numbered for that shard. */
  lemma {:induction false} KeptAt(sum: Checksum, n: nat, w: Wal, cuts: seq<nat>, i: nat, j: nat)
    requires Inv(sum, n, w) && i < n == |w.shards| == |cuts| && j < |Kept(sum, w, cuts, i)|
    ensures j < |w.shards[i].log|
    ensures Kept(sum, w, cuts, i)[j] == LogRecord(w.shards[i].log[j].seqno,
              Entries(w.shards[i].log[j].ops, RecordStart(sum, w.shards[i].log, j)))
    ensures Kept(sum, w, cuts, i)[j].seqno == SeqOf(j, i, n) <= |w.history| && ShardOf(SeqOf(j, i, n), n) == i
            && Round(SeqOf(j, i, n) - 1, n) == j
  {
    hide *;
    var sh := w.shards[i];
    KeptCount(sum, w, cuts, i);
    InvShares(sum, n, w, i);
    InvShare(sum, n, w, i);
    LogNumbers(sum, n, w.history, i, sh, j);
    ReplayedAt(sum, sh.log, j);
    KeptIsReplayed(sum, w, cuts, i, j);
  }

  lemma InvShare(sum: Checksum, n: nat, w: Wal, i: nat)
    requires Inv(sum, n, w) && i < n == |w.shards|
    ensures ShareOk(sum, n, w.history, i, w.shards[i])
  {
    hide ShareOk, MarksOk, Agrees;
  }

  lemma KeptIsReplayed(sum: Checksum, w: Wal, cuts: seq<nat>, i: nat, j: nat)
    requires i < |w.shards| == |cuts| && j < |Kept(sum, w, cuts, i)|
    ensures j < |w.shards[i].log| && Kept(sum, w, cuts, i)[j] == Replayed(sum, w.shards[i].log)[j]
  {
    hide RecordStart, Entries;
  }

  lemma {:induction false} KeptAscends(sum: Checksum, n: nat, w: Wal, cuts: seq<nat>, i: nat)
    requires Inv(sum, n, w) && i < n == |w.shards| == |cuts|
    ensures Ascending(Kept(sum, w, cuts, i))
  {
    var rs := Kept(sum, w, cuts, i);
    hide Inv, Kept;
    forall a, b | 0 <= a < b < |rs| ensures rs[a].seqno < rs[b].seqno {
      KeptAt(sum, n, w, cuts, i, a);
      KeptAt(sum, n, w, cuts, i, b);
      MultipleGap(a, b, n);
    }
  }

  lemma {:induction false} KeptShard(sum: Checksum, n: nat, w: Wal, cuts: seq<nat>, i: nat, x: LogRecord)
    requires Inv(sum, n, w) && i < n == |w.shards| == |cuts| && x in Kept(sum, w, cuts, i)
    ensures ShardOf(x.seqno, n) == i
  {
    hide Inv, Kept;
    var j :| 0 <= j < |Kept(sum, w, cuts, i)| && Kept(sum, w, cuts, i)[j] == x;
    KeptAt(sum, n, w, cuts, i, j);
  }

  /** Replay of each cut file finds what was kept. */
  lemma {:induction false} ParsedIsKept(sum: Checksum, n: nat, w: Wal, cuts: seq<nat>, i: nat)
    requires Inv(sum, n, w) && Crash(w, cuts) && i < n
    ensures ParseShard(sum, Left(w, cuts)[i], 0) == Kept(sum, w, cuts, i)
  {
    var sh := w.shards[i];
    assert ShareOk(sum, n, w.history, i, sh);
    hide Inv, FileOf, ParseShard, Replayed, Whole, AllFit, Written;
    ReplayOfCutFile(sum, sh.log, cuts[i]);
  }

  /** A record is found once if its own shard kept it, and not otherwise. */
  lemma {:induction false} TimesInAll(sum: Checksum, n: nat, w: Wal, cuts: seq<nat>, m: nat, x: LogRecord)
    requires Inv(sum, n, w) && Crash(w, cuts) && m <= n
    ensures 1 <= n == |w.shards| == |cuts|
    ensures Times(AllRecords(sum, Left(w, cuts), m), x) ==
              if ShardOf(x.seqno, n) < m && x in Kept(sum, w, cuts, ShardOf(x.seqno, n)) then 1 else 0
  {
    hide Inv, ParseShard, Kept, Left, ShardOf, Times;
    Sizes(sum, n, w, cuts);
    if m == 0 {
      TimesNone(x);
    } else {
      var kept, all := Kept(sum, w, cuts, m - 1), AllRecords(sum, Left(w, cuts), m - 1);
      TimesInAll(sum, n, w, cuts, m - 1, x);
      ParsedIsKept(sum, n, w, cuts, m - 1);
      KeptAscends(sum, n, w, cuts, m - 1);
      AscendingTimes(kept, x);
      TimesConcat(all, kept, x);
      hide Ascending;
      if x in kept {
        KeptShard(sum, n, w, cuts, m - 1, x);
      }
    }
  }

  lemma Sizes(sum: Checksum, n: nat, w: Wal, cuts: seq<nat>)
    requires Inv(sum, n, w) && Crash(w, cuts)
    ensures 1 <= n == |w.shards| == |cuts|
  {
  }

  lemma TimesNone(x: LogRecord)
    ensures Times([], x) == 0
  {
  }

  lemma TimesConcat(a: seq<LogRecord>, b: seq<LogRecord>, x: LogRecord)
    ensures Times(a + b, x) == Times(a, x) + Times(b, x)
  {
  }

  predicate AscendingTo(rs: seq<LogRecord>, m: nat) {
    Ascending(rs) && forall i :: 0 <= i < |rs| ==> rs[i].seqno <= m
  }

  lemma {:induction false} SurvivorsAscend(sum: Checksum, n: nat, w: Wal, cuts: seq<nat>, m: nat)
    requires Inv(sum, n, w) && 1 <= n == |w.shards| == |cuts| && m <= |w.history|
    ensures AscendingTo(SurvivingRecords(sum, n, w, cuts, m), m)
  {
    hide Inv, Kept, SeqOf, AscendingTo;
    if m == 0 {
      NothingAscends();
    } else {
      var front := SurvivingRecords(sum, n, w, cuts, m - 1);
      SurvivorsAscend(sum, n, w, cuts, m - 1);
      if Survives(sum, n, w, cuts, m - 1) {
        KeptAt(sum, n, w, cuts, Turn(m - 1, n), Round(m - 1, n));
        SequenceIsCommit(m - 1, n);
        AscendsOneMore(front, Survivor(sum, n, w, cuts, m - 1), m);
      } else {
        assert SurvivingRecords(sum, n, w, cuts, m) == front;
        AscendsFurther(front, m);
      }
    }
  }

  lemma NothingAscends()
    ensures AscendingTo([], 0)
  {
  }

  lemma AscendsOneMore(rs: seq<LogRecord>, x: LogRecord, m: nat)
    requires m > 0 && AscendingTo(rs, m - 1) && x.seqno == m
    ensures AscendingTo(rs + [x], m)
  {
  }

  lemma AscendsFurther(rs: seq<LogRecord>, m: nat)
    requires m > 0 && AscendingTo(rs, m - 1)
    ensures AscendingTo(rs, m)
  {
  }

  lemma SequenceIsCommit(k: nat, n: nat)
    requires n >= 1
    ensures SeqOf(Round(k, n), Turn(k, n), n) == k + 1
  {
  }

  /** A record is among the survivors exactly when its shard kept it. */
  lemma {:induction false} SurvivorIsKept(sum: Checksum, n: nat, w: Wal, cuts: seq<nat>, m: nat, x: LogRecord)
    requires Inv(sum, n, w) && 1 <= n == |w.shards| == |cuts| && m <= |w.history|
    ensures x in SurvivingRecords(sum, n, w, cuts, m) <==> x in Kept(sum, w, cuts, ShardOf(x.seqno, n)) && x.seqno <= m
  {
    hide Inv, Kept, ShardOf, SeqOf;
    if m == 0 {
      if x in Kept(sum, w, cuts, ShardOf(x.seqno, n)) {
        KeptIsPositive(sum, n, w, cuts, x);
      }
    } else {
      SurvivorIsKept(sum, n, w, cuts, m - 1, x);
      LastSurvivor(sum, n, w, cuts, m - 1, x);
    }
  }

  lemma KeptIsPositive(sum: Checksum, n: nat, w: Wal, cuts: seq<nat>, x: LogRecord)
    requires Inv(sum, n, w) && 1 <= n == |w.shards| == |cuts| && x in Kept(sum, w, cuts, ShardOf(x.seqno, n))
    ensures x.seqno >= 1
  {
    var i := ShardOf(x.seqno, n);
    hide Inv, Kept, ShardOf;
    var j :| 0 <= j < |Kept(sum, w, cuts, i)| && Kept(sum, w, cuts, i)[j] == x;
    KeptAt(sum, n, w, cuts, i, j);
  }

  lemma {:induction false} LastSurvivor(sum: Checksum, n: nat, w: Wal, cuts: seq<nat>, k: nat, x: LogRecord)
    requires Inv(sum, n, w) && 1 <= n == |w.shards| == |cuts| && k < |w.history|
    ensures x.seqno == k + 1 && x in Kept(sum, w, cuts, ShardOf(x.seqno, n)) <==>
              Survives(sum, n, w, cuts, k) && x == Survivor(sum, n, w, cuts, k)
  {
    hide *;
    SurvivesIf(sum, n, w, cuts, k);
    if x.seqno == k + 1 && x in Kept(sum, w, cuts, ShardOf(x.seqno, n)) {
      KeptSurvives(sum, n, w, cuts, k, x);
    }
    if Survives(sum, n, w, cuts, k) {
      KeptNumber(sum, n, w, cuts, Turn(k, n), Round(k, n));
      SequenceIsCommit(k, n);
    }
  }

  lemma KeptNumber(sum: Checksum, n: nat, w: Wal, cuts: seq<nat>, i: nat, j: nat)
    requires Inv(sum, n, w) && i < n == |w.shards| == |cuts| && j < |Kept(sum, w, cuts, i)|
    ensures Kept(sum, w, cuts, i)[j].seqno == SeqOf(j, i, n) && ShardOf(SeqOf(j, i, n), n) == i
  {
    hide *;
    KeptAt(sum, n, w, cuts, i, j);
  }

  lemma {:induction false} KeptSurvives(sum: Checksum, n: nat, w: Wal, cuts: seq<nat>, k: nat, x: LogRecord)
    requires Inv(sum, n, w) && 1 <= n == |w.shards| == |cuts| && x.seqno == k + 1
             && x in Kept(sum, w, cuts, ShardOf(x.seqno, n))
    ensures Survives(sum, n, w, cuts, k) && x == Survivor(sum, n, w, cuts, k)
  {
    hide *;
    var i := ShardOf(x.seqno, n);
    var j :| 0 <= j < |Kept(sum, w, cuts, i)| && Kept(sum, w, cuts, i)[j] == x;
    KeptNumber(sum, n, w, cuts, i, j);
    NumberGivesPlace(j, i, k, n);
    SurvivesIf(sum, n, w, cuts, k);
  }

  lemma NumberGivesPlace(j: nat, i: nat, k: nat, n: nat)
    requires i < n && SeqOf(j, i, n) == k + 1
    ensures i == Turn(k, n) && j == Round(k, n)
  {
    DivMod(j, n, i);
  }

  /** Sorting what the shards gave yields the survivors: there is only one ascending arrangement. */
  lemma {:induction false} SortedIsUnique(a: seq<LogRecord>, b: seq<LogRecord>)
    requires Sorted(a) && Ascending(b) && multiset(a) == multiset(b)
    ensures a == b
  {
    if b == [] {
      assert |a| == |multiset(a)|;
    } else {
      SameHead(a, b);
      hide Sorted, Ascending;
      HeadOff(a);
      HeadOff(b);
      SortedIsUnique(a[1..], b[1..]);
      assert a == [a[0]] + a[1..] && b == [b[0]] + b[1..];
    }
  }

  lemma HeadOff(a: seq<LogRecord>)
    requires a != []
    ensures multiset(a[1..]) == multiset(a) - multiset{a[0]}
    ensures Sorted(a) ==> Sorted(a[1..])
    ensures Ascending(a) ==> Ascending(a[1..])
  {
    assert a == [a[0]] + a[1..];
  }

  lemma SameHead(a: seq<LogRecord>, b: seq<LogRecord>)
    requires Sorted(a) && Ascending(b) && multiset(a) == multiset(b) && b != []
    ensures a != [] && a[0] == b[0]
  {
    assert b[0] in multiset(b) && b[0] in multiset(a);
    assert b[0] in a;
    assert a[0] in multiset(a) && a[0] in multiset(b);
    assert a[0] in b;
    hide Sorted, Ascending;
    SortedLeast(a, b[0]);
    AscendingLeast(b, a[0]);
  }

  lemma SortedLeast(a: seq<LogRecord>, x: LogRecord)
    requires Sorted(a) && x in a
    ensures a[0].seqno <= x.seqno
  {
  }

  lemma AscendingLeast(b: seq<LogRecord>, x: LogRecord)
    requires Ascending(b) && x in b
    ensures x == b[0] || b[0].seqno < x.seqno
  {
  }

  lemma {:induction false} MergedIsSurvivors(sum: Checksum, n: nat, w: Wal, cuts: seq<nat>, sorted: seq<LogRecord>)
    requires Inv(sum, n, w) && Crash(w, cuts)
    requires Sorted(sorted) && multiset(sorted) == multiset(AllRecords(sum, Left(w, cuts), n))
    ensures n == |w.shards| == |cuts| && sorted == SurvivingRecords(sum, n, w, cuts, |w.history|)
  {
    assert n == |w.shards| == |cuts|;
    var rs := SurvivingRecords(sum, n, w, cuts, |w.history|);
    hide Inv, Crash, Left, Kept, ShardOf, SurvivingRecords, AllRecords;
    SurvivorsAscend(sum, n, w, cuts, |w.history|);
    forall x: LogRecord ensures multiset(sorted)[x] == multiset(rs)[x] {
      TimesInAll(sum, n, w, cuts, n, x);
      AscendingTimes(rs, x);
      SurvivorIsKept(sum, n, w, cuts, |w.history|, x);
      if x in Kept(sum, w, cuts, ShardOf(x.seqno, n)) {
        KeptIsOfHistory(sum, n, w, cuts, x);
      }
    }
    assert multiset(sorted) == multiset(rs);
    SortedIsUnique(sorted, rs);
  }

  lemma KeptIsOfHistory(sum: Checksum, n: nat, w: Wal, cuts: seq<nat>, x: LogRecord)
    requires Inv(sum, n, w) && 1 <= n == |w.shards| == |cuts| && x in Kept(sum, w, cuts, ShardOf(x.seqno, n))
    ensures x.seqno <= |w.history|
  {
    var i := ShardOf(x.seqno, n);
    hide Inv, Kept, ShardOf;
    var j :| 0 <= j < |Kept(sum, w, cuts, i)| && Kept(sum, w, cuts, i)[j] == x;
    KeptAt(sum, n, w, cuts, i, j);
  }

  // ----- the rebuilt store -----

  /** A surviving commit's values are in what is left of its file. */
  lemma {:induction false} SurvivorValues(sum: Checksum, n: nat, w: Wal, cuts: seq<nat>, k: nat, p: nat)
    requires Inv(sum, n, w) && Crash(w, cuts) && 1 <= n == |w.shards| == |cuts| && k < |w.history|
             && Survives(sum, n, w, cuts, k)
    ensures Describes(w.history[k], Survivor(sum, n, w, cuts, k).entries)
            && ShardOf(Survivor(sum, n, w, cuts, k).seqno, n) == Turn(k, n)
    ensures p < |w.history[k]| && !w.history[k][p].del ==>
              Holds(Left(w, cuts), Loc(Turn(k, n), Survivor(sum, n, w, cuts, k).entries[p].fileOff,
                    Survivor(sum, n, w, cuts, k).entries[p].n), w.history[k][p].val)
  {
    hide *;
    var i, j := Turn(k, n), Round(k, n);
    var sh, ops := w.shards[i], w.history[k];
    CrashCut(w, cuts, i);
    LeftAt(w, cuts, i);
    SurvivesIf(sum, n, w, cuts, k);
    KeptCount(sum, w, cuts, i);
    KeptAt(sum, n, w, cuts, i, j);
    InvShares(sum, n, w, i);
    ShareOfHistory(sum, n, w, k);
    var es := Entries(ops, RecordStart(sum, sh.log, j));
    EntriesDescribe(ops, RecordStart(sum, sh.log, j));
    if p < |ops| && !ops[p].del {
      ReplayedAt(sum, sh.log, j);
      OffsetsPointAtValues(sum, sh.log, j, p, es[p]);
      WholeIsInside(sum, sh.log, cuts[i], j);
      CutHolds(Left(w, cuts), Loc(i, es[p].fileOff, es[p].n), sh.file, cuts[i], ops[p].val);
    }
  }

  lemma InvShares(sum: Checksum, n: nat, w: Wal, i: nat)
    requires Inv(sum, n, w) && i < n
    ensures SharesOk(sum, n, w.history, w.shards) && |w.shards| == n
    ensures w.shards[i].file == FileOf(sum, w.shards[i].log) && AllFit(w.shards[i].log)
  {
    hide FileOf, Written, MarksOk, Agrees, AllFit;
    assert ShareOk(sum, n, w.history, i, w.shards[i]);
  }

  lemma LeftAt(w: Wal, cuts: seq<nat>, i: nat)
    requires Crash(w, cuts) && i < |cuts|
    ensures Left.requires(w, cuts) && Left(w, cuts)[i] == w.shards[i].file[..cuts[i]]
  {
  }

  lemma EntriesDescribe(ops: seq<Op>, at: nat)
    ensures Describes(ops, Entries(ops, at))
  {
    hide ValueAt;
  }

  lemma CutHolds(files: seq<ByteString>, l: Loc, file: ByteString, cut: nat, v: ByteString)
    requires l.shard < |files| && cut <= |file| && files[l.shard] == file[..cut]
    requires 0 <= l.fileOff <= l.fileOff + l.n <= cut && file[l.fileOff..l.fileOff + l.n] == v
    ensures Holds(files, l, v)
  {
    assert file[..cut][l.fileOff..l.fileOff + l.n] == file[l.fileOff..l.fileOff + l.n];
  }

  /** Replaying the survivors builds the index of the surviving commits applied in commit order. */
  lemma {:induction false} ReplayAgrees(sum: Checksum, n: nat, w: Wal, cuts: seq<nat>, m: nat)
    requires Inv(sum, n, w) && Crash(w, cuts) && 1 <= n == |w.shards| == |cuts| && m <= |w.history|
    ensures Left.requires(w, cuts)
    ensures Agrees(Left(w, cuts), ReplayRecords(SurvivingRecords(sum, n, w, cuts, m), n),
              Plain(SurvivingOps(sum, n, w, cuts, m)))
  {
    hide *;
    CrashCut(w, cuts, 0);
    LeftAt(w, cuts, 0);
    if m == 0 {
      NothingAgrees(sum, n, w, cuts);
    } else {
      ReplayAgrees(sum, n, w, cuts, m - 1);
      SurvivorsStep(sum, n, w, cuts, m);
      if Survives(sum, n, w, cuts, m - 1) {
        SurvivorAgrees(sum, n, w, cuts, m - 1, SurvivingRecords(sum, n, w, cuts, m - 1),
            SurvivingOps(sum, n, w, cuts, m - 1));
      }
    }
  }

  lemma NothingAgrees(sum: Checksum, n: nat, w: Wal, cuts: seq<nat>)
    requires Crash(w, cuts) && 1 <= n == |w.shards| == |cuts|
    ensures Agrees(Left(w, cuts), ReplayRecords(SurvivingRecords(sum, n, w, cuts, 0), n),
              Plain(SurvivingOps(sum, n, w, cuts, 0)))
  {
  }

  lemma SurvivorsStep(sum: Checksum, n: nat, w: Wal, cuts: seq<nat>, m: nat)
    requires 1 <= n == |w.shards| == |cuts| && 0 < m <= |w.history|
    ensures SurvivingRecords(sum, n, w, cuts, m) == SurvivingRecords(sum, n, w, cuts, m - 1) + if Survives(sum, n, w,
              cuts, m - 1) then [Survivor(sum, n, w, cuts, m - 1)] else []
    ensures SurvivingOps(sum, n, w, cuts, m) == SurvivingOps(sum, n, w, cuts, m - 1) + if Survives(sum, n, w, cuts,
              m - 1) then [w.history[m - 1]] else []
    ensures !Survives(sum, n, w, cuts, m - 1) ==>
            SurvivingRecords(sum, n, w, cuts, m) == SurvivingRecords(sum, n, w, cuts, m - 1)
            && SurvivingOps(sum, n, w, cuts, m) == SurvivingOps(sum, n, w, cuts, m - 1)
  {
    hide Survives, Survivor;
  }

  lemma {:induction false} SurvivorAgrees(sum: Checksum, n: nat, w: Wal, cuts: seq<nat>, k: nat, rs: seq<LogRecord>,
          before: seq<seq<Op>>)
    requires Inv(sum, n, w) && Crash(w, cuts) && 1 <= n == |w.shards| == |cuts| && k < |w.history|
             && Survives(sum, n, w, cuts, k)
    requires Agrees(Left(w, cuts), ReplayRecords(rs, n), Plain(before))
    ensures Agrees(Left(w, cuts), ReplayRecords(rs + [Survivor(sum, n, w, cuts, k)], n), Plain(before + [w.history[k]]))
  {
    hide *;
    CrashCut(w, cuts, 0);
    LeftAt(w, cuts, 0);
    var r, ops, i, files := Survivor(sum, n, w, cuts, k), w.history[k], Turn(k, n), Left(w, cuts);
    SurvivorValues(sum, n, w, cuts, k, 0);
    OneMoreRecord(rs, r, n);
    OneMoreCommit(before, ops);
    Unextended(files);
    DescribesSize(ops, r.entries);
    forall p | 0 <= p < |ops| && !ops[p].del
      ensures Holds(files, Loc(i, r.entries[p].fileOff, r.entries[p].n), ops[p].val)
    {
      SurvivorValues(sum, n, w, cuts, k, p);
    }
    var tree := ReplayRecords(rs, n);
    var tree' := ReplayEntries(tree, r.entries, i);
    forall key ensures Find(tree', key) == IndexedAt(tree, i, ops, r.entries, key) {
      ReplayEntriesAt(tree, ops, r.entries, i, key);
    }
    CommitKeepsAgreement(files, files, tree, Plain(before), i, ops, r.entries, tree');
  }

  lemma OneMoreRecord(rs: seq<LogRecord>, r: LogRecord, n: nat)
    requires n >= 1
    ensures ReplayRecords(rs + [r], n) == ReplayEntries(ReplayRecords(rs, n), r.entries, ShardOf(r.seqno, n))
  {
    assert (rs + [r])[..|rs|] == rs;
  }

  lemma OneMoreCommit(history: seq<seq<Op>>, ops: seq<Op>)
    ensures Plain(history + [ops]) == ApplyOps(Plain(history), ops)
  {
    assert (history + [ops])[..|history|] == history;
  }

  lemma Unextended(files: seq<ByteString>)
    ensures WalStore.Extends(files, files)
  {
  }

  lemma DescribesSize(ops: seq<Op>, es: seq<Entry>)
    requires Describes(ops, es)
    ensures |es| == |ops|
  {
  }

  /** OpenPWALStore: decode every shard, derive the counters, sort by sequence number and replay into a fresh index. */
  method Reopen(sum: Checksum, n: nat, files: seq<ByteString>)
    returns (sorted: seq<LogRecord>, tree: Index, locals: seq<nat>, recovered: seq<nat>)
    requires 1 <= n == |files| < U64_LIMIT
    ensures Sorted(sorted) && multiset(sorted) == multiset(AllRecords(sum, files, n))
    ensures tree == ReplayRecords(sorted, n)
    ensures |locals| == n && forall i :: 0 <= i < n ==>
              var recs := ParseShard(sum, files[i], 0);
              locals[i] == if recs == [] then 0 else NextLocal(recs[|recs| - 1].seqno, i, n)
    ensures |recovered| == |AllRecords(sum, files, n)|
    ensures forall i :: 0 <= i < |recovered| ==> recovered[i] == AllRecords(sum, files, n)[i].seqno
  {
    hide ParseShard, NextLocal;
    var all: seq<LogRecord> := [];
    locals, recovered := [], [];
    var i := 0;
    while i < n
      invariant i <= n && |locals| == i && all == AllRecords(sum, files, i)
      invariant forall k :: 0 <= k < i ==>
                  var recs := ParseShard(sum, files[k], 0);
                  locals[k] == if recs == [] then 0 else NextLocal(recs[|recs| - 1].seqno, k, n)
      invariant |recovered| == |all| && forall k :: 0 <= k < |all| ==> recovered[k] == all[k].seqno
    {
      var recs := DecodeShard(sum, files[i]);
      all := all + recs;
      locals := locals + [if recs == [] then 0 else NextLocal(recs[|recs| - 1].seqno, i, n)];
      recovered := recovered + seq(|recs|, k requires 0 <= k < |recs| => recs[k].seqno);
      i := i + 1;
    }
    hide AllRecords;
    sorted := SortBySeq(all);
    tree := map[];
    i := 0;
    while i < |sorted|
      invariant i <= |sorted| && tree == ReplayRecords(sorted[..i], n)
    {
      var r := sorted[i];
      var shard := ShardOf(r.seqno, n);
      ghost var before := tree;
      var k := 0;
      while k < |r.entries|
        invariant k <= |r.entries| && tree == ReplayEntries(before, r.entries[..k], shard)
      {
        assert r.entries[..k + 1][..k] == r.entries[..k];
        var e := r.entries[k];
        tree := if e.del then tree - {e.key} else tree[e.key := Loc(shard, e.fileOff, e.n)];
        k := k + 1;
      }
      assert r.entries[..k] == r.entries;
      assert sorted[..i + 1] == sorted[..i] + [r];
      OneMoreRecord(sorted[..i], r, n);
      i := i + 1;
    }
    assert sorted[..|sorted|] == sorted;
  }

  /** Stands for sort.Slice by sequence number. */
  method SortBySeq(rs: seq<LogRecord>) returns (sorted: seq<LogRecord>)
    ensures Sorted(sorted) && multiset(sorted) == multiset(rs)
  {
    sorted := [];
    var i := 0;
    while i < |rs|
      invariant i <= |rs| && Sorted(sorted) && multiset(sorted) == multiset(rs[..i])
    {
      assert rs[..i + 1] == rs[..i] + [rs[i]];
      sorted := InsertBySeq(sorted, rs[i]);
      i := i + 1;
    }
    assert rs[..|rs|] == rs;
  }

  method InsertBySeq(sorted: seq<LogRecord>, r: LogRecord) returns (s: seq<LogRecord>)
    requires Sorted(sorted)
    ensures Sorted(s) && multiset(s) == multiset(sorted) + multiset{r}
  {
    var k := |sorted|;
    while k > 0 && sorted[k - 1].seqno > r.seqno
      invariant 0 <= k <= |sorted|
      invariant forall x :: k <= x < |sorted| ==> sorted[x].seqno > r.seqno
    {
      k := k - 1;
    }
    InsertedAt(sorted, k, r);
    s := sorted[..k] + [r] + sorted[k..];
  }

  lemma InsertedAt(sorted: seq<LogRecord>, k: nat, r: LogRecord)
    requires Sorted(sorted) && k <= |sorted| && (k > 0 ==> sorted[k - 1].seqno <= r.seqno)
    requires forall x :: k <= x < |sorted| ==> sorted[x].seqno > r.seqno
    ensures Sorted(sorted[..k] + [r] + sorted[k..])
    ensures multiset(sorted[..k] + [r] + sorted[k..]) == multiset(sorted) + multiset{r}
  {
    assert forall x :: 0 <= x < k ==> sorted[x].seqno <= r.seqno;
    assert Sorted(sorted[..k]) && Sorted(sorted[k..]);
    hide Sorted;
    SortedJoin(sorted[..k], r, sorted[k..]);
    InsertedCount(sorted, k, r);
  }

  lemma InsertedCount(s: seq<LogRecord>, k: nat, r: LogRecord)
    requires k <= |s|
    ensures multiset(s[..k] + [r] + s[k..]) == multiset(s) + multiset{r}
  {
    assert s == s[..k] + s[k..];
  }

  lemma SortedJoin(a: seq<LogRecord>, r: LogRecord, b: seq<LogRecord>)
    requires Sorted(a) && Sorted(b)
    requires forall x :: 0 <= x < |a| ==> a[x].seqno <= r.seqno
    requires forall y :: 0 <= y < |b| ==> r.seqno < b[y].seqno
    ensures Sorted(a + [r] + b)
  {
  }

  /**
   Crash safety. After any run and any crash, every commit up to the durable
   watermark survives, and whatever order the replay finds the records in, the
   rebuilt index reads, through what is left of the files, exactly as the surviving
   commits applied in commit order.
   */
  lemma {:induction false} CrashSafety(sum: Checksum, n: nat, states: seq<Wal>, steps: seq<Step>, s: nat,
          cuts: seq<nat>, sorted: seq<LogRecord>)
    requires Run(sum, n, states, steps) && s < |states| && Crash(states[s], cuts) && n == |states[s].shards|
    requires Sorted(sorted) && multiset(sorted) == multiset(AllRecords(sum, Left(states[s], cuts), n))
    ensures 1 <= n == |cuts| && states[s].durable <= |states[s].history|
    ensures forall k :: 0 <= k < states[s].durable ==> Survives(sum, n, states[s], cuts, k)
    ensures Agrees(Left(states[s], cuts), ReplayRecords(sorted, n),
              Plain(SurvivingOps(sum, n, states[s], cuts, |states[s].history|)))
  {
    var w := states[s];
    RunKeepsInv(sum, n, states, steps, s);
    hide *;
    Sizes(sum, n, w, cuts);
    if w.durable > 0 {
      DurableSurvives(sum, n, w, cuts, w.durable - 1);
    }
    forall k | 0 <= k < w.durable ensures Survives(sum, n, w, cuts, k) {
      DurableSurvives(sum, n, w, cuts, k);
    }
    MergedIsSurvivors(sum, n, w, cuts, sorted);
    ReplayAgrees(sum, n, w, cuts, |w.history|);
  }

  /** The local counter recovered for a shard is past every sequence number recovered from it. */
  lemma {:induction false} NoReissue(sum: Checksum, n: nat, w: Wal, cuts: seq<nat>, i: nat, j: nat)
    requires Inv(sum, n, w) && Crash(w, cuts) && i < n == |w.shards| == |cuts| && j < |Kept(sum, w, cuts, i)|
    ensures var kept := Kept(sum, w, cuts, i);
            && NextLocal(kept[|kept| - 1].seqno, i, n) == |kept|
            && kept[j].seqno < SeqOf(NextLocal(kept[|kept| - 1].seqno, i, n), i, n)
  {
    hide Inv, Kept, Crash;
    var kept := Kept(sum, w, cuts, i);
    KeptAt(sum, n, w, cuts, i, |kept| - 1);
    KeptAt(sum, n, w, cuts, i, j);
    KeptFits(sum, n, w, i, |kept| - 1);
    SequenceBijection(|kept| - 1, i, n);
    MultipleGap(j, |kept|, n);
  }

  lemma KeptFits(sum: Checksum, n: nat, w: Wal, i: nat, j: nat)
    requires Inv(sum, n, w) && i < n == |w.shards| && j < |w.shards[i].log|
    ensures w.shards[i].log[j].seqno < U64_LIMIT
  {
    hide FileOf, Written, MarksOk, Agrees;
    assert ShareOk(sum, n, w.history, i, w.shards[i]);
    assert Fits(w.shards[i].log[j].seqno, w.shards[i].log[j].ops);
  }

  /** Seeding the watermark with what was recovered never reports less than was reported before the crash. */
  lemma {:induction false} WatermarkSurvives(sum: Checksum, n: nat, w: Wal, cuts: seq<nat>,
          recovered: set<nat>, value: nat)
    requires Inv(sum, n, w) && Crash(w, cuts)
    requires recovered == (set r | r in AllRecords(sum, Left(w, cuts), |cuts|) :: r.seqno)
             && IsWatermark(recovered, value)
    ensures w.durable <= value
  {
    hide Inv, Left, AllRecords, Kept, ShardOf, Turn, Round, SeqOf;
    Sizes(sum, n, w, cuts);
    forall x: nat | 1 <= x <= w.durable ensures x in recovered {
      DurableSurvives(sum, n, w, cuts, x - 1);
      SurvivesIf(sum, n, w, cuts, x - 1);
      KeptNumber(sum, n, w, cuts, Turn(x - 1, n), Round(x - 1, n));
      SequenceIsCommit(x - 1, n);
      var r := Survivor(sum, n, w, cuts, x - 1);
      TimesInAll(sum, n, w, cuts, n, r);
      assert r in AllRecords(sum, Left(w, cuts), n) && r.seqno == x;
    }
    WatermarkIsLargest(recovered, value, w.durable);
  }
}
