/**
 The in-memory window of recently published records. Whatever it serves is what a
 scan of the store would have returned, in every state that publishing, resets,
 gaps and evictions can lead to.
 */
module LiveCache {
  import opened Bytes
  import opened Appends
  import opened Reads

  datatype CachedRecord = CachedRecord(seqno: nat, payload: ByteString)

  predicate Contiguous(recs: seq<CachedRecord>) {
    forall i :: 0 <= i < |recs| ==> recs[i].seqno == recs[0].seqno + i
  }

  function Weight(recs: seq<CachedRecord>): nat {
    if recs == [] then 0 else |recs[0].payload| + Weight(recs[1..])
  }

  function Run(first: nat, payloads: seq<ByteString>): (recs: seq<CachedRecord>)
    ensures |recs| == |payloads|
  {
    seq(|payloads|, i requires 0 <= i < |payloads| => CachedRecord(first + i, payloads[i]))
  }

  /** The window before eviction: a gap drops what was there. */
  function Appended(recs: seq<CachedRecord>, first: nat, payloads: seq<ByteString>): seq<CachedRecord> {
    if recs != [] && first != recs[|recs| - 1].seqno + 1 then Run(first, payloads) else recs + Run(first, payloads)
  }

  predicate WithinBounds(recs: seq<CachedRecord>, maxRecs: int, maxBytes: int) {
    |recs| <= 1 || (|recs| <= maxRecs && Weight(recs) <= maxBytes)
  }

  lemma {:induction false} WeightSplit(a: seq<CachedRecord>, b: seq<CachedRecord>)
    ensures Weight(a + b) == Weight(a) + Weight(b)
  {
    if a == [] {
      assert a + b == b;
    } else {
      WeightSplit(a[1..], b);
      assert (a + b)[1..] == a[1..] + b;
    }
  }

  lemma WeightDrop(recs: seq<CachedRecord>, k: nat)
    requires k < |recs|
    ensures Weight(recs[k..]) == |recs[k].payload| + Weight(recs[k + 1..])
  {
    assert recs[k..][1..] == recs[k + 1..];
  }

  lemma NoRun(first: nat, payloads: seq<ByteString>)
    ensures Run(first, payloads[..0]) == [] && Weight([]) == 0
  {
  }

  lemma RunOneMore(kept: seq<CachedRecord>, first: nat, payloads: seq<ByteString>, i: nat)
    requires i < |payloads|
    ensures var before, one := kept + Run(first, payloads[..i]), [CachedRecord(first + i, payloads[i])];
            before + one == kept + Run(first, payloads[..i + 1])
              && Weight(before + one) == Weight(before) + |payloads[i]|
  {
    var before, one := kept + Run(first, payloads[..i]), [CachedRecord(first + i, payloads[i])];
    WeightSplit(before, one);
    assert one[1..] == [];
    assert Run(first, payloads[..i]) + one == Run(first, payloads[..i + 1]);
  }

  lemma RunIsContiguous(kept: seq<CachedRecord>, first: nat, payloads: seq<ByteString>)
    requires Contiguous(kept) && (kept != [] ==> first == kept[|kept| - 1].seqno + 1)
    ensures Contiguous(kept + Run(first, payloads))
  {
    var run := Run(first, payloads);
    assert kept != [] ==> kept[|kept| - 1].seqno == kept[0].seqno + (|kept| - 1);
  }

  class LiveCache {
    var recs: seq<CachedRecord>
    var curBytes: int
    const maxRecs: int
    const maxBytes: int

    ghost predicate Valid()
      reads this
    {
      Contiguous(recs) && curBytes == Weight(recs)
    }

    constructor (maxRecs: int, maxBytes: int)
      ensures Valid() && recs == [] && this.maxRecs == maxRecs && this.maxBytes == maxBytes
    {
      this.maxRecs, this.maxBytes := maxRecs, maxBytes;
      recs, curBytes := [], 0;
    }

    /** The oldest records go until the bounds hold, but never the last one; no more go than must. */
    method Append(firstSeq: nat, payloads: seq<ByteString>)
      requires Valid()
      modifies this
      ensures Valid()
      ensures payloads == [] ==> recs == old(recs)
      ensures payloads != [] ==>
                var all := Appended(old(recs), firstSeq, payloads);
                exists drop :: 0 <= drop < |all| && recs == all[drop..] && WithinBounds(recs, maxRecs, maxBytes)
                               && (drop > 0 ==> !WithinBounds(all[drop - 1..], maxRecs, maxBytes))
    {
      if |payloads| == 0 {
        return;
      }
      ghost var all := Appended(recs, firstSeq, payloads);
      Extend(firstSeq, payloads);
      var drop := 0;
      while |recs| - drop > 1 && (|recs| - drop > maxRecs || curBytes > maxBytes)
        invariant 0 <= drop < |recs| && recs == all && Contiguous(recs)
        invariant curBytes == Weight(recs[drop..])
        invariant drop > 0 ==> !WithinBounds(all[drop - 1..], maxRecs, maxBytes)
        decreases |recs| - drop
      {
        WeightDrop(recs, drop);
        curBytes := curBytes - |recs[drop].payload|;
        drop := drop + 1;
      }
      assert WithinBounds(all[drop..], maxRecs, maxBytes);
      if drop > 0 {
        recs := recs[drop..];
      } else {
        assert all[0..] == all;
      }
    }

    /** The loop that appends the new run, after dropping the window at a gap. */
    method Extend(firstSeq: nat, payloads: seq<ByteString>)
      requires Valid() && payloads != []
      modifies this
      ensures Valid() && recs == Appended(old(recs), firstSeq, payloads)
    {
      hide Weight, Run;
      NoRun(firstSeq, payloads);
      if |recs| > 0 && firstSeq != recs[|recs| - 1].seqno + 1 {
        recs, curBytes := [], 0;
      }
      ghost var kept := recs;
      var i := 0;
      while i < |payloads|
        invariant i <= |payloads|
        invariant recs == kept + Run(firstSeq, payloads[..i]) && curBytes == Weight(recs)
      {
        RunOneMore(kept, firstSeq, payloads, i);
        recs := recs + [CachedRecord(firstSeq + i, payloads[i])];
        curBytes := curBytes + |payloads[i]|;
        i := i + 1;
      }
      assert payloads[..i] == payloads;
      assert [] + Run(firstSeq, payloads) == Run(firstSeq, payloads);
      RunIsContiguous(kept, firstSeq, payloads);
    }

    method Reset()
      requires Valid()
      modifies this
      ensures Valid() && recs == []
    {
      recs, curBytes := [], 0;
    }

    /** What the cache serves is what a read of any log that its records agree with returns. */
    method TryRead(json: bool, start: Offset, tail: nat, limit: nat, ghost log: seq<ByteString>)
      returns (r: Option<ReadResult>)
      requires Valid() && Agrees(recs, log) && tail <= |log|
      ensures r.Some? ==> r.value == ReadLog(log, json, start, tail, limit)
      ensures r.Some? <==> Serves(recs, log, start, tail, limit)
    {
      hide ReadLog, WrapArray, Flat, Size, Weight;
      if start.byte != 0 || start.seqno >= tail {
        return None;
      }
      var n := |recs|;
      if n == 0 {
        return None;
      }
      var lo := recs[0].seqno;
      var hi := recs[n - 1].seqno + 1;
      if start.seqno < lo || tail > hi {
        return None;
      }
      var from := start.seqno - lo;
      var to := tail - lo;
      if from < 0 || to > n || from >= to {
        return None;
      }
      Covered(recs, log, from, to);
      hide Agrees, Contiguous;
      var total := Total(from, to, log);
      if total >= limit {
        return None;
      }
      UnderLimit(log, json, start, tail, limit);
      var dst;
      if json {
        dst := AssembleArray(from, to, log);
      } else {
        dst := AssembleBytes(from, to, log);
      }
      return Some(ReadResult(dst, Offset(tail, 0), true));
    }

    method Total(from: nat, to: nat, ghost log: seq<ByteString>) returns (total: nat)
      requires from < to <= |recs| && recs[0].seqno + to <= |log|
      requires forall i :: from <= i < to ==> recs[i].payload == log[recs[0].seqno + i]
      ensures total == Size(log[recs[0].seqno + from..recs[0].seqno + to])
    {
      ghost var lo := recs[0].seqno;
      total := 0;
      var i := from;
      while i < to
        invariant from <= i <= to
        invariant total == Size(log[lo + from..lo + i])
      {
        SizeOneMore(log, lo + from, lo + i);
        total := total + |recs[i].payload|;
        i := i + 1;
      }
    }

    method AssembleArray(from: nat, to: nat, ghost log: seq<ByteString>) returns (dst: ByteString)
      requires from < to <= |recs| && recs[0].seqno + to <= |log|
      requires forall i :: from <= i < to ==> recs[i].payload == log[recs[0].seqno + i]
      ensures dst == WrapArray(log[recs[0].seqno + from..recs[0].seqno + to])
    {
      hide Commas;
      ghost var lo := recs[0].seqno;
      NoCommas(log, lo + from);
      dst := [91];
      var i := from;
      while i < to
        invariant from <= i <= to
        invariant dst == [91] + Commas(log[lo + from..lo + i])
      {
        CommasOneMore(log, lo + from, lo + i);
        if i > from {
          dst := dst + [44];
        }
        dst := dst + recs[i].payload;
        i := i + 1;
      }
      dst := dst + [93];
    }

    method AssembleBytes(from: nat, to: nat, ghost log: seq<ByteString>) returns (dst: ByteString)
      requires from < to <= |recs| && recs[0].seqno + to <= |log|
      requires forall i :: from <= i < to ==> recs[i].payload == log[recs[0].seqno + i]
      ensures dst == Flat(log[recs[0].seqno + from..recs[0].seqno + to])
    {
      ghost var lo := recs[0].seqno;
      dst := [];
      var i := from;
      while i < to
        invariant from <= i <= to
        invariant dst == Flat(log[lo + from..lo + i])
      {
        OneMore(log, lo + from, lo + i);
        dst := dst + recs[i].payload;
        i := i + 1;
      }
    }
  }

  /** Every cached record is the one the log holds at its sequence number. */
  ghost predicate Agrees(recs: seq<CachedRecord>, log: seq<ByteString>) {
    forall i :: 0 <= i < |recs| ==> recs[i].seqno < |log| && recs[i].payload == log[recs[i].seqno]
  }

  /** Exactly the reads the cache takes: whole records, all in the window, strictly under the limit. */
  ghost predicate Serves(recs: seq<CachedRecord>, log: seq<ByteString>, start: Offset, tail: nat, limit: nat)
    requires tail <= |log|
  {
    && start.byte == 0 && start.seqno < tail
    && recs != [] && recs[0].seqno <= start.seqno && tail <= recs[0].seqno + |recs|
    && Size(log[start.seqno..tail]) < limit
  }

  lemma Covered(recs: seq<CachedRecord>, log: seq<ByteString>, from: nat, to: nat)
    requires Contiguous(recs) && Agrees(recs, log) && from < to <= |recs|
    ensures recs[0].seqno + to <= |log|
    ensures forall i :: from <= i < to ==> recs[i].payload == log[recs[0].seqno + i]
  {
    assert recs[to - 1].seqno == recs[0].seqno + (to - 1);
    forall i | from <= i < to ensures recs[i].payload == log[recs[0].seqno + i] {
      assert recs[i].seqno == recs[0].seqno + i;
    }
  }

  lemma OneMore(log: seq<ByteString>, a: nat, b: nat)
    requires a <= b < |log|
    ensures Flat(log[a..b + 1]) == Flat(log[a..b]) + log[b]
  {
    assert log[a..b + 1][..b - a] == log[a..b];
  }

  lemma SizeOneMore(log: seq<ByteString>, a: nat, b: nat)
    requires a <= b < |log|
    ensures Size(log[a..b + 1]) == Size(log[a..b]) + |log[b]|
  {
    OneMore(log, a, b);
  }

  lemma NoCommas(log: seq<ByteString>, a: nat)
    requires a <= |log|
    ensures [91] + Commas(log[a..a]) == [91]
  {
  }

  lemma CommasOneMore(log: seq<ByteString>, a: nat, b: nat)
    requires a <= b < |log|
    ensures Commas(log[a..b + 1]) == (if a == b then [] else Commas(log[a..b]) + [44]) + log[b]
  {
    assert log[a..b + 1][..b - a] == log[a..b];
  }

  lemma UnderLimit(log: seq<ByteString>, json: bool, start: Offset, tail: nat, limit: nat)
    requires start.byte == 0 && start.seqno < tail <= |log| && Size(log[start.seqno..tail]) < limit
    ensures var all := log[start.seqno..tail];
            ReadLog(log, json, start, tail, limit) == ReadResult(if json then WrapArray(all) else Flat(all),
                Offset(tail, 0), true)
  {
    hide TakeBytes, TakeMessages, Size, Flat;
    if json {
      UnderLimitTakesAllMessages(log, start.seqno, tail, 0, 0, limit);
    } else {
      UnderLimitTakesAll(log, start.seqno, tail, limit);
    }
  }

  // ----- every reachable window agrees with the log -----

  /**
   A published burst: its records, whether live readers were counted when it was
   planned (so that its payloads were captured) and when it was published.
   */
  datatype Publish = Publish(records: seq<ByteString>, readersAtPlan: bool, readersAtPublish: bool)

  datatype Cached = Cached(recs: seq<CachedRecord>, log: seq<ByteString>)

  /** applyReader's cache step, followed by the tail advance; eviction may drop any number of old records. */
  ghost predicate Publishes(c: Cached, c': Cached, p: Publish) {
    && c'.log == c.log + p.records
    && if !p.readersAtPublish then c'.recs == []
       else if !p.readersAtPlan || p.records == [] then c'.recs == c.recs
       else
         var all := Appended(c.recs, |c.log|, p.records);
         exists drop :: 0 <= drop < |all| && c'.recs == all[drop..]
  }

  lemma RunAgrees(log: seq<ByteString>, records: seq<ByteString>)
    ensures Agrees(Run(|log|, records), log + records)
  {
  }

  lemma AgreesStays(recs: seq<CachedRecord>, log: seq<ByteString>, records: seq<ByteString>)
    requires Agrees(recs, log)
    ensures Agrees(recs, log + records)
  {
  }

  lemma AppendedAgrees(recs: seq<CachedRecord>, log: seq<ByteString>, records: seq<ByteString>)
    requires Contiguous(recs) && Agrees(recs, log)
    ensures var all := Appended(recs, |log|, records); Contiguous(all) && Agrees(all, log + records)
  {
    hide Run, Agrees;
    RunAgrees(log, records);
    AgreesStays(recs, log, records);
    AgreesJoin(recs, Run(|log|, records), log + records);
    if recs != [] && |log| != recs[|recs| - 1].seqno + 1 {
      RunIsContiguous([], |log|, records);
      assert [] + Run(|log|, records) == Run(|log|, records);
    } else {
      RunIsContiguous(recs, |log|, records);
    }
  }

  lemma AgreesJoin(a: seq<CachedRecord>, b: seq<CachedRecord>, log: seq<ByteString>)
    requires Agrees(a, log) && Agrees(b, log)
    ensures Agrees(a + b, log)
  {
  }

  lemma DroppedAgrees(all: seq<CachedRecord>, log: seq<ByteString>, drop: nat)
    requires Contiguous(all) && Agrees(all, log) && drop < |all|
    ensures Contiguous(all[drop..]) && Agrees(all[drop..], log)
  {
    assert forall i :: 0 <= i < |all| - drop ==> all[drop..][i] == all[drop + i];
  }

  lemma PublishKeepsAgreement(c: Cached, c': Cached, p: Publish)
    requires Publishes(c, c', p) && Contiguous(c.recs) && Agrees(c.recs, c.log)
    ensures Contiguous(c'.recs) && Agrees(c'.recs, c'.log)
  {
    if p.readersAtPublish && p.readersAtPlan && p.records != [] {
      hide Contiguous, Agrees;
      var all := Appended(c.recs, |c.log|, p.records);
      AppendedAgrees(c.recs, c.log, p.records);
      var drop :| 0 <= drop < |all| && c'.recs == all[drop..];
      DroppedAgrees(all, c'.log, drop);
    }
  }

  /**
   Cache refines store: after any sequence of published bursts, with readers coming
   and going, the window agrees with the stream's log, so that every read it serves
   is the store's.
   */
  lemma {:induction false} CacheAgreesWithLog(states: seq<Cached>, ps: seq<Publish>, i: nat)
    requires |states| == |ps| + 1 && states[0].recs == []
    requires forall k :: 0 <= k < |ps| ==> Publishes(states[k], states[k + 1], ps[k])
    requires i < |states|
    ensures Contiguous(states[i].recs) && Agrees(states[i].recs, states[i].log)
  {
    if i > 0 {
      hide Publishes, Contiguous, Agrees;
      CacheAgreesWithLog(states, ps, i - 1);
      assert Publishes(states[i - 1], states[i - 1 + 1], ps[i - 1]);
      PublishKeepsAgreement(states[i - 1], states[i], ps[i - 1]);
    }
  }
}
