/**
 What forks and their sources look like to readers over whole runs: every existing
 stream is readable from 0 to its tail, and a new fork is exactly its source up to
 the divergence point followed by its own records.
 */
module ForkViews {
  import opened Bytes
  import opened Store
  import opened Appends
  import opened Reads
  import opened Forks
  import opened Lifecycle

  /** A stream's tail is at or past its divergence point, and a reader finds every record below it. */
  ghost predicate CompleteAt(s: Keyspace, m: StreamMeta) {
    && m.forkOffset <= TailAt(s, m.id)
    && forall q: nat :: q < TailAt(s, m.id) ==> SeenAt(s, m.id, m.forkedFrom, m.forkOffset, q).Some?
  }

  ghost predicate Complete(s: Keyspace) {
    forall p :: MetaAt(s, p).Some? ==> CompleteAt(s, MetaAt(s, p).value)
  }

  /** Streams that exist before and after a step have every record the tail has moved past. */
  ghost predicate Grown(s: Keyspace, t: Keyspace, path: ByteString) {
    MetaAt(s, path).Some? && MetaAt(t, path).Some? ==>
      var id := MetaAt(s, path).value.id;
      && TailAt(s, id) <= TailAt(t, id)
      && forall q: nat :: TailAt(s, id) <= q < TailAt(t, id) ==> RecordAt(t, id, q).Some?
  }

  lemma {:induction false} AppendGrows(l: Life, l': Life, path: ByteString, e: Effects, now: nat, p: ByteString)
    requires Registered(l.store) && AppendsTo(l, l', path, e, now)
    ensures Grown(l.store, l'.store, p)
  {
    var s, t, m := l.store, l'.store, MetaAt(l.store, path).value;
    var base := TailAt(s, m.id);
    hide Registered, BatchOf, Apply, TailAt, RecordAt;
    AppendIsQuiet(l, l', path, e, now);
    if MetaAt(s, p).Some? && MetaAt(t, p).Some? {
      var id := MetaAt(s, p).value.id;
      RegisteredAt(s, p);
      RegisteredAt(s, path);
      TailAfterAppend(s, path, m, e, now, id);
      forall q: nat | TailAt(s, id) <= q < TailAt(t, id) ensures RecordAt(t, id, q).Some? {
        RecordAfterAppend(s, path, m, e, now, q);
      }
    }
  }

  lemma TailAfterAppend(s: Keyspace, path: ByteString, m: StreamMeta, e: Effects, now: nat, id: nat)
    ensures var t := Apply(s, BatchOf(path, m, TailAt(s, m.id), e, now));
            id != m.id ==> TailAt(t, id) == TailAt(s, id)
    ensures TailAt(Apply(s, BatchOf(path, m, TailAt(s, m.id), e, now)), m.id) == TailAt(s, m.id) + |e.records|
  {
    BatchOfAt(s, path, m, TailAt(s, m.id), e, now, Tail(id));
    BatchOfAt(s, path, m, TailAt(s, m.id), e, now, Tail(m.id));
  }

  lemma RecordAfterAppend(s: Keyspace, path: ByteString, m: StreamMeta, e: Effects, now: nat, q: nat)
    requires TailAt(s, m.id) <= q < TailAt(s, m.id) + |e.records|
    ensures RecordAt(Apply(s, BatchOf(path, m, TailAt(s, m.id), e, now)), m.id, q)
            == Some(e.records[q - TailAt(s, m.id)])
  {
    hide BatchOf, Apply, TailAt;
    BatchOfAt(s, path, m, TailAt(s, m.id), e, now, Record(m.id, q));
    assert e != NoEffects(m);
  }

  lemma {:induction false} StepGrows(l: Life, l': Life, step: Step, p: ByteString)
    requires Inv(l) && Next(l, l', step)
    ensures Grown(l.store, l'.store, p)
  {
    match step {
      case CreateStep(path, m, records, now) =>
        CreateKeepsInv(l, l', path, m, records, now);
        BornGrows(l, l', path, m, 0, records, p);
      case ForkStep(fp, now) =>
        ForkKeepsInv(l, l', fp, now);
        var d := ForkDecision(l.store, fp);
        hide ForkDecision, ForkOwn, Next;
        BornGrows(l, l', fp.path, ForkMeta(l.store, fp, d.src, d.at, now), d.at.seqno,
            ForkOwn(l.store, fp, d.src, d.at), p);
      case HardDeleteStep(path) =>
        HardDeleteKeepsInv(l, l', path);
        DiedGrows(l, l', path, p);
      case DropStep =>
        DropKeepsInv(l, l');
        hide Inv, Next;
      case AppendStep(path, e, now) =>
        AppendGrows(l, l', path, e, now, p);
      case SoftDeleteStep(path) =>
        OnlyOther(l.store, map[Tombstone(path) := Some(TombstoneVal(true, MetaAt(l.store, path).value.id))], p);
      case ReclaimStep(id, b) =>
        OnlyOther(l.store, b, p);
      case CrashStep =>
    }
  }

  lemma OnlyOther(s: Keyspace, b: Batch, p: ByteString)
    requires forall k :: k in b ==> !k.Tail?
    ensures Grown(s, Apply(s, b), p)
  {
    hide Apply;
    if MetaAt(s, p).Some? {
      ApplyTail(s, b, MetaAt(s, p).value.id);
    }
  }

  lemma BornGrows(l: Life, l': Life, path: ByteString, m: StreamMeta, first: nat, own: seq<ByteString>, p: ByteString)
    requires Inv(l) && Born(l.store, l'.store, path, m, first, own)
    ensures Grown(l.store, l'.store, p)
  {
    if MetaAt(l.store, p).Some? {
      RegisteredAt(l.store, p);
      hide Inv;
    }
  }

  lemma DiedGrows(l: Life, l': Life, path: ByteString, p: ByteString)
    requires Inv(l) && MetaAt(l.store, path).Some? && Died(l.store, l'.store, path, MetaAt(l.store, path).value)
    ensures Grown(l.store, l'.store, p)
  {
    if MetaAt(l.store, p).Some? {
      RegisteredAt(l.store, p);
      RegisteredAt(l.store, path);
      hide Inv;
    }
  }

  /** A stream that existed before a step is complete after it. */
  lemma {:induction false} SurvivorIsComplete(l: Life, l': Life, step: Step, p: ByteString)
    requires Inv(l) && Next(l, l', step) && Complete(l.store) && Inv(l')
    requires MetaAt(l.store, p).Some? && MetaAt(l'.store, p).Some? && MetaAt(l.store, p).value.id != Removed(l, step)
    ensures CompleteAt(l'.store, MetaAt(l'.store, p).value)
  {
    var s, t, m := l.store, l'.store, MetaAt(l.store, p).value;
    StepKeeps(l, l', step);
    StepGrows(l, l', step, p);
    assert SameStream(MetaAt(s, p), MetaAt(t, p));
    assert CompleteAt(s, m);
    hide Next, ForksOf, Counted, Unused, Removed;
    forall q: nat | q < TailAt(t, m.id) ensures SeenAt(t, m.id, m.forkedFrom, m.forkOffset, q).Some? {
      if q < TailAt(s, m.id) {
        hide Grown;
        ViewKept(s, t, Removed(l, step), p, q);
      }
    }
  }

  /** A stream born by a step is complete after it. */
  lemma {:induction false} NewbornIsComplete(l: Life, l': Life, path: ByteString, m: StreamMeta, first: nat,
          own: seq<ByteString>, source: ByteString)
    requires Inv(l) && Complete(l.store) && Born(l.store, l'.store, path, m, first, own) && Keeps(l.store, l'.store, 0)
    requires m.forkOffset == first && m.forkedFrom < m.id
    requires m.forkedFrom == 0 ==> first == 0
    requires m.forkedFrom != 0 ==> MetaAt(l.store, source).Some? && MetaAt(l.store, source).value.id == m.forkedFrom
                                   && first <= TailAt(l.store, m.forkedFrom)
    ensures CompleteAt(l'.store, m)
    ensures forall q: nat :: first <= q < first + |own| ==>
                             SeenAt(l'.store, m.id, m.forkedFrom, m.forkOffset, q) == Some(own[q - first])
    ensures forall q: nat ::
            q < first ==> SeenAt(l'.store, m.id, m.forkedFrom, m.forkOffset, q) == SeenById(l.store, m.forkedFrom, q)
  {
    var s, t := l.store, l'.store;
    forall q: nat | q < first ensures SeenAt(t, m.id, m.forkedFrom, m.forkOffset, q) == SeenById(s, m.forkedFrom, q)
      ensures SeenById(s, m.forkedFrom, q).Some?
    {
      var src := MetaAt(s, source).value;
      RegisteredAt(s, source);
      assert SameStream(MetaAt(s, source), MetaAt(t, source)) && CompleteAt(s, src);
      assert PathAt(t, src.id) == Some(source);
      hide ForksOf, Counted, Unused, Born;
      ViewKept(s, t, 0, source, q);
    }
    hide Inv, Complete, Keeps;
  }

  lemma {:induction false} StepKeepsComplete(l: Life, l': Life, step: Step)
    requires Inv(l) && Next(l, l', step) && Complete(l.store)
    ensures Inv(l') && Complete(l'.store)
  {
    NextKeepsInv(l, l', step);
    forall p | MetaAt(l'.store, p).Some? ensures CompleteAt(l'.store, MetaAt(l'.store, p).value) {
      if MetaAt(l.store, p).Some? {
        NotRemoved(l, l', step, p);
        hide Inv, Next, Complete, CompleteAt;
        SurvivorIsComplete(l, l', step, p);
      } else {
        hide Inv, Complete, CompleteAt;
        OnlyBirthAdds(l, l', step, p);
        BirthIsComplete(l, l', step);
      }
    }
  }

  lemma NotRemoved(l: Life, l': Life, step: Step, p: ByteString)
    requires Inv(l) && Next(l, l', step) && MetaAt(l.store, p).Some? && MetaAt(l'.store, p).Some?
    ensures MetaAt(l.store, p).value.id != Removed(l, step)
  {
    RegisteredAt(l.store, p);
    if step.HardDeleteStep? {
      HardDeleteKeepsInv(l, l', step.path);
      RegisteredAt(l.store, step.path);
    }
    hide Inv, Next;
  }

  /** Only create and fork add a path. */
  lemma OnlyBirthAdds(l: Life, l': Life, step: Step, p: ByteString)
    requires Inv(l) && Next(l, l', step) && MetaAt(l.store, p).None? && MetaAt(l'.store, p).Some?
    ensures (step.CreateStep? && step.path == p) || (step.ForkStep? && step.p.path == p)
  {
    match step {
      case CreateStep(path, m, records, now) =>
        CreateKeepsInv(l, l', path, m, records, now);
      case ForkStep(fp, now) =>
        ForkKeepsInv(l, l', fp, now);
        hide ForkDecision, ForkOwn, Next;
      case HardDeleteStep(path) =>
        HardDeleteKeepsInv(l, l', path);
        hide Next;
      case DropStep =>
        DropKeepsInv(l, l');
        hide Next;
      case AppendStep(path, e, now) =>
        AppendIsQuiet(l, l', path, e, now);
      case CrashStep =>
      case _ =>
        OtherQuietSteps(l, l', step);
    }
  }

  lemma {:induction false} BirthIsComplete(l: Life, l': Life, step: Step)
    requires Inv(l) && Next(l, l', step) && Complete(l.store) && (step.CreateStep? || step.ForkStep?)
    ensures var p := if step.CreateStep? then step.path else step.p.path;
            MetaAt(l'.store, p).Some? && CompleteAt(l'.store, MetaAt(l'.store, p).value)
  {
    StepKeeps(l, l', step);
    match step {
      case CreateStep(path, m, records, now) =>
        CreateKeepsInv(l, l', path, m, records, now);
        assert m.id >= 1;
        hide Inv, Complete, CompleteAt;
        NewbornIsComplete(l, l', path, m, 0, records, []);
      case ForkStep(fp, now) =>
        ForkSeesSource(l, l', fp, now);
    }
  }

  // ----- the fork view equation -----

  /** What a reader of an existing stream sees, from 0 to its tail. */
  ghost function LogOf(s: Keyspace, p: ByteString): seq<ByteString>
    requires MetaAt(s, p).Some? && CompleteAt(s, MetaAt(s, p).value)
  {
    var m := MetaAt(s, p).value;
    seq(TailAt(s, m.id), q requires 0 <= q < TailAt(s, m.id) => SeenAt(s, m.id, m.forkedFrom, m.forkOffset, q).value)
  }

  lemma {:induction false} ForkSeesSource(l: Life, l': Life, fp: ForkParams, now: nat)
    requires Inv(l) && ForksOff(l, l', fp, now) && Complete(l.store) && Keeps(l.store, l'.store, 0)
    ensures var d := ForkDecision(l.store, fp);
            var m := ForkMeta(l.store, fp, d.src, d.at, now);
            var own := ForkOwn(l.store, fp, d.src, d.at);
            && MetaAt(l'.store, fp.path) == Some(m) && CompleteAt(l'.store, m)
               && TailAt(l'.store, m.id) == d.at.seqno + |own|
            && (forall q: nat :: d.at.seqno <= q < d.at.seqno + |own| ==>
                                 SeenAt(l'.store, m.id, m.forkedFrom, m.forkOffset, q) == Some(own[q - d.at.seqno]))
            && (forall q: nat :: q < d.at.seqno ==>
                                 SeenAt(l'.store, m.id, m.forkedFrom, m.forkOffset, q) == SeenById(l.store,
                                 d.src.id, q))
  {
    var d := ForkDecision(l.store, fp);
    var m := ForkMeta(l.store, fp, d.src, d.at, now);
    var own := ForkOwn(l.store, fp, d.src, d.at);
    ForkKeepsInv(l, l', fp, now);
    FreshForkPoint(l.store, fp);
    RegisteredAt(l.store, fp.source);
    hide ForkDecision, ForkOwn, Diverge, Complete, CompleteAt, Keeps, ForksOf, Sourced, Counted, Unused;
    NewbornIsComplete(l, l', fp.path, m, d.at.seqno, own, fp.source);
  }

  /**
   The fork view equation. A new fork reads as its source's records below the
   divergence point, then the materialised part of the record it diverges inside
   (if any) and the fork's initial records.
   */
  lemma {:induction false} ForkViewEquation(l: Life, l': Life, fp: ForkParams, now: nat)
    requires Inv(l) && ForksOff(l, l', fp, now) && Complete(l.store)
    ensures var d := ForkDecision(l.store, fp);
            && MetaAt(l.store, fp.source) == Some(d.src) && CompleteAt(l.store, d.src)
            && MetaAt(l'.store, fp.path).Some? && CompleteAt(l'.store, MetaAt(l'.store, fp.path).value)
            && d.at.seqno <= |LogOf(l.store, fp.source)|
            && LogOf(l'.store, fp.path) == LogOf(l.store, fp.source)[..d.at.seqno] + ForkOwn(l.store, fp, d.src, d.at)
  {
    hide *;
    var s, t := l.store, l'.store;
    ForkKeeps(l, l', fp, now);
    SourceIsComplete(l, fp);
    var d := ForkDecision(s, fp);
    var own := ForkOwn(s, fp, d.src, d.at);
    ForkSeesSource(l, l', fp, now);
    LogOfIs(s, fp.source);
    LogOfIs(t, fp.path);
    SourceSeen(s, fp.source);
    Joined(LogOf(t, fp.path), LogOf(s, fp.source)[..d.at.seqno], own);
  }

  lemma ForkKeeps(l: Life, l': Life, fp: ForkParams, now: nat)
    requires Inv(l) && ForksOff(l, l', fp, now)
    ensures Keeps(l.store, l'.store, 0) && ForkDecision(l.store, fp).Fresh?
  {
    hide ForkDecision, Inv;
    StepKeeps(l, l', ForkStep(fp, now));
  }

  lemma SourceIsComplete(l: Life, fp: ForkParams)
    requires Inv(l) && Complete(l.store) && ForkDecision(l.store, fp).Fresh?
    ensures var d := ForkDecision(l.store, fp);
            && MetaAt(l.store, fp.source) == Some(d.src) && CompleteAt(l.store, d.src)
               && PathAt(l.store, d.src.id) == Some(fp.source)
            && d.at.seqno <= TailAt(l.store, d.src.id)
  {
    FreshForkPoint(l.store, fp);
    RegisteredAt(l.store, fp.source);
    hide ForkDecision, Inv, CompleteAt;
  }

  lemma LogOfIs(s: Keyspace, p: ByteString)
    requires MetaAt(s, p).Some? && CompleteAt(s, MetaAt(s, p).value)
    ensures var m := MetaAt(s, p).value;
            && |LogOf(s, p)| == TailAt(s, m.id)
            && forall q: nat :: q < TailAt(s, m.id) ==>
                                SeenAt(s, m.id, m.forkedFrom, m.forkOffset, q) == Some(LogOf(s, p)[q])
  {
    hide MetaAt, TailAt, SeenAt;
  }

  lemma SourceSeen(s: Keyspace, p: ByteString)
    requires MetaAt(s, p).Some? && PathAt(s, MetaAt(s, p).value.id) == Some(p)
    ensures var m := MetaAt(s, p).value;
            forall q: nat :: SeenById(s, m.id, q) == SeenAt(s, m.id, m.forkedFrom, m.forkOffset, q)
  {
    hide SeenAt;
  }

  lemma Joined<T>(whole: seq<T>, head: seq<T>, own: seq<T>)
    requires |whole| == |head| + |own|
    requires forall q: nat :: q < |head| ==> whole[q] == head[q]
    requires forall q: nat :: |head| <= q < |head| + |own| ==> whole[q] == own[q - |head|]
    ensures whole == head + own
  {
  }

  /**
   In bytes: what a binary fork inherits is the source up to its fork offset plus the
   sub-offset; a JSON fork inherits that many whole messages.
   */
  lemma {:induction false} ForkInheritsPrefix(l: Life, fp: ForkParams)
    requires Inv(l) && Complete(l.store) && ForkDecision(l.store, fp).Fresh?
    ensures var d := ForkDecision(l.store, fp);
            && MetaAt(l.store, fp.source) == Some(d.src) && CompleteAt(l.store, d.src) && fp.records.Some?
            && var log := LogOf(l.store, fp.source);
               var off, sub := ForkOff(fp, |log|), SubOf(fp);
               && off.seqno <= |log| && d.at.seqno <= |log|
               && ForkOwn(l.store, fp, d.src, d.at) == Inherited(log, d.at) + fp.records.value
               && (d.src.mediaType == Json ==> d.at == Offset(off.seqno + sub, 0))
               && (d.src.mediaType != Json ==>
                     Pos(log, off) + sub <= |Flat(log)|
                       && Flat(log[..d.at.seqno] + Inherited(log, d.at)) == Flat(log)[..Pos(log, off) + sub])
  {
    var s, d := l.store, ForkDecision(l.store, fp);
    FreshForkPoint(s, fp);
    RegisteredAt(s, fp.source);
    assert CompleteAt(s, d.src);
    var log := LogOf(s, fp.source);
    var off, sub := ForkOff(fp, |log|), SubOf(fp);
    OffsetInside(s, fp);
    assert off.seqno < |log| ==> SeenById(s, d.src.id, off.seqno) == Some(log[off.seqno]);
    assert d.at.byte > 0 ==> SeenById(s, d.src.id, d.at.seqno) == Some(log[d.at.seqno]);
    hide ForkDecision, SeenAt, SeenById, Inv, Complete, CompleteAt, LogOf, Flat, Pos;
    if d.src.mediaType != Json {
      PrefixBytes(log, off, sub, d.at);
    }
  }

  lemma OffsetInside(s: Keyspace, fp: ForkParams)
    requires ForkDecision(s, fp).Fresh?
    ensures var tail := TailAt(s, ForkDecision(s, fp).src.id);
            var off := ForkOff(fp, tail);
            off.seqno < tail || (off.seqno == tail && off.byte == 0)
  {
    hide Diverge, SeenById;
  }

  /** The materialised record of a fork that diverges inside one. */
  function Inherited(log: seq<ByteString>, at: Offset): seq<ByteString> {
    if at.byte > 0 && at.seqno < |log| then [Cut(log[at.seqno], at.byte)] else []
  }

  lemma PrefixBytes(log: seq<ByteString>, off: Offset, sub: nat, at: Offset)
    requires off.seqno < |log| || (off.seqno == |log| && off.byte == 0)
    requires if off.byte + sub == 0 then at == off
             else off.seqno < |log| && off.byte + sub <= |log[off.seqno]|
                  && at == if off.byte + sub == |log[off.seqno]| then
                     Offset(off.seqno + 1, 0) else Offset(off.seqno, off.byte + sub)
    ensures Pos(log, off) + sub <= |Flat(log)| && at.seqno <= |log|
    ensures Flat(log[..at.seqno] + Inherited(log, at)) == Flat(log)[..Pos(log, off) + sub]
  {
    hide Flat;
    if at.byte == 0 {
      WholeRecords(log, at.seqno);
      if at.seqno > off.seqno {
        FlatStep(log, off.seqno);
      }
      assert log[..at.seqno] + Inherited(log, at) == log[..at.seqno];
    } else {
      PartOfRecord(log, off.seqno, off.byte + sub);
    }
  }

  lemma WholeRecords(log: seq<ByteString>, q: nat)
    requires q <= |log|
    ensures |Flat(log[..q])| <= |Flat(log)| && Flat(log[..q]) == Flat(log)[..|Flat(log[..q])|]
  {
    hide Flat;
    FlatPrefix(log, q);
  }

  lemma PartOfRecord(log: seq<ByteString>, q: nat, c: nat)
    requires q < |log| && 0 < c < |log[q]|
    ensures |Flat(log[..q])| + c <= |Flat(log)|
    ensures Flat(log[..q] + [Cut(log[q], c)]) == Flat(log)[..|Flat(log[..q])| + c]
  {
    var head, part := log[..q], Cut(log[q], c);
    assert (head + [part])[..|head|] == head;
    assert Flat(head + [part]) == Flat(head) + part;
    hide Flat;
    WholeRecords(log, q);
    RecordPart(log, q, 0, c);
    assert part == log[q][0..c];
    SliceJoin(Flat(log), 0, |Flat(head)|, |Flat(head)| + c);
    assert Flat(log)[0..|Flat(head)|] == Flat(log)[..|Flat(head)|];
  }

  // ----- over whole runs -----

  lemma {:induction false} RunIsComplete(states: seq<Life>, steps: seq<Step>, i: nat)
    requires Run(states, steps) && i < |states|
    ensures Inv(states[i]) && Complete(states[i].store)
  {
    hide Inv, Next, CompleteAt;
    if i == 0 {
      EmptyStoreIsFine();
    } else {
      RunIsComplete(states, steps, i - 1);
      assert Next(states[i - 1], states[i - 1 + 1], steps[i - 1]);
      hide Complete;
      StepKeepsComplete(states[i - 1], states[i], steps[i - 1]);
    }
  }

  /**
   In every reachable state, any existing stream can be read: its ancestors are alive and
   the stitched log is whole.
   */
  lemma {:induction false} EveryStreamReadable(states: seq<Life>, steps: seq<Step>, i: nat, p: ByteString)
    requires Run(states, steps) && i < |states| && MetaAt(states[i].store, p).Some?
    ensures var s, m := states[i].store, MetaAt(states[i].store, p).value;
            && ForksDescend(s) && m.forkedFrom < m.id && Alive(s, m.id, m.forkedFrom)
            && CompleteAt(s, m) && Shows(s, m.id, m.forkedFrom, m.forkOffset, LogOf(s, p))
               && |LogOf(s, p)| == TailAt(s, m.id)
  {
    RunIsComplete(states, steps, i);
    AncestorsSurvive(states, steps, i, p);
    RegisteredAt(states[i].store, p);
    assert CompleteAt(states[i].store, MetaAt(states[i].store, p).value);
    hide Run, Inv, Complete, Alive, ForksDescend, ForksOf;
  }
}
