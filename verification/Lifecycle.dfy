/**
 Creating, forking and deleting streams, one step per durable commit, with a crash
 possible after any of them. Reference counts keep every fork's ancestors alive,
 and what a reader of a stream has once seen never changes under any other
 operation.
 */
module Lifecycle {
  import opened Bytes
  import opened Store
  import opened Appends
  import opened Reads
  import opened Forks

  // ----- fork parameters and the decision of createFork -----

  /** The requested fork offset, already parsed. */
  datatype ForkAt = Default | Now | At(off: Offset) | Malformed

  datatype SubOffset = NoSub | BadSub | Sub(n: nat)

  /** records is None when the initial body does not parse. */
  datatype ForkParams = ForkParams(
    path: ByteString,
    source: ByteString,
    at: ForkAt,
    sub: SubOffset,
    mediaType: Option<MediaType>,
    ttl: Option<nat>,
    expiresAt: Option<int>,
    closed: bool,
    records: Option<seq<ByteString>>)

  datatype ForkAnswer = Denied(status: nat) | Same(next: Offset) | Fresh(src: StreamMeta, at: Offset)

  function ForkTTL(src: StreamMeta, p: ForkParams): (nat, int) {
    if p.ttl.Some? then (p.ttl.value, 0)
    else if p.expiresAt.Some? then (0, p.expiresAt.value)
    else if src.ttl > 0 then (src.ttl, 0)
    else if src.expiresAt > 0 then (0, src.expiresAt)
    else (0, 0)
  }

  function SubOf(p: ForkParams): nat {
    if p.sub.Sub? then p.sub.n else 0
  }

  function ForkOff(p: ForkParams, tail: nat): Offset {
    if p.at.At? then p.at.off else Offset(tail, 0)
  }

  /** Where the fork leaves its source; None when the sub-offset overshoots. */
  function Diverge(s: Keyspace, src: StreamMeta, tail: nat, off: Offset, sub: nat): Option<Offset> {
    if src.mediaType == Json then
      if off.seqno + sub > tail then None else Some(Offset(off.seqno + sub, 0))
    else if off.byte + sub == 0 then Some(off)
    else if off.seqno >= tail then None
    else
      var payload := SeenById(s, src.id, off.seqno);
      if payload.None? || off.byte + sub > |payload.value| then None
      else if off.byte + sub == |payload.value| then Some(Offset(off.seqno + 1, 0))
      else Some(Offset(off.seqno, off.byte + sub))
  }

  function ForkDecision(s: Keyspace, p: ForkParams): ForkAnswer {
    if SoftDeleted(s, p.path) || SoftDeleted(s, p.source) then Denied(409)
    else if MetaAt(s, p.source).None? then Denied(404)
    else
      var src := MetaAt(s, p.source).value;
      var tail := TailAt(s, src.id);
      var off, sub := ForkOff(p, tail), SubOf(p);
      if p.mediaType.Some? && p.mediaType.value != src.mediaType then Denied(409)
      else if p.at.Malformed? then Denied(400)
      else if off.seqno > tail || (off.seqno == tail && off.byte > 0) then Denied(400)
      else if p.sub.BadSub? || (sub > 0 && (p.at.Default? || tail == 0)) then Denied(400)
      else
        var d := Diverge(s, src, tail, off, sub);
        if d.None? then Denied(400)
        else if MetaAt(s, p.path).Some? then
          var m := MetaAt(s, p.path).value;
          if m.forkedFrom == src.id && m.forkOffset == d.value.seqno && m.forkByte == d.value.byte
            && m.mediaType == src.mediaType
             && (m.ttl, m.expiresAt) == ForkTTL(src, p) && m.closed == p.closed
          then Same(Offset(TailAt(s, m.id), 0)) else Denied(409)
        else if d.value.byte > 0 && SeenById(s, src.id, d.value.seqno).None? then Denied(500)
        else if p.records.None? then Denied(400)
        else Fresh(src, d.value)
  }

  // ----- write batches -----

  function Counter(s: Keyspace): nat {
    if IdCounter in s && s[IdCounter].U64Val? then s[IdCounter].n else 1
  }

  function FirstDeadline(ttl: nat, ttlSet: bool, expiresAt: int, now: nat): nat {
    if ttlSet then AddU64(AddU64(now, ttl), 1) else if expiresAt > 0 then expiresAt else 0
  }

  function RecordPuts(id: nat, first: nat, own: seq<ByteString>): (b: Batch)
    ensures forall k :: k in b <==> k.Record? && k.id == id && first <= k.seqno < first + |own|
    ensures forall k :: k in b ==> b[k] == Some(RecordVal(own[k.seqno - first]))
  {
    map n | first <= n < first + |own| :: Record(id, n) := Some(RecordVal(own[n - first]))
  }

  /** A new stream: its records from `first` on, its metadata, mapping, tail and deadline, and the id counter. */
  function BirthBatch(path: ByteString, m: StreamMeta, first: nat, own: seq<ByteString>, now: int): Batch {
    RecordPuts(m.id, first, own)
    + map[Meta(path) := Some(MetaVal(m)), IdMapping(m.id) := Some(PathVal(path)),
          Tail(m.id) := Some(TailVal(first + |own|, now)), IdCounter := Some(U64Val(m.id + 1))]
    + if m.deadline > 0 then map[Expiry(m.deadline, m.id) := Some(U64Val(m.ttl))] else map[]
  }

  function ForkMeta(s: Keyspace, p: ForkParams, src: StreamMeta, at: Offset, now: nat): StreamMeta {
    var (ttl, expiresAt) := ForkTTL(src, p);
    StreamMeta(Counter(s), src.mediaType, ttl, expiresAt, p.closed, FirstDeadline(ttl, ttl > 0, expiresAt, now),
        src.id, at.seqno, at.byte)
  }

  /** The fork's own first records: the materialised part of the record it diverges inside, then its initial body. */
  function ForkOwn(s: Keyspace, p: ForkParams, src: StreamMeta, at: Offset): seq<ByteString> {
    (if at.byte > 0 && SeenById(s, src.id, at.seqno).Some? then
        [Cut(SeenById(s, src.id, at.seqno).value, at.byte)] else [])
    + if p.records.Some? then p.records.value else []
  }

  function Cut(b: ByteString, n: nat): ByteString {
    b[..Min(n, |b|)]
  }

  function ForkBatch(s: Keyspace, p: ForkParams, src: StreamMeta, at: Offset, now: nat): Batch {
    BirthBatch(p.path, ForkMeta(s, p, src, at, now), at.seqno, ForkOwn(s, p, src, at), now)
    + map[RefCount(src.id) := Some(U64Val(RefCountAt(s, src.id) + 1))]
  }

  function HardDeleteBatch(path: ByteString, m: StreamMeta): Batch {
    map[Meta(path) := None, IdMapping(m.id) := None, Tail(m.id) := None, WriterSeq(m.id) := None,
        RefCount(m.id) := None, Tombstone(path) := None, DeletePending(m.id) := Some(U64Val(0))]
    + if m.deadline > 0 then map[Expiry(m.deadline, m.id) := None] else map[]
  }

  // ----- the steps, one per commit -----

  /** What the holder of the metadata lock still has to do. */
  datatype Agenda = Idle | DropRef(source: nat) | Cascade(path: ByteString)

  datatype Life = Life(store: Keyspace, agenda: Agenda, crashed: bool)

  ghost predicate Creates(l: Life, l': Life, path: ByteString, m: StreamMeta, records: seq<ByteString>, now: nat) {
    && l.agenda.Idle? && !SoftDeleted(l.store, path) && MetaAt(l.store, path).None?
    && m.id == Counter(l.store) && m.forkedFrom == 0 && m.forkOffset == 0
    && l' == l.(store := Apply(l.store, BirthBatch(path, m, 0, records, now)))
  }

  ghost predicate ForksOff(l: Life, l': Life, p: ForkParams, now: nat) {
    && l.agenda.Idle? && ForkDecision(l.store, p).Fresh?
    && var d := ForkDecision(l.store, p);
       l' == l.(store := Apply(l.store, ForkBatch(l.store, p, d.src, d.at, now)))
  }

  /** DELETE of a stream with outstanding forks. */
  ghost predicate SoftDeletes(l: Life, l': Life, path: ByteString) {
    && l.agenda.Idle? && !SoftDeleted(l.store, path) && MetaAt(l.store, path).Some?
    && RefCountAt(l.store, MetaAt(l.store, path).value.id) > 0
    && l' == l.(store := Apply(l.store,
           map[Tombstone(path) := Some(TombstoneVal(true, MetaAt(l.store, path).value.id))]))
  }

  /** The first commit of deleteStreamLocked, for a DELETE of an unreferenced stream or in a cascade. */
  ghost predicate HardDeletes(l: Life, l': Life, path: ByteString) {
    && MetaAt(l.store, path).Some?
    && var m := MetaAt(l.store, path).value;
       && (l.agenda == Cascade(path)
           || (l.agenda.Idle? && !SoftDeleted(l.store, path) && RefCountAt(l.store, m.id) == 0))
       && l' == l.(store := Apply(l.store, HardDeleteBatch(path, m)), agenda := if m.forkedFrom != 0 then
            DropRef(m.forkedFrom) else Idle)
  }

  /** dropForkRef: count down, and go on to a soft-deleted source that nothing refers to any more. */
  ghost predicate Drops(l: Life, l': Life) {
    && l.agenda.DropRef?
    && var id := l.agenda.source;
       var count := if RefCountAt(l.store, id) > 0 then RefCountAt(l.store, id) - 1 else 0;
       var t := Apply(l.store, map[RefCount(id) := Some(U64Val(count))]);
       l' == l.(store := t, agenda := AfterDrop(t, id, count))
  }

  function AfterDrop(t: Keyspace, id: nat, count: nat): Agenda {
    if count == 0 && MetaById(t, id).Some? && Tombstone(PathAt(t, id).value) in t then
      Cascade(PathAt(t, id).value) else Idle
  }

  /** A burst on an existing stream. */
  ghost predicate AppendsTo(l: Life, l': Life, path: ByteString, e: Effects, now: nat) {
    && MetaAt(l.store, path).Some?
    && var m := MetaAt(l.store, path).value;
       l' == l.(store := Apply(l.store, BatchOf(path, m, TailAt(l.store, m.id), e, now)))
  }

  /** A commit of the background deleter for an id that no longer exists. */
  ghost predicate Reclaims(l: Life, l': Life, id: nat, b: Batch) {
    && PathAt(l.store, id).None? && id < Counter(l.store)
    && (forall k :: k in b ==> (k.Record? || k.Producer? || k.DeletePending?) && k.id == id
                               && (k.Record? ==> b[k] == None))
    && l' == l.(store := Apply(l.store, b))
  }

  ghost predicate Crashes(l: Life, l': Life) {
    l' == l.(agenda := Idle, crashed := true)
  }

  datatype Step =
    | CreateStep(path: ByteString, m: StreamMeta, records: seq<ByteString>, now: nat)
    | ForkStep(p: ForkParams, now: nat)
    | SoftDeleteStep(path: ByteString)
    | HardDeleteStep(path: ByteString)
    | DropStep
    | AppendStep(path: ByteString, e: Effects, now: nat)
    | ReclaimStep(id: nat, b: Batch)
    | CrashStep

  ghost predicate Next(l: Life, l': Life, step: Step) {
    match step
    case CreateStep(path, m, records, now) => Creates(l, l', path, m, records, now)
    case ForkStep(p, now) => ForksOff(l, l', p, now)
    case SoftDeleteStep(path) => SoftDeletes(l, l', path)
    case HardDeleteStep(path) => HardDeletes(l, l', path)
    case DropStep => Drops(l, l')
    case AppendStep(path, e, now) => AppendsTo(l, l', path, e, now)
    case ReclaimStep(id, b) => Reclaims(l, l', id, b)
    case CrashStep => Crashes(l, l')
  }

  // ----- the invariant -----

  /**
   Paths and ids of existing streams correspond, ids are below the counter, and sources
   are older than their forks.
   */
  ghost predicate Registered(s: Keyspace) {
    && (forall id :: PathAt(s, id).Some? ==>
                     MetaAt(s, PathAt(s, id).value).Some? && MetaAt(s, PathAt(s, id).value).value.id == id)
    && (forall p :: MetaAt(s, p).Some? ==>
          var m := MetaAt(s, p).value;
          PathAt(s, m.id) == Some(p) && 1 <= m.id < Counter(s) && m.forkedFrom < m.id)
  }

  /** No trace of an id that has not been given out. */
  ghost predicate Unused(s: Keyspace) {
    && Counter(s) >= 1
    && (forall id, q :: id >= Counter(s) ==> RecordAt(s, id, q).None?)
    && (forall id :: id >= Counter(s) ==> RefCountAt(s, id) == 0)
  }

  /** A fork's source exists, and reaches at least to the divergence point. */
  ghost predicate Sourced(s: Keyspace) {
    forall p :: MetaAt(s, p).Some? && MetaAt(s, p).value.forkedFrom != 0 ==>
      var m := MetaAt(s, p).value;
      PathAt(s, m.forkedFrom).Some? && m.forkOffset <= TailAt(s, m.forkedFrom)
  }

  function ForksOf(s: Keyspace, id: nat): set<ByteString> {
    set k | k in s && k.Meta? && MetaAt(s, k.path).Some? && MetaAt(s, k.path).value.forkedFrom == id :: k.path
  }

  function Owed(a: Agenda, id: nat): nat {
    if a == DropRef(id) then 1 else 0
  }

  /** A stored count is at least the number of existing forks, and exactly that if there was no crash. */
  ghost predicate Counted(s: Keyspace, a: Agenda, crashed: bool) {
    forall id :: id != 0 ==>
      && RefCountAt(s, id) >= |ForksOf(s, id)| + Owed(a, id)
      && (!crashed ==> RefCountAt(s, id) == |ForksOf(s, id)| + Owed(a, id))
  }

  ghost predicate AgendaOk(s: Keyspace, a: Agenda) {
    && (a.DropRef? ==> a.source != 0)
    && (a.Cascade? ==> MetaAt(s, a.path).Some? && RefCountAt(s, MetaAt(s, a.path).value.id) == 0)
  }

  ghost predicate Inv(l: Life) {
    && Registered(l.store) && Unused(l.store) && Sourced(l.store)
    && Counted(l.store, l.agenda, l.crashed) && AgendaOk(l.store, l.agenda)
  }

  // ----- reading a store after a batch -----

  function AsMeta(v: Option<Value>): Option<StreamMeta> {
    if v.Some? && v.value.MetaVal? then Some(v.value.meta) else None
  }

  function AsPath(v: Option<Value>): Option<ByteString> {
    if v.Some? && v.value.PathVal? then Some(v.value.path) else None
  }

  function AsRecord(v: Option<Value>): Option<ByteString> {
    if v.Some? && v.value.RecordVal? then Some(v.value.payload) else None
  }

  function AsTail(v: Option<Value>): nat {
    if v.Some? && v.value.TailVal? then v.value.next else 0
  }

  function AsCount(v: Option<Value>, default: nat): nat {
    if v.Some? && v.value.U64Val? then v.value.n else default
  }

  lemma ApplyMeta(s: Keyspace, b: Batch, p: ByteString)
    ensures MetaAt(Apply(s, b), p) == if Meta(p) in b then AsMeta(b[Meta(p)]) else MetaAt(s, p)
  {
    var t := Apply(s, b);
    assert Get(t, Meta(p)) == if Meta(p) in b then b[Meta(p)] else Get(s, Meta(p));
  }

  lemma ApplyPath(s: Keyspace, b: Batch, id: nat)
    ensures PathAt(Apply(s, b), id) == if IdMapping(id) in b then AsPath(b[IdMapping(id)]) else PathAt(s, id)
  {
    var t := Apply(s, b);
    assert Get(t, IdMapping(id)) == if IdMapping(id) in b then b[IdMapping(id)] else Get(s, IdMapping(id));
  }

  lemma ApplyRecord(s: Keyspace, b: Batch, id: nat, q: nat)
    ensures RecordAt(Apply(s, b), id, q) == if Record(id, q) in b then
            AsRecord(b[Record(id, q)]) else RecordAt(s, id, q)
  {
    var t := Apply(s, b);
    assert Get(t, Record(id, q)) == if Record(id, q) in b then b[Record(id, q)] else Get(s, Record(id, q));
  }

  lemma ApplyTail(s: Keyspace, b: Batch, id: nat)
    ensures TailAt(Apply(s, b), id) == if Tail(id) in b then AsTail(b[Tail(id)]) else TailAt(s, id)
  {
    var t := Apply(s, b);
    assert Get(t, Tail(id)) == if Tail(id) in b then b[Tail(id)] else Get(s, Tail(id));
  }

  lemma ApplyCount(s: Keyspace, b: Batch, id: nat)
    ensures RefCountAt(Apply(s, b), id) == if RefCount(id) in b then AsCount(b[RefCount(id)], 0) else RefCountAt(s, id)
    ensures Counter(Apply(s, b)) == if IdCounter in b then AsCount(b[IdCounter], 1) else Counter(s)
  {
    var t := Apply(s, b);
    assert Get(t, RefCount(id)) == if RefCount(id) in b then b[RefCount(id)] else Get(s, RefCount(id));
    assert Get(t, IdCounter) == if IdCounter in b then b[IdCounter] else Get(s, IdCounter);
  }

  // ----- a quiet step: no stream comes or goes, no count moves -----

  predicate SameStream(m: Option<StreamMeta>, n: Option<StreamMeta>) {
    && (m.Some? <==> n.Some?)
    && (m.Some? ==> m.value.id == n.value.id && m.value.forkedFrom == n.value.forkedFrom
                    && m.value.forkOffset == n.value.forkOffset)
  }

  ghost predicate Quiet(s: Keyspace, t: Keyspace) {
    && (forall p :: SameStream(MetaAt(s, p), MetaAt(t, p)))
    && (forall id :: PathAt(t, id) == PathAt(s, id))
    && (forall id :: RefCountAt(t, id) == RefCountAt(s, id))
    && Counter(t) == Counter(s)
    && (forall id :: PathAt(s, id).Some? ==> TailAt(s, id) <= TailAt(t, id))
    && (forall id: nat, q: nat :: id >= Counter(s) ==> RecordAt(t, id, q) == RecordAt(s, id, q))
    && (forall id: nat, q: nat :: PathAt(s, id).Some? && q < TailAt(s, id) ==> RecordAt(t, id, q) == RecordAt(s, id, q))
  }

  lemma ForksOfAgree(s: Keyspace, t: Keyspace, id: nat)
    requires forall p :: SameStream(MetaAt(s, p), MetaAt(t, p))
    ensures ForksOf(t, id) == ForksOf(s, id)
  {
    forall p ensures p in ForksOf(t, id) <==> p in ForksOf(s, id) {
      InForksOf(s, id, p);
      InForksOf(t, id, p);
    }
  }

  lemma InForksOf(s: Keyspace, id: nat, p: ByteString)
    ensures p in ForksOf(s, id) <==> MetaAt(s, p).Some? && MetaAt(s, p).value.forkedFrom == id
  {
    if MetaAt(s, p).Some? && MetaAt(s, p).value.forkedFrom == id {
      assert Meta(p) in s && Meta(p).path == p;
    }
  }

  lemma StillRegistered(s: Keyspace, t: Keyspace)
    requires Registered(s) && Counter(t) == Counter(s)
    requires forall p :: SameStream(MetaAt(s, p), MetaAt(t, p))
    requires forall id :: PathAt(t, id) == PathAt(s, id)
    ensures Registered(t)
  {
    hide MetaAt, PathAt, Counter;
    forall p | MetaAt(t, p).Some?
      ensures var n := MetaAt(t, p).value; PathAt(t, n.id) == Some(p) && 1 <= n.id < Counter(t) && n.forkedFrom < n.id
    {
      assert SameStream(MetaAt(s, p), MetaAt(t, p));
      RegisteredAt(s, p);
    }
    forall id | PathAt(t, id).Some?
      ensures MetaAt(t, PathAt(t, id).value).Some? && MetaAt(t, PathAt(t, id).value).value.id == id
    {
      PathIsRegistered(s, id);
      assert SameStream(MetaAt(s, PathAt(t, id).value), MetaAt(t, PathAt(t, id).value));
    }
  }

  lemma {:induction false} QuietKeepsInv(l: Life, l': Life)
    requires Inv(l) && Quiet(l.store, l'.store) && l'.agenda == l.agenda && l'.crashed == l.crashed
    ensures Inv(l')
  {
    var s, t := l.store, l'.store;
    StillRegistered(s, t);
    assert Sourced(t) by {
      forall p | MetaAt(t, p).Some? && MetaAt(t, p).value.forkedFrom != 0
        ensures var m := MetaAt(t, p).value; PathAt(t, m.forkedFrom).Some? && m.forkOffset <= TailAt(t, m.forkedFrom)
      {
        assert SameStream(MetaAt(s, p), MetaAt(t, p));
      }
    }
    forall id | id != 0 ensures RefCountAt(t, id) >= |ForksOf(t, id)| + Owed(l.agenda, id)
      && (!l.crashed ==> RefCountAt(t, id) == |ForksOf(t, id)| + Owed(l.agenda, id))
    {
      ForksOfAgree(s, t, id);
    }
  }

  /** What a burst may write: its stream's metadata without its identity, its tail, and records from its tail on. */
  lemma AppendWrites(s: Keyspace, path: ByteString, m: StreamMeta, e: Effects, now: nat)
    requires MetaAt(s, path) == Some(m)
    ensures var b := BatchOf(path, m, TailAt(s, m.id), e, now);
            && (forall k :: k in b ==> !k.IdMapping? && !k.RefCount? && !k.IdCounter? && !k.Tombstone?
                                       && !k.DeletePending?)
            && (forall k :: k in b && k.Meta? ==> k.path == path && SameStream(AsMeta(b[k]), Some(m)))
            && (forall k :: k in b && k.Tail? ==> k.id == m.id && AsTail(b[k]) >= TailAt(s, m.id))
            && (forall k :: k in b && k.Record? ==> k.id == m.id && k.seqno >= TailAt(s, m.id))
  {
    hide TailAt;
  }

  lemma AppendIsQuiet(l: Life, l': Life, path: ByteString, e: Effects, now: nat)
    requires Registered(l.store) && AppendsTo(l, l', path, e, now)
    ensures Quiet(l.store, l'.store)
  {
    var s, t, m := l.store, l'.store, MetaAt(l.store, path).value;
    hide Registered, BatchOf, Apply;
    RegisteredAt(s, path);
    AppendWrites(s, path, m, e, now);
    var b := BatchOf(path, m, TailAt(s, m.id), e, now);
    hide MetaAt, PathAt, RefCountAt, TailAt, RecordAt, Counter;
    forall p ensures SameStream(MetaAt(s, p), MetaAt(t, p)) {
      ApplyMeta(s, b, p);
    }
    forall id: nat ensures PathAt(t, id) == PathAt(s, id) && RefCountAt(t, id) == RefCountAt(s, id)
      && Counter(t) == Counter(s)
      && TailAt(s, id) <= TailAt(t, id)
    {
      ApplyPath(s, b, id);
      ApplyCount(s, b, id);
      ApplyTail(s, b, id);
    }
    forall id: nat, q: nat ensures id != m.id || q < TailAt(s, m.id) ==> RecordAt(t, id, q) == RecordAt(s, id, q) {
      ApplyRecord(s, b, id, q);
    }
  }

  lemma RegisteredAt(s: Keyspace, p: ByteString)
    requires Registered(s) && MetaAt(s, p).Some?
    ensures var m := MetaAt(s, p).value; PathAt(s, m.id) == Some(p) && 1 <= m.id < Counter(s) && m.forkedFrom < m.id
  {
  }

  lemma OtherQuietSteps(l: Life, l': Life, step: Step)
    requires Registered(l.store) && Next(l, l', step) && (step.SoftDeleteStep? || step.ReclaimStep?)
    ensures Quiet(l.store, l'.store)
  {
    var s, t := l.store, l'.store;
    var b := if step.SoftDeleteStep? then
      map[Tombstone(step.path) := Some(TombstoneVal(true, MetaAt(s, step.path).value.id))] else step.b;
    assert t == Apply(s, b);
    assert forall k :: k in b && k.Record? ==> PathAt(s, k.id).None? && k.id < Counter(s);
    assert forall k :: k in b ==> !k.Meta? && !k.IdMapping? && !k.RefCount? && !k.IdCounter? && !k.Tail?;
    hide Next, Registered;
    forall p ensures MetaAt(t, p) == MetaAt(s, p) {
      ApplyMeta(s, b, p);
    }
    forall id ensures PathAt(t, id) == PathAt(s, id) && RefCountAt(t, id) == RefCountAt(s, id)
      && Counter(t) == Counter(s) && TailAt(s, id) == TailAt(t, id) {
      ApplyPath(s, b, id);
      ApplyCount(s, b, id);
      ApplyTail(s, b, id);
    }
    forall id: nat, q: nat
      ensures PathAt(s, id).Some? || id >= Counter(s) ==> RecordAt(t, id, q) == RecordAt(s, id, q)
    {
      ApplyRecord(s, b, id, q);
    }
  }

  // ----- a stream is born -----

  ghost predicate Born(s: Keyspace, t: Keyspace, path: ByteString, m: StreamMeta, first: nat, own: seq<ByteString>) {
    && MetaAt(s, path).None? && m.id == Counter(s) && Counter(t) == m.id + 1
    && (forall p :: MetaAt(t, p) == if p == path then Some(m) else MetaAt(s, p))
    && (forall id :: PathAt(t, id) == if id == m.id then Some(path) else PathAt(s, id))
    && (forall id :: TailAt(t, id) == if id == m.id then first + |own| else TailAt(s, id))
    && (forall id :: RefCountAt(t, id) == RefCountAt(s, id) + if id == m.forkedFrom != 0 then 1 else 0)
    && (forall id: nat, q: nat :: id != m.id ==> RecordAt(t, id, q) == RecordAt(s, id, q))
    && (forall q: nat :: first <= q < first + |own| ==> RecordAt(t, m.id, q) == Some(own[q - first]))
  }

  lemma BirthWrites(path: ByteString, m: StreamMeta, first: nat, own: seq<ByteString>, now: int)
    ensures var b := BirthBatch(path, m, first, own, now);
            && (forall k :: k in b ==> !k.RefCount? && !k.Tombstone?)
            && (forall p :: Meta(p) in b <==> p == path) && b[Meta(path)] == Some(MetaVal(m))
            && (forall id :: IdMapping(id) in b <==> id == m.id) && b[IdMapping(m.id)] == Some(PathVal(path))
            && (forall id :: Tail(id) in b <==> id == m.id) && b[Tail(m.id)] == Some(TailVal(first + |own|, now))
            && IdCounter in b && b[IdCounter] == Some(U64Val(m.id + 1))
            && (forall id: nat, q: nat :: Record(id, q) in b <==> id == m.id && first <= q < first + |own|)
            && (forall q: nat :: first <= q < first + |own| ==> b[Record(m.id, q)] == Some(RecordVal(own[q - first])))
  {
    hide RecordPuts;
  }

  lemma {:induction false} BirthIsBorn(s: Keyspace, path: ByteString, m: StreamMeta, first: nat,
          own: seq<ByteString>, now: int)
    requires MetaAt(s, path).None? && m.id == Counter(s) && m.forkedFrom < m.id
    ensures var b := BirthBatch(path, m, first, own, now);
            Born(s, Apply(s, if m.forkedFrom == 0 then
                  b else b + map[RefCount(m.forkedFrom) := Some(U64Val(RefCountAt(s, m.forkedFrom) + 1))]), path,
                m, first, own)
  {
    hide BirthBatch, Apply;
    BirthWrites(path, m, first, own, now);
    var b0 := BirthBatch(path, m, first, own, now);
    var b := if m.forkedFrom == 0 then
      b0 else b0 + map[RefCount(m.forkedFrom) := Some(U64Val(RefCountAt(s, m.forkedFrom) + 1))];
    var t := Apply(s, b);
    hide MetaAt, PathAt, TailAt, RecordAt, RefCountAt, Counter;
    forall p ensures MetaAt(t, p) == if p == path then Some(m) else MetaAt(s, p) {
      ApplyMeta(s, b, p);
    }
    forall id ensures PathAt(t, id) == (if id == m.id then Some(path) else PathAt(s, id))
      && TailAt(t, id) == (if id == m.id then first + |own| else TailAt(s, id))
      && RefCountAt(t, id) == (RefCountAt(s, id) + if id == m.forkedFrom != 0 then 1 else 0) && Counter(t) == m.id + 1
    {
      ApplyPath(s, b, id);
      ApplyTail(s, b, id);
      ApplyCount(s, b, id);
    }
    forall id: nat, q: nat ensures id != m.id ==> RecordAt(t, id, q) == RecordAt(s, id, q) {
      ApplyRecord(s, b, id, q);
    }
    forall q: nat | first <= q < first + |own| ensures RecordAt(t, m.id, q) == Some(own[q - first]) {
      ApplyRecord(s, b, m.id, q);
    }
  }

  lemma {:induction false} BornKeepsRegistry(s: Keyspace, t: Keyspace, path: ByteString, m: StreamMeta, first: nat,
          own: seq<ByteString>)
    requires Registered(s) && Unused(s) && Sourced(s) && Born(s, t, path, m, first, own) && m.forkedFrom < m.id
    requires m.forkedFrom != 0 ==> PathAt(s, m.forkedFrom).Some? && m.forkOffset <= TailAt(s, m.forkedFrom)
    ensures Registered(t) && Unused(t) && Sourced(t)
  {
    hide MetaAt, PathAt, TailAt, RecordAt, RefCountAt, Counter;
    BornStaysRegistered(s, t, path, m, first, own);
  }

  lemma {:induction false} BornStaysRegistered(s: Keyspace, t: Keyspace, path: ByteString, m: StreamMeta, first: nat,
          own: seq<ByteString>)
    requires Registered(s) && Counter(s) >= 1 && Born(s, t, path, m, first, own) && m.forkedFrom < m.id
    ensures Registered(t)
  {
    hide MetaAt, PathAt, TailAt, RecordAt, RefCountAt, Counter;
    forall id | PathAt(t, id).Some?
      ensures MetaAt(t, PathAt(t, id).value).Some? && MetaAt(t, PathAt(t, id).value).value.id == id
    {
      assert id != m.id ==> MetaAt(s, PathAt(s, id).value).Some?;
    }
    forall p | MetaAt(t, p).Some?
      ensures var n := MetaAt(t, p).value; PathAt(t, n.id) == Some(p) && 1 <= n.id < Counter(t) && n.forkedFrom < n.id
    {
      if p != path {
        RegisteredAt(s, p);
      }
    }
  }

  lemma ForksOfBorn(s: Keyspace, t: Keyspace, path: ByteString, m: StreamMeta, first: nat,
          own: seq<ByteString>, id: nat)
    requires Born(s, t, path, m, first, own)
    ensures |ForksOf(t, id)| == |ForksOf(s, id)| + if m.forkedFrom == id then 1 else 0
  {
    hide ForksOf;
    var before, after := ForksOf(s, id), ForksOf(t, id);
    forall p ensures p in after <==> p in before || (p == path && m.forkedFrom == id) {
      InForksOf(s, id, p);
      InForksOf(t, id, p);
    }
    InForksOf(s, id, path);
    assert after == if m.forkedFrom == id then before + {path} else before;
  }

  lemma {:induction false} BornKeepsInv(l: Life, l': Life, path: ByteString, m: StreamMeta, first: nat,
          own: seq<ByteString>)
    requires Inv(l) && Born(l.store, l'.store, path, m, first, own) && m.forkedFrom < m.id && l.agenda.Idle?
    requires m.forkedFrom != 0 ==> PathAt(l.store, m.forkedFrom).Some? && m.forkOffset <= TailAt(l.store, m.forkedFrom)
    requires l'.agenda == l.agenda && l'.crashed == l.crashed
    ensures Inv(l')
  {
    BornKeepsRegistry(l.store, l'.store, path, m, first, own);
    hide ForksOf, Registered, Unused, Sourced;
    forall id: nat | id != 0 ensures RefCountAt(l'.store, id) >= |ForksOf(l'.store, id)| + Owed(l'.agenda, id)
      && (!l'.crashed ==> RefCountAt(l'.store, id) == |ForksOf(l'.store, id)| + Owed(l'.agenda, id))
    {
      ForksOfBorn(l.store, l'.store, path, m, first, own, id);
    }
  }

  lemma CreateKeepsInv(l: Life, l': Life, path: ByteString, m: StreamMeta, records: seq<ByteString>, now: nat)
    requires Inv(l) && Creates(l, l', path, m, records, now)
    ensures Inv(l') && Born(l.store, l'.store, path, m, 0, records)
  {
    assert Counter(l.store) >= 1;
    hide BirthBatch, Apply, Registered, Sourced, Counted, ForksOf, Born, Unused;
    BirthIsBorn(l.store, path, m, 0, records, now);
    BornKeepsInv(l, l', path, m, 0, records);
  }

  /** A fork that is created leaves its source at or before the source's tail. */
  lemma FreshForkPoint(s: Keyspace, p: ForkParams)
    requires ForkDecision(s, p).Fresh?
    ensures var d := ForkDecision(s, p);
            && MetaAt(s, p.source) == Some(d.src) && MetaAt(s, p.path).None? && p.records.Some?
            && d.at.seqno <= TailAt(s, d.src.id) && (d.at.byte > 0 ==> d.at.seqno < TailAt(s, d.src.id))
            && Diverge(s, d.src, TailAt(s, d.src.id), ForkOff(p, TailAt(s, d.src.id)), SubOf(p)) == Some(d.at)
  {
    hide SeenById;
  }

  /** A fork is refused for a path or source that is gone, a source that is missing or of another type, a bad offset. */
  lemma ForkRefusals(s: Keyspace, p: ForkParams)
    ensures var d := ForkDecision(s, p);
            && (SoftDeleted(s, p.path) || SoftDeleted(s, p.source) ==> d == Denied(409))
            && (!SoftDeleted(s, p.path) && !SoftDeleted(s, p.source) ==>
                  && (MetaAt(s, p.source).None? ==> d == Denied(404))
                  && (MetaAt(s, p.source).Some? ==>
                        var src := MetaAt(s, p.source).value;
                        && (p.mediaType.Some? && p.mediaType.value != src.mediaType ==> d == Denied(409))
                        && (p.mediaType.None? || p.mediaType.value == src.mediaType ==>
                              && (p.at.Malformed? ==> d == Denied(400))
                              && (p.at.At? && p.at.off.seqno > TailAt(s, src.id) ==> d == Denied(400)))))
            && (d.Fresh? ==> MetaAt(s, p.path).None? && p.records.Some?)
            && (d.Same? ==> MetaAt(s, p.path).Some? && d.next == Offset(TailAt(s, MetaAt(s, p.path).value.id), 0))
  {
    hide SeenById, Diverge;
  }

  lemma {:induction false} ForkIsBorn(l: Life, l': Life, p: ForkParams, now: nat)
    requires Registered(l.store) && ForksOff(l, l', p, now)
    ensures var s, d := l.store, ForkDecision(l.store, p);
            var m := ForkMeta(s, p, d.src, d.at, now);
            && m.forkedFrom == d.src.id < m.id && m.forkOffset == d.at.seqno
            && Born(s, l'.store, p.path, m, d.at.seqno, ForkOwn(s, p, d.src, d.at))
  {
    var s, d := l.store, ForkDecision(l.store, p);
    hide ForkDecision, Diverge, BirthBatch, Apply, Born, ForkOwn;
    FreshForkPoint(s, p);
    RegisteredAt(s, p.source);
    var m := ForkMeta(s, p, d.src, d.at, now);
    assert m.id == Counter(s) && m.forkedFrom == d.src.id && m.forkOffset == d.at.seqno;
    BirthIsBorn(s, p.path, m, d.at.seqno, ForkOwn(s, p, d.src, d.at), now);
  }

  lemma {:induction false} ForkKeepsInv(l: Life, l': Life, p: ForkParams, now: nat)
    requires Inv(l) && ForksOff(l, l', p, now)
    ensures var d := ForkDecision(l.store, p);
            && Inv(l')
            && Born(l.store, l'.store, p.path, ForkMeta(l.store, p, d.src, d.at, now), d.at.seqno,
                 ForkOwn(l.store, p, d.src, d.at))
  {
    var s, d := l.store, ForkDecision(l.store, p);
    hide ForksOff, ForkDecision, Diverge, Sourced, Counted, ForksOf, Born, ForkOwn, Unused;
    ForkKeepsAgenda(l, l', p, now);
    ForkIsBorn(l, l', p, now);
    FreshForkPoint(s, p);
    RegisteredAt(s, p.source);
    hide Registered;
    BornKeepsInv(l, l', p.path, ForkMeta(s, p, d.src, d.at, now), d.at.seqno, ForkOwn(s, p, d.src, d.at));
  }

  lemma ForkKeepsAgenda(l: Life, l': Life, p: ForkParams, now: nat)
    requires ForksOff(l, l', p, now)
    ensures ForkDecision(l.store, p).Fresh? && l.agenda.Idle? && l'.agenda == l.agenda && l'.crashed == l.crashed
  {
    hide ForkDecision, ForkBatch, Apply;
  }

  /** A deadline as the source sets it at birth: now + TTL + 1 in 64 bits, the absolute expiry, or none. */
  predicate StartsAt(m: StreamMeta, sliding: bool, now: nat) {
    m.deadline == if sliding then (now + m.ttl + 1) % U64_LIMIT else if m.expiresAt > 0 then m.expiresAt else 0
  }

  lemma FirstDeadlineIs(m: StreamMeta, sliding: bool, now: nat)
    requires m.deadline == FirstDeadline(m.ttl, sliding, m.expiresAt, now)
    ensures StartsAt(m, sliding, now)
  {
  }

  /**
   The fork's lifetime, by the inheritance table of section 4.2 of the Durable Streams
   Protocol: its own TTL, else its own expiry, else the source's TTL, else the source's
   expiry, else none; with the deadline that follows. Type and origin are the source's.
   */
  lemma {:induction false} ForkLifetime(l: Life, l': Life, p: ForkParams, now: nat)
    requires ForksOff(l, l', p, now)
    ensures MetaAt(l.store, p.source).Some? && MetaAt(l'.store, p.path).Some?
    ensures var src, f := MetaAt(l.store, p.source).value, MetaAt(l'.store, p.path).value;
            var given := p.ttl.Some? || p.expiresAt.Some?;
            && (p.ttl.Some? ==> f.ttl == p.ttl.value && f.expiresAt == 0)
            && (p.ttl.None? && p.expiresAt.Some? ==> f.ttl == 0 && f.expiresAt == p.expiresAt.value)
            && (!given && src.ttl > 0 ==> f.ttl == src.ttl && f.expiresAt == 0)
            && (!given && src.ttl == 0 && src.expiresAt > 0 ==> f.ttl == 0 && f.expiresAt == src.expiresAt)
            && (!given && src.ttl == 0 && src.expiresAt <= 0 ==> f.ttl == 0 && f.expiresAt == 0)
            && f.deadline == (if f.ttl > 0 then (now + f.ttl + 1) % U64_LIMIT
                              else if f.expiresAt > 0 then f.expiresAt else 0)
            && f.forkedFrom == src.id && f.mediaType == src.mediaType && f.closed == p.closed
  {
    hide ForksOff, ForkDecision, MetaAt, FirstDeadline;
    ForkWritesMeta(l, l', p, now);
    var d := ForkDecision(l.store, p);
    var m := ForkMeta(l.store, p, d.src, d.at, now);
    FirstDeadlineIs(m, m.ttl > 0, now);
  }

  lemma ForkWritesMeta(l: Life, l': Life, p: ForkParams, now: nat)
    requires ForksOff(l, l', p, now)
    ensures var d := ForkDecision(l.store, p);
            && d.Fresh? && MetaAt(l.store, p.source) == Some(d.src)
            && MetaAt(l'.store, p.path) == Some(ForkMeta(l.store, p, d.src, d.at, now))
  {
    var s, d := l.store, ForkDecision(l.store, p);
    FreshForkPoint(s, p);
    var m, b := ForkMeta(s, p, d.src, d.at, now), ForkBatch(s, p, d.src, d.at, now);
    hide ForkDecision, BirthBatch, Apply, ForkOwn, FirstDeadline, ForkMeta, MetaAt;
    BirthWrites(p.path, m, d.at.seqno, ForkOwn(s, p, d.src, d.at), now);
    assert Meta(p.path) in b && b[Meta(p.path)] == Some(MetaVal(m));
    ApplyMeta(s, b, p.path);
  }

  // ----- a stream dies -----

  ghost predicate Died(s: Keyspace, t: Keyspace, path: ByteString, m: StreamMeta) {
    && MetaAt(s, path) == Some(m) && Counter(t) == Counter(s)
    && (forall p :: MetaAt(t, p) == if p == path then None else MetaAt(s, p))
    && (forall id :: PathAt(t, id) == if id == m.id then None else PathAt(s, id))
    && (forall id :: TailAt(t, id) == if id == m.id then 0 else TailAt(s, id))
    && (forall id :: RefCountAt(t, id) == if id == m.id then 0 else RefCountAt(s, id))
    && (forall id: nat, q: nat :: RecordAt(t, id, q) == RecordAt(s, id, q))
  }

  lemma HardDeleteWrites(path: ByteString, m: StreamMeta)
    ensures var b := HardDeleteBatch(path, m);
            && (forall k :: k in b && !k.DeletePending? ==> b[k] == None)
            && (forall k :: k in b ==> !k.Record? && !k.IdCounter?)
            && (forall p :: Meta(p) in b <==> p == path)
            && (forall id :: (IdMapping(id) in b <==> id == m.id) && (Tail(id) in b <==> id == m.id)
                             && (RefCount(id) in b <==> id == m.id))
  {
  }

  lemma HardDeleteIsDied(s: Keyspace, path: ByteString, m: StreamMeta)
    requires MetaAt(s, path) == Some(m)
    ensures Died(s, Apply(s, HardDeleteBatch(path, m)), path, m)
  {
    HardDeleteWrites(path, m);
    hide HardDeleteBatch;
    var b := HardDeleteBatch(path, m);
    var t := Apply(s, b);
    ApplyCount(s, b, 0);
    hide Apply, MetaAt, PathAt, TailAt, RecordAt, RefCountAt, Counter;
    forall p ensures MetaAt(t, p) == if p == path then None else MetaAt(s, p) {
      ApplyMeta(s, b, p);
    }
    forall id ensures PathAt(t, id) == (if id == m.id then None else PathAt(s, id))
      && TailAt(t, id) == (if id == m.id then 0 else TailAt(s, id))
      && RefCountAt(t, id) == (if id == m.id then 0 else RefCountAt(s, id)) && Counter(t) == Counter(s)
    {
      ApplyPath(s, b, id);
      ApplyTail(s, b, id);
      ApplyCount(s, b, id);
    }
    forall id: nat, q: nat ensures RecordAt(t, id, q) == RecordAt(s, id, q) {
      ApplyRecord(s, b, id, q);
    }
  }

  lemma ForksOfDied(s: Keyspace, t: Keyspace, path: ByteString, m: StreamMeta, id: nat)
    requires Died(s, t, path, m)
    ensures |ForksOf(t, id)| == |ForksOf(s, id)| - if m.forkedFrom == id then 1 else 0
  {
    hide ForksOf;
    var before, after := ForksOf(s, id), ForksOf(t, id);
    forall p ensures p in after <==> p in before && p != path {
      InForksOf(s, id, p);
      InForksOf(t, id, p);
    }
    InForksOf(s, id, path);
    assert after == before - {path};
  }

  /**
   What a hard delete leaves of the stream: no metadata, mapping, tail, Stream-Seq, count
   or index entry, and no tombstone, so that the path is free again; only the marker.
   */
  lemma HardDeleteFreesPath(s: Keyspace, path: ByteString, m: StreamMeta)
    requires MetaAt(s, path) == Some(m)
    ensures var t := Apply(s, HardDeleteBatch(path, m));
            && MetaAt(t, path).None? && !SoftDeleted(t, path) && Tombstone(path) !in t
            && IdMapping(m.id) !in t && Tail(m.id) !in t && WriterSeq(m.id) !in t && RefCount(m.id) !in t
            && Get(t, DeletePending(m.id)) == Some(U64Val(0))
            && (forall p :: p != path ==> (Tombstone(p) in t <==> Tombstone(p) in s))
  {
    var b := HardDeleteBatch(path, m);
    var t := Apply(s, b);
    assert Get(t, Meta(path)) == None && Get(t, Tombstone(path)) == None;
    assert Get(t, IdMapping(m.id)) == Get(t, Tail(m.id)) == Get(t, WriterSeq(m.id)) == Get(t, RefCount(m.id)) == None;
    forall p | p != path ensures Tombstone(p) in t <==> Tombstone(p) in s {
      assert Get(t, Tombstone(p)) == Get(s, Tombstone(p));
    }
  }

  /** Nothing is deleted that a fork still needs. */
  lemma {:induction false} DeletedHasNoForks(l: Life, l': Life, path: ByteString, p: ByteString)
    requires Inv(l) && HardDeletes(l, l', path) && MetaAt(l.store, p).Some?
    ensures MetaAt(l.store, p).value.forkedFrom != MetaAt(l.store, path).value.id
  {
    var s, m := l.store, MetaAt(l.store, path).value;
    RegisteredAt(s, path);
    hide Registered, Unused, Sourced, ForksOf, HardDeleteBatch;
    assert RefCountAt(s, m.id) == 0 && m.id != 0;
    assert |ForksOf(s, m.id)| == 0;
    InForksOf(s, m.id, p);
  }

  lemma DiedKeepsRegistry(s: Keyspace, t: Keyspace, path: ByteString, m: StreamMeta)
    requires Registered(s) && Unused(s) && Sourced(s) && Died(s, t, path, m)
    requires forall p :: MetaAt(s, p).Some? ==> MetaAt(s, p).value.forkedFrom != m.id
    ensures Registered(t) && Unused(t) && Sourced(t)
  {
    hide MetaAt, PathAt, TailAt, RecordAt, RefCountAt, Counter;
    RegisteredAt(s, path);
    forall p | MetaAt(t, p).Some?
      ensures var n := MetaAt(t, p).value; PathAt(t, n.id) == Some(p) && 1 <= n.id < Counter(t) && n.forkedFrom < n.id
    {
      RegisteredAt(s, p);
    }
  }

  lemma {:induction false} HardDeleteKeepsInv(l: Life, l': Life, path: ByteString)
    requires Inv(l) && HardDeletes(l, l', path)
    ensures Inv(l') && Died(l.store, l'.store, path, MetaAt(l.store, path).value)
  {
    var s, t, m := l.store, l'.store, MetaAt(l.store, path).value;
    hide ForksOf, HardDeleteBatch, Apply, Unused, Sourced;
    HardDeleteIsDied(s, path, m);
    RegisteredAt(s, path);
    forall p | MetaAt(s, p).Some? ensures MetaAt(s, p).value.forkedFrom != m.id {
      DeletedHasNoForks(l, l', path, p);
    }
    hide Registered;
    DiedKeepsRegistry(s, t, path, m);
    forall id: nat | id != 0 ensures RefCountAt(t, id) >= |ForksOf(t, id)| + Owed(l'.agenda, id)
      && (!l'.crashed ==> RefCountAt(t, id) == |ForksOf(t, id)| + Owed(l'.agenda, id))
    {
      ForksOfDied(s, t, path, m, id);
    }
  }

  /** Counting down changes one count and nothing else. */
  lemma DropWrites(s: Keyspace, source: nat, count: nat)
    ensures var t := Apply(s, map[RefCount(source) := Some(U64Val(count))]);
            && Counter(t) == Counter(s)
            && (forall p :: MetaAt(t, p) == MetaAt(s, p))
            && (forall id :: PathAt(t, id) == PathAt(s, id) && TailAt(t, id) == TailAt(s, id))
            && (forall id :: RefCountAt(t, id) == if id == source then count else RefCountAt(s, id))
            && (forall id: nat, q: nat :: RecordAt(t, id, q) == RecordAt(s, id, q))
  {
    var b: Batch := map[RefCount(source) := Some(U64Val(count))];
    var t := Apply(s, b);
    ApplyCount(s, b, 0);
    hide Apply, MetaAt, PathAt, TailAt, RecordAt, RefCountAt, Counter;
    forall p ensures MetaAt(t, p) == MetaAt(s, p) {
      ApplyMeta(s, b, p);
    }
    forall id ensures PathAt(t, id) == PathAt(s, id) && TailAt(t, id) == TailAt(s, id)
      && RefCountAt(t, id) == (if id == source then count else RefCountAt(s, id))
    {
      ApplyPath(s, b, id);
      ApplyTail(s, b, id);
      ApplyCount(s, b, id);
    }
    forall id: nat, q: nat ensures RecordAt(t, id, q) == RecordAt(s, id, q) {
      ApplyRecord(s, b, id, q);
    }
  }

  lemma {:induction false} DropKeepsInv(l: Life, l': Life)
    requires Inv(l) && Drops(l, l')
    ensures Inv(l')
    ensures forall p :: MetaAt(l'.store, p) == MetaAt(l.store, p)
    ensures forall id :: PathAt(l'.store, id) == PathAt(l.store, id) && TailAt(l'.store, id) == TailAt(l.store, id)
    ensures forall id: nat, q: nat :: RecordAt(l'.store, id, q) == RecordAt(l.store, id, q)
  {
    var s, t, source := l.store, l'.store, l.agenda.source;
    var count := if RefCountAt(s, source) > 0 then RefCountAt(s, source) - 1 else 0;
    hide ForksOf, Apply, Registered, Unused, Sourced;
    DropWrites(s, source, count);
    hide MetaAt, PathAt, TailAt, RecordAt, RefCountAt, Counter;
    forall id: nat | id != 0 ensures RefCountAt(t, id) >= |ForksOf(t, id)| + Owed(l'.agenda, id)
      && (!l'.crashed ==> RefCountAt(t, id) == |ForksOf(t, id)| + Owed(l'.agenda, id))
    {
      ForksOfAgree(s, t, id);
    }
    SameRegistry(s, t);
    if l'.agenda.Cascade? {
      PathIsRegistered(t, source);
    }
  }

  lemma SameRegistry(s: Keyspace, t: Keyspace)
    requires Registered(s) && Unused(s) && Sourced(s) && Counter(t) == Counter(s)
    requires forall p :: MetaAt(t, p) == MetaAt(s, p)
    requires forall id :: PathAt(t, id) == PathAt(s, id) && TailAt(t, id) == TailAt(s, id)
    requires forall id :: RefCountAt(t, id) > 0 ==> RefCountAt(s, id) > 0
    requires forall id: nat, q: nat :: RecordAt(t, id, q) == RecordAt(s, id, q)
    ensures Registered(t) && Unused(t) && Sourced(t)
  {
  }

  lemma PathIsRegistered(s: Keyspace, id: nat)
    requires Registered(s) && PathAt(s, id).Some?
    ensures MetaAt(s, PathAt(s, id).value).Some? && MetaAt(s, PathAt(s, id).value).value.id == id
  {
  }

  // ----- runs -----

  lemma {:induction false} NextKeepsInv(l: Life, l': Life, step: Step)
    requires Inv(l) && Next(l, l', step)
    ensures Inv(l')
  {
    match step {
      case CreateStep(path, m, records, now) => CreateKeepsInv(l, l', path, m, records, now);
      case ForkStep(p, now) => ForkKeepsInv(l, l', p, now);
      case HardDeleteStep(path) => HardDeleteKeepsInv(l, l', path);
      case DropStep => DropKeepsInv(l, l');
      case AppendStep(path, e, now) =>
        AppendIsQuiet(l, l', path, e, now);
        QuietKeepsInv(l, l');
      case CrashStep =>
        hide Registered, Unused, Sourced, ForksOf;
      case _ =>
        OtherQuietSteps(l, l', step);
        QuietKeepsInv(l, l');
    }
  }

  ghost predicate Run(states: seq<Life>, steps: seq<Step>) {
    && |states| == |steps| + 1
    && states[0] == Life(map[], Idle, false)
    && forall i :: 0 <= i < |steps| ==> Next(states[i], states[i + 1], steps[i])
  }

  lemma EmptyStoreIsFine()
    ensures Inv(Life(map[], Idle, false))
  {
    assert forall id :: ForksOf(map[], id) == {};
  }

  /** Over every run of create, fork, append and DELETE, with a crash after any commit, the invariant holds. */
  lemma {:induction false} RunKeepsInv(states: seq<Life>, steps: seq<Step>, i: nat)
    requires Run(states, steps) && i < |states|
    ensures Inv(states[i])
  {
    hide Inv, Next;
    if i == 0 {
      EmptyStoreIsFine();
    } else {
      RunKeepsInv(states, steps, i - 1);
      assert Next(states[i - 1], states[i - 1 + 1], steps[i - 1]);
      NextKeepsInv(states[i - 1], states[i], steps[i - 1]);
    }
  }

  // ----- what a reader sees is never taken back -----

  /**
   Every stream except `dead` is still there in t, of the same descent, with the same
   records below its tail; nothing forks from `dead`.
   */
  ghost predicate Keeps(s: Keyspace, t: Keyspace, dead: nat) {
    && (forall p :: MetaAt(s, p).Some? && MetaAt(s, p).value.id != dead ==> SameStream(MetaAt(s, p), MetaAt(t, p)))
    && (forall p :: MetaAt(s, p).Some? && MetaAt(s, p).value.forkedFrom != 0 ==> MetaAt(s, p).value.forkedFrom != dead)
    && (forall id :: PathAt(s, id).Some? && id != dead ==> PathAt(t, id) == PathAt(s, id))
    && (forall id: nat, q: nat :: PathAt(s, id).Some? && id != dead && q < TailAt(s, id) ==>
                                  RecordAt(t, id, q) == RecordAt(s, id, q))
  }

  lemma {:induction false} ViewKept(s: Keyspace, t: Keyspace, dead: nat, p: ByteString, q: nat)
    requires Registered(s) && Sourced(s) && Keeps(s, t, dead)
    requires MetaAt(s, p).Some? && MetaAt(s, p).value.id != dead && q < TailAt(s, MetaAt(s, p).value.id)
    ensures var m := MetaAt(s, p).value;
            SeenAt(t, m.id, m.forkedFrom, m.forkOffset, q) == SeenAt(s, m.id, m.forkedFrom, m.forkOffset, q)
    decreases MetaAt(s, p).value.id
  {
    var m := MetaAt(s, p).value;
    RegisteredAt(s, p);
    hide RecordAt, TailAt;
    if m.forkedFrom != 0 && q < m.forkOffset {
      assert PathAt(s, m.forkedFrom).Some? && m.forkOffset <= TailAt(s, m.forkedFrom);
      PathIsRegistered(s, m.forkedFrom);
      var source := PathAt(s, m.forkedFrom).value;
      assert SameStream(MetaAt(s, source), MetaAt(t, source));
      hide Registered, Sourced, Keeps, MetaAt, PathAt;
      ViewKept(s, t, dead, source, q);
    }
  }

  /** The id, if any, that a step removes. */
  function Removed(l: Life, step: Step): nat {
    if step.HardDeleteStep? && MetaAt(l.store, step.path).Some? then MetaAt(l.store, step.path).value.id else 0
  }

  lemma {:induction false} StepKeeps(l: Life, l': Life, step: Step)
    requires Inv(l) && Next(l, l', step)
    ensures Keeps(l.store, l'.store, Removed(l, step))
  {
    NoZeroId(l.store);
    match step {
      case CreateStep(path, m, records, now) =>
        CreateKeepsInv(l, l', path, m, records, now);
        BornKeeps(l.store, l'.store, path, m, 0, records);
      case ForkStep(p, now) =>
        ForkKeepsInv(l, l', p, now);
        var d := ForkDecision(l.store, p);
        hide ForkDecision, ForkOwn, Inv, Next;
        BornKeeps(l.store, l'.store, p.path, ForkMeta(l.store, p, d.src, d.at, now), d.at.seqno,
            ForkOwn(l.store, p, d.src, d.at));
      case HardDeleteStep(path) =>
        HardDeleteKeepsInv(l, l', path);
        DiedKeeps(l, l', path);
      case DropStep =>
        DropKeepsInv(l, l');
        hide Inv, Next, ForksOf;
      case AppendStep(path, e, now) =>
        AppendIsQuiet(l, l', path, e, now);
        hide Inv, Next, ForksOf;
      case CrashStep =>
      case _ =>
        OtherQuietSteps(l, l', step);
        hide Inv, Next, ForksOf;
    }
  }

  lemma NoZeroId(s: Keyspace)
    requires Registered(s)
    ensures PathAt(s, 0).None? && forall p :: MetaAt(s, p).Some? ==> MetaAt(s, p).value.id != 0
  {
    hide MetaAt, PathAt, Counter;
    if PathAt(s, 0).Some? {
      PathIsRegistered(s, 0);
      RegisteredAt(s, PathAt(s, 0).value);
      assert false;
    }
  }

  lemma BornKeeps(s: Keyspace, t: Keyspace, path: ByteString, m: StreamMeta, first: nat, own: seq<ByteString>)
    requires Registered(s) && Born(s, t, path, m, first, own) && PathAt(s, 0).None?
    requires forall p :: MetaAt(s, p).Some? ==> MetaAt(s, p).value.id != 0
    ensures Keeps(s, t, 0)
  {
    hide MetaAt, PathAt, TailAt, RecordAt, RefCountAt, Counter;
    forall id | PathAt(s, id).Some? ensures id != m.id {
      PathIsRegistered(s, id);
      RegisteredAt(s, PathAt(s, id).value);
    }
  }

  lemma DiedKeeps(l: Life, l': Life, path: ByteString)
    requires Inv(l) && HardDeletes(l, l', path) && Died(l.store, l'.store, path, MetaAt(l.store, path).value)
    ensures Keeps(l.store, l'.store, MetaAt(l.store, path).value.id)
  {
    var s, m := l.store, MetaAt(l.store, path).value;
    forall p | MetaAt(s, p).Some?
      ensures MetaAt(s, p).value.forkedFrom != m.id && (p == path <==> MetaAt(s, p).value.id == m.id)
    {
      DeletedHasNoForks(l, l', path, p);
      RegisteredAt(s, p);
      RegisteredAt(s, path);
    }
    hide Inv, HardDeletes, MetaAt, PathAt, TailAt, RecordAt, RefCountAt, Counter;
  }

  /**
   Isolation. In every run, no step on any stream changes what a reader of another
   stream, or of the same one, has below its tail, as long as that stream exists.
   */
  lemma {:induction false} ViewsAreStable(states: seq<Life>, steps: seq<Step>, i: nat, p: ByteString, q: nat)
    requires Run(states, steps) && i < |steps|
    requires var s := states[i].store;
             MetaAt(s, p).Some? && MetaAt(s, p).value.id != Removed(states[i], steps[i])
               && q < TailAt(s, MetaAt(s, p).value.id)
    ensures var s, t := states[i].store, states[i + 1].store;
            && SameStream(MetaAt(s, p), MetaAt(t, p))
            && SeenById(t, MetaAt(s, p).value.id, q) == SeenById(s, MetaAt(s, p).value.id, q)
  {
    var l, l' := states[i], states[i + 1];
    var s, t := l.store, l'.store;
    var id := MetaAt(s, p).value.id;
    RunKeepsInv(states, steps, i);
    assert Next(l, l', steps[i]);
    hide Run, Next, ForksOf, Removed;
    StepKeeps(l, l', steps[i]);
    RegisteredAt(s, p);
    assert SameStream(MetaAt(s, p), MetaAt(t, p)) && PathAt(t, id) == PathAt(s, id) == Some(p);
    hide Inv;
    ViewKept(s, t, Removed(l, steps[i]), p, q);
  }

  /** Reference counts are safe: a fork's source, its mapping and its whole chain of ancestors are there. */
  lemma {:induction false} AncestorsSurvive(states: seq<Life>, steps: seq<Step>, i: nat, p: ByteString)
    requires Run(states, steps) && i < |states| && MetaAt(states[i].store, p).Some?
    ensures var m := MetaAt(states[i].store, p).value; Alive(states[i].store, m.id, m.forkedFrom)
    ensures ForksDescend(states[i].store)
    ensures forall id :: id != 0 ==> RefCountAt(states[i].store, id) >= |ForksOf(states[i].store, id)|
    ensures !states[i].crashed && states[i].agenda.Idle? ==>
              forall id :: id != 0 ==> RefCountAt(states[i].store, id) == |ForksOf(states[i].store, id)|
  {
    RunKeepsInv(states, steps, i);
    hide Run, ForksOf;
    ChainAlive(states[i].store, p);
    Descends(states[i].store);
  }

  lemma {:induction false} ChainAlive(s: Keyspace, p: ByteString)
    requires Registered(s) && Sourced(s) && MetaAt(s, p).Some?
    ensures var m := MetaAt(s, p).value; Alive(s, m.id, m.forkedFrom)
    decreases MetaAt(s, p).value.id
  {
    var m := MetaAt(s, p).value;
    RegisteredAt(s, p);
    if m.forkedFrom != 0 {
      assert PathAt(s, m.forkedFrom).Some?;
      PathIsRegistered(s, m.forkedFrom);
      hide Registered, Sourced, MetaAt, PathAt;
      ChainAlive(s, PathAt(s, m.forkedFrom).value);
    }
  }

  lemma Descends(s: Keyspace)
    requires Registered(s)
    ensures ForksDescend(s)
  {
    forall id | MetaById(s, id).Some? ensures MetaById(s, id).value.forkedFrom < id {
      PathIsRegistered(s, id);
      RegisteredAt(s, PathAt(s, id).value);
    }
  }
}
