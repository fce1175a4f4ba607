/**
 The metadata operations of the server as it runs them, holding the metadata lock:
 each commit they make is one step of the lifecycle, so that every state a crash can
 leave is one of those the lifecycle's invariant covers.
 */
module LifecycleServer {
  import opened Bytes
  import opened Store
  import opened Appends
  import opened Forks
  import opened Lifecycle

  /** A history of commits, each a step from the state before. */
  ghost predicate Linked(trace: seq<Life>, steps: seq<Step>) {
    && |trace| == |steps| + 1
    && forall i :: 0 <= i < |steps| ==> Next(trace[i], trace[i + 1], steps[i])
  }

  lemma LinkOneMore(trace: seq<Life>, steps: seq<Step>, l: Life, step: Step)
    requires Linked(trace, steps) && Next(trace[|trace| - 1], l, step)
    ensures Linked(trace + [l], steps + [step])
  {
    hide Next;
    var more, all := trace + [l], steps + [step];
    forall i | 0 <= i < |all| ensures Next(more[i], more[i + 1], all[i]) {
      if i < |steps| {
        assert Next(trace[i], trace[i + 1], steps[i]);
      }
    }
  }

  /** What a client asks of a new stream. */
  datatype Config = Config(mediaType: MediaType, ttl: Option<nat>, expiresAt: Option<int>, closed: bool)

  function OrZero(n: Option<int>): int {
    if n.Some? then n.value else 0
  }

  /** An existing stream answers a repeated create only if it was asked for in the same way. */
  predicate Configured(m: StreamMeta, c: Config) {
    m.mediaType == c.mediaType && m.ttl == OrZero(c.ttl) && m.expiresAt == OrZero(c.expiresAt) && m.closed == c.closed
  }

  function NewMeta(id: nat, c: Config, now: nat): (m: StreamMeta)
    ensures Configured(m, c)
  {
    StreamMeta(id, c.mediaType, OrZero(c.ttl), OrZero(c.expiresAt), c.closed,
        FirstDeadline(OrZero(c.ttl), c.ttl.Some?, OrZero(c.expiresAt), now), 0, 0, 0)
  }

  lemma NewMetaStarts(id: nat, c: Config, now: nat)
    ensures StartsAt(NewMeta(id, c, now), c.ttl.Some?, now)
  {
    FirstDeadlineIs(NewMeta(id, c, now), c.ttl.Some?, now);
  }

  lemma BornMeta(s: Keyspace, t: Keyspace, path: ByteString, m: StreamMeta, first: nat, own: seq<ByteString>)
    requires Born(s, t, path, m, first, own)
    ensures MetaAt(t, path) == Some(m)
  {
  }

  /** What a hard delete does to counter, metadata and tombstones. */
  lemma Gone(s: Keyspace, path: ByteString, m: StreamMeta)
    requires MetaAt(s, path) == Some(m)
    ensures var t := Apply(s, HardDeleteBatch(path, m));
            && Counter(t) == Counter(s) && (forall p :: MetaAt(t, p) == if p == path then None else MetaAt(s, p))
            && Tombstone(path) !in t && (forall p :: p != path ==> (Tombstone(p) in t <==> Tombstone(p) in s))
  {
    HardDeleteIsDied(s, path, m);
    HardDeleteFreesPath(s, path, m);
    hide HardDeleteBatch, Apply, MetaAt, SoftDeleted;
  }

  lemma TombstoneKeepsMeta(s: Keyspace, path: ByteString, id: nat)
    ensures var t := Apply(s, map[Tombstone(path) := Some(TombstoneVal(true, id))]);
            Counter(t) == Counter(s) && forall p :: MetaAt(t, p) == MetaAt(s, p)
  {
    var b: Batch := map[Tombstone(path) := Some(TombstoneVal(true, id))];
    ApplyCount(s, b, 0);
    hide Apply;
    forall p ensures MetaAt(Apply(s, b), p) == MetaAt(s, p) {
      ApplyMeta(s, b, p);
    }
  }

  class MetaServer {
    var store: Keyspace
    var nextID: nat
    ghost var trace: seq<Life>
    ghost var steps: seq<Step>

    ghost function Current(): Life
      reads this
      requires |trace| > 0
    {
      trace[|trace| - 1]
    }

    ghost predicate Valid()
      reads this
    {
      && |trace| > 0 && Linked(trace, steps) && Current().store == store && Inv(Current()) && nextID == Counter(store)
    }

    constructor ()
      ensures Valid() && trace == [Life(map[], Idle, false)]
    {
      store, nextID, trace, steps := map[], 1, [Life(map[], Idle, false)], [];
      new;
      EmptyStoreIsFine();
    }

    /** One durable commit: the next state of the history. */
    ghost method Record(l: Life, step: Step)
      requires |trace| > 0 && Linked(trace, steps) && Inv(Current()) && Next(Current(), l, step)
      modifies this`trace, this`steps
      ensures trace == old(trace) + [l] && Linked(trace, steps) && Inv(Current())
    {
      hide Next, Inv;
      NextKeepsInv(Current(), l, step);
      LinkOneMore(trace, steps, l, step);
      trace, steps := trace + [l], steps + [step];
    }

    /** createStream. `records` is None when the initial body does not parse. */
    method CreateStream(path: ByteString, c: Config, records: Option<seq<ByteString>>, now: nat)
      returns (status: nat, next: Offset)
      requires Valid() && Current().agenda.Idle?
      modifies this
      ensures Valid() && Current().agenda.Idle? && old(trace) <= trace
      ensures status == 201 <==> old(!SoftDeleted(store, path) && MetaAt(store, path).None?) && records.Some?
      ensures status == 201 ==> Born(old(store), store, path, NewMeta(old(nextID), c, now), 0, records.value)
                                && next == Offset(|records.value|, 0)
      ensures status == 200 <==>
              old(!SoftDeleted(store, path) && MetaAt(store, path).Some? && Configured(MetaAt(store, path).value, c))
      ensures status == 201 ==>
                MetaAt(store, path).Some? && Configured(MetaAt(store, path).value, c)
                && StartsAt(MetaAt(store, path).value, c.ttl.Some?, now)
      ensures status == 400 <==> old(!SoftDeleted(store, path) && MetaAt(store, path).None?) && records.None?
      ensures status in {200, 201, 400, 409}
      ensures status != 201 ==> store == old(store)
      ensures status == 200 ==> next == Offset(TailAt(store, MetaAt(store, path).value.id), 0)
    {
      hide Inv, Next, Linked, Born, NewMeta;
      next := Offset(0, 0);
      if SoftDeleted(store, path) {
        return 409, next;
      }
      var existing := MetaAt(store, path);
      if existing.Some? {
        var m := existing.value;
        if Configured(m, c) {
          return 200, Offset(TailAt(store, m.id), 0);
        }
        return 409, next;
      }
      if records.None? {
        return 400, next;
      }
      Establish(path, c, records.value, now);
      NewMetaStarts(old(nextID), c, now);
      BornMeta(old(store), store, path, NewMeta(old(nextID), c, now), 0, records.value);
      return 201, Offset(|records.value|, 0);
    }

    method Establish(path: ByteString, c: Config, records: seq<ByteString>, now: nat)
      requires Valid() && Current().agenda.Idle? && !SoftDeleted(store, path) && MetaAt(store, path).None?
      modifies this
      ensures Valid() && Current().agenda.Idle? && old(trace) <= trace
      ensures Born(old(store), store, path, NewMeta(old(nextID), c, now), 0, records)
    {
      hide Inv, Next, Linked, Born, BirthBatch, Apply;
      var id := nextID;
      var m := NewMeta(id, c, now);
      ghost var l := Current();
      store := Apply(store, BirthBatch(path, m, 0, records, now));
      nextID := id + 1;
      ghost var l' := l.(store := store);
      assert Creates(l, l', path, m, records, now);
      CreateKeepsInv(l, l', path, m, records, now);
      StepIsNext(l, l', CreateStep(path, m, records, now));
      Record(l', CreateStep(path, m, records, now));
      BornCounter(l.store, l'.store, path, m, 0, records);
    }

    /** createFork: the answer is the decision, and only a fresh fork changes anything. */
    method CreateFork(p: ForkParams, now: nat) returns (status: nat, next: Offset)
      requires Valid() && Current().agenda.Idle?
      modifies this
      ensures Valid() && Current().agenda.Idle? && old(trace) <= trace
      ensures var d := ForkDecision(old(store), p);
              match d
              case Denied(code) => status == code && store == old(store)
              case Same(off) => status == 200 && next == off && store == old(store)
              case Fresh(src, at) =>
                && status == 201 && ForksOff(old(Current()), Current(), p, now)
                && next == Offset(at.seqno + |ForkOwn(old(store), p, src, at)|, 0)
    {
      hide Inv, Next, Linked, Born, ForkOwn, ForkBatch;
      next := Offset(0, 0);
      var d := DecideFork(p);
      match d
      case Denied(code) =>
        return code, next;
      case Same(off) =>
        return 200, off;
      case Fresh(src, at) =>
        hide ForkDecision;
        ghost var l := Current();
        var tail := at.seqno + |ForkOwn(store, p, src, at)|;
        store := Apply(store, ForkBatch(store, p, src, at, now));
        ghost var l' := l.(store := store);
        ForkKeepsInv(l, l', p, now);
        StepIsNext(l, l', ForkStep(p, now));
        Record(l', ForkStep(p, now));
        ForkCounter(l, l', p, now);
        nextID := nextID + 1;
        return 201, Offset(tail, 0);
    }

    /** The checks of createFork, in order. */
    method DecideFork(p: ForkParams) returns (d: ForkAnswer)
      requires Valid()
      ensures d == ForkDecision(store, p)
    {
      hide Linked, Inv;
      if SoftDeleted(store, p.path) {
        return Denied(409);
      }
      if SoftDeleted(store, p.source) {
        return Denied(409);
      }
      var found := MetaAt(store, p.source);
      if found.None? {
        return Denied(404);
      }
      var src := found.value;
      var tail := TailAt(store, src.id);
      if p.mediaType.Some? && p.mediaType.value != src.mediaType {
        return Denied(409);
      }
      var off := Offset(tail, 0);
      match p.at {
        case Malformed => return Denied(400);
        case At(o) => off := o;
        case _ =>
      }
      if off.seqno > tail || (off.seqno == tail && off.byte > 0) {
        return Denied(400);
      }
      var sub := 0;
      if !p.sub.NoSub? {
        if p.sub.BadSub? {
          return Denied(400);
        }
        var n := p.sub.n;
        if n > 0 && p.at.Default? {
          return Denied(400);
        }
        if n > 0 && tail == 0 {
          return Denied(400);
        }
        sub := n;
      }
      var at := ForkPoint(p.source, src, tail, off, sub);
      if at.None? {
        return Denied(400);
      }
      d := Settle(p, src, at.value);
    }

    /** The effective divergence point; None when the sub-offset overshoots. */
    method ForkPoint(source: ByteString, src: StreamMeta, tail: nat, off: Offset, sub: nat) returns (at: Option<Offset>)
      requires Valid() && MetaAt(store, source) == Some(src)
      ensures at == Diverge(store, src, tail, off, sub)
    {
      hide Linked, Inv, SeenById;
      if src.mediaType == Json {
        var seqno := off.seqno + sub;
        if seqno > tail {
          return None;
        }
        return Some(Offset(seqno, 0));
      }
      var combined := off.byte + sub;
      if combined == 0 {
        return Some(off);
      }
      if off.seqno >= tail {
        return None;
      }
      InvReadable(Current(), source);
      var payload := RecordOf(store, src.id, off.seqno);
      if payload.None? || combined > |payload.value| {
        return None;
      }
      if combined == |payload.value| {
        return Some(Offset(off.seqno + 1, 0));
      }
      return Some(Offset(off.seqno, combined));
    }

    /**
     An existing stream at the target must be this same fork; a new one must be able to
     materialise its first record.
     */
    method Settle(p: ForkParams, src: StreamMeta, at: Offset) returns (d: ForkAnswer)
      requires Valid() && MetaAt(store, p.source) == Some(src)
      ensures d == if MetaAt(store, p.path).Some? then
                     var m := MetaAt(store, p.path).value;
                     if m.forkedFrom == src.id && m.forkOffset == at.seqno && m.forkByte == at.byte
                       && m.mediaType == src.mediaType
                        && (m.ttl, m.expiresAt) == ForkTTL(src, p) && m.closed == p.closed
                     then Same(Offset(TailAt(store, m.id), 0)) else Denied(409)
                   else if at.byte > 0 && SeenById(store, src.id, at.seqno).None? then Denied(500)
                   else if p.records.None? then Denied(400)
                   else Fresh(src, at)
    {
      hide Linked, Inv, SeenById;
      var existing := MetaAt(store, p.path);
      if existing.Some? {
        var m := existing.value;
        var (ttl, expiresAt) := ForkTTL(src, p);
        if m.forkedFrom == src.id && m.forkOffset == at.seqno && m.forkByte == at.byte && m.mediaType == src.mediaType
          && m.ttl == ttl && m.expiresAt == expiresAt && m.closed == p.closed {
          return Same(Offset(TailAt(store, m.id), 0));
        }
        return Denied(409);
      }
      if at.byte > 0 {
        InvReadable(Current(), p.source);
        var payload := RecordOf(store, src.id, at.seqno);
        if payload.None? {
          return Denied(500);
        }
      }
      if p.records.None? {
        return Denied(400);
      }
      return Fresh(src, at);
    }

    /** deleteStream: gone, missing, soft-deleted while forks refer to it, or deleted with all that this releases. */
    method DeleteStream(path: ByteString) returns (status: nat)
      requires Valid() && Current().agenda.Idle?
      modifies this
      ensures Valid() && Current().agenda.Idle? && old(trace) <= trace
      ensures status == 410 <==> old(SoftDeleted(store, path))
      ensures status == 404 <==> old(!SoftDeleted(store, path) && MetaAt(store, path).None?)
      ensures status == 410 || status == 404 ==> store == old(store)
      ensures status == 204 <==> old(!SoftDeleted(store, path) && MetaAt(store, path).Some?)
      ensures status == 204 && old(RefCountAt(store, MetaAt(store, path).value.id)) > 0 ==>
              SoftDeletes(old(Current()), Current(), path)
      ensures status == 204 && old(RefCountAt(store, MetaAt(store, path).value.id)) == 0 ==>
              MetaAt(store, path).None? && Tombstone(path) !in store
      ensures forall p :: p != path && Tombstone(p) !in old(store) ==> MetaAt(store, p) == MetaAt(old(store), p)
    {
      hide Inv, Next, Linked;
      if SoftDeleted(store, path) {
        return 410;
      }
      var found := MetaAt(store, path);
      if found.None? {
        return 404;
      }
      var m := found.value;
      if RefCountAt(store, m.id) > 0 {
        ghost var l := Current();
        store := Apply(store, map[Tombstone(path) := Some(TombstoneVal(true, m.id))]);
        ghost var l' := l.(store := store);
        StepIsNext(l, l', SoftDeleteStep(path));
        Record(l', SoftDeleteStep(path));
        TombstoneKeepsMeta(l.store, path, m.id);
        return 204;
      }
      DeleteStreamLocked(path, m);
      return 204;
    }

    method DeleteStreamLocked(path: ByteString, m: StreamMeta)
      requires Valid() && MetaAt(store, path) == Some(m)
      requires Current().agenda == Cascade(path)
               || (Current().agenda.Idle? && !SoftDeleted(store, path) && RefCountAt(store, m.id) == 0)
      modifies this
      ensures Valid() && Current().agenda.Idle? && old(trace) <= trace
      ensures MetaAt(store, path).None? && forall p :: MetaAt(store, p).Some? ==> MetaAt(old(store), p).Some?
      ensures Tombstone(path) !in store && forall p :: Tombstone(p) in store ==> Tombstone(p) in old(store)
      ensures forall p :: p != path && Tombstone(p) !in old(store) ==> MetaAt(store, p) == MetaAt(old(store), p)
      decreases m.id, 0
    {
      hide Inv, Next, Linked, HardDeleteBatch, Apply, Died, MetaAt;
      Gone(store, path, m);
      ghost var l := Current();
      InvRegistered(l, path);
      store := Apply(store, HardDeleteBatch(path, m));
      ghost var l' := l.(store := store, agenda := if m.forkedFrom != 0 then DropRef(m.forkedFrom) else Idle);
      HardDeleteKeepsInv(l, l', path);
      StepIsNext(l, l', HardDeleteStep(path));
      Record(l', HardDeleteStep(path));
      if m.forkedFrom != 0 {
        DropForkRef(m.forkedFrom);
      }
    }

    method DropForkRef(source: nat)
      requires Valid() && Current().agenda == DropRef(source)
      modifies this
      ensures Valid() && Current().agenda.Idle? && old(trace) <= trace
      ensures forall p :: MetaAt(store, p).Some? ==> MetaAt(old(store), p).Some?
      ensures forall p :: Tombstone(p) in store ==> Tombstone(p) in old(store)
      ensures forall p :: Tombstone(p) !in old(store) ==> MetaAt(store, p) == MetaAt(old(store), p)
      decreases source, 1
    {
      hide Inv, Next, Linked, Apply;
      ghost var l := Current();
      var count := RefCountAt(store, source);
      if count > 0 {
        count := count - 1;
      }
      store := Apply(store, map[RefCount(source) := Some(U64Val(count))]);
      ghost var l' := l.(store := store, agenda := AfterDrop(store, source, count));
      DropKeepsInv(l, l');
      DropWrites(l.store, source, count);
      DropKeepsTombstones(l.store, source, count);
      StepIsNext(l, l', DropStep);
      Record(l', DropStep);
      if count > 0 {
        return;
      }
      var path := PathAt(store, source);
      if path.None? {
        return;
      }
      var meta := MetaAt(store, path.value);
      if meta.None? {
        return;
      }
      if Tombstone(path.value) in store {
        InvMapped(l', source);
        DeleteStreamLocked(path.value, meta.value);
      }
    }
  }

  lemma DropKeepsTombstones(s: Keyspace, source: nat, count: nat)
    ensures forall p :: Tombstone(p) in Apply(s, map[RefCount(source) := Some(U64Val(count))]) <==> Tombstone(p) in s
  {
    var t := Apply(s, map[RefCount(source) := Some(U64Val(count))]);
    forall p ensures Tombstone(p) in t <==> Tombstone(p) in s {
      assert Get(t, Tombstone(p)) == Get(s, Tombstone(p));
    }
  }

  lemma StepIsNext(l: Life, l': Life, step: Step)
    requires match step
             case CreateStep(path, m, records, now) => Creates(l, l', path, m, records, now)
             case ForkStep(p, now) => ForksOff(l, l', p, now)
             case SoftDeleteStep(path) => SoftDeletes(l, l', path)
             case HardDeleteStep(path) => HardDeletes(l, l', path)
             case DropStep => Drops(l, l')
             case _ => false
    ensures Next(l, l', step)
  {
    hide Creates, ForksOff, SoftDeletes, HardDeletes, Drops;
  }

  lemma BornCounter(s: Keyspace, t: Keyspace, path: ByteString, m: StreamMeta, first: nat, own: seq<ByteString>)
    requires Born(s, t, path, m, first, own)
    ensures Counter(t) == m.id + 1
  {
  }

  lemma ForkCounter(l: Life, l': Life, p: ForkParams, now: nat)
    requires Inv(l) && ForksOff(l, l', p, now)
    ensures Counter(l'.store) == Counter(l.store) + 1
  {
    hide ForkDecision, ForkOwn, Inv;
    ForkKeepsInv(l, l', p, now);
  }

  lemma InvRegistered(l: Life, path: ByteString)
    requires Inv(l) && MetaAt(l.store, path).Some?
    ensures MetaAt(l.store, path).value.forkedFrom < MetaAt(l.store, path).value.id
  {
    hide Counted, Unused, Sourced, AgendaOk;
    RegisteredAt(l.store, path);
  }

  lemma InvReadable(l: Life, path: ByteString)
    requires Inv(l) && MetaAt(l.store, path).Some?
    ensures var m := MetaAt(l.store, path).value;
            ForksDescend(l.store) && PathAt(l.store, m.id) == Some(path) && Alive(l.store, m.id, m.forkedFrom)
  {
    hide Counted, Unused, AgendaOk, Alive, ForksDescend;
    ChainAlive(l.store, path);
    Descends(l.store);
    RegisteredAt(l.store, path);
  }

  lemma InvMapped(l: Life, id: nat)
    requires Inv(l) && PathAt(l.store, id).Some?
    ensures MetaAt(l.store, PathAt(l.store, id).value).Some?
            && MetaAt(l.store, PathAt(l.store, id).value).value.id == id
  {
    hide Counted, Unused, Sourced, AgendaOk;
    PathIsRegistered(l.store, id);
  }
}
