/**
 After a crash at any point of any run, every interrupted deletion can be resumed:
 what a hard delete marks, no later create, fork, burst, refresh or sweep disturbs.
 */
module Resumption {
  import opened Bytes
  import opened Store
  import opened Appends
  import opened Streamer
  import opened Lifecycle
  import opened Sweeps
  import opened Deleter

  /** No record of the stream is left below the persisted cursor. */
  ghost predicate CursorOk(s: Keyspace, id: nat) {
    CursorAt(s, id) < U64_LIMIT && forall q: nat :: q < CursorAt(s, id) ==> Record(id, q) !in s
  }

  /** Streams marked for deletion no longer exist, and their cursors are right. */
  ghost predicate PendingOk(s: Keyspace) {
    forall id: nat :: DeletePending(id) in s ==> PathAt(s, id).None? && id < Counter(s) && CursorOk(s, id)
  }

  lemma PendingIsResumable(s: Keyspace)
    requires PendingOk(s) && AllFit(s)
    ensures AllResumable(s)
  {
    forall id | DeletePending(id) in s ensures Resumable(s, id) {
      assert Fits(DeletePending(id));
      forall k | k in s && k.Record? && k.id == id ensures k.seqno >= CursorAt(s, id) {
        assert k == Record(id, k.seqno);
      }
    }
  }

  /** A batch that neither marks a stream nor writes records of a marked one. */
  lemma {:induction false} BatchKeepsPending(s: Keyspace, b: Batch)
    requires PendingOk(s) && Counter(Apply(s, b)) >= Counter(s)
    requires forall k :: k in b ==> !k.DeletePending? && (k.Record? || k.IdMapping? ==> DeletePending(k.id) !in s)
    ensures PendingOk(Apply(s, b))
  {
    var t := Apply(s, b);
    forall id: nat | DeletePending(id) in t ensures PathAt(t, id).None? && id < Counter(t) && CursorOk(t, id) {
      assert Get(t, DeletePending(id)) == Get(s, DeletePending(id));
      ApplyPath(s, b, id);
      forall q: nat | q < CursorAt(t, id) ensures Record(id, q) !in t {
        assert Record(id, q) !in s;
        assert Get(t, Record(id, q)) == Get(s, Record(id, q));
      }
    }
  }

  /** A hard delete marks its stream with the cursor at 0. */
  lemma {:induction false} DeleteKeepsPending(s: Keyspace, path: ByteString, m: StreamMeta)
    requires PendingOk(s) && Registered(s) && MetaAt(s, path) == Some(m)
    ensures PendingOk(Apply(s, HardDeleteBatch(path, m)))
  {
    var b := HardDeleteBatch(path, m);
    var t := Apply(s, b);
    RegisteredAt(s, path);
    HardDeleteIsDied(s, path, m);
    assert Get(t, DeletePending(m.id)) == Some(U64Val(0));
    HardDeleteWrites(path, m);
    hide HardDeleteBatch, Registered;
    forall id: nat | DeletePending(id) in t ensures PathAt(t, id).None? && id < Counter(t) && CursorOk(t, id) {
      if id != m.id {
        OtherMarks(s, path, m, id);
        forall q: nat | q < CursorAt(t, id) ensures Record(id, q) !in t {
          assert Record(id, q) !in s;
          assert Get(t, Record(id, q)) == Get(s, Record(id, q));
        }
      }
    }
  }

  lemma OtherMarks(s: Keyspace, path: ByteString, m: StreamMeta, id: nat)
    requires id != m.id
    ensures Get(Apply(s, HardDeleteBatch(path, m)), DeletePending(id)) == Get(s, DeletePending(id))
  {
  }

  /** The hard delete alone: what ResumeDeletions asks for holds afterwards if it held before. */
  lemma {:induction false} HardDeleteStaysResumable(s: Keyspace, path: ByteString, m: StreamMeta)
    requires PendingOk(s) && Registered(s) && AllFit(s) && MetaAt(s, path) == Some(m)
    ensures AllResumable(Apply(s, HardDeleteBatch(path, m)))
  {
    DeleteKeepsPending(s, path, m);
    HardDeleteFits(s, path, m);
    hide PendingOk, HardDeleteBatch, AllResumable, Registered, AllFit, Apply;
    PendingIsResumable(Apply(s, HardDeleteBatch(path, m)));
  }

  lemma {:induction false} BurstKeepsPending(s: Keyspace, path: ByteString, reqs: seq<Request>, now: nat)
    requires PendingOk(s) && Registered(s) && MetaAt(s, path).Some?
    ensures PendingOk(AppendAll(s, path, Stamp(reqs, now)).store)
  {
    hide Registered, AppendOne, Slide, Apply, MetaAt, Counter, PendingOk;
    if reqs != [] {
      var n := |reqs| - 1;
      var before := AppendAll(s, path, Stamp(reqs[..n], now));
      assert Stamp(reqs, now)[..n] == Stamp(reqs[..n], now);
      BurstKeepsPending(s, path, reqs[..n], now);
      BurstSlides(s, path, reqs[..n], now);
      AppendKeepsPending(before.store, path, reqs[n], now);
    }
  }

  lemma {:induction false} AppendKeepsPending(s: Keyspace, path: ByteString, req: Request, now: nat)
    requires PendingOk(s) && Registered(s) && MetaAt(s, path).Some?
    ensures PendingOk(AppendOne(s, path, req, now).store)
  {
    var m, o := MetaAt(s, path).value, AppendOne(s, path, req, now);
    RegisteredAt(s, path);
    OneAppend(s, path, req, now);
    hide Slide, Decide;
    if o.accepted {
      var e := EffectsOf(m, req, Decide(ViewOf(s, m, req), req).producer, now);
      var b := BatchOf(path, m, TailAt(s, m.id), e, now);
      assert o.store == Apply(s, b);
      assert DeletePending(m.id) !in s;
      hide AppendOne, BatchOf, Registered, PendingOk, Apply;
      AppendWrites(s, path, m, e, now);
      BatchKeepsPending(s, b);
    }
  }

  lemma {:induction false} BirthKeepsPending(s: Keyspace, path: ByteString, m: StreamMeta, first: nat,
          own: seq<ByteString>, now: int, more: Batch)
    requires PendingOk(s) && m.id == Counter(s) && forall k :: k in more ==> k.RefCount?
    ensures PendingOk(Apply(s, BirthBatch(path, m, first, own, now) + more))
  {
    var b := BirthBatch(path, m, first, own, now) + more;
    assert DeletePending(m.id) !in s;
    BirthWrites(path, m, first, own, now);
    assert forall k :: k in b ==> !k.DeletePending? && (k.Record? || k.IdMapping? ==> k.id == m.id) by {
      hide RecordPuts;
    }
    ApplyCount(s, b, 0);
    hide BirthBatch, PendingOk, Apply, Counter;
    BatchKeepsPending(s, b);
  }

  /** A commit of the background deleter moves the cursor only past records that it deletes. */
  lemma {:induction false} DeleterKeepsCursor(s: Keyspace, id: nat, b: Batch)
    requires CursorOk(s, id) && DeleterCommit(s, id, b)
    ensures CursorOk(Apply(s, b), id)
  {
    var t := Apply(s, b);
    if keys, last :| IsChunk(s, id, keys, last)
                     && b == Deletes(keys) + map[DeletePending(id) := Some(U64Val(AddU64(last, 1)))] {
      assert Get(t, DeletePending(id)) == Some(U64Val(AddU64(last, 1)));
      forall q: nat | q < CursorAt(t, id) ensures Record(id, q) !in t {
        assert Get(t, Record(id, q)) == if Record(id, q) in keys then None else Get(s, Record(id, q));
      }
    } else if keys :| AreProducers(id, keys) && b == Deletes(keys) {
      assert Get(t, DeletePending(id)) == Get(s, DeletePending(id));
      forall q: nat | q < CursorAt(t, id) ensures Record(id, q) !in t {
        assert Get(t, Record(id, q)) == Get(s, Record(id, q));
      }
    } else {
      assert Get(t, DeletePending(id)) == None;
    }
  }

  lemma {:induction false} ReclaimKeepsPending(l: Life, l': Life, id: nat, b: Batch)
    requires PendingOk(l.store) && Reclaims(l, l', id, b) && DeleterCommit(l.store, id, b)
    ensures PendingOk(l'.store)
  {
    var s, t := l.store, l'.store;
    DeleterKeepsCursor(s, id, b);
    hide DeleterCommit;
    ApplyCount(s, b, 0);
    forall x: nat | DeletePending(x) in t ensures PathAt(t, x).None? && x < Counter(t) && CursorOk(t, x) {
      ApplyPath(s, b, x);
      if x != id {
        assert Get(t, DeletePending(x)) == Get(s, DeletePending(x));
        forall q: nat | q < CursorAt(t, x) ensures Record(x, q) !in t {
          assert Record(x, q) !in s;
          assert Get(t, Record(x, q)) == Get(s, Record(x, q));
        }
      }
    }
  }

  /** Whatever state the server is in, a commit of the deleter for a dead stream is a reclaiming step. */
  lemma {:induction false} DeleterStep(l: Life, id: nat, t: Keyspace) returns (b: Batch)
    requires Advances(l.store, t, id) && PathAt(l.store, id).None? && id < Counter(l.store)
    ensures DeleterCommit(l.store, id, b) && Next(l, l.(store := t), ReclaimStep(id, b))
  {
    b :| DeleterCommit(l.store, id, b) && t == Apply(l.store, b);
  }

  /** The reclaiming commits of the run are the background deleter's: those that BackgroundDelete makes. */
  ghost predicate ByDeleter(w: Moment, a: Act) {
    a.Manage? && a.step.ReclaimStep? ==> DeleterCommit(w.life.store, a.step.id, a.step.b)
  }

  lemma {:induction false} ManageKeepsPending(w: Moment, w': Moment, step: Step)
    requires Registered(w.life.store) && PendingOk(w.life.store) && Manages(w, w', step) && ByDeleter(w, Manage(step))
    ensures PendingOk(w'.life.store)
  {
    var l, l' := w.life, w'.life;
    var s := l.store;
    hide PendingOk, Apply, BirthBatch, HardDeleteBatch, ForkDecision, ForkOwn, CursorOk, Registered, Counter;
    match step {
      case CreateStep(path, m, records, now) =>
        assert BirthBatch(path, m, 0, records, now) + map[] == BirthBatch(path, m, 0, records, now);
        BirthKeepsPending(s, path, m, 0, records, now, map[]);
      case ForkStep(p, now) =>
        var d := ForkDecision(s, p);
        BirthKeepsPending(s, p.path, ForkMeta(s, p, d.src, d.at, now), d.at.seqno, ForkOwn(s, p, d.src, d.at), now,
                          map[RefCount(d.src.id) := Some(U64Val(RefCountAt(s, d.src.id) + 1))]);
      case HardDeleteStep(path) => DeleteKeepsPending(s, path, MetaAt(s, path).value);
      case SoftDeleteStep(path) =>
        PlainKeepsPending(s, map[Tombstone(path) := Some(TombstoneVal(true, MetaAt(s, path).value.id))]);
      case DropStep =>
        var id := l.agenda.source;
        PlainKeepsPending(s, map[RefCount(id) :=
              Some(U64Val(if RefCountAt(s, id) > 0 then RefCountAt(s, id) - 1 else 0))]);
      case ReclaimStep(id, b) => ReclaimKeepsPending(l, l', id, b);
      case CrashStep =>
    }
  }

  lemma PlainKeepsPending(s: Keyspace, b: Batch)
    requires PendingOk(s)
    requires forall k :: k in b ==> !k.DeletePending? && !k.Record? && !k.IdMapping? && !k.IdCounter?
    ensures PendingOk(Apply(s, b))
  {
    hide PendingOk, Apply;
    ApplyCount(s, b, 0);
    BatchKeepsPending(s, b);
  }

  lemma {:induction false} StepKeepsPending(w: Moment, w': Moment, a: Act)
    requires Registered(w.life.store) && PendingOk(w.life.store) && Does(w, w', a) && ByDeleter(w, a)
    ensures PendingOk(w'.life.store)
  {
    var s := w.life.store;
    hide PendingOk, Apply, Manages, Registered, CursorOk, Expires, AppendAll;
    match a {
      case Manage(step) => ManageKeepsPending(w, w', step);
      case Burst(path, reqs, now) => BurstKeepsPending(s, path, reqs, now);
      case Touch(path, now) =>
        if MetaAt(s, path).Some? {
          PlainKeepsPending(s, TouchBatch(path, MetaAt(s, path).value, now));
        }
      case ScanAct(now) =>
      case ExpireAct =>
        ExpireKeepsPending(w, w');
    }
  }

  lemma {:induction false} ExpireKeepsPending(w: Moment, w': Moment)
    requires Registered(w.life.store) && PendingOk(w.life.store) && Expires(w, w')
    ensures PendingOk(w'.life.store)
  {
    var s, d := w.life.store, w.dues[0];
    hide PendingOk, Apply, HardDeleteBatch, Registered;
    if !Current(s, d) {
      PlainKeepsPending(s, map[Store.Expiry(d.deadline, d.id) := None]);
    } else {
      DeleteKeepsPending(s, PathAt(s, d.id).value, MetaAt(s, PathAt(s, d.id).value).value);
    }
  }

  // ----- the registry alone, whatever becomes of the index -----

  ghost predicate Firm(s: Keyspace) {
    Registered(s) && Counter(s) >= 1
  }

  lemma PlainStaysFirm(s: Keyspace, b: Batch)
    requires Firm(s) && forall k :: k in b ==> !k.Meta? && !k.IdMapping? && !k.IdCounter?
    ensures Firm(Apply(s, b))
  {
    var t := Apply(s, b);
    ApplyCount(s, b, 0);
    hide Apply, Counter;
    forall p ensures SameStream(MetaAt(s, p), MetaAt(t, p)) {
      ApplyMeta(s, b, p);
    }
    forall id ensures PathAt(t, id) == PathAt(s, id) {
      ApplyPath(s, b, id);
    }
    StillRegistered(s, t);
  }

  lemma DeleteStaysFirm(s: Keyspace, path: ByteString, m: StreamMeta)
    requires Firm(s) && MetaAt(s, path) == Some(m)
    ensures Firm(Apply(s, HardDeleteBatch(path, m)))
  {
    HardDeleteIsDied(s, path, m);
    hide Apply, HardDeleteBatch, Registered;
    DiedStaysRegistered(s, Apply(s, HardDeleteBatch(path, m)), path, m);
  }

  lemma BornStaysFirm(s: Keyspace, t: Keyspace, path: ByteString, m: StreamMeta, first: nat, own: seq<ByteString>)
    requires Firm(s) && Born(s, t, path, m, first, own) && m.forkedFrom < m.id
    ensures Firm(t)
  {
    BornStaysRegistered(s, t, path, m, first, own);
    BornCounts(s, t, path, m, first, own);
  }

  lemma {:induction false} ManageStaysFirm(w: Moment, w': Moment, step: Step)
    requires Firm(w.life.store) && Manages(w, w', step)
    ensures Firm(w'.life.store)
  {
    var l, l' := w.life, w'.life;
    var s := l.store;
    hide Apply, BirthBatch, HardDeleteBatch, ForkDecision, ForkOwn, Born, Registered, Counter;
    match step {
      case CreateStep(path, m, records, now) =>
        BirthIsBorn(s, path, m, 0, records, now);
        BornStaysFirm(s, l'.store, path, m, 0, records);
      case ForkStep(p, now) =>
        var d := ForkDecision(s, p);
        ForkIsBorn(l, l', p, now);
        BornStaysFirm(s, l'.store, p.path, ForkMeta(s, p, d.src, d.at, now), d.at.seqno, ForkOwn(s, p, d.src, d.at));
      case HardDeleteStep(path) => DeleteStaysFirm(s, path, MetaAt(s, path).value);
      case SoftDeleteStep(path) =>
        PlainStaysFirm(s, map[Tombstone(path) := Some(TombstoneVal(true, MetaAt(s, path).value.id))]);
      case DropStep =>
        var id := l.agenda.source;
        PlainStaysFirm(s, map[RefCount(id) :=
              Some(U64Val(if RefCountAt(s, id) > 0 then RefCountAt(s, id) - 1 else 0))]);
      case ReclaimStep(id, b) => PlainStaysFirm(s, b);
      case CrashStep =>
    }
  }

  lemma {:induction false} StepStaysFirm(w: Moment, w': Moment, a: Act)
    requires Firm(w.life.store) && Does(w, w', a)
    ensures Firm(w'.life.store)
  {
    var s := w.life.store;
    hide Apply, HardDeleteBatch, Manages, Registered, AppendAll, Touched, Counter, Slide;
    match a {
      case Manage(step) => ManageStaysFirm(w, w', step);
      case Burst(path, reqs, now) => BurstSlides(s, path, reqs, now);
      case Touch(path, now) =>
        if MetaAt(s, path).Some? {
          TouchSlides(s, path, now);
        } else {
          TouchesNothing(s, path, now);
        }
      case ScanAct(now) =>
      case ExpireAct =>
        var d := w.dues[0];
        if !Current(s, d) {
          PlainStaysFirm(s, map[Store.Expiry(d.deadline, d.id) := None]);
        } else {
          DeleteStaysFirm(s, PathAt(s, d.id).value, MetaAt(s, PathAt(s, d.id).value).value);
        }
    }
  }

  // ----- runs -----

  /** Whenever the server stops, the deletions it has not finished can be resumed as the store stands. */
  lemma {:induction false} CrashIsResumable(trace: seq<Moment>, acts: seq<Act>, i: nat)
    requires Linked(trace, acts) && trace[0] == Start() && i < |trace| && AllFit(trace[i].life.store)
    requires forall k :: 0 <= k < i ==> ByDeleter(trace[k], acts[k])
    ensures AllResumable(trace[i].life.store)
  {
    hide Does, AllResumable, AllFit, PendingOk, ByDeleter;
    RunKeepsPending(trace, acts, i);
    PendingIsResumable(trace[i].life.store);
  }

  lemma {:induction false} RunKeepsPending(trace: seq<Moment>, acts: seq<Act>, i: nat)
    requires Linked(trace, acts) && trace[0] == Start() && i < |trace|
    requires forall k :: 0 <= k < i ==> ByDeleter(trace[k], acts[k])
    ensures PendingOk(trace[i].life.store) && Firm(trace[i].life.store)
  {
    if i > 0 {
      hide Does, PendingOk, ByDeleter, Registered;
      RunKeepsPending(trace, acts, i - 1);
      assert Does(trace[i - 1], trace[i - 1 + 1], acts[i - 1]) && ByDeleter(trace[i - 1], acts[i - 1]);
      StepKeepsPending(trace[i - 1], trace[i], acts[i - 1]);
      StepStaysFirm(trace[i - 1], trace[i], acts[i - 1]);
    }
  }
}
