/**
 Notifier mode, where a planned burst waits in the commit queue while a read's refresh
 goes to the store directly: what becomes of the deadline and of the expiry index when
 the refresh overtakes the burst.
 */
module Overtaking {
  import opened Bytes
  import opened Store
  import opened Appends
  import opened Streamer
  import opened Forks
  import opened Lifecycle
  import opened Expiry
  import opened Sweeps

  /** One stream's lane: the store, the state its writer reflects, and the batches on their way to the store. */
  datatype Lane = Lane(store: Keyspace, view: Keyspace, queue: seq<Batch>)

  /** A burst with effects e is planned on the view and queued. */
  function Plan(l: Lane, path: ByteString, e: Effects, now: nat): Lane {
    if MetaAt(l.view, path).None? then l
    else
      var m := MetaAt(l.view, path).value;
      var b := BatchOf(path, m, TailAt(l.view, m.id), e, now);
      Lane(l.store, Apply(l.view, b), l.queue + [b])
  }

  /** refreshTTLOnRead: judged by the writer's metadata, committed past the queue. */
  function Refresh(l: Lane, path: ByteString, now: nat): Lane {
    if MetaAt(l.view, path).None? then l
    else
      var b := TouchBatch(path, MetaAt(l.view, path).value, now);
      l.(store := Apply(l.store, b), view := Apply(l.view, b))
  }

  /** The first burst of the queue is committed. */
  function Land(l: Lane): Lane {
    if l.queue == [] then l else l.(store := Apply(l.store, l.queue[0]), queue := l.queue[1..])
  }

  /** One request, judged on the view. */
  function Submit(l: Lane, path: ByteString, req: Request, now: nat): Lane {
    if MetaAt(l.view, path).None? then l
    else
      var m := MetaAt(l.view, path).value;
      match Decide(ViewOf(l.view, m, req), req)
      case Refuse(_) => l
      case Accept(_, p) => Plan(l, path, EffectsOf(m, req, p, now), now)
  }

  /** The view moves as the reference does. */
  lemma SubmitIsAppend(l: Lane, path: ByteString, req: Request, now: nat)
    requires MetaAt(l.view, path).Some?
    ensures Submit(l, path, req, now).view == AppendOne(l.view, path, req, now).store
    ensures AppendOne(l.view, path, req, now).accepted <==> |Submit(l, path, req, now).queue| > |l.queue|
  {
    hide Decide, BatchOf, Apply;
  }

  // ----- the index when a refresh overtakes a burst -----

  /** The refresh, coming after the plan, writes. */
  predicate Active(ttl: nat, deadline: nat, now: nat) {
    ttl > 0 && AddU64(now, ttl) >= deadline
  }

  /** A stream of deadline m.deadline, a planned burst that sets e.deadline, then a refresh at `now`. */
  predicate Compatible(m: StreamMeta, e: Effects, now: nat) {
    var d := Slide(e.deadline, m.ttl, now);
    if e.deadline != m.deadline then
      e.deadline > 0 && (!Active(m.ttl, e.deadline, now) || d == e.deadline || d == m.deadline > 0)
    else !Active(m.ttl, e.deadline, now) || (d > 0 && (e.closed == m.closed || d == e.deadline))
  }

  function Overtaken(s: Keyspace, path: ByteString, e: Effects, planned: nat, now: nat): Keyspace {
    Land(Refresh(Plan(Lane(s, s, []), path, e, planned), path, now)).store
  }

  /** What the stream's own metadata says in the end. */
  function FinalMeta(m: StreamMeta, e: Effects, now: nat): StreamMeta {
    m.(closed := e.closed, deadline := if e.deadline != m.deadline || e.closed != m.closed then e.deadline
                                       else if Active(m.ttl, e.deadline, now) then Slide(e.deadline, m.ttl, now)
                                       else m.deadline)
  }

  lemma OvertakenIs(s: Keyspace, path: ByteString, e: Effects, planned: nat, now: nat)
    requires MetaAt(s, path).Some?
    ensures var m := MetaAt(s, path).value;
            var b := BatchOf(path, m, TailAt(s, m.id), e, planned);
            var first := TouchBatch(path, m.(closed := e.closed, deadline := e.deadline), now);
            Overtaken(s, path, e, planned, now) == Apply(Apply(s, first), b)
  {
    var m := MetaAt(s, path).value;
    DeadlineAfterAppend(s, path, m, e, planned);
    hide BatchOf, Apply, TouchBatch, MetaAt;
    var l := Plan(Lane(s, s, []), path, e, planned);
    assert l.queue == [BatchOf(path, m, TailAt(s, m.id), e, planned)];
  }

  /** A refresh touches the metadata of its stream and the index. */
  lemma TouchAt(s: Keyspace, path: ByteString, m: StreamMeta, now: nat, k: Key)
    requires !k.Expiry?
    ensures Get(Apply(s, TouchBatch(path, m, now)), k) ==
            if k == Meta(path) && Active(m.ttl, m.deadline, now) then
              Some(MetaVal(m.(deadline := Slide(m.deadline, m.ttl, now))))
            else Get(s, k)
  {
    hide Slide, AddU64;
  }

  /** Any key but an index entry, when a refresh has overtaken the burst. */
  lemma {:induction false} OvertakenAt(s: Keyspace, path: ByteString, e: Effects, planned: nat, now: nat, k: Key)
    requires MetaAt(s, path).Some? && (k.Meta? || k.IdMapping? || k.Tombstone?)
    ensures var m := MetaAt(s, path).value;
            Get(Overtaken(s, path, e, planned, now), k) ==
            if k != Meta(path) then Get(s, k)
            else if FinalMeta(m, e, now) == m then Get(s, k)
            else Some(MetaVal(FinalMeta(m, e, now)))
  {
    var m := MetaAt(s, path).value;
    var n := m.(closed := e.closed, deadline := e.deadline);
    OvertakenIs(s, path, e, planned, now);
    TouchAt(s, path, n, now, k);
    BatchOfAt(Apply(s, TouchBatch(path, n, now)), path, m, TailAt(s, m.id), e, planned, k);
    assert Get(s, Meta(path)) == Some(MetaVal(m));
    hide Overtaken, Slide, Apply, Active, BatchOf, TouchBatch, TailAt, Get;
  }

  lemma {:induction false} OvertakenMeta(s: Keyspace, path: ByteString, e: Effects, planned: nat, now: nat,
          p: ByteString)
    requires MetaAt(s, path).Some?
    ensures var t := Overtaken(s, path, e, planned, now);
            MetaAt(t, p) == if p == path then Some(FinalMeta(MetaAt(s, path).value, e, now)) else MetaAt(s, p)
  {
    OvertakenAt(s, path, e, planned, now, Meta(p));
    hide Overtaken, FinalMeta;
  }

  lemma {:induction false} OvertakenPath(s: Keyspace, path: ByteString, e: Effects, planned: nat, now: nat, id: nat)
    requires MetaAt(s, path).Some?
    ensures PathAt(Overtaken(s, path, e, planned, now), id) == PathAt(s, id)
  {
    OvertakenAt(s, path, e, planned, now, IdMapping(id));
    hide Overtaken, FinalMeta;
  }

  /** Which entries the stream has in the end. */
  predicate FinalEntry(m: StreamMeta, e: Effects, now: nat, d: nat) {
    var slid := Slide(e.deadline, m.ttl, now);
    if e.deadline != m.deadline then
      d == e.deadline || (Active(m.ttl, e.deadline, now) && d == slid && !(d == m.deadline > 0))
    else if Active(m.ttl, e.deadline, now) then d == slid
    else d == m.deadline > 0
  }

  lemma TouchEntry(s: Keyspace, path: ByteString, m: StreamMeta, now: nat, d: nat, id: nat)
    ensures Store.Expiry(d, id) in Apply(s, TouchBatch(path, m, now)) <==>
            if id == m.id && Active(m.ttl, m.deadline, now) then
              d == Slide(m.deadline, m.ttl, now) || (!(d == m.deadline > 0) && Store.Expiry(d, id) in s)
            else Store.Expiry(d, id) in s
  {
    hide Slide, Apply, AddU64;
    ApplyExpiry(s, TouchBatch(path, m, now), d, id);
  }

  lemma LandEntry(s: Keyspace, path: ByteString, m: StreamMeta, base: nat, e: Effects, now: nat, d: nat, id: nat)
    ensures Store.Expiry(d, id) in Apply(s, BatchOf(path, m, base, e, now)) <==>
            if id == m.id && e.deadline != m.deadline then
              d == e.deadline || (!(d == m.deadline > 0) && Store.Expiry(d, id) in s)
            else Store.Expiry(d, id) in s
  {
    BatchOfAt(s, path, m, base, e, now, Store.Expiry(d, id));
    hide Apply, BatchOf;
  }

  lemma {:induction false} OvertakenEntry(s: Keyspace, path: ByteString, e: Effects, planned: nat, now: nat,
          d: nat, id: nat)
    requires Registered(s) && IndexExact(s) && MetaAt(s, path).Some?
    ensures var m := MetaAt(s, path).value;
            Store.Expiry(d, id) in Overtaken(s, path, e, planned, now) <==>
            if id == m.id then FinalEntry(m, e, now, d) else Store.Expiry(d, id) in s
  {
    var m := MetaAt(s, path).value;
    var n := m.(closed := e.closed, deadline := e.deadline);
    hide Overtaken, Slide, Apply, Active, IndexExact, Registered, BatchOf, TouchBatch, MetaAt, TailAt;
    OvertakenIs(s, path, e, planned, now);
    OwnEntry(s, path, d);
    TouchEntry(s, path, n, now, d, id);
    LandEntry(Apply(s, TouchBatch(path, n, now)), path, m, TailAt(s, m.id), e, planned, d, id);
  }

  lemma OwnEntry(s: Keyspace, path: ByteString, d: nat)
    requires Registered(s) && IndexExact(s) && MetaAt(s, path).Some?
    ensures var m := MetaAt(s, path).value; Store.Expiry(d, m.id) in s <==> d == m.deadline > 0
  {
    RegisteredAt(s, path);
    if Store.Expiry(d, MetaAt(s, path).value.id) in s {
      assert MetaById(s, MetaAt(s, path).value.id) == MetaAt(s, path);
    }
  }

  /** When one stream's metadata and entries change, the index is exact if and only if the two match. */
  lemma {:induction false} ExactWhenMatched(s: Keyspace, t: Keyspace, path: ByteString, m: StreamMeta, n: StreamMeta)
    requires IndexExact(s) && Registered(s) && MetaAt(s, path) == Some(m) && n.id == m.id
    requires forall p :: MetaAt(t, p) == if p == path then Some(n) else MetaAt(s, p)
    requires forall id :: PathAt(t, id) == PathAt(s, id)
    requires forall d, id :: id != m.id ==> (Store.Expiry(d, id) in t <==> Store.Expiry(d, id) in s)
    ensures IndexExact(t) <==> forall d: nat :: Store.Expiry(d, m.id) in t <==> d == n.deadline > 0
  {
    hide MetaAt, PathAt;
    RegisteredAt(s, path);
    assert MetaById(t, m.id) == Some(n) && MetaAt(t, path) == Some(n);
    if forall d: nat :: Store.Expiry(d, m.id) in t <==> d == n.deadline > 0 {
      forall p | MetaAt(t, p).Some? && p != path ensures MetaAt(t, p).value.id != m.id {
        RegisteredAt(s, p);
      }
      forall d, id | Store.Expiry(d, id) in t
        ensures d > 0 && MetaById(t, id).Some? && MetaById(t, id).value.deadline == d
      {
        if id != m.id {
          assert MetaById(s, id).Some? && MetaById(s, id).value.deadline == d;
          PathIsRegistered(s, id);
        }
      }
    }
  }

  lemma MatchedWhenCompatible(m: StreamMeta, e: Effects, now: nat)
    ensures Compatible(m, e, now) <==>
            forall d: nat :: FinalEntry(m, e, now, d) <==> d == FinalMeta(m, e, now).deadline > 0
  {
    hide Active, Slide;
    var final := FinalMeta(m, e, now).deadline;
    if forall d: nat :: FinalEntry(m, e, now, d) <==> d == final > 0 {
      assert FinalEntry(m, e, now, e.deadline) <==> e.deadline == final > 0;
      var slid := Slide(e.deadline, m.ttl, now);
      assert FinalEntry(m, e, now, slid) <==> slid == final > 0;
    }
  }

  /**
   A refresh that overtakes a planned burst leaves the index exact if and only if the two
   are compatible, which the metadata, the burst's effects and the clock decide.
   */
  lemma {:induction false} OvertakingIndexExactly(s: Keyspace, path: ByteString, e: Effects, planned: nat, now: nat)
    requires Registered(s) && IndexExact(s) && MetaAt(s, path).Some?
    ensures IndexExact(Overtaken(s, path, e, planned, now)) <==> Compatible(MetaAt(s, path).value, e, now)
  {
    var m, t := MetaAt(s, path).value, Overtaken(s, path, e, planned, now);
    hide Overtaken, Compatible, FinalEntry, IndexExact, Registered, MetaAt, PathAt;
    forall p ensures MetaAt(t, p) == if p == path then Some(FinalMeta(m, e, now)) else MetaAt(s, p) {
      OvertakenMeta(s, path, e, planned, now, p);
    }
    forall id ensures PathAt(t, id) == PathAt(s, id) {
      OvertakenPath(s, path, e, planned, now, id);
    }
    forall d, id ensures Store.Expiry(d, id) in t <==>
                         if id == m.id then FinalEntry(m, e, now, d) else Store.Expiry(d, id) in s {
      OvertakenEntry(s, path, e, planned, now, d, id);
    }
    ExactWhenMatched(s, t, path, m, FinalMeta(m, e, now));
    MatchedWhenCompatible(m, e, now);
  }

  /**
   With deadlines that fit: exact if and only if the refresh does not write, or the burst
   changes neither the deadline nor the closed flag.
   */
  lemma {:induction false} FittingOvertakings(m: StreamMeta, e: Effects, planned: nat, now: nat)
    requires e.deadline == m.deadline || e.deadline == Slide(m.deadline, m.ttl, planned)
    requires m.ttl > 0 ==> planned + m.ttl + Granularity(m.ttl) < U64_LIMIT
    requires m.ttl > 0 ==> now + m.ttl + Granularity(m.ttl) < U64_LIMIT
    ensures Compatible(m, e, now) <==>
            !Active(m.ttl, e.deadline, now) || (e.deadline == m.deadline && e.closed == m.closed)
  {
    hide Granularity;
  }

  // ----- an early expiry -----

  /** A stream of TTL 5, created at second 9. */
  function Brief(): StreamMeta {
    StreamMeta(1, Json, 5, 0, false, FirstDeadline(5, true, 0, 9), 0, 0, 0)
  }

  function Created(path: ByteString): Lane {
    var s := Apply(map[], BirthBatch(path, Brief(), 0, [], 9));
    Lane(s, s, [])
  }

  /** A burst planned at second 10, overtaken by a refresh at 13, then landed. */
  function Landed(path: ByteString): Lane {
    Land(Refresh(Submit(Created(path), path, EmptyObject(), 10), path, 13))
  }

  /** Then one more append, at 13. */
  function Appended(path: ByteString): Lane {
    Land(Submit(Landed(path), path, EmptyObject(), 13))
  }

  lemma BriefDeadlines()
    ensures Brief().deadline == 15 && Slide(15, 5, 10) == 16 && Slide(16, 5, 13) == 19 && Slide(19, 5, 13) == 19
    ensures Active(5, 16, 13)
  {
  }

  lemma {:induction false} BriefIsCreated(path: ByteString)
    ensures var s := Created(path).store;
            && Registered(s) && IndexExact(s) && MetaAt(s, path) == Some(Brief()) && Tombstone(path) !in s
  {
    var m, l := Brief(), Life(map[], Idle, false);
    var l' := l.(store := Created(path).store);
    var b := BirthBatch(path, m, 0, [], 9);
    assert Creates(l, l', path, m, [], 9);
    CreateKeepsIndex(l, l', path, m, [], 9);
    BornStaysRegistered(map[], l'.store, path, m, 0, []);
    BirthWrites(path, m, 0, [], 9);
    hide BirthBatch, IndexExact, Registered;
    assert Get(Apply(map[], b), Tombstone(path)) == None;
  }

  /** The first burst, as effects. */
  function FirstEffects(): Effects {
    EffectsOf(Brief(), EmptyObject(), None, 10)
  }

  lemma {:induction false} FirstIsPlanned(path: ByteString)
    requires MetaAt(Created(path).store, path) == Some(Brief())
    ensures AppendOne(Created(path).view, path, EmptyObject(), 10).accepted
    ensures Submit(Created(path), path, EmptyObject(), 10) == Plan(Created(path), path, FirstEffects(), 10)
  {
    hide BirthBatch, Apply, BatchOf, FirstDeadline, Slide;
  }

  /** After the landing the store says 16 where the writer says 19. */
  lemma {:induction false} LandedIs(path: ByteString)
    ensures var l := Landed(path);
            && l.queue == [] && MetaAt(l.view, path) == Some(Brief().(deadline := 19))
            && MetaAt(l.store, path) == Some(Brief().(deadline := 16)) && PathAt(l.store, 1) == Some(path)
            && Store.Expiry(16, 1) in l.store && Tombstone(path) !in l.store
  {
    var s, e := Created(path).store, FirstEffects();
    BriefIsCreated(path);
    RegisteredAt(s, path);
    FirstIsPlanned(path);
    BriefDeadlines();
    OvertakenMeta(s, path, e, 10, 13, path);
    OvertakenPath(s, path, e, 10, 13, 1);
    OvertakenEntry(s, path, e, 10, 13, 16, 1);
    LandedView(s, path, e);
    NoTombstoneOvertaken(s, path, e, 10, 13);
    hide Plan, Refresh, Land, Created, Slide, Registered, IndexExact, MetaAt, PathAt, Active, FirstDeadline;
  }

  lemma LandedView(s: Keyspace, path: ByteString, e: Effects)
    requires MetaAt(s, path) == Some(Brief()) && e == FirstEffects()
    ensures var l := Land(Refresh(Plan(Lane(s, s, []), path, e, 10), path, 13));
            l.queue == [] && MetaAt(l.view, path) == Some(Brief().(deadline := 19))
  {
    BriefDeadlines();
    DeadlineAfterAppend(s, path, Brief(), e, 10);
    var v := Plan(Lane(s, s, []), path, e, 10).view;
    hide BatchOf, Apply, FirstDeadline, Slide, AddU64;
    ApplyMeta(v, TouchBatch(path, MetaAt(v, path).value, 13), path);
  }

  lemma NoTombstoneOvertaken(s: Keyspace, path: ByteString, e: Effects, planned: nat, now: nat)
    requires MetaAt(s, path).Some? && Tombstone(path) !in s
    ensures Tombstone(path) !in Overtaken(s, path, e, planned, now)
  {
    OvertakenAt(s, path, e, planned, now, Tombstone(path));
    hide Overtaken, FinalMeta;
  }

  lemma {:induction false} SecondIsPlanned(l: Lane, path: ByteString)
    requires MetaAt(l.view, path) == Some(Brief().(deadline := 19)) && l.queue == []
    ensures AppendOne(l.view, path, EmptyObject(), 13).accepted
    ensures var m := Brief().(deadline := 19);
            Submit(l, path, EmptyObject(), 13).queue
            == [BatchOf(path, m, TailAt(l.view, 1), EffectsOf(m, EmptyObject(), None, 13), 13)]
  {
    hide Apply, BatchOf, FirstDeadline, Slide;
  }

  /** An append that does not slide leaves the stored deadline alone. */
  lemma {:induction false} SecondKeepsDeadline(s: Keyspace, path: ByteString, base: nat)
    ensures var m := Brief().(deadline := 19);
            var t := Apply(s, BatchOf(path, m, base, EffectsOf(m, EmptyObject(), None, 13), 13));
            MetaAt(t, path) == MetaAt(s, path) && PathAt(t, 1) == PathAt(s, 1)
            && (Store.Expiry(16, 1) in t <==> Store.Expiry(16, 1) in s)
            && (Tombstone(path) in t <==> Tombstone(path) in s)
  {
    var m := Brief().(deadline := 19);
    var e := EffectsOf(m, EmptyObject(), None, 13);
    BriefDeadlines();
    hide Apply, BatchOf, FirstDeadline, Slide;
    BatchOfAt(s, path, m, base, e, 13, Meta(path));
    BatchOfAt(s, path, m, base, e, 13, IdMapping(1));
    BatchOfAt(s, path, m, base, e, 13, Tombstone(path));
    LandEntry(s, path, m, base, e, 13, 16, 1);
  }

  lemma {:induction false} AppendedIs(path: ByteString)
    ensures var l := Appended(path);
            && l.queue == [] && MetaAt(l.store, path) == Some(Brief().(deadline := 16))
            && PathAt(l.store, 1) == Some(path) && Store.Expiry(16, 1) in l.store && Tombstone(path) !in l.store
  {
    var before := Landed(path);
    LandedIs(path);
    SecondIsPlanned(before, path);
    SubmitKeepsStore(before, path, EmptyObject(), 13);
    SecondKeepsDeadline(before.store, path, TailAt(before.view, 1));
    hide Landed, Submit, BatchOf, Apply, FirstDeadline, AppendOne, MetaAt, PathAt, Slide, EffectsOf;
  }

  lemma {:induction false} SweptAt16(s: Keyspace, path: ByteString)
    requires MetaAt(s, path) == Some(Brief().(deadline := 16)) && PathAt(s, 1) == Some(path)
    ensures MetaAt(Expired(Life(s, Idle, false), Due(16, 1), 16).store, path).None?
  {
    HardDeleteIsDied(s, path, Brief().(deadline := 16));
    hide HardDeleteBatch, Apply, FirstDeadline, MetaAt, PathAt;
  }

  /**
   In notifier mode the TTL promise fails for a TTL of 5: accepted at second 13, the
   stream is expired by a sweep at second 16.
   */
  lemma {:induction false} OvertakenBurstExpiresEarly(path: ByteString)
    ensures var before, l := Landed(path), Appended(path);
            && MetaAt(before.view, path).Some? && AppendOne(before.view, path, EmptyObject(), 13).accepted
            && l.queue == [] && MetaAt(l.store, path).Some? && MetaAt(l.store, path).value.ttl == 5
            && Store.Expiry(16, 1) in l.store && Tombstone(path) !in l.store
            && MetaAt(Expired(Life(l.store, Idle, false), Due(16, 1), 16).store, path).None?
  {
    hide Landed, Appended, AppendOne, FirstDeadline, MetaAt, PathAt, Expired;
    LandedIs(path);
    SecondIsPlanned(Landed(path), path);
    AppendedIs(path);
    SweptAt16(Appended(path).store, path);
  }

  lemma SubmitKeepsStore(l: Lane, path: ByteString, req: Request, now: nat)
    ensures Submit(l, path, req, now).store == l.store
  {
    hide Decide, BatchOf, Apply;
  }
}
