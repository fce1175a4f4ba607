/**
 Sliding TTL: the slide on every accepted append and on reads, and the deadline-first
 expiry index that every commit has to keep in step with the metadata.
 */
module Expiry {
  import opened Bytes
  import opened Store
  import opened Appends
  import opened Streamer
  import opened Forks
  import opened Lifecycle

  // ----- the slide -----

  /**
   The slide reaches past now + TTL exactly when the new deadline does not wrap at 64
   bits (or the old one was already past it).
   */
  lemma SlideReachesTTL(deadline: nat, ttl: nat, now: nat)
    requires 0 < ttl < U64_LIMIT && deadline < U64_LIMIT && now < U64_LIMIT
    ensures Slide(deadline, ttl, now) > now + ttl <==> now + ttl < deadline || now + ttl + Granularity(ttl) < U64_LIMIT
    ensures Slide(deadline, ttl, now) < U64_LIMIT
  {
    if now + ttl >= U64_LIMIT {
      assert AddU64(now, ttl) == now + ttl - U64_LIMIT;
    } else if now + ttl + Granularity(ttl) >= U64_LIMIT {
      assert AddU64(now + ttl, Granularity(ttl)) == now + ttl + Granularity(ttl) - U64_LIMIT;
    }
  }

  /**
   The slide is rate-limited: once it has moved, it stays for a quarter of the TTL, at
   least one second and at most ten minutes, and then moves again.
   */
  lemma SlideIsRateLimited(deadline: nat, ttl: nat, now: nat, later: nat)
    requires 0 < ttl && deadline <= now + ttl && now <= later && later + ttl + 600 < U64_LIMIT
    ensures var d := Slide(deadline, ttl, now);
            var window := if ttl < 8 then 1 else if ttl > 2400 then 600 else ttl / 4;
            && d == now + ttl + window
            && (Slide(d, ttl, later) == d <==> later < now + window)
  {
  }

  /** An immense TTL does wrap: an append at time 1 leaves a deadline at second 599. */
  lemma ImmenseTTLWraps()
    ensures Slide(0, U64_LIMIT - 2, 1) == 599
  {
    assert Granularity(U64_LIMIT - 2) == 600;
    assert AddU64(1, U64_LIMIT - 2) == U64_LIMIT - 1;
    assert (U64_LIMIT - 1 + 600) % U64_LIMIT == 599;
  }

  /** The slide moves the deadline, and the padded sum is exactly 2^64. */
  predicate SlidesToZero(deadline: nat, ttl: nat, now: nat) {
    ttl > 0 && AddU64(now, ttl) >= deadline && AddU64(now, ttl) + Granularity(ttl) == U64_LIMIT
  }

  /** The new deadline is 0 (which reads as: no deadline) exactly then, or when there is neither TTL nor deadline. */
  lemma SlideIsZero(deadline: nat, ttl: nat, now: nat)
    ensures Slide(deadline, ttl, now) == 0 <==> SlidesToZero(deadline, ttl, now) || (deadline == 0 && ttl == 0)
  {
    var sum := AddU64(now, ttl) + Granularity(ttl);
    assert 0 < sum < 2 * U64_LIMIT;
    assert sum % U64_LIMIT == 0 <==> sum == U64_LIMIT;
  }

  /** An accepted append at time `now` leaves the deadline beyond now + TTL, unless the sum wraps. */
  lemma {:induction false} AcceptedAppendSlides(s: Keyspace, path: ByteString, req: Request, now: nat)
    requires MetaAt(s, path).Some? && AppendOne(s, path, req, now).accepted
    requires var m := MetaAt(s, path).value; 0 < m.ttl < U64_LIMIT && m.deadline < U64_LIMIT && now < U64_LIMIT
    ensures var m, t := MetaAt(s, path).value, AppendOne(s, path, req, now).store;
            && MetaAt(t, path).Some? && MetaAt(t, path).value.ttl == m.ttl
            && (MetaAt(t, path).value.deadline > now + m.ttl <==>
                now + m.ttl < m.deadline || now + m.ttl + Granularity(m.ttl) < U64_LIMIT)
  {
    var m := MetaAt(s, path).value;
    SlideReachesTTL(m.deadline, m.ttl, now);
    hide Slide, Granularity;
    var d := Decide(ViewOf(s, m, req), req);
    hide Decide;
    DeadlineAfterAppend(s, path, m, EffectsOf(m, req, d.producer, now), now);
  }

  lemma DeadlineAfterAppend(s: Keyspace, path: ByteString, m: StreamMeta, e: Effects, now: nat)
    requires MetaAt(s, path) == Some(m)
    ensures MetaAt(Apply(s, BatchOf(path, m, TailAt(s, m.id), e, now)), path)
            == Some(m.(closed := e.closed, deadline := e.deadline))
  {
    BatchOfAt(s, path, m, TailAt(s, m.id), e, now, Meta(path));
    hide BatchOf, Apply;
  }

  // ----- the index -----

  /** Every stream with a deadline has exactly one entry, at that deadline; there is no other entry. */
  ghost predicate IndexExact(s: Keyspace) {
    && (forall p :: MetaAt(s, p).Some? && MetaAt(s, p).value.deadline > 0 ==>
                    Store.Expiry(MetaAt(s, p).value.deadline, MetaAt(s, p).value.id) in s)
    && (forall d, id :: Store.Expiry(d, id) in s ==>
                        d > 0 && MetaById(s, id).Some? && MetaById(s, id).value.deadline == d)
  }

  lemma ApplyExpiry(s: Keyspace, b: Batch, d: nat, id: nat)
    ensures Store.Expiry(d, id) in Apply(s, b) <==>
              if Store.Expiry(d, id) in b then b[Store.Expiry(d, id)].Some? else Store.Expiry(d, id) in s
  {
    var t, k := Apply(s, b), Store.Expiry(d, id);
    assert Get(t, k) == if k in b then b[k] else Get(s, k);
  }

  /** A step that leaves metadata, mapping and index alone keeps the index exact. */
  lemma IndexUnchanged(s: Keyspace, t: Keyspace)
    requires IndexExact(s)
    requires forall p :: MetaAt(t, p) == MetaAt(s, p)
    requires forall id :: PathAt(t, id) == PathAt(s, id)
    requires forall d, id :: Store.Expiry(d, id) in t <==> Store.Expiry(d, id) in s
    ensures IndexExact(t)
  {
  }

  /** A stream is born with its entry. */
  lemma {:induction false} BornKeepsIndex(s: Keyspace, t: Keyspace, path: ByteString, m: StreamMeta, first: nat,
          own: seq<ByteString>)
    requires IndexExact(s) && Registered(s) && Born(s, t, path, m, first, own)
    requires forall d, id :: Store.Expiry(d, id) in t <==>
                             Store.Expiry(d, id) in s || (d == m.deadline > 0 && id == m.id)
    ensures IndexExact(t)
  {
    hide MetaAt, PathAt, TailAt, RecordAt, RefCountAt, Counter;
    assert PathAt(t, m.id) == Some(path) && MetaAt(t, path) == Some(m);
    forall d, id | Store.Expiry(d, id) in t
      ensures d > 0 && MetaById(t, id).Some? && MetaById(t, id).value.deadline == d
    {
      if Store.Expiry(d, id) in s {
        assert MetaById(s, id).Some?;
        PathIsRegistered(s, id);
        RegisteredAt(s, PathAt(s, id).value);
      }
    }
  }

  /** A dying stream takes its entry along. */
  lemma {:induction false} DiedKeepsIndex(s: Keyspace, t: Keyspace, path: ByteString, m: StreamMeta)
    requires IndexExact(s) && Registered(s) && Died(s, t, path, m)
    requires forall d, id :: Store.Expiry(d, id) in t <==>
                             Store.Expiry(d, id) in s && !(d == m.deadline > 0 && id == m.id)
    ensures IndexExact(t)
  {
    hide MetaAt, PathAt, TailAt, RecordAt, RefCountAt, Counter;
    RegisteredAt(s, path);
    forall p | MetaAt(t, p).Some? ensures MetaAt(s, p).Some? && MetaAt(s, p).value.id != m.id {
      RegisteredAt(s, p);
    }
    forall d, id | Store.Expiry(d, id) in t
      ensures d > 0 && MetaById(t, id).Some? && MetaById(t, id).value.deadline == d
    {
      assert MetaById(s, id).Some? && MetaById(s, id).value.deadline == d;
      PathIsRegistered(s, id);
    }
  }

  /** A deadline moves, in the metadata and in the index at once; it must not move to 0. */
  lemma {:induction false} MoveKeepsIndex(s: Keyspace, t: Keyspace, path: ByteString, m: StreamMeta, n: StreamMeta)
    requires IndexExact(s) && Registered(s) && MetaAt(s, path) == Some(m) && n.id == m.id
    requires n.deadline != m.deadline ==> n.deadline > 0
    requires forall p :: MetaAt(t, p) == if p == path then Some(n) else MetaAt(s, p)
    requires forall id :: PathAt(t, id) == PathAt(s, id)
    requires forall d, id :: Store.Expiry(d, id) in t <==>
               if id == m.id && n.deadline != m.deadline then
                 d == n.deadline || (d != m.deadline && Store.Expiry(d, id) in s) else Store.Expiry(d, id) in s
    ensures IndexExact(t)
  {
    hide MetaAt, PathAt;
    RegisteredAt(s, path);
    assert MetaById(s, m.id) == Some(m) && MetaById(t, m.id) == Some(n);
    forall p | MetaAt(t, p).Some? && p != path ensures MetaAt(t, p).value.id != m.id {
      RegisteredAt(s, p);
    }
    forall d, id | Store.Expiry(d, id) in t
      ensures d > 0 && MetaById(t, id).Some? && MetaById(t, id).value.deadline == d
    {
      if id != m.id {
        assert MetaById(s, id).Some? && MetaById(s, id).value.deadline == d;
        PathIsRegistered(s, id);
      }
    }
  }

  /** A commit of effects keeps the index exact as long as it does not move the deadline to 0. */
  lemma {:induction false} AppendKeepsIndex(l: Life, l': Life, path: ByteString, e: Effects, now: nat)
    requires IndexExact(l.store) && Registered(l.store) && AppendsTo(l, l', path, e, now)
    requires e.deadline == 0 ==> MetaAt(l.store, path).value.deadline == 0
    ensures IndexExact(l'.store)
  {
    var s, t, m := l.store, l'.store, MetaAt(l.store, path).value;
    var b := BatchOf(path, m, TailAt(s, m.id), e, now);
    var n := m.(closed := e.closed, deadline := e.deadline);
    hide IndexExact, Registered, Apply;
    DeadlineAfterAppend(s, path, m, e, now);
    forall p ensures MetaAt(t, p) == if p == path then Some(n) else MetaAt(s, p) {
      ApplyMeta(s, b, p);
    }
    forall id ensures PathAt(t, id) == PathAt(s, id) {
      ApplyPath(s, b, id);
    }
    forall d, id ensures Store.Expiry(d, id) in t <==>
      if id == m.id && n.deadline != m.deadline then
        d == n.deadline || (d != m.deadline && Store.Expiry(d, id) in s) else Store.Expiry(d, id) in s
    {
      ApplyExpiry(s, b, d, id);
      NoZeroEntry(s, id);
    }
    hide BatchOf;
    MoveKeepsIndex(s, t, path, m, n);
  }

  /** If it does move it to 0, the index holds an entry for a stream without deadline. */
  lemma {:induction false} MoveToZeroBreaksIndex(l: Life, l': Life, path: ByteString, e: Effects, now: nat)
    requires AppendsTo(l, l', path, e, now) && e.deadline == 0 < MetaAt(l.store, path).value.deadline
    ensures !IndexExact(l'.store)
  {
    var s, m := l.store, MetaAt(l.store, path).value;
    ApplyExpiry(s, BatchOf(path, m, TailAt(s, m.id), e, now), 0, m.id);
    hide BatchOf, Apply;
    assert Store.Expiry(0, m.id) in l'.store;
  }

  /**
   An accepted append leaves the index exact if and only if it does not slide an
   existing deadline to 0, which the TTL, the deadline and the clock decide.
   */
  lemma {:induction false} AppendIndexExactly(s: Keyspace, path: ByteString, req: Request, now: nat)
    requires IndexExact(s) && Registered(s) && MetaAt(s, path).Some? && AppendOne(s, path, req, now).accepted
    ensures var m := MetaAt(s, path).value;
            IndexExact(AppendOne(s, path, req, now).store) <==> m.deadline == 0 || !SlidesToZero(m.deadline, m.ttl, now)
  {
    var m := MetaAt(s, path).value;
    var e := EffectsOf(m, req, Decide(ViewOf(s, m, req), req).producer, now);
    var l, l' := Life(s, Idle, false), Life(AppendOne(s, path, req, now).store, Idle, false);
    assert AppendsTo(l, l', path, e, now);
    SlideIsZero(m.deadline, m.ttl, now);
    hide IndexExact, Registered, AppendOne, AppendsTo, Slide, SlidesToZero;
    if m.deadline > 0 && SlidesToZero(m.deadline, m.ttl, now) {
      MoveToZeroBreaksIndex(l, l', path, e, now);
    } else {
      AppendKeepsIndex(l, l', path, e, now);
    }
  }

  /**
   A read's refresh leaves it exact if and only if it does not slide to 0; it writes the
   entry even if the deadline was 0.
   */
  lemma {:induction false} TouchIndexExactly(s: Keyspace, path: ByteString, now: nat)
    requires IndexExact(s) && Registered(s) && MetaAt(s, path).Some?
    ensures var m := MetaAt(s, path).value;
            IndexExact(Touched(s, path, now)) <==> !SlidesToZero(m.deadline, m.ttl, now)
  {
    var m := MetaAt(s, path).value;
    SlideIsZero(m.deadline, m.ttl, now);
    if SlidesToZero(m.deadline, m.ttl, now) {
      hide Slide, IndexExact, Registered;
      var b := TouchBatch(path, m, now);
      ApplyExpiry(s, b, 0, m.id);
      hide Apply;
      assert Store.Expiry(0, m.id) in Touched(s, path, now);
      if IndexExact(Touched(s, path, now)) {
        NoZeroEntry(Touched(s, path, now), m.id);
      }
    } else {
      hide IndexExact, Registered, SlidesToZero, Touched;
      TouchKeepsIndex(s, path, now);
    }
  }

  lemma {:induction false} TouchKeepsIndex(s: Keyspace, path: ByteString, now: nat)
    requires IndexExact(s) && Registered(s) && MetaAt(s, path).Some?
    requires !SlidesToZero(MetaAt(s, path).value.deadline, MetaAt(s, path).value.ttl, now)
    ensures IndexExact(Touched(s, path, now))
  {
    var m := MetaAt(s, path).value;
    SlideIsZero(m.deadline, m.ttl, now);
    var b, t := TouchBatch(path, m, now), Touched(s, path, now);
    var n := if b == map[] then m else m.(deadline := Slide(m.deadline, m.ttl, now));
    hide IndexExact, Registered, Apply, Slide, SlidesToZero;
    forall p ensures MetaAt(t, p) == if p == path then Some(n) else MetaAt(s, p) {
      ApplyMeta(s, b, p);
    }
    forall id ensures PathAt(t, id) == PathAt(s, id) {
      ApplyPath(s, b, id);
    }
    if b != map[] && n.deadline == m.deadline {
      HasEntry(s, path);
    }
    forall d, id ensures Store.Expiry(d, id) in t <==>
      if id == m.id && n.deadline != m.deadline then
        d == n.deadline || (d != m.deadline && Store.Expiry(d, id) in s) else Store.Expiry(d, id) in s
    {
      ApplyExpiry(s, b, d, id);
      NoZeroEntry(s, id);
    }
    hide TouchBatch, Touched;
    MoveKeepsIndex(s, t, path, m, n);
  }

  lemma NoZeroEntry(s: Keyspace, id: nat)
    requires IndexExact(s)
    ensures Store.Expiry(0, id) !in s
  {
  }

  lemma HasEntry(s: Keyspace, path: ByteString)
    requires IndexExact(s) && MetaAt(s, path).Some?
    ensures var m := MetaAt(s, path).value; m.deadline > 0 ==> Store.Expiry(m.deadline, m.id) in s
  {
  }

  // ----- every commit keeps the index exact -----

  lemma {:induction false} BirthExpiry(s: Keyspace, path: ByteString, m: StreamMeta, first: nat, own: seq<ByteString>,
          now: int, more: Batch, d: nat, id: nat)
    requires forall k :: k in more ==> k.RefCount?
    ensures Store.Expiry(d, id) in Apply(s, BirthBatch(path, m, first, own, now) + more) <==>
            Store.Expiry(d, id) in s || (d == m.deadline > 0 && id == m.id)
  {
    hide RecordPuts, Apply;
    ApplyExpiry(s, BirthBatch(path, m, first, own, now) + more, d, id);
  }

  lemma {:induction false} CreateKeepsIndex(l: Life, l': Life, path: ByteString, m: StreamMeta,
          records: seq<ByteString>, now: nat)
    requires Registered(l.store) && Counter(l.store) >= 1 && IndexExact(l.store)
             && Creates(l, l', path, m, records, now)
    ensures IndexExact(l'.store) && Born(l.store, l'.store, path, m, 0, records)
  {
    hide Born, BirthBatch, Apply, Registered, IndexExact;
    BirthIsBorn(l.store, path, m, 0, records, now);
    var b := BirthBatch(path, m, 0, records, now);
    assert b + map[] == b;
    forall d, id ensures Store.Expiry(d, id) in l'.store <==>
      Store.Expiry(d, id) in l.store || (d == m.deadline > 0 && id == m.id) {
      BirthExpiry(l.store, path, m, 0, records, now, map[], d, id);
    }
    BornKeepsIndex(l.store, l'.store, path, m, 0, records);
  }

  lemma {:induction false} ForkKeepsIndex(l: Life, l': Life, p: ForkParams, now: nat)
    requires Registered(l.store) && IndexExact(l.store) && ForksOff(l, l', p, now)
    ensures IndexExact(l'.store)
  {
    var s, d := l.store, ForkDecision(l.store, p);
    hide ForkDecision, ForkOwn, Born, BirthBatch, Apply, Registered, ForkMeta, IndexExact;
    ForkIsBorn(l, l', p, now);
    var m, own := ForkMeta(s, p, d.src, d.at, now), ForkOwn(s, p, d.src, d.at);
    forall x, id ensures Store.Expiry(x, id) in l'.store <==>
      Store.Expiry(x, id) in s || (x == m.deadline > 0 && id == m.id) {
      BirthExpiry(s, p.path, m, d.at.seqno, own, now,
          map[RefCount(d.src.id) := Some(U64Val(RefCountAt(s, d.src.id) + 1))], x, id);
    }
    BornKeepsIndex(s, l'.store, p.path, m, d.at.seqno, own);
  }

  /** Whoever hard-deletes a stream. */
  lemma {:induction false} HardDeleteKeepsIndex(s: Keyspace, path: ByteString, m: StreamMeta)
    requires Registered(s) && IndexExact(s) && MetaAt(s, path) == Some(m)
    ensures IndexExact(Apply(s, HardDeleteBatch(path, m)))
  {
    var b := HardDeleteBatch(path, m);
    var t := Apply(s, b);
    HardDeleteIsDied(s, path, m);
    hide Apply, Registered, IndexExact, Died;
    forall d, id ensures Store.Expiry(d, id) in t <==>
      Store.Expiry(d, id) in s && !(d == m.deadline > 0 && id == m.id) {
      ApplyExpiry(s, b, d, id);
    }
    DiedKeepsIndex(s, t, path, m);
  }

  /** Batches that write neither metadata nor mappings nor index entries. */
  lemma {:induction false} OtherKeepsIndex(s: Keyspace, b: Batch)
    requires IndexExact(s) && forall k :: k in b ==> !k.Meta? && !k.IdMapping? && !k.Expiry?
    ensures IndexExact(Apply(s, b))
  {
    var t := Apply(s, b);
    hide Apply, IndexExact, MetaAt, PathAt;
    forall p ensures MetaAt(t, p) == MetaAt(s, p) {
      ApplyMeta(s, b, p);
    }
    forall id ensures PathAt(t, id) == PathAt(s, id) {
      ApplyPath(s, b, id);
    }
    forall d, id ensures Store.Expiry(d, id) in t <==> Store.Expiry(d, id) in s {
      ApplyExpiry(s, b, d, id);
    }
    IndexUnchanged(s, t);
  }

  // ----- an input that breaks the index -----

  /** A stream of TTL 2^64 - 602, created at second 1. */
  function ImmenseStream(): StreamMeta {
    StreamMeta(1, Json, U64_LIMIT - 602, 0, false, FirstDeadline(U64_LIMIT - 602, true, 0, 1), 0, 0, 0)
  }

  function EmptyObject(): Request {
    Request([[123, 125]], true, Json, false, None, None)
  }

  lemma ImmenseDeadlines()
    ensures ImmenseStream().deadline == U64_LIMIT - 600
    ensures SlidesToZero(U64_LIMIT - 600, U64_LIMIT - 602, 2)
  {
  }

  /**
   Created at second 1 on an empty store, it loses its deadline to an append at second 2,
   and the index its exactness.
   */
  lemma {:induction false} ImmenseTTLBreaksIndex(path: ByteString)
    ensures var s := Apply(map[], BirthBatch(path, ImmenseStream(), 0, [], 1));
            && MetaAt(s, path) == Some(ImmenseStream()) && IndexExact(s)
            && AppendOne(s, path, EmptyObject(), 2).accepted && !IndexExact(AppendOne(s, path, EmptyObject(), 2).store)
  {
    var m := ImmenseStream();
    ImmenseDeadlines();
    var l := Life(map[], Idle, false);
    var l' := l.(store := Apply(map[], BirthBatch(path, m, 0, [], 1)));
    assert Creates(l, l', path, m, [], 1);
    CreateKeepsIndex(l, l', path, m, [], 1);
    BornStaysRegistered(map[], l'.store, path, m, 0, []);
    hide IndexExact, Registered, BirthBatch, Apply, SlidesToZero, FirstDeadline, Slide;
    assert MetaAt(l'.store, path) == Some(m);
    hide MetaAt;
    AppendIndexExactly(l'.store, path, EmptyObject(), 2);
  }
}
