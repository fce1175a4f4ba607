/**
 A TTL whose deadlines do not fit 64 bits: the run in which the sweeper takes a stream
 long before its TTL has passed.
 */
module EarlyExpiry {
  import opened Bytes
  import opened Store
  import opened Appends
  import opened Streamer
  import opened Forks
  import opened Lifecycle
  import opened Expiry
  import opened Sweeps

  /** A stream of TTL 2^64 - 2, created at second 1. */
  function Forever(): StreamMeta {
    StreamMeta(1, Json, U64_LIMIT - 2, 0, false, 0, 0, 0, 0)
  }

  function AfterCreate(path: ByteString): Moment {
    Moment(Life(Apply(map[], BirthBatch(path, Forever(), 0, [], 1)), Idle, false), [], 0, map[1 := 1])
  }

  function AfterAppend(path: ByteString): Moment {
    var w := AfterCreate(path);
    if MetaAt(w.life.store, path).None? then w
    else w.(life := w.life.(store := AppendAll(w.life.store, path, Stamp([EmptyObject()], 1)).store))
  }

  /** The scan at second 599 finds one entry. */
  function AfterScan(w: Moment): Moment {
    w.(dues := [Due(599, 1)], sweepTime := 599)
  }

  function AfterExpiry(w: Moment): Moment {
    w.(life := Expired(w.life, Due(599, 1), 599), dues := [])
  }

  function EarlyRun(path: ByteString): seq<Moment> {
    var w := AfterScan(AfterAppend(path));
    [Start(), AfterCreate(path), AfterAppend(path), w, AfterExpiry(w)]
  }

  function EarlyActs(path: ByteString): seq<Act> {
    [Manage(CreateStep(path, Forever(), [], 1)), Burst(path, [EmptyObject()], 1), ScanAct(599), ExpireAct]
  }

  lemma ForeverIsStep(path: ByteString)
    ensures Good(Start()) && Does(Start(), AfterCreate(path), Manage(CreateStep(path, Forever(), [], 1)))
    ensures Creates(Start().life, AfterCreate(path).life, path, Forever(), [], 1)
  {
    StartIsGood();
    assert FirstDeadline(U64_LIMIT - 2, true, 0, 1) == 0;
    hide BirthBatch, Apply, FirstDeadline, Good;
  }

  lemma NewStreamHasNoTombstone(path: ByteString)
    ensures Tombstone(path) !in AfterCreate(path).life.store
  {
    var b := BirthBatch(path, Forever(), 0, [], 1);
    BirthWrites(path, Forever(), 0, [], 1);
    hide BirthBatch;
    assert Get(Apply(map[], b), Tombstone(path)) == None;
  }

  lemma {:induction false} ForeverIsCreated(path: ByteString)
    ensures var s := AfterCreate(path).life.store;
            && MetaAt(s, path) == Some(Forever()) && Tombstone(path) !in s
            && forall p :: MetaAt(s, p).Some? ==> p == path
    ensures Good(AfterCreate(path)) && Does(Start(), AfterCreate(path), Manage(CreateStep(path, Forever(), [], 1)))
  {
    ForeverIsStep(path);
    NewStreamHasNoTombstone(path);
    hide Does, Creates, AfterCreate, IndexExact, Registered, Forever;
    StepKeepsGood(Start(), AfterCreate(path), Manage(CreateStep(path, Forever(), [], 1)));
    CreateKeepsIndex(Start().life, AfterCreate(path).life, path, Forever(), [], 1);
    hide Good;
  }

  lemma EmptyObjectAccepted(s: Keyspace, path: ByteString)
    requires MetaAt(s, path) == Some(Forever())
    ensures true in AppendAll(s, path, Stamp([EmptyObject()], 1)).accepted
  {
    var events := Stamp([EmptyObject()], 1);
    assert events[..0] == [] && AppendAll(s, path, events[..0]) == Outcomes(s, [], []);
    assert AppendOne(s, path, EmptyObject(), 1).accepted by {
      hide AppendAll, Apply, BatchOf;
    }
    hide AppendOne;
    assert AppendAll(s, path, events).accepted == [AppendOne(s, path, EmptyObject(), 1).accepted];
  }

  lemma {:induction false} ForeverIsAppendedTo(path: ByteString)
    requires MetaAt(AfterCreate(path).life.store, path) == Some(Forever()) && Good(AfterCreate(path))
    ensures var w, w' := AfterCreate(path), AfterAppend(path);
            && Does(w, w', Burst(path, [EmptyObject()], 1)) && Good(w')
            && Slid(w.life.store, w'.life.store, path, true, 1)
  {
    var w, w' := AfterCreate(path), AfterAppend(path);
    var s := w.life.store;
    assert w.last[1 := 1] == w.last;
    hide Registered, AppendAll, AfterCreate, Slid, IndexExact, Slide;
    EmptyObjectAccepted(s, path);
    BurstSlides(s, path, [EmptyObject()], 1);
    assert Bursts(w, w', path, [EmptyObject()], 1);
    hide Bursts, AfterAppend, Good;
    StepKeepsGood(w, w', Burst(path, [EmptyObject()], 1));
  }

  /** A stream of which nothing but its entry at 599 is known is swept at 599. */
  lemma {:induction false} SweptAt599(w: Moment, path: ByteString)
    requires Good(w) && w.dues == [] && w.life.agenda.Idle? && MetaAt(w.life.store, path).Some?
    requires EntryOf(MetaAt(w.life.store, path).value) == Due(599, 1)
    requires forall p :: MetaAt(w.life.store, p).Some? ==> p == path
    ensures Does(w, AfterScan(w), ScanAct(599)) && Does(AfterScan(w), AfterExpiry(AfterScan(w)), ExpireAct)
    ensures MetaAt(AfterExpiry(AfterScan(w)).life.store, path).None?
  {
    var s, found, after := w.life.store, AfterScan(w), AfterExpiry(AfterScan(w));
    hide Registered, IndexExact, Expired, MetaAt;
    forall d: nat, x: nat ensures Due(d, x) in found.dues <==> Store.Expiry(d, x) in s && d <= 599 {
      OnlyEntry(s, path, d, x);
    }
    assert Scans(w, found, 599);
    assert Good(found) && Expires(found, after);
    ExpiryRemovesExactly(found, after, path);
  }

  /** Without the fit, the promise fails: created and appended to at second 1, the stream is swept at second 599. */
  lemma {:induction false} WrappedTTLExpiresEarly(path: ByteString)
    ensures var trace, acts := EarlyRun(path), EarlyActs(path);
            && Linked(trace, acts) && trace[0] == Start() && |acts| == 4 && acts[3].ExpireAct?
            && MetaAt(trace[3].life.store, path).Some? && MetaAt(trace[4].life.store, path).None?
            && var w, m := trace[3], MetaAt(trace[3].life.store, path).value;
               m.id in w.last && w.sweepTime < w.last[m.id] + m.ttl && Tombstone(path) !in w.life.store
  {
    hide Does, Good, Slid, AfterCreate, AfterAppend, Expired, MetaAt, Linked, Forever;
    ForeverRuns(path);
    SweptAt599(AfterAppend(path), path);
    FourSteps(EarlyRun(path), EarlyActs(path));
  }

  lemma {:induction false} ForeverRuns(path: ByteString)
    ensures Does(Start(), AfterCreate(path), Manage(CreateStep(path, Forever(), [], 1)))
    ensures Does(AfterCreate(path), AfterAppend(path), Burst(path, [EmptyObject()], 1))
    ensures var w := AfterAppend(path);
            && Good(w) && w.dues == [] && w.life.agenda.Idle? && w.last == map[1 := 1]
            && MetaAt(w.life.store, path).Some? && Tombstone(path) !in w.life.store
            && EntryOf(MetaAt(w.life.store, path).value) == Due(599, 1) && MetaAt(w.life.store, path).value.ttl > 599
            && forall p :: MetaAt(w.life.store, p).Some? ==> p == path
  {
    ForeverIsCreated(path);
    ForeverIsAppendedTo(path);
    var w := AfterAppend(path);
    assert w.dues == [] && w.life.agenda.Idle? && w.last == map[1 := 1];
    hide Does, Good, Slid, AfterCreate, AfterAppend, MetaAt, Forever;
    DeadlineOfForever(AfterCreate(path).life.store, w.life.store, path);
  }

  lemma FourSteps(trace: seq<Moment>, acts: seq<Act>)
    requires |trace| == 5 && |acts| == 4
    requires Does(trace[0], trace[1], acts[0]) && Does(trace[1], trace[2], acts[1])
    requires Does(trace[2], trace[3], acts[2]) && Does(trace[3], trace[4], acts[3])
    ensures Linked(trace, acts)
  {
    hide Does;
  }

  lemma DeadlineOfForever(s: Keyspace, t: Keyspace, path: ByteString)
    requires Slid(s, t, path, true, 1) && MetaAt(s, path) == Some(Forever()) && Tombstone(path) !in s
    requires forall p :: MetaAt(s, p).Some? ==> p == path
    ensures MetaAt(t, path).Some? && Tombstone(path) !in t && forall p :: MetaAt(t, p).Some? ==> p == path
    ensures EntryOf(MetaAt(t, path).value) == Due(599, 1) && MetaAt(t, path).value.ttl > 599
  {
    ImmenseTTLWraps();
    hide MetaAt, Slide, Registered;
  }

  lemma OnlyEntry(s: Keyspace, path: ByteString, d: nat, id: nat)
    requires Registered(s) && IndexExact(s) && MetaAt(s, path).Some? && forall p :: MetaAt(s, p).Some? ==> p == path
    ensures Store.Expiry(d, id) in s <==> d == MetaAt(s, path).value.deadline > 0 && id == MetaAt(s, path).value.id
  {
    if Store.Expiry(d, id) in s {
      assert MetaById(s, id).Some?;
      PathIsRegistered(s, id);
    }
  }
}
