/**
 The sweeper among everything else: runs of bursts, read refreshes, creates, forks,
 deletes, crashes and sweeps, where other commits may come between the scan that finds
 the due entries and each deletion. Over every run the expiry index stays exact, and
 no stream is expired within its TTL of its last accepted append.
 */
module Sweeps {
  import opened Bytes
  import opened Store
  import opened Appends
  import opened Streamer
  import opened Lifecycle
  import opened Expiry

  // ----- the steps, one per commit -----

  /** An entry read from the index. */
  datatype Due = Due(deadline: nat, id: nat)

  function EntryOf(m: StreamMeta): Due {
    Due(m.deadline, m.id)
  }

  /**
   The stores and locks, what is left of the current sweep and the time it started at,
   and for each stream id the time of its creation or of its last accepted append.
   */
  datatype Moment = Moment(life: Life, dues: seq<Due>, sweepTime: nat, last: map<nat, nat>)

  datatype Act =
    | Manage(step: Step)
    | Burst(path: ByteString, reqs: seq<Request>, now: nat)
    | Touch(path: ByteString, now: nat)
    | ScanAct(now: nat)
    | ExpireAct

  function AfterDelete(m: StreamMeta): Agenda {
    if m.forkedFrom != 0 then DropRef(m.forkedFrom) else Idle
  }

  /** The entry is still the deadline of its stream. */
  predicate Current(s: Keyspace, d: Due) {
    && PathAt(s, d.id).Some? && MetaAt(s, PathAt(s, d.id).value).Some?
    && EntryOf(MetaAt(s, PathAt(s, d.id).value).value) == d
  }

  /** The first commit of expireIfDue: a current entry takes its stream with it, a stale one is dropped. */
  function Expired(l: Life, d: Due, now: nat): Life {
    if !Current(l.store, d) then l.(store := Apply(l.store, map[Store.Expiry(d.deadline, d.id) := None]))
    else if d.deadline > now then l
    else
      var path := PathAt(l.store, d.id).value;
      var m := MetaAt(l.store, path).value;
      l.(store := Apply(l.store, HardDeleteBatch(path, m)), agenda := AfterDelete(m))
  }

  predicate BornOnTime(m: StreamMeta, now: nat) {
    || m.deadline == FirstDeadline(m.ttl, true, m.expiresAt, now)
    || (m.ttl == 0 && m.deadline == FirstDeadline(0, false, m.expiresAt, now))
  }

  /** Create, fork, delete with its cascade, the background deleter, and a crash, which also ends the sweep. */
  ghost predicate Manages(w: Moment, w': Moment, step: Step) {
    && !step.AppendStep? && Next(w.life, w'.life, step)
    && (step.CreateStep? ==> BornOnTime(step.m, step.now))
    && w'.sweepTime == w.sweepTime && w'.dues == (if step.CrashStep? then [] else w.dues)
    && w'.last == if step.CreateStep? || step.ForkStep? then w.last[Counter(w.life.store) := step.now] else w.last
  }

  /** One group commit of a stream. */
  ghost predicate Bursts(w: Moment, w': Moment, path: ByteString, reqs: seq<Request>, now: nat) {
    && MetaAt(w.life.store, path).Some?
    && var o := AppendAll(w.life.store, path, Stamp(reqs, now));
       w' == w.(life := w.life.(store := o.store),
                last := if true in o.accepted then w.last[MetaAt(w.life.store, path).value.id := now] else w.last)
  }

  ghost predicate Scans(w: Moment, w': Moment, now: nat) {
    && w.dues == [] && w' == w.(dues := w'.dues, sweepTime := now)
    && forall d: nat, id: nat :: Due(d, id) in w'.dues <==> Store.Expiry(d, id) in w.life.store && d <= now
  }

  ghost predicate Expires(w: Moment, w': Moment) {
    && w.dues != [] && w.life.agenda.Idle?
    && w' == w.(life := Expired(w.life, w.dues[0], w.sweepTime), dues := w.dues[1..])
  }

  ghost predicate Does(w: Moment, w': Moment, a: Act) {
    match a
    case Manage(step) => Manages(w, w', step)
    case Burst(path, reqs, now) => Bursts(w, w', path, reqs, now)
    case Touch(path, now) => w' == w.(life := w.life.(store := Touched(w.life.store, path, now)))
    case ScanAct(now) => Scans(w, w', now)
    case ExpireAct => Expires(w, w')
  }

  ghost predicate Linked(trace: seq<Moment>, acts: seq<Act>) {
    && |trace| == |acts| + 1
    && forall i :: 0 <= i < |acts| ==> Does(trace[i], trace[i + 1], acts[i])
  }

  function Start(): Moment {
    Moment(Life(map[], Idle, false), [], 0, map[])
  }

  // ----- the index, over every run -----

  ghost predicate Good(w: Moment) {
    && Registered(w.life.store) && Counter(w.life.store) >= 1 && IndexExact(w.life.store)
    && (w.life.agenda.Cascade? ==> Tombstone(w.life.agenda.path) in w.life.store)
    && forall x :: 0 <= x < |w.dues| ==> 0 < w.dues[x].deadline <= w.sweepTime
  }

  /** The act does not slide a deadline to 0: exactly what AppendIndexExactly and TouchIndexExactly ask for. */
  ghost predicate KeepsDeadlines(s: Keyspace, a: Act) {
    (a.Burst? || a.Touch?) && MetaAt(s, a.path).Some? ==>
      var m := MetaAt(s, a.path).value;
      (a.Burst? && m.deadline == 0) || !SlidesToZero(m.deadline, m.ttl, a.now)
  }

  /** One request: at most its stream's metadata changes, and there the deadline as the slide says. */
  lemma {:induction false} OneAppend(s: Keyspace, path: ByteString, req: Request, now: nat)
    requires Registered(s) && MetaAt(s, path).Some?
    ensures var m, o := MetaAt(s, path).value, AppendOne(s, path, req, now);
            && Registered(o.store) && Counter(o.store) == Counter(s)
            && (forall p :: p != path ==> MetaAt(o.store, p) == MetaAt(s, p))
            && (forall p :: Tombstone(p) in o.store <==> Tombstone(p) in s)
            && MetaAt(o.store, path).Some? && MetaAt(o.store, path).value.id == m.id
               && MetaAt(o.store, path).value.ttl == m.ttl
            && MetaAt(o.store, path).value.deadline == if o.accepted then Slide(m.deadline, m.ttl, now) else m.deadline
  {
    var m, o := MetaAt(s, path).value, AppendOne(s, path, req, now);
    hide Slide, Decide;
    if o.accepted {
      var e := EffectsOf(m, req, Decide(ViewOf(s, m, req), req).producer, now);
      var b := BatchOf(path, m, TailAt(s, m.id), e, now);
      var l, l' := Life(s, Idle, false), Life(o.store, Idle, false);
      assert o.store == Apply(s, b) && AppendsTo(l, l', path, e, now);
      hide AppendOne, BatchOf, Registered, AppendsTo;
      AppendWrites(s, path, m, e, now);
      AppendIsQuiet(l, l', path, e, now);
      StillRegistered(s, o.store);
      DeadlineAfterAppend(s, path, m, e, now);
      OnlyMeta(s, b, path);
      hide Apply;
    }
  }

  lemma OnlyMeta(s: Keyspace, b: Batch, path: ByteString)
    requires forall k :: k in b ==> !k.Tombstone? && (k.Meta? ==> k.path == path)
    ensures forall p :: p != path ==> MetaAt(Apply(s, b), p) == MetaAt(s, p)
    ensures forall p :: Tombstone(p) in Apply(s, b) <==> Tombstone(p) in s
  {
    var t := Apply(s, b);
    forall p ensures p != path ==> MetaAt(t, p) == MetaAt(s, p) {
      ApplyMeta(s, b, p);
    }
    forall p ensures Tombstone(p) in t <==> Tombstone(p) in s {
      assert Get(t, Tombstone(p)) == Get(s, Tombstone(p));
    }
  }

  /** What a group commit does to the metadata: the deadline slides once if anything was accepted. */
  ghost predicate Slid(s: Keyspace, t: Keyspace, path: ByteString, slides: bool, now: nat) {
    && Registered(t) && Counter(t) == Counter(s)
    && (forall p :: p != path ==> MetaAt(t, p) == MetaAt(s, p))
    && (forall p :: Tombstone(p) in t <==> Tombstone(p) in s)
    && MetaAt(s, path).Some? && MetaAt(t, path).Some?
    && var m, n := MetaAt(s, path).value, MetaAt(t, path).value;
       n.id == m.id && n.ttl == m.ttl && n.deadline == if slides then Slide(m.deadline, m.ttl, now) else m.deadline
  }

  lemma {:induction false} BurstSlides(s: Keyspace, path: ByteString, reqs: seq<Request>, now: nat)
    requires Registered(s) && MetaAt(s, path).Some?
    ensures var o := AppendAll(s, path, Stamp(reqs, now)); Slid(s, o.store, path, true in o.accepted, now)
  {
    hide Registered, AppendOne, Slide, Apply, MetaAt, Counter;
    if reqs != [] {
      var n, m := |reqs| - 1, MetaAt(s, path).value;
      var o, before := AppendAll(s, path, Stamp(reqs, now)), AppendAll(s, path, Stamp(reqs[..n], now));
      assert Stamp(reqs, now)[..n] == Stamp(reqs[..n], now);
      BurstSlides(s, path, reqs[..n], now);
      var r := AppendOne(before.store, path, reqs[n], now);
      assert o.store == r.store && o.accepted == before.accepted + [r.accepted];
      OneAppend(before.store, path, reqs[n], now);
      SlideIsIdempotent(m.deadline, m.ttl, now);
      hide AppendAll;
    }
  }

  lemma {:induction false} BurstKeepsIndex(s: Keyspace, path: ByteString, reqs: seq<Request>, now: nat)
    requires Registered(s) && IndexExact(s) && MetaAt(s, path).Some? && KeepsDeadlines(s, Burst(path, reqs, now))
    ensures IndexExact(AppendAll(s, path, Stamp(reqs, now)).store)
  {
    hide Registered, AppendOne, Apply, IndexExact;
    if reqs != [] {
      var n, m := |reqs| - 1, MetaAt(s, path).value;
      var before := AppendAll(s, path, Stamp(reqs[..n], now));
      assert Stamp(reqs, now)[..n] == Stamp(reqs[..n], now);
      BurstKeepsIndex(s, path, reqs[..n], now);
      BurstSlides(s, path, reqs[..n], now);
      var d := MetaAt(before.store, path).value.deadline;
      SlideIsZero(m.deadline, m.ttl, now);
      SlideIsZero(d, m.ttl, now);
      SlideIsIdempotent(m.deadline, m.ttl, now);
      hide MetaAt, Slide, SlidesToZero;
      assert d == 0 || !SlidesToZero(d, m.ttl, now);
      if AppendOne(before.store, path, reqs[n], now).accepted {
        AppendIndexExactly(before.store, path, reqs[n], now);
      } else {
        RefusedChangesNothing(before.store, path, reqs[n], now);
      }
    }
  }

  lemma RefusedChangesNothing(s: Keyspace, path: ByteString, req: Request, now: nat)
    requires MetaAt(s, path).Some? && !AppendOne(s, path, req, now).accepted
    ensures AppendOne(s, path, req, now).store == s
  {
  }

  /** A read's refresh slides the deadline and changes nothing else. */
  lemma {:induction false} TouchSlides(s: Keyspace, path: ByteString, now: nat)
    requires Registered(s) && MetaAt(s, path).Some?
    ensures Slid(s, Touched(s, path, now), path, true, now)
  {
    var m, t := MetaAt(s, path).value, Touched(s, path, now);
    var b := TouchBatch(path, m, now);
    assert forall k :: k in b ==> k.Meta? || k.Expiry?;
    assert forall k :: k in b && k.Meta? ==> k.path == path;
    ApplyMeta(s, b, path);
    ApplyCount(s, b, 0);
    assert SameStream(MetaAt(s, path), MetaAt(t, path));
    hide TouchBatch, Touched;
    OnlyMeta(s, b, path);
    hide Slide, MetaAt, Apply, Counter;
    forall id ensures PathAt(t, id) == PathAt(s, id) {
      ApplyPath(s, b, id);
    }
    StillRegistered(s, t);
  }

  lemma {:induction false} ManageKeepsGood(w: Moment, w': Moment, step: Step)
    requires Good(w) && Manages(w, w', step)
    ensures Good(w')
  {
    var l, l' := w.life, w'.life;
    var s, t := l.store, l'.store;
    hide IndexExact, Registered, Apply, ForkDecision, BirthBatch, HardDeleteBatch, Born, Died, Counter;
    match step {
      case CreateStep(path, m, records, now) =>
        CreateKeepsIndex(l, l', path, m, records, now);
        BornStaysRegistered(s, t, path, m, 0, records);
        BornCounts(s, t, path, m, 0, records);
      case ForkStep(p, now) =>
        var d := ForkDecision(s, p);
        ForkKeepsIndex(l, l', p, now);
        ForkIsBorn(l, l', p, now);
        BornStaysRegistered(s, t, p.path, ForkMeta(s, p, d.src, d.at, now), d.at.seqno, ForkOwn(s, p, d.src, d.at));
        BornCounts(s, t, p.path, ForkMeta(s, p, d.src, d.at, now), d.at.seqno, ForkOwn(s, p, d.src, d.at));
      case HardDeleteStep(path) =>
        DeleteKeepsGood(s, path, MetaAt(s, path).value);
      case SoftDeleteStep(path) =>
        OtherKeepsGood(s, map[Tombstone(path) := Some(TombstoneVal(true, MetaAt(s, path).value.id))]);
      case DropStep =>
        var id := l.agenda.source;
        OtherKeepsGood(s, map[RefCount(id) :=
              Some(U64Val(if RefCountAt(s, id) > 0 then RefCountAt(s, id) - 1 else 0))]);
      case ReclaimStep(id, b) => OtherKeepsGood(s, b);
      case CrashStep =>
    }
  }

  lemma BornCounts(s: Keyspace, t: Keyspace, path: ByteString, m: StreamMeta, first: nat, own: seq<ByteString>)
    requires Born(s, t, path, m, first, own)
    ensures m.id == Counter(s) && Counter(t) == m.id + 1
  {
  }

  lemma DeleteKeepsGood(s: Keyspace, path: ByteString, m: StreamMeta)
    requires Registered(s) && Counter(s) >= 1 && IndexExact(s) && MetaAt(s, path) == Some(m)
    ensures var t := Apply(s, HardDeleteBatch(path, m));
            Registered(t) && Counter(t) >= 1 && IndexExact(t) && Died(s, t, path, m)
  {
    var t := Apply(s, HardDeleteBatch(path, m));
    HardDeleteIsDied(s, path, m);
    hide Apply, HardDeleteBatch, Registered, IndexExact;
    HardDeleteKeepsIndex(s, path, m);
    DiedStaysRegistered(s, t, path, m);
  }

  lemma DiedStaysRegistered(s: Keyspace, t: Keyspace, path: ByteString, m: StreamMeta)
    requires Registered(s) && Died(s, t, path, m)
    ensures Registered(t)
  {
    hide MetaAt, PathAt, TailAt, RecordAt, RefCountAt, Counter;
    RegisteredAt(s, path);
    forall p | MetaAt(t, p).Some?
      ensures var n := MetaAt(t, p).value; PathAt(t, n.id) == Some(p) && 1 <= n.id < Counter(t) && n.forkedFrom < n.id
    {
      RegisteredAt(s, p);
    }
  }

  /** Batches that write neither metadata nor mappings nor index entries nor the id counter. */
  lemma {:induction false} OtherKeepsGood(s: Keyspace, b: Batch)
    requires Registered(s) && IndexExact(s)
    requires forall k :: k in b ==> !k.Meta? && !k.IdMapping? && !k.Expiry? && !k.IdCounter?
                                    && (k.Tombstone? ==> b[k].Some?)
    ensures var t := Apply(s, b);
            && Registered(t) && IndexExact(t) && Counter(t) == Counter(s)
            && (forall p :: MetaAt(t, p) == MetaAt(s, p))
            && (forall p :: Tombstone(p) in s ==> Tombstone(p) in t)
  {
    var t := Apply(s, b);
    OtherKeepsIndex(s, b);
    ApplyCount(s, b, 0);
    forall p ensures Tombstone(p) in s ==> Tombstone(p) in t {
      assert Get(t, Tombstone(p)) == if Tombstone(p) in b then b[Tombstone(p)] else Get(s, Tombstone(p));
    }
    hide Apply, IndexExact, MetaAt, PathAt, Counter;
    forall p ensures MetaAt(t, p) == MetaAt(s, p) {
      ApplyMeta(s, b, p);
    }
    forall id ensures PathAt(t, id) == PathAt(s, id) {
      ApplyPath(s, b, id);
    }
    StillRegistered(s, t);
  }

  /** With an exact index there is nothing to drop for a stale entry. */
  lemma StaleIsGone(s: Keyspace, d: Due)
    requires Registered(s) && IndexExact(s) && !Current(s, d)
    ensures Store.Expiry(d.deadline, d.id) !in s && Apply(s, map[Store.Expiry(d.deadline, d.id) := None]) == s
  {
    if PathAt(s, d.id).Some? {
      PathIsRegistered(s, d.id);
    }
    assert Store.Expiry(d.deadline, d.id) !in s;
    hide Registered, IndexExact;
    SameContents(s, Apply(s, map[Store.Expiry(d.deadline, d.id) := None]));
  }

  lemma {:induction false} ExpireKeepsGood(w: Moment, w': Moment)
    requires Good(w) && Expires(w, w')
    ensures Good(w')
  {
    var s, d := w.life.store, w.dues[0];
    hide IndexExact, Registered, Apply, HardDeleteBatch, Died;
    if !Current(s, d) {
      StaleIsGone(s, d);
    } else if d.deadline <= w.sweepTime {
      DeleteKeepsGood(s, PathAt(s, d.id).value, MetaAt(s, PathAt(s, d.id).value).value);
    }
  }

  /** Every step keeps the index exact that does not slide a deadline to 0. */
  lemma {:induction false} StepKeepsGood(w: Moment, w': Moment, a: Act)
    requires Good(w) && Does(w, w', a) && KeepsDeadlines(w.life.store, a)
    ensures Good(w')
  {
    var s := w.life.store;
    hide IndexExact, Registered, AppendAll, Touched, Slide;
    match a {
      case Manage(step) => ManageKeepsGood(w, w', step);
      case Burst(path, reqs, now) =>
        BurstSlides(s, path, reqs, now);
        BurstKeepsIndex(s, path, reqs, now);
      case Touch(path, now) =>
        if MetaAt(s, path).Some? {
          TouchSlides(s, path, now);
          TouchIndexExactly(s, path, now);
        } else {
          TouchesNothing(s, path, now);
        }
      case ScanAct(now) => ScanKeepsGood(w, w', now);
      case ExpireAct => ExpireKeepsGood(w, w');
    }
  }

  lemma TouchesNothing(s: Keyspace, path: ByteString, now: nat)
    requires MetaAt(s, path).None?
    ensures Touched(s, path, now) == s
  {
  }

  lemma ScanKeepsGood(w: Moment, w': Moment, now: nat)
    requires Good(w) && Scans(w, w', now)
    ensures Good(w')
  {
    hide Registered;
    forall x | 0 <= x < |w'.dues| ensures 0 < w'.dues[x].deadline <= now {
      var d := w'.dues[x];
      assert Due(d.deadline, d.id) in w'.dues;
      assert Store.Expiry(d.deadline, d.id) in w.life.store;
    }
  }

  lemma StartIsGood()
    ensures Good(Start())
  {
  }

  /**
   Over every run, with sweeps and read refreshes among the bursts and a crash after any
   commit, the index has exactly one entry for each stream with a deadline, as long as
   no slide has ended at 0.
   */
  lemma {:induction false} RunKeepsIndex(trace: seq<Moment>, acts: seq<Act>, i: nat)
    requires Linked(trace, acts) && trace[0] == Start() && i < |trace|
    requires forall k :: 0 <= k < i ==> KeepsDeadlines(trace[k].life.store, acts[k])
    ensures Good(trace[i]) && Registered(trace[i].life.store) && IndexExact(trace[i].life.store)
  {
    if i > 0 {
      hide Good, Does, KeepsDeadlines;
      RunKeepsIndex(trace, acts, i - 1);
      assert Does(trace[i - 1], trace[i - 1 + 1], acts[i - 1]) && KeepsDeadlines(trace[i - 1].life.store, acts[i - 1]);
      StepKeepsGood(trace[i - 1], trace[i], acts[i - 1]);
    }
  }

  // ----- no early expiry, over every run -----

  /** A deadline of a stream with a sliding TTL lies past the TTL after the last access that counts. */
  predicate Ahead(m: StreamMeta, last: map<nat, nat>) {
    m.ttl > 0 ==> m.id in last && last[m.id] + m.ttl < m.deadline < U64_LIMIT
  }

  ghost predicate AllAhead(s: Keyspace, last: map<nat, nat>) {
    forall p :: MetaAt(s, p).Some? ==> Ahead(MetaAt(s, p).value, last)
  }

  /** The deadline that the act sets fits 64 bits, or none is set: the exact condition of SlideReachesTTL. */
  ghost predicate Fitting(s: Keyspace, a: Act) {
    match a
    case Manage(CreateStep(_, m, _, now)) => m.ttl > 0 ==> now + m.ttl + 1 < U64_LIMIT
    case Manage(ForkStep(p, now)) =>
      ForkDecision(s, p).Fresh? ==>
        var ttl := ForkTTL(ForkDecision(s, p).src, p).0;
        ttl > 0 ==> now + ttl + 1 < U64_LIMIT
    case Burst(path, _, now) => MetaAt(s, path).Some? ==> SlideFits(MetaAt(s, path).value, now)
    case Touch(path, now) => MetaAt(s, path).Some? ==> SlideFits(MetaAt(s, path).value, now)
    case _ => true
  }

  predicate SlideFits(m: StreamMeta, now: nat) {
    m.ttl > 0 ==> now + m.ttl < m.deadline || now + m.ttl + Granularity(m.ttl) < U64_LIMIT
  }

  lemma FittingSlides(m: StreamMeta, last: map<nat, nat>, now: nat)
    requires Ahead(m, last) && SlideFits(m, now)
    ensures !SlidesToZero(m.deadline, m.ttl, now)
    ensures m.ttl > 0 ==> m.deadline <= Slide(m.deadline, m.ttl, now) < U64_LIMIT
                          && now + m.ttl < Slide(m.deadline, m.ttl, now)
  {
    if m.ttl > 0 {
      SlideReachesTTL(m.deadline, m.ttl, now);
    }
  }

  lemma {:induction false} SlidKeepsAhead(s: Keyspace, t: Keyspace, path: ByteString, slides: bool, now: nat,
                                          last: map<nat, nat>, last': map<nat, nat>)
    requires Registered(s) && Slid(s, t, path, slides, now) && AllAhead(s, last)
             && SlideFits(MetaAt(s, path).value, now)
    requires last' == last || (slides && last' == last[MetaAt(s, path).value.id := now])
    ensures AllAhead(t, last')
  {
    FittingSlides(MetaAt(s, path).value, last, now);
    hide MetaAt, Slide, Granularity;
    forall p | MetaAt(t, p).Some? ensures Ahead(MetaAt(t, p).value, last') {
      if p != path {
        RegisteredAt(s, p);
        RegisteredAt(s, path);
      }
    }
  }

  lemma {:induction false} BornKeepsAhead(s: Keyspace, t: Keyspace, path: ByteString, m: StreamMeta, first: nat,
          own: seq<ByteString>,
                                          now: nat, last: map<nat, nat>)
    requires Registered(s) && Born(s, t, path, m, first, own) && BornOnTime(m, now) && AllAhead(s, last)
    requires m.ttl > 0 ==> now + m.ttl + 1 < U64_LIMIT
    ensures AllAhead(t, last[m.id := now])
  {
    hide MetaAt, PathAt, TailAt, RecordAt, RefCountAt, Counter;
    forall p | MetaAt(t, p).Some? ensures Ahead(MetaAt(t, p).value, last[m.id := now]) {
      if p != path {
        RegisteredAt(s, p);
      }
    }
  }

  lemma {:induction false} ManageKeepsAhead(w: Moment, w': Moment, step: Step)
    requires Good(w) && Manages(w, w', step) && AllAhead(w.life.store, w.last) && Fitting(w.life.store, Manage(step))
    ensures AllAhead(w'.life.store, w'.last)
  {
    var l, l' := w.life, w'.life;
    var s, t := l.store, l'.store;
    hide IndexExact, Registered, Apply, ForkDecision, BirthBatch, HardDeleteBatch, Born, Counter, MetaAt, Ahead;
    match step {
      case CreateStep(path, m, records, now) =>
        CreateKeepsIndex(l, l', path, m, records, now);
        BornCounts(s, t, path, m, 0, records);
        BornKeepsAhead(s, t, path, m, 0, records, now, w.last);
      case ForkStep(p, now) =>
        var d := ForkDecision(s, p);
        ForkIsBorn(l, l', p, now);
        var m := ForkMeta(s, p, d.src, d.at, now);
        BornCounts(s, t, p.path, m, d.at.seqno, ForkOwn(s, p, d.src, d.at));
        BornKeepsAhead(s, t, p.path, m, d.at.seqno, ForkOwn(s, p, d.src, d.at), now, w.last);
      case HardDeleteStep(path) =>
        HardDeleteIsDied(s, path, MetaAt(s, path).value);
      case SoftDeleteStep(path) =>
        OtherKeepsGood(s, map[Tombstone(path) := Some(TombstoneVal(true, MetaAt(s, path).value.id))]);
      case DropStep =>
        var id := l.agenda.source;
        OtherKeepsGood(s, map[RefCount(id) :=
              Some(U64Val(if RefCountAt(s, id) > 0 then RefCountAt(s, id) - 1 else 0))]);
      case ReclaimStep(id, b) => OtherKeepsGood(s, b);
      case CrashStep =>
    }
  }

  /** What an expiry removes: exactly the stream, if any, whose current entry is the due one. */
  lemma {:induction false} ExpiryRemovesExactly(w: Moment, w': Moment, p: ByteString)
    requires Good(w) && Expires(w, w')
    ensures MetaAt(w'.life.store, p) ==
            if MetaAt(w.life.store, p).Some? && EntryOf(MetaAt(w.life.store, p).value) == w.dues[0] then
              None else MetaAt(w.life.store, p)
  {
    var s, d := w.life.store, w.dues[0];
    hide IndexExact, Apply, HardDeleteBatch;
    if MetaAt(s, p).Some? {
      RegisteredAt(s, p);
    }
    if !Current(s, d) {
      StaleIsGone(s, d);
    } else {
      HardDeleteIsDied(s, PathAt(s, d.id).value, MetaAt(s, PathAt(s, d.id).value).value);
    }
  }

  lemma {:induction false} ExpireKeepsAhead(w: Moment, w': Moment)
    requires Good(w) && Expires(w, w') && AllAhead(w.life.store, w.last)
    ensures AllAhead(w'.life.store, w'.last)
  {
    hide MetaAt, Good, Expired, Ahead;
    forall p | MetaAt(w'.life.store, p).Some? ensures Ahead(MetaAt(w'.life.store, p).value, w'.last) {
      ExpiryRemovesExactly(w, w', p);
    }
  }

  lemma {:induction false} StepKeepsAhead(w: Moment, w': Moment, a: Act)
    requires Good(w) && Does(w, w', a) && AllAhead(w.life.store, w.last) && Fitting(w.life.store, a)
    ensures KeepsDeadlines(w.life.store, a) && AllAhead(w'.life.store, w'.last)
  {
    var s := w.life.store;
    hide IndexExact, Registered, AppendAll, Touched, Slide, Ahead, SlideFits, SlidesToZero, Slid;
    match a {
      case Manage(step) => ManageKeepsAhead(w, w', step);
      case Burst(path, reqs, now) =>
        FittingSlides(MetaAt(s, path).value, w.last, now);
        BurstSlides(s, path, reqs, now);
        var o := AppendAll(s, path, Stamp(reqs, now));
        SlidKeepsAhead(s, o.store, path, true in o.accepted, now, w.last, w'.last);
      case Touch(path, now) =>
        if MetaAt(s, path).Some? {
          FittingSlides(MetaAt(s, path).value, w.last, now);
          TouchSlides(s, path, now);
          SlidKeepsAhead(s, w'.life.store, path, true, now, w.last, w.last);
        } else {
          TouchesNothing(s, path, now);
        }
      case ScanAct(now) =>
      case ExpireAct => ExpireKeepsAhead(w, w');
    }
  }

  lemma {:induction false} RunKeepsAhead(trace: seq<Moment>, acts: seq<Act>, i: nat)
    requires Linked(trace, acts) && trace[0] == Start() && i < |trace|
    requires forall k :: 0 <= k < i ==> Fitting(trace[k].life.store, acts[k])
    ensures Good(trace[i]) && AllAhead(trace[i].life.store, trace[i].last)
  {
    if i > 0 {
      hide Good, Does, Fitting, AllAhead;
      RunKeepsAhead(trace, acts, i - 1);
      assert Does(trace[i - 1], trace[i - 1 + 1], acts[i - 1]) && Fitting(trace[i - 1].life.store, acts[i - 1]);
      StepKeepsAhead(trace[i - 1], trace[i], acts[i - 1]);
      StepKeepsGood(trace[i - 1], trace[i], acts[i - 1]);
    }
  }

  /** A stream goes in three ways only. */
  lemma {:induction false} WaysToGo(w: Moment, w': Moment, a: Act, p: ByteString)
    requires Good(w) && Does(w, w', a) && MetaAt(w.life.store, p).Some? && MetaAt(w'.life.store, p).None?
    ensures || (a == Manage(HardDeleteStep(p)) && (w.life.agenda.Idle? || Tombstone(p) in w.life.store))
            || (a == ExpireAct && w.dues != [] && w.dues[0] == EntryOf(MetaAt(w.life.store, p).value))
  {
    var s := w.life.store;
    hide IndexExact, Registered, AppendAll, Touched, Slide, Slid, MetaAt, Apply;
    match a {
      case Manage(step) => ManagedWaysToGo(w, w', step, p);
      case Burst(path, reqs, now) =>
        BurstSlides(s, path, reqs, now);
        StillThere(s, w'.life.store, path, p, true in AppendAll(s, path, Stamp(reqs, now)).accepted, now);
      case Touch(path, now) =>
        if MetaAt(s, path).Some? {
          TouchSlides(s, path, now);
          StillThere(s, w'.life.store, path, p, true, now);
        } else {
          TouchesNothing(s, path, now);
        }
      case ScanAct(now) =>
      case ExpireAct => ExpiryRemovesExactly(w, w', p);
    }
  }

  lemma StillThere(s: Keyspace, t: Keyspace, path: ByteString, p: ByteString, slides: bool, now: nat)
    requires Slid(s, t, path, slides, now) && MetaAt(s, p).Some?
    ensures MetaAt(t, p).Some?
  {
    hide MetaAt;
  }

  lemma {:induction false} ManagedWaysToGo(w: Moment, w': Moment, step: Step, p: ByteString)
    requires Good(w) && Manages(w, w', step) && MetaAt(w.life.store, p).Some? && MetaAt(w'.life.store, p).None?
    ensures step == HardDeleteStep(p) && (w.life.agenda.Idle? || Tombstone(p) in w.life.store)
  {
    var l, l' := w.life, w'.life;
    var s, t := l.store, l'.store;
    hide IndexExact, Registered, Apply, ForkDecision, BirthBatch, HardDeleteBatch, Counter, MetaAt;
    match step {
      case CreateStep(path, m, records, now) => CreateKeepsIndex(l, l', path, m, records, now);
      case ForkStep(q, now) => ForkIsBorn(l, l', q, now);
      case HardDeleteStep(path) => HardDeleteIsDied(s, path, MetaAt(s, path).value);
      case SoftDeleteStep(path) =>
        OtherKeepsGood(s, map[Tombstone(path) := Some(TombstoneVal(true, MetaAt(s, path).value.id))]);
      case DropStep =>
        var id := l.agenda.source;
        OtherKeepsGood(s, map[RefCount(id) :=
              Some(U64Val(if RefCountAt(s, id) > 0 then RefCountAt(s, id) - 1 else 0))]);
      case ReclaimStep(id, b) => OtherKeepsGood(s, b);
      case CrashStep =>
    }
  }

  /**
   Sliding TTL is safe, over every run: a stream that is not soft-deleted goes by a DELETE
   or by an expiry, and an expiry takes it only when more than its TTL has passed between
   its last accepted append (or its creation) and the sweep. Deadlines have to fit 64 bits.
   */
  lemma {:induction false} NoEarlyExpiry(trace: seq<Moment>, acts: seq<Act>, i: nat, p: ByteString)
    requires Linked(trace, acts) && trace[0] == Start() && i < |acts|
    requires forall k :: 0 <= k < i ==> Fitting(trace[k].life.store, acts[k])
    requires MetaAt(trace[i].life.store, p).Some? && MetaAt(trace[i + 1].life.store, p).None?
    requires Tombstone(p) !in trace[i].life.store && acts[i] != Manage(HardDeleteStep(p))
    ensures var w, m := trace[i], MetaAt(trace[i].life.store, p).value;
            && acts[i].ExpireAct? && 0 < m.deadline <= w.sweepTime
            && (m.ttl > 0 ==> m.id in w.last && w.last[m.id] + m.ttl < w.sweepTime)
  {
    RunKeepsAhead(trace, acts, i);
    assert Does(trace[i], trace[i + 1], acts[i]);
    WaysToGo(trace[i], trace[i + 1], acts[i], p);
    hide Does, Registered, IndexExact, MetaAt;
  }

  lemma HardDeleteFits(s: Keyspace, path: ByteString, m: StreamMeta)
    requires AllFit(s) && Registered(s) && MetaAt(s, path) == Some(m)
    ensures AllFit(Apply(s, HardDeleteBatch(path, m))) && m.id < U64_LIMIT
  {
    var t := Apply(s, HardDeleteBatch(path, m));
    RegisteredAt(s, path);
    assert IdMapping(m.id) in s;
    forall k | k in t ensures Fits(k) {
      assert Get(t, k).Some?;
    }
  }
}
