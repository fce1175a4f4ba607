/**
 The sweeper as the server runs it: each commit it makes is a step of the runs, so that
 what they promise holds whatever is committed in between.
 */
module SweepServer {
  import opened Bytes
  import opened Store
  import opened Lifecycle
  import opened Expiry
  import opened Sweeps

  lemma LinkOneMore(trace: seq<Moment>, acts: seq<Act>, w: Moment, a: Act)
    requires Linked(trace, acts) && Does(trace[|trace| - 1], w, a)
    ensures Linked(trace + [w], acts + [a])
  {
    hide Does;
    var more, all := trace + [w], acts + [a];
    forall i | 0 <= i < |all| ensures Does(more[i], more[i + 1], all[i]) {
      if i < |acts| {
        assert Does(trace[i], trace[i + 1], acts[i]);
      }
    }
  }

  /** From w to w' the stream at path is hard-deleted. */
  ghost predicate FirstCut(w: Moment, w': Moment, path: ByteString, m: StreamMeta) {
    w'.life == w.life.(store := Apply(w.life.store, HardDeleteBatch(path, m)), agenda := AfterDelete(m))
  }

  /** Each commit it makes is a step, from whatever state the others have left. */
  class Sweeper {
    var store: Keyspace
    ghost var trace: seq<Moment>
    ghost var acts: seq<Act>

    ghost function Latest(): Moment
      reads this
      requires |trace| > 0
    {
      trace[|trace| - 1]
    }

    ghost predicate Valid()
      reads this
    {
      |trace| > 0 && Linked(trace, acts) && Latest().life.store == store && Good(Latest()) && AllFit(store)
    }

    /** Started on whatever state the server is in. */
    constructor (w: Moment)
      requires Good(w) && AllFit(w.life.store)
      ensures Valid() && trace == [w]
    {
      store, trace, acts := w.life.store, [w], [];
    }

    /** One commit: the next state of the history. */
    ghost method Record(w: Moment, a: Act)
      requires |trace| > 0 && Linked(trace, acts) && Good(Latest()) && Does(Latest(), w, a) && !a.Burst? && !a.Touch?
      modifies this`trace, this`acts
      ensures trace == old(trace) + [w] && Linked(trace, acts) && Good(Latest())
    {
      hide Does, Good;
      StepKeepsGood(Latest(), w, a);
      LinkOneMore(trace, acts, w, a);
      trace, acts := trace + [w], acts + [a];
    }

    method ScanDue(now: nat) returns (ks: seq<Key>)
      requires AllFit(store) && now + 1 < U64_LIMIT
      ensures forall k :: k in ks <==> k in store && k.Expiry? && k.deadline <= now
    {
      hide InRange, Encode, ExpiryScanEnd, AllFit;
      ks := Scan(store, [7], Some(ExpiryScanEnd(now)));
      forall k ensures k in ks <==> k in store && k.Expiry? && k.deadline <= now {
        if k in store {
          FitsAt(store, k);
          ExpiryScanIsExact(now, k);
        }
      }
    }

    /** Every due entry, and only due entries. */
    method DueEntries(now: nat) returns (dues: seq<Due>)
      requires AllFit(store) && now + 1 < U64_LIMIT
      ensures forall d: nat, id: nat :: Due(d, id) in dues <==> Store.Expiry(d, id) in store && d <= now
    {
      hide AllFit;
      var ks := ScanDue(now);
      dues := [];
      var i := 0;
      while i < |ks|
        invariant i <= |ks| && |dues| == i
        invariant forall x :: 0 <= x < i ==> ks[x] == Store.Expiry(dues[x].deadline, dues[x].id)
      {
        assert ks[i] in ks;
        dues := dues + [Due(ks[i].deadline, ks[i].id)];
        i := i + 1;
      }
      forall d: nat, id: nat ensures Due(d, id) in dues <==> Store.Expiry(d, id) in store && d <= now {
        SameEntries(ks, dues, d, id);
      }
    }

    /**
     deleteStreamLocked, whose first commit is the step `a`, and the cascade it starts:
     besides the stream, only soft-deleted streams go.
     */
    method DeleteStreamLocked(path: ByteString, m: StreamMeta, ghost w: Moment, ghost a: Act)
      requires Valid() && MetaAt(store, path) == Some(m)
      requires Does(Latest(), w, a) && (a.Manage? || a.ExpireAct?) && FirstCut(Latest(), w, path, m)
      modifies this
      ensures Valid() && old(trace) <= trace && Latest().life.agenda.Idle?
      ensures Latest().dues == w.dues && Latest().sweepTime == w.sweepTime
      ensures MetaAt(store, path).None?
      ensures forall p :: MetaAt(store, p) == None || MetaAt(store, p) == MetaAt(old(store), p)
      ensures forall p :: p != path && Tombstone(p) !in old(store) ==> MetaAt(store, p) == MetaAt(old(store), p)
      ensures forall p :: Tombstone(p) in store ==> Tombstone(p) in old(store)
      decreases m.id, 0
    {
      hide Apply, HardDeleteBatch, Good, AllFit, Does, Linked, MetaAt;
      DeleteWrites(Latest(), path, m);
      store := Apply(store, HardDeleteBatch(path, m));
      Record(w, a);
      if m.forkedFrom != 0 {
        DropForkRef(m.forkedFrom);
      }
    }

    method DropForkRef(source: nat)
      requires Valid() && source < U64_LIMIT && Latest().life.agenda == DropRef(source)
      modifies this
      ensures Valid() && old(trace) <= trace && Latest().life.agenda.Idle?
      ensures Latest().dues == old(Latest().dues) && Latest().sweepTime == old(Latest().sweepTime)
      ensures forall p :: MetaAt(store, p) == None || MetaAt(store, p) == MetaAt(old(store), p)
      ensures forall p :: Tombstone(p) !in old(store) ==> MetaAt(store, p) == MetaAt(old(store), p)
      ensures forall p :: Tombstone(p) in store ==> Tombstone(p) in old(store)
      decreases source, 1
    {
      hide Good, AllFit, Apply, Does, Linked;
      ghost var w := Latest();
      var count := RefCountAt(store, source);
      if count > 0 {
        count := count - 1;
      }
      DropFits(store, source, count);
      store := Apply(store, map[RefCount(source) := Some(U64Val(count))]);
      ghost var w' := w.(life := w.life.(store := store, agenda := AfterDrop(store, source, count)));
      DropIsStep(w, w', source, count);
      Record(w', Manage(DropStep));
      if count > 0 {
        return;
      }
      var path := PathAt(store, source);
      if path.None? {
        return;
      }
      var meta := MetaAt(store, path.value);
      if meta.None? {
        return;
      }
      if Tombstone(path.value) in store {
        GoodMapped(Latest(), source);
        ghost var w'' := w'.(life := w'.life.(store := Apply(store, HardDeleteBatch(path.value, meta.value)),
              agenda := AfterDelete(meta.value)));
        CascadeIsStep(w', w'', path.value);
        DeleteStreamLocked(path.value, meta.value, w'', Manage(HardDeleteStep(path.value)));
      }
    }

    /** expireIfDue, for the next entry of the sweep: a stale one is dropped, a current one takes its stream with it. */
    method ExpireIfDue(d: Due, now: nat)
      requires Valid() && Latest().life.agenda.Idle?
      requires Latest().dues != [] && d == Latest().dues[0] && now == Latest().sweepTime
      modifies this
      ensures Valid() && old(trace) <= trace && Latest().life.agenda.Idle?
      ensures Latest().dues == old(Latest().dues)[1..] && Latest().sweepTime == now
      ensures Store.Expiry(d.deadline, d.id) !in store
      ensures forall p :: MetaAt(store, p) == None || MetaAt(store, p) == MetaAt(old(store), p)
      ensures forall p :: MetaAt(old(store), p).Some? && Tombstone(p) !in old(store)
                          && MetaAt(old(store), p).value.deadline != d.deadline
                ==> MetaAt(store, p) == MetaAt(old(store), p)
      ensures forall p :: Tombstone(p) in store ==> Tombstone(p) in old(store)
    {
      ghost var w := Latest();
      ghost var w' := w.(life := Expired(w.life, d, now), dues := w.dues[1..]);
      assert Expires(w, w') && Does(w, w', ExpireAct);
      GoodDue(w);
      hide AllFit, Apply, Does, Linked, Good, HardDeleteBatch;
      var path := PathAt(store, d.id);
      if path.None? {
        StaleIsGone(store, d);
        store := Apply(store, map[Store.Expiry(d.deadline, d.id) := None]);
        Record(w', ExpireAct);
        return;
      }
      var meta := MetaAt(store, path.value);
      if meta.None? || meta.value.id != d.id || meta.value.deadline != d.deadline {
        StaleIsGone(store, d);
        store := Apply(store, map[Store.Expiry(d.deadline, d.id) := None]);
        Record(w', ExpireAct);
        return;
      }
      if d.deadline > now {
        return;
      }
      DeleteStreamLocked(path.value, meta.value, w', ExpireAct);
      GoodUnmapped(Latest(), path.value, d);
    }

    /**
     sweepOnce, when no other commit comes in between: of the streams that are not
     soft-deleted, those whose deadline has passed go and all others stay as they are.
     */
    method SweepOnce(now: nat)
      requires Valid() && Latest().life.agenda.Idle? && Latest().dues == [] && now + 1 < U64_LIMIT
      modifies this
      ensures Valid() && old(trace) <= trace && Latest().life.agenda.Idle? && Latest().dues == []
      ensures forall p :: Kept(old(store), p, now) ==> MetaAt(store, p) == MetaAt(old(store), p)
      ensures forall p :: MetaAt(old(store), p).Some? && 0 < MetaAt(old(store), p).value.deadline <= now ==>
                          MetaAt(store, p).None?
    {
      ghost var from := store;
      var dues := DueEntries(now);
      ghost var w := Latest().(dues := dues, sweepTime := now);
      assert Scans(Latest(), w, now);
      DuesCover(from, dues, now);
      Record(w, ScanAct(now));
      hide Good, AllFit, Linked;
      var i := 0;
      while i < |dues|
        invariant i <= |dues| && Valid() && Swept(from, store, dues, i, now)
        invariant old(trace) <= trace && Latest().life.agenda.Idle?
        invariant Latest().dues == dues[i..] && Latest().sweepTime == now
      {
        hide Kept;
        assert dues[i] in dues && dues[i] == Due(dues[i].deadline, dues[i].id);
        ghost var before := store;
        ExpireIfDue(dues[i], now);
        GoodIndex(Latest());
        SweptOneMore(from, before, store, dues, i, now);
        i := i + 1;
      }
      SweptAll(from, store, dues, now);
    }
  }

  /** The sweep so far: nothing was added or changed, nothing that stays was lost, and the entries seen are gone. */
  ghost predicate Swept(from: Keyspace, s: Keyspace, dues: seq<Due>, i: nat, now: nat)
    requires i <= |dues|
  {
    && (forall p :: MetaAt(s, p) == None || MetaAt(s, p) == MetaAt(from, p))
    && (forall p :: Tombstone(p) in s ==> Tombstone(p) in from)
    && (forall p :: Kept(from, p, now) ==> MetaAt(s, p) == MetaAt(from, p))
    && (forall p, x :: MetaAt(s, p).Some? && 0 <= x < i ==> dues[x] != EntryOf(MetaAt(s, p).value))
  }

  lemma SweptOneMore(from: Keyspace, s: Keyspace, t: Keyspace, dues: seq<Due>, i: nat, now: nat)
    requires i < |dues| && Swept(from, s, dues, i, now) && IndexExact(t) && 0 < dues[i].deadline <= now
    requires Store.Expiry(dues[i].deadline, dues[i].id) !in t
    requires forall p :: MetaAt(t, p) == None || MetaAt(t, p) == MetaAt(s, p)
    requires forall p ::
               MetaAt(s, p).Some? && Tombstone(p) !in s && MetaAt(s, p).value.deadline != dues[i].deadline ==>
                 MetaAt(t, p) == MetaAt(s, p)
    requires forall p :: Tombstone(p) in t ==> Tombstone(p) in s
    ensures Swept(from, t, dues, i + 1, now)
  {
    hide MetaAt, IndexExact;
    forall p, x | MetaAt(t, p).Some? && 0 <= x < i + 1 ensures dues[x] != EntryOf(MetaAt(t, p).value) {
      if x == i {
        EntryGone(t, p, dues[i]);
      }
    }
  }

  lemma SweptAll(from: Keyspace, s: Keyspace, dues: seq<Due>, now: nat)
    requires Swept(from, s, dues, |dues|, now)
    requires forall p :: MetaAt(from, p).Some? && 0 < MetaAt(from, p).value.deadline <= now ==>
                         EntryOf(MetaAt(from, p).value) in dues
    ensures forall p :: MetaAt(from, p).Some? && 0 < MetaAt(from, p).value.deadline <= now ==> MetaAt(s, p).None?
  {
    hide MetaAt;
    forall p | MetaAt(from, p).Some? && 0 < MetaAt(from, p).value.deadline <= now ensures MetaAt(s, p).None? {
      var d := EntryOf(MetaAt(from, p).value);
      var x :| 0 <= x < |dues| && dues[x] == d;
    }
  }

  /** Not soft-deleted, and not due. */
  ghost predicate Kept(s: Keyspace, p: ByteString, now: nat) {
    MetaAt(s, p).Some? && Tombstone(p) !in s && (MetaAt(s, p).value.deadline == 0 || MetaAt(s, p).value.deadline > now)
  }

  lemma FitsAt(s: Keyspace, k: Key)
    requires AllFit(s) && k in s
    ensures Fits(k)
  {
  }

  lemma SameEntries(ks: seq<Key>, dues: seq<Due>, d: nat, id: nat)
    requires |dues| == |ks| && forall x :: 0 <= x < |ks| ==> ks[x] == Store.Expiry(dues[x].deadline, dues[x].id)
    ensures Due(d, id) in dues <==> Store.Expiry(d, id) in ks
  {
    if Store.Expiry(d, id) in ks {
      var x :| 0 <= x < |ks| && ks[x] == Store.Expiry(d, id);
      assert dues[x] == Due(d, id);
    }
    if Due(d, id) in dues {
      var x :| 0 <= x < |dues| && dues[x] == Due(d, id);
      assert ks[x] in ks;
    }
  }

  lemma DuesCover(s: Keyspace, dues: seq<Due>, now: nat)
    requires IndexExact(s) && forall d: nat, id: nat :: Due(d, id) in dues <==> Store.Expiry(d, id) in s && d <= now
    ensures forall p :: MetaAt(s, p).Some? && 0 < MetaAt(s, p).value.deadline <= now ==>
                        EntryOf(MetaAt(s, p).value) in dues
    ensures forall d: nat, id: nat :: Due(d, id) in dues ==> 0 < d <= now
  {
  }

  lemma EntryGone(s: Keyspace, p: ByteString, d: Due)
    requires IndexExact(s) && MetaAt(s, p).Some? && Store.Expiry(d.deadline, d.id) !in s && d.deadline > 0
    ensures d != EntryOf(MetaAt(s, p).value)
  {
  }

  lemma TombstonesAfterDelete(s: Keyspace, path: ByteString, m: StreamMeta)
    ensures forall p :: Tombstone(p) in Apply(s, HardDeleteBatch(path, m)) ==> Tombstone(p) in s
  {
    var t := Apply(s, HardDeleteBatch(path, m));
    forall p | Tombstone(p) in t ensures Tombstone(p) in s {
      assert Get(t, Tombstone(p)).Some?;
    }
  }

  lemma DeleteWrites(w: Moment, path: ByteString, m: StreamMeta)
    requires Good(w) && AllFit(w.life.store) && MetaAt(w.life.store, path) == Some(m)
    ensures var s := w.life.store;
            var t := Apply(s, HardDeleteBatch(path, m));
            && AllFit(t) && m.forkedFrom < m.id < U64_LIMIT
            && (forall p :: MetaAt(t, p) == if p == path then None else MetaAt(s, p))
            && (forall p :: Tombstone(p) in t ==> Tombstone(p) in s)
  {
    var s := w.life.store;
    RegisteredAt(s, path);
    HardDeleteIsDied(s, path, m);
    hide Apply, HardDeleteBatch, IndexExact, AllFit, Registered;
    HardDeleteFits(s, path, m);
    TombstonesAfterDelete(s, path, m);
  }

  lemma GoodIndex(w: Moment)
    requires Good(w)
    ensures IndexExact(w.life.store)
  {
  }

  lemma GoodDue(w: Moment)
    requires Good(w) && w.dues != []
    ensures Registered(w.life.store) && IndexExact(w.life.store) && 0 < w.dues[0].deadline <= w.sweepTime
  {
  }

  lemma GoodMapped(w: Moment, id: nat)
    requires Good(w) && PathAt(w.life.store, id).Some?
    ensures MetaAt(w.life.store, PathAt(w.life.store, id).value).Some?
            && MetaAt(w.life.store, PathAt(w.life.store, id).value).value.id == id
  {
  }

  lemma GoodUnmapped(w: Moment, path: ByteString, d: Due)
    requires Good(w) && MetaAt(w.life.store, path).None?
    requires PathAt(w.life.store, d.id).None? || PathAt(w.life.store, d.id) == Some(path)
    ensures Store.Expiry(d.deadline, d.id) !in w.life.store
  {
  }

  lemma DropIsStep(w: Moment, w': Moment, source: nat, count: nat)
    requires w.life.agenda == DropRef(source)
             && count == (if RefCountAt(w.life.store, source) > 0 then RefCountAt(w.life.store, source) - 1 else 0)
    requires var t := Apply(w.life.store, map[RefCount(source) := Some(U64Val(count))]);
             w' == w.(life := w.life.(store := t, agenda := AfterDrop(t, source, count)))
    ensures Does(w, w', Manage(DropStep))
  {
  }

  lemma CascadeIsStep(w: Moment, w': Moment, path: ByteString)
    requires w.life.agenda == Cascade(path) && MetaAt(w.life.store, path).Some?
    requires var m := MetaAt(w.life.store, path).value;
             w' == w.(life := w.life.(store := Apply(w.life.store, HardDeleteBatch(path, m)), agenda := AfterDelete(m)))
    ensures Does(w, w', Manage(HardDeleteStep(path)))
  {
  }

  lemma DropFits(s: Keyspace, source: nat, count: nat)
    requires AllFit(s) && source < U64_LIMIT
    ensures var t := Apply(s, map[RefCount(source) := Some(U64Val(count))]);
            && AllFit(t)
            && (forall p :: MetaAt(t, p) == MetaAt(s, p))
            && (forall p :: Tombstone(p) in t <==> Tombstone(p) in s)
  {
    var t := Apply(s, map[RefCount(source) := Some(U64Val(count))]);
    DropWrites(s, source, count);
    forall k | k in t ensures Fits(k) {
      assert Get(t, k).Some?;
    }
    forall p ensures Tombstone(p) in t <==> Tombstone(p) in s {
      assert Get(t, Tombstone(p)) == Get(s, Tombstone(p));
    }
    hide Apply, AllFit;
  }
}
