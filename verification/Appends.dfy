/**
 The reference semantics of appends: each request is decided against the
 stored state alone and takes effect at once, one after the other.
 Group commit, caches and pipelining are proved against this module.
 */
module Appends {
  import opened Bytes
  import opened Store

  // ----- idempotent producers (Durable Streams Protocol, section 5.2.1) -----

  datatype ProducerHeaders = ProducerHeaders(id: ByteString, epoch: nat, seqno: nat)

  datatype Verdict =
    | Accepted(state: ProducerState)
    | Duplicate
    | StaleEpoch(current: nat)
    | BadSeqStart
    | Gap(expected: nat, received: nat)

  /** The pair (epoch, seqno) continues the session that `prior` ends. */
  predicate Continues(prior: Option<ProducerState>, epoch: nat, seqno: nat) {
    match prior
    case None => seqno == 0
    case Some(st) => (epoch == st.epoch && seqno == st.lastSeq + 1) || (epoch > st.epoch && seqno == 0)
  }

  function Validate(prior: Option<ProducerState>, h: ProducerHeaders): (v: Verdict)
    ensures v.Accepted? <==> Continues(prior, h.epoch, h.seqno)
    ensures v.Accepted? ==> v.state.epoch == h.epoch && v.state.lastSeq == h.seqno
    ensures v.Duplicate? <==> prior.Some? && prior.value.epoch == h.epoch && h.seqno <= prior.value.lastSeq
    ensures v.StaleEpoch? <==> prior.Some? && h.epoch < prior.value.epoch
    ensures v.StaleEpoch? ==> v.current == prior.value.epoch
    ensures v.BadSeqStart? <==> prior.Some? && h.epoch > prior.value.epoch && h.seqno != 0
    ensures v.Gap? ==> v.expected == (if prior.None? then 0 else prior.value.lastSeq + 1) < v.received == h.seqno
  {
    match prior
    case None =>
      if h.seqno != 0 then Gap(0, h.seqno) else Accepted(ProducerState(h.epoch, 0, false))
    case Some(st) =>
      if h.epoch < st.epoch then StaleEpoch(st.epoch)
      else if h.epoch > st.epoch then
        if h.seqno != 0 then BadSeqStart else Accepted(ProducerState(h.epoch, 0, false))
      else if h.seqno <= st.lastSeq then Duplicate
      else if h.seqno == st.lastSeq + 1 then Accepted(ProducerState(h.epoch, h.seqno, false))
      else Gap(st.lastSeq + 1, h.seqno)
  }

  // ----- requests and responses -----

  datatype Offset = Offset(seqno: nat, byte: nat)

  datatype Request = Request(
    records: seq<ByteString>,
    hasBody: bool,
    mediaType: MediaType,
    close: bool,
    streamSeq: Option<ByteString>,
    producer: Option<ProducerHeaders>)

  datatype Response = Response(
    status: nat,
    next: Offset,
    closed: bool,
    epoch: Option<nat>,
    producerSeq: Option<nat>,
    expected: Option<nat>,
    received: Option<nat>)

  function Plain(status: nat): Response {
    Response(status, Offset(0, 0), false, None, None, None, None)
  }

  function AtTail(status: nat, tail: nat, closed: bool): Response {
    Plain(status).(next := Offset(tail, 0), closed := closed)
  }

  datatype Decision =
    | Refuse(response: Response)
    | Accept(response: Response, producer: Option<ProducerState>)

  /** The state a request is judged by. `prior` is the state of the producer it names. */
  datatype View = View(tail: nat, closed: bool, mediaType: MediaType, prior: Option<ProducerState>,
      writerSeq: ByteString)

  function DuplicateResponse(v: View): Response
    requires v.prior.Some?
  {
    AtTail(204, v.tail, v.closed).(epoch := Some(v.prior.value.epoch), producerSeq := Some(v.prior.value.lastSeq))
  }

  function DecideClosed(v: View, req: Request): Decision {
    if !req.hasBody then Refuse(AtTail(204, v.tail, true))
    else if req.producer.Some? && Validate(v.prior, req.producer.value).Duplicate? then Refuse(DuplicateResponse(v))
    else Refuse(AtTail(409, v.tail, true))
  }

  function AcceptedResponse(v: View, req: Request): Response {
    var r := AtTail(204, v.tail + |req.records|, v.closed || req.close);
    match req.producer
    case None => r
    case Some(h) =>
      r.(status := if req.records != [] then 200 else 204, epoch := Some(h.epoch), producerSeq := Some(h.seqno))
  }

  function StaleStreamSeq(v: View, req: Request): bool {
    req.streamSeq.Some? && AtMost(req.streamSeq.value, v.writerSeq)
  }

  /** Precedence: closed, then content type, then producer, then Stream-Seq. */
  function Decide(v: View, req: Request): Decision {
    if v.closed then DecideClosed(v, req)
    else if req.hasBody && req.mediaType != v.mediaType then Refuse(Plain(409))
    else match req.producer
      case None =>
        if StaleStreamSeq(v, req) then Refuse(Plain(409)) else Accept(AcceptedResponse(v, req), None)
      case Some(h) =>
        match Validate(v.prior, h)
        case StaleEpoch(e) => Refuse(Plain(403).(epoch := Some(e)))
        case BadSeqStart => Refuse(Plain(400))
        case Gap(x, y) => Refuse(Plain(409).(expected := Some(x), received := Some(y)))
        case Duplicate => Refuse(DuplicateResponse(v))
        case Accepted(st) =>
          if StaleStreamSeq(v, req) then Refuse(Plain(409))
          else Accept(AcceptedResponse(v, req), Some(st.(closedBy := req.close)))
  }

  // ----- sliding TTL -----

  function Granularity(ttl: nat): (g: nat)
    ensures 1 <= g <= 600
  {
    if ttl / 4 < 1 then 1 else if ttl / 4 > 600 then 600 else ttl / 4
  }

  /** The deadline after an access at `now`; sums wrap at 64 bits as in the source. */
  function Slide(deadline: nat, ttl: nat, now: nat): nat {
    if ttl == 0 || AddU64(now, ttl) < deadline then deadline
    else AddU64(AddU64(now, ttl), Granularity(ttl))
  }

  lemma SlideIsIdempotent(deadline: nat, ttl: nat, now: nat)
    ensures Slide(Slide(deadline, ttl, now), ttl, now) == Slide(deadline, ttl, now)
  {
  }

  // ----- effects of accepted requests and their write batch -----

  datatype Effects = Effects(
    records: seq<ByteString>,
    producers: map<ByteString, ProducerState>,
    writerSeq: Option<ByteString>,
    closed: bool,
    deadline: nat)

  function NoEffects(m: StreamMeta): Effects {
    Effects([], map[], None, m.closed, m.deadline)
  }

  /** The keys that landing the effects `e` writes, on a stream with metadata m and tail base. */
  predicate Touches(path: ByteString, m: StreamMeta, base: nat, e: Effects, k: Key) {
    match k
    case Record(id, n) => id == m.id && base <= n < base + |e.records|
    case Tail(id) => id == m.id
    case Producer(id, p) => id == m.id && p in e.producers
    case WriterSeq(id) => id == m.id && e.writerSeq.Some?
    case Expiry(d, id) => id == m.id && e.deadline != m.deadline && (d == e.deadline || (d == m.deadline && d > 0))
    case Meta(p) => p == path && (e.deadline != m.deadline || e.closed != m.closed)
    case _ => false
  }

  /** What is written there: only final values, and a delete for the deadline that moved. */
  function Writes(m: StreamMeta, base: nat, e: Effects, now: int, k: Key): Option<Value> {
    match k
    case Record(_, n) => if base <= n < base + |e.records| then Some(RecordVal(e.records[n - base])) else None
    case Tail(_) => Some(TailVal(base + |e.records|, now))
    case Producer(_, p) => if p in e.producers then Some(ProducerVal(e.producers[p])) else None
    case WriterSeq(_) => if e.writerSeq.Some? then Some(SeqVal(e.writerSeq.value)) else None
    case Expiry(d, _) => if d == e.deadline then Some(U64Val(m.ttl)) else None
    case Meta(_) => Some(MetaVal(m.(closed := e.closed, deadline := e.deadline)))
    case _ => None
  }

  function TouchedKeys(path: ByteString, m: StreamMeta, base: nat, e: Effects): (ks: set<Key>)
    ensures forall k :: k in ks <==> Touches(path, m, base, e, k)
  {
    var records := set n | base <= n < base + |e.records| :: Record(m.id, n);
    var producers := set p | p in e.producers :: Producer(m.id, p);
    var expiry := if e.deadline == m.deadline then
      {} else if m.deadline > 0 then {Expiry(e.deadline, m.id), Expiry(m.deadline, m.id)}
                                     else {Expiry(e.deadline, m.id)};
    records + producers + expiry + {Tail(m.id)}
    + (if e.writerSeq.Some? then {WriterSeq(m.id)} else {})
    + (if e.deadline != m.deadline || e.closed != m.closed then {Meta(path)} else {})
  }

  /** The one batch that lands the effects `e`; a burst without effects writes nothing. */
  function BatchOf(path: ByteString, m: StreamMeta, base: nat, e: Effects, now: int): (b: Batch)
    ensures e == NoEffects(m) ==> b == map[]
  {
    if e == NoEffects(m) then map[]
    else map k | k in TouchedKeys(path, m, base, e) :: Writes(m, base, e, now, k)
  }

  /** The contents at one key after the batch of `e`. */
  function After(s: Keyspace, path: ByteString, m: StreamMeta, base: nat, e: Effects, now: int, k: Key): Option<Value> {
    if e != NoEffects(m) && Touches(path, m, base, e, k) then Writes(m, base, e, now, k) else Get(s, k)
  }

  lemma BatchOfAt(s: Keyspace, path: ByteString, m: StreamMeta, base: nat, e: Effects, now: int, k: Key)
    ensures Get(Apply(s, BatchOf(path, m, base, e, now)), k) == After(s, path, m, base, e, now, k)
  {
  }

  /** Effects of e1 followed by those of e2. */
  function Merge(e1: Effects, e2: Effects): Effects {
    Effects(e1.records + e2.records, e1.producers + e2.producers,
            if e2.writerSeq.Some? then e2.writerSeq else e1.writerSeq, e2.closed, e2.deadline)
  }

  /** Both sides of the merge, as key spaces. */
  function InTurn(s: Keyspace, path: ByteString, m: StreamMeta, base: nat, e1: Effects, e2: Effects,
          now: int): Keyspace
  {
    var m2 := m.(closed := e1.closed, deadline := e1.deadline);
    Apply(Apply(s, BatchOf(path, m, base, e1, now)), BatchOf(path, m2, base + |e1.records|, e2, now))
  }

  function AtOnce(s: Keyspace, path: ByteString, m: StreamMeta, base: nat, e1: Effects, e2: Effects,
          now: int): Keyspace
  {
    Apply(s, BatchOf(path, m, base, Merge(e1, e2), now))
  }

  /** One merged batch does what the two batches do in turn. */
  lemma MergedBatch(s: Keyspace, path: ByteString, m: StreamMeta, base: nat, e1: Effects, e2: Effects, now: int)
    requires (m.closed ==> e1.closed) && (e1.closed ==> e2.closed)
    requires e1.deadline == m.deadline || e2.deadline == e1.deadline
    ensures InTurn(s, path, m, base, e1, e2, now) == AtOnce(s, path, m, base, e1, e2, now)
  {
    var x, y := InTurn(s, path, m, base, e1, e2, now), AtOnce(s, path, m, base, e1, e2, now);
    forall k ensures Get(x, k) == Get(y, k) {
      MergedGet(s, path, m, base, e1, e2, now, k);
    }
    SameContents(x, y);
  }

  lemma MergedGet(s: Keyspace, path: ByteString, m: StreamMeta, base: nat, e1: Effects, e2: Effects, now: int, k: Key)
    requires (m.closed ==> e1.closed) && (e1.closed ==> e2.closed)
    requires e1.deadline == m.deadline || e2.deadline == e1.deadline
    ensures Get(InTurn(s, path, m, base, e1, e2, now), k) == Get(AtOnce(s, path, m, base, e1, e2, now), k)
  {
    hide BatchOf, Apply, Get, After, Merge;
    var mid := Apply(s, BatchOf(path, m, base, e1, now));
    BatchOfAt(s, path, m, base, e1, now, k);
    BatchOfAt(mid, path, m.(closed := e1.closed, deadline := e1.deadline), base + |e1.records|, e2, now, k);
    BatchOfAt(s, path, m, base, Merge(e1, e2), now, k);
    MergedAt(s, mid, path, m, base, e1, e2, now, k);
  }

  lemma MergedAt(s: Keyspace, mid: Keyspace, path: ByteString, m: StreamMeta, base: nat, e1: Effects, e2: Effects,
          now: int, k: Key)
    requires (m.closed ==> e1.closed) && (e1.closed ==> e2.closed)
    requires e1.deadline == m.deadline || e2.deadline == e1.deadline
    requires Get(mid, k) == After(s, path, m, base, e1, now, k)
    ensures After(mid, path, m.(closed := e1.closed, deadline := e1.deadline), base + |e1.records|, e2, now, k)
            == After(s, path, m, base, Merge(e1, e2), now, k)
  {
    var m2 := m.(closed := e1.closed, deadline := e1.deadline);
    var e := Merge(e1, e2);
    if e1 == NoEffects(m) {
      assert e == e2 && m2 == m;
    } else if e2 == NoEffects(m2) {
      assert e == e1;
    } else {
      assert e != NoEffects(m);
    }
  }

  /** The stored state seen after a batch. */
  lemma AfterBatch(s: Keyspace, path: ByteString, m: StreamMeta, e: Effects, now: int)
    requires MetaAt(s, path) == Some(m)
    ensures var t := Apply(s, BatchOf(path, m, TailAt(s, m.id), e, now));
            && MetaAt(t, path) == Some(m.(closed := e.closed, deadline := e.deadline))
            && TailAt(t, m.id) == TailAt(s, m.id) + |e.records|
            && (forall p :: ProducerAt(t, m.id, p) == if p in e.producers then
                            Some(e.producers[p]) else ProducerAt(s, m.id, p))
            && WriterSeqAt(t, m.id) == (if e.writerSeq.Some? then e.writerSeq.value else WriterSeqAt(s, m.id))
  {
    hide BatchOf, Apply;
    var base := TailAt(s, m.id);
    BatchOfAt(s, path, m, base, e, now, Meta(path));
    BatchOfAt(s, path, m, base, e, now, Tail(m.id));
    BatchOfAt(s, path, m, base, e, now, WriterSeq(m.id));
    var t := Apply(s, BatchOf(path, m, base, e, now));
    forall p ensures ProducerAt(t, m.id, p) == if p in e.producers then
      Some(e.producers[p]) else ProducerAt(s, m.id, p) {
      BatchOfAt(s, path, m, base, e, now, Producer(m.id, p));
    }
  }

  // ----- one request, then many -----

  datatype Outcome = Outcome(store: Keyspace, response: Response, accepted: bool)

  function ViewOf(s: Keyspace, m: StreamMeta, req: Request): View {
    View(TailAt(s, m.id), m.closed, m.mediaType,
         if req.producer.Some? then ProducerAt(s, m.id, req.producer.value.id) else None, WriterSeqAt(s, m.id))
  }

  function EffectsOf(m: StreamMeta, req: Request, p: Option<ProducerState>, now: nat): Effects {
    Effects(req.records,
            if p.Some? && req.producer.Some? then map[req.producer.value.id := p.value] else map[],
            req.streamSeq, m.closed || req.close, Slide(m.deadline, m.ttl, now))
  }

  function AppendOne(s: Keyspace, path: ByteString, req: Request, now: nat): Outcome
    requires MetaAt(s, path).Some?
  {
    var m := MetaAt(s, path).value;
    match Decide(ViewOf(s, m, req), req)
    case Refuse(r) => Outcome(s, r, false)
    case Accept(r, p) =>
      Outcome(Apply(s, BatchOf(path, m, TailAt(s, m.id), EffectsOf(m, req, p, now), now)), r, true)
  }

  datatype Event = Event(req: Request, now: nat)

  datatype Outcomes = Outcomes(store: Keyspace, responses: seq<Response>, accepted: seq<bool>)

  /** Any run of appends to one stream, processed strictly one at a time. */
  function AppendAll(s: Keyspace, path: ByteString, events: seq<Event>): (o: Outcomes)
    requires MetaAt(s, path).Some?
    ensures MetaAt(o.store, path).Some? && MetaAt(o.store, path).value.id == MetaAt(s, path).value.id
    ensures |o.responses| == |o.accepted| == |events|
  {
    if events == [] then Outcomes(s, [], [])
    else
      var o := AppendAll(s, path, events[..|events| - 1]);
      var e := events[|events| - 1];
      var r := AppendOne(o.store, path, e.req, e.now);
      AppendOneKeepsStream(o.store, path, e.req, e.now);
      Outcomes(r.store, o.responses + [r.response], o.accepted + [r.accepted])
  }

  lemma AppendOneKeepsStream(s: Keyspace, path: ByteString, req: Request, now: nat)
    requires MetaAt(s, path).Some?
    ensures var t := AppendOne(s, path, req, now).store;
            MetaAt(t, path).Some? && MetaAt(t, path).value.id == MetaAt(s, path).value.id
  {
    var m := MetaAt(s, path).value;
    match Decide(ViewOf(s, m, req), req)
    case Refuse(_) =>
    case Accept(_, p) => AfterBatch(s, path, m, EffectsOf(m, req, p, now), now);
  }

  /** The runs of two successive groups compose: how requests are grouped does not matter. */
  lemma {:induction false} GroupingIsInvisible(s: Keyspace, path: ByteString, a: seq<Event>, b: seq<Event>)
    requires MetaAt(s, path).Some?
    ensures var first := AppendAll(s, path, a);
            var second := AppendAll(first.store, path, b);
            AppendAll(s, path, a + b)
            == Outcomes(second.store, first.responses + second.responses, first.accepted + second.accepted)
    decreases |b|
  {
    hide AppendOne, MetaAt;
    if b == [] {
      assert a + b == a;
    } else {
      assert (a + b)[..|a + b| - 1] == a + b[..|b| - 1];
      GroupingIsInvisible(s, path, a, b[..|b| - 1]);
    }
  }

  /** The records of the accepted requests, in order. */
  function AcceptedRecords(events: seq<Event>, accepted: seq<bool>): seq<ByteString>
    requires |events| == |accepted|
  {
    if events == [] then []
    else
      var n := |events| - 1;
      AcceptedRecords(events[..n], accepted[..n]) + if accepted[n] then events[n].req.records else []
  }

  /** t is s with the records `added` put at the end of stream id's log, and no other record changed. */
  ghost predicate Extends(s: Keyspace, t: Keyspace, id: nat, added: seq<ByteString>) {
    && TailAt(t, id) == TailAt(s, id) + |added|
    && forall k: Key :: k.Record? ==>
         Get(t, k) == if k.id == id && TailAt(s, id) <= k.seqno < TailAt(s, id) + |added|
                      then Some(RecordVal(added[k.seqno - TailAt(s, id)])) else Get(s, k)
  }

  /** A run extends the log by exactly the accepted records and leaves what was there. */
  lemma {:induction false} RunExtendsLog(s: Keyspace, path: ByteString, events: seq<Event>)
    requires MetaAt(s, path).Some?
    ensures var o := AppendAll(s, path, events);
            Extends(s, o.store, MetaAt(s, path).value.id, AcceptedRecords(events, o.accepted))
  {
    hide AppendOne, MetaAt, TailAt, Extends;
    if events == [] {
      ExtendsByNothing(s, MetaAt(s, path).value.id);
    } else {
      var n := |events| - 1;
      RunExtendsLog(s, path, events[..n]);
      var before := AppendAll(s, path, events[..n]);
      var o := AppendAll(s, path, events);
      assert o.accepted[..n] == before.accepted;
      OneExtendsLog(before.store, path, events[n].req, events[n].now);
      ExtendsTwice(s, before.store, o.store, MetaAt(s, path).value.id, AcceptedRecords(events[..n], before.accepted),
                   if o.accepted[n] then events[n].req.records else []);
    }
  }

  lemma ExtendsByNothing(s: Keyspace, id: nat)
    ensures Extends(s, s, id, [])
  {
  }

  lemma ExtendsTwice(s: Keyspace, mid: Keyspace, t: Keyspace, id: nat, a: seq<ByteString>, b: seq<ByteString>)
    requires Extends(s, mid, id, a) && Extends(mid, t, id, b)
    ensures Extends(s, t, id, a + b)
  {
    hide TailAt;
  }

  lemma OneExtendsLog(s: Keyspace, path: ByteString, req: Request, now: nat)
    requires MetaAt(s, path).Some?
    ensures var o := AppendOne(s, path, req, now);
            Extends(s, o.store, MetaAt(s, path).value.id, if o.accepted then req.records else [])
  {
    hide Decide, BatchOf, Apply, Slide, MetaAt, TailAt;
    var m := MetaAt(s, path).value;
    match Decide(ViewOf(s, m, req), req)
    case Refuse(_) =>
    case Accept(_, p) =>
      var e := EffectsOf(m, req, p, now);
      AfterBatch(s, path, m, e, now);
      var t := Apply(s, BatchOf(path, m, TailAt(s, m.id), e, now));
      forall k: Key | k.Record? ensures Get(t, k) == After(s, path, m, TailAt(s, m.id), e, now, k) {
        BatchOfAt(s, path, m, TailAt(s, m.id), e, now, k);
      }
  }

  /** One accepted request is answered with the offset behind its own records; a refused one changes nothing. */
  lemma OneAnswer(s: Keyspace, path: ByteString, req: Request, now: nat)
    requires MetaAt(s, path).Some?
    ensures var id := MetaAt(s, path).value.id;
            var o := AppendOne(s, path, req, now);
            && (o.accepted ==> o.response.next == Offset(TailAt(s, id) + |req.records|, 0))
            && (!o.accepted ==> o.store == s)
            && TailAt(o.store, id) == TailAt(s, id) + if o.accepted then |req.records| else 0
  {
    OneExtendsLog(s, path, req, now);
    hide BatchOf, Apply, Slide, MetaAt, TailAt;
  }

  /**
   An accepted append is answered with the tail right behind its own records, and these
   are at the end of the log then, whatever the rest of the run is.
   */
  lemma {:induction false} AckIsOwnEnd(s: Keyspace, path: ByteString, events: seq<Event>, i: nat)
    requires MetaAt(s, path).Some? && i < |events| && AppendAll(s, path, events).accepted[i]
    ensures var id := MetaAt(s, path).value.id;
            var o, upTo := AppendAll(s, path, events), AppendAll(s, path, events[..i + 1]);
            && upTo.accepted == o.accepted[..i + 1]
            && o.responses[i].next == Offset(TailAt(upTo.store, id), 0)
            && TailAt(upTo.store, id) == TailAt(s, id) + |AcceptedRecords(events[..i + 1], upTo.accepted)|
            && TailAt(upTo.store, id) <= TailAt(o.store, id)
    decreases |events|
  {
    hide *;
    var n, o := |events| - 1, AppendAll(s, path, events);
    var before := AppendAll(s, path, events[..n]);
    LastOfRun(s, path, events);
    if i < n {
      assert o.accepted[i] == before.accepted[i] && events[..n][..i + 1] == events[..i + 1];
      assert o.accepted[..i + 1] == before.accepted[..i + 1];
      AckIsOwnEnd(s, path, events[..n], i);
      OneAnswer(before.store, path, events[n].req, events[n].now);
    } else {
      assert events[..i + 1] == events && o.accepted[..i + 1] == o.accepted;
      OneAnswer(before.store, path, events[n].req, events[n].now);
      RunExtendsLog(s, path, events);
      TailOfExtended(s, o.store, MetaAt(s, path).value.id, AcceptedRecords(events, o.accepted));
    }
  }

  lemma LastOfRun(s: Keyspace, path: ByteString, events: seq<Event>)
    requires MetaAt(s, path).Some? && events != []
    ensures var n := |events| - 1;
            var o, before := AppendAll(s, path, events), AppendAll(s, path, events[..n]);
            && MetaAt(before.store, path).Some? && MetaAt(before.store, path).value.id == MetaAt(s, path).value.id
            && var r := AppendOne(before.store, path, events[n].req, events[n].now);
               && o.store == r.store && o.responses == before.responses + [r.response]
               && o.accepted == before.accepted + [r.accepted]
  {
    hide AppendOne;
  }

  lemma TailOfExtended(s: Keyspace, t: Keyspace, id: nat, added: seq<ByteString>)
    requires Extends(s, t, id, added)
    ensures TailAt(t, id) == TailAt(s, id) + |added|
  {
  }

  /** The records accepted from the first i requests come first, and those of request i next. */
  lemma {:induction false} RecordsInOrder(events: seq<Event>, accepted: seq<bool>, i: nat)
    requires |events| == |accepted| && i < |events| && accepted[i]
    ensures AcceptedRecords(events[..i + 1], accepted[..i + 1])
            == AcceptedRecords(events[..i], accepted[..i]) + events[i].req.records
    ensures AcceptedRecords(events[..i + 1], accepted[..i + 1]) <= AcceptedRecords(events, accepted)
    decreases |events|
  {
    var n := |events| - 1;
    assert events[..i + 1][..i] == events[..i] && accepted[..i + 1][..i] == accepted[..i];
    if i < n {
      RecordsInOrder(events[..n], accepted[..n], i);
      assert events[..n][..i + 1] == events[..i + 1] && accepted[..n][..i + 1] == accepted[..i + 1];
      assert events[..n][..i] == events[..i] && accepted[..n][..i] == accepted[..i];
    } else {
      assert events[..i + 1] == events && accepted[..i + 1] == accepted;
    }
  }

  // ----- what is accepted, and the answers -----

  /** By the stored state: the stream is open, the type fits, the producer's order is kept, Stream-Seq is newer. */
  ghost predicate Acceptable(s: Keyspace, path: ByteString, req: Request)
    requires MetaAt(s, path).Some?
  {
    var m := MetaAt(s, path).value;
    && !m.closed
    && (req.hasBody ==> req.mediaType == m.mediaType)
    && (req.producer.Some? ==>
          var h := req.producer.value; Continues(ProducerAt(s, m.id, h.id), h.epoch, h.seqno))
    && (req.streamSeq.Some? ==> Less(WriterSeqAt(s, m.id), req.streamSeq.value))
  }

  /** Exactly the acceptable requests are accepted; the answer echoes the producer and the new closed flag. */
  lemma {:induction false} AcceptedExactly(s: Keyspace, path: ByteString, req: Request, now: nat)
    requires MetaAt(s, path).Some?
    ensures var o := AppendOne(s, path, req, now);
            && (o.accepted <==> Acceptable(s, path, req))
            && (o.accepted ==>
                  && o.response.closed == req.close == MetaAt(o.store, path).value.closed
                  && o.response.status == (if req.producer.Some? && req.records != [] then 200 else 204)
                  && o.response.epoch == (if req.producer.Some? then Some(req.producer.value.epoch) else None)
                  && o.response.producerSeq == (if req.producer.Some? then Some(req.producer.value.seqno) else None))
  {
    var m := MetaAt(s, path).value;
    hide BatchOf, Apply, Slide, Less;
    match Decide(ViewOf(s, m, req), req)
    case Refuse(_) =>
    case Accept(_, p) => AfterBatch(s, path, m, EffectsOf(m, req, p, now), now);
  }

  /** A refused request stores nothing and is told why, in the order closed, type, producer, Stream-Seq. */
  lemma {:induction false} RefusedAnswers(s: Keyspace, path: ByteString, req: Request, now: nat)
    requires MetaAt(s, path).Some? && !Acceptable(s, path, req)
    ensures var m := MetaAt(s, path).value;
            var o, tail := AppendOne(s, path, req, now), Offset(TailAt(s, m.id), 0);
            var prior := if req.producer.Some? then ProducerAt(s, m.id, req.producer.value.id) else None;
            var repeated := req.producer.Some? && prior.Some? && prior.value.epoch == req.producer.value.epoch
                            && req.producer.value.seqno <= prior.value.lastSeq;
            && o.store == s && !o.accepted
            && (m.closed ==> o.response.next == tail && o.response.closed
                             && o.response.status == if req.hasBody && !repeated then 409 else 204)
            && (!m.closed && req.hasBody && req.mediaType != m.mediaType ==> o.response.status == 409)
            && (!m.closed && (req.hasBody ==> req.mediaType == m.mediaType) ==>
                  && (repeated ==>
                        && o.response.status == 204 && o.response.next == tail && !o.response.closed
                        && o.response.epoch == Some(prior.value.epoch)
                        && o.response.producerSeq == Some(prior.value.lastSeq))
                  && (prior.Some? && req.producer.value.epoch < prior.value.epoch ==>
                        o.response.status == 403 && o.response.epoch == Some(prior.value.epoch))
                  && (prior.Some? && prior.value.epoch < req.producer.value.epoch && req.producer.value.seqno != 0 ==>
                        o.response.status == 400)
                  && (req.producer.Some? && prior.None? && req.producer.value.seqno != 0 ==>
                        && o.response.status == 409 && o.response.expected == Some(0)
                        && o.response.received == Some(req.producer.value.seqno))
                  && (prior.Some? && prior.value.epoch == req.producer.value.epoch
                      && prior.value.lastSeq + 1 < req.producer.value.seqno ==>
                        && o.response.status == 409 && o.response.expected == Some(prior.value.lastSeq + 1)
                        && o.response.received == Some(req.producer.value.seqno))
                  && ((req.producer.Some? ==> Continues(prior, req.producer.value.epoch, req.producer.value.seqno)) ==>
                        o.response.status == 409))
  {
    hide BatchOf, Apply, Slide, Less;
  }

  // ----- Stream-Seq -----

  /** The Stream-Seq tokens that a run accepted, in order. */
  function AcceptedTokens(events: seq<Event>, accepted: seq<bool>): seq<ByteString>
    requires |events| == |accepted|
  {
    if events == [] then []
    else
      var n := |events| - 1;
      AcceptedTokens(events[..n], accepted[..n])
      + if accepted[n] && events[n].req.streamSeq.Some? then [events[n].req.streamSeq.value] else []
  }

  predicate Rising(first: ByteString, tokens: seq<ByteString>) {
    forall i :: 0 <= i < |tokens| ==> Less(TokenBefore(first, tokens, i), tokens[i])
  }

  function TokenBefore(first: ByteString, tokens: seq<ByteString>, i: nat): ByteString
    requires i <= |tokens|
  {
    if i == 0 then first else tokens[i - 1]
  }

  lemma RisingOneMore(first: ByteString, tokens: seq<ByteString>, t: ByteString)
    requires Rising(first, tokens) && Less(TokenBefore(first, tokens, |tokens|), t)
    ensures Rising(first, tokens + [t])
  {
    hide *;
    var more := tokens + [t];
    forall i | 0 <= i < |more| ensures Less(TokenBefore(first, more, i), more[i]) {
      BeforeAgrees(first, tokens, t, i);
      if i < |tokens| {
        RisingStep(first, tokens, i);
      }
    }
    RisingIs(first, more);
  }

  lemma RisingIs(first: ByteString, tokens: seq<ByteString>)
    requires forall i :: 0 <= i < |tokens| ==> Less(TokenBefore(first, tokens, i), tokens[i])
    ensures Rising(first, tokens)
  {
    hide Less, TokenBefore;
  }

  lemma RisingStep(first: ByteString, tokens: seq<ByteString>, i: nat)
    requires Rising(first, tokens) && i < |tokens|
    ensures Less(TokenBefore(first, tokens, i), tokens[i])
  {
    hide Less, TokenBefore;
  }

  lemma BeforeAgrees(first: ByteString, tokens: seq<ByteString>, t: ByteString, i: nat)
    requires i <= |tokens|
    ensures TokenBefore(first, tokens + [t], i) == TokenBefore(first, tokens, i)
  {
  }

  lemma OneToken(s: Keyspace, path: ByteString, req: Request, now: nat)
    requires MetaAt(s, path).Some?
    ensures var id := MetaAt(s, path).value.id;
            var o := AppendOne(s, path, req, now);
            if o.accepted && req.streamSeq.Some?
            then Less(WriterSeqAt(s, id), req.streamSeq.value) && WriterSeqAt(o.store, id) == req.streamSeq.value
            else WriterSeqAt(o.store, id) == WriterSeqAt(s, id)
  {
    var m := MetaAt(s, path).value;
    hide BatchOf, Apply, Slide, Less;
    match Decide(ViewOf(s, m, req), req)
    case Refuse(_) =>
    case Accept(_, p) => AfterBatch(s, path, m, EffectsOf(m, req, p, now), now);
  }

  /** Each accepted token is above the one before, and the last is what is stored. */
  lemma {:induction false} TokensRise(s: Keyspace, path: ByteString, events: seq<Event>)
    requires MetaAt(s, path).Some?
    ensures var id := MetaAt(s, path).value.id;
            var o := AppendAll(s, path, events);
            var tokens := AcceptedTokens(events, o.accepted);
            && Rising(WriterSeqAt(s, id), tokens)
            && WriterSeqAt(o.store, id) == TokenBefore(WriterSeqAt(s, id), tokens, |tokens|)
  {
    hide AppendOne, MetaAt, WriterSeqAt, Less, Rising;
    if events == [] {
      NothingRises(WriterSeqAt(s, MetaAt(s, path).value.id));
    } else {
      var n := |events| - 1;
      TokensRise(s, path, events[..n]);
      var before, o := AppendAll(s, path, events[..n]), AppendAll(s, path, events);
      assert o.accepted[..n] == before.accepted;
      OneToken(before.store, path, events[n].req, events[n].now);
      if o.accepted[n] && events[n].req.streamSeq.Some? {
        RisingOneMore(WriterSeqAt(s, MetaAt(s, path).value.id), AcceptedTokens(events[..n], before.accepted),
          events[n].req.streamSeq.value);
      } else {
        assert AcceptedTokens(events, o.accepted) == AcceptedTokens(events[..n], before.accepted);
      }
    }
  }

  lemma NothingRises(first: ByteString)
    ensures Rising(first, [])
  {
  }

  /** Over any run, accepted Stream-Seq tokens strictly increase in byte order. */
  lemma {:induction false} StreamSeqIncreases(s: Keyspace, path: ByteString, events: seq<Event>, i: nat, j: nat)
    requires MetaAt(s, path).Some? && i < j < |AcceptedTokens(events, AppendAll(s, path, events).accepted)|
    ensures var tokens := AcceptedTokens(events, AppendAll(s, path, events).accepted);
            Less(WriterSeqAt(s, MetaAt(s, path).value.id), tokens[i]) && Less(tokens[i], tokens[j])
  {
    hide AppendAll, MetaAt, WriterSeqAt;
    TokensRise(s, path, events);
    var first, tokens := WriterSeqAt(s, MetaAt(s, path).value.id),
                         AcceptedTokens(events, AppendAll(s, path, events).accepted);
    RisingIsSorted(first, tokens, i, j);
    RisingIsAbove(first, tokens, i);
  }

  lemma RisingAt(first: ByteString, tokens: seq<ByteString>, i: nat)
    requires Rising(first, tokens) && i < |tokens|
    ensures if i == 0 then Less(first, tokens[0]) else Less(tokens[i - 1], tokens[i])
  {
    hide Less, Rising;
    RisingStep(first, tokens, i);
  }

  lemma {:induction false} RisingIsSorted(first: ByteString, tokens: seq<ByteString>, i: nat, j: nat)
    requires Rising(first, tokens) && i < j < |tokens|
    ensures Less(tokens[i], tokens[j])
  {
    hide *;
    RisingAt(first, tokens, j);
    if i < j - 1 {
      RisingIsSorted(first, tokens, i, j - 1);
      LessTransitive(tokens[i], tokens[j - 1], tokens[j]);
    }
  }

  lemma {:induction false} RisingIsAbove(first: ByteString, tokens: seq<ByteString>, i: nat)
    requires Rising(first, tokens) && i < |tokens|
    ensures Less(first, tokens[i])
  {
    hide *;
    RisingAt(first, tokens, i);
    if i > 0 {
      RisingIsAbove(first, tokens, i - 1);
      LessTransitive(first, tokens[i - 1], tokens[i]);
    }
  }

  // ----- exactly-once producers -----

  datatype Pair = Pair(epoch: nat, seqno: nat)

  predicate Before(a: Pair, b: Pair) {
    a.epoch < b.epoch || (a.epoch == b.epoch && a.seqno < b.seqno)
  }

  predicate From(e: Event, pid: ByteString) {
    e.req.producer.Some? && e.req.producer.value.id == pid
  }

  /** The pairs of one producer that a run accepted, in order. */
  function AcceptedPairs(events: seq<Event>, accepted: seq<bool>, pid: ByteString): seq<Pair>
    requires |events| == |accepted|
  {
    if events == [] then []
    else
      var n := |events| - 1;
      AcceptedPairs(events[..n], accepted[..n], pid)
      + if accepted[n] && From(events[n], pid) then
        [Pair(events[n].req.producer.value.epoch, events[n].req.producer.value.seqno)] else []
  }

  /** Each pair starts a higher epoch at 0 or is the next number of the same epoch. */
  predicate Chained(prior: Option<ProducerState>, pairs: seq<Pair>) {
    forall i :: 0 <= i < |pairs| ==> Continues(StateBefore(prior, pairs, i), pairs[i].epoch, pairs[i].seqno)
  }

  function StateBefore(prior: Option<ProducerState>, pairs: seq<Pair>, i: nat): Option<ProducerState>
    requires i <= |pairs|
  {
    if i == 0 then prior else Some(ProducerState(pairs[i - 1].epoch, pairs[i - 1].seqno, false))
  }

  lemma OneStepOfProducer(s: Keyspace, path: ByteString, req: Request, now: nat, pid: ByteString)
    requires MetaAt(s, path).Some?
    ensures var id := MetaAt(s, path).value.id;
            var o := AppendOne(s, path, req, now);
            if o.accepted && From(Event(req, now), pid)
            then var h := req.producer.value;
                 && Continues(ProducerAt(s, id, pid), h.epoch, h.seqno)
                 && ProducerAt(o.store, id, pid) == Some(ProducerState(h.epoch, h.seqno, req.close))
            else ProducerAt(o.store, id, pid) == ProducerAt(s, id, pid)
  {
    var m := MetaAt(s, path).value;
    match Decide(ViewOf(s, m, req), req)
    case Refuse(_) =>
    case Accept(_, p) => AfterBatch(s, path, m, EffectsOf(m, req, p, now), now);
  }

  /** The pairs accepted so far form a chain, and the producer's state is the last of them. */
  ghost predicate Follows(prior: Option<ProducerState>, pairs: seq<Pair>, state: Option<ProducerState>) {
    && Chained(prior, pairs)
    && if pairs == [] then state == prior
       else state.Some? && state.value.epoch == pairs[|pairs| - 1].epoch
            && state.value.lastSeq == pairs[|pairs| - 1].seqno
  }

  lemma FollowsOneMore(prior: Option<ProducerState>, pairs: seq<Pair>, state: Option<ProducerState>, p: Pair,
          closedBy: bool)
    requires Follows(prior, pairs, state) && Continues(state, p.epoch, p.seqno)
    ensures Follows(prior, pairs + [p], Some(ProducerState(p.epoch, p.seqno, closedBy)))
  {
    SameStanding(state, StateBefore(prior, pairs, |pairs|), p.epoch, p.seqno);
    hide Continues, Chained;
    ChainExtends(prior, pairs, p);
  }

  lemma {:induction false} AcceptedPairsChain(s: Keyspace, path: ByteString, events: seq<Event>, pid: ByteString)
    requires MetaAt(s, path).Some?
    ensures var id := MetaAt(s, path).value.id;
            var o := AppendAll(s, path, events);
            Follows(ProducerAt(s, id, pid), AcceptedPairs(events, o.accepted, pid), ProducerAt(o.store, id, pid))
  {
    hide AppendOne, MetaAt, ProducerAt, Continues, Follows;
    var id := MetaAt(s, path).value.id;
    if events == [] {
      FollowsNothing(ProducerAt(s, id, pid));
    } else {
      var n := |events| - 1;
      AcceptedPairsChain(s, path, events[..n], pid);
      var before, o := AppendAll(s, path, events[..n]), AppendAll(s, path, events);
      assert o.accepted[..n] == before.accepted;
      OneStepOfProducer(before.store, path, events[n].req, events[n].now, pid);
      assert Event(events[n].req, events[n].now) == events[n];
      if o.accepted[n] && From(events[n], pid) {
        var h := events[n].req.producer.value;
        FollowsOneMore(ProducerAt(s, id, pid), AcceptedPairs(events[..n], before.accepted, pid),
            ProducerAt(before.store, id, pid), Pair(h.epoch, h.seqno), events[n].req.close);
      } else {
        assert AcceptedPairs(events, o.accepted, pid) == AcceptedPairs(events[..n], before.accepted, pid);
      }
    }
  }

  lemma FollowsNothing(prior: Option<ProducerState>)
    ensures Follows(prior, [], prior)
  {
  }

  /** Who closed the stream does not matter for what comes next. */
  lemma SameStanding(a: Option<ProducerState>, b: Option<ProducerState>, epoch: nat, seqno: nat)
    requires a.Some? <==> b.Some?
    requires a.Some? ==> a.value.epoch == b.value.epoch && a.value.lastSeq == b.value.lastSeq
    ensures Continues(a, epoch, seqno) <==> Continues(b, epoch, seqno)
  {
  }

  lemma ChainExtends(prior: Option<ProducerState>, pairs: seq<Pair>, p: Pair)
    requires Chained(prior, pairs) && Continues(StateBefore(prior, pairs, |pairs|), p.epoch, p.seqno)
    ensures Chained(prior, pairs + [p])
  {
    var all := pairs + [p];
    forall i | 0 <= i < |all| ensures Continues(StateBefore(prior, all, i), all[i].epoch, all[i].seqno) {
      assert StateBefore(prior, all, i) == StateBefore(prior, pairs, i);
    }
  }

  lemma {:induction false} ChainIncreases(prior: Option<ProducerState>, pairs: seq<Pair>, i: nat, j: nat)
    requires Chained(prior, pairs) && i < j < |pairs|
    ensures Before(pairs[i], pairs[j])
  {
    hide *;
    ChainStep(prior, pairs, j);
    if i < j - 1 {
      ChainIncreases(prior, pairs, i, j - 1);
      BeforeIsTransitive(pairs[i], pairs[j - 1], pairs[j]);
    }
  }

  lemma BeforeIsTransitive(a: Pair, b: Pair, c: Pair)
    requires Before(a, b) && Before(b, c)
    ensures Before(a, c)
  {
  }

  lemma ChainStep(prior: Option<ProducerState>, pairs: seq<Pair>, j: nat)
    requires Chained(prior, pairs) && 0 < j < |pairs|
    ensures Before(pairs[j - 1], pairs[j])
  {
    hide Continues;
    assert Continues(StateBefore(prior, pairs, j), pairs[j].epoch, pairs[j].seqno);
    hide Chained;
    ContinuesIsBefore(pairs[j - 1], pairs[j]);
  }

  lemma ContinuesIsBefore(a: Pair, b: Pair)
    requires Continues(Some(ProducerState(a.epoch, a.seqno, false)), b.epoch, b.seqno)
    ensures Before(a, b)
  {
  }

  /** Every number below an accepted one was accepted in the same epoch before it. */
  lemma {:induction false} ChainIsContiguous(pairs: seq<Pair>, i: nat, seqno: nat)
    requires Chained(None, pairs) && i < |pairs| && seqno <= pairs[i].seqno
    ensures i >= pairs[i].seqno - seqno
    ensures pairs[i - (pairs[i].seqno - seqno)] == Pair(pairs[i].epoch, seqno)
  {
    assert Continues(StateBefore(None, pairs, i), pairs[i].epoch, pairs[i].seqno);
    if seqno < pairs[i].seqno {
      ChainIsContiguous(pairs, i - 1, seqno);
    }
  }

  /**
   Exactly once: over any run, the accepted pairs of a producer new to the stream
   are strictly increasing, contiguous from 0 within each epoch, and never repeat.
   */
  lemma {:induction false} ExactlyOnce(s: Keyspace, path: ByteString, events: seq<Event>, pid: ByteString)
    requires MetaAt(s, path).Some? && ProducerAt(s, MetaAt(s, path).value.id, pid).None?
    ensures var pairs := AcceptedPairs(events, AppendAll(s, path, events).accepted, pid);
            && (forall i, j :: 0 <= i < j < |pairs| ==> Before(pairs[i], pairs[j]) && pairs[i] != pairs[j])
            && (forall i, n :: 0 <= i < |pairs| && 0 <= n <= pairs[i].seqno ==>
                               Pair(pairs[i].epoch, n) in pairs[..i + 1])
  {
    AcceptedPairsChain(s, path, events, pid);
    var pairs := AcceptedPairs(events, AppendAll(s, path, events).accepted, pid);
    forall i, j | 0 <= i < j < |pairs| ensures Before(pairs[i], pairs[j]) {
      ChainIncreases(None, pairs, i, j);
    }
    forall i, n | 0 <= i < |pairs| && 0 <= n <= pairs[i].seqno ensures Pair(pairs[i].epoch, n) in pairs[..i + 1] {
      ChainIsContiguous(pairs, i, n);
      assert pairs[..i + 1][i - (pairs[i].seqno - n)] == Pair(pairs[i].epoch, n);
    }
  }
}
