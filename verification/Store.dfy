/**
 The shared keyspace: typed keys with their persisted byte encodings, typed
 values, atomic write batches, and ordered scans over encoded ranges.
 */
module Store {
  import opened Bytes

  // ----- keys (the leading ordinal byte of each is persisted) -----

  datatype Key =
    | Meta(path: ByteString)
    | IdMapping(id: nat)
    | Tail(id: nat)
    | Record(id: nat, seqno: nat)
    | Producer(id: nat, producerId: ByteString)
    | WriterSeq(id: nat)
    | Expiry(deadline: nat, id: nat)
    | DeletePending(id: nat)
    | Tombstone(path: ByteString)
    | RefCount(id: nat)
    | IdCounter

  function U64(n: nat): (s: ByteString)
    ensures |s| == 8
  {
    BigEndian(n, 8)
  }

  function Encode(k: Key): ByteString {
    match k
    case Meta(p) => [1] + p
    case IdMapping(id) => [2] + U64(id)
    case Tail(id) => [3] + U64(id)
    case Record(id, n) => [4] + U64(id) + U64(n)
    case Producer(id, p) => [5] + U64(id) + p
    case WriterSeq(id) => [6] + U64(id)
    case Expiry(d, id) => [7] + U64(d) + U64(id)
    case DeletePending(id) => [8] + U64(id)
    case Tombstone(p) => [9] + p
    case RefCount(id) => [10] + U64(id)
    case IdCounter => [100]
  }

  /** Every integer component fits the 64 bits its encoding has for it. */
  predicate Fits(k: Key) {
    match k
    case Meta(_) => true
    case Tombstone(_) => true
    case IdCounter => true
    case Record(id, n) => id < U64_LIMIT && n < U64_LIMIT
    case Expiry(d, id) => d < U64_LIMIT && id < U64_LIMIT
    case _ => k.id < U64_LIMIT
  }

  lemma U64Injective(m: nat, n: nat)
    requires m < U64_LIMIT && n < U64_LIMIT && U64(m) == U64(n)
    ensures m == n
  {
    Pow256Values();
    BigEndianOrder(m, n, 8);
  }

  /** Distinct keys never share a byte string. */
  lemma EncodeInjective(k: Key, l: Key)
    requires Fits(k) && Fits(l) && Encode(k) == Encode(l)
    ensures k == l
  {
    var a, b := Encode(k), Encode(l);
    assert a[0] == b[0];
    assert a[1..] == b[1..];
    match k
    case Meta(_) =>
    case Tombstone(_) =>
    case IdCounter =>
    case Record(id, n) =>
      assert a[1..9] == U64(id) && a[9..17] == U64(n);
      assert b[1..9] == U64(l.id) && b[9..17] == U64(l.seqno);
      U64Injective(id, l.id);
      U64Injective(n, l.seqno);
    case Expiry(d, id) =>
      assert a[1..9] == U64(d) && a[9..17] == U64(id);
      assert b[1..9] == U64(l.deadline) && b[9..17] == U64(l.id);
      U64Injective(d, l.deadline);
      U64Injective(id, l.id);
    case Producer(id, p) =>
      assert a[1..9] == U64(id) && a[9..] == p;
      assert b[1..9] == U64(l.id) && b[9..] == l.producerId;
      U64Injective(id, l.id);
    case _ =>
      assert a[1..] == U64(k.id) && b[1..] == U64(l.id);
      U64Injective(k.id, l.id);
  }

  function RecordPrefix(id: nat): ByteString {
    [4] + U64(id)
  }

  function ProducerPrefix(id: nat): ByteString {
    [5] + U64(id)
  }

  lemma HasRecordPrefix(id: nat, k: Key)
    requires Fits(k) && id < U64_LIMIT
    ensures RecordPrefix(id) <= Encode(k) <==> k.Record? && k.id == id
  {
    if RecordPrefix(id) <= Encode(k) {
      assert RecordPrefix(id)[0] == Encode(k)[0];
      assert RecordPrefix(id)[1..9] == Encode(k)[1..9];
      assert Encode(k)[1..9] == U64(k.id) && RecordPrefix(id)[1..9] == U64(id);
      U64Injective(id, k.id);
    }
  }

  lemma HasProducerPrefix(id: nat, k: Key)
    requires Fits(k) && id < U64_LIMIT
    ensures ProducerPrefix(id) <= Encode(k) <==> k.Producer? && k.id == id
  {
    if ProducerPrefix(id) <= Encode(k) {
      assert ProducerPrefix(id)[0] == Encode(k)[0];
      assert ProducerPrefix(id)[1..9] == Encode(k)[1..9];
      assert Encode(k)[1..9] == U64(k.id) && ProducerPrefix(id)[1..9] == U64(id);
      U64Injective(id, k.id);
    }
  }

  /** Records of one stream are stored in sequence order. */
  lemma RecordOrder(id: nat, m: nat, n: nat)
    requires m < U64_LIMIT && n < U64_LIMIT
    ensures Less(Encode(Record(id, m)), Encode(Record(id, n))) <==> m < n
  {
    Pow256Values();
    BigEndianOrder(m, n, 8);
    LessCommonPrefix(RecordPrefix(id), U64(m), U64(n));
    assert Encode(Record(id, m)) == RecordPrefix(id) + U64(m);
    assert Encode(Record(id, n)) == RecordPrefix(id) + U64(n);
  }

  /** expiryScanEnd: the exclusive end of the entries due at `now`. */
  function ExpiryScanEnd(now: nat): ByteString {
    [7] + U64(AddU64(now, 1))
  }

  /** The sweeper's scan range holds exactly the index entries whose deadline has passed. */
  lemma ExpiryScanIsExact(now: nat, k: Key)
    requires now + 1 < U64_LIMIT && Fits(k)
    ensures InRange([7], Some(ExpiryScanEnd(now)), Encode(k)) <==> k.Expiry? && k.deadline <= now
  {
    var e, end := Encode(k), ExpiryScanEnd(now);
    assert end[0] == 7 && [7][1..] == [];
    if k.Expiry? {
      Pow256Values();
      BigEndianOrder(k.deadline, now + 1, 8);
      assert e == ([7] + U64(k.deadline)) + U64(k.id) && end == ([7] + U64(now + 1)) + [];
      LessCommonPrefix([7], U64(k.deadline), U64(now + 1));
      LessByFields([7] + U64(k.deadline), U64(k.id), [7] + U64(now + 1), []);
      assert e[0] == 7 && !Less(e[1..], []);
      assert !Less(e, [7]);
      assert Less(e, end) <==> k.deadline <= now;
    } else {
      assert e[0] != 7;
    }
  }

  // ----- values -----

  datatype MediaType = Json | Other(name: ByteString)

  datatype StreamMeta = StreamMeta(
    id: nat,
    mediaType: MediaType,
    ttl: nat,          // sliding TTL in seconds, 0 = none
    expiresAt: int,    // absolute expiry, 0 = none
    closed: bool,
    deadline: nat,     // the deadline held in the expiry index, 0 = none
    forkedFrom: nat,   // source stream id, 0 = not a fork
    forkOffset: nat,
    forkByte: nat)

  datatype ProducerState = ProducerState(epoch: nat, lastSeq: nat, closedBy: bool)

  datatype Value =
    | MetaVal(meta: StreamMeta)
    | PathVal(path: ByteString)
    | TailVal(next: nat, updated: int)
    | RecordVal(payload: ByteString)
    | ProducerVal(state: ProducerState)
    | SeqVal(token: ByteString)
    | U64Val(n: nat)
    | TombstoneVal(softDelete: bool, id: nat)

  type Keyspace = map<Key, Value>

  function Get(s: Keyspace, k: Key): Option<Value> {
    if k in s then Some(s[k]) else None
  }

  function MetaAt(s: Keyspace, path: ByteString): Option<StreamMeta> {
    if Meta(path) in s && s[Meta(path)].MetaVal? then Some(s[Meta(path)].meta) else None
  }

  function TailAt(s: Keyspace, id: nat): nat {
    if Tail(id) in s && s[Tail(id)].TailVal? then s[Tail(id)].next else 0
  }

  function RecordAt(s: Keyspace, id: nat, n: nat): Option<ByteString> {
    if Record(id, n) in s && s[Record(id, n)].RecordVal? then Some(s[Record(id, n)].payload) else None
  }

  function ProducerAt(s: Keyspace, id: nat, pid: ByteString): Option<ProducerState> {
    if Producer(id, pid) in s && s[Producer(id, pid)].ProducerVal? then Some(s[Producer(id, pid)].state) else None
  }

  function WriterSeqAt(s: Keyspace, id: nat): ByteString {
    if WriterSeq(id) in s && s[WriterSeq(id)].SeqVal? then s[WriterSeq(id)].token else []
  }

  function RefCountAt(s: Keyspace, id: nat): nat {
    if RefCount(id) in s && s[RefCount(id)].U64Val? then s[RefCount(id)].n else 0
  }

  function PathAt(s: Keyspace, id: nat): Option<ByteString> {
    if IdMapping(id) in s && s[IdMapping(id)].PathVal? then Some(s[IdMapping(id)].path) else None
  }

  predicate SoftDeleted(s: Keyspace, path: ByteString) {
    Tombstone(path) in s && s[Tombstone(path)].TombstoneVal? && s[Tombstone(path)].softDelete
  }

  // ----- atomic batches -----

  /** A write batch: the last write to each key, None for a delete. */
  type Batch = map<Key, Option<Value>>

  function Apply(s: Keyspace, b: Batch): (t: Keyspace)
    ensures forall k :: Get(t, k) == if k in b then b[k] else Get(s, k)
  {
    map k | k in s.Keys + b.Keys && (k in b ==> b[k].Some?) :: if k in b then b[k].value else s[k]
  }

  lemma SameContents(s: Keyspace, t: Keyspace)
    requires forall k :: Get(s, k) == Get(t, k)
    ensures s == t
  {
    forall k ensures k in s <==> k in t {
      assert Get(s, k) == Get(t, k);
    }
    forall k | k in s ensures s[k] == t[k] {
      assert Get(s, k) == Get(t, k);
    }
  }

  /** Folding two batches into one commit has the effect of committing them in turn. */
  lemma ApplyTwice(s: Keyspace, a: Batch, b: Batch)
    ensures Apply(s, a + b) == Apply(Apply(s, a), b)
  {
    SameContents(Apply(s, a + b), Apply(Apply(s, a), b));
  }

  // ----- ordered scans -----

  /** ks lists, in byte order, exactly the keys of s that lie in the range. */
  ghost predicate IsScan(s: Keyspace, start: ByteString, end: Option<ByteString>, ks: seq<Key>) {
    && (forall i, j :: 0 <= i < j < |ks| ==> Less(Encode(ks[i]), Encode(ks[j])))
    && (forall k :: k in ks <==> k in s && InRange(start, end, Encode(k)))
  }

  ghost predicate AllFit(s: Keyspace) {
    forall k :: k in s ==> Fits(k)
  }

  /** Storage.Scan: selects the keys in range, smallest first. */
  method Scan(s: Keyspace, start: ByteString, end: Option<ByteString>) returns (ks: seq<Key>)
    requires AllFit(s)
    ensures IsScan(s, start, end, ks)
  {
    hide Less, Encode, InRange, Fits;
    ks := [];
    var rest := set k | k in s && InRange(start, end, Encode(k));
    while rest != {}
      invariant forall i, j :: 0 <= i < j < |ks| ==> Less(Encode(ks[i]), Encode(ks[j]))
      invariant forall k, l :: k in ks && l in rest ==> Less(Encode(k), Encode(l))
      invariant forall k :: k in ks || k in rest <==> k in s && InRange(start, end, Encode(k))
      decreases |rest|
    {
      var m := Smallest(rest);
      rest := rest - {m};
      ks := ks + [m];
    }
  }

  method Smallest(keys: set<Key>) returns (m: Key)
    requires keys != {}
    requires forall k :: k in keys ==> Fits(k)
    ensures m in keys
    ensures forall k :: k in keys && k != m ==> Less(Encode(m), Encode(k))
  {
    m :| m in keys;
    var rest := keys - {m};
    while rest != {}
      invariant m in keys && rest <= keys && m !in rest
      invariant forall k :: k in keys && k != m && k !in rest ==> Less(Encode(m), Encode(k))
      decreases |rest|
    {
      var k :| k in rest;
      rest := rest - {k};
      LessTotal(Encode(k), Encode(m));
      if Encode(k) == Encode(m) {
        EncodeInjective(k, m);
      }
      if Less(Encode(k), Encode(m)) {
        forall l | l in keys && l != m && l !in rest && l != k ensures Less(Encode(k), Encode(l)) {
          LessTransitive(Encode(k), Encode(m), Encode(l));
        }
        m := k;
      }
    }
  }

  /** Scanning a stream's records from one that exists yields the dense run that starts there. */
  lemma {:induction false} RecordScanIsDense(s: Keyspace, id: nat, from: nat, upTo: nat, end: Option<ByteString>,
          ks: seq<Key>, i: nat)
    requires AllFit(s) && id < U64_LIMIT && from + i < upTo <= U64_LIMIT
    requires CoversPrefix(RecordPrefix(id), end)
    requires IsScan(s, Encode(Record(id, from)), end, ks)
    requires forall n :: from <= n < upTo ==> Record(id, n) in s
    ensures i < |ks| && ks[i] == Record(id, from + i)
  {
    hide Encode, InRange, CoversPrefix, Less;
    if i > 0 {
      RecordScanIsDense(s, id, from, upTo, end, ks, i - 1);
    }
    var k := Record(id, from + i);
    RecordInScan(id, from, end, k);
    var m :| 0 <= m < |ks| && ks[m] == k;
    // ks[i - 1], ks[i] and ks[m] are records of the stream, in that order, and no
    // sequence number lies between those of ks[i - 1] and ks[m].
    if i > 0 && m < i {
      ScanOrder(id, ks, m, i - 1);
    } else if m > i {
      assert ks[i] in ks;
      RecordInScan(id, from, end, ks[i]);
      ScanOrder(id, ks, i, m);
      if i > 0 {
        ScanOrder(id, ks, i - 1, i);
      }
    }
  }

  lemma ScanOrder(id: nat, ks: seq<Key>, i: nat, j: nat)
    requires i <= j < |ks|
    requires i < j ==> Less(Encode(ks[i]), Encode(ks[j]))
    requires Fits(ks[i]) && Fits(ks[j])
    requires ks[i].Record? && ks[j].Record? && ks[i].id == ks[j].id == id
    ensures i < j ==> ks[i].seqno < ks[j].seqno
  {
    RecordOrder(id, ks[i].seqno, ks[j].seqno);
  }

  /** The scan range from (id, from) holds exactly that stream's records from there on. */
  lemma RecordInScan(id: nat, from: nat, end: Option<ByteString>, k: Key)
    requires Fits(k) && id < U64_LIMIT && from < U64_LIMIT
    requires CoversPrefix(RecordPrefix(id), end)
    ensures InRange(Encode(Record(id, from)), end, Encode(k)) <==> k.Record? && k.id == id && k.seqno >= from
  {
    HasRecordPrefix(id, k);
    var p, b := RecordPrefix(id), Encode(k);
    assert InRange(p, end, b) <==> p <= b;
    if k.Record? && k.id == id {
      RecordOrder(id, k.seqno, from);
    } else if AtMost(Encode(Record(id, from)), b) {
      var f := Encode(Record(id, from));
      assert f == p + U64(from) && p == p + [];
      LessCommonPrefix(p, [], U64(from));
      LessTotal(f, b);
      if Less(f, b) {
        LessTransitive(p, f, b);
      }
      if Less(b, p) {
        LessTransitive(p, b, p);
        LessIrreflexive(p);
      }
    }
  }
}
