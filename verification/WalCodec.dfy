/**
 The record format of a write-ahead-log shard: encoding a commit, and replaying a
 shard file whose last record may have been torn by a crash. The checksum is an
 arbitrary function to 32 bits.
 */
module WalCodec {
  import opened Bytes

  datatype Op = Op(key: ByteString, val: ByteString, del: bool)

  type U32 = n: nat | n < U32_LIMIT

  type Checksum = ByteString -> U32

  /** The bytes before a record's payload: length, sequence number and checksum. */
  const HEADER: nat := 16

  const INT32_LIMIT: nat := 0x8000_0000

  /** A conversion to a signed 32-bit integer. */
  function Int32(n: nat): (r: int)
    ensures n < INT32_LIMIT ==> r == n
  {
    var m := n % U32_LIMIT;
    if m < INT32_LIMIT then m else m - U32_LIMIT
  }

  // ----- the format -----

  function EncodeOp(op: Op): (b: ByteString)
    ensures |b| == OpSize(op)
  {
    [if op.del then 1 else 0] + BigEndian(|op.key|, 4) + op.key + if op.del then [] else BigEndian(|op.val|, 4) + op.val
  }

  function OpSize(op: Op): nat {
    5 + |op.key| + if op.del then 0 else 4 + |op.val|
  }

  function EncodeOps(ops: seq<Op>): ByteString {
    if ops == [] then [] else EncodeOps(ops[..|ops| - 1]) + EncodeOp(ops[|ops| - 1])
  }

  function Payload(ops: seq<Op>): ByteString {
    BigEndian(|ops|, 4) + EncodeOps(ops)
  }

  function Record(sum: Checksum, seqno: nat, ops: seq<Op>): (b: ByteString)
    ensures |b| == HEADER + |Payload(ops)|
  {
    BigEndian(12 + |Payload(ops)|, 4) + BigEndian(seqno, 8) + BigEndian(sum(Payload(ops)), 4) + Payload(ops)
  }

  /** Every length and offset of the record fits its field. */
  predicate Fits(seqno: nat, ops: seq<Op>) {
    seqno < U64_LIMIT && HEADER + |Payload(ops)| < INT32_LIMIT
  }

  /** Where in the payload's op list op i starts, and where its value starts. */
  function OpAt(ops: seq<Op>, i: nat): nat
    requires i <= |ops|
  {
    |EncodeOps(ops[..i])|
  }

  function ValueAt(ops: seq<Op>, i: nat): nat
    requires i < |ops|
  {
    OpAt(ops, i) + 9 + |ops[i].key|
  }

  /** A replayed operation: its key, and where in the file its value lies. */
  datatype Entry = Entry(key: ByteString, del: bool, fileOff: nat, n: int)

  datatype LogRecord = LogRecord(seqno: nat, entries: seq<Entry>)

  /** What replay should find for ops whose record starts at file position `at`. */
  function Entries(ops: seq<Op>, at: nat): (es: seq<Entry>)
    ensures |es| == |ops|
  {
    seq(|ops|, i requires 0 <= i < |ops| =>
      if ops[i].del then Entry(ops[i].key, true, 0, 0)
      else Entry(ops[i].key, false, at + HEADER + 4 + ValueAt(ops, i), |ops[i].val|))
  }

  // ----- replay as a function -----

  /** The op at `cur` of a payload that starts at file position `start`, and where the next one starts. */
  function ParseOp(payload: ByteString, cur: nat, start: nat): (r: Option<(Entry, nat)>)
    ensures r.Some? ==> cur < r.value.1 <= |payload|
  {
    if cur + 5 > |payload| then None
    else
      var del := payload[cur] == 1;
      var keyEnd := cur + 5 + FromBigEndian(payload[cur + 1..cur + 5]);
      if keyEnd > |payload| then None
      else if del then Some((Entry(payload[cur + 5..keyEnd], true, 0, 0), keyEnd))
      else if keyEnd + 4 > |payload| then None
      else
        var n := FromBigEndian(payload[keyEnd..keyEnd + 4]);
        if keyEnd + 4 + n > |payload| then None
        else Some((Entry(payload[cur + 5..keyEnd], false, start + keyEnd + 4, Int32(n)), keyEnd + 4 + n))
  }

  function ParseOps(payload: ByteString, cur: nat, count: nat, start: nat): Option<seq<Entry>>
    decreases count
  {
    if count == 0 then Some([])
    else
      var first := ParseOp(payload, cur, start);
      if first.None? then None else Before([first.value.0], ParseOps(payload, first.value.1, count - 1, start))
  }

  function Before(entries: seq<Entry>, rest: Option<seq<Entry>>): Option<seq<Entry>> {
    if rest.None? then None else Some(entries + rest.value)
  }

  function ParseRecord(sum: Checksum, data: ByteString, pos: nat): (r: Option<(LogRecord, nat)>)
    ensures r.Some? ==> pos < r.value.1 <= |data|
  {
    if pos + 4 > |data| then None
    else
      var n := FromBigEndian(data[pos..pos + 4]);
      if pos + 4 + n > |data| || n < HEADER then None
      else
        var payload := data[pos + HEADER..pos + 4 + n];
        if sum(payload) != FromBigEndian(data[pos + 12..pos + HEADER]) then None
        else
          var entries := ParseOps(payload, 4, FromBigEndian(payload[..4]), pos + HEADER);
          if entries.None? then None
          else Some((LogRecord(FromBigEndian(data[pos + 4..pos + 12]), entries.value), pos + 4 + n))
  }

  function ParseShard(sum: Checksum, data: ByteString, pos: nat): seq<LogRecord>
    decreases |data| - pos
  {
    var first := ParseRecord(sum, data, pos);
    if first.None? then [] else [first.value.0] + ParseShard(sum, data, first.value.1)
  }

  // ----- replay as the code does it -----

  /** One round of the op loop of decodePWALShard. */
  method DecodeOp(payload: ByteString, from: nat, start: nat) returns (op: Option<(Entry, nat)>)
    ensures op == ParseOp(payload, from, start)
  {
    hide FromBigEndian, Int32;
    var cur: nat := from;
    if cur + 1 > |payload| {
      return None;
    }
    var del := payload[cur] == 1;
    cur := cur + 1;
    if cur + 4 > |payload| {
      return None;
    }
    var keyLen := FromBigEndian(payload[cur..cur + 4]);
    cur := cur + 4;
    if cur + keyLen > |payload| {
      return None;
    }
    var key := payload[cur..cur + keyLen];
    cur := cur + keyLen;
    var fileOff := 0;
    var vn := 0;
    if !del {
      if cur + 4 > |payload| {
        return None;
      }
      var valLen := FromBigEndian(payload[cur..cur + 4]);
      cur := cur + 4;
      if cur + valLen > |payload| {
        return None;
      }
      fileOff := start + cur;
      vn := Int32(valLen);
      cur := cur + valLen;
    }
    return Some((Entry(key, del, fileOff, vn), cur));
  }

  /** The op loop of decodePWALShard. */
  method DecodeOps(payload: ByteString, start: nat) returns (ok: bool, entries: seq<Entry>)
    requires |payload| >= 4
    ensures (if ok then Some(entries) else None) == ParseOps(payload, 4, FromBigEndian(payload[..4]), start)
  {
    hide FromBigEndian, ParseOp;
    var opCount := FromBigEndian(payload[..4]);
    var cur: nat := 4;
    entries := [];
    ghost var all := ParseOps(payload, 4, opCount, start);
    assert all.Some? ==> entries + all.value == all.value;
    var i := 0;
    while i < opCount
      invariant i <= opCount
      invariant Before(entries, ParseOps(payload, cur, opCount - i, start)) == all
    {
      var op := DecodeOp(payload, cur, start);
      if op.None? {
        return false, entries;
      }
      ghost var done, rest := entries, ParseOps(payload, op.value.1, opCount - i - 1, start);
      assert rest.Some? ==> done + ([op.value.0] + rest.value) == (done + [op.value.0]) + rest.value;
      entries := entries + [op.value.0];
      cur := op.value.1;
      i := i + 1;
    }
    assert entries + [] == entries;
    ok := true;
  }

  method DecodeShard(sum: Checksum, data: ByteString) returns (recs: seq<LogRecord>)
    ensures recs == ParseShard(sum, data, 0)
  {
    hide FromBigEndian, ParseOps;
    recs := [];
    var filePos := 0;
    while filePos + 4 <= |data|
      invariant filePos <= |data|
      invariant recs + ParseShard(sum, data, filePos) == ParseShard(sum, data, 0)
      decreases |data| - filePos
    {
      var n := FromBigEndian(data[filePos..filePos + 4]);
      var recBodyStart := filePos + 4;
      if recBodyStart + n > |data| {
        break;
      }
      var buf := data[recBodyStart..recBodyStart + n];
      if |buf| < 12 {
        break;
      }
      var seqno := FromBigEndian(buf[0..8]);
      var crc := FromBigEndian(buf[8..12]);
      var payload := buf[12..];
      SubSlice(data, recBodyStart, recBodyStart + n, 0, 8);
      SubSlice(data, recBodyStart, recBodyStart + n, 8, 12);
      SubSlice(data, recBodyStart, recBodyStart + n, 12, n);
      if sum(payload) != crc {
        break;
      }
      if |payload| < 4 {
        break;
      }
      var ok, entries := DecodeOps(payload, recBodyStart + 12);
      if !ok {
        break;
      }
      ghost var done, rest := recs, ParseShard(sum, data, recBodyStart + n);
      assert ParseRecord(sum, data, filePos) == Some((LogRecord(seqno, entries), recBodyStart + n));
      assert done + ([LogRecord(seqno, entries)] + rest) == (done + [LogRecord(seqno, entries)]) + rest;
      recs := recs + [LogRecord(seqno, entries)];
      filePos := recBodyStart + n;
    }
  }

  lemma SubSlice<T>(s: seq<T>, a: nat, b: nat, c: nat, d: nat)
    requires a <= b <= |s| && c <= d <= b - a
    ensures s[a..b][c..d] == s[a + c..a + d]
  {
    var t := s[a..b];
    forall k | 0 <= k < d - c ensures t[c..d][k] == s[a + c..a + d][k] {
      assert t[c..d][k] == t[c + k] == s[a + (c + k)];
    }
  }

  // ----- encoding as the code does it -----

  method EncodeRecord(sum: Checksum, seqno: nat, ops: seq<Op>)
    returns (rec: ByteString, relOff: seq<int>, relLen: seq<int>)
    ensures rec == Record(sum, seqno, ops)
    ensures |relOff| == |relLen| == |ops|
    ensures Fits(seqno, ops) ==>
            forall i :: 0 <= i < |ops| ==> (relOff[i], relLen[i]) == (Entries(ops, 0)[i].fileOff, Entries(ops, 0)[i].n)
  {
    hide BigEndian, Entries, EncodeOps;
    var payload := BigEndian(|ops|, 4);
    NoOps(ops);
    relOff, relLen := [], [];
    var i := 0;
    while i < |ops|
      invariant i <= |ops| && |relOff| == |relLen| == i
      invariant payload == BigEndian(|ops|, 4) + EncodeOps(ops[..i])
      invariant Fits(seqno, ops) ==>
                forall k :: 0 <= k < i ==> (relOff[k], relLen[k]) == (Entries(ops, 0)[k].fileOff, Entries(ops, 0)[k].n)
    {
      var op := ops[i];
      EntryAt(ops, i, 0);
      ghost var before := payload;
      payload := payload + [if op.del then 1 else 0];
      payload := payload + BigEndian(|op.key|, 4);
      payload := payload + op.key;
      if !op.del {
        payload := payload + BigEndian(|op.val|, 4);
        relOff := relOff + [Int32(HEADER + |payload|)];
        relLen := relLen + [Int32(|op.val|)];
        payload := payload + op.val;
      } else {
        relOff, relLen := relOff + [0], relLen + [0];
      }
      assert payload == before + EncodeOp(op);
      i := i + 1;
    }
    assert ops[..|ops|] == ops;
    var crc := sum(payload);
    rec := BigEndian(8 + 4 + |payload|, 4);
    rec := rec + BigEndian(seqno, 8);
    rec := rec + BigEndian(crc, 4);
    rec := rec + payload;
  }

  lemma NoOps(ops: seq<Op>)
    ensures EncodeOps(ops[..0]) == []
  {
  }

  lemma EntryAt(ops: seq<Op>, i: nat, at: nat)
    requires i < |ops|
    ensures EncodeOps(ops[..i + 1]) == EncodeOps(ops[..i]) + EncodeOp(ops[i])
    ensures |EncodeOps(ops[..i + 1])| <= |EncodeOps(ops)|
    ensures Entries(ops, at)[i].fileOff == if ops[i].del then
            0 else at + HEADER + 4 + |EncodeOps(ops[..i])| + 9 + |ops[i].key|
    ensures Entries(ops, at)[i].n == if ops[i].del then 0 else |ops[i].val|
  {
    assert ops[..i + 1][..i] == ops[..i];
    OpsPrefix(ops, i + 1);
  }

  // ----- round trip -----

  /** The op list of a prefix of the operations is a prefix of the op list. */
  lemma {:induction false} OpsPrefix(ops: seq<Op>, i: nat)
    requires i <= |ops|
    ensures EncodeOps(ops[..i]) <= EncodeOps(ops)
    decreases |ops|
  {
    if i < |ops| {
      var front := ops[..|ops| - 1];
      assert front[..i] == ops[..i];
      OpsPrefix(front, i);
    } else {
      assert ops[..i] == ops;
    }
  }

  /** Op i occupies exactly its own stretch of the op list. */
  lemma OpLiesAt(ops: seq<Op>, i: nat)
    requires i < |ops|
    ensures OpAt(ops, i + 1) == OpAt(ops, i) + OpSize(ops[i]) <= |EncodeOps(ops)|
    ensures EncodeOps(ops)[OpAt(ops, i)..OpAt(ops, i + 1)] == EncodeOp(ops[i])
  {
    hide EncodeOps, EncodeOp;
    EntryAt(ops, i, 0);
    OpsPrefix(ops, i + 1);
    Middle(EncodeOps(ops[..i]), EncodeOp(ops[i]), EncodeOps(ops));
  }

  lemma Middle<T>(x: seq<T>, y: seq<T>, z: seq<T>)
    requires x + y <= z
    ensures z[|x|..|x| + |y|] == y
  {
    forall k | 0 <= k < |y| ensures z[|x|..|x| + |y|][k] == y[k] {
      assert z[|x|..|x| + |y|][k] == z[|x| + k] == (x + y)[|x| + k];
    }
  }

  lemma ReadsBack32(n: nat)
    requires n < U32_LIMIT
    ensures FromBigEndian(BigEndian(n, 4)) == n
  {
    Pow256Values();
    BigEndianRoundTrip(n, 4);
  }

  lemma ParseOpInverts(payload: ByteString, cur: nat, op: Op, start: nat)
    requires cur + OpSize(op) <= |payload| && payload[cur..cur + OpSize(op)] == EncodeOp(op)
    requires OpSize(op) < INT32_LIMIT
    ensures ParseOp(payload, cur, start) ==
              Some((if op.del then Entry(op.key, true, 0, 0)
                                   else Entry(op.key, false, start + cur + 9 + |op.key|, |op.val|), cur + OpSize(op)))
  {
    var b, k := EncodeOp(op), |op.key|;
    hide BigEndian, FromBigEndian;
    assert payload[cur] == b[0];
    SubSlice(payload, cur, cur + |b|, 1, 5);
    SubSlice(payload, cur, cur + |b|, 5, 5 + k);
    assert b[1..5] == BigEndian(k, 4) && b[5..5 + k] == op.key;
    ReadsBack32(k);
    if !op.del {
      SubSlice(payload, cur, cur + |b|, 5 + k, 9 + k);
      assert b[5 + k..9 + k] == BigEndian(|op.val|, 4);
      ReadsBack32(|op.val|);
    }
  }

  lemma {:induction false} ParseOpsInverts(ops: seq<Op>, i: nat, at: nat)
    requires i <= |ops| && |Payload(ops)| < INT32_LIMIT
    ensures ParseOps(Payload(ops), 4 + OpAt(ops, i), |ops| - i, at + HEADER) == Some(Entries(ops, at)[i..])
    decreases |ops| - i
  {
    hide *;
    var payload, cur, es := Payload(ops), 4 + OpAt(ops, i), Entries(ops, at);
    if i < |ops| {
      ParseOpAt(ops, i, at);
      ParseOpsInverts(ops, i + 1, at);
      ParseOpsStep(payload, cur, |ops| - i, at + HEADER);
      assert es[i..] == [es[i]] + es[i + 1..];
    } else {
      ParseOpsDone(payload, cur, at + HEADER);
      assert es[i..] == [];
    }
  }

  lemma ParseOpAt(ops: seq<Op>, i: nat, at: nat)
    requires i < |ops| && |Payload(ops)| < INT32_LIMIT
    ensures ParseOp(Payload(ops), 4 + OpAt(ops, i), at + HEADER) == Some((Entries(ops, at)[i], 4 + OpAt(ops, i + 1)))
  {
    hide ParseOp, FromBigEndian, BigEndian, EncodeOps, EncodeOp;
    var payload, cur, next := Payload(ops), 4 + OpAt(ops, i), 4 + OpAt(ops, i + 1);
    OpLiesAt(ops, i);
    assert payload[cur..next] == EncodeOps(ops)[OpAt(ops, i)..OpAt(ops, i + 1)];
    ParseOpInverts(payload, cur, ops[i], at + HEADER);
  }

  lemma ParseOpsDone(payload: ByteString, cur: nat, start: nat)
    ensures ParseOps(payload, cur, 0, start) == Some([])
  {
  }

  lemma ParseOpsStep(payload: ByteString, cur: nat, count: nat, start: nat)
    requires count > 0 && ParseOp(payload, cur, start).Some?
    ensures ParseOps(payload, cur, count, start) ==
              match ParseOps(payload, ParseOp(payload, cur, start).value.1, count - 1, start)
              case None => None
              case Some(rest) => Some([ParseOp(payload, cur, start).value.0] + rest)
  {
    hide ParseOp;
  }

  lemma {:induction false} CountFits(ops: seq<Op>)
    ensures |ops| <= |EncodeOps(ops)|
  {
    if ops != [] {
      CountFits(ops[..|ops| - 1]);
    }
  }

  /** A whole record replays to its sequence number and operations, with offsets into this very file. */
  lemma ParseRecordInverts(sum: Checksum, data: ByteString, pos: nat, seqno: nat, ops: seq<Op>)
    requires Fits(seqno, ops) && pos + |Record(sum, seqno, ops)| <= |data|
    requires data[pos..pos + |Record(sum, seqno, ops)|] == Record(sum, seqno, ops)
    ensures ParseRecord(sum, data, pos) == Some((LogRecord(seqno, Entries(ops, pos)), pos + |Record(sum, seqno, ops)|))
  {
    var rec, payload := Record(sum, seqno, ops), Payload(ops);
    hide BigEndian, FromBigEndian, ParseOps, EncodeOps;
    assert rec[0..4] == BigEndian(12 + |payload|, 4) && rec[4..12] == BigEndian(seqno, 8);
    assert rec[12..16] == BigEndian(sum(payload), 4) && rec[16..] == payload;
    SubSlice(data, pos, pos + |rec|, 0, 4);
    SubSlice(data, pos, pos + |rec|, 4, 12);
    SubSlice(data, pos, pos + |rec|, 12, 16);
    SubSlice(data, pos, pos + |rec|, 16, |rec|);
    ReadsBack32(12 + |payload|);
    ReadsBack32(sum(payload));
    Pow256Values();
    BigEndianRoundTrip(seqno, 8);
    CountFits(ops);
    ReadsBack32(|ops|);
    assert payload[..4] == BigEndian(|ops|, 4);
    OpAtZero(ops);
    ParseOpsInverts(ops, 0, pos);
    assert Entries(ops, pos)[0..] == Entries(ops, pos);
  }

  lemma OpAtZero(ops: seq<Op>)
    ensures OpAt(ops, 0) == 0
  {
  }

  /** A torn record is not replayed. */
  lemma ParseRecordStops(sum: Checksum, data: ByteString, pos: nat, seqno: nat, ops: seq<Op>)
    requires Fits(seqno, ops) && pos <= |data| && data[pos..] < Record(sum, seqno, ops)
    ensures ParseRecord(sum, data, pos) == None
  {
    var rec, payload := Record(sum, seqno, ops), Payload(ops);
    hide BigEndian, FromBigEndian, ParseOps, EncodeOps;
    if pos + 4 <= |data| {
      assert rec[0..4] == BigEndian(12 + |payload|, 4);
      assert data[pos..pos + 4] == data[pos..][0..4] == rec[0..4];
      ReadsBack32(12 + |payload|);
    }
  }

  // ----- a whole shard file, cut anywhere -----

  datatype Commit = Commit(seqno: nat, ops: seq<Op>)

  function FileOf(sum: Checksum, commits: seq<Commit>): ByteString {
    if commits == [] then []
    else FileOf(sum, commits[..|commits| - 1]) + Record(sum, commits[|commits| - 1].seqno, commits[|commits| - 1].ops)
  }

  function RecordStart(sum: Checksum, commits: seq<Commit>, i: nat): nat
    requires i <= |commits|
  {
    |FileOf(sum, commits[..i])|
  }

  function Replayed(sum: Checksum, commits: seq<Commit>): (rs: seq<LogRecord>)
    ensures |rs| == |commits|
  {
    seq(|commits|, i requires 0 <= i < |commits| => LogRecord(commits[i].seqno,
          Entries(commits[i].ops, RecordStart(sum, commits, i))))
  }

  predicate AllFit(commits: seq<Commit>) {
    forall i :: 0 <= i < |commits| ==> Fits(commits[i].seqno, commits[i].ops)
  }

  lemma {:induction false} FilePrefix(sum: Checksum, commits: seq<Commit>, i: nat)
    requires i <= |commits|
    ensures FileOf(sum, commits[..i]) <= FileOf(sum, commits)
    decreases |commits|
  {
    if i < |commits| {
      var front := commits[..|commits| - 1];
      assert front[..i] == commits[..i];
      FilePrefix(sum, front, i);
    } else {
      assert commits[..i] == commits;
    }
  }

  lemma FileStep(sum: Checksum, commits: seq<Commit>, i: nat)
    requires i < |commits|
    ensures FileOf(sum, commits[..i + 1]) == FileOf(sum, commits[..i]) + Record(sum, commits[i].seqno, commits[i].ops)
  {
    hide Record;
    assert commits[..i + 1][..i] == commits[..i];
  }

  lemma RecordLiesAt(sum: Checksum, commits: seq<Commit>, i: nat)
    requires i < |commits|
    ensures var rec := Record(sum, commits[i].seqno, commits[i].ops);
            && RecordStart(sum, commits, i + 1) == RecordStart(sum, commits, i) + |rec| <= |FileOf(sum, commits)|
            && FileOf(sum, commits)[RecordStart(sum, commits, i)..RecordStart(sum, commits, i + 1)] == rec
  {
    hide FileOf, Record;
    FileStep(sum, commits, i);
    FilePrefix(sum, commits, i + 1);
    Middle(FileOf(sum, commits[..i]), Record(sum, commits[i].seqno, commits[i].ops), FileOf(sum, commits));
  }

  lemma ReplayStep(sum: Checksum, commits: seq<Commit>, cut: nat, i: nat)
    requires AllFit(commits) && cut <= |FileOf(sum, commits)| && i < |commits|
    ensures var a, b := RecordStart(sum, commits, i), RecordStart(sum, commits, i + 1);
            && a <= b
            && (b <= cut ==> ParseRecord(sum, FileOf(sum, commits)[..cut], a) == Some((Replayed(sum, commits)[i], b)))
            && (a <= cut < b ==> ParseRecord(sum, FileOf(sum, commits)[..cut], a) == None)
  {
    hide *;
    var a, b, file := RecordStart(sum, commits, i), RecordStart(sum, commits, i + 1), FileOf(sum, commits);
    var data := file[..cut];
    ReplayedAt(sum, commits, i);
    RecordLiesAt(sum, commits, i);
    if b <= cut {
      assert data[a..b] == file[a..b];
      ParseRecordInverts(sum, data, a, commits[i].seqno, commits[i].ops);
    } else if a <= cut {
      TornTail(file, cut, a, b);
      ParseRecordStops(sum, data, a, commits[i].seqno, commits[i].ops);
    }
  }

  lemma TornTail<T>(s: seq<T>, cut: nat, a: nat, b: nat)
    requires a <= cut < b <= |s|
    ensures s[..cut][a..] == s[a..b][..cut - a]
  {
    var t, u := s[..cut], s[a..b];
    forall k | 0 <= k < cut - a ensures t[a..][k] == u[..cut - a][k] {
      assert t[a..][k] == t[a + k] == s[a + k] == u[k];
    }
  }

  lemma ReplayedAt(sum: Checksum, commits: seq<Commit>, i: nat)
    requires AllFit(commits) && i < |commits|
    ensures Replayed(sum, commits)[i] == LogRecord(commits[i].seqno,
              Entries(commits[i].ops, RecordStart(sum, commits, i)))
    ensures Fits(commits[i].seqno, commits[i].ops)
  {
    hide RecordStart, Entries, Fits;
  }

  lemma {:induction false} StartsAscend(sum: Checksum, commits: seq<Commit>, i: nat, k: nat)
    requires i <= k <= |commits|
    ensures RecordStart(sum, commits, i) <= RecordStart(sum, commits, k)
  {
    hide *;
    if i < k {
      StartsAscend(sum, commits, i, k - 1);
      RecordLiesAt(sum, commits, k - 1);
    }
  }

  /** From record i on, replay of a cut file yields the records up to the first that is not whole. */
  lemma {:induction false} ReplayFrom(sum: Checksum, commits: seq<Commit>, cut: nat, whole: nat, i: nat)
    requires AllFit(commits) && cut <= |FileOf(sum, commits)| && i <= whole <= |commits|
    requires RecordStart(sum, commits, whole) <= cut
    requires whole < |commits| ==> cut < RecordStart(sum, commits, whole + 1)
    ensures ParseShard(sum, FileOf(sum, commits)[..cut], RecordStart(sum, commits, i))
            == Replayed(sum, commits)[i..whole]
    decreases whole - i
  {
    hide *;
    var data, rs := FileOf(sum, commits)[..cut], Replayed(sum, commits);
    var a := RecordStart(sum, commits, i);
    if i < whole {
      ReplayFrom(sum, commits, cut, whole, i + 1);
      StartsAscend(sum, commits, i + 1, whole);
      ReplayStep(sum, commits, cut, i);
      ParseShardStep(sum, data, a);
      assert rs[i..whole] == [rs[i]] + rs[i + 1..whole];
    } else {
      if i < |commits| {
        ReplayStep(sum, commits, cut, i);
      } else {
        WholeFile(sum, commits);
        NothingLeft(sum, data);
      }
      ParseShardStep(sum, data, a);
    }
  }

  lemma ParseShardStep(sum: Checksum, data: ByteString, pos: nat)
    ensures ParseShard(sum, data, pos) == match ParseRecord(sum, data, pos)
                                          case None => []
                                          case Some(first) => [first.0] + ParseShard(sum, data, first.1)
  {
    hide ParseRecord;
  }

  lemma StartOfFile(sum: Checksum, commits: seq<Commit>)
    ensures RecordStart(sum, commits, 0) == 0
  {
  }

  lemma WholeFile(sum: Checksum, commits: seq<Commit>)
    ensures RecordStart(sum, commits, |commits|) == |FileOf(sum, commits)|
  {
    assert commits[..|commits|] == commits;
  }

  lemma NothingLeft(sum: Checksum, data: ByteString)
    ensures ParseRecord(sum, data, |data|) == None
  {
  }

  /** How many of the first m records lie wholly inside a cut. */
  function WholeOf(sum: Checksum, commits: seq<Commit>, cut: nat, m: nat): (whole: nat)
    requires m <= |commits|
    ensures whole <= m && RecordStart(sum, commits, whole) <= cut
            && (whole < m ==> cut < RecordStart(sum, commits, whole + 1))
  {
    if m == 0 then StartOfFile(sum, commits); 0
    else if RecordStart(sum, commits, m) <= cut then m
    else WholeOf(sum, commits, cut, m - 1)
  }

  function Whole(sum: Checksum, commits: seq<Commit>, cut: nat): nat {
    WholeOf(sum, commits, cut, |commits|)
  }

  /**
   Replay of a shard file cut at any byte: exactly the records wholly inside the
   cut, with their sequence numbers, operations and file offsets.
   */
  lemma {:induction false} ReplayOfCutFile(sum: Checksum, commits: seq<Commit>, cut: nat)
    requires AllFit(commits) && cut <= |FileOf(sum, commits)|
    ensures ParseShard(sum, FileOf(sum, commits)[..cut], 0) == Replayed(sum, commits)[..Whole(sum, commits, cut)]
  {
    hide AllFit, FileOf, ParseShard, Replayed, RecordStart;
    ReplayFrom(sum, commits, cut, Whole(sum, commits, cut), 0);
    StartOfFile(sum, commits);
  }

  /** A record is whole exactly when it ends inside the cut. */
  lemma {:induction false} WholeIsInside(sum: Checksum, commits: seq<Commit>, cut: nat, j: nat)
    requires j < |commits|
    ensures j < Whole(sum, commits, cut) <==> RecordStart(sum, commits, j + 1) <= cut
  {
    hide RecordStart, WholeOf;
    var whole := Whole(sum, commits, cut);
    if j < whole {
      StartsAscend(sum, commits, j + 1, whole);
    } else {
      StartsAscend(sum, commits, whole + 1, j + 1);
    }
  }

  /** The offset and length of a replayed entry cut out of the file exactly the value that was written. */
  lemma {:induction false} OffsetsPointAtValues(sum: Checksum, commits: seq<Commit>, i: nat, k: nat, e: Entry)
    requires i < |commits| && k < |commits[i].ops| && !commits[i].ops[k].del
             && e == Replayed(sum, commits)[i].entries[k]
    ensures 0 <= e.fileOff <= e.fileOff + e.n <= RecordStart(sum, commits, i + 1) <= |FileOf(sum, commits)|
    ensures e.key == commits[i].ops[k].key && !e.del
    ensures FileOf(sum, commits)[e.fileOff..e.fileOff + e.n] == commits[i].ops[k].val
  {
    hide *;
    var seqno, ops, op := commits[i].seqno, commits[i].ops, commits[i].ops[k];
    var file, a, b := FileOf(sum, commits), RecordStart(sum, commits, i), RecordStart(sum, commits, i + 1);
    var v := HEADER + 4 + ValueAt(ops, k);
    ReplayedEntry(sum, commits, i, k);
    RecordLiesAt(sum, commits, i);
    ValueInRecord(sum, seqno, ops, k);
    SubSlice(file, a, b, v, v + |op.val|);
  }

  lemma ReplayedEntry(sum: Checksum, commits: seq<Commit>, i: nat, k: nat)
    requires i < |commits| && k < |commits[i].ops| && !commits[i].ops[k].del
    ensures Replayed(sum, commits)[i].entries[k]
              == Entry(commits[i].ops[k].key, false,
                  RecordStart(sum, commits, i) + (HEADER + 4 + ValueAt(commits[i].ops, k)), |commits[i].ops[k].val|)
  {
    hide RecordStart, ValueAt;
  }

  lemma ValueInRecord(sum: Checksum, seqno: nat, ops: seq<Op>, k: nat)
    requires k < |ops| && !ops[k].del
    ensures var v := HEADER + 4 + ValueAt(ops, k);
            v + |ops[k].val| <= |Record(sum, seqno, ops)| && Record(sum, seqno, ops)[v..v + |ops[k].val|] == ops[k].val
  {
    hide *;
    ValueInOps(ops, k);
    OpsInRecord(sum, seqno, ops);
    var rec, a, b := Record(sum, seqno, ops), ValueAt(ops, k), ValueAt(ops, k) + |ops[k].val|;
    SubSlice(rec, HEADER + 4, |rec|, a, b);
    assert rec[HEADER + 4..|rec|] == rec[HEADER + 4..];
  }

  lemma OpsInRecord(sum: Checksum, seqno: nat, ops: seq<Op>)
    ensures |Record(sum, seqno, ops)| == HEADER + 4 + |EncodeOps(ops)|
    ensures Record(sum, seqno, ops)[HEADER + 4..] == EncodeOps(ops)
  {
    hide EncodeOps, BigEndian;
  }

  lemma ValueInOps(ops: seq<Op>, k: nat)
    requires k < |ops| && !ops[k].del
    ensures ValueAt(ops, k) + |ops[k].val| <= |EncodeOps(ops)|
    ensures EncodeOps(ops)[ValueAt(ops, k)..ValueAt(ops, k) + |ops[k].val|] == ops[k].val
  {
    hide EncodeOps, BigEndian;
    var op, o, all := ops[k], OpAt(ops, k), EncodeOps(ops);
    OpLiesAt(ops, k);
    SubSlice(all, o, OpAt(ops, k + 1), 9 + |op.key|, OpSize(op));
    assert EncodeOp(op)[9 + |op.key|..OpSize(op)] == op.val;
  }
}
