/**
 Appending to a shard that was reopened after a crash. Reopening keeps the file as the
 crash left it and appends behind it, so what a second replay finds depends on where
 the first crash cut: on a record boundary everything, inside a record that no longer
 reads only what had been kept.
 */
module WalReopen {
  import opened Bytes
  import opened WalCodec

  lemma {:induction false} FileConcat(sum: Checksum, a: seq<Commit>, b: seq<Commit>)
    ensures FileOf(sum, a + b) == FileOf(sum, a) + FileOf(sum, b)
    decreases |b|
  {
    hide *;
    EmptyFile(sum);
    if b == [] {
      assert a + b == a;
    } else {
      var n, all := |b| - 1, a + b;
      assert all[..|a| + n] == a + b[..n] && all[..|a| + n + 1] == all && b[..n + 1] == b && all[|a| + n] == b[n];
      FileConcat(sum, a, b[..n]);
      FileStep(sum, b, n);
      FileStep(sum, all, |a| + n);
    }
  }

  lemma EmptyFile(sum: Checksum)
    ensures FileOf(sum, []) == []
  {
  }

  /** What is left after a cut, with the records of later commits behind it. */
  function Reopened(sum: Checksum, commits: seq<Commit>, cut: nat, more: seq<Commit>): ByteString
    requires cut <= |FileOf(sum, commits)|
  {
    FileOf(sum, commits)[..cut] + FileOf(sum, more)
  }

  /** Where the record starts that the cut tore. */
  function TornAt(sum: Checksum, commits: seq<Commit>, cut: nat): nat {
    RecordStart(sum, commits, Whole(sum, commits, cut))
  }

  lemma WholeRecordReads(sum: Checksum, commits: seq<Commit>, data: ByteString, i: nat)
    requires AllFit(commits) && i < |commits| && FileOf(sum, commits[..i + 1]) <= data
    ensures ParseRecord(sum, data, RecordStart(sum, commits, i))
            == Some((Replayed(sum, commits)[i], RecordStart(sum, commits, i + 1)))
  {
    hide *;
    var a, b := RecordStart(sum, commits, i), RecordStart(sum, commits, i + 1);
    ReplayedAt(sum, commits, i);
    RecordLiesAt(sum, commits, i);
    LiesInData(sum, commits, data, i);
    ParseRecordInverts(sum, data, a, commits[i].seqno, commits[i].ops);
  }

  lemma LiesInData(sum: Checksum, commits: seq<Commit>, data: ByteString, i: nat)
    requires i < |commits| && FileOf(sum, commits[..i + 1]) <= data
    ensures var rec, a := Record(sum, commits[i].seqno, commits[i].ops), RecordStart(sum, commits, i);
            a + |rec| <= |data| && data[a..a + |rec|] == rec
  {
    hide FileOf, Record;
    FileStep(sum, commits, i);
    Middle(FileOf(sum, commits[..i]), Record(sum, commits[i].seqno, commits[i].ops), data);
  }

  lemma ShorterPrefix(sum: Checksum, commits: seq<Commit>, data: ByteString, i: nat, whole: nat)
    requires i <= whole <= |commits| && FileOf(sum, commits[..whole]) <= data
    ensures FileOf(sum, commits[..i]) <= data
  {
    hide FileOf;
    FilePrefix(sum, commits[..whole], i);
    assert commits[..whole][..i] == commits[..i];
  }

  /** Whatever follows them, whole records are replayed first. */
  lemma {:induction false} ReplayGoesOn(sum: Checksum, commits: seq<Commit>, data: ByteString, whole: nat, i: nat)
    requires AllFit(commits) && i <= whole <= |commits| && FileOf(sum, commits[..whole]) <= data
    ensures ParseShard(sum, data, RecordStart(sum, commits, i))
            == Replayed(sum, commits)[i..whole] + ParseShard(sum, data, RecordStart(sum, commits, whole))
    decreases whole - i
  {
    hide *;
    var rs := Replayed(sum, commits);
    if i < whole {
      ReplayGoesOn(sum, commits, data, whole, i + 1);
      ShorterPrefix(sum, commits, data, i + 1, whole);
      WholeRecordReads(sum, commits, data, i);
      ParseShardStep(sum, data, RecordStart(sum, commits, i));
      assert rs[i..whole] == [rs[i]] + rs[i + 1..whole];
    } else {
      assert rs[i..whole] == [];
    }
  }

  /** The kept records are a prefix of the cut file, and of what is appended to it. */
  lemma KeptIsPrefix(sum: Checksum, commits: seq<Commit>, cut: nat, more: seq<Commit>)
    requires cut <= |FileOf(sum, commits)|
    ensures Whole(sum, commits, cut) <= |commits| && TornAt(sum, commits, cut) <= cut
    ensures FileOf(sum, commits[..Whole(sum, commits, cut)]) <= Reopened(sum, commits, cut, more)
  {
    hide FileOf;
    FilePrefix(sum, commits, Whole(sum, commits, cut));
  }

  /** The second replay: what was kept, and then whatever reads from the torn record on. */
  lemma {:induction false} SecondReplay(sum: Checksum, commits: seq<Commit>, cut: nat, more: seq<Commit>)
    requires AllFit(commits) && cut <= |FileOf(sum, commits)|
    ensures var data := Reopened(sum, commits, cut, more);
            ParseShard(sum, data, 0) == Replayed(sum, commits)[..Whole(sum, commits, cut)]
                                        + ParseShard(sum, data, TornAt(sum, commits, cut))
  {
    hide *;
    var whole, rs := Whole(sum, commits, cut), Replayed(sum, commits);
    KeptIsPrefix(sum, commits, cut, more);
    ReplayGoesOn(sum, commits, Reopened(sum, commits, cut, more), whole, 0);
    StartOfFile(sum, commits);
    TornIs(sum, commits, cut);
    assert rs[0..whole] == rs[..whole];
  }

  lemma TornIs(sum: Checksum, commits: seq<Commit>, cut: nat)
    ensures TornAt(sum, commits, cut) == RecordStart(sum, commits, Whole(sum, commits, cut))
  {
  }

  /** A cut on a record boundary loses nothing later: all of `more` is replayed behind what was kept. */
  lemma {:induction false} CleanCutKeepsLater(sum: Checksum, commits: seq<Commit>, cut: nat, more: seq<Commit>)
    requires AllFit(commits) && AllFit(more) && cut <= |FileOf(sum, commits)| && cut == TornAt(sum, commits, cut)
    ensures var all := commits[..Whole(sum, commits, cut)] + more;
            ParseShard(sum, Reopened(sum, commits, cut, more), 0) == Replayed(sum, all)
  {
    var all := commits[..Whole(sum, commits, cut)] + more;
    AllFitConcat(commits, Whole(sum, commits, cut), more);
    hide *;
    var file := FileOf(sum, all);
    CleanCutIsFile(sum, commits, cut, more);
    assert file == file[..|file|];
    WholeFile(sum, all);
    ReplayOfCutFile(sum, all, |file|);
    NothingTorn(sum, all);
    assert Replayed(sum, all)[..|all|] == Replayed(sum, all);
  }

  lemma AllFitConcat(commits: seq<Commit>, whole: nat, more: seq<Commit>)
    requires AllFit(commits) && AllFit(more) && whole <= |commits|
    ensures AllFit(commits[..whole] + more)
  {
    hide Fits;
  }

  lemma CleanCutIsFile(sum: Checksum, commits: seq<Commit>, cut: nat, more: seq<Commit>)
    requires cut <= |FileOf(sum, commits)| && cut == TornAt(sum, commits, cut)
    ensures Whole(sum, commits, cut) <= |commits|
    ensures Reopened(sum, commits, cut, more) == FileOf(sum, commits[..Whole(sum, commits, cut)] + more)
  {
    var whole := Whole(sum, commits, cut);
    hide FileOf, WholeOf;
    FilePrefix(sum, commits, whole);
    FileConcat(sum, commits[..whole], more);
    assert FileOf(sum, commits)[..cut] == FileOf(sum, commits[..whole]);
  }

  lemma NothingTorn(sum: Checksum, commits: seq<Commit>)
    ensures Whole(sum, commits, |FileOf(sum, commits)|) == |commits|
  {
    hide FileOf, RecordStart;
    WholeFile(sum, commits);
  }

  /** No record reads at pos: too short a frame, or a checksum that does not match. */
  predicate Unreadable(sum: Checksum, data: ByteString, pos: nat) {
    || pos + 4 > |data|
    || var n := FromBigEndian(data[pos..pos + 4]);
       || n < HEADER || pos + 4 + n > |data|
       || sum(data[pos + HEADER..pos + 4 + n]) != FromBigEndian(data[pos + 12..pos + HEADER])
  }

  /**
   A cut inside a record hides everything later, synced or not, unless the torn bytes
   and the ones behind them happen to read as a record: the second replay is what was
   kept if and only if no record parses there, and an unmatched checksum means that.
   */
  lemma {:induction false} TornCutHidesLater(sum: Checksum, commits: seq<Commit>, cut: nat, more: seq<Commit>)
    requires AllFit(commits) && cut <= |FileOf(sum, commits)|
    ensures var data, kept := Reopened(sum, commits, cut, more), Replayed(sum, commits)[..Whole(sum, commits, cut)];
            var torn := TornAt(sum, commits, cut);
            && (ParseShard(sum, data, 0) == kept <==> ParseRecord(sum, data, torn).None?)
            && (Unreadable(sum, data, torn) ==> ParseShard(sum, data, 0) == kept)
  {
    var data, torn := Reopened(sum, commits, cut, more), TornAt(sum, commits, cut);
    hide *;
    SecondReplay(sum, commits, cut, more);
    ParseShardStep(sum, data, torn);
    if Unreadable(sum, data, torn) {
      UnreadableStops(sum, data, torn);
    }
  }

  lemma UnreadableStops(sum: Checksum, data: ByteString, pos: nat)
    requires Unreadable(sum, data, pos)
    ensures ParseRecord(sum, data, pos) == None
  {
  }

  // ----- a cut that hides later commits under every checksum -----

  lemma SmallBigEndian(n: nat)
    requires n < 256
    ensures BigEndian(n, 4) == [0, 0, 0, n]
  {
    assert BigEndian(0, 1) == [0];
    assert BigEndian(0, 2) == [0, 0];
    assert BigEndian(0, 3) == [0, 0, 0];
    assert n / 256 == 0;
  }

  lemma ShortRecordStarts(sum: Checksum, c: Commit)
    requires 12 + |Payload(c.ops)| < 256
    ensures |Record(sum, c.seqno, c.ops)| > 4 && Record(sum, c.seqno, c.ops)[..3] == [0, 0, 0]
  {
    SmallBigEndian(12 + |Payload(c.ops)|);
    hide BigEndian, EncodeOps;
  }

  lemma FileStartsWith(sum: Checksum, more: seq<Commit>)
    requires more != []
    ensures Record(sum, more[0].seqno, more[0].ops) <= FileOf(sum, more)
  {
    hide *;
    StartOfFile(sum, more);
    RecordLiesAt(sum, more, 0);
    var rec := Record(sum, more[0].seqno, more[0].ops);
    assert FileOf(sum, more)[0..|rec|] == rec;
  }

  lemma WholeBefore(sum: Checksum, commits: seq<Commit>, j: nat)
    requires j < |commits|
    ensures RecordStart(sum, commits, j) + 1 < RecordStart(sum, commits, j + 1) <= |FileOf(sum, commits)|
    ensures Whole(sum, commits, RecordStart(sum, commits, j) + 1) == j
  {
    hide RecordStart, FileOf, WholeOf, BigEndian, EncodeOps;
    var cut := RecordStart(sum, commits, j) + 1;
    RecordLiesAt(sum, commits, j);
    WholeIsInside(sum, commits, cut, j);
    if j > 0 {
      WholeIsInside(sum, commits, cut, j - 1);
    }
  }

  /**
   The first byte of a short record survives the crash, and a short commit follows: with
   any checksum, neither it nor anything behind it is ever replayed.
   */
  lemma {:induction false} OneByteHidesLater(sum: Checksum, commits: seq<Commit>, j: nat, more: seq<Commit>)
    requires AllFit(commits) && j < |commits| && 12 + |Payload(commits[j].ops)| < 256
    requires more != [] && 12 + |Payload(more[0].ops)| < 256
    ensures var cut := RecordStart(sum, commits, j) + 1;
            && cut <= |FileOf(sum, commits)|
            && ParseShard(sum, Reopened(sum, commits, cut, more), 0) == Replayed(sum, commits)[..j]
  {
    hide *;
    var a := RecordStart(sum, commits, j);
    var cut := a + 1;
    WholeBefore(sum, commits, j);
    TornIs(sum, commits, cut);
    TornCutHidesLater(sum, commits, cut, more);
    ShortFrame(sum, commits, j, more);
    ZeroLengthStops(sum, Reopened(sum, commits, cut, more), a);
  }

  lemma ShortFrame(sum: Checksum, commits: seq<Commit>, j: nat, more: seq<Commit>)
    requires j < |commits| && RecordStart(sum, commits, j) + 1 <= |FileOf(sum, commits)|
    requires 12 + |Payload(commits[j].ops)| < 256 && more != [] && 12 + |Payload(more[0].ops)| < 256
    ensures var a, data := RecordStart(sum, commits, j), Reopened(sum, commits, RecordStart(sum, commits, j) + 1, more);
            a + 4 <= |data| && data[a..a + 4] == [0, 0, 0, 0]
  {
    hide FileOf, RecordStart, Record, BigEndian, EncodeOps;
    var a, file := RecordStart(sum, commits, j), FileOf(sum, commits);
    var rec, next := Record(sum, commits[j].seqno, commits[j].ops), Record(sum, more[0].seqno, more[0].ops);
    RecordLiesAt(sum, commits, j);
    ShortRecordStarts(sum, commits[j]);
    ShortRecordStarts(sum, more[0]);
    FileStartsWith(sum, more);
    var data := Reopened(sum, commits, a + 1, more);
    assert file[a..a + |rec|][0] == rec[..3][0] == 0;
    forall k | a < k < a + 4 ensures data[k] == 0 {
      assert data[k] == FileOf(sum, more)[k - a - 1] == next[k - a - 1] == next[..3][k - a - 1];
    }
  }

  lemma ZeroLengthStops(sum: Checksum, data: ByteString, pos: nat)
    requires pos + 4 <= |data| && data[pos..pos + 4] == [0, 0, 0, 0]
    ensures Unreadable(sum, data, pos)
  {
    SmallBigEndian(0);
    ReadsBack32(0);
  }
}
