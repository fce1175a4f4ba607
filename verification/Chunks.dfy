/**
 Cursors and the Chunks channel: reads chained by their next offsets deliver the
 log once, without gap or repeat, and a consumer that fell behind resumes from its
 last offset to get exactly the rest.
 */
module Chunks {
  import opened Bytes
  import opened Appends
  import opened Reads

  datatype Chunk = Chunk(body: ByteString, next: Offset)

  /** A chunk holds exactly what the log has between the offset it was read from and its next offset. */
  ghost predicate Delivers(log: seq<ByteString>, json: bool, from: Offset, c: Chunk) {
    && from.seqno <= c.next.seqno <= |log| && Beyond(from, c.next)
    && if json then from.seqno < c.next.seqno && c.body == WrapArray(log[from.seqno..c.next.seqno])
       else Pos(log, from) <= Pos(log, c.next) <= |Flat(log)| && c.body == Flat(log)[Pos(log, from)..Pos(log, c.next)]
  }

  /** Where chunk i was read from. */
  function StartOf(from: Offset, chunks: seq<Chunk>, i: nat): Offset
    requires i <= |chunks|
  {
    if i == 0 then from else chunks[i - 1].next
  }

  function EndOf(from: Offset, chunks: seq<Chunk>): Offset {
    StartOf(from, chunks, |chunks|)
  }

  /** Consecutive chunks of the log from an offset on. */
  ghost predicate Unbroken(log: seq<ByteString>, json: bool, from: Offset, chunks: seq<Chunk>) {
    forall i :: 0 <= i < |chunks| ==> Delivers(log, json, StartOf(from, chunks, i), chunks[i])
  }

  /** Every read below the tail with a positive limit moves on and delivers what it passes. */
  lemma {:induction false} ReadDelivers(log: seq<ByteString>, json: bool, from: Offset, tail: nat, limit: nat)
    requires tail <= |log| && limit > 0
    ensures var r := ReadLog(log, json, from, tail, limit);
            && (from.seqno < tail ==> Delivers(log, json, from, Chunk(r.body, r.next)) && r.next.seqno <= tail)
            && (from.seqno >= tail ==> r.next == from && r.upToDate)
            && (r.upToDate <==> r.next.seqno >= tail)
  {
    hide TakeBytes, TakeMessages, Pos, Flat, WrapArray;
    if from.seqno < tail {
      if json {
        MessagesAreRun(log, from.seqno, tail, 0, 0, limit);
      } else {
        ReadIsSlice(log, from.seqno, from.byte, tail, limit);
        ReadAdvances(log, from.seqno, from.byte, tail, limit);
      }
    }
  }

  lemma {:induction false} UnbrokenOneMore(log: seq<ByteString>, json: bool, from: Offset, chunks: seq<Chunk>, c: Chunk)
    requires Unbroken(log, json, from, chunks) && Delivers(log, json, EndOf(from, chunks), c)
    ensures Unbroken(log, json, from, chunks + [c]) && EndOf(from, chunks + [c]) == c.next
  {
    hide Delivers;
    var more := chunks + [c];
    forall i | 0 <= i < |more| ensures Delivers(log, json, StartOf(from, more, i), more[i]) {
      if i < |chunks| {
        assert StartOf(from, more, i) == StartOf(from, chunks, i);
      }
    }
  }

  /** Resuming: chunks read from where the first ones ended continue them. */
  lemma {:induction false} ResumeContinues(log: seq<ByteString>, json: bool, from: Offset, a: seq<Chunk>, b: seq<Chunk>)
    requires Unbroken(log, json, from, a) && Unbroken(log, json, EndOf(from, a), b)
    ensures Unbroken(log, json, from, a + b) && EndOf(from, a + b) == EndOf(EndOf(from, a), b)
  {
    hide Delivers;
    var all := a + b;
    forall i | 0 <= i < |all| ensures Delivers(log, json, StartOf(from, all, i), all[i]) {
      if i < |a| {
        assert StartOf(from, all, i) == StartOf(from, a, i);
      } else {
        assert StartOf(from, all, i) == StartOf(EndOf(from, a), b, i - |a|);
      }
    }
  }

  function Bodies(chunks: seq<Chunk>): (bs: seq<ByteString>)
    ensures |bs| == |chunks|
  {
    seq(|chunks|, i requires 0 <= i < |chunks| => chunks[i].body)
  }

  /** Reassembly: the bodies of unbroken binary chunks concatenate to the log's bytes from first to last offset. */
  lemma {:induction false} ChunksReassemble(log: seq<ByteString>, from: Offset, chunks: seq<Chunk>)
    requires from.seqno <= |log| && Unbroken(log, false, from, chunks)
    ensures EndOf(from, chunks).seqno <= |log|
    ensures Pos(log, from) <= Pos(log, EndOf(from, chunks)) <= |Flat(log)|
    ensures Flat(Bodies(chunks)) == Flat(log)[Pos(log, from)..Pos(log, EndOf(from, chunks))]
  {
    hide *;
    BodiesStep(from, chunks);
    if chunks == [] {
      PosBound(log, from);
    } else {
      var n := |chunks| - 1;
      var mid := EndOf(from, chunks[..n]);
      FrontUnbroken(log, false, from, chunks);
      ChunksReassemble(log, from, chunks[..n]);
      DeliversBytes(log, mid, chunks[n]);
      SliceJoin(Flat(log), Pos(log, from), Pos(log, mid), Pos(log, chunks[n].next));
    }
  }

  lemma BodiesStep(from: Offset, chunks: seq<Chunk>)
    ensures chunks == [] ==> Flat(Bodies(chunks)) == [] && EndOf(from, chunks) == from
    ensures chunks != [] ==> var n := |chunks| - 1; Flat(Bodies(chunks)) == Flat(Bodies(chunks[..n])) + chunks[n].body
                                                    && EndOf(from, chunks) == chunks[n].next
  {
    if chunks != [] {
      var n := |chunks| - 1;
      assert Bodies(chunks)[..n] == Bodies(chunks[..n]);
    }
  }

  lemma DeliversBytes(log: seq<ByteString>, from: Offset, c: Chunk)
    requires Delivers(log, false, from, c)
    ensures from.seqno <= c.next.seqno <= |log| && Pos(log, from) <= Pos(log, c.next) <= |Flat(log)|
    ensures c.body == Flat(log)[Pos(log, from)..Pos(log, c.next)]
  {
    hide Pos, Flat;
  }

  lemma FrontUnbroken(log: seq<ByteString>, json: bool, from: Offset, chunks: seq<Chunk>)
    requires chunks != [] && Unbroken(log, json, from, chunks)
    ensures var n := |chunks| - 1;
            Unbroken(log, json, from, chunks[..n]) && Delivers(log, json, EndOf(from, chunks[..n]), chunks[n])
  {
    hide Delivers;
    var front := chunks[..|chunks| - 1];
    assert forall i :: 0 <= i <= |front| ==> StartOf(from, front, i) == StartOf(from, chunks, i);
  }

  /** JSON chunks carry consecutive runs of messages: chunk i the messages from its start to its next offset. */
  lemma {:induction false} MessagesReassemble(log: seq<ByteString>, from: Offset, chunks: seq<Chunk>)
    requires from.seqno <= |log| && Unbroken(log, true, from, chunks)
    ensures EndOf(from, chunks).seqno <= |log| && from.seqno <= EndOf(from, chunks).seqno
    ensures Runs(log, from, chunks) == log[from.seqno..EndOf(from, chunks).seqno]
    ensures forall i :: 0 <= i < |chunks| ==> chunks[i].body == WrapArray(RunOf(log, from, chunks, i))
  {
    if chunks != [] {
      var n := |chunks| - 1;
      var front := chunks[..n];
      assert forall i :: 0 <= i <= n ==> StartOf(from, front, i) == StartOf(from, chunks, i);
      assert Delivers(log, true, StartOf(from, chunks, n), chunks[n]);
      MessagesReassemble(log, from, front);
      forall i | 0 <= i < |chunks| ensures chunks[i].body == WrapArray(RunOf(log, from, chunks, i)) {
        assert Delivers(log, true, StartOf(from, chunks, i), chunks[i]);
      }
      SliceJoin(log, from.seqno, EndOf(from, front).seqno, chunks[n].next.seqno);
    }
  }

  /** The messages chunk i stands for. */
  ghost function RunOf(log: seq<ByteString>, from: Offset, chunks: seq<Chunk>, i: nat): seq<ByteString>
    requires i < |chunks|
  {
    var a, b := StartOf(from, chunks, i).seqno, chunks[i].next.seqno;
    if a <= b <= |log| then log[a..b] else []
  }

  ghost function Runs(log: seq<ByteString>, from: Offset, chunks: seq<Chunk>): seq<ByteString> {
    if chunks == [] then [] else Runs(log, from, chunks[..|chunks| - 1]) + RunOf(log, from, chunks, |chunks| - 1)
  }

  // ----- cursors -----

  /** Cursor: each Next reads at the tail of the moment and moves on. `log` is the stream as later reads will see it. */
  class Cursor {
    const json: bool
    const limit: nat
    var start: Offset

    constructor (json: bool, limit: nat, from: Offset)
      ensures this.json == json && this.limit == limit && start == from
    {
      this.json, this.limit, start := json, limit, from;
    }

    method Next(log: seq<ByteString>, tail: nat) returns (c: Chunk, more: bool)
      requires tail <= |log| && limit > 0
      modifies this
      ensures c == var r := ReadLog(log, json, old(start), tail, limit); Chunk(r.body, r.next)
      ensures c.next == start
      ensures old(start).seqno < tail ==> Delivers(log, json, old(start), c)
      ensures old(start).seqno >= tail ==> start == old(start)
      ensures more <==> start.seqno < tail
    {
      hide ReadLog, Delivers;
      ReadDelivers(log, json, start, tail, limit);
      var r := ReadLog(log, json, start, tail, limit);
      start := r.next;
      return Chunk(r.body, r.next), !r.upToDate;
    }

    /** Catching up with a fixed tail ends, and delivers everything up to it. */
    method CatchUp(log: seq<ByteString>, tail: nat) returns (chunks: seq<Chunk>)
      requires tail <= |log| && limit > 0 && start.seqno <= tail
      modifies this
      ensures Unbroken(log, json, old(start), chunks) && start == EndOf(old(start), chunks) && start.seqno == tail
    {
      hide Delivers, ReadLog;
      ghost var from := start;
      chunks := [];
      var more := start.seqno < tail;
      while more
        invariant Unbroken(log, json, from, chunks) && start == EndOf(from, chunks)
        invariant start.seqno <= tail && (more <==> start.seqno < tail)
        decreases tail - start.seqno, Unread(log, start)
      {
        ReadDelivers(log, json, start, tail, limit);
        PartialReadIsInside(log, json, start, tail, limit);
        var c;
        c, more := Next(log, tail);
        UnbrokenOneMore(log, json, from, chunks, c);
        chunks := chunks + [c];
      }
    }
  }

  /** How much of the record at an offset is still to be read. */
  ghost function Unread(log: seq<ByteString>, o: Offset): nat {
    if o.seqno < |log| && o.byte < |log[o.seqno]| then |log[o.seqno]| - o.byte else 0
  }

  /** A read that stops inside a record stops before its end. */
  lemma PartialReadIsInside(log: seq<ByteString>, json: bool, from: Offset, tail: nat, limit: nat)
    requires from.seqno < tail <= |log| && limit > 0
    ensures var r := ReadLog(log, json, from, tail, limit);
            from.seqno <= r.next.seqno && (r.next.seqno == from.seqno ==> from.byte < r.next.byte < |log[from.seqno]|)
  {
    if json {
      MessagesAreRun(log, from.seqno, tail, 0, 0, limit);
    } else {
      TakeBytesStep(log, from.seqno, from.byte, tail, limit);
      ReadAdvances(log, from.seqno, from.byte, tail, limit);
    }
  }

  // ----- Chunks -----

  const BUFFER: nat := 64

  datatype Reason = Overrun | StreamClosed | NotFound | Cancelled

  /**
   What the world does around one round of runChunks: how many chunks the consumer
   takes first, and what the round then sees.
   */
  datatype Beat = Beat(taken: nat, cancelled: bool, tail: nat, closed: bool, deleted: bool)

  /** The rounds among the first n that found something new, when round i started at places[i]. */
  ghost function Busy(beats: seq<Beat>, places: seq<Offset>, n: nat): set<nat>
    requires n <= |beats| && n <= |places|
  {
    set i | 0 <= i < n && places[i].seqno < beats[i].tail
  }

  /** One of the first n rounds read up to the tail of its moment: the consumer is live from then on. */
  ghost predicate Reached(beats: seq<Beat>, places: seq<Offset>, n: nat)
    requires n <= |beats| && n < |places|
  {
    exists i :: 0 <= i < n && places[i + 1].seqno >= beats[i].tail
  }

  /** Round i moves on exactly if there is something new, and is not one that ends the channel. */
  ghost predicate GoesOn(beats: seq<Beat>, places: seq<Offset>, i: nat)
    requires i < |beats| && i + 1 < |places|
  {
    && (if places[i].seqno < beats[i].tail then Beyond(places[i], places[i + 1]) else places[i + 1] == places[i])
    && !beats[i].cancelled
    && (Reached(beats, places, i) ==>
          !beats[i].deleted && (beats[i].closed ==> places[i].seqno < beats[i].tail))
  }

  ghost predicate AllGoOn(beats: seq<Beat>, places: seq<Offset>, n: nat)
    requires n <= |beats| && n < |places|
  {
    forall i :: 0 <= i < n ==> GoesOn(beats, places, i)
  }

  /** Why a channel at `at` ends in a round that sees b. */
  predicate Justifies(b: Beat, at: Offset, live: bool, full: bool, reason: Reason) {
    match reason
    case Cancelled => b.cancelled
    case NotFound => !b.cancelled && live && b.deleted
    case Overrun => !b.cancelled && !(live && b.deleted) && at.seqno < b.tail && full
    case StreamClosed => !b.cancelled && live && !b.deleted && b.closed && at.seqno >= b.tail
  }

  /**
   runChunks against any environment. `sent` is everything put on the channel;
   `received` of those have been taken. `places` says where each finished round started,
   and where the last one ended. The rounds end with the given beats at the latest.
   */
  method RunChunks(log: seq<ByteString>, json: bool, limit: nat, from: Offset, beats: seq<Beat>)
    returns (sent: seq<Chunk>, received: nat, err: Option<Reason>, ghost pos: Offset, ghost places: seq<Offset>)
    requires limit > 0 && forall i :: 0 <= i < |beats| ==> beats[i].tail <= |log|
    ensures Unbroken(log, json, from, sent)
    ensures received <= |sent| <= received + BUFFER
    ensures err != Some(Overrun) ==> pos == EndOf(from, sent)
    ensures err == Some(Overrun) ==> |sent| == received + BUFFER && Beyond(EndOf(from, sent), pos)
    ensures 1 <= |places| <= |beats| + 1 && places[0] == from && places[|places| - 1] == EndOf(from, sent)
    ensures AllGoOn(beats, places, |places| - 1)
    ensures |sent| == |Busy(beats, places, |places| - 1)|
    ensures err == None <==> |places| == |beats| + 1
    ensures err.Some? ==> Justifies(beats[|places| - 1], EndOf(from, sent), Reached(beats, places, |places| - 1),
                            |sent| == received + BUFFER, err.value)
  {
    hide Delivers, ReadLog, Unbroken, AllGoOn, GoesOn, Busy, Reached;
    sent, received, err := [], 0, None;
    var at := from;
    pos, places := at, [at];
    NoRounds(log, json, from, beats);
    var live := false;
    var i := 0;
    while i < |beats|
      invariant i <= |beats| && received <= |sent| <= received + BUFFER && err == None
      invariant Unbroken(log, json, from, sent) && at == pos == EndOf(from, sent)
      invariant |places| == i + 1 && places[0] == from && places[i] == at
      invariant live <==> Reached(beats, places, i)
      invariant AllGoOn(beats, places, i)
      invariant |sent| == |Busy(beats, places, i)|
    {
      var b := beats[i];
      received := received + Min(b.taken, |sent| - received);
      if b.cancelled {
        err := Some(Cancelled);
        return;
      }
      if live && b.deleted {
        err := Some(NotFound);
        return;
      }
      ReadDelivers(log, json, at, b.tail, limit);
      var r := ReadLog(log, json, at, b.tail, limit);
      var c := Chunk(r.body, r.next);
      DeliversBeyond(log, json, at, c);
      if r.next != at {
        at, pos := r.next, r.next;
        if |sent| - received >= BUFFER {
          err := Some(Overrun);
          return;
        }
        UnbrokenOneMore(log, json, from, sent, c);
        sent := sent + [c];
      } else if live && b.closed {
        err := Some(StreamClosed);
        return;
      }
      if r.upToDate {
        live := true;
      }
      RoundsGoOn(beats, places, i, at);
      AllGoOnOneMore(beats, places, i, at);
      places, i := places + [at], i + 1;
    }
  }

  /** One more finished round: the earlier ones are as they were. */
  lemma {:induction false} RoundsGoOn(beats: seq<Beat>, places: seq<Offset>, n: nat, at: Offset)
    requires n < |beats| && |places| == n + 1
    ensures var more := places + [at];
            && (Reached(beats, more, n + 1) <==> Reached(beats, places, n) || at.seqno >= beats[n].tail)
            && Busy(beats, more, n) == Busy(beats, places, n)
            && |Busy(beats, more, n + 1)| == |Busy(beats, places, n)| + if places[n].seqno < beats[n].tail then 1 else 0
  {
    var more := places + [at];
    hide Reached;
    ReachedAgrees(beats, places, at, n);
    ReachedStep(beats, more, n);
    assert Busy(beats, more, n) == Busy(beats, places, n);
    assert Busy(beats, more, n + 1) == Busy(beats, more, n) + if places[n].seqno < beats[n].tail then {n} else {};
  }

  lemma NoRounds(log: seq<ByteString>, json: bool, from: Offset, beats: seq<Beat>)
    ensures Unbroken(log, json, from, []) && EndOf(from, []) == from
    ensures AllGoOn(beats, [from], 0) && !Reached(beats, [from], 0) && Busy(beats, [from], 0) == {}
  {
  }

  lemma {:induction false} AllGoOnOneMore(beats: seq<Beat>, places: seq<Offset>, n: nat, at: Offset)
    requires n < |beats| && |places| == n + 1 && AllGoOn(beats, places, n) && !beats[n].cancelled
    requires if places[n].seqno < beats[n].tail then Beyond(places[n], at) else at == places[n]
    requires Reached(beats, places, n) ==>
               !beats[n].deleted && (beats[n].closed ==> places[n].seqno < beats[n].tail)
    ensures AllGoOn(beats, places + [at], n + 1)
  {
    hide Reached;
    var more := places + [at];
    forall x | 0 <= x < n + 1 ensures GoesOn(beats, more, x) {
      ReachedAgrees(beats, places, at, x);
      assert x < n ==> GoesOn(beats, places, x);
    }
  }

  lemma ReachedAgrees(beats: seq<Beat>, places: seq<Offset>, at: Offset, n: nat)
    requires n <= |beats| && n < |places|
    ensures Reached(beats, places + [at], n) <==> Reached(beats, places, n)
  {
    var more := places + [at];
    assert forall i :: 0 < i <= n ==> more[i] == places[i];
  }

  lemma ReachedStep(beats: seq<Beat>, places: seq<Offset>, n: nat)
    requires n < |beats| && n + 1 < |places|
    ensures Reached(beats, places, n + 1) <==> Reached(beats, places, n) || places[n + 1].seqno >= beats[n].tail
  {
  }

  lemma DeliversBeyond(log: seq<ByteString>, json: bool, from: Offset, c: Chunk)
    ensures Delivers(log, json, from, c) ==> Beyond(from, c.next) && from != c.next
  {
    hide WrapArray, Flat, Pos;
  }

  /**
   A consumer that drained what was sent and restarts from the last offset it saw
   ends up with the log's bytes from the very beginning, each once.
   */
  lemma {:induction false} OverrunLosesNothing(log: seq<ByteString>, from: Offset, first: seq<Chunk>,
          second: seq<Chunk>)
    requires from.seqno <= |log|
    requires Unbroken(log, false, from, first) && Unbroken(log, false, EndOf(from, first), second)
    ensures EndOf(from, first + second).seqno <= |log|
    ensures Pos(log, from) <= Pos(log, EndOf(from, first + second)) <= |Flat(log)|
    ensures Flat(Bodies(first + second)) == Flat(log)[Pos(log, from)..Pos(log, EndOf(from, first + second))]
  {
    ResumeContinues(log, false, from, first, second);
    ChunksReassemble(log, from, first + second);
  }

  /** Of a JSON stream it ends up with every message from the very beginning, each in one chunk. */
  lemma {:induction false} OverrunLosesNoMessage(log: seq<ByteString>, from: Offset, first: seq<Chunk>,
          second: seq<Chunk>)
    requires from.seqno <= |log|
    requires Unbroken(log, true, from, first) && Unbroken(log, true, EndOf(from, first), second)
    ensures var all := first + second;
            && from.seqno <= EndOf(from, all).seqno <= |log|
            && Runs(log, from, all) == log[from.seqno..EndOf(from, all).seqno]
            && forall i :: 0 <= i < |all| ==> all[i].body == WrapArray(RunOf(log, from, all, i))
  {
    hide Delivers, WrapArray;
    ResumeContinues(log, true, from, first, second);
    MessagesReassemble(log, from, first + second);
  }
}
