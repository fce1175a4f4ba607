/**
 What the commit protocol guarantees over every run: acknowledged data is
 readable and durable, every job is answered once and in order, and a stream that
 comes back from the store is the stream that was retired.
 */
module Durability {
  import opened Bytes
  import opened Store
  import opened Appends
  import opened Streamer
  import opened CommitQueue
  import opened Jobs
  import opened CommitProtocol

  ghost predicate Run(states: seq<State>, steps: seq<Step>) {
    && |states| == |steps| + 1
    && Init(states[0])
    && forall i :: 0 <= i < |steps| ==> Next(states[i], states[i + 1], steps[i])
  }

  lemma InitImpliesInv(s: State)
    requires Init(s)
    ensures Inv(s)
  {
    assert Conserved(s) by {
      hide Founded;
      forall k: nat ensures Places(s, k) == 0 {
        assert Line(s) == [];
      }
    }
    assert CommitsOk(s.world, s.jobs, s.commits) by {
      hide Founded;
      assert forall i :: 0 <= i <= 0 ==> s.commits[..i] == [];
    }
    assert s.world.ids.Keys == s.world.logs.Keys;
    hide Founded, Conserved, CommitsOk, Sorted, Consecutive, CoveredBy, WriterOk;
    assert forall p :: OpenOf(s.jobs, s.fates, p) == {};
  }

  lemma SubmitStepKeepsInv(s: State, s': State, path: ByteString, reqs: seq<Request>, now: nat, x: Writer,
          burst: CommitBurst)
    requires Inv(s) && Submit(s, s', path, reqs, now, x, burst)
    ensures Inv(s')
  {
    hide Inv, Submit;
    if burst.ops == map[] {
      EmptySubmitKeepsInv(s, s', path, reqs, now, x, burst);
    } else {
      SubmitKeepsInv(s, s', path, reqs, now, x, burst);
    }
  }

  lemma SubscribeStepKeepsInv(s: State, s': State, i: nat)
    requires Inv(s) && SubscribeOne(s, s', i)
    ensures Inv(s')
  {
    hide Inv, SubscribeOne;
    if s.notifier.closed {
      SubscribeRefusedKeepsInv(s, s', i);
    } else {
      SubscribeOneKeepsInv(s, s', i);
    }
  }

  /** The invariant is inductive. */
  lemma NextKeepsInv(s: State, s': State, step: Step)
    requires Inv(s) && Next(s, s', step)
    ensures Inv(s')
  {
    hide Inv, Submit, SubscribeOne, FlushCommit, FlushFail, AbortOne, FlushNext, CloseLock, DrainOne, CloseJoin,
         Advance, Sample, Fire, CloseAll, CancelOne, CancelDone, Publish, Reply, Retire, Respawn;
    match step
    case SubmitStep(path, reqs, now, x, burst) => SubmitStepKeepsInv(s, s', path, reqs, now, x, burst);
    case FlushCommitStep(i, seqno) => FlushCommitKeepsInv(s, s', i, seqno);
    case FlushFailStep(i) => FlushFailKeepsInv(s, s', i);
    case AbortOneStep(i) => AbortOneKeepsInv(s, s', i);
    case SubscribeOneStep(i) => SubscribeStepKeepsInv(s, s', i);
    case FlushNextStep(i) => FlushNextKeepsInv(s, s', i);
    case CloseLockStep => CloseLockKeepsInv(s, s');
    case DrainOneStep => DrainOneKeepsInv(s, s');
    case CloseJoinStep => QuietStepKeepsInv(s, s');
    case AdvanceStep(d) => AdvanceKeepsInv(s, s', d);
    case SampleStep => QuietStepKeepsInv(s, s');
    case FireStep => FireKeepsInv(s, s');
    case CloseAllStep => CloseAllKeepsInv(s, s');
    case CancelOneStep => CancelOneKeepsInv(s, s');
    case CancelDoneStep => QuietStepKeepsInv(s, s');
    case PublishStep => PublishKeepsInv(s, s');
    case ReplyStep => ReplyKeepsInv(s, s');
    case RetireStep(path) => RetireKeepsInv(s, s', path);
    case RespawnStep(path) => RespawnKeepsInv(s, s', path);
  }

  lemma RunSteps(states: seq<State>, steps: seq<Step>, i: nat)
    requires Run(states, steps)
    ensures |states| == |steps| + 1 && Init(states[0]) && (i < |steps| ==> Next(states[i], states[i + 1], steps[i]))
  {
    hide Next, Init;
  }

  /** Every reachable state satisfies the invariant. */
  lemma {:induction false} RunKeepsInv(states: seq<State>, steps: seq<Step>, i: nat)
    requires Run(states, steps) && i < |states|
    ensures Inv(states[i])
  {
    hide *;
    RunSteps(states, steps, i - if i == 0 then 0 else 1);
    if i == 0 {
      InitImpliesInv(states[0]);
    } else {
      RunKeepsInv(states, steps, i - 1);
      NextKeepsInv(states[i - 1], states[i], steps[i - 1]);
    }
  }

  // ----- read-after-ack -----

  /** What a crash leaves is what the durable jobs wrote. */
  lemma RecoveredIs(s: State)
    requires Inv(s)
    ensures s.published <= DurableJobs(s.commits, s.durable) <= |s.jobs|
    ensures Recovered(s) == StoreAt(s.world, s.jobs, DurableJobs(s.commits, s.durable))
  {
    hide AllSound, ReaderOk, WritersOk, BooksOk, FlushOk, BacklogOk, PipelineOk, WaitersOk, Conserved, StoreAt, Replay;
    var n := DurablePrefix(s.commits, s.durable);
    assert Committed(s.commits[..n]) <= |s.jobs|;
  }

  /** Everything below a stream's reader tail is durable and is the abstract log, which never changes there. */
  lemma {:induction false} VisibleIsDurable(s: State, path: ByteString)
    requires Inv(s) && path in s.readerTail
    ensures path in s.world.ids && path in s.world.logs
    ensures s.readerTail[path] <= TailAt(Recovered(s), s.world.ids[path])
    ensures s.readerTail[path] <= |LogAt(s.world, s.jobs, path, |s.jobs|)|
    ensures forall n :: 0 <= n < s.readerTail[path] ==>
              RecordAt(Recovered(s), s.world.ids[path], n) == Some(LogAt(s.world, s.jobs, path, |s.jobs|)[n])
  {
    RecoveredIs(s);
    hide CommitsOk, WritersOk, BooksOk, FlushOk, BacklogOk, PipelineOk, WaitersOk, Conserved, StoreAt, Replay,
         DurableJobs, Recovered;
    var d := DurableJobs(s.commits, s.durable);
    StoreHoldsLog(s.world, s.jobs, path, d);
    LogGrows(s.world, s.jobs, path, s.published, d);
    LogGrows(s.world, s.jobs, path, d, |s.jobs|);
  }

  /** An acknowledged job's accepted offsets are below its stream's reader tail, with its records right before them. */
  lemma {:induction false} AckedIsVisible(s: State, k: nat, r: nat)
    requires Inv(s) && k < |s.fates| && s.fates[k] == Acked
    requires |s.fates| == |s.jobs| && r < |s.jobs[k].burst.accepted| && s.jobs[k].burst.accepted[r]
    ensures s.jobs[k].path in s.readerTail && s.jobs[k].path in s.world.logs
    ensures Target(s.jobs[k]) <= s.readerTail[s.jobs[k].path]
    ensures WellAnswered(s.jobs[k])
    ensures s.jobs[k].base + |s.jobs[k].burst.effects.records| <= |LogAt(s.world, s.jobs, s.jobs[k].path, |s.jobs|)|
    ensures LogAt(s.world, s.jobs, s.jobs[k].path, |s.jobs|)[s.jobs[k].base..Target(s.jobs[k])]
            == s.jobs[k].burst.effects.records
  {
    hide CommitsOk, WritersOk, FlushOk, BacklogOk, WaitersOk, Conserved, StoreAt, Replay, DurableJobs, OpenOf,
         WellAnswered;
    var j := s.jobs[k];
    assert Sound(s.world, s.jobs, k);
    assert k < s.published;
    assert |LogAt(s.world, s.jobs, j.path, k + 1)| == Target(j);
    LogGrows(s.world, s.jobs, j.path, k + 1, s.published);
    LogGrows(s.world, s.jobs, j.path, k + 1, |s.jobs|);
    InTheMiddle(LogAt(s.world, s.jobs, j.path, k), j.burst.effects.records,
      LogAt(s.world, s.jobs, j.path, |s.jobs|));
  }

  /** A slice of a slice. */
  lemma SliceOfSlice<T>(s: seq<T>, a: nat, b: nat, c: nat, d: nat)
    requires a <= b <= |s| && c <= d <= b - a
    ensures s[a..b][c..d] == s[a + c..a + d]
  {
    var t := s[a..b];
    forall k | 0 <= k < d - c ensures t[c..d][k] == s[a + c..a + d][k] {
      assert t[c..d][k] == t[c + k] == s[a + c + k];
    }
  }

  /**
   Read-after-ack. In every state of every run, an accepted append that has been
   answered with next offset N is visible to readers, every record below N would
   survive a crash and is the one the abstract log holds, and the last ones below N
   are the append's own.
   */
  lemma {:induction false} ReadAfterAck(states: seq<State>, steps: seq<Step>, i: nat, k: nat, r: nat)
    requires Run(states, steps) && i < |states|
    requires k < |states[i].fates| == |states[i].jobs| && states[i].fates[k] == Acked
    requires r < |states[i].jobs[k].burst.responses| == |states[i].jobs[k].burst.accepted|
             == |states[i].jobs[k].burst.batch| && states[i].jobs[k].burst.accepted[r]
    ensures var s, path, next := states[i], states[i].jobs[k].path, states[i].jobs[k].burst.responses[r].next.seqno;
            var mine := states[i].jobs[k].burst.batch[r].records;
            && path in s.readerTail && path in s.world.ids && path in s.world.logs
            && states[i].jobs[k].burst.responses[r].next.byte == 0 && |mine| <= next
            && next <= s.readerTail[path] <= |LogAt(s.world, s.jobs, path, |s.jobs|)|
            && LogAt(s.world, s.jobs, path, |s.jobs|)[next - |mine|..next] == mine
            && forall n :: 0 <= n < next ==>
                 RecordAt(Recovered(s), s.world.ids[path], n) == Some(LogAt(s.world, s.jobs, path, |s.jobs|)[n])
  {
    hide *;
    RunKeepsInv(states, steps, i);
    AckedIsVisible(states[i], k, r);
    var j := states[i].jobs[k];
    OwnRecords(j, r);
    TargetIs(j);
    var next, mine := j.burst.responses[r].next.seqno, j.burst.batch[r].records;
    SliceOfSlice(LogAt(states[i].world, states[i].jobs, j.path, |states[i].jobs|), j.base, Target(j),
      next - j.base - |mine|, next - j.base);
    VisibleIsDurable(states[i], states[i].jobs[k].path);
  }

  lemma TargetIs(j: Job)
    ensures Target(j) == j.base + |j.burst.effects.records|
  {
  }

  // ----- what a step never takes back -----

  /** The job, if any, whose clients are answered by a step. */
  function Answered(s: State, step: Step): Option<nat> {
    match step
    case SubmitStep(_, _, _, _, burst) => if burst.ops != map[] && s.sc.closed then Some(|s.jobs|) else None
    case AbortOneStep(i) => FlightHead(s, i)
    case SubscribeOneStep(i) => if s.notifier.closed then FlightHead(s, i) else None
    case DrainOneStep => Head(Drained(s.closer))
    case CancelOneStep => Head(Cancelled(s.poller))
    case ReplyStep => Head(Ready(s.poller))
    case _ => None
  }

  function Head(ids: seq<nat>): Option<nat> {
    if ids == [] then None else Some(ids[0])
  }

  function FlightHead(s: State, i: nat): Option<nat> {
    if i < |s.flights| && !s.flights[i].Holding? then Head(s.flights[i].rest) else None
  }

  /** A job at the head of a place is unresolved. */
  lemma InPlaceIsUnresolved(s: State, k: nat)
    requires Inv(s) && Places(s, k) >= 1
    ensures k < |s.fates| && s.fates[k] == Unresolved
  {
    hide AllSound, CommitsOk, ReaderOk, WritersOk, FlushOk, BacklogOk, PipelineOk, WaitersOk, DurableOk,
         BooksOk, Places;
  }

  lemma AnsweredIsInPlace(s: State, s': State, step: Step)
    requires Inv(s) && Next(s, s', step) && Answered(s, step).Some? && !step.SubmitStep?
    ensures Places(s, Answered(s, step).value) >= 1
  {
    hide AllSound, CommitsOk, ReaderOk, WritersOk, BacklogOk, PipelineOk, WaitersOk, DurableOk, BooksOk,
         Conserved, Count;
    hide Submit, FlushCommit, FlushFail, FlushNext, CloseLock, CloseJoin, Advance, Sample, Fire, CloseAll, CancelDone,
         Publish, Retire, Respawn, Resolves, InsertWaiter, Pipeline;
    var k := Answered(s, step).value;
    match step
    case AbortOneStep(i) => assert k in Aborted(s.flights);
    case SubscribeOneStep(i) => assert k in Committing(s.flights); InLine(s, k);
    case DrainOneStep => assert k in Drained(s.closer);
    case CancelOneStep => assert k in Cancelled(s.poller);
    case ReplyStep => assert k in Ready(s.poller); InLine(s, k);
  }

  lemma InLine(s: State, k: nat)
    requires k in Committing(s.flights) || k in Ready(s.poller)
    ensures Times(Line(s), k) >= 1
  {
    assert k in Line(s);
  }

  /** A step answers only unresolved jobs, and changes the fate of no other. */
  lemma {:induction false} AnswersOnlyUnresolved(s: State, s': State, step: Step)
    requires Inv(s) && Next(s, s', step)
    ensures |s.fates| == |s.jobs| <= |s'.fates|
    ensures Answered(s, step).Some? ==>
              var k := Answered(s, step).value;
              (k < |s.fates| ==> s.fates[k] == Unresolved) && k < |s'.fates| && s'.fates[k] != Unresolved
    ensures forall k :: 0 <= k < |s.fates| && Answered(s, step) != Some(k) ==> s'.fates[k] == s.fates[k]
  {
    hide Inv, Next, Answered;
    FatesCount(s);
    FatesFollow(s, s', step);
    if Answered(s, step).Some? && !step.SubmitStep? {
      AnsweredIsInPlace(s, s', step);
      InPlaceIsUnresolved(s, Answered(s, step).value);
    }
  }

  lemma FatesCount(s: State)
    requires Inv(s)
    ensures |s.fates| == |s.jobs|
    ensures s.poller.Firing? && s.poller.published ==> s.published > 0
  {
    hide AllSound, CommitsOk, ReaderOk, WritersOk, FlushOk, BacklogOk, PipelineOk, WaitersOk, DurableOk, Conserved;
  }

  /** The fates change at the answered job and nowhere else. */
  ghost predicate FatesMove(s: State, s': State, answered: Option<nat>) {
    && |s.fates| <= |s'.fates|
    && (answered.Some? ==> answered.value < |s'.fates| && s'.fates[answered.value] != Unresolved)
    && forall k :: 0 <= k < |s.fates| && answered != Some(k) ==> s'.fates[k] == s.fates[k]
  }

  lemma SubmitMovesFates(s: State, s': State, path: ByteString, reqs: seq<Request>, now: nat, x: Writer,
          burst: CommitBurst)
    requires Submit(s, s', path, reqs, now, x, burst) && |s.fates| == |s.jobs|
    ensures FatesMove(s, s', if burst.ops != map[] && s.sc.closed then Some(|s.jobs|) else None)
  {
    hide Planned, Count, Virtual, Stored, BatchSize;
  }

  /** The steps that answer a job taken from a place. */
  predicate Answering(step: Step) {
    step.AbortOneStep? || step.SubscribeOneStep? || step.DrainOneStep? || step.CancelOneStep? || step.ReplyStep?
  }

  lemma AnsweringMovesFates(s: State, s': State, step: Step)
    requires Next(s, s', step) && |s.fates| == |s.jobs| && Answering(step)
    ensures FatesMove(s, s', Answered(s, step))
  {
    hide Count, InsertWaiter, Submit, FlushCommit, FlushFail, FlushNext, CloseLock, CloseJoin, Advance, Sample, Fire,
         CloseAll, CancelDone, Publish, Retire, Respawn;
  }

  lemma OtherMovesFates(s: State, s': State, step: Step)
    requires Next(s, s', step) && !Answering(step) && !step.SubmitStep?
    ensures FatesMove(s, s', Answered(s, step))
  {
    hide Submit, AbortOne, SubscribeOne, DrainOne, CancelOne, Reply, ReadyCount, FoldOps, Replay, Spawn, Stored,
         NextBatch, Shut;
  }

  lemma FatesFollow(s: State, s': State, step: Step)
    requires Next(s, s', step) && |s.fates| == |s.jobs|
    ensures FatesMove(s, s', Answered(s, step))
    ensures step.SubmitStep? && Answered(s, step).Some? ==> Answered(s, step).value == |s.fates|
  {
    hide FatesMove, FlushCommit, FlushFail, FlushNext, CloseLock, CloseJoin, Advance, Sample, Fire, CloseAll,
         CancelDone, Publish, Retire, Respawn, AbortOne, SubscribeOne, DrainOne, CancelOne, Reply, Submit;
    if step.SubmitStep? {
      SubmitMovesFates(s, s', step.path, step.reqs, step.now, step.x, step.burst);
    } else if Answering(step) {
      AnsweringMovesFates(s, s', step);
    } else {
      OtherMovesFates(s, s', step);
    }
  }

  /** A resolved job stays as it was resolved, and reader tails, watermark and history only grow. */
  lemma {:induction false} StepIsMonotone(s: State, s': State, step: Step, path: ByteString)
    requires Inv(s) && Next(s, s', step)
    ensures s'.world == s.world && s.jobs <= s'.jobs && s.durable <= s'.durable && s.commits <= s'.commits
    ensures path in s.readerTail ==> path in s'.readerTail && s.readerTail[path] <= s'.readerTail[path]
    ensures First(s.poller, s.published) <= First(s'.poller, s'.published)
    ensures |s.fates| <= |s'.fates| && forall k ::
            0 <= k < |s.fates| && s.fates[k] != Unresolved ==> s'.fates[k] == s.fates[k]
  {
    hide Inv, Next, Answered, First;
    FatesCount(s);
    NextKeepsInv(s, s', step);
    AnswersOnlyUnresolved(s, s', step);
    StepGrows(s, s', step);
    TailsFollow(s, s', path);
  }

  ghost predicate Grows(s: State, s': State) {
    && s'.world == s.world && s.jobs <= s'.jobs && s.durable <= s'.durable && s.commits <= s'.commits
    && s.published <= s'.published && First(s.poller, s.published) <= First(s'.poller, s'.published)
  }

  lemma SubmitGrows(s: State, s': State, path: ByteString, reqs: seq<Request>, now: nat, x: Writer, burst: CommitBurst)
    requires Submit(s, s', path, reqs, now, x, burst)
    ensures Grows(s, s')
  {
    hide Planned, Count, Virtual, Stored, BatchSize;
  }

  lemma AnsweringGrows(s: State, s': State, step: Step)
    requires Next(s, s', step) && Answering(step) && (s.poller.Firing? && s.poller.published ==> s.published > 0)
    ensures Grows(s, s')
  {
    hide Count, InsertWaiter, Submit, FlushCommit, FlushFail, FlushNext, CloseLock, CloseJoin, Advance, Sample, Fire,
         CloseAll, CancelDone, Publish, Retire, Respawn;
  }

  lemma OtherGrows(s: State, s': State, step: Step)
    requires Next(s, s', step) && !Answering(step) && !step.SubmitStep?
    ensures Grows(s, s')
  {
    hide Submit, AbortOne, SubscribeOne, DrainOne, CancelOne, Reply, ReadyCount, FoldOps, Replay, Spawn, Stored,
         NextBatch, Shut;
  }

  lemma StepGrows(s: State, s': State, step: Step)
    requires Next(s, s', step) && (s.poller.Firing? && s.poller.published ==> s.published > 0)
    ensures Grows(s, s')
  {
    hide Grows, FlushCommit, FlushFail, FlushNext, CloseLock, CloseJoin, Advance, Sample, Fire, CloseAll, CancelDone,
         Publish, Retire, Respawn, AbortOne, SubscribeOne, DrainOne, CancelOne, Reply, Submit;
    if step.SubmitStep? {
      SubmitGrows(s, s', step.path, step.reqs, step.now, step.x, step.burst);
    } else if Answering(step) {
      AnsweringGrows(s, s', step);
    } else {
      OtherGrows(s, s', step);
    }
  }

  lemma TailsFollow(s: State, s': State, path: ByteString)
    requires Inv(s) && Inv(s') && s'.world == s.world && s.jobs <= s'.jobs && s.published <= s'.published
    ensures path in s.readerTail ==> path in s'.readerTail && s.readerTail[path] <= s'.readerTail[path]
  {
    hide CommitsOk, WritersOk, BooksOk, FlushOk, BacklogOk, PipelineOk, WaitersOk, Conserved, AllSound,
         DurableOk, PollerOk;
    if path in s.readerTail {
      LogPrefix(s.world, s.jobs, s'.jobs, path, s.published);
      LogGrows(s.world, s'.jobs, path, s.published, s'.published);
    }
  }

  /** Along a run the reader tail of a stream never decreases and resolved jobs stay resolved. */
  lemma {:induction false} RunIsMonotone(states: seq<State>, steps: seq<Step>, i: nat, l: nat, path: ByteString)
    requires Run(states, steps) && i <= l < |states|
    ensures path in states[i].readerTail ==>
            path in states[l].readerTail && states[i].readerTail[path] <= states[l].readerTail[path]
    ensures First(states[i].poller, states[i].published) <= First(states[l].poller, states[l].published)
    ensures |states[i].fates| <= |states[l].fates|
    ensures forall k :: 0 <= k < |states[i].fates| && states[i].fates[k] != Unresolved ==>
                        states[l].fates[k] == states[i].fates[k]
  {
    hide *;
    RunSteps(states, steps, l - if l == 0 then 0 else 1);
    if i < l {
      RunIsMonotone(states, steps, i, l - 1, path);
      RunKeepsInv(states, steps, l - 1);
      StepIsMonotone(states[l - 1], states[l], steps[l - 1], path);
    }
  }

  // ----- conservation and order -----

  /** No job is answered twice in a run. */
  lemma {:induction false} AnsweredAtMostOnce(states: seq<State>, steps: seq<Step>, i: nat, l: nat)
    requires Run(states, steps) && i < l < |steps|
    requires Answered(states[i], steps[i]).Some?
    ensures Answered(states[l], steps[l]) != Answered(states[i], steps[i])
  {
    hide *;
    RunSteps(states, steps, i);
    RunSteps(states, steps, l);
    RunKeepsInv(states, steps, i);
    RunKeepsInv(states, steps, l);
    AnswersOnlyUnresolved(states[i], states[i + 1], steps[i]);
    AnswersOnlyUnresolved(states[l], states[l + 1], steps[l]);
    RunIsMonotone(states, steps, i + 1, l, []);
  }

  /** Successful answers come in submission order. */
  lemma {:induction false} AcksAreInOrder(states: seq<State>, steps: seq<Step>, i: nat, l: nat)
    requires Run(states, steps) && i < l < |steps|
    requires steps[i] == ReplyStep && steps[l] == ReplyStep
    ensures Answered(states[i], steps[i]).Some? && Answered(states[l], steps[l]).Some?
    ensures Answered(states[i], steps[i]).value < Answered(states[l], steps[l]).value
  {
    hide Inv, Init, First, Run;
    RunSteps(states, steps, i);
    RunSteps(states, steps, l);
    RunKeepsInv(states, steps, i);
    RunKeepsInv(states, steps, l);
    ReplyIsFirst(states[i], states[i + 1]);
    ReplyIsFirst(states[l], states[l + 1]);
    RunIsMonotone(states, steps, i + 1, l, []);
  }

  lemma ReplyIsFirst(s: State, s': State)
    requires Inv(s) && Reply(s, s')
    ensures s.poller.ready[0] == First(s.poller, s.published) < First(s'.poller, s'.published)
  {
    hide AllSound, CommitsOk, ReaderOk, WritersOk, BooksOk, FlushOk, BacklogOk, WaitersOk, DurableJobs,
         Count, Conserved;
    assert Line(s)[0] == s.poller.ready[0];
  }

  /** No goroutine holds or waits for a job. */
  predicate Quiescent(s: State) {
    && s.sc.queue == [] && s.flights == [] && Drained(s.closer) == []
    && s.notifier.waiters == [] && Ready(s.poller) == [] && Cancelled(s.poller) == []
  }

  /** At rest, before or after close, every job ever submitted has been answered and no stream is held resident. */
  lemma {:induction false} AtRestAllAnswered(states: seq<State>, steps: seq<Step>, i: nat)
    requires Run(states, steps) && i < |states| && Quiescent(states[i])
    ensures |states[i].fates| == |states[i].jobs|
    ensures forall k :: 0 <= k < |states[i].fates| ==> states[i].fates[k] != Unresolved
    ensures forall p :: p in states[i].pending ==> states[i].pending[p] == 0
  {
    var s := states[i];
    RunKeepsInv(states, steps, i);
    hide Run, AllSound, CommitsOk, ReaderOk, WritersOk, FlushOk, BacklogOk, PipelineOk, WaitersOk, DurableOk, PollerOk;
    assert Line(s) == [];
    forall k: nat ensures Places(s, k) == 0 {
    }
    forall p | p in s.pending ensures s.pending[p] == 0 {
      assert OpenOf(s.jobs, s.fates, p) == {};
    }
  }

  /**
   At every moment one flush at most runs, within the cap, and `pending` is the number of
   a stream's unresolved jobs.
   */
  ghost predicate Disciplined(s: State, path: ByteString) {
    && |s.flights| <= 1 && (s.sc.flushing <==> |s.flights| == 1)
    && (forall f :: 0 <= f < |s.flights| && s.flights[f].Holding? ==> |s.flights[f].batch| <= s.cap)
    && |s.fates| == |s.jobs|
    && (path in s.pending ==>
          s.pending[path] == |set k | 0 <= k < |s.jobs| && s.fates[k] == Unresolved && s.jobs[k].path == path|)
  }

  lemma {:induction false} QueueDiscipline(states: seq<State>, steps: seq<Step>, i: nat, path: ByteString)
    requires Run(states, steps) && i < |states|
    ensures Disciplined(states[i], path)
  {
    hide *;
    RunKeepsInv(states, steps, i);
    InvIsDisciplined(states[i], path);
  }

  lemma InvIsDisciplined(s: State, path: ByteString)
    requires Inv(s)
    ensures Disciplined(s, path)
  {
    hide AllSound, CommitsOk, ReaderOk, WritersOk, BacklogOk, PipelineOk, WaitersOk, DurableOk, PollerOk, Conserved;
    assert OpenOf(s.jobs, s.fates, path) == (set k | 0 <= k < |s.jobs| && s.fates[k] == Unresolved
             && s.jobs[k].path == path);
  }

  // ----- retire and respawn -----

  ghost predicate Unfailed(s: State, path: ByteString) {
    |s.fates| == |s.jobs| && forall k :: 0 <= k < |s.jobs| && s.jobs[k].path == path ==> s.fates[k] != Failed
  }

  lemma IdleIsAcked(s: State, path: ByteString)
    requires Inv(s) && Unfailed(s, path) && path in s.pending && s.pending[path] == 0
    ensures forall k :: 0 <= k < |s.jobs| && s.jobs[k].path == path ==> s.fates[k] == Acked
  {
    hide AllSound, CommitsOk, ReaderOk, WritersOk, FlushOk, BacklogOk, PipelineOk, WaitersOk, DurableOk,
         PollerOk, Conserved;
    forall k | 0 <= k < |s.jobs| && s.jobs[k].path == path ensures s.fates[k] == Acked {
      assert k !in OpenOf(s.jobs, s.fates, path);
    }
  }

  /** A streamer that may retire has its writer tail, its reader tail and the stored tail in agreement. */
  lemma {:induction false} RetiresInAgreement(s: State, s': State, path: ByteString)
    requires Inv(s) && Retire(s, s', path) && Unfailed(s, path)
    ensures path in s.world.ids && path in s.readerTail
    ensures s.writers[path].writeTail == s.readerTail[path] == TailAt(Stored(s), s.world.ids[path])
    ensures Alike(Virtual(s), Stored(s), path)
  {
    assert WriterOk(s.world, s.jobs, s.commits, path, s.writers[path]);
    IdleIsAcked(s, path);
    IdleStreamIsStored(s, path);
    StoredIs(s.world, s.jobs, s.commits);
    hide Inv, StoreAt, Replay, Stored;
    AgreeingIsAlike(s.writers[path], Replay(s.world.store, s.commits), Virtual(s), Stored(s));
  }

  lemma AgreeingIsAlike(x: Writer, store: Keyspace, v: Keyspace, t: Keyspace)
    requires Reflects(x, store, v)
    requires forall key :: OwnKey(x.path, x.meta.id, key) ==> Get(v, key) == Get(t, key)
    ensures Alike(v, t, x.path) && TailAt(v, x.meta.id) == TailAt(t, x.meta.id)
  {
    AlikeReads(v, t, x.path);
  }

  /**
   Retire and respawn is invisible: whatever is sent later, the streamer read back
   from the store gives the answers the retired one would have given and leaves the
   same metadata, deadline included, and the same stored keys of the stream.
   */
  lemma {:induction false} RetireRespawnIsInvisible(states: seq<State>, steps: seq<Step>, i: nat, path: ByteString,
          later: seq<Event>)
    requires Run(states, steps) && i < |steps| && steps[i] == RetireStep(path) && Unfailed(states[i], path)
    ensures path in states[i].writers && MetaAt(Stored(states[i]), path).Some? && MetaAt(Virtual(states[i]), path).Some?
    ensures Spawn(path, Stored(states[i])).writeTail == states[i].writers[path].writeTail
    ensures AppendAll(Virtual(states[i]), path, later).responses == AppendAll(Stored(states[i]), path, later).responses
    ensures AppendAll(Virtual(states[i]), path, later).accepted == AppendAll(Stored(states[i]), path, later).accepted
    ensures Alike(AppendAll(Virtual(states[i]), path, later).store,
              AppendAll(Stored(states[i]), path, later).store, path)
  {
    hide *;
    RunSteps(states, steps, i);
    RunKeepsInv(states, steps, i);
    var s := states[i];
    RetireIs(s, states[i + 1], path);
    RetiresInAgreement(s, states[i + 1], path);
    RespawnIsInvisible(s.writers[path], Stored(s), Virtual(s), later);
  }

  lemma RetireIs(s: State, s': State, path: ByteString)
    requires Inv(s) && Next(s, s', RetireStep(path))
    ensures Retire(s, s', path) && path in s.writers && s.writers[path].path == path
    ensures Reflects(s.writers[path], Stored(s), Virtual(s))
  {
    hide AllSound, CommitsOk, ReaderOk, BooksOk, FlushOk, BacklogOk, WaitersOk, PipelineOk, PollerOk, DurableOk,
         Conserved, Reflects, Replay, StoreAt;
    assert WriterOk(s.world, s.jobs, s.commits, path, s.writers[path]);
  }
}
