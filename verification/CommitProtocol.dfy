/**
 Notifier-mode durability as a state machine with one step per critical section:
 any number of streamers submit bursts, flush goroutines fold them into physical
 commits, one poller publishes and acknowledges what has become durable, and the
 server may be closed at any point. The store is fail-stop.
 */
module CommitProtocol {
  import opened Bytes
  import opened Store
  import opened Appends
  import opened Streamer
  import opened CommitQueue
  import opened Jobs

  datatype Fate = Unresolved | Acked | Failed

  /** A runFlush goroutine: before its CommitAsync, subscribing its jobs, or failing them. */
  datatype Flight = Holding(batch: seq<nat>) | Subscribing(target: nat, rest: seq<nat>) | Aborting(rest: seq<nat>)

  /** The notifier goroutine. `published` says whether the first ready job's reader state is out. */
  datatype Poller = Parked | Sampled(durable: nat) | Firing(ready: seq<nat>, published: bool)
    | Cancelling(rest: seq<nat>)

  datatype Closer = Running | Draining(rest: seq<nat>) | Stopped

  /** A physical commit; upTo counts the jobs committed by it and before it. */
  datatype Commit = Commit(seqno: nat, ops: Batch, upTo: nat)

  datatype State = State(
    world: World,
    cap: nat,
    jobs: seq<Job>,
    fates: seq<Fate>,
    sc: Committer,
    flights: seq<Flight>,
    closer: Closer,
    commits: seq<Commit>,
    storeFailed: bool,
    durable: nat,
    notifier: Waiting,
    poller: Poller,
    published: nat,
    writers: map<ByteString, Writer>,
    readerTail: map<ByteString, nat>,
    pending: map<ByteString, int>)

  // ----- what the store holds, now and after a crash -----

  function Committed(commits: seq<Commit>): nat {
    if commits == [] then 0 else commits[|commits| - 1].upTo
  }

  function LastSeqno(commits: seq<Commit>): nat {
    if commits == [] then 0 else commits[|commits| - 1].seqno
  }

  function Replay(base: Keyspace, commits: seq<Commit>): Keyspace {
    if commits == [] then base else Apply(Replay(base, commits[..|commits| - 1]), commits[|commits| - 1].ops)
  }

  /** How many commits the watermark covers. */
  function DurablePrefix(commits: seq<Commit>, durable: nat): (n: nat)
    ensures n <= |commits|
  {
    if commits == [] then 0
    else if commits[|commits| - 1].seqno <= durable then |commits|
    else DurablePrefix(commits[..|commits| - 1], durable)
  }

  function DurableJobs(commits: seq<Commit>, durable: nat): nat {
    Committed(commits[..DurablePrefix(commits, durable)])
  }

  /** The store as readers and loads see it: every commit applied. */
  function Stored(s: State): Keyspace {
    Replay(s.world.store, s.commits)
  }

  /** The store that a crash would leave: the commits the watermark covers. */
  function Recovered(s: State): Keyspace {
    Replay(s.world.store, s.commits[..DurablePrefix(s.commits, s.durable)])
  }

  /** The store once everything submitted has landed: what the streamers' views reflect. */
  ghost function Virtual(s: State): Keyspace {
    StoreAt(s.world, s.jobs, |s.jobs|)
  }

  // ----- the steps -----

  ghost predicate Init(s: State) {
    && Founded(s.world) && s.cap >= 1
    && s.jobs == [] && s.fates == [] && s.sc == Committer([], false, false) && s.flights == [] && s.closer == Running
    && s.commits == [] && !s.storeFailed && s.durable == 0 && s.notifier == Waiting([], false) && s.poller == Parked
       && s.published == 0
    && s.writers == map[]
    && s.readerTail == (map p | p in s.world.ids :: |s.world.logs[p]|)
    && s.pending == (map p | p in s.world.ids :: 0)
  }

  /** A job is answered and its stream's callback count drops. */
  ghost predicate Resolves(s: State, s': State, k: nat, fate: Fate) {
    && k < |s.jobs| && k < |s.fates|
    && s' == s.(fates := s.fates[k := fate], pending := Count(s.pending, s.jobs[k].path, -1))
  }

  /** A stream's `pending` counter moves. */
  function Count(pending: map<ByteString, int>, path: ByteString, delta: int): (r: map<ByteString, int>)
    ensures r.Keys == pending.Keys
  {
    if path in pending then pending[path := pending[path] + delta] else pending
  }

  /** A streamer plans a burst, publishes its writer view and enters the commit queue. */
  ghost predicate Submit(s: State, s': State, path: ByteString, reqs: seq<Request>, now: nat, x: Writer,
          burst: CommitBurst)
  {
    && path in s.writers && MetaAt(Virtual(s), s.writers[path].path).Some?
    && Planned(s.writers[path], Stored(s), Virtual(s), reqs, now, x, burst)
    && if burst.ops == map[] then s' == s.(writers := s.writers[path := x])
       else
         var k := |s.jobs|;
         var (sc', admission) := Admit(s.sc, s.cap, k);
         var t := Submitted(s, path, x,
             Job(path, s.writers[path].meta, s.writers[path].writeTail, burst, now)).(sc := sc');
         match admission
         case Rejected => Resolves(t, s', k, Failed)
         case Queued => s' == t
         case Flush(batch) => s' == t.(flights := s.flights + [Holding(batch)])
  }

  function Submitted(s: State, path: ByteString, x: Writer, j: Job): State {
    s.(jobs := s.jobs + [j], fates := s.fates + [Unresolved], writers := s.writers[path := x],
        pending := Count(s.pending, path, 1))
  }

  ghost predicate FlushCommit(s: State, s': State, i: nat, seqno: nat) {
    && i < |s.flights| && s.flights[i].Holding? && !s.storeFailed && seqno > LastSeqno(s.commits)
    && var batch := s.flights[i].batch;
       && (forall x :: 0 <= x < |batch| ==> batch[x] < |s.jobs|)
       && s' == s.(commits := s.commits + [Commit(seqno, FoldOps(s.jobs, batch), Committed(s.commits) + |batch|)],
                   flights := s.flights[i := Subscribing(seqno, batch)])
  }

  ghost predicate FlushFail(s: State, s': State, i: nat) {
    && i < |s.flights| && s.flights[i].Holding?
    && s' == s.(storeFailed := true, flights := s.flights[i := Aborting(s.flights[i].batch)])
  }

  ghost predicate AbortOne(s: State, s': State, i: nat) {
    && i < |s.flights| && s.flights[i].Aborting? && s.flights[i].rest != []
    && Resolves(s.(flights := s.flights[i := Aborting(s.flights[i].rest[1..])]), s', s.flights[i].rest[0], Failed)
  }

  ghost predicate SubscribeOne(s: State, s': State, i: nat) {
    && i < |s.flights| && s.flights[i].Subscribing? && s.flights[i].rest != []
    && var f := s.flights[i];
       var t := s.(flights := s.flights[i := Subscribing(f.target, f.rest[1..])]);
       if s.notifier.closed then Resolves(t, s', f.rest[0], Failed)
       else s' == t.(notifier := s.notifier.(waiters := InsertWaiter(s.notifier.waiters, Waiter(f.target, f.rest[0]))))
  }

  ghost predicate FlushNext(s: State, s': State, i: nat) {
    && i < |s.flights| && !s.flights[i].Holding? && s.flights[i].rest == []
    && var (sc', next) := NextBatch(s.sc, s.cap);
       match next
       case None => s' == s.(sc := sc', flights := s.flights[..i] + s.flights[i + 1..])
       case Some(batch) => s' == s.(sc := sc', flights := s.flights[i := Holding(batch)])
  }

  ghost predicate CloseLock(s: State, s': State) {
    && s.closer == Running
    && var (sc', stray) := Shut(s.sc);
       s' == s.(sc := sc', closer := Draining(stray))
  }

  ghost predicate DrainOne(s: State, s': State) {
    && s.closer.Draining? && s.closer.rest != []
    && Resolves(s.(closer := Draining(s.closer.rest[1..])), s', s.closer.rest[0], Failed)
  }

  ghost predicate CloseJoin(s: State, s': State) {
    && s.closer == Draining([]) && s.flights == []
    && s' == s.(closer := Stopped)
  }

  ghost predicate Advance(s: State, s': State, d: nat) {
    && s.durable <= d <= LastSeqno(s.commits)
    && s' == s.(durable := d)
  }

  ghost predicate Sample(s: State, s': State) {
    && s.poller == Parked && s.notifier.waiters != []
    && s' == s.(poller := Sampled(s.durable))
  }

  function JobsOf(ws: seq<Waiter>): (ids: seq<nat>)
    ensures |ids| == |ws|
    ensures forall i :: 0 <= i < |ws| ==> ids[i] == ws[i].job
  {
    seq(|ws|, i requires 0 <= i < |ws| => ws[i].job)
  }

  ghost predicate Fire(s: State, s': State) {
    && s.poller.Sampled?
    && var n := ReadyCount(s.notifier.waiters, s.poller.durable);
       s' == s.(notifier := s.notifier.(waiters := s.notifier.waiters[n..]),
                poller := if n == 0 then Parked else Firing(JobsOf(s.notifier.waiters[..n]), false))
  }

  /** The store reports an error, or the server is stopping: every waiter is cancelled. */
  ghost predicate CloseAll(s: State, s': State) {
    && s.poller == Parked
    && s' == if s.notifier.closed then s
             else s.(notifier := Waiting([], true), poller := Cancelling(JobsOf(s.notifier.waiters)))
  }

  ghost predicate CancelOne(s: State, s': State) {
    && s.poller.Cancelling? && s.poller.rest != []
    && Resolves(s.(poller := Cancelling(s.poller.rest[1..])), s', s.poller.rest[0], Failed)
  }

  ghost predicate CancelDone(s: State, s': State) {
    s.poller == Cancelling([]) && s' == s.(poller := Parked)
  }

  /** applyReader for the first ready job. */
  ghost predicate Publish(s: State, s': State) {
    && s.poller.Firing? && s.poller.ready != [] && !s.poller.published && s.poller.ready[0] < |s.jobs|
    && var j := s.jobs[s.poller.ready[0]];
       s' == s.(poller := s.poller.(published := true), published := s.published + 1,
                readerTail := s.readerTail[j.path := Target(j)])
  }

  /** Its clients are answered. */
  ghost predicate Reply(s: State, s': State) {
    && s.poller.Firing? && s.poller.ready != [] && s.poller.published
    && var rest := s.poller.ready[1..];
       Resolves(s.(poller := if rest == [] then Parked else Firing(rest, false)), s', s.poller.ready[0], Acked)
  }

  ghost predicate Retire(s: State, s': State, path: ByteString) {
    && path in s.writers && path in s.pending && s.pending[path] == 0
    && s' == s.(writers := s.writers - {path})
  }

  /** A streamer is spawned from the store; none of the stream's bursts has failed. */
  ghost predicate Respawn(s: State, s': State, path: ByteString) {
    && path !in s.writers && path in s.world.ids && MetaAt(Stored(s), path).Some?
    && |s.fates| == |s.jobs| && (forall k :: 0 <= k < |s.jobs| && s.jobs[k].path == path ==> s.fates[k] == Acked)
    && s' == s.(writers := s.writers[path := Spawn(path, Stored(s))],
                readerTail := s.readerTail[path := TailAt(Stored(s), s.world.ids[path])])
  }

  datatype Step =
    | SubmitStep(path: ByteString, reqs: seq<Request>, now: nat, x: Writer, burst: CommitBurst)
    | FlushCommitStep(i: nat, seqno: nat) | FlushFailStep(i: nat) | AbortOneStep(i: nat) | SubscribeOneStep(i: nat)
      | FlushNextStep(i: nat)
    | CloseLockStep | DrainOneStep | CloseJoinStep
    | AdvanceStep(d: nat) | SampleStep | FireStep | CloseAllStep | CancelOneStep | CancelDoneStep
      | PublishStep | ReplyStep
    | RetireStep(path: ByteString) | RespawnStep(path: ByteString)

  ghost predicate Next(s: State, s': State, step: Step) {
    match step
    case SubmitStep(path, reqs, now, x, burst) => Submit(s, s', path, reqs, now, x, burst)
    case FlushCommitStep(i, seqno) => FlushCommit(s, s', i, seqno)
    case FlushFailStep(i) => FlushFail(s, s', i)
    case AbortOneStep(i) => AbortOne(s, s', i)
    case SubscribeOneStep(i) => SubscribeOne(s, s', i)
    case FlushNextStep(i) => FlushNext(s, s', i)
    case CloseLockStep => CloseLock(s, s')
    case DrainOneStep => DrainOne(s, s')
    case CloseJoinStep => CloseJoin(s, s')
    case AdvanceStep(d) => Advance(s, s', d)
    case SampleStep => Sample(s, s')
    case FireStep => Fire(s, s')
    case CloseAllStep => CloseAll(s, s')
    case CancelOneStep => CancelOne(s, s')
    case CancelDoneStep => CancelDone(s, s')
    case PublishStep => Publish(s, s')
    case ReplyStep => Reply(s, s')
    case RetireStep(path) => Retire(s, s', path)
    case RespawnStep(path) => Respawn(s, s', path)
  }

  // ----- the invariant -----

  ghost predicate Shape(s: State) {
    && s.cap >= 1 && AllSound(s.world, s.jobs)
    && s.readerTail.Keys == s.pending.Keys == s.world.ids.Keys
  }

  /** Commits have increasing numbers, and each prefix of them is a prefix of the jobs. */
  ghost predicate CommitsOk(w: World, jobs: seq<Job>, commits: seq<Commit>) {
    && (forall i, j :: 0 <= i < j < |commits| ==>
                       commits[i].seqno < commits[j].seqno && commits[i].upTo <= commits[j].upTo)
    && (forall i :: 0 <= i <= |commits| ==>
                    Committed(commits[..i]) <= |jobs|
                    && Replay(w.store, commits[..i]) == StoreAt(w, jobs, Committed(commits[..i])))
  }

  function Held(flights: seq<Flight>): seq<nat> {
    if flights != [] && flights[0].Holding? then flights[0].batch else []
  }

  function Committing(flights: seq<Flight>): seq<nat> {
    if flights != [] && flights[0].Subscribing? then flights[0].rest else []
  }

  function Aborted(flights: seq<Flight>): seq<nat> {
    if flights != [] && flights[0].Aborting? then flights[0].rest else []
  }

  function Ready(p: Poller): seq<nat> {
    if p.Firing? then p.ready else []
  }

  function Cancelled(p: Poller): seq<nat> {
    if p.Cancelling? then p.rest else []
  }

  function Drained(c: Closer): seq<nat> {
    if c.Draining? then c.rest else []
  }

  /** At most one flush runs, and it holds no more than the cap. */
  ghost predicate FlushOk(cap: nat, sc: Committer, flights: seq<Flight>, closer: Closer, storeFailed: bool) {
    && |flights| <= 1 && (sc.flushing <==> |flights| == 1)
    && |Held(flights)| <= cap
    && (sc.closed <==> closer != Running)
    && (sc.closed || !sc.flushing ==> sc.queue == [])
    && (flights != [] && flights[0].Aborting? ==> storeFailed)
  }

  /** While the store works, what is held and what is queued are the next jobs to commit, in order. */
  ghost predicate BacklogOk(submitted: nat, closed: bool, storeFailed: bool, committed: nat, backlog: seq<nat>) {
    && (!storeFailed ==> Consecutive(backlog, committed) && committed + |backlog| <= submitted)
    && (!storeFailed && !closed ==> committed + |backlog| == submitted)
  }

  ghost predicate CoveredBy(commits: seq<Commit>, w: Waiter) {
    exists i :: 0 <= i < |commits| && commits[i].seqno <= w.target && w.job < commits[i].upTo
  }

  ghost predicate WaitersOk(commits: seq<Commit>, flights: seq<Flight>, waiters: seq<Waiter>) {
    && Sorted(waiters)
    && (forall i :: 0 <= i < |waiters| ==> waiters[i].target <= LastSeqno(commits) && CoveredBy(commits, waiters[i]))
    && (flights != [] && flights[0].Subscribing? ==> commits != [] && flights[0].target == LastSeqno(commits))
    && (forall i :: 0 <= i < |Committing(flights)| ==> Committing(flights)[i] < Committed(commits))
  }

  ghost predicate PollerOk(notifier: Waiting, poller: Poller, published: nat, durable: nat) {
    && (notifier.closed ==> notifier.waiters == [] && !poller.Firing?)
    && (poller.Cancelling? ==> notifier.closed)
    && (poller.Firing? ==> poller.ready != [])
    && (poller.Firing? && poller.published ==> published > 0)
    && (poller.Sampled? ==> poller.durable <= durable)
  }

  /** The first job not yet acknowledged. */
  function First(poller: Poller, published: nat): int {
    if poller.Firing? && poller.published then published - 1 else published
  }

  /** What is committed and not yet acknowledged, in the order it will be. */
  function Pipeline(notifier: Waiting, poller: Poller, flights: seq<Flight>): seq<nat> {
    Ready(poller) + JobsOf(notifier.waiters) + Committing(flights)
  }

  /** Until the notifier closes, nothing committed has been skipped. */
  ghost predicate PipelineOk(closed: bool, pipeline: seq<nat>, first: int, published: nat, committed: nat) {
    && published <= committed
    && (!closed ==> first >= 0 && Consecutive(pipeline, first) && first + |pipeline| == committed)
  }

  ghost predicate DurableOk(durableJobs: nat, published: nat, ready: seq<nat>) {
    published <= durableJobs && forall i :: 0 <= i < |ready| ==> ready[i] < durableJobs
  }

  /** The jobs still on their way to an acknowledgement, in order. */
  function Line(s: State): seq<nat> {
    Pipeline(s.notifier, s.poller, s.flights)
  }

  function Times(ids: seq<nat>, k: nat): nat {
    multiset(ids)[k]
  }

  /** How many of the places where an unresolved job can be hold job k. */
  function Places(s: State, k: nat): nat {
    Times(Line(s), k) + Times(Held(s.flights), k) + Times(s.sc.queue, k) + Times(Aborted(s.flights), k)
    + Times(Drained(s.closer), k) + Times(Cancelled(s.poller), k)
  }

  /** Conservation: an unresolved job is in exactly one place, a resolved one in none. */
  ghost predicate Conserved(s: State) {
    forall k: nat :: Places(s, k) == if k < |s.fates| && s.fates[k] == Unresolved then 1 else 0
  }

  ghost predicate Moved(s: State, s': State) {
    forall k: nat :: Places(s', k) == Places(s, k)
  }

  ghost predicate TookOut(s: State, s': State, job: nat) {
    forall k: nat :: Places(s, k) == Places(s', k) + if k == job then 1 else 0
  }

  function OpenOf(jobs: seq<Job>, fates: seq<Fate>, path: ByteString): set<nat>
    requires |fates| == |jobs|
  {
    set k | 0 <= k < |fates| && fates[k] == Unresolved && jobs[k].path == path
  }

  /** The acknowledged jobs are a prefix, and `pending` counts a stream's unresolved jobs. */
  ghost predicate BooksOk(jobs: seq<Job>, fates: seq<Fate>, pending: map<ByteString, int>, first: int) {
    && |fates| == |jobs|
    && (forall k :: 0 <= k < |fates| ==> (fates[k] == Acked <==> k < first))
    && (forall p :: p in pending ==> pending[p] == |OpenOf(jobs, fates, p)|)
  }

  ghost predicate ReaderOk(w: World, jobs: seq<Job>, published: nat, readerTail: map<ByteString, nat>) {
    && published <= |jobs| && readerTail.Keys == w.logs.Keys
    && forall p :: p in readerTail ==> readerTail[p] == |LogAt(w, jobs, p, published)|
  }

  /** A streamer reflects everything submitted, and has loaded whatever is still to land. */
  ghost predicate WriterOk(w: World, jobs: seq<Job>, commits: seq<Commit>, p: ByteString, x: Writer) {
    && p in w.ids && x.path == p && x.meta.id == w.ids[p]
    && Reflects(x, Replay(w.store, commits), StoreAt(w, jobs, |jobs|))
    && forall k :: Committed(commits) <= k < |jobs| && jobs[k].path == p ==>
         && jobs[k].burst.effects.producers.Keys <= x.loaded
         && (jobs[k].burst.effects.writerSeq.Some? ==> x.writerSeqLoaded)
  }

  ghost predicate WritersOk(w: World, jobs: seq<Job>, commits: seq<Commit>, writers: map<ByteString, Writer>) {
    forall p :: p in writers ==> WriterOk(w, jobs, commits, p, writers[p])
  }

  ghost predicate Inv(s: State) {
    && Shape(s)
    && CommitsOk(s.world, s.jobs, s.commits)
    && FlushOk(s.cap, s.sc, s.flights, s.closer, s.storeFailed)
    && BacklogOk(|s.jobs|, s.sc.closed, s.storeFailed, Committed(s.commits), Held(s.flights) + s.sc.queue)
    && WaitersOk(s.commits, s.flights, s.notifier.waiters)
    && PollerOk(s.notifier, s.poller, s.published, s.durable)
    && PipelineOk(s.notifier.closed, Pipeline(s.notifier, s.poller, s.flights), First(s.poller, s.published),
         s.published, Committed(s.commits))
    && DurableOk(DurableJobs(s.commits, s.durable), s.published, Ready(s.poller))
    && BooksOk(s.jobs, s.fates, s.pending, First(s.poller, s.published))
    && Conserved(s)
    && ReaderOk(s.world, s.jobs, s.published, s.readerTail)
    && WritersOk(s.world, s.jobs, s.commits, s.writers)
  }

  // ----- resolving one job -----

  lemma OpenAfter(jobs: seq<Job>, fates: seq<Fate>, k: nat, fate: Fate, p: ByteString)
    requires k < |fates| == |jobs| && fates[k] == Unresolved && fate != Unresolved
    ensures |OpenOf(jobs, fates[k := fate], p)| == |OpenOf(jobs, fates, p)| - if jobs[k].path == p then 1 else 0
  {
    assert OpenOf(jobs, fates[k := fate], p) == OpenOf(jobs, fates, p) - {k};
  }

  /** Taking a job out of its place and answering it keeps the books balanced. */
  lemma ResolveKeepsBooks(s: State, t: State, s': State, k: nat, fate: Fate)
    requires Conserved(s) && BooksOk(s.jobs, s.fates, s.pending, First(s.poller, s.published))
    requires TookOut(s, t, k) && t.jobs == s.jobs && t.fates == s.fates && t.pending == s.pending
    requires Resolves(t, s', k, fate)
    requires fate == Failed || (fate == Acked && k == First(s.poller, s.published))
    ensures s.fates[k] == Unresolved
    ensures Conserved(s')
    ensures BooksOk(s'.jobs, s'.fates, s'.pending, First(s.poller, s.published) + if fate == Acked then 1 else 0)
  {
    hide OpenOf;
    SamePlaces(t, s');
    hide Places;
    assert Places(s, k) >= 1;
    forall p | p in s'.pending ensures s'.pending[p] == |OpenOf(s'.jobs, s'.fates, p)| {
      OpenAfter(s.jobs, s.fates, k, fate, p);
    }
    forall j: nat ensures Places(s', j) == if j < |s'.fates| && s'.fates[j] == Unresolved then 1 else 0 {
      assert Places(s', j) == Places(t, j);
    }
  }

  lemma SamePlaces(t: State, s': State)
    requires s'.notifier == t.notifier && s'.poller == t.poller && s'.flights == t.flights && s'.sc == t.sc
             && s'.closer == t.closer
    ensures Moved(t, s')
  {
    hide Times, Pipeline;
  }

  lemma HeadOff(ids: seq<nat>, k: nat)
    requires ids != []
    ensures Times(ids, k) == Times(ids[1..], k) + if ids[0] == k then 1 else 0
  {
    assert ids == [ids[0]] + ids[1..];
  }

  lemma TimesConcat(a: seq<nat>, b: seq<nat>, k: nat)
    ensures Times(a + b, k) == Times(a, k) + Times(b, k)
  {
  }

  lemma Unmoved(s: State, s': State)
    requires s'.notifier == s.notifier && s'.poller == s.poller && s'.flights == s.flights && s'.sc == s.sc
             && s'.closer == s.closer
    ensures Moved(s, s') && Line(s') == Line(s)
  {
    hide Times, Pipeline;
  }

  lemma WritersUpdate(w: World, jobs: seq<Job>, commits: seq<Commit>, writers: map<ByteString, Writer>,
          path: ByteString, x: Writer)
    requires WritersOk(w, jobs, commits, writers) && WriterOk(w, jobs, commits, path, x)
    ensures WritersOk(w, jobs, commits, writers[path := x])
  {
    hide WriterOk;
  }

  lemma TimesNone(k: nat)
    ensures Times([], k) == 0
  {
  }

  // ----- every step keeps the invariant -----

  lemma AbortOneKeepsInv(s: State, s': State, i: nat)
    requires Inv(s) && AbortOne(s, s', i)
    ensures Inv(s')
  {
    hide AllSound, CommitsOk, ReaderOk, WritersOk, DurableOk, BooksOk, PipelineOk, BacklogOk, PollerOk, DurableJobs,
         Count, Conserved, Sorted, CoveredBy;
    var rest := s.flights[i].rest;
    assert i == 0;
    var t := s.(flights := s.flights[i := Aborting(rest[1..])]);
    assert Line(t) == Line(s);
    assert TookOut(s, t, rest[0]) by {
      hide Times, Pipeline;
      forall k: nat ensures Places(s, k) == Places(t, k) + if k == rest[0] then 1 else 0 {
        HeadOff(rest, k);
      }
    }
    hide Pipeline, Places, TookOut;
    ResolveKeepsBooks(s, t, s', rest[0], Failed);
  }

  lemma DrainOneKeepsInv(s: State, s': State)
    requires Inv(s) && DrainOne(s, s')
    ensures Inv(s')
  {
    hide AllSound, CommitsOk, ReaderOk, WritersOk, WaitersOk, DurableOk, BooksOk, PipelineOk, BacklogOk, PollerOk,
         DurableJobs, Count, Conserved, Pipeline, Times;
    var rest := s.closer.rest;
    var t := s.(closer := Draining(rest[1..]));
    forall k: nat ensures Places(s, k) == Places(t, k) + if k == rest[0] then 1 else 0 {
      HeadOff(rest, k);
    }
    ResolveKeepsBooks(s, t, s', rest[0], Failed);
  }

  lemma CancelOneKeepsInv(s: State, s': State)
    requires Inv(s) && CancelOne(s, s')
    ensures Inv(s')
  {
    hide AllSound, CommitsOk, ReaderOk, WritersOk, WaitersOk, DurableOk, BooksOk, BacklogOk, FlushOk, DurableJobs,
         Count, Conserved, Times;
    var rest := s.poller.rest;
    var t := s.(poller := Cancelling(rest[1..]));
    assert Line(t) == Line(s) == Line(s');
    hide Pipeline;
    forall k: nat ensures Places(s, k) == Places(t, k) + if k == rest[0] then 1 else 0 {
      HeadOff(rest, k);
    }
    ResolveKeepsBooks(s, t, s', rest[0], Failed);
  }

  lemma SubscribeOneMoves(s: State, s': State, i: nat)
    requires Inv(s) && SubscribeOne(s, s', i) && !s.notifier.closed
    ensures i == 0 && Held(s'.flights) == Held(s.flights) && Line(s') == Line(s) && Moved(s, s')
    ensures s'.notifier.waiters == s.notifier.waiters + [Waiter(s.flights[0].target, s.flights[0].rest[0])]
  {
    hide AllSound, CommitsOk, ReaderOk, WritersOk, DurableOk, BooksOk, BacklogOk, DurableJobs, Conserved, Times;
    var ws, w := s.notifier.waiters, Waiter(s.flights[0].target, s.flights[0].rest[0]);
    assert InsertWaiter(ws, w) == ws + [w];
    assert JobsOf(ws + [w]) == JobsOf(ws) + [w.job];
    assert Line(s') == Line(s);
  }

  lemma SubscribeOneKeepsInv(s: State, s': State, i: nat)
    requires Inv(s) && SubscribeOne(s, s', i) && !s.notifier.closed
    ensures Inv(s')
  {
    hide AllSound, CommitsOk, ReaderOk, WritersOk, DurableOk, BooksOk, BacklogOk, PipelineOk, DurableJobs, Pipeline,
         Places, InsertWaiter;
    SubscribeOneMoves(s, s', i);
    var f := s.flights[0];
    assert f.rest[0] < Committed(s.commits) by {
      assert Committing(s.flights)[0] == f.rest[0];
    }
    assert CoveredBy(s.commits, Waiter(f.target, f.rest[0])) by {
      assert s.commits[|s.commits| - 1].seqno <= f.target;
    }
    assert forall x :: 0 <= x < |Committing(s'.flights)| ==> Committing(s'.flights)[x] == Committing(s.flights)[x + 1];
    assert WaitersOk(s'.commits, s'.flights, s'.notifier.waiters);
    assert Conserved(s') by {
      assert forall k: nat :: Places(s', k) == Places(s, k);
    }
  }

  lemma SubscribeRefusedMoves(s: State, t: State)
    requires FlushOk(s.cap, s.sc, s.flights, s.closer, s.storeFailed)
             && PollerOk(s.notifier, s.poller, s.published, s.durable) && s.notifier.closed
    requires s.flights != [] && s.flights[0].Subscribing? && s.flights[0].rest != []
    requires t == s.(flights := s.flights[0 := Subscribing(s.flights[0].target, s.flights[0].rest[1..])])
    ensures TookOut(s, t, s.flights[0].rest[0])
  {
    hide Times, Count, FlushOk;
    var rest := s.flights[0].rest;
    assert Line(s) == rest && Line(t) == rest[1..];
    hide Pipeline;
    forall k: nat ensures Places(s, k) == Places(t, k) + if k == rest[0] then 1 else 0 {
      HeadOff(rest, k);
    }
  }

  lemma SubscribeRefusedKeepsInv(s: State, s': State, i: nat)
    requires Inv(s) && SubscribeOne(s, s', i) && s.notifier.closed
    ensures Inv(s')
  {
    hide AllSound, CommitsOk, ReaderOk, WritersOk, DurableOk, BooksOk, BacklogOk, DurableJobs, Count, Conserved,
         Times, Consecutive, Pipeline, Places, TookOut, CoveredBy, Sorted;
    var f := s.flights[0];
    var t := s.(flights := s.flights[0 := Subscribing(f.target, f.rest[1..])]);
    SubscribeRefusedMoves(s, t);
    ResolveKeepsBooks(s, t, s', f.rest[0], Failed);
    assert forall x :: 0 <= x < |Committing(s'.flights)| ==> Committing(s'.flights)[x] == Committing(s.flights)[x + 1];
  }

  lemma FlushFailMoves(s: State, s': State, i: nat)
    requires Inv(s) && FlushFail(s, s', i)
    ensures i == 0 && Committing(s'.flights) == Committing(s.flights) && Line(s') == Line(s) && Moved(s, s')
  {
    hide AllSound, CommitsOk, ReaderOk, WritersOk, DurableOk, BooksOk, BacklogOk, PipelineOk, WaitersOk, PollerOk,
         DurableJobs, Conserved, Times;
    assert Line(s') == Line(s);
    hide Pipeline;
    forall k: nat ensures Places(s', k) == Places(s, k) {
      TimesNone(k);
    }
  }

  lemma FlushNextMoves(s: State, s': State, i: nat)
    requires Inv(s) && FlushNext(s, s', i)
    ensures i == 0 && Committing(s'.flights) == Committing(s.flights) && Line(s') == Line(s) && Moved(s, s')
    ensures Held(s'.flights) + s'.sc.queue == Held(s.flights) + s.sc.queue
  {
    hide AllSound, CommitsOk, ReaderOk, WritersOk, DurableOk, BooksOk, BacklogOk, PipelineOk, WaitersOk, PollerOk,
         DurableJobs, Conserved, Times;
    assert s.flights[..0] + s.flights[1..] == [];
    assert Line(s') == Line(s);
    hide Pipeline;
    FlushNextQueue(s, s', i);
    forall k: nat ensures Places(s', k) == Places(s, k) {
      TimesNone(k);
      TimesConcat(Held(s'.flights), s'.sc.queue, k);
    }
  }

  lemma FlushNextQueue(s: State, s': State, i: nat)
    requires FlushNext(s, s', i) && |s.flights| == 1
    ensures Held(s.flights) == [] && Aborted(s.flights) == Aborted(s'.flights) == []
    ensures Held(s'.flights) + s'.sc.queue == s.sc.queue
  {
    var n := BatchSize(|s.sc.queue|, s.cap);
    assert s.sc.queue == s.sc.queue[..n] + s.sc.queue[n..];
    assert s.flights[..0] + s.flights[1..] == [];
  }

  lemma FlushFailKeepsInv(s: State, s': State, i: nat)
    requires Inv(s) && FlushFail(s, s', i)
    ensures Inv(s')
  {
    hide AllSound, CommitsOk, ReaderOk, WritersOk, DurableOk, BooksOk, PollerOk, PipelineOk, DurableJobs,
         Pipeline, Places;
    FlushFailMoves(s, s', i);
  }

  lemma FlushNextKeepsInv(s: State, s': State, i: nat)
    requires Inv(s) && FlushNext(s, s', i)
    ensures Inv(s')
  {
    hide AllSound, CommitsOk, ReaderOk, WritersOk, DurableOk, BooksOk, PollerOk, PipelineOk, DurableJobs, BacklogOk,
         Pipeline, Places, CoveredBy, Sorted;
    FlushNextMoves(s, s', i);
  }

  lemma CloseLockMoves(s: State, s': State)
    requires Inv(s) && CloseLock(s, s')
    ensures Moved(s, s')
    ensures BacklogOk(|s'.jobs|, true, s'.storeFailed, Committed(s'.commits), Held(s'.flights) + s'.sc.queue)
  {
    hide AllSound, CommitsOk, ReaderOk, WritersOk, DurableOk, BooksOk, PipelineOk, WaitersOk, PollerOk, DurableJobs,
         Conserved, Times, Pipeline;
    var backlog := Held(s.flights) + s.sc.queue;
    assert Held(s'.flights) + s'.sc.queue == Held(s.flights);
    assert forall x :: 0 <= x < |Held(s.flights)| ==> backlog[x] == Held(s.flights)[x];
    forall k: nat ensures Places(s', k) == Places(s, k) {
      TimesNone(k);
    }
  }

  lemma CloseLockKeepsInv(s: State, s': State)
    requires Inv(s) && CloseLock(s, s')
    ensures Inv(s')
  {
    hide AllSound, CommitsOk, ReaderOk, WritersOk, DurableOk, BooksOk, PollerOk, PipelineOk, DurableJobs, WaitersOk,
         Pipeline, Places, BacklogOk;
    CloseLockMoves(s, s');
  }

  lemma PollerMoves(s: State, s': State)
    requires Sample(s, s') || CancelDone(s, s') || CloseJoin(s, s') || Publish(s, s')
    ensures Line(s') == Line(s) && Moved(s, s') && Ready(s'.poller) == Ready(s.poller)
  {
    hide Times;
    assert Line(s') == Line(s);
  }

  lemma QuietStepKeepsInv(s: State, s': State)
    requires Inv(s) && (Sample(s, s') || CancelDone(s, s') || CloseJoin(s, s'))
    ensures Inv(s')
  {
    hide AllSound, CommitsOk, ReaderOk, WritersOk, BooksOk, DurableJobs, WaitersOk, BacklogOk, DurableOk, PipelineOk,
         Pipeline, Places, Ready;
    PollerMoves(s, s');
  }

  lemma CloseAllMoves(s: State, s': State)
    requires CloseAll(s, s') && !s.notifier.closed
    ensures Moved(s, s')
  {
    var ids, rest := JobsOf(s.notifier.waiters), Committing(s.flights);
    assert Line(s) == ids + rest && Line(s') == rest;
    hide Times, Pipeline;
    forall k: nat ensures Places(s', k) == Places(s, k) {
      TimesConcat(ids, rest, k);
      TimesNone(k);
    }
  }

  lemma CloseAllKeepsInv(s: State, s': State)
    requires Inv(s) && CloseAll(s, s')
    ensures Inv(s')
  {
    hide AllSound, CommitsOk, ReaderOk, WritersOk, BooksOk, DurableJobs, FlushOk, BacklogOk, Pipeline, Places,
         Consecutive, CoveredBy;
    if !s.notifier.closed {
      CloseAllMoves(s, s');
    }
  }

  lemma AdvanceKeepsInv(s: State, s': State, d: nat)
    requires Inv(s) && Advance(s, s', d)
    ensures Inv(s')
  {
    hide AllSound, ReaderOk, WritersOk, BooksOk, FlushOk, BacklogOk, PipelineOk, WaitersOk, DurableJobs, Replay, Times;
    DurableGrows(s.world, s.jobs, s.commits, s.durable, d);
    assert forall k: nat :: Places(s', k) == Places(s, k);
  }

  lemma {:induction false} DurablePrefixIs(commits: seq<Commit>, durable: nat, i: nat)
    requires forall i, j :: 0 <= i < j < |commits| ==> commits[i].seqno < commits[j].seqno
    requires i < |commits|
    ensures commits[i].seqno <= durable <==> i < DurablePrefix(commits, durable)
  {
    if commits[|commits| - 1].seqno > durable && i < |commits| - 1 {
      DurablePrefixIs(commits[..|commits| - 1], durable, i);
    }
  }

  /** The durable part of the history only grows. */
  lemma DurableGrows(w: World, jobs: seq<Job>, commits: seq<Commit>, d: nat, e: nat)
    requires CommitsOk(w, jobs, commits) && d <= e
    ensures DurablePrefix(commits, d) <= DurablePrefix(commits, e)
    ensures DurableJobs(commits, d) <= DurableJobs(commits, e)
  {
    hide Replay;
    var m, n := DurablePrefix(commits, d), DurablePrefix(commits, e);
    if m > 0 {
      DurablePrefixIs(commits, d, m - 1);
      DurablePrefixIs(commits, e, m - 1);
      assert commits[..m][m - 1] == commits[m - 1] && commits[..n][n - 1] == commits[n - 1];
    }
  }

  lemma JobsOfSplit(ws: seq<Waiter>, n: nat)
    requires n <= |ws|
    ensures JobsOf(ws[..n]) + JobsOf(ws[n..]) == JobsOf(ws) && JobsOf([]) == []
  {
  }

  lemma FireMoves(s: State, s': State)
    requires Fire(s, s')
    ensures Line(s') == Line(s) && Moved(s, s')
  {
    hide Times, ReadyCount, JobsOf;
    var ws, n := s.notifier.waiters, ReadyCount(s.notifier.waiters, s.poller.durable);
    JobsOfSplit(ws, n);
    assert n == 0 ==> ws[..n] == [];
    assert Ready(s'.poller) == JobsOf(ws[..n]) && Ready(s.poller) == [];
    assert [] + JobsOf(ws) == JobsOf(ws);
    assert Line(s') == Line(s);
    hide Pipeline;
  }

  lemma FireReleases(s: State, s': State)
    requires Inv(s) && Fire(s, s')
    ensures DurableOk(DurableJobs(s'.commits, s'.durable), s'.published, Ready(s'.poller))
  {
    hide AllSound, ReaderOk, WritersOk, BooksOk, FlushOk, BacklogOk, PipelineOk, Pipeline, Conserved, DurableJobs;
    var ws, ids := s.notifier.waiters, Ready(s'.poller);
    forall i | 0 <= i < |ids| ensures ids[i] < DurableJobs(s.commits, s.durable) {
      ReleasedIsDurable(s, ws[i]);
    }
  }

  lemma FireKeepsInv(s: State, s': State)
    requires Inv(s) && Fire(s, s')
    ensures Inv(s')
  {
    hide AllSound, CommitsOk, ReaderOk, WritersOk, BooksOk, FlushOk, BacklogOk, PipelineOk, Pipeline, Places,
         CoveredBy, DurableJobs, DurableOk;
    FireMoves(s, s');
    FireReleases(s, s');
  }

  lemma ReleasedIsDurable(s: State, w: Waiter)
    requires CommitsOk(s.world, s.jobs, s.commits) && CoveredBy(s.commits, w) && w.target <= s.durable
    ensures w.job < DurableJobs(s.commits, s.durable)
  {
    hide Replay;
    var i :| 0 <= i < |s.commits| && s.commits[i].seqno <= w.target && w.job < s.commits[i].upTo;
    DurablePrefixIs(s.commits, s.durable, i);
    var n := DurablePrefix(s.commits, s.durable);
    assert s.commits[..n][n - 1] == s.commits[n - 1];
  }

  /** The job about to be published is the next in line, so its target is its stream's next tail. */
  lemma PublishedTail(s: State, s': State)
    requires Inv(s) && Publish(s, s')
    ensures s.poller.ready[0] == s.published < Committed(s.commits)
    ensures ReaderOk(s'.world, s'.jobs, s'.published, s'.readerTail)
  {
    hide CommitsOk, WritersOk, BooksOk, FlushOk, BacklogOk, WaitersOk, DurableJobs, Conserved, WellAnswered, BatchOf;
    assert Line(s)[0] == s.poller.ready[0];
    assert Sound(s.world, s.jobs, s.published);
  }

  lemma PublishKeepsInv(s: State, s': State)
    requires Inv(s) && Publish(s, s')
    ensures Inv(s')
  {
    PollerMoves(s, s');
    PublishedTail(s, s');
    hide AllSound, CommitsOk, ReaderOk, WritersOk, BooksOk, FlushOk, BacklogOk, WaitersOk, DurableJobs, Pipeline,
         Places, LogAt;
  }

  lemma ReplyMoves(s: State, s': State)
    requires Inv(s) && Reply(s, s')
    ensures var k := s.poller.ready[0];
            && k == First(s.poller, s.published)
            && |Line(s')| == |Line(s)| - 1 && Consecutive(Line(s'), k + 1)
            && TookOut(s, s', k)
  {
    hide AllSound, CommitsOk, ReaderOk, WritersOk, BooksOk, FlushOk, BacklogOk, WaitersOk, DurableJobs, Count,
         Conserved, Times;
    var line, rest := Line(s), Line(s');
    assert line[0] == s.poller.ready[0] && rest == line[1..];
    assert forall x :: 0 <= x < |rest| ==> rest[x] == line[x + 1];
    forall k: nat ensures Places(s, k) == Places(s', k) + if k == line[0] then 1 else 0 {
      HeadOff(line, k);
    }
  }

  lemma ReplyAdvances(s: State, s': State)
    requires Inv(s) && Reply(s, s')
    ensures First(s'.poller, s'.published) == First(s.poller, s.published) + 1
    ensures PipelineOk(s'.notifier.closed, Line(s'), First(s'.poller, s'.published), s'.published,
              Committed(s'.commits))
    ensures PollerOk(s'.notifier, s'.poller, s'.published, s'.durable)
    ensures DurableOk(DurableJobs(s'.commits, s'.durable), s'.published, Ready(s'.poller))
  {
    hide AllSound, CommitsOk, ReaderOk, WritersOk, BooksOk, FlushOk, BacklogOk, WaitersOk, DurableJobs, Count,
         Consecutive, Conserved, Pipeline, Places, TookOut;
    ReplyMoves(s, s');
    assert forall x :: 0 <= x < |Ready(s'.poller)| ==> Ready(s'.poller)[x] == s.poller.ready[x + 1];
  }

  lemma ReplyKeepsInv(s: State, s': State)
    requires Inv(s) && Reply(s, s')
    ensures Inv(s')
  {
    hide AllSound, CommitsOk, ReaderOk, WritersOk, BooksOk, FlushOk, BacklogOk, WaitersOk, DurableJobs, Count,
         Consecutive, Conserved, Pipeline, Places, PipelineOk, PollerOk, DurableOk, First;
    ReplyMoves(s, s');
    ReplyAdvances(s, s');
    var k, rest := s.poller.ready[0], s.poller.ready[1..];
    var t := s.(poller := if rest == [] then Parked else Firing(rest, false));
    SamePlaces(t, s');
    assert TookOut(s, t, k);
    hide TookOut;
    ResolveKeepsBooks(s, t, s', k, Acked);
  }

  lemma RetireKeepsInv(s: State, s': State, path: ByteString)
    requires Inv(s) && Retire(s, s', path)
    ensures Inv(s')
  {
    hide AllSound, CommitsOk, ReaderOk, BooksOk, FlushOk, BacklogOk, WaitersOk, PipelineOk, PollerOk, DurableOk,
         DurableJobs, WriterOk, Times;
    assert forall k: nat :: Places(s', k) == Places(s, k);
  }

  // A physical commit.

  lemma FlushCommitLine(s: State, s': State, i: nat, seqno: nat)
    requires Inv(s) && FlushCommit(s, s', i, seqno)
    ensures i == 0 && Held(s'.flights) == [] && Moved(s, s')
    ensures Line(s') == Line(s) + s.flights[0].batch
    ensures Consecutive(s.flights[0].batch, Committed(s.commits))
            && Committed(s.commits) + |s.flights[0].batch| <= |s.jobs|
    ensures BacklogOk(|s'.jobs|, s'.sc.closed, s'.storeFailed, Committed(s'.commits), Held(s'.flights) + s'.sc.queue)
  {
    hide AllSound, CommitsOk, ReaderOk, WritersOk, DurableOk, BooksOk, PipelineOk, WaitersOk, PollerOk, DurableJobs,
         Conserved, Times, FoldOps;
    var batch := s.flights[0].batch;
    var backlog := batch + s.sc.queue;
    assert Line(s') == Line(s) + batch;
    assert forall x :: 0 <= x < |batch| ==> batch[x] == backlog[x];
    assert Held(s'.flights) + s'.sc.queue == s.sc.queue;
    assert forall x :: 0 <= x < |s.sc.queue| ==> s.sc.queue[x] == backlog[|batch| + x];
    hide Pipeline;
    forall k: nat ensures Places(s', k) == Places(s, k) {
      TimesConcat(Line(s), batch, k);
      TimesNone(k);
    }
  }

  lemma CommitsExtend(w: World, jobs: seq<Job>, commits: seq<Commit>, c: Commit)
    requires CommitsOk(w, jobs, commits)
    requires c.seqno > LastSeqno(commits) && Committed(commits) <= c.upTo <= |jobs|
    requires Apply(Replay(w.store, commits), c.ops) == StoreAt(w, jobs, c.upTo)
    ensures CommitsOk(w, jobs, commits + [c])
  {
    hide Apply, StoreAt;
    var more := commits + [c];
    assert more[..|commits|] == commits && more[..|more|] == more;
    forall x | 0 <= x <= |more|
      ensures Committed(more[..x]) <= |jobs| && Replay(w.store, more[..x]) == StoreAt(w, jobs, Committed(more[..x]))
    {
      if x <= |commits| {
        assert more[..x] == commits[..x];
      }
    }
  }

  lemma StoredIs(w: World, jobs: seq<Job>, commits: seq<Commit>)
    requires CommitsOk(w, jobs, commits)
    ensures Committed(commits) <= |jobs| && Replay(w.store, commits) == StoreAt(w, jobs, Committed(commits))
  {
    assert commits[..|commits|] == commits;
  }

  lemma FlushCommitHistory(s: State, s': State, i: nat, seqno: nat)
    requires Inv(s) && FlushCommit(s, s', i, seqno)
    ensures CommitsOk(s'.world, s'.jobs, s'.commits)
    ensures Stored(s') == Apply(Stored(s), FoldOps(s.jobs, s.flights[0].batch))
  {
    hide AllSound, ReaderOk, WritersOk, DurableOk, BooksOk, PipelineOk, WaitersOk, PollerOk, DurableJobs, Conserved,
         Times, BacklogOk, CommitsOk, Apply, FoldOps, StoreAt;
    FlushCommitLine(s, s', i, seqno);
    var batch := s.flights[0].batch;
    StoredIs(s.world, s.jobs, s.commits);
    FoldIsSequential(s.world, s.jobs, batch, Committed(s.commits));
    CommitsExtend(s.world, s.jobs, s.commits, s'.commits[|s.commits|]);
    assert s'.commits[..|s.commits|] == s.commits;
  }

  lemma FlushCommitDurable(s: State, s': State, i: nat, seqno: nat)
    requires Inv(s) && FlushCommit(s, s', i, seqno)
    ensures DurableJobs(s'.commits, s'.durable) >= DurableJobs(s.commits, s.durable)
  {
    hide AllSound, ReaderOk, WritersOk, BooksOk, PipelineOk, WaitersOk, Conserved, Replay, FoldOps;
    var n, d := |s.commits|, DurablePrefix(s.commits, s.durable);
    assert s'.commits[..n] == s.commits;
    if seqno <= s.durable {
      assert s'.commits[..n + 1] == s'.commits;
      assert d > 0 ==> s.commits[..d][d - 1] == s.commits[d - 1];
      assert s.commits[..n] == s.commits;
    } else {
      assert s'.commits[..d] == s.commits[..d];
    }
  }

  lemma WriterSeesCommit(s: State, s': State, batch: seq<nat>, p: ByteString)
    requires AllSound(s.world, s.jobs) && p in s.writers && WriterOk(s.world, s.jobs, s.commits, p, s.writers[p])
    requires s'.world == s.world && s'.jobs == s.jobs && s'.writers == s.writers
    requires Consecutive(batch, Committed(s.commits))
             && Committed(s.commits) + |batch| == Committed(s'.commits) <= |s.jobs|
    requires Stored(s') == Apply(Stored(s), FoldOps(s.jobs, batch))
    ensures WriterOk(s'.world, s'.jobs, s'.commits, p, s'.writers[p])
  {
    hide AllSound, Replay, FoldOps, Reflects, Apply, StoreAt;
    var x := s.writers[p];
    FoldTouches(s.world, s.jobs, batch, p, x);
    LandingKeepsView(x, Stored(s), Virtual(s), FoldOps(s.jobs, batch));
  }

  lemma FlushCommitWriters(s: State, s': State, i: nat, seqno: nat)
    requires Inv(s) && FlushCommit(s, s', i, seqno)
    ensures WritersOk(s'.world, s'.jobs, s'.commits, s'.writers)
  {
    FlushCommitLine(s, s', i, seqno);
    FlushCommitHistory(s, s', i, seqno);
    hide AllSound, CommitsOk, ReaderOk, BooksOk, PipelineOk, WaitersOk, Conserved, Replay, FoldOps, Apply, StoreAt,
         WriterOk, FlushOk, BacklogOk, PollerOk, DurableOk, DurableJobs;
    forall p | p in s'.writers ensures WriterOk(s'.world, s'.jobs, s'.commits, p, s'.writers[p]) {
      WriterSeesCommit(s, s', s.flights[0].batch, p);
    }
  }

  lemma FlushCommitKeepsInv(s: State, s': State, i: nat, seqno: nat)
    requires Inv(s) && FlushCommit(s, s', i, seqno)
    ensures Inv(s')
  {
    hide AllSound, CommitsOk, ReaderOk, BooksOk, BacklogOk, WritersOk, WaitersOk, Replay, FoldOps, Pipeline, Places,
         DurableJobs;
    FlushCommitLine(s, s', i, seqno);
    FlushCommitHistory(s, s', i, seqno);
    FlushCommitDurable(s, s', i, seqno);
    FlushCommitWriters(s, s', i, seqno);
    FlushCommitWaiters(s, s', i, seqno);
  }

  lemma FlushCommitWaiters(s: State, s': State, i: nat, seqno: nat)
    requires Inv(s) && FlushCommit(s, s', i, seqno)
    ensures WaitersOk(s'.commits, s'.flights, s'.notifier.waiters)
  {
    hide AllSound, CommitsOk, ReaderOk, BooksOk, BacklogOk, WritersOk, Replay, FoldOps, Pipeline, Places, DurableJobs,
         Conserved, DurableOk, PipelineOk, PollerOk, CoveredBy, Sorted;
    FlushCommitLine(s, s', i, seqno);
    var ws := s.notifier.waiters;
    forall x | 0 <= x < |ws| ensures CoveredBy(s'.commits, ws[x]) {
      CoveredStays(s.commits, s'.commits[|s.commits|], ws[x]);
    }
  }

  lemma CoveredStays(commits: seq<Commit>, c: Commit, w: Waiter)
    requires CoveredBy(commits, w)
    ensures CoveredBy(commits + [c], w)
  {
    var y :| 0 <= y < |commits| && commits[y].seqno <= w.target && w.job < commits[y].upTo;
    assert (commits + [c])[y] == commits[y];
  }

  // A submitted burst.

  function JobFor(s: State, path: ByteString, now: nat, burst: CommitBurst): Job
    requires path in s.writers
  {
    Job(path, s.writers[path].meta, s.writers[path].writeTail, burst, now)
  }

  /** The state between planning a burst and the committer's critical section. */
  ghost predicate Enters(s: State, t: State, path: ByteString, reqs: seq<Request>, now: nat, x: Writer,
          burst: CommitBurst)
  {
    && Inv(s) && path in s.writers && MetaAt(Virtual(s), s.writers[path].path).Some?
    && Planned(s.writers[path], Stored(s), Virtual(s), reqs, now, x, burst) && burst.ops != map[]
    && t == Submitted(s, path, x, JobFor(s, path, now, burst))
  }

  lemma AcksOfBurst(v: Keyspace, path: ByteString, events: seq<Event>)
    requires MetaAt(v, path).Some?
    ensures var o := AppendAll(v, path, events);
            var id := MetaAt(v, path).value.id;
            && TailAt(o.store, id) == TailAt(v, id) + |AcceptedRecords(events, o.accepted)|
            && forall i :: 0 <= i < |events| && o.accepted[i] ==>
                 o.responses[i].next
                 == Offset(TailAt(v, id) + |AcceptedRecords(events[..i + 1], o.accepted[..i + 1])|, 0)
  {
    RunExtendsLog(v, path, events);
    var o, id := AppendAll(v, path, events), MetaAt(v, path).value.id;
    hide AppendAll, AcceptedRecords;
    forall i | 0 <= i < |events| && o.accepted[i]
      ensures o.responses[i].next == Offset(TailAt(v, id) + |AcceptedRecords(events[..i + 1], o.accepted[..i + 1])|, 0)
    {
      AckIsOwnEnd(v, path, events, i);
    }
  }

  lemma PlannedIsWellAnswered(j: Job, x: Writer, store: Keyspace, v: Keyspace, reqs: seq<Request>, x': Writer)
    requires Reflects(x, store, v) && Planned(x, store, v, reqs, j.now, x', j.burst) && j.base == x.writeTail
    ensures WellAnswered(j)
  {
    var events := Stamp(reqs, j.now);
    AcksOfBurst(v, x.path, events);
    hide AppendAll, AcceptedRecords, BatchOf, Apply;
    assert events[..|events|] == events && j.burst.accepted[..|events|] == j.burst.accepted;
  }

  lemma SubmitIsSound(s: State, t: State, path: ByteString, reqs: seq<Request>, now: nat, x: Writer, burst: CommitBurst)
    requires Enters(s, t, path, reqs, now, x, burst)
    ensures AllSound(t.world, t.jobs)
  {
    var w, j, n := s.writers[path], JobFor(s, path, now, burst), |s.jobs|;
    assert WriterOk(s.world, s.jobs, s.commits, path, w);
    PlannedIsWellAnswered(j, w, Stored(s), Virtual(s), reqs, x);
    StoreHoldsLog(s.world, s.jobs, path, n);
    LogPrefix(s.world, s.jobs, t.jobs, path, n);
    hide BatchOf, Apply, AppendAll, LogAt, StoreAt, Replay, CommitsOk, ReaderOk, BooksOk, Conserved, PipelineOk,
         WaitersOk, FlushOk, BacklogOk, WellAnswered;
    assert Sound(t.world, t.jobs, n);
    ExtendSound(s.world, s.jobs, j);
  }

  /** The history so far reads the same with one more job submitted. */
  lemma HistoryWidens(w: World, jobs: seq<Job>, j: Job, commits: seq<Commit>, published: nat,
          readerTail: map<ByteString, nat>)
    requires CommitsOk(w, jobs, commits) && ReaderOk(w, jobs, published, readerTail)
    ensures CommitsOk(w, jobs + [j], commits) && ReaderOk(w, jobs + [j], published, readerTail)
    ensures StoreAt(w, jobs + [j], |jobs| + 1) == Apply(StoreAt(w, jobs, |jobs|), j.burst.ops)
  {
    var more := jobs + [j];
    StorePrefix(w, jobs, more, |jobs|);
    forall i | 0 <= i <= |commits|
      ensures Committed(commits[..i]) <= |more|
              && Replay(w.store, commits[..i]) == StoreAt(w, more, Committed(commits[..i]))
    {
      StorePrefix(w, jobs, more, Committed(commits[..i]));
    }
    forall p | p in readerTail ensures readerTail[p] == |LogAt(w, more, p, published)| {
      LogPrefix(w, jobs, more, p, published);
    }
  }

  lemma PublishedBound(s: State)
    requires Inv(s)
    ensures s.published <= Committed(s.commits) <= |s.jobs|
  {
    hide AllSound, CommitsOk, WritersOk, WaitersOk, PollerOk, DurableOk, FlushOk, BacklogOk, DurableJobs, Conserved,
         ReaderOk, BooksOk, StoreAt, Replay;
    StoredIs(s.world, s.jobs, s.commits);
  }

  /** The submitting streamer reflects the state its own burst leads to. */
  lemma SubmitKeepsOwnWriter(w: World, jobs: seq<Job>, commits: seq<Commit>, path: ByteString, x0: Writer,
          reqs: seq<Request>, now: nat, x: Writer, j: Job)
    requires WriterOk(w, jobs, commits, path, x0)
    requires Planned(x0, Replay(w.store, commits), StoreAt(w, jobs, |jobs|), reqs, now, x, j.burst)
    requires StoreAt(w, jobs + [j], |jobs| + 1) == Apply(StoreAt(w, jobs, |jobs|), j.burst.ops)
    ensures WriterOk(w, jobs + [j], commits, path, x)
  {
    hide BatchOf, Apply, AppendAll, Reflects, Replay, StoreAt, AcceptedRecords;
  }

  /** Another stream's burst does not concern a streamer. */
  lemma SubmitKeepsOtherWriter(w: World, jobs: seq<Job>, commits: seq<Commit>, j: Job, p: ByteString, y: Writer)
    requires AllSound(w, jobs + [j]) && j.path != p
    requires WriterOk(w, jobs, commits, p, y)
    ensures WriterOk(w, jobs + [j], commits, p, y)
  {
    var n, more := |jobs|, jobs + [j];
    StorePrefix(w, jobs, more, n);
    hide Reflects, Replay, StoreAt, AllSound;
    var v, v' := StoreAt(w, jobs, n), StoreAt(w, more, n + 1);
    forall key | OwnKey(p, y.meta.id, key) ensures Get(v', key) == Get(v, key) {
      OthersKeepAway(w, more, p, n, n + 1, key);
    }
    ReflectsAgree(y, Replay(w.store, commits), Replay(w.store, commits), v, v');
  }

  lemma SubmitKeepsWriters(s: State, t: State, path: ByteString, reqs: seq<Request>, now: nat, x: Writer,
          burst: CommitBurst)
    requires Enters(s, t, path, reqs, now, x, burst)
    ensures WritersOk(t.world, t.jobs, t.commits, t.writers)
  {
    hide Planned, BooksOk, Conserved, PipelineOk, WaitersOk, FlushOk, BacklogOk, DurableOk, PollerOk, CommitsOk,
         ReaderOk, WriterOk, AllSound, DurableJobs, Pipeline, Replay, StoreAt, Apply;
    SubmitIsSound(s, t, path, reqs, now, x, burst);
    var j := JobFor(s, path, now, burst);
    HistoryWidens(s.world, s.jobs, j, s.commits, s.published, s.readerTail);
    assert s.writers[path].path == path by {
      WriterIsAt(s, path);
    }
    SubmitKeepsOwnWriter(s.world, s.jobs, s.commits, path, s.writers[path], reqs, now, x, j);
    forall p | p in t.writers ensures WriterOk(t.world, t.jobs, t.commits, p, t.writers[p]) {
      if p != path {
        SubmitKeepsOtherWriter(s.world, s.jobs, s.commits, j, p, s.writers[p]);
      }
    }
  }

  lemma WriterIsAt(s: State, path: ByteString)
    requires WritersOk(s.world, s.jobs, s.commits, s.writers) && path in s.writers
    ensures s.writers[path].path == path && path in s.world.ids
  {
    hide Reflects;
  }

  lemma SubmitKeepsBooks(jobs: seq<Job>, fates: seq<Fate>, pending: map<ByteString, int>, first: int, j: Job)
    requires BooksOk(jobs, fates, pending, first) && first <= |jobs|
    ensures BooksOk(jobs + [j], fates + [Unresolved], Count(pending, j.path, 1), first)
  {
    var jobs', fates', pending' := jobs + [j], fates + [Unresolved], Count(pending, j.path, 1);
    forall p | p in pending' ensures pending'[p] == |OpenOf(jobs', fates', p)| {
      assert OpenOf(jobs', fates', p) == OpenOf(jobs, fates, p) + if p == j.path then {|jobs|} else {};
    }
  }

  /** What entering the commit queue may rely on. */
  ghost predicate AtTheDoor(s: State, t: State) {
    && Inv(s) && |s.fates| == |s.jobs| && |t.jobs| == |s.jobs| + 1
    && t == s.(jobs := t.jobs, fates := t.fates, writers := t.writers, pending := t.pending)
    && Shape(t) && CommitsOk(t.world, t.jobs, t.commits) && ReaderOk(t.world, t.jobs, t.published, t.readerTail)
    && WritersOk(t.world, t.jobs, t.commits, t.writers)
       && BooksOk(t.jobs, t.fates, t.pending, First(t.poller, t.published))
    && t.fates == s.fates + [Unresolved]
    && forall k: nat :: Places(t, k) == if k < |s.jobs| && t.fates[k] == Unresolved then 1 else 0
  }

  lemma SubmitReachesTheDoor(s: State, t: State, path: ByteString, reqs: seq<Request>, now: nat, x: Writer,
          burst: CommitBurst)
    requires Enters(s, t, path, reqs, now, x, burst)
    ensures AtTheDoor(s, t)
  {
    hide Planned, AllSound, CommitsOk, ReaderOk, WritersOk, DurableJobs, Places, PipelineOk, WaitersOk, FlushOk,
         BacklogOk, DurableOk, PollerOk, Count, Virtual, Stored, OpenOf;
    SubmitIsSound(s, t, path, reqs, now, x, burst);
    SubmitKeepsWriters(s, t, path, reqs, now, x, burst);
    PublishedBound(s);
    Unmoved(s, t);
    assert |s.fates| == |s.jobs|;
    hide BooksOk;
    var j := JobFor(s, path, now, burst);
    HistoryWidens(s.world, s.jobs, j, s.commits, s.published, s.readerTail);
    SubmitKeepsBooks(s.jobs, s.fates, s.pending, First(s.poller, s.published), j);
  }

  lemma SubmitKeepsInv(s: State, s': State, path: ByteString, reqs: seq<Request>, now: nat, x: Writer,
          burst: CommitBurst)
    requires Inv(s) && Submit(s, s', path, reqs, now, x, burst) && burst.ops != map[]
    ensures Inv(s')
  {
    hide Planned, Inv, Virtual, Stored, AtTheDoor;
    var t := Submitted(s, path, x, JobFor(s, path, now, burst));
    SubmitReachesTheDoor(s, t, path, reqs, now, x, burst);
    match Admit(s.sc, s.cap, |s.jobs|).1 {
      case Rejected => RejectedKeepsInv(s, t, s');
      case Queued => QueuedKeepsInv(s, t, s');
      case Flush(batch) => FlushedKeepsInv(s, t, s', batch);
    }
  }

  lemma ShapeOfBooks(t: State, s': State)
    requires Shape(t) && s' == t.(fates := s'.fates, pending := s'.pending, sc := s'.sc, flights := s'.flights)
             && s'.pending.Keys == t.pending.Keys
    ensures Shape(s')
  {
  }

  lemma RejectedKeepsInv(s: State, t: State, s': State)
    requires AtTheDoor(s, t) && s.sc.closed && Resolves(t.(sc := s.sc), s', |s.jobs|, Failed)
    ensures Inv(s')
  {
    hide Shape, CommitsOk, ReaderOk, WritersOk, WaitersOk, PollerOk, PipelineOk, DurableOk, FlushOk, DurableJobs, Times;
    var n := |s.jobs|;
    ShapeOfBooks(t, s');
    assert t.fates[n] == Unresolved;
    assert BooksOk(s'.jobs, s'.fates, s'.pending, First(s'.poller, s'.published)) by {
      forall p | p in s'.pending ensures s'.pending[p] == |OpenOf(s'.jobs, s'.fates, p)| {
        OpenAfter(t.jobs, t.fates, n, Failed, p);
      }
    }
    assert Conserved(s') by {
      forall k: nat ensures Places(s', k) == if k < |s'.fates| && s'.fates[k] == Unresolved then 1 else 0 {
        assert Places(s', k) == Places(t, k);
      }
    }
    hide BooksOk, Conserved, Places, Consecutive;
  }

  lemma QueuedKeepsInv(s: State, t: State, s': State)
    requires AtTheDoor(s, t) && !s.sc.closed && s.sc.flushing
    requires s' == t.(sc := s.sc.(queue := s.sc.queue + [|s.jobs|]))
    ensures Inv(s')
  {
    hide Shape, CommitsOk, ReaderOk, WritersOk, WaitersOk, PollerOk, PipelineOk, DurableOk, DurableJobs, BooksOk, Times;
    ShapeOfBooks(t, s');
    var n := |s.jobs|;
    assert |s.fates| == n;
    assert Held(s'.flights) + s'.sc.queue == (Held(s.flights) + s.sc.queue) + [n];
    forall k: nat ensures Places(s', k) == if k < |s'.fates| && s'.fates[k] == Unresolved then 1 else 0 {
      TimesConcat(s.sc.queue, [n], k);
      TimesOne(n, k);
      assert Places(s', k) == Places(t, k) + if k == n then 1 else 0;
    }
  }

  lemma TimesOne(n: nat, k: nat)
    ensures Times([n], k) == if k == n then 1 else 0
  {
  }

  lemma FlushedKeepsInv(s: State, t: State, s': State, batch: seq<nat>)
    requires AtTheDoor(s, t) && !s.sc.closed && !s.sc.flushing
    requires Admit(s.sc, s.cap, |s.jobs|) == (s'.sc, Flush(batch))
    requires s' == t.(sc := s'.sc, flights := s.flights + [Holding(batch)])
    ensures Inv(s')
  {
    hide CommitsOk, ReaderOk, WritersOk, PollerOk, PipelineOk, DurableOk, DurableJobs, BooksOk, Times, Sorted,
         CoveredBy, AllSound;
    ShapeOfBooks(t, s');
    var n := |s.jobs|;
    assert |s.fates| == n && s.cap >= 1;
    assert s.sc.queue == [] && batch == [n] && s'.sc.queue == [];
    assert Held(s'.flights) + s'.sc.queue == (Held(s.flights) + s.sc.queue) + [n];
    assert Line(s') == Line(t) == Line(s);
    hide Pipeline;
    forall k: nat ensures Places(s', k) == if k < |s'.fates| && s'.fates[k] == Unresolved then 1 else 0 {
      TimesNone(k);
      TimesOne(n, k);
      assert Places(s', k) == Places(t, k) + if k == n then 1 else 0;
    }
  }

  /** A burst that writes nothing only warms the caches. */
  lemma EmptyBurstKeepsWriter(w: World, jobs: seq<Job>, commits: seq<Commit>, path: ByteString, x0: Writer,
          reqs: seq<Request>, now: nat, x: Writer, burst: CommitBurst)
    requires WriterOk(w, jobs, commits, path, x0) && burst.ops == map[]
    requires Planned(x0, Replay(w.store, commits), StoreAt(w, jobs, |jobs|), reqs, now, x, burst)
    ensures WriterOk(w, jobs, commits, path, x)
  {
    hide BatchOf, AppendAll, Reflects, Replay, StoreAt, AcceptedRecords;
    var v := StoreAt(w, jobs, |jobs|);
    SameContents(Apply(v, burst.ops), v);
    hide Apply;
  }

  lemma EmptySubmitKeepsInv(s: State, s': State, path: ByteString, reqs: seq<Request>, now: nat, x: Writer,
          burst: CommitBurst)
    requires Inv(s) && Submit(s, s', path, reqs, now, x, burst) && burst.ops == map[]
    ensures Inv(s')
  {
    hide Planned, AllSound, CommitsOk, ReaderOk, WaitersOk, PollerOk, PipelineOk, DurableOk, FlushOk, BacklogOk,
         DurableJobs, BooksOk, Times, WriterOk;
    WriterIsAt(s, path);
    EmptyBurstKeepsWriter(s.world, s.jobs, s.commits, path, s.writers[path], reqs, now, x, burst);
    WritersUpdate(s.world, s.jobs, s.commits, s.writers, path, x);
    Unmoved(s, s');
    hide Places, WritersOk, Virtual, Stored;
  }

  // A respawned streamer.

  /** With nothing of a stream failed or unresolved, the store already holds all that was submitted for it. */
  lemma IdleStreamIsStored(s: State, path: ByteString)
    requires Inv(s) && path in s.world.ids
    requires forall k :: 0 <= k < |s.jobs| && s.jobs[k].path == path ==> s.fates[k] == Acked
    ensures forall k :: s.published <= k < |s.jobs| ==> s.jobs[k].path != path
    ensures forall key :: OwnKey(path, s.world.ids[path], key) ==> Get(Virtual(s), key) == Get(Stored(s), key)
    ensures TailAt(Stored(s), s.world.ids[path]) == s.readerTail[path]
  {
    hide AllSound, CommitsOk, WritersOk, WaitersOk, PollerOk, PipelineOk, DurableOk, FlushOk, BacklogOk, DurableJobs,
         Conserved, StoreAt, Replay, LogAt, OpenOf;
    PublishedBound(s);
    StoredIs(s.world, s.jobs, s.commits);
    var c, n := Committed(s.commits), |s.jobs|;
    forall key | OwnKey(path, s.world.ids[path], key) ensures Get(Virtual(s), key) == Get(Stored(s), key) {
      OthersKeepAway(s.world, s.jobs, path, c, n, key);
    }
    StoreHoldsLog(s.world, s.jobs, path, c);
    LogStandsStill(s.world, s.jobs, path, s.published, c);
  }

  lemma SpawnReflects(path: ByteString, store: Keyspace)
    requires MetaAt(store, path).Some?
    ensures Reflects(Spawn(path, store), store, store)
  {
  }

  lemma RespawnReflects(s: State, path: ByteString)
    requires Inv(s) && path in s.world.ids && MetaAt(Stored(s), path).Some?
    requires forall k :: 0 <= k < |s.jobs| && s.jobs[k].path == path ==> s.fates[k] == Acked
    ensures WriterOk(s.world, s.jobs, s.commits, path, Spawn(path, Stored(s)))
  {
    hide AllSound, CommitsOk, ReaderOk, WaitersOk, PollerOk, PipelineOk, DurableOk, FlushOk, BacklogOk, DurableJobs,
         BooksOk, Conserved, StoreAt, Replay, WritersOk, Reflects;
    IdleStreamIsStored(s, path);
    PublishedBound(s);
    StoredIs(s.world, s.jobs, s.commits);
    StreamKeepsId(s.world, s.jobs, path, Committed(s.commits));
    SpawnReflects(path, Stored(s));
    ReflectsAgree(Spawn(path, Stored(s)), Stored(s), Stored(s), Stored(s), Virtual(s));
  }

  lemma RespawnKeepsInv(s: State, s': State, path: ByteString)
    requires Inv(s) && Respawn(s, s', path)
    ensures Inv(s')
    ensures s'.readerTail == s.readerTail
  {
    hide AllSound, CommitsOk, ReaderOk, WaitersOk, PollerOk, PipelineOk, DurableOk, FlushOk, BacklogOk, DurableJobs,
         BooksOk, Places, WritersOk, WriterOk, Virtual, Stored, OwnKey, Spawn;
    IdleStreamIsStored(s, path);
    RespawnReflects(s, path);
    WritersUpdate(s.world, s.jobs, s.commits, s.writers, path, Spawn(path, Stored(s)));
    assert s'.readerTail == s.readerTail;
    Unmoved(s, s');
  }
}
