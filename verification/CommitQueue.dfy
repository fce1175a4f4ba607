/**
 The two mutex-guarded objects of notifier-mode durability: the shared commit
 queue and the watermark's waiter list. Jobs are named by their submission
 number. Each critical section is a function of the guarded state and a method
 that computes it in place.
 */
module CommitQueue {
  import opened Bytes

  // ----- the shared commit queue -----

  datatype Committer = Committer(queue: seq<nat>, flushing: bool, closed: bool)

  datatype Admission = Rejected | Queued | Flush(batch: seq<nat>)

  /** How many jobs one physical commit takes from a queue of this length. */
  function BatchSize(length: nat, cap: nat): (n: nat)
    ensures n <= length && n <= cap
    ensures n < length ==> n == cap
  {
    if length <= cap then length else cap
  }

  function Admit(c: Committer, cap: nat, job: nat): (Committer, Admission) {
    var q := c.queue + [job];
    var n := BatchSize(|q|, cap);
    if c.closed then (c, Rejected)
    else if c.flushing then (c.(queue := q), Queued)
    else (Committer(q[n..], true, false), Flush(q[..n]))
  }

  function NextBatch(c: Committer, cap: nat): (Committer, Option<seq<nat>>) {
    var n := BatchSize(|c.queue|, cap);
    if c.queue == [] then (c.(flushing := false), None)
    else (c.(queue := c.queue[n..]), Some(c.queue[..n]))
  }

  function Shut(c: Committer): (Committer, seq<nat>) {
    (c.(queue := [], closed := true), c.queue)
  }

  class SharedCommitter {
    const batchMax: nat
    var pending: seq<nat>
    var flushing: bool
    var closed: bool

    ghost function State(): Committer
      reads this
    {
      Committer(pending, flushing, closed)
    }

    constructor (batchMax: int)
      ensures this.batchMax == if batchMax <= 0 then 512 else batchMax
      ensures State() == Committer([], false, false)
    {
      this.batchMax := if batchMax <= 0 then 512 else batchMax;
      pending, flushing, closed := [], false, false;
    }

    /** takeBatchLocked: the front of the queue, never more than the cap. */
    method TakeBatch() returns (batch: seq<nat>)
      modifies this`pending
      ensures batch + pending == old(pending)
      ensures |batch| == BatchSize(|old(pending)|, batchMax)
    {
      if |pending| <= batchMax {
        batch := pending;
        pending := [];
      } else {
        batch := pending[..batchMax];
        pending := pending[batchMax..];
      }
    }

    /** The critical section of commit. */
    method Enqueue(job: nat) returns (a: Admission)
      modifies this
      ensures (State(), a) == old(Admit(State(), batchMax, job))
    {
      if closed {
        return Rejected;
      }
      pending := pending + [job];
      if flushing {
        return Queued;
      }
      flushing := true;
      ghost var q := pending;
      var batch := TakeBatch();
      assert batch == q[..|batch|] && pending == q[|batch|..];
      return Flush(batch);
    }

    /** The critical section that ends each round of runFlush. */
    method FinishRound() returns (next: Option<seq<nat>>)
      modifies this
      ensures (State(), next) == old(NextBatch(State(), batchMax))
    {
      if |pending| == 0 {
        flushing := false;
        return None;
      }
      ghost var q := pending;
      var batch := TakeBatch();
      assert batch == q[..|batch|] && pending == q[|batch|..];
      return Some(batch);
    }

    /** The critical section of close: what was still queued is handed back to be failed. */
    method Close() returns (stray: seq<nat>)
      modifies this
      ensures (State(), stray) == old(Shut(State()))
    {
      closed := true;
      stray := pending;
      pending := [];
    }
  }

  // ----- the durability notifier -----

  datatype Waiter = Waiter(target: nat, job: nat)

  datatype Waiting = Waiting(waiters: seq<Waiter>, closed: bool)

  predicate Sorted(ws: seq<Waiter>) {
    forall i, j :: 0 <= i < j < |ws| ==> ws[i].target <= ws[j].target
  }

  /** Subscribers wait in target order, equal targets in the order they subscribed. */
  function InsertWaiter(ws: seq<Waiter>, w: Waiter): (r: seq<Waiter>)
    ensures |r| == |ws| + 1
  {
    if ws == [] || ws[|ws| - 1].target <= w.target then ws + [w]
    else InsertWaiter(ws[..|ws| - 1], w) + [ws[|ws| - 1]]
  }

  /** Inserting at the one place that separates smaller-or-equal from greater targets. */
  lemma {:induction false} InsertPosition(ws: seq<Waiter>, w: Waiter, i: nat)
    requires i <= |ws|
    requires forall j :: 0 <= j < i ==> ws[j].target <= w.target
    requires forall j :: i <= j < |ws| ==> ws[j].target > w.target
    ensures InsertWaiter(ws, w) == ws[..i] + [w] + ws[i..]
  {
    if i == |ws| {
      assert ws[..i] + [w] + ws[i..] == ws + [w];
    } else {
      var front := ws[..|ws| - 1];
      InsertPosition(front, w, i);
      assert front[..i] == ws[..i];
      assert front[i..] + [ws[|ws| - 1]] == ws[i..];
    }
  }

  lemma {:induction false} InsertKeepsOrder(ws: seq<Waiter>, w: Waiter)
    requires Sorted(ws)
    ensures Sorted(InsertWaiter(ws, w))
    ensures multiset(InsertWaiter(ws, w)) == multiset(ws) + multiset{w}
    ensures forall v :: v in InsertWaiter(ws, w) ==> v == w || v in ws
  {
    var i := SplitPoint(ws, w);
    InsertPosition(ws, w, i);
    hide InsertWaiter, Sorted;
    assert ws == ws[..i] + ws[i..];
    BetweenIsSorted(ws[..i], w, ws[i..]);
    BetweenIsOneMore(ws[..i], w, ws[i..]);
  }

  lemma BetweenIsSorted(a: seq<Waiter>, w: Waiter, b: seq<Waiter>)
    requires Sorted(a + b)
    requires forall j :: 0 <= j < |a| ==> a[j].target <= w.target
    requires forall j :: 0 <= j < |b| ==> w.target < b[j].target
    ensures Sorted(a + [w] + b)
  {
    var r, s := a + [w] + b, a + b;
    forall i, j | 0 <= i < j < |r| ensures r[i].target <= r[j].target {
      if j < |a| {
        assert s[i].target <= s[j].target;
      } else if i > |a| {
        assert s[i - 1].target <= s[j - 1].target;
      }
    }
  }

  lemma BetweenIsOneMore(a: seq<Waiter>, w: Waiter, b: seq<Waiter>)
    ensures multiset(a + [w] + b) == multiset(a + b) + multiset{w}
    ensures forall v :: v in a + [w] + b ==> v == w || v in a + b
  {
  }

  /** A sorted list has one place that separates the targets at or below w's from those above. */
  lemma {:induction false} SplitPoint(ws: seq<Waiter>, w: Waiter) returns (i: nat)
    requires Sorted(ws)
    ensures i <= |ws|
    ensures forall j :: 0 <= j < i ==> ws[j].target <= w.target
    ensures forall j :: i <= j < |ws| ==> ws[j].target > w.target
  {
    i := |ws|;
    while i > 0 && ws[i - 1].target > w.target
      invariant i <= |ws| && forall j :: i <= j < |ws| ==> ws[j].target > w.target
    {
      i := i - 1;
    }
  }

  /** How many waiters, from the front, a durable watermark releases. */
  function ReadyCount(ws: seq<Waiter>, durable: nat): (n: nat)
    ensures n <= |ws|
    ensures forall i :: 0 <= i < n ==> ws[i].target <= durable
    ensures n < |ws| ==> ws[n].target > durable
  {
    if ws == [] || ws[0].target > durable then 0 else 1 + ReadyCount(ws[1..], durable)
  }

  class DurabilityNotifier {
    var waiters: seq<Waiter>
    var lastDurable: nat
    var closed: bool

    ghost function State(): Waiting
      reads this
    {
      Waiting(waiters, closed)
    }

    constructor ()
      ensures State() == Waiting([], false) && lastDurable == 0
    {
      waiters, lastDurable, closed := [], 0, false;
    }

    /** sort.Search: the first waiter whose target exceeds the given one. */
    method Search(target: nat) returns (i: nat)
      requires Sorted(waiters)
      ensures i <= |waiters|
      ensures forall j :: 0 <= j < i ==> waiters[j].target <= target
      ensures forall j :: i <= j < |waiters| ==> waiters[j].target > target
    {
      i := 0;
      var hi := |waiters|;
      while i < hi
        invariant i <= hi <= |waiters|
        invariant forall j :: 0 <= j < i ==> waiters[j].target <= target
        invariant forall j :: hi <= j < |waiters| ==> waiters[j].target > target
      {
        var mid := (i + hi) / 2;
        if waiters[mid].target > target {
          hi := mid;
        } else {
          i := mid + 1;
        }
      }
    }

    /** subscribe: refused once closed, otherwise inserted; never fired from here. */
    method Subscribe(target: nat, job: nat) returns (admitted: bool)
      requires Sorted(waiters)
      modifies this`waiters
      ensures Sorted(waiters)
      ensures admitted == !closed
      ensures waiters == if admitted then InsertWaiter(old(waiters), Waiter(target, job)) else old(waiters)
    {
      if closed {
        return false;
      }
      var i := Search(target);
      InsertPosition(waiters, Waiter(target, job), i);
      InsertKeepsOrder(waiters, Waiter(target, job));
      waiters := waiters[..i] + [Waiter(target, job)] + waiters[i..];
      return true;
    }

    /** fire: removes the released prefix; its callbacks run after the lock is dropped. */
    method Fire(durable: nat) returns (ready: seq<Waiter>)
      requires Sorted(waiters)
      modifies this`waiters, this`lastDurable
      ensures Sorted(waiters)
      ensures ready + waiters == old(waiters) && |ready| == ReadyCount(old(waiters), durable)
      ensures lastDurable == if durable > old(lastDurable) then durable else old(lastDurable)
    {
      if durable > lastDurable {
        lastDurable := durable;
      }
      var i := 0;
      while i < |waiters| && waiters[i].target <= durable
        invariant i <= |waiters|
        invariant forall j :: 0 <= j < i ==> waiters[j].target <= durable
      {
        i := i + 1;
      }
      assert ReadyCount(waiters, durable) == i;
      ready := waiters[..i];
      waiters := waiters[i..];
    }

    /** closeAll: every waiter is handed back once, to be failed. */
    method CloseAll() returns (cancelled: seq<Waiter>)
      modifies this
      ensures closed && lastDurable == old(lastDurable)
      ensures waiters == if old(closed) then old(waiters) else []
      ensures cancelled == if old(closed) then [] else old(waiters)
    {
      if closed {
        return [];
      }
      closed := true;
      cancelled := waiters;
      waiters := [];
    }
  }
}
