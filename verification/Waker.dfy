/**
 Waking parked live readers, with coalescing. One publisher stores the tail, the
 closed flag, looks for readers and asks for a wake; a timer may hold a trailing
 wake; any number of readers take the current channel, load the tail and the flag,
 and park. Every atomic access and lock section is a step of its own.
 */
module Waker {

  // ----- the lock sections -----

  /** The fields guarded by the waker's mutex; `armed` is the state of its timer. */
  datatype Gate = Gate(lastWake: int, armed: bool, pending: bool)

  datatype Verdict = Broadcast | Folded | Arm(delay: int)

  function WakeLocked(g: Gate, window: int, now: int): (Gate, Verdict) {
    if now - g.lastWake >= window then (g.(lastWake := now), Broadcast)
    else if g.pending then (g, Folded)
    else (g.(pending := true, armed := true),
         Arm(if window - (now - g.lastWake) < 0 then 0 else window - (now - g.lastWake)))
  }

  function FireLocked(g: Gate, now: int): Gate {
    g.(pending := false, lastWake := now)
  }

  class LiveWaker {
    const window: int
    var lastWake: int
    var armed: bool
    var pending: bool

    ghost function View(): Gate
      reads this
    {
      Gate(lastWake, armed, pending)
    }

    constructor (window: int, longAgo: int)
      ensures this.window == window && View() == Gate(longAgo, false, false)
    {
      this.window := window;
      lastWake, armed, pending := longAgo, false, false;
    }

    /** Wake. A deferred wake comes no later than one window after the last one. */
    method Wake(now: int) returns (v: Verdict)
      modifies this
      ensures window <= 0 ==> v == Broadcast && View() == old(View())
      ensures window > 0 ==> (View(), v) == WakeLocked(old(View()), window, now)
      ensures v.Arm? ==> v.delay > 0 && now + v.delay == lastWake + window
      ensures v == Broadcast <==> window <= 0 || now - old(lastWake) >= window
      ensures v == Broadcast && window > 0 ==> lastWake == now
      ensures v == Folded <==> window > 0 && now - old(lastWake) < window && old(pending)
      ensures v != Broadcast ==> pending && lastWake == old(lastWake)
    {
      if window <= 0 {
        return Broadcast;
      }
      if now - lastWake >= window {
        lastWake := now;
        return Broadcast;
      }
      if pending {
        return Folded;
      }
      pending := true;
      var delay := window - (now - lastWake);
      if delay < 0 {
        delay := 0;
      }
      armed := true;
      return Arm(delay);
    }

    method Fire(now: int)
      modifies this
      ensures View() == FireLocked(old(View()), now) && !pending && lastWake == now && armed == old(armed)
    {
      pending := false;
      lastWake := now;
    }
  }

  // ----- the interleavings -----

  /**
   applyReader: the tail is stored, then (if the burst closed the stream) the flag; then
   readers are looked for and woken.
   */
  datatype Publisher = Quiet | StoredTail(closes: bool) | Checking | Waking | Swapping | Closing(prev: nat)

  /** A timer goroutine: gone off, past its lock section, or with the old channel in hand. */
  datatype Firing = Started | Unlocked | Swapped(prev: nat)

  /** A live reader in LiveCursor.Next: counted; holding a channel; and having loaded the tail, then the flag. */
  datatype Reader =
    | Counted
    | Holding(chan: nat)
    | SawTail(chan: nat, tail: nat)
    | SawBoth(chan: nat, tail: nat, closed: bool)

  datatype State = State(
    window: int,
    tail: nat,
    closed: bool,
    chan: nat,
    shut: set<nat>,
    gate: Gate,
    pub: Publisher,
    fires: map<nat, Firing>,
    readers: map<nat, Reader>)

  ghost predicate Init(s: State) {
    s.chan == 0 && s.shut == {} && !s.gate.armed && !s.gate.pending && s.pub == Quiet && s.fires == map[]
      && s.readers == map[]
  }

  datatype Step =
    | StoreTail(tail: nat, closes: bool)
    | StoreClosed
    | CheckReaders
    | AskWake(now: int)
    | SwapByPublisher
    | CloseByPublisher
    | TimerGoesOff(f: nat)
    | FireLock(f: nat, now: int)
    | SwapByTimer(f: nat)
    | CloseByTimer(f: nat)
    | Enter(r: nat)
    | TakeChannel(r: nat)
    | LoadTail(r: nat)
    | LoadClosed(r: nat)
    | Leave(r: nat)

  ghost predicate Next(s: State, t: State, step: Step) {
    match step
    case StoreTail(tail, closes) => s.pub == Quiet && tail >= s.tail && t == s.(tail := tail, pub := StoredTail(closes))
    case StoreClosed => s.pub.StoredTail? && t == s.(closed := s.closed || s.pub.closes, pub := Checking)
    case CheckReaders => s.pub == Checking && t == s.(pub := if s.readers == map[] then Quiet else Waking)
    case AskWake(now) =>
      && s.pub == Waking
      && if s.window <= 0 then t == s.(pub := Swapping)
         else
           var (g, v) := WakeLocked(s.gate, s.window, now);
           t == s.(gate := g, pub := if v == Broadcast then Swapping else Quiet)
    case SwapByPublisher => s.pub == Swapping && t == s.(chan := s.chan + 1, pub := Closing(s.chan))
    case CloseByPublisher => s.pub.Closing? && t == s.(shut := s.shut + {s.pub.prev}, pub := Quiet)
    case TimerGoesOff(f) => s.gate.armed && f !in s.fires
      && t == s.(gate := s.gate.(armed := false), fires := s.fires[f := Started])
    case FireLock(f, now) => f in s.fires && s.fires[f] == Started
      && t == s.(gate := FireLocked(s.gate, now), fires := s.fires[f := Unlocked])
    case SwapByTimer(f) => f in s.fires && s.fires[f] == Unlocked
      && t == s.(chan := s.chan + 1, fires := s.fires[f := Swapped(s.chan)])
    case CloseByTimer(f) => f in s.fires && s.fires[f].Swapped?
      && t == s.(shut := s.shut + {s.fires[f].prev}, fires := s.fires - {f})
    case Enter(r) => r !in s.readers && t == s.(readers := s.readers[r := Counted])
    case TakeChannel(r) => r in s.readers && Looping(s, s.readers[r])
      && t == s.(readers := s.readers[r := Holding(s.chan)])
    case LoadTail(r) => r in s.readers && s.readers[r].Holding?
      && t == s.(readers := s.readers[r := SawTail(s.readers[r].chan, s.tail)])
    case LoadClosed(r) => r in s.readers && s.readers[r].SawTail?
      && t == s.(readers := s.readers[r := SawBoth(s.readers[r].chan, s.readers[r].tail, s.closed)])
    case Leave(r) => r in s.readers && t == s.(readers := s.readers - {r})
  }

  /** A reader goes round its loop at the start and when the channel it parked on is closed. */
  predicate Looping(s: State, r: Reader) {
    r.Counted? || (r.SawBoth? && r.chan in s.shut)
  }

  // ----- the invariant -----

  /** Someone is on the way to closing channel c. */
  ghost predicate Owed(s: State, c: nat) {
    || s.pub.StoredTail? || s.pub == Checking || s.pub == Waking || s.pub == Swapping || s.pub == Closing(c)
    || s.gate.armed
    || exists f :: f in s.fires && (s.fires[f] == Started || s.fires[f] == Unlocked || s.fires[f] == Swapped(c))
  }

  ghost predicate GateOk(s: State) {
    s.gate.pending ==> s.gate.armed || exists f :: f in s.fires && s.fires[f] == Started
  }

  ghost predicate BeingClosed(s: State, c: nat) {
    s.pub == Closing(c) || exists f :: f in s.fires && s.fires[f] == Swapped(c)
  }

  /** A channel that is no longer current is closed, or about to be by whoever replaced it. */
  ghost predicate ChannelsOk(s: State) {
    && (forall c :: c in s.shut ==> c < s.chan)
    && (forall c: nat :: BeingClosed(s, c) ==> c < s.chan)
    && (forall c: nat :: c < s.chan ==> c in s.shut || BeingClosed(s, c))
  }

  /** There is news for this reader. */
  predicate Behind(s: State, r: Reader) {
    || (r.SawTail? && s.tail > r.tail)
    || (r.SawBoth? && (s.tail > r.tail || (s.closed && !r.closed)))
  }

  ghost predicate ReaderOk(s: State, r: Reader) {
    && (!r.Counted? ==> r.chan <= s.chan)
    && (Behind(s, r) && r.chan !in s.shut ==> Owed(s, r.chan))
  }

  ghost predicate Inv(s: State) {
    GateOk(s) && ChannelsOk(s) && forall i :: i in s.readers ==> ReaderOk(s, s.readers[i])
  }

  // ----- every step keeps it -----

  /** Whatever owed a wake still owes it. */
  lemma ReadersStillOwed(s: State, t: State)
    requires Inv(s) && t.readers == s.readers && t.tail == s.tail && t.closed == s.closed && s.chan <= t.chan
             && s.shut <= t.shut
    requires forall i ::
               i in s.readers && !s.readers[i].Counted?
               && Owed(s, s.readers[i].chan) && s.readers[i].chan !in t.shut ==>
                 Owed(t, s.readers[i].chan)
    ensures forall i :: i in t.readers ==> ReaderOk(t, t.readers[i])
  {
    forall i | i in t.readers ensures ReaderOk(t, t.readers[i]) {
      assert ReaderOk(s, s.readers[i]);
    }
  }

  lemma PublisherKeepsInv(s: State, t: State, step: Step)
    requires Inv(s) && Next(s, t, step)
    requires step.StoreTail? || step.StoreClosed? || step.CheckReaders? || step.AskWake?
    ensures Inv(t)
  {
    assert forall c: nat :: BeingClosed(s, c) <==> BeingClosed(t, c);
    forall i | i in t.readers ensures ReaderOk(t, t.readers[i]) {
      assert ReaderOk(s, s.readers[i]);
    }
  }

  lemma TimerKeepsInv(s: State, t: State, step: Step)
    requires Inv(s) && Next(s, t, step) && (step.TimerGoesOff? || step.FireLock?)
    ensures Inv(t)
  {
    var f := step.f;
    forall c: nat | BeingClosed(s, c) ensures BeingClosed(t, c) {
      if s.pub != Closing(c) {
        var g :| g in s.fires && s.fires[g] == Swapped(c);
        assert g != f && t.fires[g] == Swapped(c);
      }
    }
    forall c: nat | BeingClosed(t, c) ensures BeingClosed(s, c) {
      if t.pub != Closing(c) {
        var g :| g in t.fires && t.fires[g] == Swapped(c);
        assert g != f && s.fires[g] == Swapped(c);
      }
    }
    assert f in t.fires && (t.fires[f] == Started || t.fires[f] == Unlocked);
    forall c: nat ensures Owed(t, c) {
    }
    hide Owed, BeingClosed;
    ReadersStillOwed(s, t);
  }

  /** A swap takes the current channel out; whoever waits on an older one is served by its own closer. */
  lemma SwapKeepsInv(s: State, t: State, step: Step)
    requires Inv(s) && Next(s, t, step) && (step.SwapByPublisher? || step.SwapByTimer?)
    ensures Inv(t)
  {
    forall c: nat | BeingClosed(s, c) || c == s.chan ensures BeingClosed(t, c) {
      if step.SwapByTimer? && c == s.chan {
        assert t.fires[step.f] == Swapped(c);
      } else if c != s.chan && s.pub != Closing(c) {
        var g :| g in s.fires && s.fires[g] == Swapped(c);
        assert t.fires[g] == Swapped(c);
      }
    }
    forall c: nat | BeingClosed(t, c) ensures BeingClosed(s, c) || c == s.chan {
      if t.pub != Closing(c) {
        var g :| g in t.fires && t.fires[g] == Swapped(c);
        assert c == s.chan || s.fires[g] == Swapped(c);
      }
    }
    assert GateOk(t) by {
      if s.gate.pending && !s.gate.armed {
        var g :| g in s.fires && s.fires[g] == Started;
        assert g in t.fires && t.fires[g] == Started;
      }
    }
    forall i | i in s.readers && !s.readers[i].Counted? && s.readers[i].chan !in t.shut
      ensures Owed(t, s.readers[i].chan)
    {
      assert ReaderOk(s, s.readers[i]);
      ClosedIsOwed(t, s.readers[i].chan);
    }
    hide Owed, BeingClosed;
    ReadersStillOwed(s, t);
  }

  lemma ClosedIsOwed(s: State, c: nat)
    requires BeingClosed(s, c)
    ensures Owed(s, c)
  {
  }

  lemma CloseKeepsInv(s: State, t: State, step: Step)
    requires Inv(s) && Next(s, t, step) && (step.CloseByPublisher? || step.CloseByTimer?)
    ensures Inv(t)
  {
    var prev := if step.CloseByPublisher? then s.pub.prev else s.fires[step.f].prev;
    assert t.shut == s.shut + {prev};
    forall c: nat | BeingClosed(s, c) && c != prev ensures BeingClosed(t, c) {
      if s.pub != Closing(c) {
        var g :| g in s.fires && s.fires[g] == Swapped(c);
        assert g in t.fires && t.fires[g] == Swapped(c);
      }
    }
    assert GateOk(t) by {
      if s.gate.pending && !s.gate.armed {
        var g :| g in s.fires && s.fires[g] == Started;
        assert g in t.fires && t.fires[g] == Started;
      }
    }
    forall c: nat | Owed(s, c) && c != prev ensures Owed(t, c) {
      OwedElsewhere(s, t, step, c, prev);
    }
    assert BeingClosed(s, prev);
    forall c: nat | BeingClosed(t, c) ensures BeingClosed(s, c) {
      if t.pub != Closing(c) {
        var g :| g in t.fires && t.fires[g] == Swapped(c);
        assert g in s.fires && s.fires[g] == Swapped(c);
      }
    }
    hide Owed, BeingClosed;
    ReadersStillOwed(s, t);
  }

  lemma OwedElsewhere(s: State, t: State, step: Step, c: nat, prev: nat)
    requires Next(s, t, step) && (step.CloseByPublisher? || step.CloseByTimer?) && Owed(s, c) && c != prev
    requires prev == if step.CloseByPublisher? then s.pub.prev else s.fires[step.f].prev
    ensures Owed(t, c)
  {
    if exists f :: f in s.fires && (s.fires[f] == Started || s.fires[f] == Unlocked || s.fires[f] == Swapped(c)) {
      var f :| f in s.fires && (s.fires[f] == Started || s.fires[f] == Unlocked || s.fires[f] == Swapped(c));
      assert f in t.fires && t.fires[f] == s.fires[f];
    }
  }

  lemma ReaderStepKeepsInv(s: State, t: State, step: Step)
    requires Inv(s) && Next(s, t, step)
    requires step.Enter? || step.TakeChannel? || step.LoadTail? || step.LoadClosed? || step.Leave?
    ensures Inv(t)
  {
    assert forall c: nat :: (BeingClosed(s, c) <==> BeingClosed(t, c)) && (Owed(s, c) <==> Owed(t, c));
    hide Owed, BeingClosed;
    forall i | i in t.readers ensures ReaderOk(t, t.readers[i]) {
      assert i in s.readers ==> ReaderOk(s, s.readers[i]);
    }
  }

  lemma NextKeepsInv(s: State, t: State, step: Step)
    requires Inv(s) && Next(s, t, step)
    ensures Inv(t)
  {
    hide Inv, Next;
    match step
    case StoreTail(_, _) => PublisherKeepsInv(s, t, step);
    case StoreClosed => PublisherKeepsInv(s, t, step);
    case CheckReaders => PublisherKeepsInv(s, t, step);
    case AskWake(_) => PublisherKeepsInv(s, t, step);
    case SwapByPublisher => SwapKeepsInv(s, t, step);
    case SwapByTimer(_) => SwapKeepsInv(s, t, step);
    case CloseByPublisher => CloseKeepsInv(s, t, step);
    case CloseByTimer(_) => CloseKeepsInv(s, t, step);
    case TimerGoesOff(_) => TimerKeepsInv(s, t, step);
    case FireLock(_, _) => TimerKeepsInv(s, t, step);
    case _ => ReaderStepKeepsInv(s, t, step);
  }

  ghost predicate Run(states: seq<State>, steps: seq<Step>) {
    && |states| == |steps| + 1
    && Init(states[0])
    && forall i :: 0 <= i < |steps| ==> Next(states[i], states[i + 1], steps[i])
  }

  lemma {:induction false} RunKeepsInv(states: seq<State>, steps: seq<Step>, i: nat)
    requires Run(states, steps) && i < |states|
    ensures Inv(states[i])
  {
    if i > 0 {
      hide Inv, Next, Init;
      RunKeepsInv(states, steps, i - 1);
      assert Next(states[i - 1], states[i - 1 + 1], steps[i - 1]);
      NextKeepsInv(states[i - 1], states[i], steps[i - 1]);
    }
  }

  /**
   No lost wakeup. In every state of every run, for every window and interleaving: if
   the channel a reader parked on is still open and the tail or the closed flag has
   moved past what the reader loaded, a wake is owed.
   */
  lemma {:induction false} NoLostWakeup(states: seq<State>, steps: seq<Step>, i: nat, r: nat)
    requires Run(states, steps) && i < |states| && r in states[i].readers && states[i].readers[r].SawBoth?
    ensures var s, x := states[i], states[i].readers[r];
            x.chan !in s.shut && (s.tail > x.tail || (s.closed && !x.closed)) ==> Owed(s, x.chan)
  {
    RunKeepsInv(states, steps, i);
    hide Run, Owed;
    assert ReaderOk(states[i], states[i].readers[r]);
  }

  /** Once nothing is in flight, whoever is still parked has seen everything published. */
  lemma {:induction false} AtRestAllInformed(states: seq<State>, steps: seq<Step>, i: nat, r: nat)
    requires Run(states, steps) && i < |states| && r in states[i].readers && states[i].readers[r].SawBoth?
    requires states[i].pub == Quiet && !states[i].gate.armed && states[i].fires == map[]
    ensures var s, x := states[i], states[i].readers[r];
            x.chan !in s.shut ==> s.tail <= x.tail && (s.closed ==> x.closed)
  {
    NoLostWakeup(states, steps, i, r);
    hide Run;
  }
}
