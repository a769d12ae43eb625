/** KzSTL/SpinMutex.h as a state machine: a lock that spins and then blocks on its state word, for any
    number of threads, one event per atomic operation, sequentially consistent. `wait` blocks only if
    the word still has the old value, is unblocked by a notification or spuriously, and then looks
    at the word again, as `std::atomic::wait` is specified. */
module SpinMutex {
  import opened Common

  const FREE: nat := 0
  const LOCKED: nat := 1
  const CONTENDED: nat := 2
  const SPINS: nat := 64

  /** What a thread does next: `lock` goes through the middle states, `unlock` through the last two. */
  datatype Pc =
    | Idle
    | TryCas
    | FastCas
    | SpinLoad(i: nat)
    | SpinCas(i: nat)
    | Exchange
    | WaitCheck
    | Blocked
    | Critical
    | Unlocking
    | Notifying

  /** `holder` is history that no step reads: the thread that has the lock. */
  datatype State = State(word: nat, threads: map<nat, Pc>, holder: Option<nat>)

  /** `Notify` picks the thread to wake, if any is blocked; `Spurious` wakes one for no reason. */
  datatype Event =
    | StartLock(id: nat)
    | StartTryLock(id: nat)
    | StartUnlock(id: nat)
    | Step(id: nat)
    | Notify(id: nat, wake: Option<nat>)
    | Spurious(id: nat)

  ghost predicate Init(s: State) {
    s.word == FREE && s.holder == None && forall id | id in s.threads :: s.threads[id] == Idle
  }

  predicate Is(s: State, id: nat, pc: Pc) { id in s.threads && s.threads[id] == pc }

  ghost predicate Enabled(s: State, e: Event) {
    match e
    case StartLock(id) => Is(s, id, Idle)
    case StartTryLock(id) => Is(s, id, Idle)
    case StartUnlock(id) => Is(s, id, Critical)
    case Step(id) => id in s.threads && Runs(s.threads[id])
    case Notify(id, wake) =>
      Is(s, id, Notifying) && if wake == None then forall w :: !Is(s, w, Blocked) else Is(s, wake.value, Blocked)
    case Spurious(id) => Is(s, id, Blocked)
  }

  predicate Runs(pc: Pc) { !pc.Idle? && !pc.Critical? && !pc.Blocked? && !pc.Notifying? }

  /** Spinning gives up after the last turn. */
  function Spin(i: nat): Pc { if i < SPINS then SpinLoad(i) else Exchange }

  function Goto(s: State, id: nat, pc: Pc): State { s.(threads := s.threads[id := pc]) }

  function Acquire(s: State, id: nat, word: nat): State {
    State(word, s.threads[id := Critical], Some(id))
  }

  function Next(s: State, e: Event): State
    requires e.Step? ==> e.id in s.threads
  {
    match e
    case StartLock(id) => Goto(s, id, FastCas)
    case StartTryLock(id) => Goto(s, id, TryCas)
    case StartUnlock(id) => Goto(s, id, Unlocking)
    case Notify(id, wake) => if wake == None then Goto(s, id, Idle) else Goto(Goto(s, wake.value, WaitCheck), id, Idle)
    case Spurious(id) => Goto(s, id, WaitCheck)
    case Step(id) =>
      match s.threads[id]
      case TryCas => if s.word == FREE then Acquire(s, id, LOCKED) else Goto(s, id, Idle)
      case FastCas => if s.word == FREE then Acquire(s, id, LOCKED) else Goto(s, id, Spin(0))
      case SpinLoad(i) => Goto(s, id, if s.word == FREE then SpinCas(i) else Spin(i + 1))
      case SpinCas(i) => if s.word == FREE then Acquire(s, id, LOCKED) else Goto(s, id, Spin(i + 1))
      case Exchange => if s.word == FREE then Acquire(s, id, CONTENDED) else Goto(s, id, WaitCheck).(word := CONTENDED)
      case WaitCheck => Goto(s, id, if s.word == CONTENDED then Blocked else Exchange)
      case Unlocking => Goto(s, id, if s.word == CONTENDED then Notifying else Idle).(word := FREE, holder := None)
      case _ => s
  }

  // ---------------------------------------------------------------- the invariant

  predicate Holds(pc: Pc) { pc.Critical? || pc.Unlocking? }

  /** The word says whether the lock is held, and only the holder is past `lock`. */
  ghost predicate Exclusion(s: State) {
    && s.word <= CONTENDED
    && (s.word == FREE <==> s.holder == None)
    && (s.holder.Some? ==> s.holder.value in s.threads && Holds(s.threads[s.holder.value]))
    && (forall id | id in s.threads && Holds(s.threads[id]) :: s.holder == Some(id))
  }

  /** About to notify, or about to look at the word again or to write 2 into it. */
  predicate Attentive(s: State, id: nat) {
    id in s.threads && (s.threads[id].Notifying? || s.threads[id].WaitCheck? || s.threads[id].Exchange?)
  }

  /** No wakeup is lost: while some thread is blocked, either the word tells the holder to notify or
      somebody is attentive. */
  ghost predicate NoLostWakeup(s: State) {
    (exists id :: Is(s, id, Blocked)) ==> s.word == CONTENDED || exists id :: Attentive(s, id)
  }

  ghost predicate Inv(s: State) { Exclusion(s) && NoLostWakeup(s) }

  lemma ExclusionKept(s: State, e: Event)
    requires Exclusion(s) && Enabled(s, e)
    ensures Exclusion(Next(s, e))
  {
  }

  lemma AttentiveStays(s: State, e: Event, id: nat)
    requires Enabled(s, e) && Attentive(s, id) && !(e.Step? && e.id == id) && !(e.Notify? && e.id == id)
    ensures Attentive(Next(s, e), id)
  {
  }

  lemma NoLostWakeupKept(s: State, e: Event)
    requires Inv(s) && Enabled(s, e)
    ensures NoLostWakeup(Next(s, e))
  {
    var s' := Next(s, e);
    if b :| Is(s', b, Blocked) && s'.word != CONTENDED {
      if e.Notify? {
        if e.wake == None {
          assert Is(s, b, Blocked);
        } else {
          assert Attentive(s', e.wake.value);
        }
      } else if e.Spurious? || (e.Step? && Attentive(s', e.id)) {
        assert Attentive(s', e.id);
      } else {
        assert Is(s, b, Blocked);
        var a :| Attentive(s, a);
        AttentiveStays(s, e, a);
      }
    }
  }

  lemma NextInv(s: State, e: Event)
    requires Inv(s) && Enabled(s, e)
    ensures Inv(Next(s, e))
  {
    ExclusionKept(s, e);
    NoLostWakeupKept(s, e);
  }

  // ---------------------------------------------------------------- what every run guarantees

  /** A run: the states visited and the events between them, interleaved in any way. */
  ghost predicate IsRun(run: seq<State>, events: seq<Event>) {
    && |run| == |events| + 1
    && Init(run[0])
    && forall i | 0 <= i < |events| :: Enabled(run[i], events[i]) && run[i + 1] == Next(run[i], events[i])
  }

  lemma {:induction false} RunInv(run: seq<State>, events: seq<Event>, k: nat)
    requires IsRun(run, events) && k < |run|
    ensures Inv(run[k])
  {
    if k > 0 {
      RunInv(run, events, k - 1);
      NextInv(run[k - 1], events[k - 1]);
    }
  }

  /** Two threads are never both between `lock` or a successful `try_lock` and the end of `unlock`'s exchange. */
  lemma MutualExclusion(run: seq<State>, events: seq<Event>, k: nat, a: nat, b: nat)
    requires IsRun(run, events) && k < |run|
    requires a in run[k].threads && b in run[k].threads && Holds(run[k].threads[a]) && Holds(run[k].threads[b])
    ensures a == b
  {
    RunInv(run, events, k);
  }

  /** `try_lock` succeeds exactly when nobody holds the lock. */
  lemma TryLockIsExact(s: State, id: nat)
    requires Inv(s) && Is(s, id, TryCas)
    ensures Is(Next(s, Step(id)), id, Critical) <==> forall h | h in s.threads :: !Holds(s.threads[h])
    ensures Is(Next(s, Step(id)), id, Critical) || Is(Next(s, Step(id)), id, Idle)
  {
  }

  predicate InsideLock(pc: Pc) {
    pc.FastCas? || pc.SpinLoad? || pc.SpinCas? || pc.Exchange? || pc.WaitCheck? || pc.Blocked?
  }

  /** While the lock is free, not all threads that want it are asleep for good: some thread is running
      that will take the lock or wake a sleeper. */
  lemma FreeLockIsNotSleptOn(run: seq<State>, events: seq<Event>, k: nat)
    requires IsRun(run, events) && k < |run|
    requires run[k].holder == None && exists id :: id in run[k].threads && InsideLock(run[k].threads[id])
    ensures exists id :: id in run[k].threads && !run[k].threads[id].Blocked? && (InsideLock(run[k].threads[id]) || run[k].threads[id].Notifying?)
  {
    RunInv(run, events, k);
    var s := run[k];
    var id :| id in s.threads && InsideLock(s.threads[id]);
    if s.threads[id].Blocked? {
      assert Is(s, id, Blocked);
      var a :| Attentive(s, a);
      assert a in s.threads && !s.threads[a].Blocked? && (InsideLock(s.threads[a]) || s.threads[a].Notifying?);
    }
  }

  /** A thread that is in `lock` and awake takes a free lock within two steps of its own. */
  lemma FreeLockIsTaken(s: State, id: nat)
    requires s.word == FREE && id in s.threads && InsideLock(s.threads[id]) && !s.threads[id].Blocked?
    ensures var s1 := Next(s, Step(id)); Is(s1, id, Critical) || Is(Next(s1, Step(id)), id, Critical)
  {
  }

  /** With everybody else asleep, idle or in the critical section, the holder's `unlock` finds that
      it has to notify, and whichever sleeper it wakes gets the lock and leaves the word at 2, so
      that its own `unlock` will wake the next one. */
  lemma UnlockHandsOver(s: State, h: nat, w: nat)
    requires Inv(s) && Is(s, h, Critical) && Is(s, w, Blocked)
    requires forall id | id in s.threads :: s.threads[id].Idle? || s.threads[id].Critical? || s.threads[id].Blocked?
    ensures var s1 := Next(s, StartUnlock(h)); var s2 := Next(s1, Step(h)); var s3 := Next(s2, Notify(h, Some(w)));
            var s4 := Next(s3, Step(w)); var s5 := Next(s4, Step(w));
            && Enabled(s, StartUnlock(h)) && Enabled(s1, Step(h)) && Enabled(s2, Notify(h, Some(w)))
            && Enabled(s3, Step(w)) && Enabled(s4, Step(w))
            && s5.word == CONTENDED && s5.holder == Some(w) && s5.threads == s.threads[h := Idle][w := Critical]
  {
    assert forall id :: !Attentive(s, id);
    var s1 := Next(s, StartUnlock(h));
    var s2 := Next(s1, Step(h));
    var s3 := Next(s2, Notify(h, Some(w)));
    var s4 := Next(s3, Step(w));
    assert s2.threads[h] == Notifying && s3.threads[w] == WaitCheck && s4.threads[w] == Exchange;
  }

  // ---------------------------------------------------------------- what an operation achieves

  /** `lock` returns only with the lock. */
  lemma LockReturnsWithLock(s: State, e: Event, id: nat)
    requires Enabled(s, e) && id in s.threads && InsideLock(s.threads[id])
    ensures var s' := Next(s, e);
            id in s'.threads && (InsideLock(s'.threads[id]) || (s'.threads[id].Critical? && s'.holder == Some(id) && s.word == FREE))
  {
  }

  /** `unlock` sets the lock free, and goes on to notify exactly if the word said that somebody may be waiting. */
  lemma UnlockFrees(s: State, id: nat)
    requires Inv(s) && Is(s, id, Unlocking)
    ensures s.holder == Some(id)
    ensures var s' := Next(s, Step(id));
            && s'.word == FREE && s'.holder == None
            && s'.threads == s.threads[id := if s.word == CONTENDED then Notifying else Idle]
  {
  }

  /** `n` steps of a thread that nobody disturbs. */
  ghost function Alone(s: State, id: nat, n: nat): State
    decreases n
  {
    if n == 0 || !Enabled(s, Step(id)) then s else Alone(Next(s, Step(id)), id, n - 1)
  }

  /** A thread in `lock` whose lock stays held looks `SPINS` times, marks the word and sleeps. */
  lemma {:induction false} SpinsThenSleeps(s: State, id: nat, i: nat)
    requires i < SPINS && Is(s, id, SpinLoad(i)) && s.word != FREE
    ensures Alone(s, id, SPINS - i + 2) == s.(word := CONTENDED, threads := s.threads[id := Blocked])
    decreases SPINS - i
  {
    var s1 := Next(s, Step(id));
    assert s1 == Goto(s, id, Spin(i + 1));
    if i + 1 < SPINS {
      SpinsThenSleeps(s1, id, i + 1);
      assert s.threads[id := SpinLoad(i + 1)][id := Blocked] == s.threads[id := Blocked];
    } else {
      var s2 := Next(s1, Step(id));
      var s3 := Next(s2, Step(id));
      assert Alone(s, id, 3) == Alone(s1, id, 2) == Alone(s2, id, 1) == Alone(s3, id, 0);
      assert s3.threads == s.threads[id := Blocked];
    }
  }

  /** An undisturbed `lock` takes a free lock at once, and goes to sleep on a held one with the word at 2, so that
      its holder will notify. */
  lemma LockTakesOrSleeps(s: State, id: nat)
    requires Enabled(s, StartLock(id))
    ensures s.word == FREE ==>
              Alone(Next(s, StartLock(id)), id, 1) == State(LOCKED, s.threads[id := Critical], Some(id))
    ensures s.word != FREE ==>
              Alone(Next(s, StartLock(id)), id, SPINS + 3) == s.(word := CONTENDED, threads := s.threads[id := Blocked])
  {
    var s1 := Next(s, StartLock(id));
    var s2 := Next(s1, Step(id));
    assert Alone(s1, id, 1) == Alone(s2, id, 0);
    if s.word != FREE {
      assert s2 == Goto(s1, id, SpinLoad(0));
      SpinsThenSleeps(s2, id, 0);
      assert Alone(s1, id, SPINS + 3) == Alone(s2, id, SPINS + 2);
      assert s2.threads[id := Blocked] == s.threads[id := Blocked];
    } else {
      assert s2.threads == s.threads[id := Critical];
    }
  }
}
