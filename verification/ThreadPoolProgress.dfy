/** What the loop of a worker of module ThreadPool and a submission achieve when nobody disturbs them: a worker finds
    a job wherever there is one, in the order of the source, and sleeps only if there is none. */
module ThreadPoolProgress {
  import opened Common
  import opened ThreadPool

  /** `n` steps of thread `id`, each with the same choice. */
  ghost function Alone(s: State, id: nat, choice: nat, n: nat): State
    decreases n
  {
    if n == 0 || !Shape(s) || !Enabled(s, Step(id, choice)) then s else Alone(Next(s, Step(id, choice)), id, choice, n - 1)
  }

  lemma AloneTwice(s: State, id: nat, choice: nat, m: nat, n: nat)
    ensures Alone(s, id, choice, m + n) == Alone(Alone(s, id, choice, m), id, choice, n)
    decreases m
  {
    hide Next, Shape, Enabled;
    if m > 0 && Shape(s) && Enabled(s, Step(id, choice)) {
      AloneTwice(Next(s, Step(id, choice)), id, choice, m - 1, n);
    }
  }

  lemma AloneOnce(s: State, id: nat, choice: nat)
    requires Shape(s) && Enabled(s, Step(id, choice))
    ensures Alone(s, id, choice, 1) == Next(s, Step(id, choice))
  {
    hide Next, Shape, Enabled;
    assert Alone(Next(s, Step(id, choice)), id, choice, 0) == Next(s, Step(id, choice));
  }

  /** A step of the worker loop. */
  lemma LoopOnce(s: State, id: nat, choice: nat)
    requires Inv(s) && id in s.threads && InLoop(s.threads[id])
    ensures Shape(s) && Enabled(s, Step(id, choice)) && Inv(LoopStep(s, id, choice))
    ensures Alone(s, id, choice, 1) == LoopStep(s, id, choice)
  {
    hide SleepersInv, StopInv, NothingMissed, SomeoneCares, DequesInv, LoopStep, SleepStep, SubmitStep, StopStep;
    NextInv(s, Step(id, choice));
    AloneOnce(s, id, choice);
  }

  function Length(q: Queue): nat { if q.head < q.tail then q.tail - q.head else 0 }

  // ---------------------------------------------------------------- a worker's own deque

  /** A worker at the top of its loop with jobs in its own deque runs the newest of them. */
  lemma PopIsClaimed(s: State, id: nat, choice: nat)
    requires Inv(s) && Is(s, id, Top) && s.state == RUNNING && Shape(s) && id < s.workers && s.queues[id + 1].tail > 0
    ensures var d, t := s.queues[id + 1], s.queues[id + 1].tail - 1; var s' := Alone(s, id, choice, 2);
            Inv(s') && s' == s.(threads := s.threads[id := PopHead(t)], queues := s.queues[id + 1 := Queue(d.head, t)])
  {
    hide SleepersInv, StopInv, NothingMissed, SomeoneCares, DequesInv, Next, Enabled, Alone;
    LoopOnce(s, id, choice);
    var s1 := LoopStep(s, id, choice);
    assert s1 == Goto(s, id, PopTail);
    LoopOnce(s1, id, choice);
    AloneTwice(s, id, choice, 1, 1);
  }

  /** From where it has lowered the tail. */
  lemma PopEnds(s: State, id: nat, choice: nat, t: nat)
    requires Inv(s) && Is(s, id, PopHead(t)) && Shape(s) && id < s.workers && s.queues[id + 1].tail == t
    ensures var d := s.queues[id + 1];
            && (d.head < t ==> Alone(s, id, choice, 1) == Goto(s, id, Work))
            && (d.head == t ==>
                  Alone(s, id, choice, 3) == s.(threads := s.threads[id := Work], queues := s.queues[id + 1 := Queue(t + 1, t + 1)]))
            && (d.head > t ==>
                  Alone(s, id, choice, 2) == s.(threads := s.threads[id := Grab], queues := s.queues[id + 1 := Queue(d.head, t + 1)]))
  {
    hide SleepersInv, StopInv, NothingMissed, SomeoneCares, DequesInv, Next, Enabled, Alone;
    var d := s.queues[id + 1];
    LoopOnce(s, id, choice);
    var s1 := LoopStep(s, id, choice);
    if d.head >= t {
      LoopOnce(s1, id, choice);
      var s2 := LoopStep(s1, id, choice);
      AloneTwice(s, id, choice, 1, 1);
      if d.head == t {
        assert s2 == s.(threads := s.threads[id := PopRestore(t, true)], queues := s.queues[id + 1 := Queue(t + 1, t)]);
        LoopOnce(s2, id, choice);
        AloneTwice(s, id, choice, 2, 1);
      }
    }
  }

  lemma WorkerRunsOwnJob(s: State, id: nat, choice: nat)
    requires Inv(s) && Is(s, id, Top) && s.state == RUNNING && Shape(s) && id < s.workers && NonEmpty(s.queues[id + 1])
    ensures var d := s.queues[id + 1];
            Alone(s, id, choice, if Length(d) == 1 then 5 else 3)
            == s.(threads := s.threads[id := Work],
                  queues := s.queues[id + 1 := if Length(d) == 1 then Queue(d.tail, d.tail) else Queue(d.head, d.tail - 1)])
  {
    hide SleepersInv, StopInv, NothingMissed, SomeoneCares, DequesInv, Next, Enabled, Alone, LoopStep;
    PopIsClaimed(s, id, choice);
    var d, t := s.queues[id + 1], s.queues[id + 1].tail - 1;
    PopEnds(Alone(s, id, choice, 2), id, choice, t);
    AloneTwice(s, id, choice, 2, if Length(d) == 1 then 3 else 1);
    assert s.threads[id := PopHead(t)][id := Work] == s.threads[id := Work];
  }

  /** With nothing in its own deque it turns to the global queue. */
  lemma WorkerTurnsToGlobal(s: State, id: nat, choice: nat)
    requires Inv(s) && Is(s, id, Top) && s.state == RUNNING && Shape(s) && id < s.workers && !NonEmpty(s.queues[id + 1])
    ensures Alone(s, id, choice, if s.queues[id + 1].tail == 0 then 2 else 4) == s.(threads := s.threads[id := Grab])
  {
    hide SleepersInv, StopInv, NothingMissed, SomeoneCares, Next, Enabled, Alone;
    assert DequeGood(s, id);
    var d := s.queues[id + 1];
    if d.tail > 0 {
      PopIsClaimed(s, id, choice);
      PopEnds(Alone(s, id, choice, 2), id, choice, d.tail - 1);
      AloneTwice(s, id, choice, 2, 2);
      assert s.queues[id + 1 := Queue(d.head, d.tail - 1)][id + 1 := d] == s.queues;
    } else {
      LoopOnce(s, id, choice);
      var s1 := LoopStep(s, id, choice);
      assert s1 == Goto(s, id, PopTail);
      LoopOnce(s1, id, choice);
      AloneTwice(s, id, choice, 1, 1);
    }
  }

  /** What it gets there, it takes: one job to run, the others for its own deque. */
  lemma WorkerTakesBatch(s: State, id: nat, n: nat)
    requires Inv(s) && Is(s, id, Grab) && Shape(s) && id < s.workers
    requires 0 < n <= MAX_BATCH && s.queues[0].head + n <= s.queues[0].tail && s.sleepers == 0
    ensures var g, d := s.queues[0], s.queues[id + 1];
            Alone(s, id, n, if n == 1 then 1 else 4)
            == s.(threads := s.threads[id := Work], queues := s.queues[0 := Queue(g.head + n, g.tail)][id + 1 := Queue(d.head, d.tail + n - 1)])
  {
    hide SleepersInv, StopInv, NothingMissed, SomeoneCares, DequesInv, Next, Enabled, Alone;
    var g, d := s.queues[0], s.queues[id + 1];
    LoopOnce(s, id, n);
    var s1 := LoopStep(s, id, n);
    if n > 1 {
      assert s1 == s.(threads := s.threads[id := GrabHead(n - 1)], queues := s.queues[0 := Queue(g.head + n, g.tail)]);
      BatchIsQueued(s1, id, n);
      AloneTwice(s, id, n, 1, 3);
    } else {
      assert s.queues[0 := Queue(g.head + n, g.tail)][id + 1 := d] == s.queues[0 := Queue(g.head + n, g.tail)];
    }
  }

  lemma BatchIsQueued(s: State, id: nat, n: nat)
    requires Inv(s) && n > 1 && Is(s, id, GrabHead(n - 1)) && Shape(s) && id < s.workers && s.sleepers == 0
    ensures var d := s.queues[id + 1];
            Alone(s, id, n, 3) == s.(threads := s.threads[id := Work], queues := s.queues[id + 1 := Queue(d.head, d.tail + n - 1)])
  {
    hide SleepersInv, StopInv, NothingMissed, SomeoneCares, Next, Enabled, Alone;
    assert DequeGood(s, id);
    var d := s.queues[id + 1];
    LoopOnce(s, id, n);
    var s1 := LoopStep(s, id, n);
    assert s1 == Goto(s, id, GrabTail(n - 1));
    LoopOnce(s1, id, n);
    var s2 := LoopStep(s1, id, n);
    AloneTwice(s, id, n, 1, 1);
    AloneTwice(s, id, n, 2, 1);
    OwnIsRun(s2, id, n);
  }

  lemma OwnIsRun(s: State, id: nat, choice: nat)
    requires Shape(s) && Is(s, id, CheckSleepers(0, true)) && s.sleepers == 0
    ensures Alone(s, id, choice, 1) == Goto(s, id, Work)
  {
    hide Alone, LoopStep, SleepStep, StopStep;
    AloneOnce(s, id, choice);
  }

  // ---------------------------------------------------------------- stealing

  function NextWorker(workers: nat, v: nat): nat { if v + 1 == workers then 0 else v + 1 }

  predicate HasJob(s: State, w: nat)
    requires Shape(s) && w < s.workers
  {
    NonEmpty(s.queues[w + 1])
  }

  /** The first other worker from `v` on, round the circle, that has a job, after `k` have been tried. */
  function Victim(s: State, id: nat, k: nat, v: nat): Option<nat>
    requires Shape(s) && v < s.workers
    decreases s.workers - k
  {
    if k >= s.workers then None
    else if v != id && HasJob(s, v) then Some(v)
    else Victim(s, id, k + 1, NextWorker(s.workers, v))
  }

  /** How the round of a thief ends that starts in state `s`: with a job of the victim's, or in spinning. */
  function Stolen(s: State, id: nat, victim: Option<nat>): State
    requires Shape(s) && (victim.Some? ==> victim.value < s.workers)
  {
    if victim.None? then Goto(s, id, ThreadPool.Spin(0))
    else
      var q := s.queues[victim.value + 1];
      Goto(SetQueue(s, victim.value + 1, q.head + 1, q.tail), id, Work)
  }

  /** The three steps of a `steal`. */
  lemma StealLooks(s: State, id: nat, choice: nat, k: nat, v: nat)
    requires Shape(s) && Is(s, id, StealHead(k, v)) && id < s.workers && v < s.workers && k < s.workers && v != id
    ensures LoopStep(s, id, choice) == Goto(s, id, StealTail(k, v, s.queues[v + 1].head))
  {
  }

  lemma StealSkips(s: State, id: nat, choice: nat, k: nat)
    requires Shape(s) && Is(s, id, StealHead(k, id)) && id < s.workers && k < s.workers
    ensures LoopStep(s, id, choice) == Goto(s, id, StealHead(k + 1, NextWorker(s.workers, id)))
  {
  }

  lemma StealCompares(s: State, id: nat, choice: nat, k: nat, v: nat)
    requires Shape(s) && id < s.workers && v < s.workers && v != id
    ensures var s1 := Goto(s, id, StealTail(k, v, s.queues[v + 1].head));
            && Shape(s1)
            && LoopStep(s1, id, choice)
               == Goto(s, id, if HasJob(s, v) then StealCas(k, v, s.queues[v + 1].head) else StealHead(k + 1, NextWorker(s.workers, v)))
  {
  }

  lemma StealClaims(s: State, id: nat, choice: nat, k: nat, v: nat)
    requires Shape(s) && id < s.workers && v < s.workers && v != id
    ensures var s2 := Goto(s, id, StealCas(k, v, s.queues[v + 1].head));
            Shape(s2) && LoopStep(s2, id, choice) == Stolen(s, id, Some(v))
  {
  }

  /** One worker is tried: a job of it is taken, or the next one is up. */
  lemma StealTries(s: State, id: nat, choice: nat, k: nat, v: nat)
    requires Inv(s) && Is(s, id, StealHead(k, v)) && Shape(s) && id < s.workers && v < s.workers && k < s.workers
    ensures v == id ==> Alone(s, id, choice, 1) == Goto(s, id, StealHead(k + 1, NextWorker(s.workers, v)))
    ensures v != id && !HasJob(s, v) ==> Alone(s, id, choice, 2) == Goto(s, id, StealHead(k + 1, NextWorker(s.workers, v)))
    ensures v != id && HasJob(s, v) ==> Alone(s, id, choice, 3) == Stolen(s, id, Some(v))
  {
    hide SleepersInv, StopInv, NothingMissed, SomeoneCares, DequesInv, Next, Enabled, Alone, Stolen, Shape, HasJob, LoopStep;
    LoopOnce(s, id, choice);
    if v == id {
      StealSkips(s, id, choice, k);
    } else {
      StealLooks(s, id, choice, k, v);
      StealCompares(s, id, choice, k, v);
      StealClaims(s, id, choice, k, v);
      var h := s.queues[v + 1].head;
      var s1 := Goto(s, id, StealTail(k, v, h));
      StealGoesOn(s, s1, id, choice, 1);
      if HasJob(s, v) {
        StealGoesOn(s, Goto(s, id, StealCas(k, v, h)), id, choice, 2);
      }
    }
  }

  lemma StealGoesOn(s: State, s': State, id: nat, choice: nat, n: nat)
    requires s' == Alone(s, id, choice, n) && Inv(s') && id in s'.threads && InLoop(s'.threads[id])
    ensures Shape(s') && Inv(LoopStep(s', id, choice))
    ensures Alone(s, id, choice, n + 1) == LoopStep(s', id, choice)
  {
    hide Inv, Shape, Next, Enabled, Alone, LoopStep;
    LoopOnce(s', id, choice);
    AloneTwice(s, id, choice, n, 1);
  }

  lemma {:induction false} WorkerStealsFirst(s: State, id: nat, choice: nat, k: nat, v: nat) returns (n: nat)
    requires Inv(s) && Is(s, id, StealHead(k, v)) && Shape(s) && id < s.workers && v < s.workers
    ensures Victim(s, id, k, v).Some? ==> Victim(s, id, k, v).value < s.workers
    ensures Alone(s, id, choice, n) == Stolen(s, id, Victim(s, id, k, v))
    decreases s.workers - k
  {
    hide SleepersInv, StopInv, NothingMissed, SomeoneCares, DequesInv, Next, Enabled, Alone, LoopStep;
    if k >= s.workers {
      RoundIsOver(s, id, choice, k, v);
      n := 1;
    } else {
      StealTries(s, id, choice, k, v);
      if v != id && HasJob(s, v) {
        n := 3;
      } else {
        var m := if v == id then 1 else 2;
        var s1 := Goto(s, id, StealHead(k + 1, NextWorker(s.workers, v)));
        StillInv(s, id, choice, m);
        var l := WorkerStealsFirst(s1, id, choice, k + 1, NextWorker(s.workers, v));
        SameVictim(s, s1, id, k + 1, NextWorker(s.workers, v));
        n := m + l;
        AloneTwice(s, id, choice, m, l);
      }
    }
  }

  lemma RoundIsOver(s: State, id: nat, choice: nat, k: nat, v: nat)
    requires Inv(s) && Shape(s) && Is(s, id, StealHead(k, v)) && k >= s.workers
    ensures Alone(s, id, choice, 1) == Goto(s, id, ThreadPool.Spin(0))
  {
    hide SleepersInv, StopInv, NothingMissed, SomeoneCares, DequesInv, Next, Enabled, Alone;
    LoopOnce(s, id, choice);
  }

  lemma {:induction false} StillInv(s: State, id: nat, choice: nat, n: nat)
    requires Inv(s)
    ensures Inv(Alone(s, id, choice, n))
    decreases n
  {
    hide SleepersInv, StopInv, NothingMissed, SomeoneCares, DequesInv, Next, Enabled, Shape;
    if n > 0 && Shape(s) && Enabled(s, Step(id, choice)) {
      NextInv(s, Step(id, choice));
      StillInv(Next(s, Step(id, choice)), id, choice, n - 1);
    }
  }

  lemma {:induction false} SameVictim(s: State, s1: State, id: nat, k: nat, v: nat)
    requires Shape(s) && Shape(s1) && s1.queues == s.queues && s1.workers == s.workers && v < s.workers
    ensures Victim(s1, id, k, v) == Victim(s, id, k, v)
    ensures Victim(s, id, k, v).Some? ==> Victim(s, id, k, v).value < s.workers && HasJob(s, Victim(s, id, k, v).value)
    decreases s.workers - k
  {
    if k < s.workers {
      SameVictim(s, s1, id, k + 1, NextWorker(s.workers, v));
    }
  }

  /** If no other worker has a job the round finds that out, wherever it begins. */
  lemma {:induction false} NothingToSteal(s: State, id: nat, k: nat, v: nat, x: nat)
    requires Shape(s) && v < s.workers && x < s.workers && x != id && Victim(s, id, k, v).None?
    requires Ahead(s.workers, v, x) < s.workers - k
    ensures !HasJob(s, x)
    decreases s.workers - k
  {
    if v != x {
      NothingToSteal(s, id, k + 1, NextWorker(s.workers, v), x);
    }
  }

  /** How many steps round the circle lead from `v` to `x`. */
  function Ahead(workers: nat, v: nat, x: nat): int { if v <= x then x - v else x - v + workers }

  /** A thief whose round comes to nothing has seen every other deque empty. */
  lemma StealsIfItCan(s: State, id: nat, v: nat)
    requires Shape(s) && v < s.workers
    ensures Victim(s, id, 0, v).None? <==> forall x: nat | x < s.workers && x != id :: !HasJob(s, x)
  {
    if Victim(s, id, 0, v).None? {
      forall x: nat | x < s.workers && x != id
        ensures !HasJob(s, x)
      {
        NothingToSteal(s, id, 0, v, x);
      }
    } else {
      SameVictim(s, s, id, 0, v);
      NotItself(s, id, 0, v);
    }
  }

  lemma {:induction false} NotItself(s: State, id: nat, k: nat, v: nat)
    requires Shape(s) && v < s.workers && Victim(s, id, k, v).Some?
    ensures Victim(s, id, k, v).value != id
    decreases s.workers - k
  {
    if !(v != id && HasJob(s, v)) {
      NotItself(s, id, k + 1, NextWorker(s.workers, v));
    }
  }

  /** With nothing in its own deque and nothing in the global queue an undisturbed worker goes round the others, from
      the one that chance has picked: it runs the first job it finds, and spins only if there is none anywhere. */
  lemma WorkerGoesRound(s: State, id: nat, first: nat) returns (n: nat)
    requires Inv(s) && Is(s, id, Top) && s.state == RUNNING && Shape(s) && id < s.workers && first < s.workers
    requires !NonEmpty(s.queues[id + 1]) && !NonEmpty(s.queues[0])
    ensures Victim(s, id, 0, first).Some? ==> Victim(s, id, 0, first).value < s.workers
    ensures Alone(s, id, first, n) == Stolen(s, id, Victim(s, id, 0, first))
  {
    hide SleepersInv, StopInv, NothingMissed, SomeoneCares, DequesInv, Next, Enabled, Alone, LoopStep, KindOk, NonEmpty;
    WorkerTurnsToGlobal(s, id, first);
    var m := if s.queues[id + 1].tail == 0 then 2 else 4;
    StillInv(s, id, first, m);
    var s1 := Goto(s, id, Grab);
    GrabsNothing(s1, id, first);
    AloneTwice(s, id, first, m, 2);
    StillInv(s, id, first, m + 2);
    var s2 := Goto(s, id, StealHead(0, first));
    assert Goto(s1, id, StealHead(0, first)) == s2;
    InvIsShaped(s2);
    var l := WorkerStealsFirst(s2, id, first, 0, first);
    SameVictim(s, s2, id, 0, first);
    n := m + 2 + l;
    AloneTwice(s, id, first, m + 2, l);
    SameStolen(s, s2, id, Victim(s, id, 0, first));
  }

  lemma GrabsNothing(s: State, id: nat, first: nat)
    requires Inv(s) && Is(s, id, Grab) && Shape(s) && id < s.workers && first < s.workers && !NonEmpty(s.queues[0])
    ensures Alone(s, id, first, 2) == Goto(s, id, StealHead(0, first))
  {
    hide SleepersInv, StopInv, NothingMissed, SomeoneCares, DequesInv, Next, Enabled, Alone;
    LoopOnce(s, id, first);
    var s1 := Goto(s, id, StealStart);
    assert LoopStep(s, id, first).queues == s.queues;
    assert LoopStep(s, id, first) == s1;
    LoopOnce(s1, id, first);
    AloneTwice(s, id, first, 1, 1);
  }

  lemma InvIsShaped(s: State)
    requires Inv(s)
    ensures Shape(s)
  {
  }

  lemma SameStolen(s: State, s': State, id: nat, victim: Option<nat>)
    requires Shape(s) && Shape(s') && id in s.threads && id in s'.threads && s' == Goto(s, id, s'.threads[id])
    requires victim.Some? ==> victim.value < s.workers
    ensures Stolen(s', id, victim) == Stolen(s, id, victim)
  {
  }

  // ---------------------------------------------------------------- spinning and going to sleep

  /** With nothing to be had a worker spins `SPINS` times, taking a job from the global queue if one shows up. */
  lemma {:induction false} WorkerSpins(s: State, id: nat, i: nat)
    requires Inv(s) && Is(s, id, ThreadPool.Spin(i)) && i <= SPINS && id < s.workers
    ensures Alone(s, id, 0, SPINS - i + 1) == Goto(s, id, IncSleepers)
    decreases SPINS - i
  {
    hide SleepersInv, StopInv, NothingMissed, SomeoneCares, DequesInv, Next, Enabled, Alone;
    LoopOnce(s, id, 0);
    var s1 := LoopStep(s, id, 0);
    if i < SPINS {
      assert s1 == Goto(s, id, ThreadPool.Spin(i + 1));
      WorkerSpins(s1, id, i + 1);
      AloneTwice(s, id, 0, 1, SPINS - i);
      assert s.threads[id := ThreadPool.Spin(i + 1)][id := IncSleepers] == s.threads[id := IncSleepers];
    }
  }

  lemma SpinTakesJob(s: State, id: nat, i: nat)
    requires Inv(s) && Is(s, id, ThreadPool.Spin(i)) && i < SPINS && Shape(s) && NonEmpty(s.queues[0])
    ensures var g := s.queues[0];
            Alone(s, id, 1, 1) == s.(threads := s.threads[id := Work], queues := s.queues[0 := Queue(g.head + 1, g.tail)])
  {
    hide SleepersInv, StopInv, NothingMissed, SomeoneCares, DequesInv, Next, Enabled, Alone;
    LoopOnce(s, id, 1);
  }

  /** The queues from `q` on are empty. */
  predicate EmptyFrom(s: State, q: nat) { forall i: nat | q <= i < |s.queues| :: !NonEmpty(s.queues[i]) }

  lemma SleepOnce(s: State, id: nat)
    requires Shape(s) && id in s.threads && GoingToSleep(s.threads[id])
    ensures Enabled(s, Step(id, 0)) && Alone(s, id, 0, 1) == SleepStep(s, id)
  {
    hide Alone, SleepStep, LoopStep, SubmitStep, StopStep;
    AloneOnce(s, id, 0);
  }

  /** The look at one queue. */
  lemma WorkerLooksOnce(s: State, id: nat, ticket: nat, q: nat)
    requires Shape(s) && Is(s, id, SizeTail(ticket, q)) && q <= s.workers && id < s.workers
    ensures Alone(s, id, 0, 2)
            == Goto(s, id, if NonEmpty(s.queues[q]) then DecSleepers else if q < s.workers then SizeTail(ticket, q + 1) else WaitCheck(ticket))
  {
    hide Alone, Next, Enabled;
    SleepOnce(s, id);
    var s1 := Goto(s, id, SizeHead(ticket, q, s.queues[q].tail));
    assert SleepStep(s, id) == s1;
    SleepOnce(s1, id);
    AloneTwice(s, id, 0, 1, 1);
  }

  /** The last look before sleep goes through all queues. */
  lemma {:induction false} WorkerLooksAround(s: State, id: nat, ticket: nat, q: nat) returns (n: nat)
    requires Shape(s) && Is(s, id, SizeTail(ticket, q)) && q <= s.workers && id < s.workers
    ensures Alone(s, id, 0, n) == Goto(s, id, if EmptyFrom(s, q) then WaitCheck(ticket) else DecSleepers)
    decreases s.workers - q
  {
    hide Alone, Next, Enabled;
    WorkerLooksOnce(s, id, ticket, q);
    n := 2;
    if !NonEmpty(s.queues[q]) {
      if q < s.workers {
        var s2 := Goto(s, id, SizeTail(ticket, q + 1));
        var m := WorkerLooksAround(s2, id, ticket, q + 1);
        n := 2 + m;
        AloneTwice(s, id, 0, 2, m);
        assert EmptyFrom(s2, q + 1) <==> EmptyFrom(s, q);
      } else {
        assert EmptyFrom(s, q);
      }
    }
  }

  /** The first three steps to sleep: counted, the ticket drawn, the pool seen running. */
  lemma DrawsTicket(s: State, id: nat)
    requires Is(s, id, IncSleepers) && s.state == RUNNING && Shape(s) && id < s.workers
    ensures Alone(s, id, 0, 3) == Counted(s, id, SizeTail(s.notifier, 0)) && Shape(Alone(s, id, 0, 3))
  {
    hide Next, Enabled, Alone;
    SleepOnce(s, id);
    var s1 := Counted(s, id, LoadTicket);
    assert SleepStep(s, id) == s1;
    SleepOnce(s1, id);
    var s2 := Counted(s, id, CheckState(s.notifier));
    assert SleepStep(s1, id) == s2;
    AloneTwice(s, id, 0, 1, 1);
    SleepOnce(s2, id);
    assert SleepStep(s2, id) == Counted(s, id, SizeTail(s.notifier, 0));
    AloneTwice(s, id, 0, 2, 1);
  }

  function Counted(s: State, id: nat, pc: Pc): State {
    Goto(s, id, pc).(sleepers := s.sleepers + 1, asleep := s.asleep + {id})
  }

  /** The last step: it waits, or is counted out again. */
  lemma LiesDown(s: State, id: nat, pc: Pc)
    requires Shape(s) && id < s.workers && id !in s.asleep && (pc == WaitCheck(s.notifier) || pc == DecSleepers)
    ensures Alone(Counted(s, id, pc), id, 0, 1)
            == if pc == DecSleepers then Goto(s, id, Top) else Counted(s, id, Blocked(s.notifier))
  {
    hide Next, Enabled, Alone;
    SleepOnce(Counted(s, id, pc), id);
    assert s.asleep + {id} - {id} == s.asleep;
    assert s.threads[id := pc][id := Top] == s.threads[id := Top];
    assert s.threads[id := pc][id := Blocked(s.notifier)] == s.threads[id := Blocked(s.notifier)];
  }

  /** An undisturbed worker that goes to sleep is blocked in the end if there is no job and the pool runs, and back
      at the top of its loop if there is one. */
  lemma SleepsOnlyWithoutJobs(s: State, id: nat) returns (n: nat)
    requires Inv(s) && Is(s, id, IncSleepers) && s.state == RUNNING && Shape(s) && id < s.workers
    ensures Alone(s, id, 0, n) == if EmptyFrom(s, 0) then Counted(s, id, Blocked(s.notifier)) else Goto(s, id, Top)
  {
    hide StopInv, NothingMissed, SomeoneCares, DequesInv, Alone, Next, Enabled, SleepStep;
    NotCounted(s, id);
    DrawsTicket(s, id);
    var s3 := Counted(s, id, SizeTail(s.notifier, 0));
    var m := WorkerLooksAround(s3, id, s.notifier, 0);
    AloneTwice(s, id, 0, 3, m);
    assert EmptyFrom(s3, 0) <==> EmptyFrom(s, 0);
    var pc := if EmptyFrom(s, 0) then WaitCheck(s.notifier) else DecSleepers;
    assert Goto(s3, id, pc) == Counted(s, id, pc);
    LiesDown(s, id, pc);
    n := 3 + m + 1;
    AloneTwice(s, id, 0, 3 + m, 1);
  }

  lemma NotCounted(s: State, id: nat)
    requires Inv(s) && Is(s, id, IncSleepers)
    ensures id !in s.asleep
  {
  }

  /** A worker leaves its loop only if the pool no longer runs. */
  ghost predicate StaysWhileRunning(s: State) {
    s.state == RUNNING ==> forall id | id in s.threads :: !s.threads[id].Exited? && !s.threads[id].DecAndExit?
  }

  lemma NobodyLeaves(s: State, e: Event)
    requires Shape(s) && Enabled(s, e) && StaysWhileRunning(s)
    ensures StaysWhileRunning(Next(s, e))
  {
    hide SubmitStep, LoopStep, SleepStep, StopStep;
    if e.Step? {
      StepLeaves(s, e.id, e.choice);
    }
  }

  lemma StepLeaves(s: State, id: nat, choice: nat)
    requires Shape(s) && Enabled(s, Step(id, choice)) && StaysWhileRunning(s)
    ensures StaysWhileRunning(Next(s, Step(id, choice)))
  {
    hide SubmitStep, LoopStep, SleepStep;
    LoopLeaves(s, id, choice);
    SubmissionStays(s, id, choice);
    SleeperLeavesOnlyStopped(s, id);
  }

  /** The step of one thread leaves the others where they are, and the thread leaves only if the pool does not run. */
  ghost predicate LeavesOnlyStopped(s: State, s': State, id: nat)
    requires id in s.threads
  {
    && s'.state == s.state && id in s'.threads && s'.threads == s.threads[id := s'.threads[id]]
    && (s'.threads[id].Exited? || s'.threads[id].DecAndExit? ==> s.state != RUNNING || s.threads[id].Exited? || s.threads[id].DecAndExit?)
  }

  lemma LoopLeaves(s: State, id: nat, choice: nat)
    requires Shape(s) && id in s.threads
    ensures LeavesOnlyStopped(s, LoopStep(s, id, choice), id)
  {
  }

  lemma SubmissionStays(s: State, id: nat, choice: nat)
    requires Shape(s) && id in s.threads
    ensures LeavesOnlyStopped(s, SubmitStep(s, id, choice), id)
  {
  }

  lemma SleeperLeavesOnlyStopped(s: State, id: nat)
    requires Shape(s) && id in s.threads
    ensures LeavesOnlyStopped(s, SleepStep(s, id), id)
  {
  }

  /** In every run no worker leaves before `stop` has been called, and one at the top of its loop leaves after. */
  lemma {:induction false} NoWorkerLeavesEarly(run: seq<State>, events: seq<Event>, k: nat)
    requires IsRun(run, events) && k < |run|
    ensures StaysWhileRunning(run[k])
  {
    hide Next, Enabled;
    if k > 0 {
      NoWorkerLeavesEarly(run, events, k - 1);
      NobodyLeaves(run[k - 1], events[k - 1]);
    }
  }

  lemma LeavesWhenStopped(s: State, id: nat, choice: nat)
    requires Inv(s) && Is(s, id, Top) && s.state != RUNNING
    ensures Alone(s, id, choice, 1) == Goto(s, id, Exited)
  {
    hide SleepersInv, StopInv, NothingMissed, SomeoneCares, DequesInv, Next, Enabled, Alone;
    LoopOnce(s, id, choice);
  }

  // ---------------------------------------------------------------- a submission

  /** The local part of a worker's submission of `n` jobs: as many go into its deque as fit, and if somebody sleeps
      the notifier is raised; with `rest` jobs left it goes on to the global queue. */
  lemma LocalJobsAreQueued(s: State, id: nat, n: nat)
    requires Inv(s) && Shape(s) && id < s.workers && Is(s, id, LocalHead(n)) && n > 0
    ensures var d := s.queues[id + 1];
            if Length(d) >= LOCAL_CAPACITY then Alone(s, id, 0, 1) == Goto(s, id, Global(n))
            else
              var count := Min(n, LOCAL_CAPACITY - Length(d));
              Alone(s, id, 0, 3) == Announced(SetQueue(s, id + 1, d.head, d.tail + count), id, n - count)
  {
    hide SleepersInv, StopInv, NothingMissed, SomeoneCares, Next, Enabled, Alone;
    assert DequeGood(s, id);
    var d := s.queues[id + 1];
    SubmitOnce(s, id, 0);
    if Length(d) < LOCAL_CAPACITY {
      var count := Min(n, LOCAL_CAPACITY - Length(d));
      var s1 := Goto(s, id, LocalTail(count, n - count));
      assert SubmitStep(s, id, 0) == s1;
      SubmitOnce(s1, id, 0);
      AloneTwice(s, id, 0, 1, 1);
      QueuedIsAnnounced(SetQueue(s, id + 1, d.head, d.tail + count), id, n - count);
      var s2 := Goto(SetQueue(s, id + 1, d.head, d.tail + count), id, CheckSleepers(n - count, false));
      assert SubmitStep(s1, id, 0) == s2;
      AloneTwice(s, id, 0, 2, 1);
    }
  }

  /** After jobs have been queued: with sleepers about to raise the notifier, without done but for `rest`. */
  function Announced(s: State, id: nat, rest: nat): State {
    Goto(s, id, if s.sleepers > 0 then Inc(rest, false) else After(id, s.workers, rest))
  }

  lemma QueuedIsAnnounced(s: State, id: nat, rest: nat)
    requires Shape(s) && id in s.threads
    ensures Shape(Goto(s, id, CheckSleepers(rest, false)))
    ensures Alone(Goto(s, id, CheckSleepers(rest, false)), id, 0, 1) == Announced(s, id, rest)
  {
    hide Alone, Next, Enabled;
    SubmitOnce(Goto(s, id, CheckSleepers(rest, false)), id, 0);
  }

  lemma SubmitOnce(s: State, id: nat, choice: nat)
    requires Shape(s) && id in s.threads && Submitting(s.threads[id])
    ensures Enabled(s, Step(id, choice)) && Alone(s, id, choice, 1) == SubmitStep(s, id, choice)
  {
    hide Alone, SleepStep, LoopStep, SubmitStep, StopStep;
    AloneOnce(s, id, choice);
  }

  /** While the pool runs a worker's submission begins with its own deque, a client's with the global queue. */
  lemma SubmissionBegins(s: State, id: nat, n: nat, checked: bool)
    requires Shape(s) && Enabled(s, Submit(id, n, checked)) && s.state == RUNNING
    ensures Is(s, id, Out) ==> Next(s, Submit(id, n, checked)) == Goto(s, id, Global(n))
    ensures Is(s, id, Work) ==> Next(s, Submit(id, n, checked)) == Goto(s, id, LocalHead(n))
  {
  }

  /** The part for the global queue: `n` jobs of which `moved` fit are queued there; the others are run by the caller. */
  lemma GlobalJobsAreQueued(s: State, id: nat, n: nat, moved: nat)
    requires Inv(s) && Shape(s) && Is(s, id, Global(n)) && 0 < moved <= n && s.queues[0].tail + moved <= s.queues[0].head + GLOBAL_CAPACITY
    ensures SubmitStep(s, id, moved)
            == Goto(SetQueue(s, 0, s.queues[0].head, s.queues[0].tail + moved), id, CheckSleepers(0, false))
    ensures Next(s, Step(id, moved)) == SubmitStep(s, id, moved)
  {
  }

  /** Raising the notifier and waking the longest sleeper, if there is one. */
  lemma SleeperIsWoken(s: State, id: nat, rest: nat, w: nat)
    requires Inv(s) && Shape(s) && Is(s, id, Inc(rest, false)) && IsBlocked(s, w)
    ensures Alone(s, id, 0, 1) == Goto(s, id, Notifying(rest, false)).(notifier := s.notifier + 1)
    ensures var s1 := Alone(s, id, 0, 1);
            && Shape(s1) && Enabled(s1, Notify(id, Some(w)))
            && Next(s1, Notify(id, Some(w)))
               == Goto(Goto(s1, w, WaitCheck(s.threads[w].ticket)), id, After(id, s.workers, rest))
  {
    hide SleepersInv, StopInv, NothingMissed, SomeoneCares, DequesInv, Alone;
    SubmitOnce(s, id, 0);
  }

  // ---------------------------------------------------------------- stopping

  /** `stop` changes the state, raises the notifier and wakes everybody, and when all workers have left it is done. */
  lemma StopRuns(s: State, id: nat)
    requires Inv(s) && Shape(s) && Is(s, id, Out) && s.state == RUNNING
    ensures Enabled(s, Stop(id)) && Shape(Next(s, Stop(id)))
    ensures var s2 := s.(threads := s.threads[id := StopNotify], state := STOPPING, notifier := s.notifier + 1, stage := 2, stopper := id);
            && Alone(Next(s, Stop(id)), id, 0, 1) == s2
            && Shape(s2) && Enabled(s2, NotifyAll(id)) && Is(Next(s2, NotifyAll(id)), id, Join)
            && forall w | w in s.threads && s.threads[w].Blocked? :: Is(Next(s2, NotifyAll(id)), w, WaitCheck(s.threads[w].ticket))
  {
    hide SleepersInv, StopInv, NothingMissed, SomeoneCares, DequesInv, Alone, SubmitStep, LoopStep, SleepStep;
    var s1 := Next(s, Stop(id));
    assert s1 == s.(threads := s.threads[id := StopInc], state := STOPPING, stage := 1, stopper := id);
    AloneOnce(s1, id, 0);
    assert StopStep(s1, id).threads == s.threads[id := StopNotify];
  }

  lemma StopEnds(s: State, id: nat)
    requires Inv(s) && Shape(s) && Is(s, id, Join) && forall w | 0 <= w < s.workers :: Is(s, w, Exited)
    ensures Alone(s, id, 0, 1) == Goto(s, id, Out).(state := STOPPED)
  {
    hide SleepersInv, StopInv, NothingMissed, SomeoneCares, DequesInv, Alone;
    AloneOnce(s, id, 0);
  }
}
