/** No job is lost in the thread pool of module ThreadPool: of the jobs accepted so far each has been started, is in
    a queue, or is in the hands of a thread; and each job a worker has started it finishes or is still at. */
module ThreadPoolJobs {
  import opened Common
  import opened ThreadPool

  // ---------------------------------------------------------------- sums over threads

  ghost function Total(m: map<nat, nat>): nat {
    if m == map[] then 0
    else
      var k :| k in m;
      m[k] + Total(m - {k})
  }

  lemma {:induction false} TotalWithout(m: map<nat, nat>, k: nat)
    requires k in m
    ensures Total(m) == m[k] + Total(m - {k})
    decreases |m|
  {
    var j :| j in m && Total(m) == m[j] + Total(m - {j});
    if j != k {
      Smaller(m, j);
      Smaller(m, k);
      TotalWithout(m - {j}, k);
      TotalWithout(m - {k}, j);
      assert m - {j} - {k} == m - {k} - {j};
    }
  }

  lemma Smaller(m: map<nat, nat>, k: nat)
    requires k in m
    ensures |m - {k}| < |m|
  {
    assert (m - {k}).Keys == m.Keys - {k};
  }

  /** One entry has changed. */
  lemma TotalChanges(m: map<nat, nat>, m': map<nat, nat>, k: nat)
    requires k in m && m'.Keys == m.Keys && forall x | x in m && x != k :: m'[x] == m[x]
    ensures Total(m') + m[k] == Total(m) + m'[k]
  {
    TotalWithout(m, k);
    TotalWithout(m', k);
    assert m - {k} == m' - {k};
  }

  lemma {:induction false} TotalOfZeros(m: map<nat, nat>)
    requires forall k | k in m :: m[k] == 0
    ensures Total(m) == 0
    decreases |m|
  {
    if m != map[] {
      var k :| k in m;
      TotalWithout(m, k);
      Smaller(m, k);
      TotalOfZeros(m - {k});
    }
  }

  // ---------------------------------------------------------------- where jobs are

  /** The jobs that a thread has taken or was given and has neither queued nor started. */
  function Hand(pc: Pc): nat {
    match pc
    case LocalHead(n) => n
    case LocalTail(count, rest) => count + rest
    case Global(n) => n
    case CheckSleepers(rest, own) => rest + One(own)
    case Inc(rest, own) => rest + One(own)
    case Notifying(rest, own) => rest + One(own)
    case PopRestore(_, got) => One(got)
    case GrabHead(n) => n + 1
    case GrabTail(count) => count + 1
    case _ => 0
  }

  function One(b: bool): nat { if b then 1 else 0 }

  /** The jobs in a worker's deque, up to where it ends if the worker's own pop is undone. */
  function Waiting(d: Queue, owner: Pc): nat { if d.head <= End(d, owner) then End(d, owner) - d.head else 0 }

  /** The jobs in a thread's hands and, of a worker, in its deque. */
  function With(s: State, id: nat): nat
    requires Shape(s) && id in s.threads
  {
    Hand(s.threads[id]) + if id < s.workers then Waiting(s.queues[id + 1], s.threads[id]) else 0
  }

  function Jobs(s: State): map<nat, nat>
    requires Shape(s)
  {
    map id | id in s.threads :: With(s, id)
  }

  predicate GlobalOk(s: State)
    requires Shape(s)
  {
    s.queues[0].head <= s.queues[0].tail
  }

  /** All jobs accepted and not started. */
  ghost function Open(s: State): int
    requires Shape(s)
  {
    s.queues[0].tail - s.queues[0].head + Total(Jobs(s))
  }

  /** The jobs that an event hands to the pool. */
  function Accepts(e: Event): nat { if e.Submit? then e.n else 0 }

  /** A worker that may find a job in its next step. */
  predicate Fetching(pc: Pc) {
    pc.PopHead? || pc.PopRestore? || pc.Grab? || pc.StealCas? || pc.Spin? || ((pc.CheckSleepers? || pc.Notifying?) && pc.own)
  }

  /** Whether the event is a worker's start of a job it has fetched. */
  predicate WorkerStarts(s: State, s': State, id: nat) {
    id in s.threads && id in s'.threads && Fetching(s.threads[id]) && s'.threads[id].Work?
  }

  function Grown(s: State, s': State): nat
    requires Shape(s) && Shape(s')
  {
    if s'.queues[0].tail >= s.queues[0].tail then s'.queues[0].tail - s.queues[0].tail else 0
  }

  /** The jobs that an event starts: one by a worker that has fetched it; by the caller those that a pool that
      does not run refuses, and those that the global queue has no room for. */
  ghost function Starts(s: State, e: Event): int
    requires Shape(s) && Enabled(s, e) && Shape(Next(s, e))
  {
    match e
    case Submit(id, n, checked) => if checked && s.state != RUNNING then n else 0
    case Step(id, _) =>
      if s.threads[id].Global? then s.threads[id].n - Grown(s, Next(s, e)) else One(WorkerStarts(s, Next(s, e), id))
    case Notify(id, _) => One(WorkerStarts(s, Next(s, e), id))
    case _ => 0
  }

  /** What a step of thread `id` must do to the jobs with it, if it leaves those with all others alone. */
  lemma OneConserves(s: State, s': State, id: nat, accepted: nat, started: int)
    requires Shape(s) && Shape(s') && GlobalOk(s) && id in s.threads && s'.threads.Keys == s.threads.Keys
    requires forall x | x in s.threads && x != id :: With(s', x) == With(s, x)
    requires s'.queues[0].tail - s'.queues[0].head + With(s', id) + started == s.queues[0].tail - s.queues[0].head + With(s, id) + accepted
    ensures Open(s') + started == Open(s) + accepted
  {
    hide Shape, With;
    TotalChanges(Jobs(s), Jobs(s'), id);
  }

  /** Nobody's jobs have changed. */
  lemma NoneConserves(s: State, s': State)
    requires Shape(s) && Shape(s') && s'.threads.Keys == s.threads.Keys && s'.queues[0] == s.queues[0]
    requires forall x | x in s.threads :: With(s', x) == With(s, x)
    ensures Open(s') == Open(s)
  {
    assert Jobs(s') == Jobs(s);
  }

  // ---------------------------------------------------------------- each step conserves them

  /** The step of a thread that touches no deque but its own. */
  ghost predicate OwnOnly(s: State, s': State, id: nat) {
    && id in s.threads && id in s'.threads && s'.workers == s.workers && |s'.queues| == |s.queues| == s.workers + 1
    && s'.threads == s.threads[id := s'.threads[id]]
    && forall q: nat | 0 < q <= s.workers && q != id + 1 :: s'.queues[q] == s.queues[q]
  }

  lemma OwnOnlyKeepsOthers(s: State, s': State, id: nat)
    requires Shape(s) && Shape(s') && OwnOnly(s, s', id)
    ensures s'.threads.Keys == s.threads.Keys && forall x | x in s.threads && x != id :: With(s', x) == With(s, x)
  {
  }

  lemma SubmitConserves(s: State, id: nat, choice: nat)
    requires Inv(s) && GlobalOk(s) && id in s.threads && Submitting(s.threads[id]) && Enabled(s, Step(id, choice))
    requires Shape(Next(s, Step(id, choice)))
    ensures var s', e := Next(s, Step(id, choice)), Step(id, choice); GlobalOk(s') && Open(s') + Starts(s, e) == Open(s)
  {
    hide SleepersInv, StopInv, NothingMissed, SomeoneCares, LoopStep, SleepStep, StopStep, Jobs, Open;
    var s', e := Next(s, Step(id, choice)), Step(id, choice);
    assert id < s.workers ==> DequeGood(s, id);
    OwnOnlyKeepsOthers(s, s', id);
    OneConserves(s, s', id, 0, Starts(s, e));
  }

  lemma PopConserves(s: State, id: nat, choice: nat)
    requires Inv(s) && GlobalOk(s) && id in s.threads && Enabled(s, Step(id, choice)) && Shape(Next(s, Step(id, choice)))
    requires var pc := s.threads[id]; pc.PopTail? || pc.PopHead? || pc.PopCas?
    ensures var s', e := Next(s, Step(id, choice)), Step(id, choice); GlobalOk(s') && Open(s') + Starts(s, e) == Open(s)
  {
    hide SleepersInv, StopInv, NothingMissed, SomeoneCares, SubmitStep, SleepStep, StopStep, Jobs, Open, ThiefOk;
    var s', e := Next(s, Step(id, choice)), Step(id, choice);
    assert DequeGood(s, id);
    OwnOnlyKeepsOthers(s, s', id);
    OneConserves(s, s', id, 0, Starts(s, e));
  }

  lemma RestoreConserves(s: State, id: nat, choice: nat)
    requires Inv(s) && GlobalOk(s) && id in s.threads && Enabled(s, Step(id, choice)) && Shape(Next(s, Step(id, choice)))
    requires var pc := s.threads[id]; pc.Top? || pc.PopRestore?
    ensures var s', e := Next(s, Step(id, choice)), Step(id, choice); GlobalOk(s') && Open(s') + Starts(s, e) == Open(s)
  {
    hide SleepersInv, StopInv, NothingMissed, SomeoneCares, SubmitStep, SleepStep, StopStep, Jobs, Open, ThiefOk;
    var s', e := Next(s, Step(id, choice)), Step(id, choice);
    assert DequeGood(s, id);
    OwnOnlyKeepsOthers(s, s', id);
    OneConserves(s, s', id, 0, Starts(s, e));
  }

  lemma GrabConserves(s: State, id: nat, choice: nat)
    requires Inv(s) && GlobalOk(s) && id in s.threads && Enabled(s, Step(id, choice)) && Shape(Next(s, Step(id, choice)))
    requires var pc := s.threads[id]; pc.Grab? || pc.GrabHead? || pc.GrabTail?
    ensures var s', e := Next(s, Step(id, choice)), Step(id, choice); GlobalOk(s') && Open(s') + Starts(s, e) == Open(s)
  {
    hide SleepersInv, StopInv, NothingMissed, SomeoneCares, SubmitStep, SleepStep, StopStep, Jobs, Open, ThiefOk;
    var s', e := Next(s, Step(id, choice)), Step(id, choice);
    assert DequeGood(s, id);
    OwnOnlyKeepsOthers(s, s', id);
    OneConserves(s, s', id, 0, Starts(s, e));
  }

  lemma SearchConserves(s: State, id: nat, choice: nat)
    requires Inv(s) && GlobalOk(s) && id in s.threads && Enabled(s, Step(id, choice)) && Shape(Next(s, Step(id, choice)))
    requires var pc := s.threads[id]; pc.StealStart? || pc.StealHead? || pc.StealTail?
    ensures var s', e := Next(s, Step(id, choice)), Step(id, choice); GlobalOk(s') && Open(s') + Starts(s, e) == Open(s)
  {
    hide SleepersInv, StopInv, NothingMissed, SomeoneCares, SubmitStep, SleepStep, StopStep, Jobs, Open, DequesInv;
    NoneConserves(s, Next(s, Step(id, choice)));
  }

  lemma SpinConserves(s: State, id: nat, choice: nat)
    requires Inv(s) && GlobalOk(s) && id in s.threads && Enabled(s, Step(id, choice)) && Shape(Next(s, Step(id, choice)))
    requires var pc := s.threads[id]; pc.Spin?
    ensures var s', e := Next(s, Step(id, choice)), Step(id, choice); GlobalOk(s') && Open(s') + Starts(s, e) == Open(s)
  {
    hide SleepersInv, StopInv, NothingMissed, SomeoneCares, SubmitStep, SleepStep, StopStep, Jobs, Open, ThiefOk, DequeOk;
    var s', e := Next(s, Step(id, choice)), Step(id, choice);
    assert DequeGood(s, id);
    OwnOnlyKeepsOthers(s, s', id);
    OneConserves(s, s', id, 0, Starts(s, e));
  }

  /** A thief takes a job out of its victim's deque. */
  lemma StealConserves(s: State, id: nat, choice: nat)
    requires Inv(s) && GlobalOk(s) && id in s.threads && s.threads[id].StealCas? && Enabled(s, Step(id, choice))
    requires Shape(Next(s, Step(id, choice)))
    ensures var s', e := Next(s, Step(id, choice)), Step(id, choice); GlobalOk(s') && Open(s') + Starts(s, e) == Open(s)
  {
    hide SleepersInv, StopInv, NothingMissed, SomeoneCares, SubmitStep, SleepStep, StopStep, Jobs, Open;
    var s', e, v := Next(s, Step(id, choice)), Step(id, choice), s.threads[id].v;
    assert ThiefGood(s, id) && DequeGood(s, v);
    OneConserves(s, s', v, 0, Starts(s, e));
  }

  lemma SleepConserves(s: State, id: nat, choice: nat)
    requires Shape(s) && GlobalOk(s) && Enabled(s, Step(id, choice)) && GoingToSleep(s.threads[id])
    requires Shape(Next(s, Step(id, choice)))
    ensures var s', e := Next(s, Step(id, choice)), Step(id, choice); GlobalOk(s') && Open(s') + Starts(s, e) == Open(s)
  {
    hide LoopStep, SubmitStep, StopStep, Jobs, Open;
    NoneConserves(s, Next(s, Step(id, choice)));
  }

  lemma StopConserves(s: State, id: nat, choice: nat)
    requires Shape(s) && GlobalOk(s) && Enabled(s, Step(id, choice)) && (s.threads[id].StopInc? || s.threads[id].Join?)
    requires Shape(Next(s, Step(id, choice)))
    ensures var s', e := Next(s, Step(id, choice)), Step(id, choice); GlobalOk(s') && Open(s') + Starts(s, e) == Open(s)
  {
    hide LoopStep, SubmitStep, SleepStep, Jobs, Open;
    NoneConserves(s, Next(s, Step(id, choice)));
  }

  lemma StepConserves(s: State, id: nat, choice: nat)
    requires Inv(s) && Shape(s) && GlobalOk(s) && Enabled(s, Step(id, choice)) && Shape(Next(s, Step(id, choice)))
    ensures var s', e := Next(s, Step(id, choice)), Step(id, choice); GlobalOk(s') && Open(s') + Starts(s, e) == Open(s)
  {
    hide Inv, Next, Shape, Open, Starts;
    var pc := s.threads[id];
    if Submitting(pc) {
      SubmitConserves(s, id, choice);
    } else if GoingToSleep(pc) {
      SleepConserves(s, id, choice);
    } else if pc.StopInc? || pc.Join? {
      StopConserves(s, id, choice);
    } else if pc.StealCas? {
      StealConserves(s, id, choice);
    } else if pc.Grab? || pc.GrabHead? || pc.GrabTail? {
      GrabConserves(s, id, choice);
    } else if pc.StealStart? || pc.StealHead? || pc.StealTail? {
      SearchConserves(s, id, choice);
    } else if pc.Spin? {
      SpinConserves(s, id, choice);
    } else if pc.Top? || pc.PopRestore? {
      RestoreConserves(s, id, choice);
    } else {
      PopConserves(s, id, choice);
    }
  }

  lemma NotifyConserves(s: State, id: nat, wake: Option<nat>)
    requires Inv(s) && GlobalOk(s) && Enabled(s, Notify(id, wake)) && Shape(Next(s, Notify(id, wake)))
    ensures var s', e := Next(s, Notify(id, wake)), Notify(id, wake); GlobalOk(s') && Open(s') + Starts(s, e) == Open(s)
  {
    hide SleepersInv, StopInv, NothingMissed, SomeoneCares, DequesInv, LoopStep, SubmitStep, SleepStep, StopStep, Jobs, Open;
    var s', e := Next(s, Notify(id, wake)), Notify(id, wake);
    OneConserves(s, s', id, 0, Starts(s, e));
  }

  lemma AcceptConserves(s: State, id: nat, n: nat, checked: bool)
    requires Inv(s) && GlobalOk(s) && Enabled(s, Submit(id, n, checked)) && Shape(Next(s, Submit(id, n, checked)))
    ensures var s', e := Next(s, Submit(id, n, checked)), Submit(id, n, checked);
            GlobalOk(s') && Open(s') + Starts(s, e) == Open(s) + n
  {
    hide SleepersInv, StopInv, NothingMissed, SomeoneCares, DequesInv, LoopStep, SubmitStep, SleepStep, StopStep, Jobs, Open;
    var s' := Next(s, Submit(id, n, checked));
    if !(checked && s.state != RUNNING) {
      OwnOnlyKeepsOthers(s, s', id);
      OneConserves(s, s', id, n, 0);
    }
  }

  lemma FinishConserves(s: State, id: nat)
    requires Shape(s) && GlobalOk(s) && Enabled(s, FinishJob(id)) && Shape(Next(s, FinishJob(id)))
    ensures GlobalOk(Next(s, FinishJob(id))) && Open(Next(s, FinishJob(id))) == Open(s)
  {
    hide LoopStep, SubmitStep, SleepStep, StopStep, KindOk, Open;
    NoneConserves(s, Next(s, FinishJob(id)));
  }

  lemma StopsConserve(s: State, id: nat)
    requires Shape(s) && GlobalOk(s) && Enabled(s, Stop(id)) && Shape(Next(s, Stop(id)))
    ensures GlobalOk(Next(s, Stop(id))) && Open(Next(s, Stop(id))) == Open(s)
  {
    hide LoopStep, SubmitStep, SleepStep, StopStep, KindOk, Open;
    NoneConserves(s, Next(s, Stop(id)));
  }

  lemma WakingConserves(s: State, e: Event)
    requires Shape(s) && GlobalOk(s) && Enabled(s, e) && (e.NotifyAll? || e.Spurious?) && Shape(Next(s, e))
    ensures GlobalOk(Next(s, e)) && Open(Next(s, e)) == Open(s)
  {
    hide LoopStep, SubmitStep, SleepStep, StopStep, KindOk, Open;
    NoneConserves(s, Next(s, e));
  }

  lemma OthersConserve(s: State, e: Event)
    requires Inv(s) && GlobalOk(s) && Enabled(s, e) && (e.FinishJob? || e.Stop? || e.NotifyAll? || e.Spurious?) && Shape(Next(s, e))
    ensures GlobalOk(Next(s, e)) && Open(Next(s, e)) + Starts(s, e) == Open(s)
  {
    hide SleepersInv, StopInv, NothingMissed, SomeoneCares, DequesInv, Shape, Next, Enabled, GlobalOk, Open;
    if e.FinishJob? {
      FinishConserves(s, e.id);
    } else if e.Stop? {
      StopsConserve(s, e.id);
    } else {
      WakingConserves(s, e);
    }
  }

  /** Jobs accepted are jobs started or still open, in every step. */
  lemma EventConserves(s: State, e: Event)
    requires Inv(s) && GlobalOk(s) && Enabled(s, e)
    ensures Shape(Next(s, e)) && GlobalOk(Next(s, e)) && Open(Next(s, e)) + Starts(s, e) == Open(s) + Accepts(e)
  {
    hide SleepersInv, StopInv, NothingMissed, SomeoneCares, DequesInv, Shape, Next, Open, Starts, GlobalOk, Enabled;
    NextInv(s, e);
    match e
    case Submit(id, n, checked) => AcceptConserves(s, id, n, checked);
    case Notify(id, wake) => NotifyConserves(s, id, wake);
    case Step(id, choice) => StepConserves(s, id, choice);
    case _ => OthersConserve(s, e);
  }

  // ---------------------------------------------------------------- what every run guarantees

  /** The jobs accepted in the first `k` events. */
  function Accepted(events: seq<Event>, k: nat): nat
    requires k <= |events|
  {
    if k == 0 then 0 else Accepted(events, k - 1) + Accepts(events[k - 1])
  }

  lemma RunsAreShaped(run: seq<State>, events: seq<Event>, k: nat)
    requires IsRun(run, events) && k < |run|
    ensures Shape(run[k])
  {
    hide SleepersInv, StopInv, NothingMissed, SomeoneCares, DequesInv;
    RunInv(run, events, k);
  }

  /** The jobs started in the first `k` events. */
  ghost function Started(run: seq<State>, events: seq<Event>, k: nat): int
    requires IsRun(run, events) && k < |run|
  {
    if k == 0 then 0
    else
      RunsAreShaped(run, events, k - 1);
      RunsAreShaped(run, events, k);
      Started(run, events, k - 1) + Starts(run[k - 1], events[k - 1])
  }

  /** In every run each accepted job has been started, or is in a queue or in a thread's hands. */
  lemma {:induction false} NoJobIsLost(run: seq<State>, events: seq<Event>, k: nat)
    requires IsRun(run, events) && k < |run|
    ensures Shape(run[k]) && GlobalOk(run[k])
    ensures Accepted(events, k) == Started(run, events, k) + Open(run[k])
  {
    hide SleepersInv, StopInv, NothingMissed, SomeoneCares, DequesInv, Shape, Next, Open, Starts, GlobalOk, Enabled, Init;
    RunsAreShaped(run, events, k);
    if k == 0 {
      NothingOpen(run[0]);
    } else {
      NoJobIsLost(run, events, k - 1);
      RunInv(run, events, k - 1);
      EventConserves(run[k - 1], events[k - 1]);
    }
  }

  lemma NothingOpen(s: State)
    requires Init(s) && Shape(s)
    ensures GlobalOk(s) && Open(s) == 0
  {
    TotalOfZeros(Jobs(s));
  }

  // ---------------------------------------------------------------- jobs that workers have started

  /** A worker is inside a job: it runs it, or submits others from it. */
  predicate InJob(workers: nat, id: nat, pc: Pc) {
    id < workers && (pc.Work? || pc.LocalHead? || pc.LocalTail? || pc.Global? || ((pc.CheckSleepers? || pc.Inc? || pc.Notifying?) && !pc.own))
  }

  function Busy(s: State): map<nat, nat> { map id | id in s.threads :: One(InJob(s.workers, id, s.threads[id])) }

  /** Whether the event is a worker's start of a job, or the end of one. */
  ghost function Begins(s: State, e: Event): nat
    requires Shape(s) && Enabled(s, e)
  {
    if e.Step? || e.Notify? then One(WorkerStarts(s, Next(s, e), e.id)) else 0
  }

  function Ends(e: Event): nat { One(e.FinishJob?) }

  lemma OneBegins(s: State, s': State, id: nat, begun: nat, ended: nat)
    requires id in s.threads && s'.threads.Keys == s.threads.Keys && s'.workers == s.workers
    requires forall x | x in s.threads && x != id :: InJob(s.workers, x, s'.threads[x]) == InJob(s.workers, x, s.threads[x])
    requires One(InJob(s.workers, id, s'.threads[id])) + ended == One(InJob(s.workers, id, s.threads[id])) + begun
    ensures Total(Busy(s')) + ended == Total(Busy(s)) + begun
  {
    TotalChanges(Busy(s), Busy(s'), id);
  }

  lemma SubmitBegins(s: State, id: nat, choice: nat)
    requires Inv(s) && Enabled(s, Step(id, choice)) && Submitting(s.threads[id])
    ensures Total(Busy(Next(s, Step(id, choice)))) == Total(Busy(s)) + Begins(s, Step(id, choice))
  {
    hide SleepersInv, StopInv, NothingMissed, SomeoneCares, DequesInv, LoopStep, SleepStep, StopStep, Busy, Room;
    OneBegins(s, Next(s, Step(id, choice)), id, Begins(s, Step(id, choice)), 0);
  }

  lemma PopBegins(s: State, id: nat, choice: nat)
    requires Inv(s) && Enabled(s, Step(id, choice)) && InLoop(s.threads[id]) && !InSteal(s.threads[id]) && !s.threads[id].Spin?
    ensures Total(Busy(Next(s, Step(id, choice)))) == Total(Busy(s)) + Begins(s, Step(id, choice))
  {
    hide SleepersInv, StopInv, NothingMissed, SomeoneCares, DequesInv, SubmitStep, SleepStep, StopStep, Busy, Room;
    OneBegins(s, Next(s, Step(id, choice)), id, Begins(s, Step(id, choice)), 0);
  }

  lemma SearchBegins(s: State, id: nat, choice: nat)
    requires Inv(s) && Enabled(s, Step(id, choice)) && (InSteal(s.threads[id]) || s.threads[id].Spin?)
    ensures Total(Busy(Next(s, Step(id, choice)))) == Total(Busy(s)) + Begins(s, Step(id, choice))
  {
    hide SleepersInv, StopInv, NothingMissed, SomeoneCares, DequesInv, SubmitStep, SleepStep, StopStep, Busy;
    OneBegins(s, Next(s, Step(id, choice)), id, Begins(s, Step(id, choice)), 0);
  }

  lemma SleepBegins(s: State, id: nat, choice: nat)
    requires Inv(s) && Enabled(s, Step(id, choice)) && (GoingToSleep(s.threads[id]) || s.threads[id].StopInc? || s.threads[id].Join?)
    ensures Total(Busy(Next(s, Step(id, choice)))) == Total(Busy(s)) + Begins(s, Step(id, choice))
  {
    hide SleepersInv, StopInv, NothingMissed, SomeoneCares, DequesInv, SubmitStep, LoopStep, Busy;
    OneBegins(s, Next(s, Step(id, choice)), id, Begins(s, Step(id, choice)), 0);
  }

  lemma OthersBegin(s: State, e: Event)
    requires Inv(s) && Enabled(s, e) && !e.Step?
    ensures Total(Busy(Next(s, e))) + Ends(e) == Total(Busy(s)) + Begins(s, e)
  {
    hide SleepersInv, StopInv, NothingMissed, SomeoneCares, DequesInv, SubmitStep, LoopStep, SleepStep, StopStep, Busy;
    OneBegins(s, Next(s, e), e.id, Begins(s, e), Ends(e));
  }

  /** Each job that a worker starts it ends, or is still at. */
  lemma BeginsAndEnds(s: State, e: Event)
    requires Inv(s) && Enabled(s, e)
    ensures Total(Busy(Next(s, e))) + Ends(e) == Total(Busy(s)) + Begins(s, e)
  {
    hide SleepersInv, StopInv, NothingMissed, SomeoneCares, DequesInv, Next, Busy, Begins;
    if e.Step? {
      var pc := s.threads[e.id];
      if Submitting(pc) {
        SubmitBegins(s, e.id, e.choice);
      } else if GoingToSleep(pc) || pc.StopInc? || pc.Join? {
        SleepBegins(s, e.id, e.choice);
      } else if InSteal(pc) || pc.Spin? {
        SearchBegins(s, e.id, e.choice);
      } else {
        PopBegins(s, e.id, e.choice);
      }
    } else {
      OthersBegin(s, e);
    }
  }

  function Ended(events: seq<Event>, k: nat): nat
    requires k <= |events|
  {
    if k == 0 then 0 else Ended(events, k - 1) + Ends(events[k - 1])
  }

  ghost function Begun(run: seq<State>, events: seq<Event>, k: nat): nat
    requires IsRun(run, events) && k < |run|
  {
    if k == 0 then 0 else Begun(run, events, k - 1) + Begins(run[k - 1], events[k - 1])
  }

  /** In every run each job that a worker has started it has ended, or is inside. */
  lemma {:induction false} StartedJobsAreFinished(run: seq<State>, events: seq<Event>, k: nat)
    requires IsRun(run, events) && k < |run|
    ensures Begun(run, events, k) == Ended(events, k) + Total(Busy(run[k]))
  {
    hide SleepersInv, StopInv, NothingMissed, SomeoneCares, DequesInv, Shape, Next, Enabled, Begins;
    if k == 0 {
      TotalOfZeros(Busy(run[0]));
    } else {
      StartedJobsAreFinished(run, events, k - 1);
      RunInv(run, events, k - 1);
      BeginsAndEnds(run[k - 1], events[k - 1]);
    }
  }
}
