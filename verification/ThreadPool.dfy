/** The sleep and wake-up protocol of KzThread/ThreadPool.h as a state machine: any number of workers
    and clients, one event per atomic operation on the counters involved, sequentially consistent.
    A queue is its two counters. Operations on the global queue are single steps here (module
    MpmcQueue takes them apart); the deques of the workers are taken step by step. */
module ThreadPool {
  import opened Common

  const MAX_BATCH: nat := 64
  const LOCAL_CAPACITY: nat := 1024
  const GLOBAL_CAPACITY: nat := 4096
  const SPINS: nat := 256

  datatype PoolState = RUNNING | STOPPING | STOPPED

  datatype Queue = Queue(head: nat, tail: nat)

  /** What a thread does next. `Out` is a client outside the pool, `Work` a worker inside a job. */
  datatype Pc =
    | Out
    | Work
    // submitting n jobs, or, if `own`, about to run the first of those grabbed
    | LocalHead(n: nat)
    | LocalTail(count: nat, rest: nat)
    | Global(n: nat)
    | CheckSleepers(rest: nat, own: bool)
    | Inc(rest: nat, own: bool)
    | Notifying(rest: nat, own: bool)
    // the worker loop
    | Top
    | PopTail
    | PopHead(t: nat)
    | PopCas(t: nat)
    | PopRestore(t: nat, got: bool)
    | Grab
    | GrabHead(n: nat)
    | GrabTail(count: nat)
    | StealStart
    | StealHead(k: nat, v: nat)
    | StealTail(k: nat, v: nat, h: nat)
    | StealCas(k: nat, v: nat, h: nat)
    | Spin(i: nat)
    // going to sleep
    | IncSleepers
    | LoadTicket
    | CheckState(ticket: nat)
    | SizeTail(ticket: nat, q: nat)
    | SizeHead(ticket: nat, q: nat, t: nat)
    | WaitCheck(ticket: nat)
    | Blocked(ticket: nat)
    | DecSleepers
    | DecAndExit
    | Exited
    // stopping the pool
    | StopInc
    | StopNotify
    | Join

  /** Queue 0 is the global one and queue i + 1 is worker i's deque; workers are the threads below
      `workers`. The last three components are history that no step reads: the workers counted as
      sleepers, how far `stop` has come (1 state changed, 2 notifier raised, 3 all notified), and
      who runs it. */
  datatype State = State(
    state: PoolState, notifier: nat, sleepers: nat, workers: nat, queues: seq<Queue>, threads: map<nat, Pc>,
    asleep: set<nat>, stage: nat, stopper: nat)

  /** `choice` settles what depends on the inside of the global queue or on chance: how many jobs an
      operation on it moves, the first victim of a steal. */
  datatype Event =
    | Submit(id: nat, n: nat, checked: bool)
    | FinishJob(id: nat)
    | Stop(id: nat)
    | Step(id: nat, choice: nat)
    | Notify(id: nat, wake: Option<nat>)
    | NotifyAll(id: nat)
    | Spurious(id: nat)

  /** The state in which `start` leaves the pool. */
  ghost predicate Init(s: State) {
    && s.state == RUNNING && s.notifier == 0 && s.sleepers == 0 && s.workers > 0
    && |s.queues| == s.workers + 1
    && (forall q | 0 <= q < |s.queues| :: s.queues[q] == Queue(0, 0))
    && (forall id | 0 <= id < s.workers :: id in s.threads)
    && (forall id | id in s.threads :: s.threads[id] == if id < s.workers then Top else Out)
    && s.asleep == {} && s.stage == 0
  }

  predicate Is(s: State, id: nat, pc: Pc) { id in s.threads && s.threads[id] == pc }

  predicate IsBlocked(s: State, id: nat) { id in s.threads && s.threads[id].Blocked? }

  predicate Runs(pc: Pc) {
    !pc.Out? && !pc.Work? && !pc.Blocked? && !pc.Notifying? && !pc.StopNotify? && !pc.Exited?
  }

  ghost predicate Enabled(s: State, e: Event) {
    match e
    case Submit(id, n, _) => n > 0 && (Is(s, id, Out) || Is(s, id, Work))
    case FinishJob(id) => Is(s, id, Work)
    case Stop(id) => Is(s, id, Out)
    case Step(id, choice) =>
      && id in s.threads && Runs(s.threads[id])
      && (s.threads[id].Join? ==> forall w | 0 <= w < s.workers :: Is(s, w, Exited))
    case Notify(id, wake) =>
      && id in s.threads && s.threads[id].Notifying?
      && if wake == None then forall w :: !IsBlocked(s, w) else IsBlocked(s, wake.value)
    case NotifyAll(id) => Is(s, id, StopNotify)
    case Spurious(id) => IsBlocked(s, id)
  }

  function Goto(s: State, id: nat, pc: Pc): State { s.(threads := s.threads[id := pc]) }

  /** Back from a submission that left `rest` jobs for the global queue, or none. */
  function After(id: nat, workers: nat, rest: nat): Pc {
    if rest > 0 then Global(rest) else if id < workers then Work else Out
  }

  function Unblock(pc: Pc): Pc { if pc.Blocked? then WaitCheck(pc.ticket) else pc }

  predicate Shape(s: State) {
    && s.workers > 0 && |s.queues| == s.workers + 1
    && (forall id | 0 <= id < s.workers :: id in s.threads)
    && (forall id | id in s.threads :: KindOk(s.workers, id, s.threads[id]))
  }

  /** Which thread can be where: only workers run the loop, only clients stop the pool. */
  predicate KindOk(workers: nat, id: nat, pc: Pc) {
    match pc
    case Out => id >= workers
    case StopInc => id >= workers
    case StopNotify => id >= workers
    case Join => id >= workers
    case Global(_) => true
    case CheckSleepers(rest, own) => own ==> id < workers && rest == 0
    case Inc(rest, own) => own ==> id < workers && rest == 0
    case Notifying(rest, own) => own ==> id < workers && rest == 0
    case SizeTail(_, q) => id < workers && q <= workers
    case SizeHead(_, q, _) => id < workers && q <= workers
    case StealHead(_, v) => id < workers && v < workers
    case StealTail(_, v, _) => id < workers && v < workers && v != id
    case StealCas(_, v, _) => id < workers && v < workers && v != id
    case _ => id < workers
  }

  function NextVictim(s: State, k: nat, v: nat): Pc {
    StealHead(k + 1, if v + 1 == s.workers then 0 else v + 1)
  }

  function SetQueue(s: State, q: nat, head: nat, tail: nat): State
    requires q < |s.queues|
  {
    s.(queues := s.queues[q := Queue(head, tail)])
  }

  /** How many of `n` jobs fit into worker `id`'s deque. */
  function Room(d: Queue, n: nat): nat {
    if d.tail - d.head >= LOCAL_CAPACITY then 0
    else if d.tail - d.head < 0 then n
    else Min(n, LOCAL_CAPACITY - (d.tail - d.head))
  }

  function SubmitStep(s: State, id: nat, choice: nat): State
    requires Shape(s) && id in s.threads
  {
    match s.threads[id]
    case LocalHead(n) =>
      var count := Room(s.queues[id + 1], n);
      Goto(s, id, if count == 0 then Global(n) else LocalTail(count, if count < n then n - count else 0))
    case LocalTail(count, rest) =>
      Goto(SetQueue(s, id + 1, s.queues[id + 1].head, s.queues[id + 1].tail + count), id, CheckSleepers(rest, false))
    case Global(n) =>
      var g := s.queues[0];
      var count := if choice <= n && g.tail + choice <= g.head + GLOBAL_CAPACITY then choice else 0;
      if count == 0 then Goto(s, id, After(id, s.workers, 0))
      else Goto(SetQueue(s, 0, g.head, g.tail + count), id, CheckSleepers(0, false))
    case CheckSleepers(rest, own) => Goto(s, id, if s.sleepers > 0 then Inc(rest, own) else After(id, s.workers, rest))
    case Inc(rest, own) => Goto(s, id, Notifying(rest, own)).(notifier := s.notifier + 1)
    case _ => s
  }

  function LoopStep(s: State, id: nat, choice: nat): State
    requires Shape(s) && id in s.threads
  {
    match s.threads[id]
    case Top => Goto(s, id, if s.state == RUNNING then PopTail else Exited)
    case PopTail =>
      var d := s.queues[id + 1];
      if d.tail == 0 then Goto(s, id, Grab)
      else Goto(SetQueue(s, id + 1, d.head, d.tail - 1), id, PopHead(d.tail - 1))
    case PopHead(t) =>
      var d := s.queues[id + 1];
      Goto(s, id, if d.head < t then Work else if d.head == t then PopCas(t) else PopRestore(t, false))
    case PopCas(t) =>
      var d := s.queues[id + 1];
      if d.head == t then Goto(SetQueue(s, id + 1, t + 1, d.tail), id, PopRestore(t, true))
      else Goto(s, id, PopRestore(t, false))
    case PopRestore(t, got) =>
      Goto(SetQueue(s, id + 1, s.queues[id + 1].head, t + 1), id, if got then Work else Grab)
    case Grab =>
      var g := s.queues[0];
      var n := if choice <= MAX_BATCH && g.head + choice <= g.tail then choice else 0;
      Goto(SetQueue(s, 0, g.head + n, g.tail), id, if n == 0 then StealStart else if n == 1 then Work else GrabHead(n - 1))
    case GrabHead(n) => Goto(s, id, GrabTail(Room(s.queues[id + 1], n)))
    case GrabTail(count) =>
      Goto(SetQueue(s, id + 1, s.queues[id + 1].head, s.queues[id + 1].tail + count), id, CheckSleepers(0, true))
    case StealStart => Goto(s, id, StealHead(0, if choice < s.workers then choice else 0))
    case StealHead(k, v) =>
      Goto(s, id, if k >= s.workers then Spin(0) else if v == id then NextVictim(s, k, v) else StealTail(k, v, s.queues[v + 1].head))
    case StealTail(k, v, h) => Goto(s, id, if h < s.queues[v + 1].tail then StealCas(k, v, h) else NextVictim(s, k, v))
    case StealCas(k, v, h) =>
      if s.queues[v + 1].head == h then Goto(SetQueue(s, v + 1, h + 1, s.queues[v + 1].tail), id, Work)
      else Goto(s, id, NextVictim(s, k, v))
    case Spin(i) =>
      var g := s.queues[0];
      if i >= SPINS then Goto(s, id, IncSleepers)
      else if choice == 1 && g.head < g.tail then Goto(SetQueue(s, 0, g.head + 1, g.tail), id, Work)
      else Goto(s, id, Spin(i + 1))
    case _ => s
  }

  function SleepStep(s: State, id: nat): State
    requires Shape(s) && id in s.threads
  {
    match s.threads[id]
    case IncSleepers => Goto(s, id, LoadTicket).(sleepers := s.sleepers + 1, asleep := s.asleep + {id})
    case LoadTicket => Goto(s, id, CheckState(s.notifier))
    case CheckState(ticket) => Goto(s, id, if s.state == RUNNING then SizeTail(ticket, 0) else DecAndExit)
    case SizeTail(ticket, q) => Goto(s, id, SizeHead(ticket, q, s.queues[q].tail))
    case SizeHead(ticket, q, t) =>
      Goto(s, id, if t > s.queues[q].head then DecSleepers else if q < s.workers then SizeTail(ticket, q + 1) else WaitCheck(ticket))
    case WaitCheck(ticket) => Goto(s, id, if s.notifier == ticket then Blocked(ticket) else DecSleepers)
    case DecSleepers => Wake(s, id, Top)
    case DecAndExit => Wake(s, id, Exited)
    case _ => s
  }

  function Wake(s: State, id: nat, pc: Pc): State {
    Goto(s, id, pc).(sleepers := if s.sleepers > 0 then s.sleepers - 1 else 0, asleep := s.asleep - {id})
  }

  function StopStep(s: State, id: nat): State
    requires Shape(s) && id in s.threads
  {
    match s.threads[id]
    case StopInc => Goto(s, id, StopNotify).(notifier := s.notifier + 1, stage := 2)
    case Join => Goto(s, id, Out).(state := STOPPED)
    case _ => s
  }

  predicate Submitting(pc: Pc) { pc.LocalHead? || pc.LocalTail? || pc.Global? || pc.CheckSleepers? || pc.Inc? }

  predicate GoingToSleep(pc: Pc) {
    || pc.IncSleepers? || pc.LoadTicket? || pc.CheckState? || pc.SizeTail? || pc.SizeHead? || pc.WaitCheck?
    || pc.DecSleepers? || pc.DecAndExit?
  }

  function Next(s: State, e: Event): State
    requires Shape(s) && Enabled(s, e)
  {
    match e
    case Submit(id, n, checked) =>
      if checked && s.state != RUNNING then s
      else Goto(s, id, if id < s.workers then LocalHead(n) else Global(n))
    case FinishJob(id) => Goto(s, id, Top)
    case Stop(id) => if s.state != RUNNING then s else Goto(s, id, StopInc).(state := STOPPING, stage := 1, stopper := id)
    case Notify(id, wake) =>
      var woken := if wake == None then s else Goto(s, wake.value, Unblock(s.threads[wake.value]));
      Goto(woken, id, After(id, s.workers, s.threads[id].rest))
    case NotifyAll(id) => s.(threads := map t | t in s.threads :: if t == id then Join else Unblock(s.threads[t]), stage := 3)
    case Spurious(id) => Goto(s, id, Unblock(s.threads[id]))
    case Step(id, choice) =>
      var pc := s.threads[id];
      if Submitting(pc) then SubmitStep(s, id, choice)
      else if GoingToSleep(pc) then SleepStep(s, id)
      else if pc.StopInc? || pc.Join? then StopStep(s, id)
      else LoopStep(s, id, choice)
  }

  // ---------------------------------------------------------------- the invariant

  /** Counted as a sleeper. */
  predicate InRegion(pc: Pc) {
    || pc.LoadTicket? || pc.CheckState? || pc.SizeTail? || pc.SizeHead? || pc.WaitCheck? || pc.Blocked?
    || pc.DecSleepers? || pc.DecAndExit?
  }

  ghost predicate SleepersInv(sleepers: nat, asleep: set<nat>, threads: map<nat, Pc>) {
    sleepers == |asleep| && forall id :: id in asleep <==> id in threads && InRegion(threads[id])
  }

  predicate PastStateCheck(pc: Pc) { pc.SizeTail? || pc.SizeHead? || pc.WaitCheck? || pc.Blocked? }

  /** Tickets are never from the future; once `stop` has raised the notifier, no worker that will
      still wait has the current ticket, and once it has notified, no worker is blocked. */
  predicate TicketOk(notifier: nat, stage: nat, pc: Pc) {
    && (pc.CheckState? ==> pc.ticket <= notifier)
    && (PastStateCheck(pc) ==> pc.ticket <= notifier && (stage >= 2 ==> pc.ticket < notifier))
    && (stage >= 3 ==> !pc.Blocked?)
  }

  predicate StopOk(state: PoolState, stage: nat, stopper: nat, id: nat, pc: Pc) {
    && (pc.StopInc? ==> stage == 1 && id == stopper)
    && (pc.StopNotify? ==> stage == 2 && id == stopper)
    && (pc.Join? ==> stage == 3 && id == stopper)
  }

  ghost predicate StopInv(s: State) {
    && (s.stage == 0 <==> s.state == RUNNING)
    && (forall id | id in s.threads :: StopOk(s.state, s.stage, s.stopper, id, s.threads[id]))
    && (forall id | id in s.threads :: TicketOk(s.notifier, s.stage, s.threads[id]))
  }

  /** A submitter that has put jobs in a queue and has not yet raised the notifier. */
  predicate Pending(s: State, id: nat) { id in s.threads && (s.threads[id].CheckSleepers? || s.threads[id].Inc?) }

  predicate NonEmpty(q: Queue) { q.head < q.tail }

  /** What a worker with the current ticket has seen: every queue it has passed is still empty, and
      one it has half looked at holds only what was there. */
  ghost predicate SeenEmpty(queues: seq<Queue>, pc: Pc) {
    match pc
    case SizeTail(_, q) => forall i: nat | i < q && i < |queues| :: !NonEmpty(queues[i])
    case SizeHead(_, q, t) =>
      && (forall i: nat | i < q && i < |queues| :: !NonEmpty(queues[i]))
      && (q < |queues| && NonEmpty(queues[q]) ==> queues[q].tail <= t)
    case WaitCheck(_) => forall i: nat | i < |queues| :: !NonEmpty(queues[i])
    case Blocked(_) => forall i: nat | i < |queues| :: !NonEmpty(queues[i])
    case _ => true
  }

  predicate Fresh(notifier: nat, pc: Pc) { PastStateCheck(pc) && pc.ticket == notifier }

  ghost predicate NothingMissed(s: State) {
    || (exists id :: Pending(s, id))
    || (forall id | id in s.threads && Fresh(s.notifier, s.threads[id]) :: SeenEmpty(s.queues, s.threads[id]))
  }

  predicate WillNotify(s: State, id: nat) { id in s.threads && (s.threads[id].Notifying? || s.threads[id].StopNotify?) }

  predicate NotBlocked(s: State, w: nat) { w < s.workers && !IsBlocked(s, w) }

  predicate BlockedFresh(s: State, w: nat) { IsBlocked(s, w) && s.threads[w].ticket == s.notifier }

  /** Some worker is up, or a notification is on its way, or some blocked worker has the current ticket. */
  ghost predicate SomeoneCares(s: State) {
    (exists w :: NotBlocked(s, w)) || (exists id :: WillNotify(s, id)) || (exists w :: BlockedFresh(s, w))
  }

  /** Where a deque would end if its owner finished its pop. */
  function End(d: Queue, owner: Pc): nat {
    if owner.PopHead? || owner.PopCas? || owner.PopRestore? then owner.t + 1 else d.tail
  }

  /** A worker's deque, given what its owner is doing. */
  predicate DequeOk(d: Queue, owner: Pc) {
    && d.head <= End(d, owner)
    && (owner.PopHead? || owner.PopCas? || owner.PopRestore? ==> d.tail == owner.t)
    && (owner.PopCas? ==> d.head >= owner.t)
    && (owner.PopRestore? ==> d.head == owner.t + 1)
    && (owner.Grab? || owner.GrabHead? || owner.GrabTail? ==> d.head == d.tail)
    && (owner.GrabHead? ==> owner.n < MAX_BATCH)
    && (owner.GrabTail? ==> owner.count < MAX_BATCH)
  }

  /** A thief's view of its victim's deque. */
  predicate ThiefOk(d: Queue, owner: Pc, thief: Pc) {
    && (thief.StealTail? ==> thief.h <= d.head)
    && (thief.StealCas? ==> thief.h <= d.head && (thief.h == d.head ==> thief.h < End(d, owner)))
  }

  predicate Steals(pc: Pc) { pc.StealTail? || pc.StealCas? }

  predicate DequeGood(s: State, i: nat)
    requires Shape(s) && i < s.workers
  {
    DequeOk(s.queues[i + 1], s.threads[i])
  }

  predicate ThiefGood(s: State, id: nat)
    requires Shape(s) && id in s.threads && Steals(s.threads[id])
  {
    ThiefOk(s.queues[s.threads[id].v + 1], s.threads[s.threads[id].v], s.threads[id])
  }

  ghost predicate DequesInv(s: State) {
    && Shape(s)
    && (forall i: nat | i < s.workers :: DequeGood(s, i))
    && (forall id | id in s.threads && Steals(s.threads[id]) :: ThiefGood(s, id))
  }

  ghost predicate Inv(s: State) {
    Shape(s) && SleepersInv(s.sleepers, s.asleep, s.threads) && StopInv(s) && NothingMissed(s) && SomeoneCares(s) && DequesInv(s)
  }

  lemma InitInv(s: State)
    requires Init(s)
    ensures Inv(s)
  {
    assert NotBlocked(s, 0);
  }

  // ---------------------------------------------------------------- steps and what they change

  predicate InStop(pc: Pc) { pc.StopInc? || pc.StopNotify? || pc.Join? }

  predicate Plain(pc: Pc) { !InRegion(pc) && !InStop(pc) }

  /** A step of one thread outside the sleeper count and outside `stop`: it may change queues and
      raise the notifier. */
  ghost predicate Quiet(s: State, s': State, id: nat) {
    && id in s.threads && id in s'.threads && s'.threads == s.threads[id := s'.threads[id]]
    && Plain(s.threads[id]) && Plain(s'.threads[id]) && KindOk(s.workers, id, s'.threads[id])
    && s'.state == s.state && s'.sleepers == s.sleepers && s'.workers == s.workers && s'.asleep == s.asleep
    && s'.stage == s.stage && s'.stopper == s.stopper && |s'.queues| == |s.queues|
    && s.notifier <= s'.notifier
  }

  lemma SubmitStepIsQuiet(s: State, id: nat, choice: nat)
    requires Shape(s) && id in s.threads && Submitting(s.threads[id])
    ensures Quiet(s, SubmitStep(s, id, choice), id)
  {
    var s' := SubmitStep(s, id, choice);
    match s.threads[id] {
      case LocalHead(n) =>
      case LocalTail(count, rest) =>
      case Global(n) =>
      case CheckSleepers(rest, own) =>
      case Inc(rest, own) =>
    }
  }

  predicate InLoop(pc: Pc) { PopsOrGrabs(pc) || pc.Top? || pc.PopTail? || InSteal(pc) || pc.Spin? }

  predicate PopsOrGrabs(pc: Pc) { pc.PopHead? || pc.PopCas? || pc.PopRestore? || pc.Grab? || pc.GrabHead? || pc.GrabTail? }

  predicate InSteal(pc: Pc) { pc.StealStart? || pc.StealHead? || pc.StealTail? || pc.StealCas? }

  lemma PopIsQuiet(s: State, id: nat, choice: nat)
    requires Shape(s) && id in s.threads && InLoop(s.threads[id]) && !InSteal(s.threads[id]) && !s.threads[id].Spin?
    ensures Quiet(s, LoopStep(s, id, choice), id)
  {
    match s.threads[id] {
      case Top =>
      case PopTail =>
      case PopHead(t) =>
      case PopCas(t) =>
      case PopRestore(t, got) =>
      case Grab =>
      case GrabHead(n) =>
      case GrabTail(count) =>
    }
  }

  lemma SearchIsQuiet(s: State, id: nat, choice: nat)
    requires Shape(s) && id in s.threads && (InSteal(s.threads[id]) || s.threads[id].Spin?)
    ensures Quiet(s, LoopStep(s, id, choice), id)
  {
    match s.threads[id] {
      case StealStart =>
      case StealHead(k, v) =>
      case StealTail(k, v, h) =>
      case StealCas(k, v, h) =>
      case Spin(i) =>
    }
  }

  lemma LoopStepIsQuiet(s: State, id: nat, choice: nat)
    requires Shape(s) && id in s.threads && InLoop(s.threads[id])
    ensures Quiet(s, LoopStep(s, id, choice), id)
  {
    hide Quiet, LoopStep;
    if InSteal(s.threads[id]) || s.threads[id].Spin? {
      SearchIsQuiet(s, id, choice);
    } else {
      PopIsQuiet(s, id, choice);
    }
  }

  lemma QuietShape(s: State, s': State, id: nat)
    requires Shape(s) && Quiet(s, s', id)
    ensures Shape(s')
  {
  }

  lemma QuietSleepers(s: State, s': State, id: nat)
    requires SleepersInv(s.sleepers, s.asleep, s.threads) && Quiet(s, s', id)
    ensures SleepersInv(s'.sleepers, s'.asleep, s'.threads)
  {
  }

  lemma QuietStop(s: State, s': State, id: nat)
    requires StopInv(s) && Quiet(s, s', id)
    ensures StopInv(s')
  {
  }

  // Nothing is missed.

  /** No queue has anything it did not have before. */
  ghost predicate Shrunk(queues: seq<Queue>, queues': seq<Queue>) {
    && |queues| == |queues'|
    && forall i: nat | i < |queues| && NonEmpty(queues'[i]) :: NonEmpty(queues[i]) && queues'[i].tail <= queues[i].tail
  }

  lemma SeenEmptyKept(queues: seq<Queue>, queues': seq<Queue>, pc: Pc)
    requires SeenEmpty(queues, pc) && Shrunk(queues, queues')
    ensures SeenEmpty(queues', pc)
  {
  }

  lemma QuietMissed(s: State, s': State, id: nat)
    requires Quiet(s, s', id) && NothingMissed(s) && !Pending(s, id)
    requires s'.notifier == s.notifier && Shrunk(s.queues, s'.queues)
    ensures NothingMissed(s')
  {
    if x :| Pending(s, x) {
      assert Pending(s', x);
    } else {
      forall x | x in s'.threads && Fresh(s'.notifier, s'.threads[x])
        ensures SeenEmpty(s'.queues, s'.threads[x])
      {
        SeenEmptyKept(s.queues, s'.queues, s.threads[x]);
      }
    }
  }

  lemma NobodyAsleep(s: State)
    requires SleepersInv(s.sleepers, s.asleep, s.threads) && s.sleepers == 0
    ensures NothingMissed(s)
  {
    assert s.asleep == {};
    assert forall id | id in s.threads :: !InRegion(s.threads[id]);
  }

  lemma NobodyFresh(s: State, s': State, id: nat)
    requires Quiet(s, s', id) && StopInv(s) && s.notifier < s'.notifier
    ensures NothingMissed(s')
  {
    assert forall x | x in s.threads :: TicketOk(s.notifier, s.stage, s.threads[x]);
  }

  lemma SubmitMissed(s: State, id: nat, choice: nat)
    requires Inv(s) && id in s.threads && Submitting(s.threads[id])
    ensures NothingMissed(SubmitStep(s, id, choice))
  {
    var s' := SubmitStep(s, id, choice);
    SubmitStepIsQuiet(s, id, choice);
    if s.threads[id].CheckSleepers? && s.sleepers == 0 {
      QuietSleepers(s, s', id);
      NobodyAsleep(s');
    } else if s.threads[id].Inc? {
      NobodyFresh(s, s', id);
    } else if s'.threads[id].CheckSleepers? || s'.threads[id].Inc? {
      assert Pending(s', id);
    } else {
      QuietMissed(s, s', id);
    }
  }

  lemma LoopShrinks(s: State, id: nat, choice: nat)
    requires DequesInv(s) && id in s.threads && InLoop(s.threads[id]) && !s.threads[id].GrabTail?
    ensures Shrunk(s.queues, LoopStep(s, id, choice).queues)
    ensures LoopStep(s, id, choice).notifier == s.notifier && !Pending(s, id)
  {
    assert DequeGood(s, id);
    match s.threads[id] {
      case PopTail =>
      case PopCas(t) =>
      case PopRestore(t, got) =>
      case Grab =>
      case StealCas(k, v, h) =>
      case Spin(i) =>
      case _ =>
    }
  }

  lemma LoopMissed(s: State, id: nat, choice: nat)
    requires Inv(s) && id in s.threads && InLoop(s.threads[id])
    ensures NothingMissed(LoopStep(s, id, choice))
  {
    LoopStepIsQuiet(s, id, choice);
    if s.threads[id].GrabTail? {
      assert Pending(LoopStep(s, id, choice), id);
    } else {
      LoopShrinks(s, id, choice);
      QuietMissed(s, LoopStep(s, id, choice), id);
    }
  }

  /** A step of one thread that changes neither queues nor the notifier. */
  ghost predicate Local(s: State, s': State, id: nat) {
    && id in s.threads && id in s'.threads && s'.threads == s.threads[id := s'.threads[id]]
    && s'.queues == s.queues && s'.notifier == s.notifier && s'.workers == s.workers
  }

  lemma SleepStepLook(s: State, id: nat)
    requires Shape(s) && id in s.threads && GoingToSleep(s.threads[id])
    requires Fresh(s.notifier, s.threads[id]) ==> SeenEmpty(s.queues, s.threads[id])
    ensures var s' := SleepStep(s, id);
            Local(s, s', id) && (Fresh(s.notifier, s'.threads[id]) ==> SeenEmpty(s.queues, s'.threads[id]))
  {
    match s.threads[id] {
      case IncSleepers =>
      case LoadTicket =>
      case CheckState(ticket) =>
      case SizeTail(ticket, q) =>
      case SizeHead(ticket, q, t) =>
      case WaitCheck(ticket) =>
      case DecSleepers =>
      case DecAndExit =>
    }
  }

  lemma SleepMissed(s: State, id: nat)
    requires Inv(s) && id in s.threads && GoingToSleep(s.threads[id])
    ensures NothingMissed(SleepStep(s, id))
  {
    var s' := SleepStep(s, id);
    if x :| Pending(s, x) {
      SleepStepFrame(s, id);
      assert Pending(s', x);
    } else {
      SleepStepLook(s, id);
    }
  }

  lemma SleepStepFrame(s: State, id: nat)
    requires Shape(s) && id in s.threads && GoingToSleep(s.threads[id])
    ensures Local(s, SleepStep(s, id), id)
  {
  }

  lemma SleepKeepsShape(s: State, id: nat)
    requires Shape(s) && id in s.threads && GoingToSleep(s.threads[id])
    ensures Shape(SleepStep(s, id))
  {
    match s.threads[id] {
      case SizeHead(ticket, q, t) =>
      case _ =>
    }
  }

  lemma SleepKeepsCounts(s: State, id: nat)
    requires Shape(s) && id in s.threads && GoingToSleep(s.threads[id])
    requires SleepersInv(s.sleepers, s.asleep, s.threads)
    ensures var s' := SleepStep(s, id); SleepersInv(s'.sleepers, s'.asleep, s'.threads)
  {
    assert id in s.asleep <==> InRegion(s.threads[id]);
    match s.threads[id] {
      case IncSleepers =>
      case LoadTicket =>
      case CheckState(ticket) =>
      case SizeTail(ticket, q) =>
      case SizeHead(ticket, q, t) =>
      case WaitCheck(ticket) =>
      case DecSleepers =>
      case DecAndExit =>
    }
  }

  lemma TicketNow(s: State, id: nat)
    requires StopInv(s) && id in s.threads
    ensures TicketOk(s.notifier, s.stage, s.threads[id])
    ensures s.stage == 0 <==> s.state == RUNNING
  {
  }

  lemma SleepTicket(s: State, id: nat)
    requires Shape(s) && id in s.threads && GoingToSleep(s.threads[id]) && TicketOk(s.notifier, s.stage, s.threads[id])
    requires s.stage == 0 <==> s.state == RUNNING
    ensures var s' := SleepStep(s, id);
            && id in s'.threads && s'.threads == s.threads[id := s'.threads[id]] && !InStop(s'.threads[id])
            && TicketOk(s.notifier, s.stage, s'.threads[id])
            && s'.state == s.state && s'.stage == s.stage && s'.stopper == s.stopper && s'.notifier == s.notifier
  {
    hide Shape;
    match s.threads[id] {
      case IncSleepers =>
      case LoadTicket =>
      case CheckState(ticket) =>
      case SizeTail(ticket, q) =>
      case SizeHead(ticket, q, t) =>
      case WaitCheck(ticket) =>
      case DecSleepers =>
      case DecAndExit =>
    }
  }

  lemma StopKept(s: State, s': State, id: nat)
    requires StopInv(s) && id in s'.threads && s'.threads == s.threads[id := s'.threads[id]] && !InStop(s'.threads[id])
    requires TicketOk(s.notifier, s.stage, s'.threads[id])
    requires s'.state == s.state && s'.stage == s.stage && s'.stopper == s.stopper && s'.notifier == s.notifier
    ensures StopInv(s')
  {
  }

  lemma SleepKeepsStop(s: State, id: nat)
    requires Shape(s) && id in s.threads && GoingToSleep(s.threads[id]) && StopInv(s)
    ensures StopInv(SleepStep(s, id))
  {
    hide StopInv, KindOk;
    TicketNow(s, id);
    SleepTicket(s, id);
    StopKept(s, SleepStep(s, id), id);
  }

  // Someone cares.

  lemma QuietCares(s: State, s': State, id: nat)
    requires Shape(s) && Quiet(s, s', id) && SomeoneCares(s) && !WillNotify(s, id)
    requires s'.notifier == s.notifier || WillNotify(s', id)
    ensures SomeoneCares(s')
  {
    if WillNotify(s', id) {
    } else if w :| NotBlocked(s, w) {
      assert NotBlocked(s', w);
    } else if x :| WillNotify(s, x) {
      assert WillNotify(s', x);
    } else {
      var w :| BlockedFresh(s, w);
      assert BlockedFresh(s', w);
    }
  }

  lemma SubmitCares(s: State, id: nat, choice: nat)
    requires Shape(s) && id in s.threads && Submitting(s.threads[id]) && SomeoneCares(s)
    ensures SomeoneCares(SubmitStep(s, id, choice))
  {
    SubmitStepIsQuiet(s, id, choice);
    QuietCares(s, SubmitStep(s, id, choice), id);
  }

  lemma LoopCares(s: State, id: nat, choice: nat)
    requires Shape(s) && id in s.threads && InLoop(s.threads[id])
    ensures SomeoneCares(LoopStep(s, id, choice))
  {
    LoopStepIsQuiet(s, id, choice);
    assert NotBlocked(LoopStep(s, id, choice), id);
  }

  lemma SleepCares(s: State, id: nat)
    requires Shape(s) && id in s.threads && GoingToSleep(s.threads[id])
    ensures SomeoneCares(SleepStep(s, id))
  {
    var s' := SleepStep(s, id);
    SleepStepFrame(s, id);
    if s'.threads[id].Blocked? {
      assert BlockedFresh(s', id);
    } else {
      assert NotBlocked(s', id);
    }
  }

  // Deques.

  predicate Neutral(pc: Pc) { !PopsOrGrabs(pc) && !Steals(pc) }

  /** What a step of the owner may do to its deque. */
  predicate OwnerGood(d: Queue, owner: Pc, d': Queue, owner': Pc) {
    && DequeOk(d', owner') && d.head <= d'.head
    && (d.head == d'.head ==> End(d, owner) <= End(d', owner') || d'.head < End(d', owner'))
  }

  lemma ThiefKept(d: Queue, owner: Pc, d': Queue, owner': Pc, thief: Pc)
    requires ThiefOk(d, owner, thief) && OwnerGood(d, owner, d', owner')
    ensures ThiefOk(d', owner', thief)
  {
  }

  lemma DequesOwner(s: State, s': State, id: nat)
    requires DequesInv(s) && Shape(s') && id in s.threads && s'.workers == s.workers
    requires id in s'.threads && s'.threads == s.threads[id := s'.threads[id]] && !Steals(s'.threads[id])
    requires forall q | 0 < q <= s.workers && q != id + 1 :: s'.queues[q] == s.queues[q]
    requires id < s.workers ==> OwnerGood(s.queues[id + 1], s.threads[id], s'.queues[id + 1], s'.threads[id])
    ensures DequesInv(s')
  {
    hide ThiefOk, DequeOk;
    forall i: nat | i < s.workers
      ensures DequeGood(s', i)
    {
      assert DequeGood(s, i);
    }
    forall x | x in s'.threads && Steals(s'.threads[x])
      ensures ThiefGood(s', x)
    {
      var v := s.threads[x].v;
      assert ThiefGood(s, x);
      if v == id {
        ThiefKept(s.queues[v + 1], s.threads[v], s'.queues[v + 1], s'.threads[v], s.threads[x]);
      }
    }
  }

  /** Outside its pops and grabs an owner is the same to its deque. */
  lemma IdleOwner(d: Queue, pc: Pc, pc': Pc)
    requires DequeOk(d, pc) && !PopsOrGrabs(pc) && !PopsOrGrabs(pc')
    ensures DequeOk(d, pc')
  {
  }

  lemma IdleVictim(d: Queue, pc: Pc, pc': Pc, thief: Pc)
    requires ThiefOk(d, pc, thief) && !PopsOrGrabs(pc) && !PopsOrGrabs(pc')
    ensures ThiefOk(d, pc', thief)
  {
  }

  /** Threads that move between states with no claim on any deque. */
  lemma DequesNeutral(s: State, s': State)
    requires DequesInv(s) && Shape(s') && s'.workers == s.workers && s'.threads.Keys == s.threads.Keys
    requires forall q | 0 < q <= s.workers :: s'.queues[q] == s.queues[q]
    requires forall x | x in s.threads :: s'.threads[x] == s.threads[x] || (Neutral(s.threads[x]) && Neutral(s'.threads[x]))
    ensures DequesInv(s')
  {
    hide DequeGood, ThiefGood, Neutral, Steals, Shape;
    OwnersNeutral(s, s');
    ThievesNeutral(s, s');
  }

  lemma OwnersNeutral(s: State, s': State)
    requires DequesInv(s) && Shape(s') && s'.workers == s.workers && s'.threads.Keys == s.threads.Keys
    requires forall q | 0 < q <= s.workers :: s'.queues[q] == s.queues[q]
    requires forall x | x in s.threads :: s'.threads[x] == s.threads[x] || (Neutral(s.threads[x]) && Neutral(s'.threads[x]))
    ensures forall i: nat | i < s.workers :: DequeGood(s', i)
  {
    hide DequeOk, ThiefGood;
    forall i: nat | i < s.workers
      ensures DequeGood(s', i)
    {
      assert DequeGood(s, i);
      if s'.threads[i] != s.threads[i] {
        IdleOwner(s.queues[i + 1], s.threads[i], s'.threads[i]);
      }
    }
  }

  lemma ThievesNeutral(s: State, s': State)
    requires DequesInv(s) && Shape(s') && s'.workers == s.workers && s'.threads.Keys == s.threads.Keys
    requires forall q | 0 < q <= s.workers :: s'.queues[q] == s.queues[q]
    requires forall x | x in s.threads :: s'.threads[x] == s.threads[x] || (Neutral(s.threads[x]) && Neutral(s'.threads[x]))
    ensures forall x | x in s'.threads && Steals(s'.threads[x]) :: ThiefGood(s', x)
  {
    hide DequeGood, ThiefOk;
    forall x | x in s'.threads && Steals(s'.threads[x])
      ensures ThiefGood(s', x)
    {
      var v := s'.threads[x].v;
      assert ThiefGood(s, x);
      if s'.threads[v] != s.threads[v] {
        IdleVictim(s.queues[v + 1], s.threads[v], s'.threads[v], s.threads[x]);
      }
    }
  }

  /** A thief looks at its victim. */
  lemma DequesThief(s: State, s': State, id: nat)
    requires DequesInv(s) && Shape(s') && s'.workers == s.workers && s'.queues == s.queues
    requires id < s.workers && id in s'.threads && s'.threads == s.threads[id := s'.threads[id]]
    requires InSteal(s.threads[id]) && Steals(s'.threads[id]) && s'.threads[id].v != id
    requires ThiefOk(s.queues[s'.threads[id].v + 1], s.threads[s'.threads[id].v], s'.threads[id])
    ensures DequesInv(s')
  {
    hide DequeOk, ThiefOk;
    forall i: nat | i < s.workers
      ensures DequeGood(s', i)
    {
      assert DequeGood(s, i);
      if i == id {
        IdleOwner(s.queues[i + 1], s.threads[i], s'.threads[i]);
      }
    }
    forall x | x in s'.threads && Steals(s'.threads[x])
      ensures ThiefGood(s', x)
    {
      var v := s'.threads[x].v;
      if x != id {
        assert ThiefGood(s, x);
        if v == id {
          IdleVictim(s.queues[v + 1], s.threads[v], s'.threads[v], s.threads[x]);
        }
      }
    }
  }

  lemma StolenIsGood(d: Queue, owner: Pc, thief: Pc)
    requires DequeOk(d, owner) && ThiefOk(d, owner, thief) && thief.StealCas? && thief.h == d.head
    ensures OwnerGood(d, owner, Queue(d.head + 1, d.tail), owner) && DequeOk(Queue(d.head + 1, d.tail), owner)
  {
  }

  /** A thief wins the item at the head of its victim's deque. */
  lemma DequesStolen(s: State, s': State, id: nat, v: nat)
    requires DequesInv(s) && Shape(s') && s'.workers == s.workers && id < s.workers && v < s.workers && v != id
    requires s.threads[id].StealCas? && s.threads[id].v == v && s.threads[id].h == s.queues[v + 1].head
    requires s'.threads == s.threads[id := Work]
    requires s'.queues == s.queues[v + 1 := Queue(s.queues[v + 1].head + 1, s.queues[v + 1].tail)]
    ensures DequesInv(s')
  {
    hide End, DequeOk, ThiefOk, OwnerGood;
    assert ThiefGood(s, id);
    assert DequeGood(s, v);
    StolenIsGood(s.queues[v + 1], s.threads[v], s.threads[id]);
    forall i: nat | i < s.workers
      ensures DequeGood(s', i)
    {
      assert DequeGood(s, i);
      if i == id {
        IdleOwner(s.queues[id + 1], s.threads[id], Work);
      }
    }
    forall x | x in s'.threads && Steals(s'.threads[x])
      ensures ThiefGood(s', x)
    {
      var u := s.threads[x].v;
      assert ThiefGood(s, x);
      if u == v {
        ThiefKept(s.queues[v + 1], s.threads[v], s'.queues[v + 1], s'.threads[v], s.threads[x]);
      } else if u == id {
        IdleVictim(s.queues[u + 1], s.threads[u], Work, s.threads[x]);
      }
    }
  }

  lemma SubmitDeques(s: State, id: nat, choice: nat)
    requires DequesInv(s) && id in s.threads && Submitting(s.threads[id])
    ensures DequesInv(SubmitStep(s, id, choice))
  {
    var s' := SubmitStep(s, id, choice);
    SubmitStepIsQuiet(s, id, choice);
    QuietShape(s, s', id);
    if id < s.workers {
      assert DequeGood(s, id);
    }
    DequesOwner(s, s', id);
  }

  lemma PopMoves(s: State, id: nat, choice: nat)
    requires Shape(s) && id in s.threads && InLoop(s.threads[id]) && !InSteal(s.threads[id])
    ensures id < s.workers
    ensures var s' := LoopStep(s, id, choice);
            && id in s'.threads && s'.threads == s.threads[id := s'.threads[id]] && s'.workers == s.workers && !Steals(s'.threads[id])
            && |s'.queues| == |s.queues| && (forall q | 0 < q <= s.workers && q != id + 1 :: s'.queues[q] == s.queues[q])
  {
  }

  lemma PopGood(s: State, id: nat, choice: nat)
    requires DequesInv(s) && id in s.threads && id < s.workers && InLoop(s.threads[id]) && !InSteal(s.threads[id])
    ensures var s' := LoopStep(s, id, choice);
            id in s'.threads && |s'.queues| == |s.queues| && OwnerGood(s.queues[id + 1], s.threads[id], s'.queues[id + 1], s'.threads[id])
  {
    hide ThiefOk;
    assert DequeGood(s, id);
    match s.threads[id] {
      case Top =>
      case PopTail =>
      case PopHead(t) =>
      case PopCas(t) =>
      case PopRestore(t, got) =>
      case Grab =>
      case GrabHead(n) =>
      case GrabTail(count) =>
      case Spin(i) =>
    }
  }

  lemma PopDeques(s: State, id: nat, choice: nat)
    requires DequesInv(s) && id in s.threads && InLoop(s.threads[id]) && !InSteal(s.threads[id])
    ensures DequesInv(LoopStep(s, id, choice))
  {
    hide DequeOk, ThiefOk, OwnerGood, Quiet, LoopStep, KindOk;
    var s' := LoopStep(s, id, choice);
    LoopStepIsQuiet(s, id, choice);
    QuietShape(s, s', id);
    PopMoves(s, id, choice);
    PopGood(s, id, choice);
    DequesOwner(s, s', id);
  }

  lemma StealMoves(s: State, id: nat, choice: nat)
    requires DequesInv(s) && id in s.threads && InSteal(s.threads[id])
    ensures id < s.workers
    ensures var s' := LoopStep(s, id, choice);
            && id in s'.threads && s'.threads == s.threads[id := s'.threads[id]] && s'.workers == s.workers
            && if Steals(s'.threads[id]) then
                 var v := s'.threads[id].v;
                 s'.queues == s.queues && v < s.workers && v != id && ThiefOk(s.queues[v + 1], s.threads[v], s'.threads[id])
               else if s.threads[id].StealCas? && s'.threads[id] == Work then
                 var v := s.threads[id].v;
                 && v < s.workers && v != id && s.threads[id].h == s.queues[v + 1].head
                 && s'.queues == s.queues[v + 1 := Queue(s.queues[v + 1].head + 1, s.queues[v + 1].tail)]
               else s'.queues == s.queues && OwnerGood(s.queues[id + 1], s.threads[id], s'.queues[id + 1], s'.threads[id])
  {
    assert DequeGood(s, id);
    if Steals(s.threads[id]) {
      var v := s.threads[id].v;
      assert ThiefGood(s, id);
      assert DequeGood(s, v);
    }
  }

  lemma StealDeques(s: State, id: nat, choice: nat)
    requires DequesInv(s) && id in s.threads && InSteal(s.threads[id])
    ensures DequesInv(LoopStep(s, id, choice))
  {
    hide DequeOk, ThiefOk, OwnerGood, Quiet, LoopStep, KindOk;
    var s' := LoopStep(s, id, choice);
    LoopStepIsQuiet(s, id, choice);
    QuietShape(s, s', id);
    StealMoves(s, id, choice);
    if Steals(s'.threads[id]) {
      DequesThief(s, s', id);
    } else if s.threads[id].StealCas? && s'.threads[id] == Work {
      DequesStolen(s, s', id, s.threads[id].v);
    } else {
      DequesOwner(s, s', id);
    }
  }

  // Events.

  lemma StepInv(s: State, id: nat, choice: nat)
    requires Inv(s) && Enabled(s, Step(id, choice))
    ensures Inv(Next(s, Step(id, choice)))
  {
    var pc, s' := s.threads[id], Next(s, Step(id, choice));
    if Submitting(pc) {
      SubmitStepIsQuiet(s, id, choice);
      QuietKeeps(s, s', id);
      SubmitMissed(s, id, choice);
      SubmitCares(s, id, choice);
      SubmitDeques(s, id, choice);
    } else if GoingToSleep(pc) {
      SleepKeepsShape(s, id);
      SleepKeepsCounts(s, id);
      SleepKeepsStop(s, id);
      SleepMissed(s, id);
      SleepCares(s, id);
      SleepDeques(s, id);
    } else if pc.StopInc? || pc.Join? {
      StopStepInv(s, id);
    } else {
      LoopStepIsQuiet(s, id, choice);
      QuietKeeps(s, s', id);
      LoopMissed(s, id, choice);
      LoopCares(s, id, choice);
      LoopDeques(s, id, choice);
    }
  }

  lemma QuietKeeps(s: State, s': State, id: nat)
    requires Inv(s) && Quiet(s, s', id)
    ensures Shape(s') && SleepersInv(s'.sleepers, s'.asleep, s'.threads) && StopInv(s')
  {
    QuietShape(s, s', id);
    QuietSleepers(s, s', id);
    QuietStop(s, s', id);
  }

  lemma LoopDeques(s: State, id: nat, choice: nat)
    requires DequesInv(s) && id in s.threads && InLoop(s.threads[id])
    ensures DequesInv(LoopStep(s, id, choice))
  {
    if InSteal(s.threads[id]) {
      StealDeques(s, id, choice);
    } else {
      PopDeques(s, id, choice);
    }
  }

  lemma SleepDeques(s: State, id: nat)
    requires DequesInv(s) && id in s.threads && GoingToSleep(s.threads[id]) && Shape(SleepStep(s, id))
    ensures DequesInv(SleepStep(s, id))
  {
    SleepStepFrame(s, id);
    SleepStepLeads(s, id);
    DequesNeutral(s, SleepStep(s, id));
  }

  lemma SleepStepLeads(s: State, id: nat)
    requires Shape(s) && id in s.threads && GoingToSleep(s.threads[id])
    ensures Neutral(SleepStep(s, id).threads[id])
  {
  }

  /** Threads that only move between states with no pending submission: what has been seen stays seen. */
  lemma CalmMissed(s: State, s': State)
    requires NothingMissed(s) && s'.threads.Keys == s.threads.Keys && s'.queues == s.queues && s'.notifier == s.notifier
    requires forall x | x in s.threads && s'.threads[x] != s.threads[x] :: Calm(s.notifier, s.threads[x], s'.threads[x])
    ensures NothingMissed(s')
  {
    if x :| Pending(s, x) {
      assert Pending(s', x);
    } else {
      forall x | x in s'.threads && Fresh(s'.notifier, s'.threads[x])
        ensures SeenEmpty(s'.queues, s'.threads[x])
      {
        assert Fresh(s.notifier, s.threads[x]) && SeenEmpty(s.queues, s.threads[x]);
      }
    }
  }

  predicate Calm(notifier: nat, pc: Pc, pc': Pc) {
    && !pc.CheckSleepers? && !pc.Inc?
    && (Fresh(notifier, pc') ==> pc.Blocked? && pc' == Unblock(pc))
  }

  lemma StopStepMissed(s: State, id: nat)
    requires Shape(s) && NothingMissed(s) && StopInv(s) && id in s.threads && (s.threads[id].StopInc? || s.threads[id].Join?)
    ensures NothingMissed(StopStep(s, id))
  {
    if s.threads[id].StopInc? {
      assert forall x | x in s.threads :: TicketOk(s.notifier, s.stage, s.threads[x]);
    } else {
      CalmMissed(s, StopStep(s, id));
    }
  }

  lemma StopStepMoves(s: State, id: nat)
    requires Shape(s) && id in s.threads && (s.threads[id].StopInc? || s.threads[id].Join?)
    ensures var s' := StopStep(s, id);
            && Shape(s') && s'.workers == s.workers && s'.threads.Keys == s.threads.Keys && s'.queues == s.queues
            && forall x | x in s.threads :: s'.threads[x] == s.threads[x] || (Neutral(s.threads[x]) && Neutral(s'.threads[x]))
  {
    hide TicketOk;
  }

  lemma StopStepDeques(s: State, id: nat)
    requires Shape(s) && DequesInv(s) && id in s.threads && (s.threads[id].StopInc? || s.threads[id].Join?)
    ensures DequesInv(StopStep(s, id))
  {
    hide DequesInv, Shape, StopStep, Neutral;
    StopStepMoves(s, id);
    DequesNeutral(s, StopStep(s, id));
  }

  lemma StopStepCares(s: State, id: nat)
    requires Shape(s) && Enabled(s, Step(id, 0)) && (s.threads[id].StopInc? || s.threads[id].Join?)
    ensures SomeoneCares(StopStep(s, id))
  {
    if s.threads[id].StopInc? {
      assert WillNotify(StopStep(s, id), id);
    } else {
      assert Is(s, 0, Exited);
      assert NotBlocked(StopStep(s, id), 0);
    }
  }

  lemma StopStepSleepers(s: State, id: nat)
    requires Shape(s) && SleepersInv(s.sleepers, s.asleep, s.threads) && id in s.threads && (s.threads[id].StopInc? || s.threads[id].Join?)
    ensures var s' := StopStep(s, id); SleepersInv(s'.sleepers, s'.asleep, s'.threads)
  {
  }

  lemma StopStepInv(s: State, id: nat)
    requires Inv(s) && Enabled(s, Step(id, 0)) && (s.threads[id].StopInc? || s.threads[id].Join?)
    ensures Inv(StopStep(s, id))
  {
    StopStepDeques(s, id);
    StopStepSleepers(s, id);
    StopStepStop(s, id);
    StopStepMissed(s, id);
    StopStepCares(s, id);
  }

  lemma StopStepStop(s: State, id: nat)
    requires Inv(s) && Enabled(s, Step(id, 0)) && (s.threads[id].StopInc? || s.threads[id].Join?)
    ensures StopInv(StopStep(s, id))
  {
    assert StopOk(s.state, s.stage, s.stopper, id, s.threads[id]);
  }

  /** `Submit`, `FinishJob`, and a notification with nobody to wake. */
  lemma MoveInv(s: State, id: nat, pc: Pc)
    requires Inv(s) && id in s.threads && Neutral(s.threads[id]) && Plain(s.threads[id])
    requires Neutral(pc) && Plain(pc) && KindOk(s.workers, id, pc)
    requires !Pending(s, id)
    requires s.threads[id].Notifying? ==> exists w :: NotBlocked(s, w)
    ensures Inv(Goto(s, id, pc))
  {
    hide SleepersInv, StopInv, DequesInv;
    var s' := Goto(s, id, pc);
    QuietKeeps(s, s', id);
    DequesNeutral(s, s');
    QuietMissed(s, s', id);
    if s.threads[id].Notifying? {
      var w :| NotBlocked(s, w);
      assert NotBlocked(s', w);
    } else {
      QuietCares(s, s', id);
    }
  }

  lemma UnblockStop(s: State, id: nat)
    requires StopInv(s) && IsBlocked(s, id)
    ensures StopInv(Goto(s, id, Unblock(s.threads[id])))
  {
    assert TicketOk(s.notifier, s.stage, s.threads[id]);
  }

  lemma UnblockShape(s: State, id: nat)
    requires Shape(s) && SleepersInv(s.sleepers, s.asleep, s.threads) && IsBlocked(s, id)
    ensures var s' := Goto(s, id, Unblock(s.threads[id]));
            Shape(s') && SleepersInv(s'.sleepers, s'.asleep, s'.threads) && NotBlocked(s', id)
  {
  }

  lemma UnblockDeques(s: State, id: nat)
    requires DequesInv(s) && IsBlocked(s, id) && Shape(Goto(s, id, Unblock(s.threads[id])))
    ensures DequesInv(Goto(s, id, Unblock(s.threads[id])))
  {
    hide DequesInv, Shape;
    DequesNeutral(s, Goto(s, id, Unblock(s.threads[id])));
  }

  lemma UnblockMissed(s: State, id: nat)
    requires NothingMissed(s) && IsBlocked(s, id)
    ensures NothingMissed(Goto(s, id, Unblock(s.threads[id])))
  {
    hide NothingMissed;
    CalmMissed(s, Goto(s, id, Unblock(s.threads[id])));
  }

  lemma UnblockCares(s: State, id: nat)
    requires IsBlocked(s, id) && NotBlocked(Goto(s, id, Unblock(s.threads[id])), id)
    ensures SomeoneCares(Goto(s, id, Unblock(s.threads[id])))
  {
  }

  lemma UnblockInv(s: State, id: nat)
    requires Inv(s) && IsBlocked(s, id)
    ensures Inv(Goto(s, id, Unblock(s.threads[id]))) && NotBlocked(Goto(s, id, Unblock(s.threads[id])), id)
  {
    hide SleepersInv, StopInv, NothingMissed, SomeoneCares, DequesInv;
    UnblockShape(s, id);
    UnblockDeques(s, id);
    UnblockStop(s, id);
    UnblockMissed(s, id);
    UnblockCares(s, id);
  }

  lemma NobodyBlocked(s: State)
    requires Shape(s) && forall w :: !IsBlocked(s, w)
    ensures NotBlocked(s, 0)
  {
    assert !IsBlocked(s, 0);
  }

  lemma NotifyInv(s: State, id: nat, wake: Option<nat>)
    requires Inv(s) && Enabled(s, Notify(id, wake))
    ensures Inv(Next(s, Notify(id, wake)))
  {
    hide SleepersInv, StopInv, NothingMissed, SomeoneCares, DequesInv;
    var pc := After(id, s.workers, s.threads[id].rest);
    if wake == None {
      NobodyBlocked(s);
      MoveInv(s, id, pc);
    } else {
      UnblockInv(s, wake.value);
      MoveInv(Goto(s, wake.value, Unblock(s.threads[wake.value])), id, pc);
    }
  }

  lemma NotifyAllMoves(s: State, id: nat)
    requires Shape(s) && Enabled(s, NotifyAll(id))
    ensures var s' := Next(s, NotifyAll(id));
            && s'.workers == s.workers && s'.threads.Keys == s.threads.Keys && s'.queues == s.queues
            && forall x | x in s.threads :: s'.threads[x] == s.threads[x] || (Neutral(s.threads[x]) && Neutral(s'.threads[x]))
  {
    hide Shape;
  }

  lemma NotifyAllDeques(s: State, id: nat)
    requires Shape(s) && DequesInv(s) && Enabled(s, NotifyAll(id)) && Shape(Next(s, NotifyAll(id)))
    ensures DequesInv(Next(s, NotifyAll(id)))
  {
    hide DequesInv, Shape, Next, Neutral, Unblock;
    NotifyAllMoves(s, id);
    DequesNeutral(s, Next(s, NotifyAll(id)));
  }

  lemma NotifyAllMissed(s: State, id: nat)
    requires Shape(s) && NothingMissed(s) && Enabled(s, NotifyAll(id))
    ensures NothingMissed(Next(s, NotifyAll(id))) && NotBlocked(Next(s, NotifyAll(id)), 0)
  {
    CalmMissed(s, Next(s, NotifyAll(id)));
  }

  lemma NotifyAllInv(s: State, id: nat)
    requires Inv(s) && Enabled(s, NotifyAll(id))
    ensures Inv(Next(s, NotifyAll(id)))
  {
    NotifyAllShape(s, id);
    NotifyAllDeques(s, id);
    NotifyAllStop(s, id);
    NotifyAllMissed(s, id);
  }

  lemma NotifyAllShape(s: State, id: nat)
    requires Shape(s) && SleepersInv(s.sleepers, s.asleep, s.threads) && Enabled(s, NotifyAll(id))
    ensures var s' := Next(s, NotifyAll(id)); Shape(s') && SleepersInv(s'.sleepers, s'.asleep, s'.threads)
  {
    hide TicketOk, Room;
  }

  lemma NotifyAllStop(s: State, id: nat)
    requires Inv(s) && Enabled(s, NotifyAll(id))
    ensures StopInv(Next(s, NotifyAll(id)))
  {
    assert StopOk(s.state, s.stage, s.stopper, id, s.threads[id]);
    forall x | x in s.threads
      ensures StopOk(s.state, 3, s.stopper, x, Next(s, NotifyAll(id)).threads[x])
      ensures TicketOk(s.notifier, 3, Next(s, NotifyAll(id)).threads[x])
    {
      assert StopOk(s.state, s.stage, s.stopper, x, s.threads[x]) && TicketOk(s.notifier, s.stage, s.threads[x]);
    }
  }

  lemma StartStopCares(s: State, id: nat)
    requires Shape(s) && SomeoneCares(s) && Is(s, id, Out)
    ensures SomeoneCares(Goto(s, id, StopInc).(state := STOPPING, stage := 1, stopper := id))
  {
    var s' := Goto(s, id, StopInc).(state := STOPPING, stage := 1, stopper := id);
    if w :| NotBlocked(s, w) {
      assert NotBlocked(s', w);
    } else if x :| WillNotify(s, x) {
      assert WillNotify(s', x);
    } else {
      var w :| BlockedFresh(s, w);
      assert BlockedFresh(s', w);
    }
  }

  lemma StartStopShape(s: State, id: nat)
    requires Shape(s) && SleepersInv(s.sleepers, s.asleep, s.threads) && Is(s, id, Out)
    ensures var s' := Goto(s, id, StopInc); Shape(s') && SleepersInv(s'.sleepers, s'.asleep, s'.threads)
  {
  }

  lemma StartStopStop(s: State, id: nat)
    requires StopInv(s) && Is(s, id, Out) && s.state == RUNNING
    ensures StopInv(Goto(s, id, StopInc).(state := STOPPING, stage := 1, stopper := id))
  {
    forall x | x in s.threads
      ensures var pc := if x == id then StopInc else s.threads[x]; StopOk(STOPPING, 1, id, x, pc) && TicketOk(s.notifier, 1, pc)
    {
      assert StopOk(s.state, s.stage, s.stopper, x, s.threads[x]) && TicketOk(s.notifier, s.stage, s.threads[x]);
    }
  }

  lemma StartStopDeques(s: State, id: nat)
    requires DequesInv(s) && Is(s, id, Out) && Shape(Goto(s, id, StopInc))
    ensures DequesInv(Goto(s, id, StopInc).(state := STOPPING, stage := 1, stopper := id))
  {
    hide DequesInv;
    DequesNeutral(s, Goto(s, id, StopInc).(state := STOPPING, stage := 1, stopper := id));
  }

  lemma StartStopMissed(s: State, id: nat)
    requires NothingMissed(s) && Is(s, id, Out)
    ensures NothingMissed(Goto(s, id, StopInc).(state := STOPPING, stage := 1, stopper := id))
  {
    hide NothingMissed;
    CalmMissed(s, Goto(s, id, StopInc).(state := STOPPING, stage := 1, stopper := id));
  }

  lemma StartStopInv(s: State, id: nat)
    requires Inv(s) && Enabled(s, Stop(id))
    ensures Inv(Next(s, Stop(id)))
  {
    hide SleepersInv, StopInv, NothingMissed, SomeoneCares, DequesInv;
    if s.state == RUNNING {
      StartStopShape(s, id);
      StartStopStop(s, id);
      StartStopDeques(s, id);
      StartStopMissed(s, id);
      StartStopCares(s, id);
    }
  }

  lemma NextInv(s: State, e: Event)
    requires Inv(s) && Enabled(s, e)
    ensures Inv(Next(s, e))
  {
    hide SleepersInv, StopInv, NothingMissed, SomeoneCares, DequesInv;
    match e
    case Submit(id, n, checked) =>
      if !(checked && s.state != RUNNING) {
        MoveInv(s, id, if id < s.workers then LocalHead(n) else Global(n));
      }
    case FinishJob(id) => MoveInv(s, id, Top);
    case Stop(id) => StartStopInv(s, id);
    case Notify(id, wake) => NotifyInv(s, id, wake);
    case NotifyAll(id) => NotifyAllInv(s, id);
    case Spurious(id) => UnblockInv(s, id);
    case Step(id, choice) => StepInv(s, id, choice);
  }

  // ---------------------------------------------------------------- what every run guarantees

  /** A run: the states visited and the events between them, interleaved in any way. */
  ghost predicate IsRun(run: seq<State>, events: seq<Event>) {
    && |run| == |events| + 1
    && Init(run[0])
    && forall i | 0 <= i < |events| :: Shape(run[i]) && Enabled(run[i], events[i]) && run[i + 1] == Next(run[i], events[i])
  }

  lemma {:induction false} RunInv(run: seq<State>, events: seq<Event>, k: nat)
    requires IsRun(run, events) && k < |run|
    ensures Inv(run[k])
  {
    if k == 0 {
      InitInv(run[0]);
    } else {
      RunInv(run, events, k - 1);
      NextInv(run[k - 1], events[k - 1]);
    }
  }

  lemma SomeoneOnTheWay(s: State, q: nat)
    requires NothingMissed(s) && SomeoneCares(s) && q < |s.queues| && NonEmpty(s.queues[q])
    requires forall w | 0 <= w < s.workers :: IsBlocked(s, w)
    ensures exists id :: Pending(s, id) || WillNotify(s, id)
  {
    if x :| WillNotify(s, x) {
    } else {
      var w :| BlockedFresh(s, w);
      assert Fresh(s.notifier, s.threads[w]);
      var x :| Pending(s, x);
    }
  }

  /** No wakeup is lost: if some queue has a job while every worker is blocked, a submitter is still
      on its way to notify, or `stop` is. */
  lemma NoJobIsSleptOn(run: seq<State>, events: seq<Event>, k: nat, q: nat)
    requires IsRun(run, events) && k < |run|
    requires q < |run[k].queues| && NonEmpty(run[k].queues[q])
    requires forall w | 0 <= w < run[k].workers :: IsBlocked(run[k], w)
    ensures exists id :: Pending(run[k], id) || WillNotify(run[k], id)
  {
    hide IsRun, Shape, SleepersInv, StopInv, DequesInv;
    RunInv(run, events, k);
    SomeoneOnTheWay(run[k], q);
  }

  /** Once `stop` has notified, no worker is blocked, then or ever after. */
  lemma StopLeavesNobodyBlocked(run: seq<State>, events: seq<Event>, k: nat, w: nat)
    requires IsRun(run, events) && k < |run| && run[k].stage >= 3
    ensures !IsBlocked(run[k], w)
  {
    RunInv(run, events, k);
    assert w in run[k].threads ==> TicketOk(run[k].notifier, run[k].stage, run[k].threads[w]);
  }

  lemma OldTicket(s: State, w: nat)
    requires StopInv(s) && w in s.threads && s.stage >= 2 && s.threads[w].WaitCheck?
    ensures s.threads[w].ticket < s.notifier && s.state != RUNNING
  {
    assert TicketOk(s.notifier, s.stage, s.threads[w]);
  }

  lemma CountedAsleep(s: State, w: nat)
    requires SleepersInv(s.sleepers, s.asleep, s.threads) && w in s.threads && InRegion(s.threads[w])
    ensures s.sleepers > 0
  {
    assert w in s.asleep;
  }

  /** A worker on its way to sleep when `stop` has raised the notifier leaves the loop instead. */
  lemma SleeperLeaves(s: State, w: nat)
    requires Inv(s) && s.stage >= 2 && w in s.threads && s.threads[w].WaitCheck?
    ensures var s1 := SleepStep(s, w); var s2 := SleepStep(s1, w);
            && Is(s1, w, DecSleepers) && Is(s2, w, Top) && Shape(s1) && Shape(s2)
            && Is(LoopStep(s2, w, 0), w, Exited) && s2.sleepers == s.sleepers - 1
  {
    hide SleepersInv, StopInv, NothingMissed, SomeoneCares, DequesInv, Shape;
    OldTicket(s, w);
    CountedAsleep(s, w);
    SleepKeepsShape(s, w);
    SleepKeepsShape(SleepStep(s, w), w);
  }

  /** The unchecked `pushBulk` of the jobs that a worker grabbed beyond the first takes all of them. */
  lemma GrabbedJobsAlwaysFit(run: seq<State>, events: seq<Event>, k: nat, id: nat)
    requires IsRun(run, events) && k < |run| && id in run[k].threads && run[k].threads[id].GrabHead?
    ensures Shape(run[k])
    ensures LoopStep(run[k], id, 0).threads[id] == GrabTail(run[k].threads[id].n)
  {
    hide IsRun, SleepersInv, StopInv, NothingMissed, SomeoneCares;
    RunInv(run, events, k);
    assert DequeGood(run[k], id);
  }

  /** `_sleepingWorkerCount` is the number of workers between its two updates in the loop. */
  lemma SleepersAreCounted(run: seq<State>, events: seq<Event>, k: nat)
    requires IsRun(run, events) && k < |run|
    ensures run[k].sleepers == |set id | id in run[k].threads && InRegion(run[k].threads[id])|
  {
    RunInv(run, events, k);
    assert run[k].asleep == set id | id in run[k].threads && InRegion(run[k].threads[id]);
  }
}
