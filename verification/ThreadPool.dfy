/** The thread pool as a machine of small steps: any worker, caller or stopper may take
    the next one.  A thread's position is the line of the source it has reached; the
    mutex, the condition variable and the start-up latch are shared. */
module ThreadPools {
  import opened Options

  /** Where a worker is in thread_func. */
  datatype Worker<T> =
    | Locking         // about to lock the mutex
    | Testing         // at the test of the inner loop, with the mutex
    | Latching        // found nothing to do; about to read the latch, with the mutex
    | CountingDown    // the latch was not zero; about to count it down, with the mutex
    | ToWait          // about to wait on the condition variable, with the mutex
    | Waiting         // blocked on the condition variable
    | Woken           // signalled, or woken spuriously; about to get the mutex back
    | Checking        // out of the inner loop; at the second test of m_stop, with the mutex
    | Popping         // m_stop was not set; about to pop a task, with the mutex
    | Holding(task: T, at: nat)  // has popped task number at and unlocked
    | Running(task: T, at: nat)  // has counted itself running, and runs the task
    | Exited

  /** Where a caller is in call. */
  datatype Caller<T> =
    | Outside
    | Entering(task: T)   // about to lock the mutex
    | Inside(task: T)     // about to push, with the mutex
    | Leaving             // has pushed; about to unlock
    | Signalling          // about to signal

  datatype Owner = Nobody | WorkerOwns(w: nat) | CallerOwns(c: nat)

  datatype State<T> = State(
    workers: map<nat, Worker<T>>,   // the workers created so far
    callers: map<nat, Caller<T>>,
    owner: Owner,                   // m_mutex
    queue: seq<T>,                  // m_taskQue
    stop: bool,                     // m_stop
    running: int,                   // m_runningNum
    latch: int,                     // m_latch
    threads: nat,                   // m_threadNum
    pushed: seq<T>,                 // history: all tasks pushed,
    popped: seq<T>,                 //   all tasks popped,
    started: seq<nat>,              //   the numbers of those started, in the order of their starts,
    poppedAtStop: nat,              //   how many had been when m_stop was set,
    idled: nat)                     //   and how often a worker found nothing to do and went on to wait

  datatype Action<T> =
    | Create(w: nat)                          // start creates a worker
    | Work(w: nat)                            // a worker takes its next step
    | Wake(w: nat)                            // a waiting worker wakes up by itself
    | CallEnter(c: nat, task: T)              // call is entered
    | Call(c: nat)                            // a caller takes its next step up to the signal
    | Signal(c: nat, woken: Option<nat>)      // pthread_cond_signal wakes some waiter, if there is one
    | SetStop                                 // stop sets m_stop
    | Broadcast                               // stop wakes all waiters

  predicate HasMutex<T>(p: Worker<T>) {
    p.Testing? || p.Latching? || p.CountingDown? || p.ToWait? || p.Checking? || p.Popping?
  }

  predicate CallerHasMutex<T>(p: Caller<T>) {
    p.Inside? || p.Leaving?
  }

  predicate AboutToWait<T>(p: Worker<T>) {
    p.Latching? || p.CountingDown? || p.ToWait?
  }

  /** Awake and not holding a task: such a worker will look at the queue. */
  predicate Awake<T>(p: Worker<T>) {
    p.Locking? || p.Woken? || HasMutex(p)
  }

  predicate IsRunning<T>(p: Worker<T>) {
    p.Running?
  }

  predicate ToSignal<T>(p: Caller<T>) {
    p.Leaving? || p.Signalling?
  }

  predicate CanWork<T>(s: State<T>, w: nat) {
    w in s.workers && match s.workers[w]
                      case Locking => s.owner.Nobody?
                      case Woken => s.owner.Nobody?
                      case Waiting => false
                      case Exited => false
                      case _ => true
  }

  predicate CanCall<T>(s: State<T>, c: nat) {
    c in s.callers && match s.callers[c]
                      case Entering(_) => s.owner.Nobody?
                      case Inside(_) => true
                      case Leaving => true
                      case _ => false
  }

  predicate Enabled<T>(s: State<T>, a: Action<T>) {
    match a
    case Create(w) => w !in s.workers
    case Work(w) => CanWork(s, w)
    case Wake(w) => w in s.workers && s.workers[w].Waiting?
    case CallEnter(c, _) => c !in s.callers || s.callers[c].Outside?
    case Call(c) => CanCall(s, c)
    case Signal(c, woken) =>
      && c in s.callers && s.callers[c].Signalling?
      && (if woken.Some? then woken.value in s.workers && s.workers[woken.value].Waiting?
          else forall w | w in s.workers :: !s.workers[w].Waiting?)
    case SetStop => !s.stop
    case Broadcast => s.stop
  }

  function Put<T>(s: State<T>, w: nat, p: Worker<T>): State<T> {
    s.(workers := s.workers[w := p])
  }

  /** One step of thread_func. */
  function WorkStep<T>(s: State<T>, w: nat): State<T>
    requires CanWork(s, w)
  {
    match s.workers[w]
    case Locking => Put(s, w, Testing).(owner := WorkerOwns(w))
    case Testing => Put(s, w, if !s.stop && s.queue == [] then Latching else Checking)
    case Latching => if s.latch != 0 then Put(s, w, CountingDown) else Put(s, w, ToWait).(idled := s.idled + 1)
    case CountingDown => Put(s, w, ToWait).(latch := s.latch - 1, idled := s.idled + 1)
    case ToWait => Put(s, w, Waiting).(owner := Nobody)
    case Woken => Put(s, w, Testing).(owner := WorkerOwns(w))
    case Checking =>
      if s.stop then Put(s, w, Exited).(owner := Nobody) else Put(s, w, Popping)
    case Popping =>
      // Popping an empty queue is undefined; it is shown below never to happen.
      if s.queue == [] then Put(s, w, Exited)
      else
        Put(s, w, Holding(s.queue[0], |s.popped|)).(
          owner := Nobody, queue := s.queue[1..], popped := s.popped + [s.queue[0]])
    case Holding(task, at) => Put(s, w, Running(task, at)).(running := s.running + 1, started := s.started + [at])
    case Running(_, _) => Put(s, w, Locking).(running := s.running - 1)
  }

  function CallStep<T>(s: State<T>, c: nat): State<T>
    requires CanCall(s, c)
  {
    match s.callers[c]
    case Entering(task) => s.(callers := s.callers[c := Inside(task)], owner := CallerOwns(c))
    case Inside(task) => s.(callers := s.callers[c := Leaving], queue := s.queue + [task], pushed := s.pushed + [task])
    case Leaving => s.(callers := s.callers[c := Signalling], owner := Nobody)
  }

  function WakeAll<T>(workers: map<nat, Worker<T>>): map<nat, Worker<T>> {
    map w | w in workers :: if workers[w].Waiting? then Woken else workers[w]
  }

  function Step<T>(s: State<T>, a: Action<T>): State<T>
    requires Enabled(s, a)
  {
    match a
    case Create(w) => Put(s, w, Locking)
    case Work(w) => WorkStep(s, w)
    case Wake(w) => Put(s, w, Woken)
    case CallEnter(c, task) => s.(callers := s.callers[c := Entering(task)])
    case Call(c) => CallStep(s, c)
    case Signal(c, woken) =>
      var t := s.(callers := s.callers[c := Caller.Outside]);
      if woken.Some? then Put(t, woken.value, Woken) else t
    case SetStop => s.(stop := true, poppedAtStop := |s.popped|)
    case Broadcast => s.(workers := WakeAll(s.workers))
  }

  function Initial<T>(threads: nat): State<T> {
    State(map[], map[], Nobody, [], false, 0, threads, threads, [], [], [], 0, 0)
  }

  function After<T>(s: State<T>, actions: seq<Action<T>>): State<T>
    decreases |actions|
  {
    if actions == [] then s
    else After(if Enabled(s, actions[0]) then Step(s, actions[0]) else s, actions[1..])
  }

  // ----- counting threads by where they are -----

  ghost function Those<P>(threads: map<nat, P>, p: P -> bool): set<nat> {
    set k | k in threads && p(threads[k])
  }

  ghost function Count<P>(threads: map<nat, P>, p: P -> bool): nat {
    |Those(threads, p)|
  }

  lemma CountUpdate<P>(threads: map<nat, P>, k: nat, v: P, p: P -> bool)
    ensures Count(threads[k := v], p)
         == Count(threads, p) - (if k in threads && p(threads[k]) then 1 else 0) + (if p(v) then 1 else 0)
  {
    var before := Those(threads, p);
    var after := Those(threads[k := v], p);
    assert after == if p(v) then (before - {k}) + {k} else before - {k};
  }

  // ----- what every step keeps -----

  /** The mutex is held by exactly the thread whose position says so. */
  ghost predicate MutexOk<T>(s: State<T>) {
    && (forall w | w in s.workers :: HasMutex(s.workers[w]) <==> s.owner == WorkerOwns(w))
    && (forall c | c in s.callers :: CallerHasMutex(s.callers[c]) <==> s.owner == CallerOwns(c))
    && (s.owner.WorkerOwns? ==> s.owner.w in s.workers)
    && (s.owner.CallerOwns? ==> s.owner.c in s.callers)
  }

  /** What the worker with the mutex has seen still holds. */
  ghost predicate SeenOk<T>(s: State<T>) {
    s.latch >= 0 &&
    forall w | w in s.workers ::
      && (AboutToWait(s.workers[w]) ==> s.queue == [])
      && (s.workers[w].Checking? && !s.stop ==> s.queue != [])
      && (s.workers[w].Popping? ==> s.queue != [])
      && (s.workers[w].CountingDown? ==> s.latch > 0)
  }

  ghost predicate FifoOk<T>(s: State<T>) {
    s.popped + s.queue == s.pushed
  }

  /** Task number at is one that a worker has popped and not started. */
  ghost predicate Held<T>(workers: map<nat, Worker<T>>, at: nat) {
    exists w :: w in workers && workers[w].Holding? && workers[w].at == at
  }

  /** A task that a worker holds is the one popped under its number, and not started. */
  ghost predicate HoldingOk<T>(workers: map<nat, Worker<T>>, popped: seq<T>, started: seq<nat>) {
    && (forall w | w in workers && workers[w].Holding? ::
          workers[w].at < |popped| && popped[workers[w].at] == workers[w].task && workers[w].at !in started)
    && (forall v, w | v in workers && w in workers && workers[v].Holding? && workers[w].Holding? ::
          workers[v].at == workers[w].at ==> v == w)
  }

  /** A task that a worker runs is the one popped under its number, and started. */
  ghost predicate RunsOk<T>(workers: map<nat, Worker<T>>, popped: seq<T>, started: seq<nat>) {
    && (forall w | w in workers && workers[w].Running? ::
          workers[w].at < |popped| && popped[workers[w].at] == workers[w].task && workers[w].at in started)
    && (forall v, w | v in workers && w in workers && workers[v].Running? && workers[w].Running? ::
          workers[v].at == workers[w].at ==> v == w)
  }

  /** No task is started twice, and each that was popped is started or held. */
  ghost predicate StartedOk<T>(workers: map<nat, Worker<T>>, popped: seq<T>, started: seq<nat>) {
    && (forall i, j | 0 <= i < j < |started| :: started[i] != started[j])
    && (forall k | k in started :: k < |popped|)
    && (forall k: nat | k < |popped| :: k in started || Held(workers, k))
  }

  ghost predicate Once<T>(workers: map<nat, Worker<T>>, popped: seq<T>, started: seq<nat>) {
    && HoldingOk(workers, popped, started)
    && RunsOk(workers, popped, started)
    && StartedOk(workers, popped, started)
  }

  ghost predicate OnceOk<T>(s: State<T>) {
    Once(s.workers, s.popped, s.started)
  }

  ghost predicate RunningOk<T>(s: State<T>) {
    s.running == Count(s.workers, IsRunning)
  }

  /** Before m_stop is set: nobody waits, or there are at least as many workers awake
      without a task, and callers yet to signal, as there are tasks in the queue. */
  ghost predicate WorkConserved<T>(s: State<T>) {
    !s.stop ==>
      || (forall w | w in s.workers :: !s.workers[w].Waiting?)
      || Count(s.workers, Awake) + Count(s.callers, ToSignal) >= |s.queue|
  }

  /** After m_stop is set: one task may still be popped, by the worker that was past the
      second test, and no other. */
  ghost predicate StopOk<T>(s: State<T>) {
    s.stop ==>
      && s.poppedAtStop <= |s.popped| <= s.poppedAtStop + 1
      && forall w | w in s.workers && s.workers[w].Popping? :: |s.popped| == s.poppedAtStop
  }

  /** A worker only leaves when m_stop is set. */
  ghost predicate ExitOk<T>(s: State<T>) {
    forall w | w in s.workers && s.workers[w].Exited? :: s.stop
  }

  predicate HasIdled<T>(p: Worker<T>) {
    p.ToWait? || p.Waiting?
  }

  /** The latch counts how often a worker found nothing to do, from m_threadNum down to
      zero; and each worker that waits has been counted. */
  ghost predicate LatchOk<T>(s: State<T>) {
    && s.latch == (if s.idled <= s.threads then s.threads - s.idled else 0)
    && Count(s.workers, HasIdled) <= s.idled
  }

  ghost predicate Inv<T>(s: State<T>) {
    && MutexOk(s) && SeenOk(s) && FifoOk(s) && RunningOk(s) && OnceOk(s) && WorkConserved(s) && StopOk(s)
    && ExitOk(s) && LatchOk(s)
  }

  lemma MutexWork<T>(s: State<T>, w: nat)
    requires MutexOk(s) && CanWork(s, w) && (s.workers[w].Popping? ==> s.queue != [])
    ensures MutexOk(WorkStep(s, w))
  {
    var t := WorkStep(s, w);
    assert t.workers == s.workers[w := t.workers[w]] && t.callers == s.callers;
    assert HasMutex(s.workers[w]) || s.owner.Nobody? || s.owner == t.owner;
  }

  lemma MutexStep<T>(s: State<T>, a: Action<T>)
    requires MutexOk(s) && Enabled(s, a)
    requires a.Work? && s.workers[a.w].Popping? ==> s.queue != []
    ensures MutexOk(Step(s, a))
  {
    if a.Work? {
      MutexWork(s, a.w);
    }
  }

  lemma SeenWork<T>(s: State<T>, w: nat)
    requires MutexOk(s) && SeenOk(s) && CanWork(s, w)
    ensures SeenOk(WorkStep(s, w))
  {
    var t := WorkStep(s, w);
    assert t.workers == s.workers[w := t.workers[w]];
  }

  lemma SeenStep<T>(s: State<T>, a: Action<T>)
    requires MutexOk(s) && SeenOk(s) && Enabled(s, a)
    ensures SeenOk(Step(s, a))
  {
    hide WorkStep;
    if a.Work? {
      SeenWork(s, a.w);
    }
  }

  lemma FifoStep<T>(s: State<T>, a: Action<T>)
    requires FifoOk(s) && Enabled(s, a)
    ensures FifoOk(Step(s, a))
  {
    if a.Work? && s.workers[a.w].Popping? && s.queue != [] {
      assert s.popped + s.queue == (s.popped + [s.queue[0]]) + s.queue[1..];
    } else if a.Call? && s.callers[a.c].Inside? {
      assert (s.popped + s.queue) + [s.callers[a.c].task] == s.popped + (s.queue + [s.callers[a.c].task]);
    }
  }

  /** A worker that neither had nor has a task does not matter to those that do. */
  lemma OnceOther<T>(workers: map<nat, Worker<T>>, popped: seq<T>, started: seq<nat>, w: nat, p: Worker<T>)
    requires Once(workers, popped, started)
    requires (w in workers ==> !workers[w].Holding?) && !p.Holding? && !p.Running?
    ensures Once(workers[w := p], popped, started)
  {
    forall k: nat | k < |popped| && k !in started
      ensures Held(workers[w := p], k)
    {
      var v :| v in workers && workers[v].Holding? && workers[v].at == k;
      assert workers[w := p][v] == workers[v];
    }
  }

  lemma OncePop<T>(workers: map<nat, Worker<T>>, popped: seq<T>, started: seq<nat>, w: nat, task: T)
    requires Once(workers, popped, started)
    requires w in workers && !workers[w].Holding?
    ensures Once(workers[w := Holding(task, |popped|)], popped + [task], started)
  {
    var workers' := workers[w := Holding(task, |popped|)];
    forall k: nat | k < |popped + [task]| && k !in started
      ensures Held(workers', k)
    {
      if k == |popped| {
        assert workers'[w].Holding? && workers'[w].at == k;
      } else {
        var v :| v in workers && workers[v].Holding? && workers[v].at == k;
        assert workers'[v] == workers[v];
      }
    }
  }

  lemma OnceStart<T>(workers: map<nat, Worker<T>>, popped: seq<T>, started: seq<nat>, w: nat)
    requires Once(workers, popped, started)
    requires w in workers && workers[w].Holding?
    ensures var at := workers[w].at;
            Once(workers[w := Running(workers[w].task, at)], popped, started + [at])
  {
    var at := workers[w].at;
    var workers' := workers[w := Running(workers[w].task, at)];
    forall k: nat | k < |popped| && k !in started + [at]
      ensures Held(workers', k)
    {
      var v :| v in workers && workers[v].Holding? && workers[v].at == k;
      assert workers'[v] == workers[v];
    }
  }

  lemma OnceWork<T>(s: State<T>, w: nat)
    requires OnceOk(s) && CanWork(s, w)
    ensures OnceOk(WorkStep(s, w))
  {
    hide Once;
    var t := WorkStep(s, w);
    match s.workers[w]
    case Popping =>
      if s.queue == [] {
        OnceOther(s.workers, s.popped, s.started, w, Exited);
      } else {
        OncePop(s.workers, s.popped, s.started, w, s.queue[0]);
      }
    case Holding(_, _) => OnceStart(s.workers, s.popped, s.started, w);
    case Waiting =>
    case Exited =>
    case _ => OnceOther(s.workers, s.popped, s.started, w, t.workers[w]);
  }

  lemma OnceWakeAll<T>(workers: map<nat, Worker<T>>, popped: seq<T>, started: seq<nat>)
    requires Once(workers, popped, started)
    ensures Once(WakeAll(workers), popped, started)
  {
    forall k: nat | k < |popped| && k !in started
      ensures Held(WakeAll(workers), k)
    {
      var v :| v in workers && workers[v].Holding? && workers[v].at == k;
      assert WakeAll(workers)[v] == workers[v];
    }
  }

  lemma OnceStep<T>(s: State<T>, a: Action<T>)
    requires OnceOk(s) && Enabled(s, a)
    ensures OnceOk(Step(s, a))
  {
    hide Once, WakeAll, WorkStep, CallStep;
    match a
    case Create(w) => OnceOther(s.workers, s.popped, s.started, w, Locking);
    case Work(w) => OnceWork(s, w);
    case Wake(w) => OnceOther(s.workers, s.popped, s.started, w, Woken);
    case Call(c) => CallLeaves(s, c);
    case Signal(_, woken) =>
      if woken.Some? {
        OnceOther(s.workers, s.popped, s.started, woken.value, Woken);
      }
    case Broadcast => OnceWakeAll(s.workers, s.popped, s.started);
    case _ =>
  }

  lemma WorkCounts<T>(s: State<T>, w: nat)
    requires CanWork(s, w)
    ensures var t := WorkStep(s, w);
            && w in t.workers && t.workers == s.workers[w := t.workers[w]]
            && t.running
               == s.running - (if s.workers[w].Running? then 1 else 0) + (if t.workers[w].Running? then 1 else 0)
  {
  }

  lemma RunningWork<T>(s: State<T>, w: nat)
    requires RunningOk(s) && CanWork(s, w)
    ensures RunningOk(WorkStep(s, w))
  {
    hide Count, WorkStep;
    WorkCounts(s, w);
    CountUpdate(s.workers, w, WorkStep(s, w).workers[w], IsRunning);
  }

  lemma RunningStep<T>(s: State<T>, a: Action<T>)
    requires RunningOk(s) && Enabled(s, a)
    ensures RunningOk(Step(s, a))
  {
    hide Count, WakeAll, WorkStep, CallStep;
    match a
    case Create(w) => CountUpdate(s.workers, w, Locking, IsRunning);
    case Work(w) => RunningWork(s, w);
    case Wake(w) => CountUpdate(s.workers, w, Woken, IsRunning);
    case Call(c) => CallLeaves(s, c);
    case Signal(_, woken) =>
      if woken.Some? {
        CountUpdate(s.workers, woken.value, Woken, IsRunning);
      }
    case Broadcast => WakingNotRunning(s.workers);
    case _ =>
  }

  lemma CallLeaves<T>(s: State<T>, c: nat)
    requires CanCall(s, c)
    ensures var t := CallStep(s, c);
            && t.workers == s.workers && t.running == s.running && t.popped == s.popped && t.started == s.started
            && t.latch == s.latch && t.threads == s.threads && t.idled == s.idled
  {
  }

  lemma WakingNotRunning<T>(workers: map<nat, Worker<T>>)
    ensures Count(WakeAll(workers), IsRunning) == Count(workers, IsRunning)
  {
    assert Those(WakeAll(workers), IsRunning) == Those(workers, IsRunning);
  }

  lemma StopStep<T>(s: State<T>, a: Action<T>)
    requires MutexOk(s) && StopOk(s) && Enabled(s, a)
    ensures StopOk(Step(s, a))
  {
  }

  /** The heart of the matter: no step can leave a task with nobody to see to it. */
  lemma ConservedWork<T>(s: State<T>, w: nat)
    requires MutexOk(s) && SeenOk(s) && WorkConserved(s) && CanWork(s, w)
    ensures WorkConserved(WorkStep(s, w))
  {
    hide Count;
    CountUpdate(s.workers, w, WorkStep(s, w).workers[w], Awake);
  }

  lemma ConservedCall<T>(s: State<T>, c: nat)
    requires WorkConserved(s) && CanCall(s, c)
    ensures WorkConserved(CallStep(s, c))
  {
    hide Count;
    CountUpdate(s.callers, c, CallStep(s, c).callers[c], ToSignal);
  }

  lemma ConservedStep<T>(s: State<T>, a: Action<T>)
    requires MutexOk(s) && SeenOk(s) && WorkConserved(s) && Enabled(s, a)
    ensures WorkConserved(Step(s, a))
  {
    hide Count, WorkStep, CallStep, MutexOk, SeenOk;
    match a
    case Create(w) => CountUpdate(s.workers, w, Locking, Awake);
    case Work(w) => ConservedWork(s, w);
    case Wake(w) => CountUpdate(s.workers, w, Woken, Awake);
    case CallEnter(c, task) => CountUpdate(s.callers, c, Entering(task), ToSignal);
    case Call(c) => ConservedCall(s, c);
    case Signal(c, woken) =>
      CountUpdate(s.callers, c, Caller.Outside, ToSignal);
      if woken.Some? {
        CountUpdate(s.workers, woken.value, Woken, Awake);
      }
    case SetStop =>
    case Broadcast =>
  }

  lemma ExitStep<T>(s: State<T>, a: Action<T>)
    requires SeenOk(s) && ExitOk(s) && Enabled(s, a)
    ensures ExitOk(Step(s, a))
  {
  }

  lemma LatchChange<T>(s: State<T>, w: nat)
    requires SeenOk(s) && CanWork(s, w)
    ensures var t := WorkStep(s, w);
            && w in t.workers && t.workers == s.workers[w := t.workers[w]] && t.threads == s.threads
            && if !HasIdled(s.workers[w]) && HasIdled(t.workers[w])
               then t.idled == s.idled + 1 && t.latch == if s.latch > 0 then s.latch - 1 else 0
               else t.idled == s.idled && t.latch == s.latch
  {
  }

  lemma LatchWork<T>(s: State<T>, w: nat)
    requires SeenOk(s) && LatchOk(s) && CanWork(s, w)
    ensures LatchOk(WorkStep(s, w))
  {
    hide Count, WorkStep, HasIdled, SeenOk;
    LatchChange(s, w);
    CountUpdate(s.workers, w, WorkStep(s, w).workers[w], HasIdled);
  }

  lemma WakingIdled<T>(workers: map<nat, Worker<T>>)
    ensures Count(WakeAll(workers), HasIdled) <= Count(workers, HasIdled)
  {
    CountSubset(Those(WakeAll(workers), HasIdled), Those(workers, HasIdled));
  }

  lemma CountSubset(a: set<nat>, b: set<nat>)
    requires a <= b
    ensures |a| <= |b|
  {
    assert |b - a| == |b| - |a|;
  }

  lemma LatchStep<T>(s: State<T>, a: Action<T>)
    requires SeenOk(s) && LatchOk(s) && Enabled(s, a)
    ensures LatchOk(Step(s, a))
  {
    hide Count, WorkStep, CallStep, WakeAll, SeenOk;
    match a
    case Create(w) => CountUpdate(s.workers, w, Locking, HasIdled);
    case Work(w) => LatchWork(s, w);
    case Wake(w) => CountUpdate(s.workers, w, Woken, HasIdled);
    case Call(c) => CallLeaves(s, c);
    case Signal(_, woken) =>
      if woken.Some? {
        CountUpdate(s.workers, woken.value, Woken, HasIdled);
      }
    case Broadcast => WakingIdled(s.workers);
    case _ =>
  }

  lemma StepKeeps<T>(s: State<T>, a: Action<T>)
    requires Inv(s) && Enabled(s, a)
    ensures Inv(Step(s, a))
  {
    MutexStep(s, a);
    SeenStep(s, a);
    FifoStep(s, a);
    RunningStep(s, a);
    OnceStep(s, a);
    ConservedStep(s, a);
    StopStep(s, a);
    ExitStep(s, a);
    LatchStep(s, a);
  }

  lemma {:induction false} RunKeeps<T>(s: State<T>, actions: seq<Action<T>>)
    requires Inv(s)
    ensures Inv(After(s, actions))
    decreases |actions|
  {
    if actions != [] {
      if Enabled(s, actions[0]) {
        StepKeeps(s, actions[0]);
        RunKeeps(Step(s, actions[0]), actions[1..]);
      } else {
        RunKeeps(s, actions[1..]);
      }
    }
  }

  lemma InitialInv<T>(threads: nat)
    ensures Inv(Initial<T>(threads))
  {
    assert Those(map[], IsRunning<T>) == {};
    assert Those(map[], HasIdled<T>) == {};
  }

  // ----- the theorems, over every interleaving -----

  /** Some worker can still come to look at the queue, or will be signalled. */
  ghost predicate SomeoneComes<T>(s: State<T>) {
    || (exists w :: w in s.workers && !s.workers[w].Waiting? && !s.workers[w].Exited?)
    || (exists c :: c in s.callers && ToSignal(s.callers[c]))
  }

  lemma NobodyCounted<T>(s: State<T>)
    requires !SomeoneComes(s)
    ensures Count(s.workers, Awake) == 0 && Count(s.callers, ToSignal) == 0
  {
    assert Those(s.workers, Awake) == {};
    assert Those(s.callers, ToSignal) == {};
  }

  /** Work conservation: before stop is called, either no worker is blocked on the
      condition variable, or enough workers are awake or about to be signalled for all
      the tasks in the queue; no worker has left; and when the queue is not empty, some
      worker is neither blocked nor gone, or some caller is about to signal. */
  lemma NoTaskForgotten<T>(threads: nat, actions: seq<Action<T>>)
    ensures var s := After(Initial<T>(threads), actions);
            && WorkConserved(s)
            && (forall w | w in s.workers && s.workers[w].Exited? :: s.stop)
            && (!s.stop && s.queue != [] && s.workers != map[] ==> SomeoneComes(s))
  {
    InitialInv<T>(threads);
    RunKeeps(Initial<T>(threads), actions);
    var s := After(Initial<T>(threads), actions);
    if !s.stop && s.workers != map[] && !SomeoneComes(s) {
      NobodyCounted(s);
      var w :| w in s.workers;
      assert s.workers[w].Waiting?;
    }
  }

  /** The start-up latch opens exactly when workers have found nothing to do m_threadNum
      times; it is open when that many of them wait. */
  lemma LatchOpens<T>(threads: nat, actions: seq<Action<T>>)
    ensures var s := After(Initial<T>(threads), actions);
            && s.latch == (if s.idled <= threads then threads - s.idled else 0)
            && (Count(s.workers, HasIdled) >= threads ==> s.latch == 0)
  {
    InitialInv<T>(threads);
    RunKeeps(Initial<T>(threads), actions);
    ThreadsStay(Initial<T>(threads), actions);
  }

  lemma {:induction false} ThreadsStay<T>(s: State<T>, actions: seq<Action<T>>)
    ensures After(s, actions).threads == s.threads
    decreases |actions|
  {
    if actions != [] {
      ThreadsStay(if Enabled(s, actions[0]) then Step(s, actions[0]) else s, actions[1..]);
    }
  }

  /** Mutual exclusion: two threads past the lock are the same thread. */
  lemma OneInside<T>(threads: nat, actions: seq<Action<T>>)
    ensures var s := After(Initial<T>(threads), actions);
            && (forall v, w | v in s.workers && w in s.workers && HasMutex(s.workers[v]) && HasMutex(s.workers[w]) ::
                  v == w)
            && (forall c, d | c in s.callers && d in s.callers
                              && CallerHasMutex(s.callers[c]) && CallerHasMutex(s.callers[d]) ::
                  c == d)
            && (forall c, w | c in s.callers && w in s.workers ::
                  !(CallerHasMutex(s.callers[c]) && HasMutex(s.workers[w])))
  {
    InitialInv<T>(threads);
    RunKeeps(Initial<T>(threads), actions);
  }

  /** Tasks are taken in the order they were pushed, each once, never from an empty
      queue; m_runningNum is the number of workers running a task, so never more than
      hold one; and the latch never goes below zero. */
  lemma TasksInOrder<T>(threads: nat, actions: seq<Action<T>>)
    ensures var s := After(Initial<T>(threads), actions);
            && s.popped + s.queue == s.pushed
            && (forall w | w in s.workers && s.workers[w].Popping? :: s.queue != [])
            && s.running == Count(s.workers, IsRunning)
            && 0 <= s.latch
  {
    InitialInv<T>(threads);
    RunKeeps(Initial<T>(threads), actions);
  }

  /** Every task that is popped is started, once: it has been, and only once, or exactly one
      worker holds it and is about to start it.  What a worker runs is the task that it
      popped, and no two workers run the same one. */
  lemma TasksStartedOnce<T>(threads: nat, actions: seq<Action<T>>)
    ensures var s := After(Initial<T>(threads), actions);
            && (forall i, j | 0 <= i < j < |s.started| :: s.started[i] != s.started[j])
            && (forall k: nat :: k < |s.popped| <==> k in s.started || Held(s.workers, k))
            && (forall k: nat :: !(k in s.started && Held(s.workers, k)))
            && HoldingOk(s.workers, s.popped, s.started) && RunsOk(s.workers, s.popped, s.started)
  {
    InitialInv<T>(threads);
    RunKeeps(Initial<T>(threads), actions);
  }

  /** Once m_stop is set, at most one more task is popped. */
  lemma AtMostOneAfterStop<T>(threads: nat, actions: seq<Action<T>>)
    ensures var s := After(Initial<T>(threads), actions);
            s.stop ==> s.poppedAtStop <= |s.popped| <= s.poppedAtStop + 1
  {
    InitialInv<T>(threads);
    RunKeeps(Initial<T>(threads), actions);
  }

  // ----- what one thread does when nobody else moves -----

  lemma Next<T>(s: State<T>, a: Action<T>, rest: seq<Action<T>>)
    requires Enabled(s, a)
    ensures After(s, [a] + rest) == After(Step(s, a), rest)
  {
    assert ([a] + rest)[1..] == rest;
  }

  function Works<T>(w: nat, n: nat): seq<Action<T>> {
    if n == 0 then [] else [Work(w)] + Works(w, n - 1)
  }

  lemma WorksOn<T>(s: State<T>, w: nat, n: nat)
    requires n > 0 && CanWork(s, w)
    ensures After(s, Works<T>(w, n)) == After(WorkStep(s, w), Works<T>(w, n - 1))
  {
    Next(s, Work(w), Works<T>(w, n - 1));
  }

  /** A worker about to lock the mutex, or to get it back, which is free. */
  predicate Comes<T>(s: State<T>, w: nat) {
    w in s.workers && (s.workers[w].Locking? || s.workers[w].Woken?) && s.owner.Nobody?
  }

  /** It takes the first task, runs it, and comes back for the next. */
  lemma WorkerServes<T>(s: State<T>, w: nat)
    requires Comes(s, w) && !s.stop && s.queue != []
    ensures var running := Worker.Running(s.queue[0], |s.popped|);
            After(s, Works<T>(w, 5))
            == s.(workers := s.workers[w := running], queue := s.queue[1..], running := s.running + 1,
                  popped := s.popped + [s.queue[0]], started := s.started + [|s.popped|])
    ensures After(s, Works<T>(w, 6))
         == s.(workers := s.workers[w := Locking], queue := s.queue[1..],
               popped := s.popped + [s.queue[0]], started := s.started + [|s.popped|])
  {
    TakesTask(s, w, 5);
    TakesTask(s, w, 6);
    var t := s.(workers := s.workers[w := Holding(s.queue[0], |s.popped|)], queue := s.queue[1..],
                popped := s.popped + [s.queue[0]]);
    var u := t.(workers := t.workers[w := Running(s.queue[0], |s.popped|)], running := t.running + 1,
                started := t.started + [|s.popped|]);
    WorksOn(t, w, 1);
    WorksOn(t, w, 2);
    WorksOn(u, w, 1);
    assert t.workers[w := Running(s.queue[0], |s.popped|)] == s.workers[w := Running(s.queue[0], |s.popped|)];
    assert u.workers[w := Locking] == s.workers[w := Locking];
  }

  /** It gets the mutex, and tests m_stop and the queue. */
  lemma Looks<T>(s: State<T>, w: nat, n: nat)
    requires Comes(s, w) && n >= 2
    ensures var p := if !s.stop && s.queue == [] then Latching else Checking;
            After(s, Works<T>(w, n))
            == After(s.(workers := s.workers[w := p], owner := WorkerOwns(w)), Works<T>(w, n - 2))
  {
    var t := s.(workers := s.workers[w := Testing], owner := WorkerOwns(w));
    WorksOn(s, w, n);
    WorksOn(t, w, n - 1);
    assert t.workers[w := Checking] == s.workers[w := Checking] && t.workers[w := Latching] == s.workers[w := Latching];
  }

  lemma TakesTask<T>(s: State<T>, w: nat, n: nat)
    requires Comes(s, w) && !s.stop && s.queue != [] && n >= 4
    ensures After(s, Works<T>(w, n))
         == After(s.(workers := s.workers[w := Holding(s.queue[0], |s.popped|)], queue := s.queue[1..],
                     popped := s.popped + [s.queue[0]]), Works<T>(w, n - 4))
  {
    var u := s.(workers := s.workers[w := Checking], owner := WorkerOwns(w));
    var v := s.(workers := s.workers[w := Popping], owner := WorkerOwns(w));
    Looks(s, w, n);
    WorksOn(u, w, n - 2);
    assert u.workers[w := Popping] == v.workers;
    WorksOn(v, w, n - 3);
    assert v.workers[w := Holding(s.queue[0], |s.popped|)] == s.workers[w := Holding(s.queue[0], |s.popped|)];
  }

  /** When there is nothing to do, it counts the latch down, unless that is zero, and waits
      without the mutex. */
  lemma WorkerWaits<T>(s: State<T>, w: nat)
    requires Comes(s, w) && !s.stop && s.queue == []
    ensures After(s, Works<T>(w, if s.latch != 0 then 5 else 4))
         == s.(workers := s.workers[w := Waiting], idled := s.idled + 1,
               latch := if s.latch != 0 then s.latch - 1 else s.latch)
  {
    var n := if s.latch != 0 then 5 else 4;
    var u := s.(workers := s.workers[w := Latching], owner := WorkerOwns(w));
    var x := s.(workers := s.workers[w := ToWait], owner := WorkerOwns(w), idled := s.idled + 1,
                latch := if s.latch != 0 then s.latch - 1 else s.latch);
    Looks(s, w, n);
    WorksOn(u, w, n - 2);
    if s.latch != 0 {
      var v := s.(workers := s.workers[w := CountingDown], owner := WorkerOwns(w));
      assert u.workers[w := CountingDown] == v.workers;
      WorksOn(v, w, 2);
      assert v.workers[w := ToWait] == x.workers;
    } else {
      assert u.workers[w := ToWait] == x.workers;
    }
    WorksOn(x, w, 1);
    assert x.workers[w := Waiting] == s.workers[w := Waiting];
  }

  /** When m_stop is set, it leaves without the mutex, whatever is queued. */
  lemma WorkerLeaves<T>(s: State<T>, w: nat)
    requires Comes(s, w) && s.stop
    ensures After(s, Works<T>(w, 3)) == s.(workers := s.workers[w := Exited])
  {
    var u := s.(workers := s.workers[w := Checking], owner := WorkerOwns(w));
    Looks(s, w, 3);
    WorksOn(u, w, 1);
    assert u.workers[w := Exited] == s.workers[w := Exited];
  }

  lemma CallerPushes<T>(s: State<T>, c: nat, task: T, rest: seq<Action<T>>)
    requires c in s.callers && s.callers[c] == Entering(task) && s.owner.Nobody?
    ensures After(s, [Call(c)] + ([Call(c)] + ([Call(c)] + rest)))
         == After(s.(callers := s.callers[c := Signalling], queue := s.queue + [task], pushed := s.pushed + [task]),
                  rest)
  {
    var s2 := s.(callers := s.callers[c := Inside(task)], owner := CallerOwns(c));
    var s3 := s2.(callers := s.callers[c := Leaving], queue := s.queue + [task], pushed := s.pushed + [task]);
    Next(s, Call(c), [Call(c)] + ([Call(c)] + rest));
    Next(s2, Call(c), [Call(c)] + rest);
    assert s2.callers[c := Leaving] == s3.callers;
    Next(s3, Call(c), rest);
    assert s3.callers[c := Signalling] == s.callers[c := Signalling];
  }

  /** A call puts exactly its task at the end of the queue, and signals. */
  lemma CallerCalls<T>(s: State<T>, c: nat, task: T, woken: Option<nat>)
    requires Enabled(s, CallEnter(c, task)) && s.owner.Nobody?
    requires if woken.Some? then woken.value in s.workers && s.workers[woken.value].Waiting?
             else forall w | w in s.workers :: !s.workers[w].Waiting?
    ensures After(s, [CallEnter(c, task)] + ([Call(c)] + ([Call(c)] + ([Call(c)] + ([Signal(c, woken)] + [])))))
         == s.(callers := s.callers[c := Caller.Outside], queue := s.queue + [task], pushed := s.pushed + [task],
               workers := if woken.Some? then s.workers[woken.value := Woken] else s.workers)
  {
    var s1 := s.(callers := s.callers[c := Entering(task)]);
    var s4 := s.(callers := s.callers[c := Signalling], queue := s.queue + [task], pushed := s.pushed + [task]);
    Next(s, CallEnter(c, task), [Call(c)] + ([Call(c)] + ([Call(c)] + ([Signal(c, woken)] + []))));
    CallerPushes(s1, c, task, [Signal(c, woken)] + []);
    assert s1.callers[c := Signalling] == s4.callers;
    Next(s4, Signal(c, woken), []);
    assert s4.callers[c := Caller.Outside] == s.callers[c := Caller.Outside];
  }

  // ----- stop sets m_stop without the mutex -----

  predicate Stranded<T>(s: State<T>, w: nat) {
    w in s.workers && s.workers[w].Waiting?
  }

  /** Some continuation has a worker blocked on the condition variable. */
  ghost predicate CanStrand<T(!new)>(s: State<T>) {
    exists later: seq<Action<T>>, w: nat :: Stranded(After(s, later), w)
  }

  /** Some worker is between finding nothing to do and waiting. */
  ghost predicate SomeoneAboutToWait<T>(s: State<T>) {
    exists w :: w in s.workers && AboutToWait(s.workers[w])
  }

  ghost predicate NoneLeft<T>(s: State<T>) {
    s.stop && forall w | w in s.workers :: !AboutToWait(s.workers[w]) && !s.workers[w].Waiting?
  }

  lemma NoneLeftStep<T>(s: State<T>, a: Action<T>)
    requires NoneLeft(s) && Enabled(s, a)
    ensures NoneLeft(Step(s, a))
  {
  }

  lemma {:induction false} NoneLeftRun<T>(s: State<T>, actions: seq<Action<T>>)
    requires NoneLeft(s)
    ensures NoneLeft(After(s, actions))
    decreases |actions|
  {
    if actions != [] {
      if Enabled(s, actions[0]) {
        NoneLeftStep(s, actions[0]);
        NoneLeftRun(Step(s, actions[0]), actions[1..]);
      } else {
        NoneLeftRun(s, actions[1..]);
      }
    }
  }

  /** The steps that take worker w to its wait, from state s. */
  function ToItsWait<T>(s: State<T>, w: nat): seq<Action<T>>
    requires w in s.workers && AboutToWait(s.workers[w])
  {
    match s.workers[w]
    case Latching => if s.latch != 0 then [Work(w)] + ([Work(w)] + ([Work(w)] + [])) else [Work(w)] + ([Work(w)] + [])
    case CountingDown => [Work(w)] + ([Work(w)] + [])
    case ToWait => [Work(w)] + []
  }

  lemma ReachesItsWait<T>(s: State<T>, w: nat)
    requires w in s.workers && AboutToWait(s.workers[w])
    ensures Stranded(After(s, ToItsWait(s, w)), w)
    decreases if s.workers[w].Latching? then 2 else if s.workers[w].CountingDown? then 1 else 0
  {
    var t := Step(s, Work(w));
    if s.workers[w].ToWait? {
      Next(s, Work(w), []);
    } else {
      Next(s, Work(w), ToItsWait(t, w));
      ReachesItsWait(t, w);
    }
  }

  /** It happens: worker 0 finds nothing to do, and stop is called before it waits. */
  lemma StopCanStrand<T(!new)>(threads: nat)
    ensures var b := After(Initial<T>(threads), [Create(0)] + ([Work(0)] + ([Work(0)] + ([SetStop] + []))));
            b.stop && SomeoneAboutToWait(b) && CanStrand(Step(b, Broadcast))
  {
    var s0 := Initial<T>(threads);
    Next(s0, Create(0), [Work(0)] + ([Work(0)] + ([SetStop] + [])));
    var s1 := Step(s0, Create(0));
    Next(s1, Work(0), [Work(0)] + ([SetStop] + []));
    var s2 := Step(s1, Work(0));
    Next(s2, Work(0), [SetStop] + []);
    var s3 := Step(s2, Work(0));
    Next(s3, SetStop, []);
    var b := Step(s3, SetStop);
    assert 0 in b.workers && AboutToWait(b.workers[0]);
    StopStrandsIff<T>(threads, [Create(0)] + ([Work(0)] + ([Work(0)] + ([SetStop] + []))));
  }

  /** After stop's broadcast, some continuation has a worker blocked on the condition
      variable exactly when, at the broadcast, some worker had found nothing to do and not
      yet started to wait. */
  lemma StopStrandsIff<T(!new)>(threads: nat, before: seq<Action<T>>)
    requires After(Initial<T>(threads), before).stop
    ensures var s := Step(After(Initial<T>(threads), before), Broadcast);
            CanStrand(s) <==> SomeoneAboutToWait(After(Initial<T>(threads), before))
  {
    var b := After(Initial<T>(threads), before);
    var s := Step(b, Broadcast);
    if SomeoneAboutToWait(b) {
      var w :| w in b.workers && AboutToWait(b.workers[w]);
      ReachesItsWait(s, w);
      var later := ToItsWait(s, w);
      assert Stranded(After(s, later), w);
    } else {
      assert NoneLeft(s);
      forall later: seq<Action<T>>, w: nat
        ensures !Stranded(After(s, later), w)
      {
        NoneLeftRun(s, later);
      }
    }
  }
}
