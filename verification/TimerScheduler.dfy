/** The timer scheduler as the source has it: an object whose methods update its
    fields.  Its methods are proved to make exactly the steps of the timer machine,
    so that everything proved of the machine's runs holds of the object. */
module TimerSchedulers {
  import opened Timestamps
  import opened TimerQueue
  import opened Options
  import opened TimerModel
  import opened TimerInvariants
  import opened TimerSteps
  import opened TimerReturns

  /** What can happen while a callback runs: its own calls of the scheduler, other
      threads' calls, and the kernel timer going off. */
  type CallbackAction = a: Action |
      a.Add? || a.Cancel? || a.RemoteNew? || a.RemotePost? || a.RemoteReturn? || a.RemoteCancel? || a.Fire?
    witness Fire

  /** Whatever happens while a callback runs, the batch being handled stays. */
  lemma BatchStays(s: State, a: CallbackAction)
    requires Sorted(s.timers)
    ensures var t := After(s, [a]); t.phase == s.phase && t.batch == s.batch && t.now == s.now
  {
    AfterOne(s, a);
  }

  /** The source's assertions in insert hold. */
  ghost predicate InsertReady(s: State, timer: Addr) {
    && Sorted(s.timers) && |s.timers| == |s.active|
    && timer in s.heap
    && !Contains(s.timers, Entry(s.heap[timer].expiration, timer))
    && Id(timer, s.heap[timer].sequence) !in s.active
  }

  lemma Ready(s: State, timer: Addr)
    requires IndexOk(s.heap, s.timers, s.active) && timer in s.heap && !Active(s.heap, s.active, timer)
    ensures InsertReady(s, timer)
  {
    SameSize(s.heap, s.timers, s.active);
    InsertIndex(s.heap, s.timers, s.active, timer);
  }

  /** The source's assertions in cancel_timer hold. */
  ghost predicate CancelReady(s: State, id: Id) {
    Sorted(s.timers) && |s.timers| == |s.active| && (id in s.active ==> id.timer in s.heap)
  }

  /** The states that some run of the machine leads to. */
  ghost predicate Reachable(s: State) {
    exists actions: seq<Action> :: After(INITIAL, actions) == s
  }

  lemma ReachableInv(s: State)
    requires Reachable(s)
    ensures Inv(s)
  {
    var actions :| After(INITIAL, actions) == s;
    InitialInv();
    RunKeeps(INITIAL, actions);
  }

  /** What taking out the expired timers relies on. */
  lemma TakeReady(s: State)
    requires Reachable(s)
    ensures |s.timers| == |s.active|
    ensures forall e | e in s.timers :: e.timer in s.heap && e.timer < ADDR_MAX
  {
    ReachableInv(s);
    SameSize(s.heap, s.timers, s.active);
  }

  /** The first timer of the queue is the one that its entry says. */
  lemma FirstReady(s: State)
    requires Reachable(s) && s.timers != []
    ensures var e := s.timers[0]; e.timer in s.heap && s.heap[e.timer].expiration == e.when
  {
    hide OwnOk, SeqOk, JustOk, RanOk, LogOk, FirstOk, OrderOk, FdOk;
    ReachableInv(s);
    assert s.timers[0] in s.timers;
  }

  lemma ReachableOwn(s: State)
    requires Reachable(s)
    ensures IndexOk(s.heap, s.timers, s.active) && OwnOk(s.heap, s.active, s.batch, s.mail, s.held) && !s.fault
  {
    ReachableInv(s);
  }

  lemma ReachStep(s: State, a: Action)
    requires Reachable(s) && Sorted(s.timers) && Enabled(s, a)
    ensures Reachable(Step(s, a)) && !Step(s, a).fault
    ensures After(s, [a]) == Step(s, a)
  {
    var actions :| After(INITIAL, actions) == s;
    AfterOne(s, a);
    AfterBoth(INITIAL, actions, [a]);
    assert After(INITIAL, actions + [a]) == Step(s, a);
    ReachableOwn(Step(s, a));
  }

  /** What the thread in add_timer relies on. */
  lemma Returning(s: State, id: Id)
    requires Reachable(s) && id in s.returning
    ensures ReadsOwn(s, id) <==> id.sequence !in s.freed
  {
    var actions :| After(INITIAL, actions) == s;
    ReadSafeIff(actions, id);
  }

  lemma Held(s: State, timer: Addr)
    requires Reachable(s) && timer in s.held
    ensures timer in s.heap
  {
    ReachableInv(s);
  }

  /** What TakeExpired leaves when it raises no fault. */
  lemma TakeSplit(s: State, now: int)
    requires Sorted(s.timers) && forall e | e in s.timers :: e.timer in s.heap
    ensures var t := TakeExpired(s, now);
            var end := LowerBound(s.timers, Entry(now, ADDR_MAX));
            t == s.(timers := s.timers[end..], active := s.active - IdsIn(s.heap, s.timers[..end]),
                    fd := TimerFd(s.fd.armed, false), calling := true, canceling := {},
                    phase := Calling(0), batch := s.timers[..end], now := now, round := s.round + 1, fault := t.fault)
  {
    var expired := TakeExpired(s, now).batch;
    assert forall e | e in expired :: e in s.timers;
  }

  lemma IdsSnoc(heap: map<Addr, Timer>, entries: seq<Entry>, i: nat)
    requires i < |entries| && entries[i].timer in heap
    ensures IdsIn(heap, entries[..i + 1])
         == IdsIn(heap, entries[..i]) + {Id(entries[i].timer, heap[entries[i].timer].sequence)}
  {
    assert entries[..i + 1] == entries[..i] + [entries[i]];
  }

  lemma ResetSplit(s: State, reading: int)
    requires Reachable(s) && Sorted(s.timers) && Enabled(s, Action.Reset(reading))
    ensures var timer := s.batch[0].timer;
            && timer in s.heap
            && var t := s.heap[timer];
               var u := s.(batch := s.batch[1..], heap := s.heap[timer := Restarted(t, s.now)]);
               if t.repeat && Id(timer, t.sequence) !in s.canceling then
                 && InsertReady(u, timer)
                 && ResetOne(s, reading) == InsertTimer(u, timer, reading)
               else
                 && !ResetOne(s, reading).fault
                 && ResetOne(s, reading) ==
                    s.(batch := s.batch[1..], heap := s.heap - {timer}, freed := s.freed + {t.sequence})
  {
    hide InsertTimer, Sorted;
    ReachableOwn(s);
    var timer := s.batch[0].timer;
    assert s.batch[0] in s.batch;
    RestartOwn(s.heap, s.active, s.batch, s.mail, s.held, 0);
    var r := Restarted(s.heap[timer], s.now);
    RestartIndex(s.heap, s.timers, s.active, timer, r.expiration);
    Ready(s.(batch := s.batch[1..], heap := s.heap[timer := r]), timer);
  }

  lemma DispatchSplit(s: State, reading: int)
    requires Reachable(s) && Sorted(s.timers) && Enabled(s, Dispatch(reading))
    ensures var u := s.(mail := s.mail[1..]);
            match s.mail[0]
            case InsertOf(timer) =>
              InsertReady(u, timer) && RunFunctor(s, reading) == InsertTimer(u, timer, reading)
            case CancelOf(id) =>
              CancelReady(u, id) && RunFunctor(s, reading) == CancelTimer(u, id)
  {
    ReachableOwn(s);
    DispatchOwn(s.heap, s.active, s.batch, s.mail, s.held);
    SameSize(s.heap, s.timers, s.active);
    if s.mail[0].InsertOf? {
      Ready(s.(mail := s.mail[1..]), s.mail[0].timer);
    }
  }

  lemma CancelSafe(s: State, id: Id)
    requires Reachable(s)
    ensures CancelReady(s, id)
  {
    ReachableOwn(s);
    SameSize(s.heap, s.timers, s.active);
  }

  lemma AddSafe(s: State, timer: Addr, when: int, interval: real)
    requires Reachable(s) && timer !in s.heap
    ensures InsertReady(Allocate(s, timer, when, interval), timer)
  {
    ReachableOwn(s);
    AllocateOwn(s.heap, s.timers, s.active, s.batch, s.mail, s.held,
                timer, Timer(when, interval, interval > 0.0, s.created + 1));
    AllocateIndex(s.heap, s.timers, s.active, timer, Timer(when, interval, interval > 0.0, s.created + 1));
    Ready(Allocate(s, timer, when, interval), timer);
  }

  /** The steps of the callbacks from number i on, when callback number k does what
      scripts(k) says. */
  function CallsFrom(scripts: nat -> seq<CallbackAction>, i: nat, n: nat): seq<Action>
    decreases n - i
  {
    if i >= n then [EndCalls] else [Call] + scripts(i) + CallsFrom(scripts, i + 1, n)
  }

  /** The steps of reset from entry number i on; clock(k) is the reading that entry
      number k makes, and clock(n) the one made at the end. */
  function ResetsFrom(clock: nat -> int, i: nat, n: nat): seq<Action>
    decreases n - i
  {
    if i >= n then [Finish(clock(n))] else [Reset(clock(i))] + ResetsFrom(clock, i + 1, n)
  }

  /** The steps of one call of handle_event that finds n expired timers. */
  function EventSteps(now: int, scripts: nat -> seq<CallbackAction>, clock: nat -> int, n: nat): seq<Action> {
    [Begin(now)] + CallsFrom(scripts, 0, n) + ResetsFrom(clock, 0, n)
  }

  lemma EventUnroll(s: State, now: int, scripts: nat -> seq<CallbackAction>, clock: nat -> int, n: nat)
    requires Sorted(s.timers) && Enabled(s, Begin(now))
    ensures After(s, EventSteps(now, scripts, clock, n))
         == After(After(TakeExpired(s, now), CallsFrom(scripts, 0, n)), ResetsFrom(clock, 0, n))
  {
    AfterBoth(s, [Begin(now)] + CallsFrom(scripts, 0, n), ResetsFrom(clock, 0, n));
    AfterBoth(s, [Begin(now)], CallsFrom(scripts, 0, n));
    AfterOne(s, Begin(now));
  }

  function DispatchesFrom(clock: nat -> int, i: nat, n: nat): seq<Action>
    decreases n - i
  {
    if i >= n then [] else [Dispatch(clock(i))] + DispatchesFrom(clock, i + 1, n)
  }

  lemma DispatchUnroll(s: State, clock: nat -> int, i: nat, n: nat)
    requires Sorted(s.timers) && i < n && Enabled(s, Dispatch(clock(i)))
    ensures After(s, DispatchesFrom(clock, i, n)) == After(Step(s, Dispatch(clock(i))), DispatchesFrom(clock, i + 1, n))
  {
    AfterBoth(s, [Dispatch(clock(i))], DispatchesFrom(clock, i + 1, n));
    AfterOne(s, Dispatch(clock(i)));
  }

  class TimerScheduler {
    var heap: map<Addr, Timer>
    var numCreated: int
    var timers: seq<Entry>
    var activeTimers: set<Id>
    var cancelingTimers: set<Id>
    var callingExpiredTimer: bool
    var held: set<Addr>
    var returning: set<Id>
    var pendingFunctors: seq<Functor>
    var timerfd: TimerFd

    /** The state of the machine: the fields above, the local state of handle_event,
        and the history. */
    ghost var model: State

    /** The fields are what the machine's state says; `functors` have been taken out
        of the queue of requests and not run yet. */
    ghost predicate Matches(functors: seq<Functor>)
      reads this
    {
      && !model.fault
      && heap == model.heap && numCreated == model.created
      && timers == model.timers && activeTimers == model.active
      && cancelingTimers == model.canceling && callingExpiredTimer == model.calling
      && held == model.held && returning == model.returning && functors + pendingFunctors == model.mail
      && timerfd == model.fd
    }

    ghost predicate Valid()
      reads this
    {
      Matches([]) && Reachable(model) && Sorted(model.timers)
    }

    /** The kernel timer has been set at this reading, for exactly the earliest expiration or
        100us from then, if any timer is left. */
    ghost predicate ArmedForFirst(reading: int)
      reads this
    {
      timers != [] && timers[0].when > 0 ==>
        timerfd == TimerFd(Some(Deadline(Max(timers[0].when, reading + 100), reading)), false)
    }

    constructor ()
      ensures Valid() && model == INITIAL
      ensures heap == map[] && numCreated == 0 && timers == [] && activeTimers == {} && pendingFunctors == []
      ensures !callingExpiredTimer && timerfd == TimerFd(None, false)
    {
      heap, numCreated := map[], 0;
      timers, activeTimers, cancelingTimers := [], {}, {};
      callingExpiredTimer, held, returning, pendingFunctors := false, {}, {}, [];
      timerfd := TimerFd(None, false);
      model := INITIAL;
      new;
      assert After(INITIAL, []) == INITIAL;
    }

    method SetTimerFd(when: int, reading: int)
      modifies this`timerfd
      ensures timerfd == ResetTimerFd(when, reading)
      ensures timerfd == TimerFd(Some(Deadline(Max(when, reading + 100), reading)), false)
    {
      var microseconds := when - reading;
      if microseconds < 100 {
        microseconds := 100;
      }
      var sec := microseconds / MICROS_PER_SECOND;
      var nsec := (microseconds % MICROS_PER_SECOND) * 1000;
      timerfd := SetTime((sec, nsec), reading);
      ArmedFor(when, reading);
    }

    method CancelTimer(id: Id, ghost functors: seq<Functor>)
      requires Matches(functors) && CancelReady(model, id)
      modifies this
      ensures Matches(functors)
      ensures model == TimerModel.CancelTimer(old(model), id)
      ensures pendingFunctors == old(pendingFunctors)
    {
      assert |timers| == |activeTimers|;
      model := TimerModel.CancelTimer(model, id);
      if id in activeTimers {
        timers := Erase(timers, Entry(heap[id.timer].expiration, id.timer));
        heap := heap - {id.timer};
        activeTimers := activeTimers - {id};
      } else if callingExpiredTimer {
        cancelingTimers := cancelingTimers + {id};
      }
    }

    method Insert(timer: Addr, reading: int, ghost functors: seq<Functor>)
      requires Matches(functors) && InsertReady(model, timer)
      modifies this
      ensures Matches(functors)
      ensures model == InsertTimer(old(model), timer, reading)
      ensures pendingFunctors == old(pendingFunctors)
    {
      assert |timers| == |activeTimers|;
      var when := heap[timer].expiration;
      var id := Id(timer, heap[timer].sequence);
      if timers == [] || when < timers[0].when {
        SetTimerFd(when, reading);
      }
      assert !Contains(timers, Entry(when, timer));
      timers := TimerQueue.Insert(timers, Entry(when, timer));
      assert id !in activeTimers;
      activeTimers := activeTimers + {id};
      model := InsertTimer(model, timer, reading);
    }

    /** new Timer(...), at the address given. */
    method New(timer: Addr, when: int, interval: real, ghost functors: seq<Functor>)
      requires Matches(functors) && timer !in heap
      modifies this
      ensures Matches(functors) && model == Allocate(old(model), timer, when, interval)
      ensures pendingFunctors == old(pendingFunctors)
    {
      model := Allocate(model, timer, when, interval);
      numCreated := numCreated + 1;
      heap := heap[timer := Timer(when, interval, interval > 0.0, numCreated)];
    }

    /** add_timer on the loop thread. */
    method AddTimer(timer: Addr, when: int, interval: real, reading: int) returns (id: Id)
      requires Valid() && LoopThreadMayCall(model) && Allocatable(model, timer)
      modifies this
      ensures Valid() && model == TimerModel.AddTimer(old(model), timer, when, interval, reading)
      ensures id == Id(timer, old(numCreated) + 1) && id in activeTimers
    {
      ReachStep(model, Add(timer, when, interval, reading));
      AddSafe(model, timer, when, interval);
      New(timer, when, interval, []);
      Insert(timer, reading, []);
      id := Id(timer, heap[timer].sequence);
    }

    /** add_timer on another thread, up to the push: the timer is created, and only that
        thread knows of it. */
    method RemoteNew(timer: Addr, when: int, interval: real)
      requires Valid() && Allocatable(model, timer)
      modifies this
      ensures Valid() && model == Step(old(model), Action.RemoteNew(timer, when, interval))
      ensures timer in held && heap == old(heap)[timer := Timer(when, interval, interval > 0.0, old(numCreated) + 1)]
      ensures timers == old(timers) && activeTimers == old(activeTimers) && pendingFunctors == old(pendingFunctors)
    {
      ReachStep(model, Action.RemoteNew(timer, when, interval));
      New(timer, when, interval, []);
      held := held + {timer};
      model := model.(held := model.held + {timer});
    }

    /** The push: the loop thread may insert the timer from now on. */
    method RemotePost(timer: Addr)
      requires Valid() && timer in held
      modifies this
      ensures Valid() && model == Step(old(model), Action.RemotePost(timer))
      ensures pendingFunctors == old(pendingFunctors) + [InsertOf(timer)]
      ensures timer !in held && timer in heap && Id(timer, heap[timer].sequence) in returning
    {
      ReachStep(model, Action.RemotePost(timer));
      Held(model, timer);
      returning := returning + {Id(timer, heap[timer].sequence)};
      held := held - {timer};
      pendingFunctors := pendingFunctors + [InsertOf(timer)];
      model := Step(model, Action.RemotePost(timer));
    }

    /** The end: the sequence is read again.  What is returned is the timer's id exactly if
        the timer has not been freed meanwhile; None stands for a read of freed memory. */
    method RemoteReturn(id: Id) returns (result: Option<Id>)
      requires Valid() && id in returning
      modifies this
      ensures Valid() && model == Step(old(model), Action.RemoteReturn(id))
      ensures result == Some(id) <==> id.sequence !in model.freed
      ensures result == if id.timer in heap then Some(Id(id.timer, heap[id.timer].sequence)) else None
    {
      ReachStep(model, Action.RemoteReturn(id));
      Returning(model, id);
      result := if id.timer in heap then Some(Id(id.timer, heap[id.timer].sequence)) else None;
      returning := returning - {id};
      model := Step(model, Action.RemoteReturn(id));
    }

    /** One thing that happens while a callback runs, if it can happen at all. */
    method Perform(a: CallbackAction)
      requires Valid() && LoopThreadMayCall(model)
      modifies this
      ensures Valid() && model == After(old(model), [a])
    {
      AfterOne(model, a);
      match a
      case Add(timer, when, interval, reading) =>
        if timer !in heap && timer < ADDR_MAX {
          var _ := AddTimer(timer, when, interval, reading);
        }
      case Cancel(id) =>
        ReachStep(model, a);
        CancelSafe(model, id);
        CancelTimer(id, []);
      case RemoteNew(timer, when, interval) =>
        if timer !in heap && timer < ADDR_MAX {
          RemoteNew(timer, when, interval);
        }
      case RemotePost(timer) =>
        if timer in held {
          RemotePost(timer);
        }
      case RemoteReturn(id) =>
        if id in returning {
          var _ := RemoteReturn(id);
        }
      case RemoteCancel(id) =>
        ReachStep(model, a);
        pendingFunctors := pendingFunctors + [CancelOf(id)];
        model := Step(model, a);
      case Fire =>
        if timerfd.armed.Some? {
          ReachStep(model, a);
          timerfd := TimerFd(None, true);
          model := Step(model, a);
        }
    }

    /** Takes the expired timers out of both indexes, in order of expiration. */
    method GetExpired(now: int) returns (expired: seq<Entry>)
      requires Sorted(timers) && |timers| == |activeTimers|
      requires forall e | e in timers :: e.timer in heap && e.timer < ADDR_MAX
      modifies this`timers, this`activeTimers
      ensures var end := LowerBound(old(timers), Entry(now, ADDR_MAX));
              && expired == old(timers)[..end]
              && timers == old(timers)[end..]
              && activeTimers == old(activeTimers) - IdsIn(heap, old(timers)[..end])
              && forall i | 0 <= i < |old(timers)| :: i < end <==> old(timers)[i].when <= now
    {
      SentinelSplit(timers, now);
      var end := LowerBound(timers, Entry(now, ADDR_MAX));
      assert end == |timers| || now < timers[end].when;
      expired := timers[..end];
      assert forall e | e in expired :: e in timers;
      timers := timers[end..];
      EraseActive(expired);
    }

    /** The loop of get_expired. */
    method EraseActive(expired: seq<Entry>)
      requires forall e | e in expired :: e.timer in heap
      modifies this`activeTimers
      ensures activeTimers == old(activeTimers) - IdsIn(heap, expired)
    {
      for i := 0 to |expired|
        invariant activeTimers == old(activeTimers) - IdsIn(heap, expired[..i])
      {
        IdsSnoc(heap, expired, i);
        activeTimers := activeTimers - {Id(expired[i].timer, heap[expired[i].timer].sequence)};
      }
      assert expired[..|expired|] == expired;
    }

    /** handle_event up to its first callback. */
    method TakeBatch(now: int) returns (expired: seq<Entry>)
      requires Valid() && model.phase.Idle? && timerfd.readable && now >= 0
      modifies this
      ensures Valid() && model == TakeExpired(old(model), now) && expired == model.batch
    {
      hide Reachable, TakeExpired, LowerBound, Sorted;
      ReachStep(model, Begin(now));
      TakeReady(model);
      TakeSplit(model, now);
      timerfd := TimerFd(timerfd.armed, false);
      expired := GetExpired(now);
      callingExpiredTimer := true;
      cancelingTimers := {};
      model := TakeExpired(model, now);
    }

    /** The body of the loop in reset: a repeating timer is inserted again unless it was
        cancelled meanwhile; any other timer is freed. */
    method ResetEntry(entry: Entry, now: int, reading: int)
      requires Valid() && model.phase.Resetting? && model.batch != [] && model.batch[0] == entry && model.now == now
      modifies this
      ensures Valid() && model == Step(old(model), Action.Reset(reading))
    {
      ghost var next := Step(model, Action.Reset(reading));
      ReachStep(model, Action.Reset(reading));
      var timer := entry.timer;
      var id := Id(timer, heap[timer].sequence);
      ResetSplit(model, reading);
      if heap[timer].repeat && id !in cancelingTimers {
        heap := heap[timer := Restarted(heap[timer], now)];
        model := model.(batch := model.batch[1..], heap := heap);
        Insert(timer, reading, []);
      } else {
        heap := heap - {timer};
        model := next;
      }
    }

    /** Inserts the repeating timers of the batch again unless they were cancelled
        meanwhile, frees the others, and sets the kernel timer. */
    method Reset(expired: seq<Entry>, now: int, clock: nat -> int)
      requires Valid() && model.phase.Resetting? && model.batch == expired && model.now == now
      modifies this
      ensures Valid() && model == After(old(model), ResetsFrom(clock, 0, |expired|))
      ensures ArmedForFirst(clock(|expired|))
    {
      ghost var goal := After(model, ResetsFrom(clock, 0, |expired|));
      for i := 0 to |expired|
        invariant Valid() && model.phase.Resetting? && model.batch == expired[i..] && model.now == now
        invariant After(model, ResetsFrom(clock, i, |expired|)) == goal
      {
        AfterBoth(model, [Action.Reset(clock(i))], ResetsFrom(clock, i + 1, |expired|));
        ReachStep(model, Action.Reset(clock(i)));
        ResetEntry(expired[i], now, clock(i));
      }
      SetEarliest(clock(|expired|));
    }

    /** The end of reset. */
    method SetEarliest(reading: int)
      requires Valid() && model.phase.Resetting? && model.batch == []
      modifies this
      ensures Valid() && model == After(old(model), [Finish(reading)])
      ensures ArmedForFirst(reading)
    {
      ReachStep(model, Finish(reading));
      var newExpire := INVALID;
      if timers != [] {
        FirstReady(model);
        newExpire := heap[timers[0].timer].expiration;
      }
      if IsValid(newExpire) {
        SetTimerFd(newExpire, reading);
      }
      model := Step(model, Finish(reading));
    }

    /** Timer::run for entry number i of the batch, while its callback does what the
        script says. */
    method RunCallback(i: nat, script: seq<CallbackAction>)
      requires Valid() && model.phase == Calling(i) && i < |model.batch|
      modifies this
      ensures Valid() && model == After(old(model), [Call] + script)
      ensures model.phase == Calling(i + 1) && model.batch == old(model.batch) && model.now == old(model.now)
    {
      ghost var start := Step(model, Call);
      ReachStep(model, Call);
      AfterBoth(model, [Call], script);
      model := start;
      assert script[..0] == [];
      for k := 0 to |script|
        invariant Valid() && model.phase == Calling(i + 1) && model.batch == start.batch && model.now == start.now
        invariant model == After(start, script[..k])
      {
        BatchStays(model, script[k]);
        AfterBoth(start, script[..k], [script[k]]);
        assert script[..k + 1] == script[..k] + [script[k]];
        Perform(script[k]);
      }
      assert script[..|script|] == script;
    }

    /** Runs everything that has expired by `now`, each callback doing what its script
        says, and exactly those steps. */
    method HandleEvent(now: int, scripts: nat -> seq<CallbackAction>, clock: nat -> int)
      requires Valid() && Enabled(model, Begin(now))
      modifies this
      ensures Valid()
      ensures var n := LowerBound(old(timers), Entry(now, ADDR_MAX));
              model == After(old(model), EventSteps(now, scripts, clock, n)) && ArmedForFirst(clock(n))
    {
      var expired := TakeBatch(now);
      RunCallbacks(expired, now, scripts);
      Reset(expired, now, clock);
      EventUnroll(old(model), now, scripts, clock, |expired|);
    }

    /** The loop in handle_event, up to where m_callingExpiredTimer is cleared. */
    method RunCallbacks(expired: seq<Entry>, now: int, scripts: nat -> seq<CallbackAction>)
      requires Valid() && model.phase == Calling(0) && model.batch == expired && model.now == now
      modifies this
      ensures Valid() && model.phase.Resetting? && model.batch == expired && model.now == now
      ensures model == After(old(model), CallsFrom(scripts, 0, |expired|))
    {
      ghost var goal := After(model, CallsFrom(scripts, 0, |expired|));
      for i := 0 to |expired|
        invariant Valid() && model.phase == Calling(i) && model.batch == expired && model.now == now
        invariant After(model, CallsFrom(scripts, i, |expired|)) == goal
      {
        AfterBoth(model, [Call] + scripts(i), CallsFrom(scripts, i + 1, |expired|));
        RunCallback(i, scripts(i));
      }
      EndCallbacks();
    }

    method EndCallbacks()
      requires Valid() && model.phase == Calling(|model.batch|)
      modifies this
      ensures Valid() && model == After(old(model), [EndCalls])
      ensures model.phase.Resetting? && model.batch == old(model.batch) && model.now == old(model.now)
    {
      ReachStep(model, EndCalls);
      callingExpiredTimer := false;
      model := Step(model, EndCalls);
    }

    /** Runs one request; the ones that follow it have been taken out of the queue too. */
    method RunFunctor(functor: Functor, reading: int, ghost rest: seq<Functor>)
      requires Matches([functor] + rest) && Reachable(model) && Sorted(model.timers) && model.phase.Idle?
      modifies this
      ensures Matches(rest) && Reachable(model) && Sorted(model.timers) && model.phase.Idle?
      ensures model == Step(old(model), Dispatch(reading)) && pendingFunctors == old(pendingFunctors)
    {
      assert model.mail[0] == functor && model.mail[1..] == rest + pendingFunctors;
      ReachStep(model, Dispatch(reading));
      DispatchSplit(model, reading);
      model := model.(mail := model.mail[1..]);
      match functor
      case InsertOf(timer) => Insert(timer, reading, rest);
      case CancelOf(id) => CancelTimer(id, rest);
    }

    /** Runs the requests that other threads have posted so far, in order. */
    method HandlePendingFunctor(clock: nat -> int)
      requires Valid() && model.phase.Idle?
      modifies this
      ensures Valid() && pendingFunctors == []
      ensures model == After(old(model), DispatchesFrom(clock, 0, |old(pendingFunctors)|))
    {
      hide Step, Reachable, Sorted;
      var functors := pendingFunctors;
      ghost var goal := After(model, DispatchesFrom(clock, 0, |functors|));
      pendingFunctors := [];
      ghost var rest := functors;
      for i := 0 to |functors|
        invariant Matches(rest) && Reachable(model) && Sorted(model.timers)
        invariant rest == functors[i..] && model.phase.Idle? && pendingFunctors == []
        invariant After(model, DispatchesFrom(clock, i, |functors|)) == goal
      {
        DispatchUnroll(model, clock, i, |functors|);
        ghost var more := rest[1..];
        assert rest == [functors[i]] + more;
        RunFunctor(functors[i], clock(i), more);
        rest := more;
      }
    }
  }
}
