/** What each step does to the fields, in every run: when the kernel timer is set and for
    what, which timers are taken out, run, started again and freed. */
module TimerExact {
  import opened Timestamps
  import opened TimerQueue
  import opened Options
  import opened TimerModel
  import opened TimerInvariants
  import opened TimerSteps

  /** The kernel timer is set at this clock reading, for this time or 100us from then. */
  ghost predicate SetFor(fd: TimerFd, when: int, reading: int) {
    fd == TimerFd(Some(Deadline(Max(when, reading + 100), reading)), false)
  }

  /** A timer is put into both indexes; the kernel timer is set for it if it comes first,
      and otherwise left alone. */
  ghost predicate PutIn(s: State, t: State, timer: Addr, when: int, sequence: int, reading: int) {
    && (forall e :: e in t.timers <==> e in s.timers || e == Entry(when, timer))
    && |t.timers| == |s.timers| + 1
    && t.active == s.active + {Id(timer, sequence)}
    && (if s.timers == [] || when < s.timers[0].when then SetFor(t.fd, when, reading) else t.fd == s.fd)
  }

  lemma InsertPutsIn(s: State, timer: Addr, reading: int)
    requires Sorted(s.timers) && IndexOk(s.heap, s.timers, s.active)
    requires timer in s.heap && !Active(s.heap, s.active, timer)
    ensures PutIn(s, InsertTimer(s, timer, reading), timer, s.heap[timer].expiration, s.heap[timer].sequence, reading)
  {
    hide LowerBound, TimeFromNow, SetTime, IndexOk;
    ArmedFor(s.heap[timer].expiration, reading);
    NotYetIn(s, timer);
  }

  lemma NotYetIn(s: State, timer: Addr)
    requires IndexOk(s.heap, s.timers, s.active) && timer in s.heap && !Active(s.heap, s.active, timer)
    ensures Entry(s.heap[timer].expiration, timer) !in s.timers
  {
  }

  // ----- creating timers -----

  /** A new timer is at the address, with the next sequence, as it was asked for. */
  ghost predicate Made(s: State, t: State, timer: Addr, when: int, interval: real) {
    && t.created == s.created + 1
    && t.heap == s.heap[timer := Timer(when, interval, interval > 0.0, t.created)]
    && t.births == s.births[t.created := Birth(timer, when, interval)]
  }

  lemma AddExact(actions: seq<Action>, timer: Addr, when: int, interval: real, reading: int)
    requires Enabled(After(INITIAL, actions), Add(timer, when, interval, reading))
    ensures var s := After(INITIAL, actions);
            var t := Step(s, Add(timer, when, interval, reading));
            Made(s, t, timer, when, interval) && PutIn(s, t, timer, when, t.created, reading)
  {
    hide After;
    Reached(actions);
    AddMakes(After(INITIAL, actions), timer, when, interval, reading);
  }

  lemma AddMakes(s: State, timer: Addr, when: int, interval: real, reading: int)
    requires Inv(s) && Allocatable(s, timer)
    ensures var t := AddTimer(s, timer, when, interval, reading);
            Made(s, t, timer, when, interval) && PutIn(s, t, timer, when, t.created, reading)
  {
    hide LogOk, FirstOk, OrderOk, JustOk, RanOk, FdOk, SetFor;
    AllocateKeeps(s, timer, when, interval);
    var u := Allocate(s, timer, when, interval);
    AllocateIndex(s.heap, s.timers, s.active, timer, Timer(when, interval, interval > 0.0, s.created + 1));
    InsertPutsIn(u, timer, reading);
  }

  lemma Reached(actions: seq<Action>)
    ensures Inv(After(INITIAL, actions))
  {
    InitialInv();
    RunKeeps(INITIAL, actions);
  }

  // ----- handling an event -----

  /** Exactly the timers with expiration <= now are taken out, in order. */
  lemma BeginExact(actions: seq<Action>, now: int)
    requires Enabled(After(INITIAL, actions), Begin(now))
    ensures var s := After(INITIAL, actions);
            var t := Step(s, Begin(now));
            && t.batch + t.timers == s.timers
            && (forall e | e in t.batch :: e.when <= now)
            && (forall e | e in t.timers :: e.when > now)
            && (forall id :: id in t.active
                  <==> id in s.active && id.timer in s.heap && s.heap[id.timer].expiration > now)
            && t == s.(batch := t.batch, timers := t.timers, active := t.active, now := now, phase := Calling(0),
                       calling := true, canceling := {}, round := s.round + 1, fd := TimerFd(s.fd.armed, false))
  {
    hide After;
    Reached(actions);
    TakesExactly(After(INITIAL, actions), now);
  }

  lemma TakesExactly(s: State, now: int)
    requires Inv(s)
    ensures var t := TakeExpired(s, now);
            && t.batch + t.timers == s.timers
            && (forall e | e in t.batch :: e.when <= now)
            && (forall e | e in t.timers :: e.when > now)
            && (forall id :: id in t.active
                  <==> id in s.active && id.timer in s.heap && s.heap[id.timer].expiration > now)
            && t.fault == s.fault
  {
    hide OwnOk, LogOk, FirstOk, OrderOk, JustOk, RanOk, FdOk;
    TakeClean(s, now);
    var t := TakeExpired(s, now);
    forall id
      ensures id in t.active <==> id in s.active && id.timer in s.heap && s.heap[id.timer].expiration > now
    {
      if id in s.active {
        var e := Entry(s.heap[id.timer].expiration, id.timer);
        assert e in s.timers;
        assert e in t.batch || e in t.timers;
        assert forall x | x in t.batch :: x in s.timers;
      }
    }
  }

  /** The callback of the next timer of the batch is run, with its sequence and expiration. */
  lemma CallExact(actions: seq<Action>)
    requires Enabled(After(INITIAL, actions), Call)
    ensures var s := After(INITIAL, actions);
            var e := s.batch[s.phase.next];
            && e.timer in s.heap
            && Step(s, Call)
               == s.(phase := Calling(s.phase.next + 1),
                     log := s.log + [Run(s.heap[e.timer].sequence, e.when, s.now, s.round)])
  {
    hide After;
    Reached(actions);
    var s := After(INITIAL, actions);
    assert s.batch[s.phase.next] in s.batch;
  }

  // ----- reset -----

  /** The first timer of the batch has been started again, for its interval after now, if
      it repeats and was not cancelled; otherwise it has been freed. */
  ghost predicate ResetDone(s: State, t: State, reading: int)
    requires s.batch != []
  {
    var timer := s.batch[0].timer;
    && timer in s.heap && t.batch == s.batch[1..]
    && if s.heap[timer].interval > 0.0 && Id(timer, s.heap[timer].sequence) !in s.canceling
       then StartedAgain(s, t, timer, s.now + Micros(s.heap[timer].interval), reading)
       else FreedNow(s, t, timer)
  }

  ghost predicate StartedAgain(s: State, t: State, timer: Addr, when: int, reading: int)
    requires timer in s.heap
  {
    && t.heap == s.heap[timer := s.heap[timer].(expiration := when)] && t.freed == s.freed
    && PutIn(s, t, timer, when, s.heap[timer].sequence, reading)
  }

  ghost predicate FreedNow(s: State, t: State, timer: Addr)
    requires timer in s.heap
  {
    && t.heap == s.heap - {timer} && t.freed == s.freed + {s.heap[timer].sequence}
    && t.timers == s.timers && t.active == s.active && t.fd == s.fd
  }

  lemma ResetExact(actions: seq<Action>, reading: int)
    requires Enabled(After(INITIAL, actions), Reset(reading))
    ensures var s := After(INITIAL, actions); ResetDone(s, Step(s, Reset(reading)), reading)
  {
    hide After, ResetDone;
    Reached(actions);
    ResetDoes(After(INITIAL, actions), reading);
  }

  lemma ResetDoes(s: State, reading: int)
    requires s.phase.Resetting? && s.batch != [] && Inv(s)
    ensures ResetDone(s, ResetOne(s, reading), reading)
  {
    hide LogOk, FirstOk, OrderOk, JustOk, RanOk, FdOk, StartedAgain, InsertTimer, IndexOk;
    var timer := s.batch[0].timer;
    assert s.batch[0] in s.batch;
    if s.heap[timer].repeat && Id(timer, s.heap[timer].sequence) !in s.canceling {
      Restarts(s, reading);
    }
  }

  lemma Restarts(s: State, reading: int)
    requires s.phase.Resetting? && s.batch != [] && Inv(s) && s.batch[0].timer in s.heap
    requires s.heap[s.batch[0].timer].repeat && IdOf(s, s.batch[0].timer) !in s.canceling
    ensures var timer := s.batch[0].timer;
            StartedAgain(s, ResetOne(s, reading), timer, s.now + Micros(s.heap[timer].interval), reading)
  {
    hide LogOk, FirstOk, OrderOk, JustOk, RanOk, FdOk, SetFor, PutIn, InsertTimer, SeqOk;
    var timer := s.batch[0].timer;
    var r := Restarted(s.heap[timer], s.now);
    RestartOwn(s.heap, s.active, s.batch, s.mail, s.held, r.expiration);
    RestartIndex(s.heap, s.timers, s.active, timer, r.expiration);
    var u := s.(batch := s.batch[1..], heap := s.heap[timer := r]);
    InsertPutsIn(u, timer, reading);
    SameBefore(s, u, InsertTimer(u, timer, reading), timer, r.expiration, r.sequence, reading);
  }

  lemma SameBefore(s: State, u: State, t: State, timer: Addr, when: int, sequence: int, reading: int)
    requires PutIn(u, t, timer, when, sequence, reading)
    requires u.timers == s.timers && u.active == s.active && u.fd == s.fd
    ensures PutIn(s, t, timer, when, sequence, reading)
  {
  }

  /** At the end the kernel timer is set for exactly the earliest expiration, or 100us from
      the reading if that is later; if there is no timer left, it is left alone. */
  lemma FinishExact(actions: seq<Action>, reading: int)
    requires Enabled(After(INITIAL, actions), Finish(reading))
    ensures var s := After(INITIAL, actions);
            var t := Step(s, Finish(reading));
            && (s.timers != [] && s.timers[0].when > 0 ==> SetFor(t.fd, s.timers[0].when, reading))
            && (s.timers == [] || s.timers[0].when <= 0 ==> t.fd == s.fd)
            && t == s.(phase := Idle, fd := t.fd)
  {
    hide After;
    Reached(actions);
    FinishSets(After(INITIAL, actions), reading);
  }

  lemma FinishSets(s: State, reading: int)
    requires IndexOk(s.heap, s.timers, s.active)
    ensures var t := Rearm(s, reading);
            && (s.timers != [] && s.timers[0].when > 0 ==> SetFor(t.fd, s.timers[0].when, reading))
            && (s.timers == [] || s.timers[0].when <= 0 ==> t.fd == s.fd)
            && t.fault == s.fault
  {
    if s.timers != [] {
      assert s.timers[0] in s.timers;
      ArmedFor(s.timers[0].when, reading);
    }
  }

  // ----- requests -----

  /** The first request is handled: its timer is inserted, or cancelled. */
  lemma DispatchExact(actions: seq<Action>, reading: int)
    requires Enabled(After(INITIAL, actions), Dispatch(reading))
    ensures var s := After(INITIAL, actions);
            var t := Step(s, Dispatch(reading));
            && t.mail == s.mail[1..]
            && match s.mail[0]
               case InsertOf(timer) =>
                 && timer in s.heap && t.heap == s.heap
                 && PutIn(s, t, timer, s.heap[timer].expiration, s.heap[timer].sequence, reading)
               case CancelOf(id) => t == Step(s.(mail := t.mail), Cancel(id))
  {
    hide After;
    Reached(actions);
    DispatchDoes(After(INITIAL, actions), reading);
  }

  lemma DispatchDoes(s: State, reading: int)
    requires Inv(s) && Enabled(s, Dispatch(reading))
    ensures var t := Step(s, Dispatch(reading));
            && t.mail == s.mail[1..]
            && match s.mail[0]
               case InsertOf(timer) =>
                 && timer in s.heap && t.heap == s.heap
                 && PutIn(s, t, timer, s.heap[timer].expiration, s.heap[timer].sequence, reading)
               case CancelOf(id) => t == Step(s.(mail := t.mail), Cancel(id))
  {
    hide LogOk, FirstOk, OrderOk, JustOk, RanOk, FdOk, SetFor, PutIn, InsertTimer, CancelTimer, SeqOk;
    var u := s.(mail := s.mail[1..]);
    DispatchOwn(s.heap, s.active, s.batch, s.mail, s.held);
    if s.mail[0].InsertOf? {
      var timer := s.mail[0].timer;
      InsertPutsIn(u, timer, reading);
      SameBefore(s, u, InsertTimer(u, timer, reading), timer,
                 s.heap[timer].expiration, s.heap[timer].sequence, reading);
    }
  }

  /** An active timer that is cancelled leaves both indexes and is freed, and the kernel
      timer is left alone. */
  lemma CancelExact(actions: seq<Action>, id: Id)
    requires Enabled(After(INITIAL, actions), Cancel(id)) && id in After(INITIAL, actions).active
    ensures var s := After(INITIAL, actions);
            var t := Step(s, Cancel(id));
            && id.timer in s.heap
            && t.heap == s.heap - {id.timer} && t.freed == s.freed + {id.sequence} && t.active == s.active - {id}
            && (forall e :: e in t.timers <==> e in s.timers && e.timer != id.timer)
            && t.fd == s.fd && t.canceling == s.canceling
  {
    hide After;
    Reached(actions);
    CancelDoes(After(INITIAL, actions), id);
  }

  lemma CancelDoes(s: State, id: Id)
    requires Inv(s) && id in s.active
    ensures var t := CancelTimer(s, id);
            && id.timer in s.heap
            && t.heap == s.heap - {id.timer} && t.freed == s.freed + {id.sequence} && t.active == s.active - {id}
            && (forall e :: e in t.timers <==> e in s.timers && e.timer != id.timer)
            && t.fd == s.fd && t.canceling == s.canceling
  {
    hide OwnOk, LogOk, FirstOk, OrderOk, JustOk, RanOk, FdOk;
    SameSize(s.heap, s.timers, s.active);
    CancelSplit(s, id);
  }
}
