/** The invariant of the timer machine is kept by every step: first by the changes
    the steps are made of, one part of the invariant at a time, then by the steps. */
module TimerSteps {
  import opened Timestamps
  import opened TimerQueue
  import opened TimerModel
  import opened TimerInvariants

  // ----- allocation -----

  lemma AllocateIndex(heap: map<Addr, Timer>, timers: seq<Entry>, active: set<Id>, a: Addr, t: Timer)
    requires IndexOk(heap, timers, active) && a !in heap
    ensures IndexOk(heap[a := t], timers, active)
  {
  }

  lemma AllocateOwn(heap: map<Addr, Timer>, timers: seq<Entry>, active: set<Id>, batch: seq<Entry>, mail: seq<Functor>,
                    held: set<Addr>, a: Addr, t: Timer)
    requires IndexOk(heap, timers, active) && OwnOk(heap, active, batch, mail, held) && a !in heap
    ensures OwnOk(heap[a := t], active + {Id(a, t.sequence)}, batch, mail, held)
    ensures OwnOk(heap[a := t], active, batch, mail, held + {a})
    ensures Id(a, t.sequence) !in active
  {
    forall b | b in heap
      ensures Active(heap[a := t], active + {Id(a, t.sequence)}, b) == Active(heap, active, b)
              == Active(heap[a := t], active, b)
      ensures Flying(heap[a := t], batch, b) == Flying(heap, batch, b)
    {
    }
  }

  lemma AllocateSeq(heap: map<Addr, Timer>, births: map<int, Birth>, freed: set<int>, created: int, a: Addr,
                    when: int, interval: real)
    requires SeqOk(heap, births, freed, created) && a !in heap && a < ADDR_MAX
    ensures SeqOk(heap[a := Timer(when, interval, interval > 0.0, created + 1)],
                  births[created + 1 := Birth(a, when, interval)], freed, created + 1)
  {
  }

  lemma AllocateJust(births: map<int, Birth>, freed: set<int>, created: int, cancelled: set<Id>, canceling: set<Id>,
                     log: seq<Run>, b: Birth)
    requires JustOk(births, freed, cancelled, canceling, log) && freed <= births.Keys && created + 1 !in births
    ensures JustOk(births[created + 1 := b], freed, cancelled, canceling, log)
  {
  }

  lemma AllocateLog(heap: map<Addr, Timer>, births: map<int, Birth>, created: int, batch: seq<Entry>, phase: Phase,
                    now: int, log: seq<Run>, 
                    a: Addr, t: Timer)
    requires LogOk(heap, births, batch, phase, now, log) && a !in heap && created + 1 !in births
             && t.sequence == created + 1
    ensures LogOk(heap[a := t], births[created + 1 := Birth(a, t.expiration, t.interval)], batch, phase, now, log)
  {
    var heap' := heap[a := t];
    var births' := births[created + 1 := Birth(a, t.expiration, t.interval)];
    forall i | 0 <= i < |log|
      ensures Settled(heap', births', Called(batch, phase), now, log, i)
      ensures log[i].sequence in births
    {
      assert Settled(heap, births, Called(batch, phase), now, log, i);
    }
    assert Spaced(births', log);
  }

  lemma AllocateRan(heap: map<Addr, Timer>, called: seq<Entry>, log: seq<Run>, a: Addr, t: Timer)
    requires RanOk(heap, called, log) && a !in heap
    ensures RanOk(heap[a := t], called, log)
  {
  }

  lemma AllocateFirst(heap: map<Addr, Timer>, births: map<int, Birth>, log: seq<Run>, created: int, a: Addr, t: Timer)
    requires FirstOk(heap, births, log) && a !in heap && created + 1 !in births && t.sequence == created + 1
    requires forall i | 0 <= i < |log| :: log[i].sequence in births
    requires forall b | b in heap :: heap[b].sequence in births
    ensures FirstOk(heap[a := t], births[created + 1 := Birth(a, t.expiration, t.interval)], log)
  {
  }

  // ----- insertion -----

  lemma InsertIndex(heap: map<Addr, Timer>, timers: seq<Entry>, active: set<Id>, a: Addr)
    requires IndexOk(heap, timers, active) && a in heap && !Active(heap, active, a)
    ensures IndexOk(heap, Insert(timers, Entry(heap[a].expiration, a)), active + {Id(a, heap[a].sequence)})
    ensures !Contains(timers, Entry(heap[a].expiration, a))
  {
    assert Entry(heap[a].expiration, a) !in timers;
  }

  lemma InsertFd(s: State, timer: Addr, reading: int)
    requires Sorted(s.timers) && FdOk(s.fd, s.timers, s.phase, s.now)
    ensures var t := InsertTimer(s, timer, reading); FdOk(t.fd, t.timers, t.phase, t.now)
  {
    ArmedFor(Deref(s, timer).expiration, reading);
  }

  /** insert raises no fault and touches the two indexes and the kernel timer only. */
  lemma InsertStep(s: State, timer: Addr, reading: int)
    requires !s.fault && IndexOk(s.heap, s.timers, s.active) && timer in s.heap && !Active(s.heap, s.active, timer)
    requires FdOk(s.fd, s.timers, s.phase, s.now)
    ensures var t := InsertTimer(s, timer, reading);
            && IndexOk(t.heap, t.timers, t.active)
            && FdOk(t.fd, t.timers, t.phase, t.now)
            && t == s.(fd := t.fd, timers := t.timers, active := s.active + {Id(timer, s.heap[timer].sequence)})
  {
    InsertIndex(s.heap, s.timers, s.active, timer);
    SameSize(s.heap, s.timers, s.active);
    InsertFd(s, timer, reading);
  }

  // ----- freeing -----

  lemma FreeSeq(heap: map<Addr, Timer>, births: map<int, Birth>, freed: set<int>, created: int, a: Addr)
    requires SeqOk(heap, births, freed, created) && a in heap
    ensures SeqOk(heap - {a}, births, freed + {heap[a].sequence}, created)
  {
  }

  lemma FreeLog(heap: map<Addr, Timer>, births: map<int, Birth>, batch: seq<Entry>, phase: Phase, now: int,
                log: seq<Run>, a: Addr)
    requires LogOk(heap, births, batch, phase, now, log) && a in heap
    ensures LogOk(heap - {a}, births, batch, phase, now, log)
  {
    var heap' := heap - {a};
    forall i | 0 <= i < |log|
      ensures Settled(heap', births, Called(batch, phase), now, log, i)
    {
      assert Settled(heap, births, Called(batch, phase), now, log, i);
    }
  }

  // ----- cancellation -----

  lemma RemoveIndex(heap: map<Addr, Timer>, timers: seq<Entry>, active: set<Id>, id: Id)
    requires IndexOk(heap, timers, active) && id in active
    ensures IndexOk(heap - {id.timer}, Erase(timers, Entry(heap[id.timer].expiration, id.timer)), active - {id})
  {
    var e := Entry(heap[id.timer].expiration, id.timer);
    var rest := Erase(timers, e);
    forall x | x in rest
      ensures x.timer in heap - {id.timer} && heap[x.timer].expiration == x.when
      ensures Id(x.timer, heap[x.timer].sequence) in active - {id}
    {
      assert x in timers && x != e;
    }
    forall x | x in active - {id}
      ensures x.timer in heap - {id.timer} && Entry(heap[x.timer].expiration, x.timer) in rest
    {
      assert x in active && x.timer != id.timer;
    }
  }

  lemma RemoveOwn(heap: map<Addr, Timer>, timers: seq<Entry>, active: set<Id>, batch: seq<Entry>, mail: seq<Functor>,
                  held: set<Addr>, id: Id)
    requires IndexOk(heap, timers, active) && OwnOk(heap, active, batch, mail, held) && id in active
    ensures OwnOk(heap - {id.timer}, active - {id}, batch, mail, held)
  {
    var a := id.timer;
    assert Active(heap, active, a);
    assert forall e | e in batch && e.timer == a :: Flying(heap, batch, a);
    forall b | b in heap - {a}
      ensures Active(heap - {a}, active - {id}, b) == Active(heap, active, b)
      ensures Flying(heap - {a}, batch, b) == Flying(heap, batch, b)
    {
    }
  }

  lemma RemoveRan(heap: map<Addr, Timer>, timers: seq<Entry>, active: set<Id>, batch: seq<Entry>, mail: seq<Functor>,
                  held: set<Addr>, 
                  called: seq<Entry>, log: seq<Run>, id: Id)
    requires IndexOk(heap, timers, active) && OwnOk(heap, active, batch, mail, held) && id in active
    requires RanOk(heap, called, log) && forall e | e in called :: e in batch
    ensures RanOk(heap - {id.timer}, called, log)
  {
    assert Active(heap, active, id.timer);
    forall e | e in called
      ensures e.timer != id.timer
    {
      assert e in batch && Flying(heap, batch, e.timer);
    }
  }

  lemma EraseFd(fd: TimerFd, timers: seq<Entry>, phase: Phase, now: int, e: Entry)
    requires Sorted(timers) && FdOk(fd, timers, phase, now)
    ensures FdOk(fd, Erase(timers, e), phase, now)
  {
    EraseFirst(timers, e);
  }

  /** What a cancel leaves of a timer that is in the indexes. */
  lemma CancelSplit(s: State, id: Id)
    requires Sorted(s.timers) && !s.fault && |s.timers| == |s.active| && id in s.active && id.timer in s.heap
    requires s.heap[id.timer].sequence == id.sequence
    ensures CancelTimer(s, id)
         == s.(heap := s.heap - {id.timer}, timers := Erase(s.timers, Entry(s.heap[id.timer].expiration, id.timer)),
               active := s.active - {id}, freed := s.freed + {id.sequence}, cancelled := s.cancelled + {id})
  {
  }

  lemma CancelJust(births: map<int, Birth>, freed: set<int>, cancelled: set<Id>, canceling: set<Id>, log: seq<Run>,
                   id: Id)
    requires JustOk(births, freed, cancelled, canceling, log)
    requires id.sequence in births && births[id.sequence].timer == id.timer
    ensures JustOk(births, freed + {id.sequence}, cancelled + {id}, canceling, log)
  {
  }

  lemma FreeFirst(heap: map<Addr, Timer>, births: map<int, Birth>, log: seq<Run>, a: Addr)
    requires FirstOk(heap, births, log)
    ensures FirstOk(heap - {a}, births, log)
  {
  }

  lemma CancelActive(s: State, id: Id)
    requires Inv(s) && id in s.active && (s.phase.Idle? || s.phase.Calling?)
    ensures Inv(CancelTimer(s, id))
  {
    hide LogOk, FirstOk, OrderOk, RanOk, FdOk;
    SameSize(s.heap, s.timers, s.active);
    CancelSplit(s, id);
    RemoveIndex(s.heap, s.timers, s.active, id);
    RemoveRan(s.heap, s.timers, s.active, s.batch, s.mail, s.held, Called(s.batch, s.phase), s.log, id);
    RemoveOwn(s.heap, s.timers, s.active, s.batch, s.mail, s.held, id);
    FreeSeq(s.heap, s.births, s.freed, s.created, id.timer);
    CancelJust(s.births, s.freed, s.cancelled, s.canceling, s.log, id);
    FreeLog(s.heap, s.births, s.batch, s.phase, s.now, s.log, id.timer);
    FreeFirst(s.heap, s.births, s.log, id.timer);
    EraseFd(s.fd, s.timers, s.phase, s.now, Entry(s.heap[id.timer].expiration, id.timer));
  }

  lemma CancelKeeps(s: State, id: Id)
    requires Inv(s) && (s.phase.Idle? || s.phase.Calling?)
    ensures Inv(CancelTimer(s, id))
  {
    if id in s.active {
      CancelActive(s, id);
    } else {
      SameSize(s.heap, s.timers, s.active);
    }
  }

  // ----- taking out what has expired -----

  lemma TakeIndex(s: State, end: nat)
    requires IndexOk(s.heap, s.timers, s.active) && end <= |s.timers|
    ensures IndexOk(s.heap, s.timers[end..], s.active - IdsIn(s.heap, s.timers[..end]))
  {
    var expired := s.timers[..end];
    var rest := s.timers[end..];
    var ids := IdsIn(s.heap, expired);
    assert s.timers == expired + rest;
    forall e | e in rest
      ensures e.timer in s.heap && s.heap[e.timer].expiration == e.when
              && Id(e.timer, s.heap[e.timer].sequence) in s.active - ids
    {
      assert e in s.timers;
      forall x | x in expired
        ensures x.timer != e.timer
      {
        assert x in s.timers;
      }
    }
    forall id | id in s.active - ids
      ensures Entry(s.heap[id.timer].expiration, id.timer) in rest
    {
      var e := Entry(s.heap[id.timer].expiration, id.timer);
      assert e in s.timers;
      assert e in expired ==> IdOf(s, e.timer) in ids;
    }
  }

  /** The ids of the expired timers are those of the timers in the batch. */
  lemma TakenIds(heap: map<Addr, Timer>, expired: seq<Entry>, a: Addr)
    requires forall e | e in expired :: e.timer in heap && heap[e.timer].expiration == e.when
    requires a in heap
    ensures Id(a, heap[a].sequence) in IdsIn(heap, expired) ==> Flying(heap, expired, a)
    ensures Flying(heap, expired, a) ==> Id(a, heap[a].sequence) in IdsIn(heap, expired)
  {
    var e := Entry(heap[a].expiration, a);
    assert e in expired ==> e.timer in heap;
  }

  lemma TakeOwn(s: State, end: nat)
    requires IndexOk(s.heap, s.timers, s.active) && OwnOk(s.heap, s.active, [], s.mail, s.held) && end <= |s.timers|
    ensures OwnOk(s.heap, s.active - IdsIn(s.heap, s.timers[..end]), s.timers[..end], s.mail, s.held)
  {
    var expired := s.timers[..end];
    var ids := IdsIn(s.heap, expired);
    assert forall e | e in expired :: e in s.timers;
    forall a | a in s.heap
      ensures Active(s.heap, s.active - ids, a) == (Active(s.heap, s.active, a) && !Flying(s.heap, expired, a))
      ensures Flying(s.heap, expired, a) ==> Active(s.heap, s.active, a)
    {
      TakenIds(s.heap, expired, a);
    }
  }

  /** Taking out the expired timers raises no fault: the sentinel finds the place. */
  lemma TakeClean(s: State, now: int)
    requires !s.fault && IndexOk(s.heap, s.timers, s.active) && SeqOk(s.heap, s.births, s.freed, s.created)
    ensures !TakeExpired(s, now).fault
    ensures forall e | e in TakeExpired(s, now).batch :: e.when <= now
    ensures forall e | e in TakeExpired(s, now).timers :: e.when > now
  {
    SameSize(s.heap, s.timers, s.active);
    SentinelSplit(s.timers, now);
    var t := TakeExpired(s, now);
    assert forall e | e in t.batch :: e in s.timers;
  }

  lemma TakeOrder(expired: seq<Entry>, now: int, s: State)
    requires OrderOk(s.batch, s.phase, s.now, s.log, s.round)
    requires forall i | 0 <= i < |expired| :: expired[i].when <= now
    ensures OrderOk(expired, Calling(0), now, s.log, s.round + 1)
  {
  }

  lemma TakeLog(s: State, expired: seq<Entry>, now: int)
    requires LogOk(s.heap, s.births, s.batch, s.phase, s.now, s.log) && s.phase.Idle?
    ensures LogOk(s.heap, s.births, expired, Calling(0), now, s.log)
  {
    forall i | 0 <= i < |s.log|
      ensures Settled(s.heap, s.births, Called(expired, Calling(0)), now, s.log, i)
    {
      assert Settled(s.heap, s.births, Called(s.batch, s.phase), s.now, s.log, i);
    }
  }

  lemma BeginKeeps(s: State, now: int)
    requires Inv(s) && Enabled(s, Begin(now))
    ensures Inv(TakeExpired(s, now))
  {
    hide OwnOk, SeqOk, LogOk, FirstOk, OrderOk;
    var t := TakeExpired(s, now);
    TakeClean(s, now);
    TakeIndex(s, |t.batch|);
    TakeOwn(s, |t.batch|);
    TakeOrder(t.batch, now, s);
    TakeLog(s, t.batch, now);
  }

  // ----- running callbacks -----

  lemma CallLog(heap: map<Addr, Timer>, births: map<int, Birth>, freed: set<int>, created: int, batch: seq<Entry>,
                next: nat, now: int, 
                log: seq<Run>, run: Run)
    requires next < |batch| && batch[next].timer in heap && batch[next].when == heap[batch[next].timer].expiration
    requires Sorted(batch) && SeqOk(heap, births, freed, created)
    requires LogOk(heap, births, batch, Calling(next), now, log)
    requires run.sequence == heap[batch[next].timer].sequence && run.now == now && run.expiration == batch[next].when
    ensures LogOk(heap, births, batch, Calling(next + 1), now, log + [run])
  {
    var a := batch[next].timer;
    var log' := log + [run];
    assert batch[..next + 1] == batch[..next] + [batch[next]];
    assert batch[next] !in batch[..next];
    forall i | 0 <= i < |log|
      ensures Settled(heap, births, batch[..next + 1], now, log', i)
      ensures log[i].sequence == run.sequence ==>
                && births[run.sequence].interval > 0.0
                && run.expiration >= log[i].now + Micros(births[run.sequence].interval)
                && (NoRun(log', run.sequence, i, |log|) ==>
                      run.expiration == log[i].now + Micros(births[run.sequence].interval))
    {
      assert Settled(heap, births, Called(batch, Calling(next)), now, log, i);
      assert NoRun(log', log[i].sequence, i, |log'|) ==> log'[|log|].sequence != log[i].sequence;
      assert NoRun(log', log[i].sequence, i, |log|) ==> NoRun(log, log[i].sequence, i, |log|) by {
        assert forall k | 0 <= k < |log| :: log'[k] == log[k];
      }
    }
    assert Settled(heap, births, batch[..next + 1], now, log', |log|);
    CallSpaced(births, log, run);
  }

  lemma CallSpaced(births: map<int, Birth>, log: seq<Run>, run: Run)
    requires Spaced(births, log) && run.sequence in births
    requires forall i | 0 <= i < |log| && log[i].sequence == run.sequence ::
               && births[run.sequence].interval > 0.0
               && run.expiration >= log[i].now + Micros(births[run.sequence].interval)
               && (NoRun(log + [run], run.sequence, i, |log|) ==>
                     run.expiration == log[i].now + Micros(births[run.sequence].interval))
    ensures Spaced(births, log + [run])
  {
    var log' := log + [run];
    forall i, j | 0 <= i < j < |log'| && log'[i].sequence == log'[j].sequence && log'[i].sequence in births
      ensures births[log'[i].sequence].interval > 0.0
      ensures log'[j].expiration >= log'[i].now + Micros(births[log'[i].sequence].interval)
      ensures NoRun(log', log'[i].sequence, i, j) ==>
              log'[j].expiration == log'[i].now + Micros(births[log'[i].sequence].interval)
    {
      if j < |log| {
        assert log'[i] == log[i] && log'[j] == log[j];
        assert NoRun(log', log[i].sequence, i, j) ==> NoRun(log, log[i].sequence, i, j) by {
          assert forall k | 0 <= k < |log| :: log'[k] == log[k];
        }
      }
    }
  }

  lemma CallFirst(heap: map<Addr, Timer>, births: map<int, Birth>, a: Addr, log: seq<Run>, run: Run)
    requires FirstOk(heap, births, log) && a in heap
    requires run.sequence == heap[a].sequence && run.expiration == heap[a].expiration
    ensures FirstOk(heap, births, log + [run])
  {
    var log' := log + [run];
    forall q: int, to: int | to <= |log| && NoRun(log', q, -1, to)
      ensures NoRun(log, q, -1, to)
    {
      assert forall k | 0 <= k < |log| :: log'[k] == log[k];
    }
    forall q: int | NoRun(log', q, -1, |log'|)
      ensures NoRun(log, q, -1, |log|)
    {
      assert forall k | 0 <= k < |log| :: log'[k] == log[k];
    }
    forall i | 0 <= i < |log'| && log'[i].sequence in births && NoRun(log', log'[i].sequence, -1, i)
      ensures log'[i].expiration == births[log'[i].sequence].when
    {
      assert NoRun(log, log'[i].sequence, -1, i);
      if i == |log| {
        assert NoRun(log, heap[a].sequence, -1, |log|);
      }
    }
  }

  lemma CallOrder(batch: seq<Entry>, next: nat, now: int, log: seq<Run>, round: nat, run: Run)
    requires next < |batch| && Sorted(batch) && OrderOk(batch, Calling(next), now, log, round)
    requires run.expiration == batch[next].when && run.now == now && run.round == round
    ensures OrderOk(batch, Calling(next + 1), now, log + [run], round)
  {
  }

  lemma CallJust(births: map<int, Birth>, freed: set<int>, cancelled: set<Id>, canceling: set<Id>, log: seq<Run>,
                 run: Run)
    requires JustOk(births, freed, cancelled, canceling, log)
    ensures JustOk(births, freed, cancelled, canceling, log + [run])
  {
    forall q | q in freed && q in births
      ensures Runs(log + [run], q) >= Runs(log, q)
    {
      RunsSnoc(log, run, q);
    }
  }

  lemma CallRan(heap: map<Addr, Timer>, batch: seq<Entry>, next: nat, log: seq<Run>, run: Run)
    requires next < |batch| && batch[next].timer in heap && run.sequence == heap[batch[next].timer].sequence
    requires RanOk(heap, batch[..next], log)
    ensures RanOk(heap, batch[..next + 1], log + [run])
  {
    forall e | e in batch[..next + 1]
      ensures e.timer in heap && Runs(log + [run], heap[e.timer].sequence) > 0
    {
      assert batch[..next + 1] == batch[..next] + [batch[next]];
      RunsSnoc(log, run, heap[e.timer].sequence);
    }
  }

  lemma CallKeeps(s: State)
    requires Inv(s) && Enabled(s, Call)
    ensures Inv(RunNext(s))
  {
    var e := s.batch[s.phase.next];
    assert e in s.batch;
    var run := Run(s.heap[e.timer].sequence, s.heap[e.timer].expiration, s.now, s.round);
    CallLog(s.heap, s.births, s.freed, s.created, s.batch, s.phase.next, s.now, s.log, run);
    CallFirst(s.heap, s.births, e.timer, s.log, run);
    CallRan(s.heap, s.batch, s.phase.next, s.log, run);
    CallOrder(s.batch, s.phase.next, s.now, s.log, s.round, run);
    CallJust(s.births, s.freed, s.cancelled, s.canceling, s.log, run);
  }

  lemma EndCallsKeeps(s: State)
    requires Inv(s) && Enabled(s, EndCalls)
    ensures Inv(Step(s, EndCalls))
  {
    assert s.batch[..s.phase.next] == s.batch;
  }

  // ----- reset -----

  /** Popping the front of the batch, when its timer is freed. */
  lemma FreeOwn(heap: map<Addr, Timer>, active: set<Id>, batch: seq<Entry>, mail: seq<Functor>, held: set<Addr>)
    requires OwnOk(heap, active, batch, mail, held) && batch != []
    ensures batch[0].timer in heap && OwnOk(heap - {batch[0].timer}, active, batch[1..], mail, held)
  {
    var a := batch[0].timer;
    assert batch[0] in batch;
    assert Flying(heap, batch, a);
    assert batch == [batch[0]] + batch[1..];
    forall e | e in batch[1..]
      ensures e in batch && e.timer != a
    {
    }
    forall b | b in heap - {a}
      ensures Active(heap - {a}, active, b) == Active(heap, active, b)
      ensures Flying(heap - {a}, batch[1..], b) == Flying(heap, batch, b)
    {
    }
  }

  /** Popping the front of the batch, when its timer is inserted again. */
  lemma RestartOwn(heap: map<Addr, Timer>, active: set<Id>, batch: seq<Entry>, mail: seq<Functor>, held: set<Addr>,
                   expiration: int)
    requires OwnOk(heap, active, batch, mail, held) && batch != []
    ensures batch[0].timer in heap
    ensures var a := batch[0].timer;
            && OwnOk(heap[a := heap[a].(expiration := expiration)], active + {Id(a, heap[a].sequence)}, batch[1..],
               mail, held)
            && !Active(heap, active, a)
  {
    var a := batch[0].timer;
    assert batch[0] in batch;
    var t := heap[a].(expiration := expiration);
    var heap' := heap[a := t];
    var active' := active + {Id(a, heap[a].sequence)};
    assert Flying(heap, batch, a);
    assert batch == [batch[0]] + batch[1..];
    forall e | e in batch[1..]
      ensures e in batch && e.timer != a
    {
    }
    forall b | b in heap'
      ensures b != a ==> Active(heap', active', b) == Active(heap, active, b)
      ensures b != a ==> Flying(heap', batch[1..], b) == Flying(heap, batch, b)
      ensures Active(heap', active', a) && !Flying(heap', batch[1..], a)
    {
    }
  }

  /** A new expiration for a timer that is in neither index. */
  lemma RestartIndex(heap: map<Addr, Timer>, timers: seq<Entry>, active: set<Id>, a: Addr, expiration: int)
    requires IndexOk(heap, timers, active) && a in heap && !Active(heap, active, a)
    ensures IndexOk(heap[a := heap[a].(expiration := expiration)], timers, active)
  {
  }

  lemma RestartSeq(heap: map<Addr, Timer>, births: map<int, Birth>, freed: set<int>, created: int, a: Addr,
                   expiration: int)
    requires SeqOk(heap, births, freed, created) && a in heap
    ensures SeqOk(heap[a := heap[a].(expiration := expiration)], births, freed, created)
  {
  }

  lemma PopLog(heap: map<Addr, Timer>, births: map<int, Birth>, freed: set<int>, created: int, batch: seq<Entry>,
               now: int, log: seq<Run>, 
               t: Timer)
    requires batch != [] && batch[0].timer in heap && batch[0].when == heap[batch[0].timer].expiration <= now
    requires heap[batch[0].timer].repeat && t == Restarted(heap[batch[0].timer], now)
    requires SeqOk(heap, births, freed, created)
    requires LogOk(heap, births, batch, Resetting, now, log)
    ensures LogOk(heap[batch[0].timer := t], births, batch[1..], Resetting, now, log)
  {
    var a := batch[0].timer;
    var heap' := heap[a := t];
    assert batch == [batch[0]] + batch[1..];
    forall i | 0 <= i < |log|
      ensures Settled(heap', births, batch[1..], now, log, i)
    {
      assert Settled(heap, births, Called(batch, Resetting), now, log, i);
      MicrosOfInterval(heap[a].interval);
    }
  }

  lemma PopFreeLog(heap: map<Addr, Timer>, births: map<int, Birth>, batch: seq<Entry>, now: int, log: seq<Run>)
    requires batch != [] && batch[0].timer in heap
    requires LogOk(heap, births, batch, Resetting, now, log)
    ensures LogOk(heap - {batch[0].timer}, births, batch[1..], Resetting, now, log)
  {
    var heap' := heap - {batch[0].timer};
    assert batch == [batch[0]] + batch[1..];
    forall i | 0 <= i < |log|
      ensures Settled(heap', births, batch[1..], now, log, i)
    {
      assert Settled(heap, births, Called(batch, Resetting), now, log, i);
    }
  }

  lemma FreeRan(heap: map<Addr, Timer>, batch: seq<Entry>, log: seq<Run>)
    requires RanOk(heap, batch, log) && batch != [] && Sorted(batch)
    requires forall e | e in batch :: e.timer in heap && e.when == heap[e.timer].expiration
    ensures batch[0].timer in heap && Runs(log, heap[batch[0].timer].sequence) > 0
    ensures RanOk(heap - {batch[0].timer}, batch[1..], log)
  {
    assert batch[0] in batch;
    forall e | e in batch[1..]
      ensures e.timer in heap - {batch[0].timer} && Runs(log, heap[e.timer].sequence) > 0
    {
      assert e in batch;
    }
  }

  lemma RestartRan(heap: map<Addr, Timer>, batch: seq<Entry>, log: seq<Run>, expiration: int)
    requires RanOk(heap, batch, log) && batch != [] && batch[0].timer in heap
    ensures RanOk(heap[batch[0].timer := heap[batch[0].timer].(expiration := expiration)], batch[1..], log)
  {
  }

  /** A timer that has run may be given any expiration. */
  lemma RestartFirst(heap: map<Addr, Timer>, births: map<int, Birth>, log: seq<Run>, a: Addr, expiration: int)
    requires FirstOk(heap, births, log) && a in heap && Runs(log, heap[a].sequence) > 0
    ensures FirstOk(heap[a := heap[a].(expiration := expiration)], births, log)
  {
    RunsPositive(log, heap[a].sequence);
    assert !NoRun(log, heap[a].sequence, -1, |log|);
  }

  lemma FreeIndex(heap: map<Addr, Timer>, timers: seq<Entry>, active: set<Id>, a: Addr)
    requires IndexOk(heap, timers, active) && a in heap && !Active(heap, active, a)
    ensures IndexOk(heap - {a}, timers, active)
  {
  }

  lemma FreeJust(s: State, a: Addr)
    requires SeqOk(s.heap, s.births, s.freed, s.created) && a in s.heap
    requires JustOk(s.births, s.freed, s.cancelled, s.canceling, s.log)
    requires !s.heap[a].repeat || Id(a, s.heap[a].sequence) in s.canceling
    requires Runs(s.log, s.heap[a].sequence) > 0
    ensures JustOk(s.births, s.freed + {s.heap[a].sequence}, s.cancelled, s.canceling, s.log)
  {
  }

  lemma PopOrder(batch: seq<Entry>, now: int, log: seq<Run>, round: nat)
    requires batch != [] && OrderOk(batch, Resetting, now, log, round)
    ensures OrderOk(batch[1..], Resetting, now, log, round)
  {
  }

  lemma ResetFrees(s: State, reading: int)
    requires s.phase.Resetting? && s.batch != [] && Inv(s)
    requires !Deref(s, s.batch[0].timer).repeat || IdOf(s, s.batch[0].timer) in s.canceling
    ensures Inv(ResetOne(s, reading))
  {
    var a := s.batch[0].timer;
    assert s.batch[0] in s.batch;
    FreeRan(s.heap, s.batch, s.log);
    FreeOwn(s.heap, s.active, s.batch, s.mail, s.held);
    assert Flying(s.heap, s.batch, a);
    FreeIndex(s.heap, s.timers, s.active, a);
    FreeSeq(s.heap, s.births, s.freed, s.created, a);
    FreeJust(s, a);
    PopFreeLog(s.heap, s.births, s.batch, s.now, s.log);
    PopOrder(s.batch, s.now, s.log, s.round);
    assert ResetOne(s, reading) ==
      s.(batch := s.batch[1..], heap := s.heap - {a}, freed := s.freed + {s.heap[a].sequence});
  }

  lemma ResetRestarts(s: State, reading: int)
    requires s.phase.Resetting? && s.batch != [] && Inv(s)
    requires Deref(s, s.batch[0].timer).repeat && IdOf(s, s.batch[0].timer) !in s.canceling
    ensures Inv(ResetOne(s, reading))
  {
    var a := s.batch[0].timer;
    assert s.batch[0] in s.batch;
    var r := Restarted(s.heap[a], s.now);
    RestartOwn(s.heap, s.active, s.batch, s.mail, s.held, r.expiration);
    RestartRan(s.heap, s.batch, s.log, r.expiration);
    RestartFirst(s.heap, s.births, s.log, a, r.expiration);
    RestartIndex(s.heap, s.timers, s.active, a, r.expiration);
    RestartSeq(s.heap, s.births, s.freed, s.created, a, r.expiration);
    PopLog(s.heap, s.births, s.freed, s.created, s.batch, s.now, s.log, r);
    PopOrder(s.batch, s.now, s.log, s.round);
    var u := s.(batch := s.batch[1..], heap := s.heap[a := r]);
    InsertStep(u, a, reading);
    assert ResetOne(s, reading) == InsertTimer(u, a, reading);
  }

  lemma FinishKeeps(s: State, reading: int)
    requires Inv(s) && Enabled(s, Finish(reading))
    ensures Inv(Rearm(s, reading))
  {
    if s.timers != [] {
      assert s.timers[0] in s.timers;
      ArmedFor(s.timers[0].when, reading);
    }
    assert Called(s.batch, Idle) == Called(s.batch, s.phase);
  }

  // ----- the calls that create timers -----

  lemma AllocateKeeps(s: State, a: Addr, when: int, interval: real)
    requires Inv(s) && Allocatable(s, a)
    ensures Inv(Allocate(s, a, when, interval).(held := s.held + {a}))
    ensures var t := Allocate(s, a, when, interval);
            OwnOk(t.heap, t.active + {IdOf(t, a)}, t.batch, t.mail, t.held) && !Active(t.heap, t.active, a)
  {
    hide IndexOk, JustOk, RanOk, FirstOk, OrderOk, FdOk;
    var t := Timer(when, interval, interval > 0.0, s.created + 1);
    AllocateIndex(s.heap, s.timers, s.active, a, t);
    AllocateOwn(s.heap, s.timers, s.active, s.batch, s.mail, s.held, a, t);
    AllocateSeq(s.heap, s.births, s.freed, s.created, a, when, interval);
    AllocateJust(s.births, s.freed, s.created, s.cancelled, s.canceling, s.log, Birth(a, when, interval));
    AllocateRan(s.heap, Called(s.batch, s.phase), s.log, a, t);
    AllocateLog(s.heap, s.births, s.created, s.batch, s.phase, s.now, s.log, a, t);
    forall i | 0 <= i < |s.log|
      ensures s.log[i].sequence in s.births
    {
      assert Settled(s.heap, s.births, Called(s.batch, s.phase), s.now, s.log, i);
    }
    AllocateFirst(s.heap, s.births, s.log, s.created, a, t);
    assert Allocate(s, a, when, interval) ==
      s.(heap := s.heap[a := t], created := s.created + 1,
          births := s.births[s.created + 1 := Birth(a, when, interval)]);
  }

  lemma AddKeeps(s: State, a: Addr, when: int, interval: real, reading: int)
    requires Inv(s) && Allocatable(s, a)
    ensures Inv(AddTimer(s, a, when, interval, reading))
  {
    AllocateKeeps(s, a, when, interval);
    InsertStep(Allocate(s, a, when, interval), a, reading);
  }

  // ----- requests from other threads -----

  lemma PostOwn(heap: map<Addr, Timer>, active: set<Id>, batch: seq<Entry>, mail: seq<Functor>, held: set<Addr>,
                a: Addr)
    requires OwnOk(heap, active, batch, mail, held) && a in held
    ensures OwnOk(heap, active, batch, mail + [InsertOf(a)], held - {a})
  {
    assert a in heap && !Posted(mail, a);
    forall b: Addr
      ensures Posted(mail + [InsertOf(a)], b) == (Posted(mail, b) || b == a)
    {
    }
  }

  lemma RequestOwn(heap: map<Addr, Timer>, active: set<Id>, batch: seq<Entry>, mail: seq<Functor>, held: set<Addr>,
                   id: Id)
    requires OwnOk(heap, active, batch, mail, held)
    ensures OwnOk(heap, active, batch, mail + [CancelOf(id)], held)
  {
    forall b: Addr
      ensures Posted(mail + [CancelOf(id)], b) == Posted(mail, b)
    {
    }
  }

  lemma DispatchOwn(heap: map<Addr, Timer>, active: set<Id>, batch: seq<Entry>, mail: seq<Functor>, held: set<Addr>)
    requires OwnOk(heap, active, batch, mail, held) && mail != []
    ensures mail[0].CancelOf? ==> OwnOk(heap, active, batch, mail[1..], held)
    ensures mail[0].InsertOf? ==>
              && mail[0].timer in heap && !Active(heap, active, mail[0].timer)
              && OwnOk(heap, active + {Id(mail[0].timer, heap[mail[0].timer].sequence)}, batch, mail[1..], held)
  {
    assert mail == [mail[0]] + mail[1..];
    if mail[0].InsertOf? {
      var a := mail[0].timer;
      assert Posted(mail, a);
      forall b: Addr
        ensures Posted(mail[1..], b) == (Posted(mail, b) && b != a)
      {
      }
    } else {
      forall b: Addr
        ensures Posted(mail[1..], b) == Posted(mail, b)
      {
      }
    }
  }

  lemma DispatchKeeps(s: State, reading: int)
    requires Inv(s) && Enabled(s, Dispatch(reading))
    ensures Inv(RunFunctor(s, reading))
  {
    var u := s.(mail := s.mail[1..]);
    DispatchOwn(s.heap, s.active, s.batch, s.mail, s.held);
    match s.mail[0]
    case InsertOf(a) => InsertStep(u, a, reading);
    case CancelOf(id) => CancelKeeps(u, id);
  }

  // ----- every step -----

  lemma StepKeeps(s: State, a: Action)
    requires Inv(s) && Enabled(s, a)
    ensures Inv(Step(s, a))
  {
    match a
    case Add(timer, when, interval, reading) => AddKeeps(s, timer, when, interval, reading);
    case Cancel(id) => CancelKeeps(s, id);
    case RemoteNew(timer, when, interval) => AllocateKeeps(s, timer, when, interval);
    case RemotePost(timer) => PostOwn(s.heap, s.active, s.batch, s.mail, s.held, timer);
    case RemoteReturn(_) =>
    case RemoteCancel(id) => RequestOwn(s.heap, s.active, s.batch, s.mail, s.held, id);
    case Fire =>
    case Begin(now) => BeginKeeps(s, now);
    case Call => CallKeeps(s);
    case EndCalls => EndCallsKeeps(s);
    case Reset(reading) =>
      if Deref(s, s.batch[0].timer).repeat && IdOf(s, s.batch[0].timer) !in s.canceling {
        ResetRestarts(s, reading);
      } else {
        ResetFrees(s, reading);
      }
    case Finish(reading) => FinishKeeps(s, reading);
    case Dispatch(reading) => DispatchKeeps(s, reading);
  }

  lemma StepKeepsFreed(s: State, a: Action)
    requires Sorted(s.timers) && Enabled(s, a)
    ensures s.freed <= Step(s, a).freed
  {
    if a.Dispatch? {
      match s.mail[0]
      case InsertOf(_) =>
      case CancelOf(_) =>
    }
  }

  /** A step creates at most one timer, whose sequence is new. */
  lemma StepKeepsBirths(s: State, a: Action)
    requires Sorted(s.timers) && Enabled(s, a)
    ensures var t := Step(s, a);
            || t.births == s.births
            || (s.created + 1 in t.births && t.births == s.births[s.created + 1 := t.births[s.created + 1]])
  {
    match a
    case Add(timer, when, interval, reading) =>
      assert Step(s, a).births == s.births[s.created + 1 := Birth(timer, when, interval)];
    case RemoteNew(timer, when, interval) =>
      assert Step(s, a).births == s.births[s.created + 1 := Birth(timer, when, interval)];
    case _ =>
  }

  lemma {:induction false} RunKeeps(s: State, actions: seq<Action>)
    requires Inv(s)
    ensures Inv(After(s, actions))
    decreases |actions|
  {
    if actions != [] {
      if Enabled(s, actions[0]) {
        StepKeeps(s, actions[0]);
        RunKeeps(Step(s, actions[0]), actions[1..]);
      } else {
        RunKeeps(s, actions[1..]);
      }
    }
  }
}
