/** What the timer scheduler promises, over every run of its machine: any number of
    steps of the loop thread, its callbacks, other threads and the kernel timer, in
    any order, with freed addresses handed out again. */
module TimerTheorems {
  import opened Timestamps
  import opened TimerQueue
  import opened Options
  import opened TimerModel
  import opened TimerInvariants
  import opened TimerSteps
  import opened TimerReturns

  // ----- the indexes, and the source's own assertions -----

  /** No assertion of the source fails, no timer is freed twice, and the two indexes hold
      the same timers.  No freed timer is read, but for one case, which is recorded: the
      thread that posted a timer reads it after it was freed. */
  lemma IndexesAgree(actions: seq<Action>)
    ensures var s := After(INITIAL, actions);
            && !s.fault
            && Sorted(s.timers)
            && |s.timers| == |s.active|
            && (forall when: int, a: Addr :: Entry(when, a) in s.timers <==>
                  a in s.heap && s.heap[a].expiration == when && Id(a, s.heap[a].sequence) in s.active)
            && (forall id | id in s.active :: id.timer in s.heap && s.heap[id.timer].sequence == id.sequence)
            && (forall id | id in s.returning :: ReadsOwn(s, id) <==> id.sequence !in s.freed)
  {
    InitialInv();
    RunKeeps(INITIAL, actions);
    var s := After(INITIAL, actions);
    SameSize(s.heap, s.timers, s.active);
    forall when: int, a: Addr
      ensures Entry(when, a) in s.timers <==>
                a in s.heap && s.heap[a].expiration == when && Id(a, s.heap[a].sequence) in s.active
    {
    }
    forall id | id in s.returning
      ensures ReadsOwn(s, id) <==> id.sequence !in s.freed
    {
      ReadSafeIff(actions, id);
    }
  }

  // ----- conservation -----

  lemma {:induction false} SizeOfRange(keys: set<int>, n: int)
    requires n >= 0 && forall q :: q in keys <==> 1 <= q <= n
    ensures |keys| == n
    decreases n
  {
    if n == 0 {
      forall q
        ensures q !in keys
      {
      }
      assert keys == {};
    } else {
      SizeOfRange(keys - {n}, n - 1);
    }
  }

  function LiveSequences(heap: map<Addr, Timer>): set<int> {
    set a | a in heap :: heap[a].sequence
  }

  lemma {:induction false} SizeOfLive(heap: map<Addr, Timer>)
    requires forall a, b | a in heap && b in heap :: heap[a].sequence == heap[b].sequence ==> a == b
    ensures |LiveSequences(heap)| == |heap|
    decreases |heap|
  {
    if heap != map[] {
      var a :| a in heap;
      var rest := heap - {a};
      forall q | q in LiveSequences(heap)
        ensures q in LiveSequences(rest) + {heap[a].sequence}
      {
        var b :| b in heap && heap[b].sequence == q;
        assert b in rest || b == a;
      }
      assert LiveSequences(heap) == LiveSequences(rest) + {heap[a].sequence};
      assert heap[a].sequence !in LiveSequences(rest);
      SizeOfLive(rest);
      assert |rest| == |heap| - 1;
    }
  }

  lemma Balance(s: State)
    requires Inv(s)
    ensures s.created == |s.freed| + |s.heap|
  {
    hide LogOk, FirstOk, OrderOk, JustOk, RanOk, FdOk, OwnOk, IndexOk;
    SizeOfRange(s.births.Keys, s.created);
    var live := LiveSequences(s.heap);
    SizeOfLive(s.heap);
    forall q | q in s.births.Keys
      ensures q in s.freed || q in live
    {
      assert Live(s.heap, s.births, q) ==> s.heap[s.births[q].timer].sequence in live;
    }
    assert s.births.Keys == s.freed + live;
    assert s.freed * live == {};
  }

  /** Every timer ever created is freed or in exactly one place: held by the thread
      creating it, posted, in the indexes, or in the batch being handled. */
  lemma Conservation(actions: seq<Action>)
    ensures var s := After(INITIAL, actions);
            && (forall q :: q in s.births <==> 1 <= q <= s.created)
            && (forall q | q in s.births ::
                  if q in s.freed then !Live(s.heap, s.births, q)
                  else
                    && Live(s.heap, s.births, q)
                    && var a := s.births[q].timer;
                       ExactlyOne(Active(s.heap, s.active, a), Flying(s.heap, s.batch, a), Posted(s.mail, a),
                           a in s.held))
            && s.created == |s.freed| + |s.heap|
  {
    InitialInv();
    RunKeeps(INITIAL, actions);
    Balance(After(INITIAL, actions));
  }

  /** A freed timer stays freed: its sequence number never names memory again,
      whoever gets its address. */
  lemma {:induction false} FreedForGood(s: State, actions: seq<Action>, q: int)
    requires Inv(s) && q in s.freed
    ensures var t := After(s, actions);
            q in t.freed && forall a | a in t.heap :: t.heap[a].sequence != q
    decreases |actions|
  {
    if actions != [] {
      if Enabled(s, actions[0]) {
        StepKeeps(s, actions[0]);
        StepKeepsFreed(s, actions[0]);
        FreedForGood(Step(s, actions[0]), actions[1..], q);
      } else {
        FreedForGood(s, actions[1..], q);
      }
    }
  }

  // ----- cancellation -----

  /** id was returned by add_timer. */
  predicate Known(s: State, id: Id) {
    id.sequence in s.births && s.births[id.sequence].timer == id.timer
  }

  /** The insertion of the timer has been processed (or the timer is gone). */
  predicate Inserted(s: State, id: Id) {
    Known(s, id) && (Live(s.heap, s.births, id.sequence) ==> !Posted(s.mail, id.timer) && id.timer !in s.held)
  }

  /** A cancelled timer: gone, or in the batch being handled and to be freed with it. */
  ghost predicate Doomed(s: State, id: Id) {
    Known(s, id)
    && (Live(s.heap, s.births, id.sequence) ==> Flying(s.heap, s.batch, id.timer) && id in s.canceling)
  }

  /** The callback of the timer is still to be run in the batch being handled. */
  predicate Ahead(s: State, id: Id) {
    Known(s, id) && Live(s.heap, s.births, id.sequence)
    && s.phase.Calling? && s.phase.next <= |s.batch|
    && Entry(s.heap[id.timer].expiration, id.timer) in s.batch[s.phase.next..]
  }

  function RunsLeft(s: State, id: Id): nat {
    if Ahead(s, id) then 1 else 0
  }

  lemma CancelDooms(s: State, id: Id)
    requires Inv(s) && (s.phase.Idle? || s.phase.Calling?) && Inserted(s, id)
    ensures Doomed(CancelTimer(s, id), id)
  {
  }

  /** A new timer is not the doomed one, even at its address. */
  lemma DoomedAllocate(s: State, a: Addr, when: int, interval: real, id: Id)
    requires Inv(s) && Allocatable(s, a) && Doomed(s, id)
    ensures var t := Allocate(s, a, when, interval);
            && Doomed(t, id) && RunsLeft(t, id) == RunsLeft(s, id)
               && Live(t.heap, t.births, id.sequence) == Live(s.heap, s.births, id.sequence)
  {
    assert id.sequence != s.created + 1;
  }

  lemma DoomedCancel(s: State, x: Id, id: Id)
    requires Sorted(s.timers) && Doomed(s, id)
    requires x in s.active && Live(s.heap, s.births, id.sequence) ==> x.timer != id.timer
    ensures var t := CancelTimer(s, x); Doomed(t, id) && RunsLeft(t, id) == RunsLeft(s, id)
  {
  }

  /** A doomed timer is not active, so no other id's cancel can free it. */
  lemma DoomedNotActive(s: State, x: Id, id: Id)
    requires IndexOk(s.heap, s.timers, s.active) && OwnOk(s.heap, s.active, s.batch, s.mail, s.held) && Doomed(s, id)
    ensures x in s.active && Live(s.heap, s.births, id.sequence) ==> x.timer != id.timer
  {
    if x in s.active && Live(s.heap, s.births, id.sequence) {
      assert Active(s.heap, s.active, x.timer);
      assert Flying(s.heap, s.batch, id.timer);
    }
  }

  lemma DoomedBegin(s: State, now: int, id: Id)
    requires Inv(s) && Enabled(s, Begin(now)) && Doomed(s, id)
    ensures var t := TakeExpired(s, now); Doomed(t, id) && RunsLeft(t, id) == RunsLeft(s, id) == 0
  {
  }

  lemma DoomedCall(s: State, id: Id)
    requires Inv(s) && Enabled(s, Call) && Doomed(s, id)
    ensures var t := RunNext(s);
            && Doomed(t, id) && (Ahead(t, id) ==> Ahead(s, id))
            && t.log == s.log + [t.log[|s.log|]] && t.log[|s.log|].round == s.round
            && (t.log[|s.log|].sequence == id.sequence <==> Ahead(s, id) && !Ahead(t, id))
  {
    hide LogOk, FirstOk, OrderOk, JustOk, RanOk, FdOk;
    var n := s.phase.next;
    var e := s.batch[n];
    assert e in s.batch;
    assert s.batch[n..] == [e] + s.batch[n + 1..];
    assert e !in s.batch[n + 1..];
    if Live(s.heap, s.births, id.sequence) {
      assert e.timer == id.timer ==> e == Entry(s.heap[id.timer].expiration, id.timer);
    }
  }

  lemma ResetHeap(s: State, reading: int)
    requires Sorted(s.timers) && s.batch != [] && s.batch[0].timer in s.heap
    ensures var a := s.batch[0].timer;
            ResetOne(s, reading).heap ==
            if s.heap[a].repeat && Id(a, s.heap[a].sequence) !in s.canceling then s.heap[a := Restarted(s.heap[a],
                s.now)]
            else s.heap - {a}
  {
  }

  lemma DoomedReset(s: State, reading: int, id: Id)
    requires Sorted(s.timers) && s.phase.Resetting? && s.batch != [] && s.batch[0].timer in s.heap && Doomed(s, id)
    requires s.batch[0].when == s.heap[s.batch[0].timer].expiration
    ensures Doomed(ResetOne(s, reading), id) && RunsLeft(ResetOne(s, reading), id) == RunsLeft(s, id)
  {
    var t := ResetOne(s, reading);
    assert s.batch == [s.batch[0]] + s.batch[1..];
    ResetHeap(s, reading);
    assert Live(t.heap, t.births, id.sequence) ==> Live(s.heap, s.births, id.sequence) && id.timer != s.batch[0].timer;
  }

  /** Every step but a callback leaves the log and the runs left alone. */
  lemma DoomedStep(s: State, a: Action, id: Id)
    requires Inv(s) && Enabled(s, a) && Doomed(s, id) && !a.Call?
    ensures var t := Step(s, a);
            && Doomed(t, id)
            && t.log == s.log && RunsLeft(t, id) == RunsLeft(s, id)
            && (Ahead(t, id) ==> t.round == s.round)
  {
    hide LogOk, FirstOk, OrderOk, JustOk, RanOk, FdOk, SeqOk;
    match a
    case Add(timer, when, interval, reading) => DoomedAllocate(s, timer, when, interval, id);
    case Cancel(x) =>
      DoomedNotActive(s, x, id);
      DoomedCancel(s, x, id);
    case RemoteNew(timer, when, interval) => DoomedAllocate(s, timer, when, interval, id);
    case RemotePost(timer) =>
    case RemoteReturn(_) =>
    case RemoteCancel(x) =>
    case Fire =>
    case Begin(now) => DoomedBegin(s, now, id);
    case EndCalls =>
    case Reset(reading) =>
      assert s.batch[0] in s.batch;
      DoomedReset(s, reading, id);
    case Finish(reading) =>
    case Dispatch(reading) =>
      if s.mail[0].CancelOf? {
        DoomedNotActive(s, s.mail[0].id, id);
        DoomedCancel(s.(mail := s.mail[1..]), s.mail[0].id, id);
      }
  }

  /** What one step does to a doomed timer's runs. */
  ghost predicate RunsAccounted(s: State, t: State, id: Id) {
    && s.log <= t.log
    && Runs(s.log, id.sequence) <= Runs(t.log, id.sequence)
    && Runs(t.log, id.sequence) + RunsLeft(t, id) == Runs(s.log, id.sequence) + RunsLeft(s, id)
    && (forall i | |s.log| <= i < |t.log| && t.log[i].sequence == id.sequence :: Ahead(s, id)
          && t.log[i].round == s.round)
  }

  lemma DoomedAny(s: State, a: Action, id: Id)
    requires Inv(s) && Enabled(s, a) && Doomed(s, id)
    ensures Doomed(Step(s, a), id) && RunsAccounted(s, Step(s, a), id)
    ensures Ahead(Step(s, a), id) ==> Ahead(s, id) && Step(s, a).round == s.round
  {
    if a.Call? {
      DoomedCall(s, id);
      RunsSnoc(s.log, Step(s, a).log[|s.log|], id.sequence);
    } else {
      DoomedStep(s, a, id);
    }
  }

  lemma AccountedTwice(s: State, t: State, u: State, id: Id)
    requires RunsAccounted(s, t, id) && RunsAccounted(t, u, id)
    requires Ahead(t, id) ==> Ahead(s, id) && t.round == s.round
    ensures RunsAccounted(s, u, id)
  {
    forall i | |s.log| <= i < |u.log| && u.log[i].sequence == id.sequence
      ensures Ahead(s, id) && u.log[i].round == s.round
    {
      if i < |t.log| {
        assert u.log[i] == t.log[i];
      }
    }
  }

  /** From a doomed timer's state on, its callback runs exactly as often as it is still
      ahead in the batch being handled, and in that batch. */
  lemma {:induction false} DoomedRun(s: State, actions: seq<Action>, id: Id)
    requires Inv(s) && Doomed(s, id)
    ensures Doomed(After(s, actions), id) && RunsAccounted(s, After(s, actions), id)
    decreases |actions|
  {
    if actions != [] {
      if Enabled(s, actions[0]) {
        var t := Step(s, actions[0]);
        StepKeeps(s, actions[0]);
        DoomedAny(s, actions[0], id);
        DoomedRun(t, actions[1..], id);
        AccountedTwice(s, t, After(t, actions[1..]), id);
      } else {
        DoomedRun(s, actions[1..], id);
      }
    }
  }

  /** t is a state in which the cancel of id has just been processed, in state s. */
  ghost predicate CancelHolds(s: State, t: State, id: Id, later: seq<Action>)
    requires Sorted(t.timers)
  {
    var u := After(t, later);
    && Runs(s.log, id.sequence) <= Runs(u.log, id.sequence)
    && Runs(u.log, id.sequence) + RunsLeft(u, id) == Runs(s.log, id.sequence) + RunsLeft(s, id)
    && (forall i | |s.log| <= i < |u.log| && u.log[i].sequence == id.sequence :: u.log[i].round == s.round)
    && (u.phase.Idle? ==> id.sequence in u.freed && RunsLeft(u, id) == 0)
  }

  lemma CancelledFrom(s: State, id: Id, later: seq<Action>)
    requires Inv(s) && LoopThreadMayCall(s) && Inserted(s, id)
    ensures CancelHolds(s, CancelTimer(s, id), id, later)
  {
    var t := CancelTimer(s, id);
    CancelKeeps(s, id);
    CancelDooms(s, id);
    CancelAhead(s, id);
    DoomedRun(t, later, id);
    RunKeeps(t, later);
  }

  /** State t is state s with the cancel noted, and nothing else changed. */
  ghost predicate OnlyNoted(s: State, t: State, id: Id) {
    && t == s.(cancelled := s.cancelled + {id}, canceling := t.canceling)
    && t.canceling == if s.calling then s.canceling + {id} else s.canceling
  }

  /** A cancel that comes before the timer is inserted changes nothing: the timer goes on. */
  lemma CancelTooEarly(s: State, id: Id)
    requires Inv(s) && !Inserted(s, id)
    ensures OnlyNoted(s, CancelTimer(s, id), id)
  {
    SameSize(s.heap, s.timers, s.active);
    assert id in s.active ==> Active(s.heap, s.active, id.timer);
  }

  /** A cancel dooms the timer exactly if the timer's insertion has been processed. */
  lemma CancelDoomsIff(s: State, id: Id)
    requires Inv(s) && (s.phase.Idle? || s.phase.Calling?) && Known(s, id)
    ensures Doomed(CancelTimer(s, id), id) <==> Inserted(s, id)
  {
    if Inserted(s, id) {
      CancelDooms(s, id);
    } else {
      CancelTooEarly(s, id);
      assert ExactlyOne(Active(s.heap, s.active, id.timer), Flying(s.heap, s.batch, id.timer), Posted(s.mail, id.timer),
                        id.timer in s.held);
    }
  }

  /** What a cancel that leads from state s to state t comes to. */
  ghost predicate CancelOutcome(s: State, t: State, id: Id, later: seq<Action>)
    requires Sorted(t.timers)
  {
    && (Inserted(s, id) ==> CancelHolds(s, t, id, later))
    && (!Inserted(s, id) ==> OnlyNoted(s, t, id))
    && (Known(s, id) ==> (Doomed(t, id) <==> Inserted(s, id)))
  }

  lemma CancelComesTo(s: State, id: Id, later: seq<Action>)
    requires Inv(s) && LoopThreadMayCall(s)
    ensures CancelOutcome(s, CancelTimer(s, id), id, later)
  {
    if Inserted(s, id) {
      CancelledFrom(s, id, later);
    } else {
      CancelTooEarly(s, id);
    }
    if Known(s, id) {
      CancelDoomsIff(s, id);
    }
  }

  /** Once a cancel is processed for a timer whose insertion has been, the timer's
      callback runs once more if it is ahead in the batch being handled and not at all
      otherwise, whatever happens next; when that batch is done, the timer is freed.  A
      cancel that is processed before the insertion has no effect; so the insertion is
      exactly what it takes. */
  lemma Cancellation(before: seq<Action>, id: Id, later: seq<Action>)
    requires LoopThreadMayCall(After(INITIAL, before))
    ensures var s := After(INITIAL, before); CancelOutcome(s, CancelTimer(s, id), id, later)
  {
    InitialInv();
    RunKeeps(INITIAL, before);
    CancelComesTo(After(INITIAL, before), id, later);
  }

  /** The same for a cancel from another thread, when it is taken from the queue of
      requests: if the timer has been inserted, it does not run again at all. */
  lemma RemoteCancellation(before: seq<Action>, id: Id, reading: int, later: seq<Action>)
    requires var s := After(INITIAL, before);
             Enabled(s, Dispatch(reading)) && s.mail[0] == CancelOf(id)
    ensures var s := After(INITIAL, before);
            && CancelOutcome(s.(mail := s.mail[1..]), Step(s, Dispatch(reading)), id, later)
            && (Inserted(s.(mail := s.mail[1..]), id) <==> Inserted(s, id)) && RunsLeft(s, id) == 0
  {
    InitialInv();
    RunKeeps(INITIAL, before);
    TakenOut(After(INITIAL, before), id, later);
  }

  lemma TakenOut(s: State, id: Id, later: seq<Action>)
    requires Inv(s) && s.phase.Idle? && s.mail != [] && s.mail[0] == CancelOf(id)
    ensures var u := s.(mail := s.mail[1..]);
            CancelOutcome(u, CancelTimer(u, id), id, later) && (Inserted(u, id) <==> Inserted(s, id))
  {
    var u := s.(mail := s.mail[1..]);
    DispatchOwn(s.heap, s.active, s.batch, s.mail, s.held);
    assert s.mail == [s.mail[0]] + u.mail;
    assert Posted(s.mail, id.timer) <==> Posted(u.mail, id.timer);
    CancelComesTo(u, id, later);
  }

  lemma CancelAhead(s: State, id: Id)
    requires Inv(s) && (s.phase.Idle? || s.phase.Calling?) && Inserted(s, id)
    ensures Ahead(CancelTimer(s, id), id) == Ahead(s, id)
  {
    if id in s.active && Ahead(s, id) {
      assert Active(s.heap, s.active, id.timer);
      assert Entry(s.heap[id.timer].expiration, id.timer) in s.batch;
      assert Flying(s.heap, s.batch, id.timer);
    }
  }

  /** State t differs from state s in nothing that concerns a timer other than id's. */
  ghost predicate OthersSame(s: State, t: State, id: Id) {
    && (forall a | a in s.heap && Id(a, s.heap[a].sequence) != id ::
          && a in t.heap && t.heap[a] == s.heap[a]
          && Active(t.heap, t.active, a) == Active(s.heap, s.active, a)
          && (Entry(s.heap[a].expiration, a) in t.timers <==> Entry(s.heap[a].expiration, a) in s.timers))
    && t.canceling - {id} == s.canceling - {id}
    && t == s.(heap := t.heap, timers := t.timers, active := t.active, canceling := t.canceling,
               freed := t.freed, cancelled := t.cancelled)
  }

  lemma CancelOnly(s: State, id: Id)
    requires IndexOk(s.heap, s.timers, s.active) && |s.timers| == |s.active|
    ensures OthersSame(s, CancelTimer(s, id), id)
  {
  }

  /** cancel_timer touches no other timer, even one that has the same address. */
  lemma OthersUntouched(actions: seq<Action>, id: Id)
    ensures OthersSame(After(INITIAL, actions), CancelTimer(After(INITIAL, actions), id), id)
  {
    InitialInv();
    RunKeeps(INITIAL, actions);
    var s := After(INITIAL, actions);
    SameSize(s.heap, s.timers, s.active);
    CancelOnly(s, id);
  }

  /** A timer is freed only if its own id was cancelled, or it is a one-shot timer and
      has run. */
  lemma FreedForAReason(actions: seq<Action>, q: int)
    requires q in After(INITIAL, actions).freed
    ensures var s := After(INITIAL, actions);
            && q in s.births
            && (Id(s.births[q].timer, q) in s.cancelled || (s.births[q].interval <= 0.0 && Runs(s.log, q) > 0))
  {
    InitialInv();
    RunKeeps(INITIAL, actions);
  }

  // ----- the kernel timer -----

  /** Whenever the loop thread is not handling expired timers and some timer is in the
      queue, the kernel timer has gone off or will, no later than the earliest
      expiration or 100us after the clock reading it was set at. */
  lemma NoTimerForgotten(actions: seq<Action>)
    ensures var s := After(INITIAL, actions);
            s.phase.Idle? && s.timers != [] ==>
              && Served(s.fd, s.timers[0].when)
              && forall e | e in s.timers :: s.timers[0].when <= e.when
  {
    hide After, LogOk, FirstOk, OrderOk, JustOk, RanOk, SeqOk, OwnOk;
    InitialInv();
    RunKeeps(INITIAL, actions);
    var s := After(INITIAL, actions);
    if s.timers != [] {
      forall e | e in s.timers
        ensures s.timers[0].when <= e.when
      {
        var i :| 0 <= i < |s.timers| && s.timers[i] == e;
        assert i == 0 || Before(s.timers[0], s.timers[i]);
      }
    }
  }

  /** Setting the kernel timer meets the expiration exactly when that is at least 100us
      ahead; otherwise the clamp makes it late. */
  lemma OnTimeIffFarEnough(when: int, reading: int)
    ensures var fd := ResetTimerFd(when, reading);
            && fd.armed.Some?
            && (fd.armed.value.at <= when <==> when - reading >= 100)
            && (fd.armed.value.at == when <==> when - reading >= 100)
  {
    ArmedFor(when, reading);
  }

  /** The kernel timer is never set for less than 100us ahead. */
  ghost predicate Clamped(fd: TimerFd) {
    fd.armed.Some? ==> fd.armed.value.at >= fd.armed.value.reading + 100
  }

  lemma InsertClamped(s: State, timer: Addr, reading: int)
    requires Sorted(s.timers) && Clamped(s.fd)
    ensures Clamped(InsertTimer(s, timer, reading).fd)
  {
    ArmedFor(Deref(s, timer).expiration, reading);
  }

  lemma RearmClamped(s: State, reading: int)
    requires Clamped(s.fd)
    ensures Clamped(Rearm(s, reading).fd)
  {
    if s.timers != [] {
      ArmedFor(Deref(s, s.timers[0].timer).expiration, reading);
    }
  }

  lemma ResetClamped(s: State, reading: int)
    requires Sorted(s.timers) && s.batch != [] && Clamped(s.fd)
    ensures Clamped(ResetOne(s, reading).fd)
  {
    var timer := s.batch[0].timer;
    var u := Check(s.(batch := s.batch[1..]), timer in s.heap);
    InsertClamped(u.(heap := s.heap[timer := Restarted(Deref(s, timer), s.now)]), timer, reading);
  }

  lemma StepKeepsClamped(s: State, a: Action)
    requires Sorted(s.timers) && Enabled(s, a) && Clamped(s.fd)
    ensures Clamped(Step(s, a).fd)
  {
    match a
    case Add(timer, when, interval, reading) => InsertClamped(Allocate(s, timer, when, interval), timer, reading);
    case Cancel(id) =>
    case RemoteNew(_, _, _) =>
    case RemotePost(_) =>
    case RemoteReturn(_) =>
    case RemoteCancel(_) =>
    case Fire =>
    case Begin(_) =>
    case Call =>
    case EndCalls =>
    case Reset(reading) => ResetClamped(s, reading);
    case Finish(reading) => RearmClamped(s, reading);
    case Dispatch(reading) =>
      if s.mail[0].InsertOf? {
        InsertClamped(s.(mail := s.mail[1..]), s.mail[0].timer, reading);
      }
  }

  lemma {:induction false} RunKeepsClamped(s: State, actions: seq<Action>)
    requires Sorted(s.timers) && Clamped(s.fd)
    ensures Clamped(After(s, actions).fd)
    decreases |actions|
  {
    if actions != [] {
      if Enabled(s, actions[0]) {
        StepKeepsClamped(s, actions[0]);
        RunKeepsClamped(Step(s, actions[0]), actions[1..]);
      } else {
        RunKeepsClamped(s, actions[1..]);
      }
    }
  }

  /** In every run, while no expiry is waiting to be read: the kernel timer is set for no
      later than the earliest expiration exactly if that is at least 100us after the
      clock reading it was set at. */
  lemma OnTimeIff(actions: seq<Action>)
    ensures var s := After(INITIAL, actions);
            s.phase.Idle? && s.timers != [] && !s.fd.readable ==>
              && s.fd.armed.Some?
              && (s.fd.armed.value.at <= s.timers[0].when <==> s.fd.armed.value.reading + 100 <= s.timers[0].when)
  {
    NoTimerForgotten(actions);
    RunKeepsClamped(INITIAL, actions);
  }

  /** So the kernel timer can be set for a time after the earliest expiration. */
  lemma LateByTheClamp()
    ensures var s := After(INITIAL, [Add(1, 50, 0.0, 0)]);
            s.timers == [Entry(50, 1)] && s.fd == TimerFd(Some(Deadline(100, 0)), false)
  {
    hide TimeFromNow;
    ArmedFor(50, 0);
    assert After(INITIAL, [Add(1, 50, 0.0, 0)]) == AddTimer(INITIAL, 1, 50, 0.0, 0);
  }

  // ----- callbacks -----

  lemma {:induction false} RunsTwice(log: seq<Run>, q: int)
    requires Runs(log, q) >= 2
    ensures exists i, j :: 0 <= i < j < |log| && log[i].sequence == q && log[j].sequence == q
  {
    var n := |log| - 1;
    if log[n].sequence == q {
      RunsPositive(log[..n], q);
      var i :| 0 <= i < n && log[..n][i].sequence == q;
      assert log[i].sequence == q && log[n].sequence == q;
    } else {
      RunsTwice(log[..n], q);
      var i, j :| 0 <= i < j < n && log[..n][i].sequence == q && log[..n][j].sequence == q;
      assert log[i].sequence == q && log[j].sequence == q;
    }
  }

  /** No callback runs before its timer's expiration; the callbacks of a batch run in
      order of expiration; a timer's first run is due when add_timer was told; the next
      run of a repeating timer is due its interval after the batch that ran it; and a
      one-shot timer runs at most once. */
  lemma CallbacksOnTime(actions: seq<Action>)
    ensures var s := After(INITIAL, actions);
            && NeverEarly(s.log)
            && InOrder(s.log)
            && (forall i | 0 <= i < |s.log| :: s.log[i].sequence in s.births)
            && (forall i | 0 <= i < |s.log| && NoRun(s.log, s.log[i].sequence, -1, i) ::
                  s.log[i].expiration == s.births[s.log[i].sequence].when)
            && Spaced(s.births, s.log)
            && (forall q | q in s.births && s.births[q].interval <= 0.0 :: Runs(s.log, q) <= 1)
  {
    InitialInv();
    RunKeeps(INITIAL, actions);
    var s := After(INITIAL, actions);
    forall i | 0 <= i < |s.log|
      ensures s.log[i].sequence in s.births
    {
      assert Settled(s.heap, s.births, Called(s.batch, s.phase), s.now, s.log, i);
    }
    forall q | q in s.births && s.births[q].interval <= 0.0
      ensures Runs(s.log, q) <= 1
    {
      if Runs(s.log, q) >= 2 {
        RunsTwice(s.log, q);
      }
    }
  }

  /** Two runs of one timer are at least its interval, cut to whole microseconds, apart. */
  lemma RepeatsApart(actions: seq<Action>, i: nat, j: nat)
    requires var log := After(INITIAL, actions).log; i < j < |log| && log[i].sequence == log[j].sequence
    ensures var s := After(INITIAL, actions);
            && s.log[i].sequence in s.births
            && s.births[s.log[i].sequence].interval > 0.0
            && s.log[j].now >= s.log[i].now + Micros(s.births[s.log[i].sequence].interval)
  {
    CallbacksOnTime(actions);
  }
}
