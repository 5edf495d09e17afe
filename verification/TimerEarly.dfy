/** What a cancel does that comes before its timer is inserted: nothing.  The timer goes on
    as if nobody had cancelled it. */
module TimerEarly {
  import opened TimerQueue
  import opened Options
  import opened TimerModel
  import opened TimerInvariants
  import opened TimerSteps
  import opened TimerTheorems
  import opened TimerReturns

  // ----- the steps do not look at what was cancelled, but for the batch -----

  /** State s with other notes of what has been cancelled. */
  function Noted(s: State, cancelled: set<Id>, canceling: set<Id>): State {
    s.(cancelled := cancelled, canceling := canceling)
  }

  /** The id that a step has cancel_timer process. */
  function Cancels(s: State, a: Action): Option<Id> {
    match a
    case Cancel(id) => Some(id)
    case Dispatch(_) => if s.mail != [] && s.mail[0].CancelOf? then Some(s.mail[0].id) else None
    case _ => None
  }

  function CancelledBy(s: State, a: Action, cancelled: set<Id>): set<Id> {
    var x := Cancels(s, a);
    if x.Some? then cancelled + {x.value} else cancelled
  }

  function CancelingBy(s: State, a: Action, canceling: set<Id>): set<Id> {
    var x := Cancels(s, a);
    if a.Begin? then {} else if x.Some? && x.value !in s.active && s.calling then canceling + {x.value} else canceling
  }

  lemma InsertSame(s: State, c: set<Id>, d: set<Id>, timer: Addr, reading: int)
    requires Sorted(s.timers)
    ensures InsertTimer(Noted(s, c, d), timer, reading) == Noted(InsertTimer(s, timer, reading), c, d)
  {
  }

  lemma CancelSame(s: State, c: set<Id>, d: set<Id>, x: Id)
    requires Sorted(s.timers)
    ensures CancelTimer(Noted(s, c, d), x)
         == Noted(CancelTimer(s, x), c + {x}, if x !in s.active && s.calling then d + {x} else d)
  {
    hide Erase, Sorted;
  }

  lemma AddSame(s: State, c: set<Id>, d: set<Id>, timer: Addr, when: int, interval: real, reading: int)
    requires Sorted(s.timers)
    ensures AddTimer(Noted(s, c, d), timer, when, interval, reading)
            == Noted(AddTimer(s, timer, when, interval, reading), c, d)
  {
    InsertSame(Allocate(s, timer, when, interval), c, d, timer, reading);
  }

  lemma TakeSame(s: State, c: set<Id>, d: set<Id>, now: int)
    requires Sorted(s.timers)
    ensures TakeExpired(Noted(s, c, d), now) == Noted(TakeExpired(s, now), c, {})
  {
  }

  lemma ResetSame(s: State, c: set<Id>, d: set<Id>, reading: int)
    requires Sorted(s.timers) && s.batch != []
    requires IdOf(s, s.batch[0].timer) in d <==> IdOf(s, s.batch[0].timer) in s.canceling
    ensures ResetOne(Noted(s, c, d), reading) == Noted(ResetOne(s, reading), c, d)
  {
    var timer := s.batch[0].timer;
    var u := Check(s.(batch := s.batch[1..]), timer in s.heap);
    InsertSame(u.(heap := s.heap[timer := Restarted(Deref(s, timer), s.now)]), c, d, timer, reading);
  }

  lemma DispatchSame(s: State, c: set<Id>, d: set<Id>, reading: int)
    requires Sorted(s.timers) && s.mail != []
    ensures RunFunctor(Noted(s, c, d), reading)
         == Noted(RunFunctor(s, reading), CancelledBy(s, Dispatch(reading), c), CancelingBy(s, Dispatch(reading), d))
  {
    hide InsertTimer, CancelTimer, Sorted;
    var u := s.(mail := s.mail[1..]);
    match s.mail[0]
    case InsertOf(timer) => InsertSame(u, c, d, timer, reading);
    case CancelOf(x) => CancelSame(u, c, d, x);
  }

  lemma CallSame(s: State, c: set<Id>, d: set<Id>)
    requires s.phase.Calling? && s.phase.next < |s.batch|
    ensures RunNext(Noted(s, c, d)) == Noted(RunNext(s), c, d)
  {
  }

  lemma FinishSame(s: State, c: set<Id>, d: set<Id>, reading: int)
    ensures Rearm(Noted(s, c, d), reading) == Noted(Rearm(s, reading), c, d)
  {
  }

  lemma StepSame(s: State, a: Action, c: set<Id>, d: set<Id>)
    requires Sorted(s.timers) && Enabled(s, a)
    requires a.Reset? ==> (IdOf(s, s.batch[0].timer) in d <==> IdOf(s, s.batch[0].timer) in s.canceling)
    ensures Enabled(Noted(s, c, d), a)
    ensures Step(Noted(s, c, d), a) == Noted(Step(s, a), CancelledBy(s, a, c), CancelingBy(s, a, d))
  {
    hide InsertTimer, CancelTimer, AddTimer, TakeExpired, ResetOne, RunFunctor, RunNext, Rearm;
    match a
    case Add(timer, when, interval, reading) => AddSame(s, c, d, timer, when, interval, reading);
    case Cancel(x) => CancelSame(s, c, d, x);
    case Begin(now) => TakeSame(s, c, d, now);
    case Reset(reading) => ResetSame(s, c, d, reading);
    case Dispatch(reading) => DispatchSame(s, c, d, reading);
    case Call => CallSame(s, c, d);
    case Finish(reading) => FinishSame(s, c, d, reading);
    case _ =>
  }

  lemma EnabledSame(s: State, a: Action, c: set<Id>, d: set<Id>)
    ensures Enabled(Noted(s, c, d), a) == Enabled(s, a)
  {
  }

  // ----- two runs, one with the cancel and one without -----

  /** No timer of the batch is the one with this id. */
  ghost predicate NotInBatch(s: State, id: Id) {
    forall e | e in s.batch :: IdOf(s, e.timer) != id
  }

  /** State t is state s, but for the notes of what was cancelled; and these matter to no
      timer of the batch. */
  ghost predicate Alike(s: State, t: State, id: Id) {
    && t == Noted(s, t.cancelled, t.canceling)
    && (t.canceling == s.canceling || (t.canceling == s.canceling + {id} && NotInBatch(s, id)))
  }

  lemma InBatch(s: State, e: Entry)
    requires Inv(s) && e in s.batch
    ensures e.timer in s.heap && !Active(s.heap, s.active, e.timer)
    ensures forall x | x in s.active :: x.timer != e.timer
  {
    hide SeqOk, JustOk, RanOk, LogOk, FirstOk, OrderOk, FdOk;
    assert Flying(s.heap, s.batch, e.timer);
    forall x | x in s.active
      ensures x.timer != e.timer
    {
      assert Active(s.heap, s.active, x.timer);
    }
  }

  /** The timers of the batch stay what they are. */
  lemma CancelBatch(s: State, x: Id, e: Entry)
    requires Sorted(s.timers) && e.timer in s.heap && forall y | y in s.active :: y.timer != e.timer
    ensures IdOf(CancelTimer(s, x), e.timer) == IdOf(s, e.timer) && CancelTimer(s, x).batch == s.batch
  {
  }

  lemma ResetBatch(s: State, reading: int, e: Entry)
    requires Sorted(s.timers) && s.batch != [] && s.batch[0].timer in s.heap && e.timer in s.heap && e in s.batch[1..]
    ensures IdOf(s, s.batch[0].timer).timer != e.timer ==> IdOf(ResetOne(s, reading), e.timer) == IdOf(s, e.timer)
    ensures ResetOne(s, reading).batch == s.batch[1..]
  {
    ResetHeap(s, reading);
  }

  lemma OthersInBatch(batch: seq<Entry>, heap: map<Addr, Timer>, e: Entry)
    requires batch != [] && Sorted(batch) && e in batch[1..]
    requires forall x | x in batch :: x.timer in heap && x.when == heap[x.timer].expiration
    ensures e in batch && e.timer != batch[0].timer
  {
    assert batch[0] in batch;
    var i :| 0 <= i < |batch[1..]| && batch[1..][i] == e;
    assert batch[i + 1] == e && Before(batch[0], batch[i + 1]);
  }

  lemma BatchStep(s: State, a: Action, e: Entry)
    requires Inv(s) && Enabled(s, a) && !a.Begin? && e in Step(s, a).batch
    ensures e in s.batch && IdOf(Step(s, a), e.timer) == IdOf(s, e.timer)
  {
    hide SeqOk, JustOk, RanOk, LogOk, FirstOk, OrderOk, FdOk, CancelTimer, ResetOne, InsertTimer;
    if a.Reset? {
      OthersInBatch(s.batch, s.heap, e);
      InBatch(s, e);
      assert s.batch[0] in s.batch;
      ResetBatch(s, a.reading, e);
    } else {
      InBatch(s, e);
      if a.Cancel? {
        CancelBatch(s, a.id, e);
      }
    }
  }

  lemma AlikeStep(s: State, t: State, a: Action, id: Id)
    requires Sorted(s.timers) && Sorted(t.timers) && Inv(s) && Alike(s, t, id) && Enabled(s, a)
    ensures Enabled(t, a) && Alike(Step(s, a), Step(t, a), id)
  {
    hide Step, Inv, Enabled;
    if a.Reset? {
      FirstInBatch(s, a);
    }
    StepSame(s, a, s.cancelled, s.canceling);
    StepSame(s, a, t.cancelled, t.canceling);
    assert Noted(s, s.cancelled, s.canceling) == s;
    if t.canceling != s.canceling && !a.Begin? {
      forall e | e in Step(s, a).batch
        ensures IdOf(Step(s, a), e.timer) != id
      {
        BatchStep(s, a, e);
      }
    }
  }

  lemma FirstInBatch(s: State, a: Action)
    requires a.Reset? && Enabled(s, a)
    ensures s.batch != [] && s.batch[0] in s.batch
  {
  }

  lemma {:induction false} AlikeRun(s: State, t: State, actions: seq<Action>, id: Id)
    requires Sorted(s.timers) && Sorted(t.timers) && Inv(s) && Alike(s, t, id)
    ensures Alike(After(s, actions), After(t, actions), id)
    decreases |actions|
  {
    hide Step, Inv, Enabled;
    if actions != [] {
      EnabledSame(s, actions[0], t.cancelled, t.canceling);
      if Enabled(s, actions[0]) {
        StepKeeps(s, actions[0]);
        AlikeStep(s, t, actions[0], id);
        AlikeRun(Step(s, actions[0]), Step(t, actions[0]), actions[1..], id);
      } else {
        AlikeRun(s, t, actions[1..], id);
      }
    }
  }

  /** In every run: a cancel that comes before its timer is inserted changes nothing of
      what happens from then on, whatever that is: it is only noted. */
  lemma EarlyCancelDoesNothing(before: seq<Action>, id: Id, later: seq<Action>)
    requires LoopThreadMayCall(After(INITIAL, before)) && !Inserted(After(INITIAL, before), id)
    ensures var s := After(INITIAL, before);
            var t := After(CancelTimer(s, id), later);
            t == Noted(After(s, later), t.cancelled, t.canceling)
  {
    hide After, Inv;
    InitialInv();
    RunKeeps(INITIAL, before);
    var s := After(INITIAL, before);
    CancelTooEarly(s, id);
    NotYetInBatch(s, id);
    AlikeRun(s, CancelTimer(s, id), later, id);
  }

  lemma NotYetInBatch(s: State, id: Id)
    requires Inv(s) && !Inserted(s, id)
    ensures NotInBatch(s, id)
  {
    forall e | e in s.batch
      ensures IdOf(s, e.timer) != id
    {
      assert Flying(s.heap, s.batch, e.timer);
    }
  }

  // ----- such a run -----

  const ID: Id := Id(1, 1)

  /** The timer at address 1 is there. */
  const MADE: State :=
    INITIAL.(heap := map[1 := Timer(0, 0.0, false, 1)], created := 1, births := map[1 := Birth(1, 0, 0.0)])

  /** It has been cancelled, and is inserted nevertheless. */
  const INSERTED: State := MADE.(cancelled := {ID}, timers := [Entry(0, 1)], active := {ID})

  /** It is about to run. */
  const TAKEN: State :=
    MADE.(cancelled := {ID}, fd := TimerFd(None, false), calling := true, phase := Calling(0), batch := [Entry(0, 1)],
          now := 100, round := 1)

  /** The timer is created and posted, and its id returned; then it is cancelled, */
  function CreateAndCancel(): seq<Action> {
    [RemoteNew(1, 0, 0.0)] + ([RemotePost(1)] + ([RemoteReturn(ID)] + ([Cancel(ID)] + InsertAndRun())))
  }

  /** inserted, and run. */
  function InsertAndRun(): seq<Action> {
    [Dispatch(0)] + ([Fire] + ([Begin(100)] + ([Call] + [])))
  }

  lemma StepsToCancel()
    ensures Step(INITIAL, RemoteNew(1, 0, 0.0)) == MADE.(held := {1})
    ensures Step(MADE.(held := {1}), RemotePost(1)) == MADE.(returning := {ID}, mail := [InsertOf(1)])
    ensures Step(MADE.(returning := {ID}, mail := [InsertOf(1)]), RemoteReturn(ID)) == MADE.(mail := [InsertOf(1)])
    ensures Step(MADE.(mail := [InsertOf(1)]), Cancel(ID)) == MADE.(mail := [InsertOf(1)], cancelled := {ID})
  {
  }

  lemma StepToInsert()
    ensures Step(MADE.(mail := [InsertOf(1)], cancelled := {ID}), Dispatch(0)) == INSERTED.(fd := ResetTimerFd(0, 0))
    ensures ResetTimerFd(0, 0).armed.Some?
  {
    ArmedFor(0, 0);
  }

  lemma StepsToRun()
    ensures Step(INSERTED.(fd := TimerFd(None, true)), Begin(100)) == TAKEN
    ensures Step(TAKEN, Call) == TAKEN.(phase := Calling(1), log := [Run(1, 0, 100, 1)])
  {
    var t := Step(INSERTED.(fd := TimerFd(None, true)), Begin(100));
    assert t.batch == [Entry(0, 1)] && t.timers == [];
  }

  lemma RunsAfterCancel()
    ensures After(MADE.(mail := [InsertOf(1)], cancelled := {ID}), InsertAndRun())
         == TAKEN.(phase := Calling(1), log := [Run(1, 0, 100, 1)])
  {
    hide Step;
    StepToInsert();
    StepsToRun();
    var s, last := MADE.(mail := [InsertOf(1)], cancelled := {ID}),
        TAKEN.(phase := Calling(1), log := [Run(1, 0, 100, 1)]);
    Then(s, Dispatch(0), INSERTED.(fd := ResetTimerFd(0, 0)), [Fire] + ([Begin(100)] + ([Call] + [])));
    Fires(INSERTED.(fd := ResetTimerFd(0, 0)));
    Then(INSERTED.(fd := ResetTimerFd(0, 0)), Fire, INSERTED.(fd := TimerFd(None, true)), [Begin(100)]
        + ([Call] + []));
    Then(INSERTED.(fd := TimerFd(None, true)), Begin(100), TAKEN, [Call] + []);
    Then(TAKEN, Call, last, []);
  }

  lemma Fires(s: State)
    requires Sorted(s.timers) && s.fd.armed.Some?
    ensures Step(s, Fire) == s.(fd := TimerFd(None, true))
  {
  }

  /** Its callback runs, although it was cancelled. */
  lemma RunsAnyway()
    ensures var s := After(INITIAL, CreateAndCancel()); ID in s.cancelled && s.log == [Run(1, 0, 100, 1)]
  {
    hide Step;
    StepsToCancel();
    RunsAfterCancel();
    var posted := MADE.(mail := [InsertOf(1)]);
    var rest := [Cancel(ID)] + InsertAndRun();
    Then(INITIAL, RemoteNew(1, 0, 0.0), MADE.(held := {1}), [RemotePost(1)] + ([RemoteReturn(ID)] + rest));
    Then(MADE.(held := {1}), RemotePost(1), posted.(returning := {ID}), [RemoteReturn(ID)] + rest);
    Then(posted.(returning := {ID}), RemoteReturn(ID), posted, rest);
    Then(posted, Cancel(ID), posted.(cancelled := {ID}), InsertAndRun());
  }
}
