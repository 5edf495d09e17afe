/** What add_timer does last on another thread: it reads the sequence of a timer that the
    loop thread may already have freed. */
module TimerReturns {
  import opened TimerQueue
  import opened Options
  import opened TimerModel
  import opened TimerInvariants
  import opened TimerSteps

  /** The timers that are still to be read were all created at the address that is read,
      and those that were read too late have been freed. */
  ghost predicate ReturnOk(returning: set<Id>, births: map<int, Birth>, late: set<int>, freed: set<int>) {
    && (forall id | id in returning :: id.sequence in births && births[id.sequence].timer == id.timer)
    && late <= freed
  }

  ghost predicate ReturnsOk(s: State) {
    ReturnOk(s.returning, s.births, s.late, s.freed)
  }

  /** A timer that is held or posted is there to be read. */
  lemma HeldThere(s: State, timer: Addr)
    requires Inv(s) && timer in s.held
    ensures timer in s.heap && s.heap[timer].sequence in s.births && s.births[s.heap[timer].sequence].timer == timer
  {
  }

  /** The read is safe exactly as long as the timer has not been freed. */
  lemma ReadsIff(s: State, id: Id)
    requires Inv(s) && ReturnsOk(s) && id in s.returning
    ensures ReadsOwn(s, id) <==> id.sequence !in s.freed
  {
    assert ReadsOwn(s, id) <==> Live(s.heap, s.births, id.sequence);
  }

  /** Timers that are created or freed do not matter to those that are still to be read. */
  lemma ReturnGrows(returning: set<Id>, births: map<int, Birth>, late: set<int>, freed: set<int>, q: int, b: Birth,
                    freed': set<int>)
    requires ReturnOk(returning, births, late, freed) && q !in births && freed <= freed'
    ensures ReturnOk(returning, births, late, freed')
    ensures ReturnOk(returning, births[q := b], late, freed')
  {
  }

  /** Every step but those of the thread in add_timer leaves what it has to read alone. */
  lemma StepLeaves(s: State, a: Action)
    requires Sorted(s.timers) && Enabled(s, a) && !a.RemotePost? && !a.RemoteReturn?
    ensures Step(s, a).returning == s.returning && Step(s, a).late == s.late
  {
  }

  lemma StepKeepsReturns(s: State, a: Action)
    requires Inv(s) && ReturnsOk(s) && Enabled(s, a)
    ensures ReturnsOk(Step(s, a))
  {
    if a.RemotePost? {
      HeldThere(s, a.timer);
    } else if a.RemoteReturn? {
      ReadsIff(s, a.id);
    } else {
      var t := Step(s, a);
      StepLeaves(s, a);
      StepKeepsFreed(s, a);
      StepKeepsBirths(s, a);
      if t.births == s.births {
        ReturnGrows(s.returning, s.births, s.late, s.freed, s.created + 1, Birth(0, 0, 0.0), t.freed);
      } else {
        ReturnGrows(s.returning, s.births, s.late, s.freed, s.created + 1, t.births[s.created + 1], t.freed);
      }
    }
  }

  lemma {:induction false} RunKeepsReturns(s: State, actions: seq<Action>)
    requires Inv(s) && ReturnsOk(s)
    ensures ReturnsOk(After(s, actions))
    decreases |actions|
  {
    if actions != [] {
      if Enabled(s, actions[0]) {
        StepKeeps(s, actions[0]);
        StepKeepsReturns(s, actions[0]);
        RunKeepsReturns(Step(s, actions[0]), actions[1..]);
      } else {
        RunKeepsReturns(s, actions[1..]);
      }
    }
  }

  /** In every run: a thread that has posted a timer still reads that timer exactly as long
      as it has not been freed; so the timers read too late are exactly those that had
      been freed by then. */
  lemma ReadSafeIff(actions: seq<Action>, id: Id)
    requires id in After(INITIAL, actions).returning
    ensures var s := After(INITIAL, actions);
            && (ReadsOwn(s, id) <==> id.sequence !in s.freed)
            && (id.sequence in Step(s, RemoteReturn(id)).late <==> id.sequence in s.late || id.sequence in s.freed)
            && s.late <= s.freed
  {
    hide Inv, After;
    InitialInv();
    RunKeeps(INITIAL, actions);
    RunKeepsReturns(INITIAL, actions);
    ReadsIff(After(INITIAL, actions), id);
  }

  // ----- for which timers the read can come too late -----

  /** Some run, in which nobody cancels the timer, has add_timer read it after it was freed. */
  ghost predicate CanReadFreed(when: int, interval: real) {
    exists actions: seq<Action>, id: Id :: ReadsFreed(After(INITIAL, actions), id, when, interval)
  }

  ghost predicate ReadsFreed(s: State, id: Id, when: int, interval: real) {
    && id in s.returning && !ReadsOwn(s, id) && id !in s.cancelled
    && id.sequence in s.births && s.births[id.sequence] == Birth(id.timer, when, interval)
  }

  /** The timer at address 1 has been created and posted, and its sequence is to be read. */
  function Posted1(when: int, interval: real): State {
    INITIAL.(heap := map[1 := Timer(when, interval, false, 1)], created := 1,
             returning := {Id(1, 1)}, births := map[1 := Birth(1, when, interval)])
  }

  /** Then it is inserted, and the kernel timer goes off, */
  function Waiting(when: int, interval: real): State {
    Posted1(when, interval).(timers := [Entry(when, 1)], active := {Id(1, 1)}, fd := TimerFd(None, true))
  }

  /** and its callback has run. */
  function HasRun(when: int, interval: real): State {
    Posted1(when, interval).(fd := TimerFd(None, false), phase := Resetting, batch := [Entry(when, 1)],
        now := Max(when, 0),
                             log := [Run(1, when, Max(when, 0), 1)], round := 1)
  }

  function TooFast(when: int, interval: real): seq<Action> {
    [RemoteNew(1, when, interval)] + ([RemotePost(1)] + ([Dispatch(0)] + ([Fire] + RunAndFree(when))))
  }

  function RunAndFree(when: int): seq<Action> {
    [Begin(Max(when, 0))] + ([Call] + ([EndCalls] + ([Reset(0)] + [])))
  }

  lemma Created(when: int, interval: real)
    requires interval <= 0.0
    ensures Step(INITIAL, RemoteNew(1, when, interval)) == Posted1(when, interval).(held := {1}, returning := {})
  {
  }

  lemma PostedFirst(when: int, interval: real)
    ensures var s := Posted1(when, interval);
            Step(s.(held := {1}, returning := {}), RemotePost(1)) == s.(mail := [InsertOf(1)])
  {
  }

  lemma DispatchedFirst(when: int, interval: real)
    ensures var s := Posted1(when, interval);
            && Step(s.(mail := [InsertOf(1)]), Dispatch(0))
               == s.(timers := [Entry(when, 1)], active := {Id(1, 1)}, fd := ResetTimerFd(when, 0))
            && ResetTimerFd(when, 0).armed.Some?
  {
    ArmedFor(when, 0);
  }

  lemma Expired(when: int, interval: real)
    ensures var s := Waiting(when, interval);
            && Enabled(s, Begin(Max(when, 0)))
            && Step(s, Begin(Max(when, 0)))
               == HasRun(when, interval).(calling := true, phase := Calling(0), log := [])
  {
    var t := Step(Waiting(when, interval), Begin(Max(when, 0)));
    assert t.batch == [Entry(when, 1)] && t.timers == [];
  }

  lemma Called1(when: int, interval: real)
    ensures var s := HasRun(when, interval).(calling := true, phase := Calling(0), log := []);
            Enabled(s, Call) && Step(s, Call) == HasRun(when, interval).(calling := true, phase := Calling(1))
  {
  }

  lemma Freed1(when: int, interval: real)
    ensures Step(HasRun(when, interval), Reset(0)) == HasRun(when, interval).(heap := map[], batch := [], freed := {1})
  {
    var s := HasRun(when, interval);
    assert s.batch[1..] == [] && s.heap - {1} == map[];
  }

  lemma Then(s: State, a: Action, t: State, rest: seq<Action>)
    requires Sorted(s.timers) && Enabled(s, a) && Step(s, a) == t
    ensures After(s, [a] + rest) == After(t, rest)
  {
    Next(s, a, rest);
  }

  lemma PostAndInsert(when: int, interval: real)
    requires interval <= 0.0
    ensures After(INITIAL, TooFast(when, interval)) == After(Waiting(when, interval), RunAndFree(when))
  {
    var s := Posted1(when, interval);
    var rest := [Fire] + RunAndFree(when);
    var fd := ResetTimerFd(when, 0);
    Created(when, interval);
    Then(INITIAL, RemoteNew(1, when, interval), s.(held := {1}, returning := {}), [RemotePost(1)]
        + ([Dispatch(0)] + rest));
    PostedFirst(when, interval);
    Then(s.(held := {1}, returning := {}), RemotePost(1), s.(mail := [InsertOf(1)]), [Dispatch(0)] + rest);
    DispatchedFirst(when, interval);
    Then(s.(mail := [InsertOf(1)]), Dispatch(0), s.(timers := [Entry(when, 1)], active := {Id(1, 1)}, fd := fd), rest);
    Then(s.(timers := [Entry(when, 1)], active := {Id(1, 1)}, fd := fd), Fire, Waiting(when, interval),
        RunAndFree(when));
  }

  lemma RunAndFreed(when: int, interval: real)
    ensures After(Waiting(when, interval), RunAndFree(when))
         == HasRun(when, interval).(heap := map[], batch := [], freed := {1})
  {
    var t := HasRun(when, interval);
    var u := t.(calling := true, phase := Calling(0), log := []);
    Expired(when, interval);
    Then(Waiting(when, interval), Begin(Max(when, 0)), u, [Call] + ([EndCalls] + ([Reset(0)] + [])));
    Called1(when, interval);
    Then(u, Call, t.(calling := true, phase := Calling(1)), [EndCalls] + ([Reset(0)] + []));
    Then(t.(calling := true, phase := Calling(1)), EndCalls, t, [Reset(0)] + []);
    Freed1(when, interval);
    Then(t, Reset(0), t.(heap := map[], batch := [], freed := {1}), []);
  }

  /** For which timers the sequence can be read from freed memory, if nobody cancels them:
      exactly for those that do not repeat. */
  lemma ReadsFreedIff(when: int, interval: real)
    ensures CanReadFreed(when, interval) <==> interval <= 0.0
  {
    if interval <= 0.0 {
      PostAndInsert(when, interval);
      RunAndFreed(when, interval);
      assert ReadsFreed(After(INITIAL, TooFast(when, interval)), Id(1, 1), when, interval);
    } else if CanReadFreed(when, interval) {
      var actions: seq<Action>, id: Id :| ReadsFreed(After(INITIAL, actions), id, when, interval);
      RepeatingNotFreed(actions, id);
      assert false;
    }
  }

  /** A repeating timer that nobody has cancelled is there to be read. */
  lemma RepeatingNotFreed(actions: seq<Action>, id: Id)
    requires var s := After(INITIAL, actions);
             && id in s.returning && id !in s.cancelled
             && id.sequence in s.births && s.births[id.sequence].timer == id.timer
                && s.births[id.sequence].interval > 0.0
    ensures ReadsOwn(After(INITIAL, actions), id)
  {
    InitialInv();
    RunKeeps(INITIAL, actions);
    ReadSafeIff(actions, id);
  }

  /** When the address has been handed out again, the TimerId returned is another timer's. */
  lemma ReturnsAnothersId(when: int, other: int)
    ensures var s := After(INITIAL, TooFast(when, 0.0) + [Finish(0), Add(1, other, 0.0, 0)]);
            Id(1, 1) in s.returning && 1 in s.heap && IdOf(s, 1) == Id(1, 2)
  {
    PostAndInsert(when, 0.0);
    RunAndFreed(when, 0.0);
    var s := After(INITIAL, TooFast(when, 0.0));
    AfterBoth(INITIAL, TooFast(when, 0.0), [Finish(0), Add(1, other, 0.0, 0)]);
    assert [Finish(0), Add(1, other, 0.0, 0)] == [Finish(0)] + ([Add(1, other, 0.0, 0)] + []);
    Next(s, Finish(0), [Add(1, other, 0.0, 0)] + []);
    Next(Step(s, Finish(0)), Add(1, other, 0.0, 0), []);
  }
}
