/** Requests from other threads are handled in the order they were posted: so a cancel that
    is posted after its timer always finds the timer inserted. */
module TimerRequests {
  import opened TimerQueue
  import opened TimerModel
  import opened TimerInvariants
  import opened TimerSteps
  import opened TimerTheorems

  /** Request number k cancels the timer. */
  ghost predicate CancelAt(s: State, id: Id, k: int) {
    0 <= k < |s.mail| && s.mail[k] == CancelOf(id) && Known(s, id)
  }

  /** The timer's insertion has not been posted, or not before request number k. */
  predicate StillToCome(heap: map<Addr, Timer>, births: map<int, Birth>, mail: seq<Functor>, held: set<Addr>, id: Id)
    requires id.sequence in births
  {
    Live(heap, births, id.sequence) && (id.timer in held || InsertOf(id.timer) in mail)
  }

  ghost predicate ToCome(s: State, id: Id, k: int)
    requires CancelAt(s, id, k)
  {
    StillToCome(s.heap, s.births, s.mail[k..], s.held, id)
  }

  /** What a step does to the requests. */
  lemma StepMail(s: State, a: Action)
    requires Sorted(s.timers) && Enabled(s, a)
    ensures Step(s, a).mail == match a
                               case RemotePost(timer) => s.mail + [InsertOf(timer)]
                               case RemoteCancel(id) => s.mail + [CancelOf(id)]
                               case Dispatch(_) => s.mail[1..]
                               case _ => s.mail
    ensures Step(s, a).held == match a
                               case RemoteNew(timer, _, _) => s.held + {timer}
                               case RemotePost(timer) => s.held - {timer}
                               case _ => s.held
  {
    hide AddTimer, CancelTimer, TakeExpired, RunNext, ResetOne, Rearm, RunFunctor;
  }

  /** A timer that is gone does not come back, and what it was created with stays. */
  lemma NotBack(s: State, a: Action, id: Id)
    requires Inv(s) && Enabled(s, a) && Known(s, id)
    ensures Known(Step(s, a), id)
    ensures Live(Step(s, a).heap, Step(s, a).births, id.sequence) ==> Live(s.heap, s.births, id.sequence)
  {
    StepKeepsFreed(s, a);
    StepKeepsBirths(s, a);
    StepSeq(s, a);
  }

  lemma StepSeq(s: State, a: Action)
    requires Inv(s) && Enabled(s, a)
    ensures var t := Step(s, a); SeqOk(t.heap, t.births, t.freed, t.created)
  {
    StepKeeps(s, a);
  }

  // ----- a timer that waits to be inserted stays -----

  lemma CancelLeaves(s: State, x: Id, a: Addr)
    requires Sorted(s.timers) && IndexOk(s.heap, s.timers, s.active) && a in s.heap && !Active(s.heap, s.active, a)
    ensures a in CancelTimer(s, x).heap && CancelTimer(s, x).heap[a] == s.heap[a]
  {
  }

  lemma ResetLeaves(s: State, reading: int, a: Addr)
    requires Sorted(s.timers) && s.batch != [] && a in s.heap && s.batch[0].timer in s.heap && a != s.batch[0].timer
    ensures a in ResetOne(s, reading).heap && ResetOne(s, reading).heap[a] == s.heap[a]
  {
    ResetHeap(s, reading);
  }

  /** A timer that is held or posted is neither active nor in the batch. */
  lemma Waits(s: State, a: Addr)
    requires OwnOk(s.heap, s.active, s.batch, s.mail, s.held) && a in s.heap && (a in s.held || Posted(s.mail, a))
    ensures !Active(s.heap, s.active, a) && (s.batch != [] ==> s.batch[0].timer in s.heap && s.batch[0].timer != a)
  {
    if s.batch != [] {
      assert s.batch[0] in s.batch;
      assert ExactlyOne(Active(s.heap, s.active, a), Flying(s.heap, s.batch, a), Posted(s.mail, a), a in s.held);
    }
  }

  lemma StillThere(s: State, a: Action, timer: Addr)
    requires Inv(s) && Enabled(s, a) && timer in s.heap && (timer in s.held || Posted(s.mail, timer))
    ensures timer in Step(s, a).heap && Step(s, a).heap[timer] == s.heap[timer]
  {
    Waits(s, timer);
    StaysThere(s, a, timer);
  }

  lemma StaysThere(s: State, a: Action, timer: Addr)
    requires Sorted(s.timers) && IndexOk(s.heap, s.timers, s.active) && Enabled(s, a)
    requires timer in s.heap && !Active(s.heap, s.active, timer)
    requires s.batch != [] ==> s.batch[0].timer in s.heap && s.batch[0].timer != timer
    ensures timer in Step(s, a).heap && Step(s, a).heap[timer] == s.heap[timer]
  {
    match a
    case Cancel(x) => CancelLeaves(s, x, timer);
    case Reset(reading) => ResetLeaves(s, reading, timer);
    case Dispatch(reading) =>
      if s.mail[0].CancelOf? {
        CancelLeaves(s.(mail := s.mail[1..]), s.mail[0].id, timer);
      }
    case _ =>
  }

  // ----- so the order of a cancel and its timer's insertion is kept -----

  function Posts(a: Action): seq<Functor> {
    match a
    case RemotePost(timer) => [InsertOf(timer)]
    case RemoteCancel(id) => [CancelOf(id)]
    case _ => []
  }

  /** Where request number k is after a step. */
  function Place(a: Action, k: int): int {
    if a.Dispatch? then k - 1 else k
  }

  /** A step adds to the requests from number k on, but takes none away. */
  lemma MailFrom(s: State, a: Action, k: int)
    requires Sorted(s.timers) && Enabled(s, a) && 0 <= k < |s.mail| && 0 <= Place(a, k)
    ensures Place(a, k) < |Step(s, a).mail| && Step(s, a).mail[Place(a, k)] == s.mail[k]
    ensures Step(s, a).mail[Place(a, k)..] == s.mail[k..] + Posts(a)
  {
    StepMail(s, a);
    assert s.mail[k..] + [] == s.mail[k..];
  }

  lemma Comes(s: State, a: Action, timer: Addr, k: int)
    requires Inv(s) && Enabled(s, a) && timer in s.heap && 0 <= k < |s.mail| && 0 <= Place(a, k)
    ensures var t := Step(s, a);
            (timer in t.held || InsertOf(timer) in s.mail[k..] + Posts(a))
                <==> (timer in s.held || InsertOf(timer) in s.mail[k..])
  {
    StepMail(s, a);
  }

  lemma ToComeStep(s: State, a: Action, id: Id, k: int)
    requires Sorted(s.timers) && Inv(s) && Enabled(s, a) && CancelAt(s, id, k) && 0 <= Place(a, k)
    ensures CancelAt(Step(s, a), id, Place(a, k)) && (ToCome(Step(s, a), id, Place(a, k)) <==> ToCome(s, id, k))
  {
    hide Step, Inv, Enabled;
    NotBack(s, a, id);
    MailFrom(s, a, k);
    if Live(s.heap, s.births, id.sequence) {
      Comes(s, a, id.timer, k);
      if ToCome(s, id, k) {
        assert Posted(s.mail[k..], id.timer) ==> Posted(s.mail, id.timer);
        StillThere(s, a, id.timer);
      }
    }
  }

  /** How many requests are handled in a run. */
  function Handled(s: State, actions: seq<Action>): nat
    requires Sorted(s.timers)
    decreases |actions|
  {
    if actions == [] then 0
    else if Enabled(s, actions[0]) then
      (if actions[0].Dispatch? then 1 else 0) + Handled(Step(s, actions[0]), actions[1..])
    else Handled(s, actions[1..])
  }

  /** From request number k of state s to request number m of state t nothing has changed:
      it is the same cancel, and its timer's insertion is still to come, or not. */
  ghost predicate Kept(s: State, k: int, t: State, m: int, id: Id) {
    CancelAt(s, id, k) && CancelAt(t, id, m) && (ToCome(t, id, m) <==> ToCome(s, id, k))
  }

  lemma KeptTwice(s: State, k: int, t: State, m: int, u: State, n: int, id: Id)
    requires Kept(s, k, t, m, id) && Kept(t, m, u, n, id)
    ensures Kept(s, k, u, n, id)
  {
  }

  lemma KeptStep(s: State, a: Action, id: Id, k: int)
    requires Sorted(s.timers) && Inv(s) && Enabled(s, a) && CancelAt(s, id, k) && 0 <= Place(a, k)
    ensures Inv(Step(s, a)) && Kept(s, k, Step(s, a), Place(a, k), id)
  {
    StepKeeps(s, a);
    ToComeStep(s, a, id, k);
  }

  lemma {:induction false} KeptRun(s: State, actions: seq<Action>, id: Id, k: int)
    requires Sorted(s.timers) && Inv(s) && CancelAt(s, id, k) && Handled(s, actions) <= k
    ensures Kept(s, k, After(s, actions), k - Handled(s, actions), id)
    decreases |actions|
  {
    hide Step, Inv, ToCome, CancelAt;
    if actions != [] {
      var a, rest := actions[0], actions[1..];
      if Enabled(s, a) {
        KeptStep(s, a, id, k);
        KeptRun(Step(s, a), rest, id, Place(a, k));
        KeptTwice(s, k, Step(s, a), Place(a, k), After(Step(s, a), rest), k - Handled(s, actions), id);
      } else {
        KeptRun(s, rest, id, k);
      }
    }
  }

  lemma Posting(s: State, id: Id)
    requires Inv(s) && Known(s, id)
    ensures var t := Step(s, RemoteCancel(id));
            && CancelAt(t, id, |s.mail|)
            && (ToCome(t, id, |s.mail|) <==> Live(s.heap, s.births, id.sequence) && id.timer in s.held)
  {
    assert (s.mail + [CancelOf(id)])[|s.mail|..] == [CancelOf(id)];
  }

  lemma AtFront(s: State, id: Id)
    requires CancelAt(s, id, 0)
    ensures Inserted(s, id) <==> !ToCome(s, id, 0)
  {
    assert s.mail[0..] == s.mail;
  }

  /** A cancel that another thread posts is handled after as many others as were waiting;
      and it then finds the timer inserted, or gone, exactly if the timer's insertion had
      been posted when the cancel was. */
  lemma CancelFindsInserted(before: seq<Action>, id: Id, between: seq<Action>)
    requires Known(After(INITIAL, before), id)
    requires var s := After(INITIAL, before); Handled(Step(s, RemoteCancel(id)), between) == |s.mail|
    ensures var s := After(INITIAL, before);
            var t := After(Step(s, RemoteCancel(id)), between);
            && t.mail != [] && t.mail[0] == CancelOf(id)
            && (Inserted(t, id) <==> !(Live(s.heap, s.births, id.sequence) && id.timer in s.held))
  {
    InitialInv();
    RunKeeps(INITIAL, before);
    FindsInserted(After(INITIAL, before), id, between);
  }

  lemma FindsInserted(s: State, id: Id, between: seq<Action>)
    requires Inv(s) && Known(s, id) && Handled(Step(s, RemoteCancel(id)), between) == |s.mail|
    ensures var t := After(Step(s, RemoteCancel(id)), between);
            && t.mail != [] && t.mail[0] == CancelOf(id)
            && (Inserted(t, id) <==> !(Live(s.heap, s.births, id.sequence) && id.timer in s.held))
  {
    var u := Step(s, RemoteCancel(id));
    StepKeeps(s, RemoteCancel(id));
    Posting(s, id);
    KeptRun(u, between, id, |s.mail|);
    AtFront(After(u, between), id);
  }
}
