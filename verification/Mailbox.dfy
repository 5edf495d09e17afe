/** How requests from other threads reach the loop thread of the timer scheduler: a
    queue under a mutex, a counter (the eventfd) that wakes the poll, and the loop.
    Any thread may take the next step. */
module Mailbox {

  /** Where the loop thread is in start. */
  datatype Loop<F> =
    | Outside                 // start is not running
    | Deciding                // at the test of m_quit
    | Polling                 // in poll
    | Handling(ready: bool)   // poll has returned, with the eventfd readable or not
    | Swapping                // the channels have been handled; the queue is to be swapped out
    | Running(rest: seq<F>)   // the functors swapped out are being run

  datatype State<F> = State(
    loop: Loop<F>,
    pending: seq<F>,        // m_pendingFunctors
    eventfd: nat,           // the counter of m_eventfd
    quit: bool,             // m_quit
    posting: set<nat>,      // threads that have pushed a functor and not written to the eventfd yet
    quitting: set<nat>,     // threads that have set m_quit and not written to the eventfd yet
    pushed: seq<F>,         // history: all functors pushed,
    executed: seq<F>)       //   and all functors run

  function Initial<F>(): State<F> {
    State(Outside, [], 0, false, {}, {}, [], [])
  }

  datatype Action<F> =
    | Start                          // start is called
    | Test                           // the loop tests m_quit
    | PollReturns                    // poll returns, for any reason
    | ReadEventFd                    // the active channels are handled
    | QuitInside                     // a callback calls quit
    | Swap
    | RunOne
    | RunsDone
    | Push(thread: nat, functor: F)  // another thread posts a functor,
    | WritePosted(thread: nat)       //   and wakes the loop
    | SetQuit(thread: nat)           // another thread calls quit,
    | WriteQuit(thread: nat)         //   and wakes the loop

  predicate Free<F>(s: State<F>, thread: nat) {
    thread !in s.posting && thread !in s.quitting
  }

  predicate Enabled<F>(s: State<F>, a: Action<F>) {
    match a
    case Start => s.loop.Outside?
    case Test => s.loop.Deciding?
    case PollReturns => s.loop.Polling?
    case ReadEventFd => s.loop.Handling?
    case QuitInside => s.loop.Handling? || s.loop.Running?
    case Swap => s.loop.Swapping?
    case RunOne => s.loop.Running? && s.loop.rest != []
    case RunsDone => s.loop.Running? && s.loop.rest == []
    case Push(thread, _) => Free(s, thread)
    case WritePosted(thread) => thread in s.posting
    case SetQuit(thread) => Free(s, thread)
    case WriteQuit(thread) => thread in s.quitting
  }

  function Step<F>(s: State<F>, a: Action<F>): State<F>
    requires Enabled(s, a)
  {
    match a
    case Start => s.(loop := Deciding, quit := false)
    case Test => s.(loop := if s.quit then Outside else Polling)
    case PollReturns => s.(loop := Handling(s.eventfd > 0))
    case ReadEventFd => s.(loop := Swapping, eventfd := if s.loop.ready then 0 else s.eventfd)
    case QuitInside => s.(quit := true)
    case Swap => s.(loop := Running(s.pending), pending := [])
    case RunOne => s.(loop := Running(s.loop.rest[1..]), executed := s.executed + [s.loop.rest[0]])
    case RunsDone => s.(loop := Deciding)
    case Push(thread, functor) =>
      s.(posting := s.posting + {thread}, pending := s.pending + [functor], pushed := s.pushed + [functor])
    case WritePosted(thread) => s.(posting := s.posting - {thread}, eventfd := s.eventfd + 1)
    case SetQuit(thread) => s.(quitting := s.quitting + {thread}, quit := true)
    case WriteQuit(thread) => s.(quitting := s.quitting - {thread}, eventfd := s.eventfd + 1)
  }

  function After<F>(s: State<F>, actions: seq<Action<F>>): State<F>
    decreases |actions|
  {
    if actions == [] then s
    else After(if Enabled(s, actions[0]) then Step(s, actions[0]) else s, actions[1..])
  }

  function InHand<F>(loop: Loop<F>): seq<F> {
    if loop.Running? then loop.rest else []
  }

  /** Every functor pushed has been run, is about to be, or is in the queue: once, and
      in the order of the pushes. */
  ghost predicate InOrder<F>(s: State<F>) {
    s.pushed == s.executed + InHand(s.loop) + s.pending
  }

  /** A functor in the queue has someone who will see to it. */
  ghost predicate Noticed<F>(s: State<F>) {
    s.pending != [] ==> s.eventfd > 0 || s.posting != {} || s.loop.Handling? || s.loop.Swapping?
  }

  /** A quit is not slept through. */
  ghost predicate QuitSeen<F>(s: State<F>) {
    s.quit && s.loop.Polling? ==> s.eventfd > 0 || s.quitting != {}
  }

  /** The eventfd is only read when there is something to read, so the read does not block. */
  ghost predicate ReadsReady<F>(s: State<F>) {
    s.loop.Handling? && s.loop.ready ==> s.eventfd > 0
  }

  ghost predicate Inv<F>(s: State<F>) {
    InOrder(s) && Noticed(s) && QuitSeen(s) && ReadsReady(s)
  }

  lemma OrderStep<F>(s: State<F>, a: Action<F>)
    requires InOrder(s) && Enabled(s, a)
    ensures InOrder(Step(s, a))
  {
    if a.RunOne? {
      MoveOne(s.executed, s.loop.rest);
    } else if a.Push? {
      AddOne(s.executed + InHand(s.loop), s.pending, a.functor);
    }
  }

  lemma MoveOne<F>(executed: seq<F>, rest: seq<F>)
    requires rest != []
    ensures executed + rest == executed + [rest[0]] + rest[1..]
  {
  }

  lemma AddOne<F>(before: seq<F>, pending: seq<F>, functor: F)
    ensures before + pending + [functor] == before + (pending + [functor])
  {
  }

  lemma NoticedStep<F>(s: State<F>, a: Action<F>)
    requires Noticed(s) && QuitSeen(s) && Enabled(s, a)
    ensures Noticed(Step(s, a)) && QuitSeen(Step(s, a))
  {
    if a.Push? || a.SetQuit? {
      assert a.thread in Step(s, a).posting + Step(s, a).quitting;
    }
  }

  lemma StepKeeps<F>(s: State<F>, a: Action<F>)
    requires Inv(s) && Enabled(s, a)
    ensures Inv(Step(s, a))
  {
    hide InOrder, Noticed, QuitSeen;
    OrderStep(s, a);
    NoticedStep(s, a);
  }

  lemma {:induction false} RunKeeps<F>(s: State<F>, actions: seq<Action<F>>)
    requires Inv(s)
    ensures Inv(After(s, actions))
    decreases |actions|
  {
    if actions != [] {
      if Enabled(s, actions[0]) {
        StepKeeps(s, actions[0]);
        RunKeeps(Step(s, actions[0]), actions[1..]);
      } else {
        RunKeeps(s, actions[1..]);
      }
    }
  }

  /** The functors that other threads post in a run, in order. */
  function Posted<F>(s: State<F>, actions: seq<Action<F>>): seq<F>
    decreases |actions|
  {
    if actions == [] then []
    else
      var a := actions[0];
      (if a.Push? && Enabled(s, a) then [a.functor] else [])
      + Posted(if Enabled(s, a) then Step(s, a) else s, actions[1..])
  }

  /** What has been run, is about to be, and is in the queue is what was posted. */
  lemma {:induction false} PostedArrive<F>(s: State<F>, actions: seq<Action<F>>)
    ensures After(s, actions).pushed == s.pushed + Posted(s, actions)
    decreases |actions|
  {
    if actions == [] {
      assert s.pushed + [] == s.pushed;
    } else {
      var a := actions[0];
      var t := if Enabled(s, a) then Step(s, a) else s;
      PostedArrive(t, actions[1..]);
      var first := if a.Push? && Enabled(s, a) then [a.functor] else [];
      AddMany(s.pushed, first, Posted(t, actions[1..]));
    }
  }

  lemma AddMany<F>(before: seq<F>, first: seq<F>, more: seq<F>)
    ensures before + first + more == before + (first + more)
    ensures before + [] == before
  {
  }

  /** In every interleaving: functors run exactly once, in push order; and when the loop
      sleeps in poll with a request in the queue or m_quit set, the eventfd is readable
      or the thread that made the request is about to make it so. */
  lemma NoRequestLost<F>(actions: seq<Action<F>>)
    ensures var s := After(Initial<F>(), actions);
            && Posted(Initial<F>(), actions) == s.executed + InHand(s.loop) + s.pending
            && (s.pending != [] ==> s.eventfd > 0 || s.posting != {} || s.loop.Handling? || s.loop.Swapping?)
            && (s.loop.Polling? && (s.pending != [] || s.quit) ==> s.eventfd > 0 || s.posting != {} || s.quitting != {})
            && (s.loop.Handling? && s.loop.ready ==> s.eventfd > 0)
  {
    RunKeeps(Initial<F>(), actions);
    PostedArrive(Initial<F>(), actions);
  }

  /** How many writes to the eventfd there are after the last read of it in a run, and n more
      if it is not read. */
  function Unread<F>(s: State<F>, actions: seq<Action<F>>, n: nat): nat
    decreases |actions|
  {
    if actions == [] then n
    else
      var a := actions[0];
      if !Enabled(s, a) then Unread(s, actions[1..], n)
      else
        Unread(Step(s, a), actions[1..],
               if a.WritePosted? || a.WriteQuit? then n + 1
               else if a.ReadEventFd? && s.loop.ready then 0
               else n)
  }

  /** No write to the eventfd gets lost, not even one that comes between a poll that found
      it empty and the end of that turn. */
  lemma {:induction false} WritesCounted<F>(s: State<F>, actions: seq<Action<F>>)
    ensures After(s, actions).eventfd == Unread(s, actions, s.eventfd)
    decreases |actions|
  {
    if actions != [] {
      WritesCounted(if Enabled(s, actions[0]) then Step(s, actions[0]) else s, actions[1..]);
    }
  }

  lemma Next<F>(s: State<F>, a: Action<F>, rest: seq<Action<F>>)
    requires Enabled(s, a)
    ensures After(s, [a] + rest) == After(Step(s, a), rest)
  {
    assert ([a] + rest)[1..] == rest;
  }

  /** What one turn of the loop does, when nobody else moves and nothing calls quit. */
  function Runs<F>(n: nat): seq<Action<F>> {
    if n == 0 then [RunsDone, Test] else [RunOne] + Runs(n - 1)
  }

  lemma {:induction false} RunsAll<F>(s: State<F>)
    requires s.loop.Running?
    ensures After(s, Runs<F>(|s.loop.rest|))
         == s.(loop := if s.quit then Outside else Polling, executed := s.executed + s.loop.rest)
    decreases |s.loop.rest|
  {
    if s.loop.rest == [] {
      assert Runs<F>(0) == [RunsDone] + ([Test] + []);
      Next(s, RunsDone, [Test] + []);
      Next(s.(loop := Deciding), Test, []);
      assert s.executed + s.loop.rest == s.executed;
    } else {
      Next(s, RunOne, Runs<F>(|s.loop.rest| - 1));
      RunsAll(Step(s, RunOne));
      assert s.executed + s.loop.rest == (s.executed + [s.loop.rest[0]]) + s.loop.rest[1..];
    }
  }

  /** One turn of the loop empties the queue and the eventfd. */
  lemma TurnDrains<F>(s: State<F>)
    requires s.loop.Polling?
    ensures After(s, [PollReturns] + ([ReadEventFd] + ([Swap] + Runs(|s.pending|))))
         == s.(loop := if s.quit then Outside
             else Polling, pending := [], eventfd := 0, executed := s.executed + s.pending)
  {
    Next(s, PollReturns, [ReadEventFd] + ([Swap] + Runs(|s.pending|)));
    var t := Step(s, PollReturns);
    Next(t, ReadEventFd, [Swap] + Runs(|s.pending|));
    var u := Step(t, ReadEventFd);
    Next(u, Swap, Runs(|s.pending|));
    RunsAll(Step(u, Swap));
  }

  // ----- which calls of quit count -----

  /** Somebody calls quit in a run. */
  predicate QuitCalled<F>(s: State<F>, actions: seq<Action<F>>)
    decreases |actions|
  {
    actions != [] &&
    if Enabled(s, actions[0]) then
      actions[0].SetQuit? || actions[0].QuitInside? || QuitCalled(Step(s, actions[0]), actions[1..])
    else QuitCalled(s, actions[1..])
  }

  /** start is called in a run. */
  predicate StartCalled<F>(s: State<F>, actions: seq<Action<F>>)
    decreases |actions|
  {
    actions != [] &&
    if Enabled(s, actions[0]) then actions[0].Start? || StartCalled(Step(s, actions[0]), actions[1..])
    else StartCalled(s, actions[1..])
  }

  /** As long as start is not called, m_quit is set exactly if it was or somebody sets it. */
  lemma {:induction false} QuitStays<F>(s: State<F>, actions: seq<Action<F>>)
    requires !StartCalled(s, actions)
    ensures After(s, actions).quit <==> s.quit || QuitCalled(s, actions)
    decreases |actions|
  {
    if actions != [] {
      QuitStays(if Enabled(s, actions[0]) then Step(s, actions[0]) else s, actions[1..]);
    }
  }

  /** In every interleaving: when the loop tests m_quit, it ends exactly if somebody has
      called quit since start cleared it; whatever was called before is lost, wherever its
      write to the eventfd comes. */
  lemma QuitCountsFromStart<F>(s: State<F>, later: seq<Action<F>>)
    requires Enabled(s, Start) && !StartCalled(Step(s, Start), later)
    requires Enabled(After(Step(s, Start), later), Test)
    ensures Step(After(Step(s, Start), later), Test).loop.Outside? <==> QuitCalled(Step(s, Start), later)
    ensures forall quit: bool :: Step(s.(quit := quit), Start) == Step(s, Start)
  {
    QuitStays(Step(s, Start), later);
  }

  /** A quit before start is lost even if it wakes the loop only after start: two runs
      that end in poll with m_quit clear. */
  lemma QuitLost<F>(s: State<F>, thread: nat)
    requires s.loop.Outside? && Free(s, thread)
    ensures var t := After(s, [SetQuit(thread)] + ([WriteQuit(thread)] + ([Start] + ([Test] + []))));
            t.loop.Polling? && !t.quit
    ensures var t := After(s, [SetQuit(thread)] + ([Start] + ([WriteQuit(thread)] + ([Test] + []))));
            t.loop.Polling? && !t.quit
  {
    var q := Step(s, SetQuit(thread));
    Next(s, SetQuit(thread), [WriteQuit(thread)] + ([Start] + ([Test] + [])));
    Next(q, WriteQuit(thread), [Start] + ([Test] + []));
    var w := Step(q, WriteQuit(thread));
    Next(w, Start, [Test] + []);
    Next(Step(w, Start), Test, []);
    Next(s, SetQuit(thread), [Start] + ([WriteQuit(thread)] + ([Test] + [])));
    Next(q, Start, [WriteQuit(thread)] + ([Test] + []));
    var b := Step(q, Start);
    Next(b, WriteQuit(thread), [Test] + []);
    Next(Step(b, WriteQuit(thread)), Test, []);
  }
}
