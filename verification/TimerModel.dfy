/** The timer scheduler as a machine of small steps.

    One step is one call made by the loop thread (or by a callback it is running),
    one call made by another thread, or the kernel's timer going off; any of these
    may follow any other.  Freed memory can be handed out again at once.  Reading or
    freeing memory that is not allocated, and every assertion of the source that
    does not hold, raises the `fault` flag instead of being forbidden.  The read with
    which add_timer ends on another thread can come after the timer was freed; it is
    recorded in `late` instead, and the run goes on. */
module TimerModel {
  import opened Timestamps
  import opened TimerQueue
  import opened Options

  /** A Timer object; its callback shows up as the steps made while it runs. */
  datatype Timer = Timer(expiration: int, interval: real, repeat: bool, sequence: int)

  /** What a timer was created with, kept for ever under its sequence number. */
  datatype Birth = Birth(timer: Addr, when: int, interval: real)

  /** The kernel's one-shot timer: the time it is set for and the clock reading it
      was set at, and whether an expiry is waiting to be read. */
  datatype Deadline = Deadline(at: int, reading: int)
  datatype TimerFd = TimerFd(armed: Option<Deadline>, readable: bool)

  /** A request from another thread, waiting for the loop thread. */
  datatype Functor = InsertOf(timer: Addr) | CancelOf(id: Id)

  /** Where handle_event is: not running; about to run callback number `next` of the
      batch; or in reset, with the rest of the batch still to be re-inserted or freed. */
  datatype Phase = Idle | Calling(next: nat) | Resetting

  /** One run of a callback. */
  datatype Run = Run(sequence: int, expiration: int, now: int, round: nat)

  datatype State = State(
    heap: map<Addr, Timer>,       // the Timer objects that are allocated
    created: int,                 // Timer::m_sNumCreated
    timers: seq<Entry>,           // m_timers
    active: set<Id>,              // m_activeTimers
    canceling: set<Id>,           // m_cancelingTimers
    calling: bool,                // m_callingExpiredTimer
    held: set<Addr>,              // timers another thread has created but not posted yet
    returning: set<Id>,           // timers another thread has posted, and whose sequence it has yet to read
    mail: seq<Functor>,           // the functors taken out but not run yet, then m_pendingFunctors
    fd: TimerFd,                  // m_timerfd
    phase: Phase,                 // the local state of handle_event: where it is,
    batch: seq<Entry>,            //   the expired timers,
    now: int,                     //   and the clock reading it started with
    fault: bool,
    births: map<int, Birth>,      // history: every timer ever created, by sequence,
    freed: set<int>,              //   the sequences of those freed,
    cancelled: set<Id>,           //   the ids that cancel_timer has processed,
    late: set<int>,               //   the sequences of those freed before the thread that posted them read theirs,
    log: seq<Run>,                //   all callback runs, in order,
    round: nat)                   //   and the number of handle_event calls

  const INITIAL: State := State(
    map[], 0, [], {}, {}, false, {}, {}, [], TimerFd(None, false), Idle, [], 0,
    false, map[], {}, {}, {}, [], 0)

  function Check(s: State, ok: bool): State {
    if ok then s else s.(fault := true)
  }

  // ----- Timer.cpp -----

  function Allocate(s: State, timer: Addr, when: int, interval: real): State {
    var sequence := s.created + 1;
    s.(heap := s.heap[timer := Timer(when, interval, interval > 0.0, sequence)],
       created := sequence,
       births := s.births[sequence := Birth(timer, when, interval)])
  }

  function Free(s: State, timer: Addr): State {
    if timer in s.heap then
      s.(heap := s.heap - {timer}, freed := s.freed + {s.heap[timer].sequence})
    else
      s.(fault := true)
  }

  /** What reading through a pointer gives; the arbitrary value is only ever
      used by a step that raises `fault`. */
  function Deref(s: State, timer: Addr): Timer {
    if timer in s.heap then s.heap[timer] else Timer(0, 0.0, false, 0)
  }

  function Restarted(t: Timer, now: int): Timer {
    t.(expiration := if t.repeat then AddTime(now, t.interval) else INVALID)
  }

  // ----- the kernel timer -----

  /** The seconds and nanoseconds that get_time_from_now computes for a timer set
      at the clock reading given. */
  function TimeFromNow(when: int, reading: int): (ts: (int, int)) {
    var microseconds := if when - reading < 100 then 100 else when - reading;
    (Quotient(microseconds, MICROS_PER_SECOND),
     (microseconds - MICROS_PER_SECOND * Quotient(microseconds, MICROS_PER_SECOND)) * 1000)
  }

  /** timerfd_settime with a relative time: zero disarms, anything else arms;
      an expiry not read yet is forgotten. */
  function SetTime(ts: (int, int), reading: int): TimerFd {
    if ts == (0, 0) then TimerFd(None, false)
    else TimerFd(Some(Deadline(reading + ts.0 * MICROS_PER_SECOND + ts.1 / 1000, reading)), false)
  }

  function ResetTimerFd(when: int, reading: int): TimerFd {
    SetTime(TimeFromNow(when, reading), reading)
  }

  // ----- TimerScheduler.cpp -----

  function SizesAgree(s: State): bool {
    |s.timers| == |s.active|
  }

  /** The timer that an entry of a set points to, as the id it is known by. */
  function IdOf(s: State, timer: Addr): Id {
    Id(timer, Deref(s, timer).sequence)
  }

  function InsertTimer(s: State, timer: Addr, reading: int): (t: State)
    requires Sorted(s.timers)
    ensures Sorted(t.timers)
    ensures t == s.(fd := t.fd, timers := t.timers, active := t.active, fault := t.fault)
  {
    var when := Deref(s, timer).expiration;
    var id := IdOf(s, timer);
    Check(
      s.(fd := if s.timers == [] || when < s.timers[0].when then ResetTimerFd(when, reading) else s.fd,
         timers := Insert(s.timers, Entry(when, timer)),
         active := s.active + {id}),
      timer in s.heap && SizesAgree(s) && !Contains(s.timers, Entry(when, timer)) && id !in s.active)
  }

  function CancelTimer(s: State, id: Id): (t: State)
    requires Sorted(s.timers)
    ensures Sorted(t.timers)
    ensures t == s.(heap := t.heap, timers := t.timers, active := t.active, canceling := t.canceling, fault := t.fault,
                   freed := t.freed, cancelled := t.cancelled)
    ensures t.heap == s.heap || (id in s.active && t.heap == s.heap - {id.timer})
    ensures s.freed <= t.freed && s.canceling <= t.canceling
  {
    var u := Check(s.(cancelled := s.cancelled + {id}), SizesAgree(s));
    if id in s.active then
      Free(u.(timers := Erase(s.timers, Entry(Deref(s, id.timer).expiration, id.timer)),
              active := s.active - {id}), id.timer)
    else if s.calling then u.(canceling := s.canceling + {id})
    else u
  }

  function AddTimer(s: State, timer: Addr, when: int, interval: real, reading: int): (t: State)
    requires Sorted(s.timers)
    ensures Sorted(t.timers)
    ensures t.freed == s.freed && t.births == s.births[s.created + 1 := Birth(timer, when, interval)]
    ensures t == s.(heap := t.heap, created := t.created, timers := t.timers, active := t.active, fd := t.fd,
            fault := t.fault,
                   births := t.births)
  {
    InsertTimer(Allocate(s, timer, when, interval), timer, reading)
  }

  /** The timers that some entries point to, as the ids they are known by. */
  function IdsIn(heap: map<Addr, Timer>, entries: seq<Entry>): set<Id> {
    set e | e in entries && e.timer in heap :: Id(e.timer, heap[e.timer].sequence)
  }

  /** handle_event up to its first callback: read the kernel timer, take out what
      has expired. */
  function TakeExpired(s: State, now: int): (t: State)
    requires Sorted(s.timers)
    ensures Sorted(t.timers)
    ensures t == s.(timers := t.timers, active := t.active, canceling := {}, calling := true,
            fd := TimerFd(s.fd.armed, false),
                   phase := Calling(0), batch := t.batch, now := now, fault := t.fault, round := s.round + 1)
  {
    var end := LowerBound(s.timers, Entry(now, ADDR_MAX));
    var expired := s.timers[..end];
    Check(
      s.(fd := TimerFd(s.fd.armed, false),
         timers := s.timers[end..],
         active := s.active - IdsIn(s.heap, expired),
         calling := true, canceling := {},
         phase := Calling(0), batch := expired, now := now, round := s.round + 1),
      SizesAgree(s) && (end == |s.timers| || now < s.timers[end].when)
      && forall e | e in expired :: e.timer in s.heap)
  }

  function RunNext(s: State): (t: State)
    requires s.phase.Calling? && s.phase.next < |s.batch|
    ensures t == s.(phase := Calling(s.phase.next + 1), log := t.log, fault := t.fault)
  {
    var e := s.batch[s.phase.next];
    Check(s.(phase := Calling(s.phase.next + 1),
             log := s.log + [Run(Deref(s, e.timer).sequence, Deref(s, e.timer).expiration, s.now, s.round)]),
          e.timer in s.heap)
  }

  /** One turn of the loop in reset. */
  function ResetOne(s: State, reading: int): (t: State)
    requires Sorted(s.timers) && s.batch != []
    ensures Sorted(t.timers)
    ensures t == s.(heap := t.heap, timers := t.timers, active := t.active, batch := s.batch[1..], fd := t.fd,
            fault := t.fault,
                   freed := t.freed)
    ensures s.freed <= t.freed
  {
    var timer := s.batch[0].timer;
    var u := Check(s.(batch := s.batch[1..]), timer in s.heap);
    if Deref(s, timer).repeat && IdOf(s, timer) !in s.canceling then
      InsertTimer(u.(heap := s.heap[timer := Restarted(Deref(s, timer), s.now)]), timer, reading)
    else
      Free(u, timer)
  }

  /** The end of reset: set the kernel timer for the earliest timer left. */
  function Rearm(s: State, reading: int): (t: State)
    ensures t == s.(phase := Idle, fd := t.fd, fault := t.fault)
  {
    var newExpire := if s.timers == [] then INVALID else Deref(s, s.timers[0].timer).expiration;
    Check(s.(phase := Idle, fd := if IsValid(newExpire) then ResetTimerFd(newExpire, reading) else s.fd),
          s.timers == [] || s.timers[0].timer in s.heap)
  }

  /** handle_pending_functor, for the functor that is first. */
  function RunFunctor(s: State, reading: int): (t: State)
    requires Sorted(s.timers) && s.mail != []
    ensures Sorted(t.timers)
    ensures s.freed <= t.freed
    ensures t == s.(mail := s.mail[1..], heap := t.heap, timers := t.timers, active := t.active,
            canceling := t.canceling, fd := t.fd,
                   fault := t.fault, freed := t.freed, cancelled := t.cancelled)
  {
    var u := s.(mail := s.mail[1..]);
    match s.mail[0]
    case InsertOf(timer) => InsertTimer(u, timer, reading)
    case CancelOf(id) => CancelTimer(u, id)
  }

  // ----- steps and runs -----

  datatype Action =
    | Add(timer: Addr, when: int, interval: real, reading: int)  // add_timer on the loop thread
    | Cancel(id: Id)                                             // cancel on the loop thread
    | RemoteNew(timer: Addr, when: int, interval: real)          // add_timer on another thread: the timer is created,
    | RemotePost(timer: Addr)                                    //   then posted,
    | RemoteReturn(id: Id)                                       //   and then its sequence is read, to be returned
    | RemoteCancel(id: Id)                                       // cancel on another thread
    | Fire                                                       // the kernel timer expires
    | Begin(now: int)                                            // handle_event is entered
    | Call                                                       // the next callback is entered
    | EndCalls                                                   // the last callback has returned
    | Reset(reading: int)                                        // reset handles one entry
    | Finish(reading: int)                                       // reset and handle_event end
    | Dispatch(reading: int)                                     // the next pending functor runs

  /** The loop thread's own code, or a callback, can call the scheduler. */
  predicate LoopThreadMayCall(s: State) {
    s.phase.Idle? || (s.phase.Calling? && s.phase.next > 0)
  }

  /** The timer that another thread created is still there for it to read. */
  predicate ReadsOwn(s: State, id: Id) {
    id.timer in s.heap && IdOf(s, id.timer) == id
  }

  /** An address that operator new may return. */
  predicate Allocatable(s: State, timer: Addr) {
    timer !in s.heap && timer < ADDR_MAX
  }

  predicate Enabled(s: State, a: Action) {
    match a
    case Add(timer, _, _, _) => LoopThreadMayCall(s) && Allocatable(s, timer)
    case Cancel(_) => LoopThreadMayCall(s)
    case RemoteNew(timer, _, _) => Allocatable(s, timer)
    case RemotePost(timer) => timer in s.held
    case RemoteReturn(id) => id in s.returning
    case RemoteCancel(_) => true
    case Fire => s.fd.armed.Some?
    case Begin(now) => s.phase.Idle? && s.fd.readable && now >= 0
    case Call => s.phase.Calling? && s.phase.next < |s.batch|
    case EndCalls => s.phase.Calling? && s.phase.next == |s.batch|
    case Reset(_) => s.phase.Resetting? && s.batch != []
    case Finish(_) => s.phase.Resetting? && s.batch == []
    case Dispatch(_) => s.phase.Idle? && s.mail != []
  }

  function Step(s: State, a: Action): (t: State)
    requires Sorted(s.timers) && Enabled(s, a)
    ensures Sorted(t.timers)
  {
    match a
    case Add(timer, when, interval, reading) => AddTimer(s, timer, when, interval, reading)
    case Cancel(id) => CancelTimer(s, id)
    case RemoteNew(timer, when, interval) =>
      Allocate(s, timer, when, interval).(held := s.held + {timer})
    case RemotePost(timer) =>
      s.(held := s.held - {timer}, returning := s.returning + {IdOf(s, timer)}, mail := s.mail + [InsertOf(timer)])
    case RemoteReturn(id) =>
      s.(returning := s.returning - {id}, late := if ReadsOwn(s, id) then s.late else s.late + {id.sequence})
    case RemoteCancel(id) => s.(mail := s.mail + [CancelOf(id)])
    case Fire => s.(fd := TimerFd(None, true))
    case Begin(now) => TakeExpired(s, now)
    case Call => RunNext(s)
    case EndCalls => s.(calling := false, phase := Resetting)
    case Reset(reading) => ResetOne(s, reading)
    case Finish(reading) => Rearm(s, reading)
    case Dispatch(reading) => RunFunctor(s, reading)
  }

  /** The state after some actions; one that cannot happen when its turn comes does not. */
  function After(s: State, actions: seq<Action>): (t: State)
    requires Sorted(s.timers)
    ensures Sorted(t.timers)
    decreases |actions|
  {
    if actions == [] then s
    else if Enabled(s, actions[0]) then
      After(Step(s, actions[0]), actions[1..])
    else After(s, actions[1..])
  }

  lemma {:induction false} AfterBoth(s: State, a: seq<Action>, b: seq<Action>)
    requires Sorted(s.timers)
    ensures After(s, a + b) == After(After(s, a), b)
    decreases |a|
  {
    if a == [] {
      assert a + b == b;
    } else {
      assert (a + b)[1..] == a[1..] + b;
      if Enabled(s, a[0]) {
        AfterBoth(Step(s, a[0]), a[1..], b);
      } else {
        AfterBoth(s, a[1..], b);
      }
    }
  }

  lemma AfterOne(s: State, a: Action)
    requires Sorted(s.timers)
    ensures After(s, [a]) == if Enabled(s, a) then Step(s, a) else s
  {
    assert [a][1..] == [];
  }

  lemma Next(s: State, a: Action, rest: seq<Action>)
    requires Sorted(s.timers) && Enabled(s, a)
    ensures After(s, [a] + rest) == After(Step(s, a), rest)
  {
    assert ([a] + rest)[1..] == rest;
  }
}
