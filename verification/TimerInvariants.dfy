/** What every step of the timer machine keeps.  Each part of the invariant is stated
    over the fields it needs, so that a step that leaves those alone keeps it for free. */
module TimerInvariants {
  import opened Timestamps
  import opened TimerQueue
  import opened Options
  import opened TimerModel

  // ----- the two indexes agree -----

  ghost predicate IndexOk(heap: map<Addr, Timer>, timers: seq<Entry>, active: set<Id>) {
    && Sorted(timers)
    && (forall e | e in timers ::
          e.timer in heap && heap[e.timer].expiration == e.when && Id(e.timer, heap[e.timer].sequence) in active)
    && (forall id | id in active ::
          id.timer in heap && heap[id.timer].sequence == id.sequence
              && Entry(heap[id.timer].expiration, id.timer) in timers)
  }

  lemma {:induction false} SameSize(heap: map<Addr, Timer>, timers: seq<Entry>, active: set<Id>)
    requires IndexOk(heap, timers, active)
    ensures |timers| == |active|
    decreases |timers|
  {
    if timers == [] {
      assert forall id :: id !in active;
      assert active == {};
    } else {
      var n := |timers| - 1;
      var e := timers[n];
      assert e in timers;
      var id := Id(e.timer, heap[e.timer].sequence);
      var rest := timers[..n];
      assert timers == rest + [e];
      assert forall x | x in rest :: x in timers && x != e;
      SameSize(heap, rest, active - {id});
    }
  }

  // ----- every allocated timer has exactly one owner -----

  predicate Active(heap: map<Addr, Timer>, active: set<Id>, a: Addr)
    requires a in heap
  {
    Id(a, heap[a].sequence) in active
  }

  predicate Flying(heap: map<Addr, Timer>, batch: seq<Entry>, a: Addr)
    requires a in heap
  {
    Entry(heap[a].expiration, a) in batch
  }

  predicate Posted(mail: seq<Functor>, a: Addr) {
    InsertOf(a) in mail
  }

  predicate ExactlyOne(p: bool, q: bool, r: bool, h: bool) {
    (p || q || r || h) && !(p && q) && !(p && r) && !(p && h) && !(q && r) && !(q && h) && !(r && h)
  }

  ghost predicate OwnOk(heap: map<Addr, Timer>, active: set<Id>, batch: seq<Entry>, mail: seq<Functor>,
                        held: set<Addr>) {
    && (forall a | a in heap ::
          ExactlyOne(Active(heap, active, a), Flying(heap, batch, a), Posted(mail, a), a in held))
    && Sorted(batch)
    && (forall e | e in batch :: e.timer in heap && e.when == heap[e.timer].expiration)
    && (forall a: Addr | Posted(mail, a) :: a in heap)
    && (forall i, j | 0 <= i < j < |mail| :: mail[i].InsertOf? ==> mail[i] != mail[j])
    && held <= heap.Keys
  }

  // ----- sequence numbers are never reused, and a timer is allocated until it is freed -----

  predicate Live(heap: map<Addr, Timer>, births: map<int, Birth>, q: int)
    requires q in births
  {
    births[q].timer in heap && heap[births[q].timer].sequence == q
  }

  ghost predicate SeqOk(heap: map<Addr, Timer>, births: map<int, Birth>, freed: set<int>, created: int) {
    && created >= 0
    && (forall a | a in heap ::
          && a < ADDR_MAX
          && heap[a].sequence in births
          && births[heap[a].sequence].timer == a
          && births[heap[a].sequence].interval == heap[a].interval
          && heap[a].repeat == (heap[a].interval > 0.0))
    && (forall q :: q in births <==> 1 <= q <= created)
    && freed <= births.Keys
    && (forall q | q in births :: q in freed <==> !Live(heap, births, q))
  }

  // ----- a timer is only freed for a reason -----

  function Runs(log: seq<Run>, q: int): nat {
    if log == [] then 0
    else Runs(log[..|log| - 1], q) + if log[|log| - 1].sequence == q then 1 else 0
  }

  lemma RunsSnoc(log: seq<Run>, r: Run, q: int)
    ensures Runs(log + [r], q) == Runs(log, q) + if r.sequence == q then 1 else 0
  {
    assert (log + [r])[..|log|] == log;
  }

  lemma {:induction false} RunsPositive(log: seq<Run>, q: int)
    ensures Runs(log, q) > 0 <==> exists i :: 0 <= i < |log| && log[i].sequence == q
  {
    if log != [] {
      var n := |log| - 1;
      RunsPositive(log[..n], q);
      if log[n].sequence != q && Runs(log, q) > 0 {
        var i :| 0 <= i < n && log[..n][i].sequence == q;
        assert log[i].sequence == q;
      }
      if i :| 0 <= i < |log| && log[i].sequence == q {
        assert i < n ==> log[..n][i].sequence == q;
      }
    }
  }

  ghost predicate JustOk(births: map<int, Birth>, freed: set<int>, cancelled: set<Id>, canceling: set<Id>,
                         log: seq<Run>) {
    && canceling <= cancelled
    && (forall q | q in freed && q in births ::
          || Id(births[q].timer, q) in cancelled
          || (births[q].interval <= 0.0 && Runs(log, q) > 0))
  }

  // ----- callbacks: never early, in order, one-shot once, repeats spaced -----

  /** The entries of the batch whose callbacks have been entered. */
  function Called(batch: seq<Entry>, phase: Phase): seq<Entry> {
    match phase
    case Idle => []
    case Calling(next) => if next <= |batch| then batch[..next] else batch
    case Resetting => batch
  }

  /** The callbacks of the batch that have been entered are in the log. */
  ghost predicate RanOk(heap: map<Addr, Timer>, called: seq<Entry>, log: seq<Run>) {
    forall e | e in called :: e.timer in heap && Runs(log, heap[e.timer].sequence) > 0
  }

  /** No run of q between the positions given (the bounds excluded). */
  ghost predicate NoRun(log: seq<Run>, q: int, from: int, to: int) {
    forall k | from < k < to && 0 <= k < |log| :: log[k].sequence != q
  }

  /** Run number i is accounted for: its timer is gone; or it is in the batch, and its
      last run is in this batch too; or it repeats, and is due again no sooner than its
      interval after the batch of that run, and exactly then if that run was its last. */
  ghost predicate Settled(heap: map<Addr, Timer>, births: map<int, Birth>, called: seq<Entry>, now: int,
                          log: seq<Run>, i: nat)
    requires i < |log|
  {
    var q := log[i].sequence;
    && q in births
    && (Live(heap, births, q) ==>
          var t := heap[births[q].timer];
          if Entry(t.expiration, births[q].timer) in called then
            && (log[i].now == now || (t.repeat && t.expiration >= log[i].now + Micros(t.interval)))
            && (NoRun(log, q, i, |log|) ==> log[i].now == now)
          else
            && t.repeat && t.expiration >= log[i].now + Micros(t.interval)
            && (NoRun(log, q, i, |log|) ==> t.expiration == log[i].now + Micros(t.interval)))
  }

  /** Only repeating timers run again; a run is due no sooner than the interval after
      any earlier batch that ran the timer, and exactly then for the one just before. */
  ghost predicate Spaced(births: map<int, Birth>, log: seq<Run>) {
    forall i, j | 0 <= i < j < |log| && log[i].sequence == log[j].sequence && log[i].sequence in births ::
      && births[log[i].sequence].interval > 0.0
      && log[j].expiration >= log[i].now + Micros(births[log[i].sequence].interval)
      && (NoRun(log, log[i].sequence, i, j) ==>
            log[j].expiration == log[i].now + Micros(births[log[i].sequence].interval))
  }

  /** A timer's first run is due when add_timer was told. */
  ghost predicate FirstOk(heap: map<Addr, Timer>, births: map<int, Birth>, log: seq<Run>) {
    && (forall a | a in heap && heap[a].sequence in births && NoRun(log, heap[a].sequence, -1, |log|) ::
          heap[a].expiration == births[heap[a].sequence].when)
    && (forall i | 0 <= i < |log| && log[i].sequence in births && NoRun(log, log[i].sequence, -1, i) ::
          log[i].expiration == births[log[i].sequence].when)
  }

  ghost predicate InOrder(log: seq<Run>) {
    forall i, j | 0 <= i < j < |log| && log[i].round == log[j].round :: log[i].expiration <= log[j].expiration
  }

  ghost predicate NeverEarly(log: seq<Run>) {
    forall i | 0 <= i < |log| :: log[i].expiration <= log[i].now
  }

  ghost predicate LogOk(heap: map<Addr, Timer>, births: map<int, Birth>, batch: seq<Entry>, phase: Phase, now: int,
                        log: seq<Run>) {
    && Spaced(births, log)
    && (forall i | 0 <= i < |log| :: Settled(heap, births, Called(batch, phase), now, log, i))
  }

  ghost predicate OrderOk(batch: seq<Entry>, phase: Phase, now: int, log: seq<Run>, round: nat) {
    && NeverEarly(log)
    && InOrder(log)
    && (forall i | 0 <= i < |batch| :: batch[i].when <= now)
    && (forall i | 0 <= i < |log| ::
          && log[i].round <= round
          && (log[i].round == round && phase.Calling? ==>
                forall k | phase.next <= k < |batch| :: log[i].expiration <= batch[k].when))
  }

  // ----- the kernel timer -----

  function Max(a: int, b: int): int {
    if a >= b then a else b
  }

  /** An expiry is waiting to be read, or the kernel timer is set for a time no later
      than `when`, or 100us after the clock reading it was set at. */
  predicate Served(fd: TimerFd, when: int) {
    fd.readable || (fd.armed.Some? && fd.armed.value.at <= Max(when, fd.armed.value.reading + 100))
  }

  ghost predicate FdOk(fd: TimerFd, timers: seq<Entry>, phase: Phase, now: int) {
    timers != [] && (phase.Idle? || timers[0].when <= now) ==> Served(fd, timers[0].when)
  }

  // ----- all of it -----

  ghost predicate PhaseOk(phase: Phase, batch: seq<Entry>, calling: bool, now: int) {
    && calling == phase.Calling?
    && (phase.Idle? ==> batch == [])
    && (phase.Calling? ==> phase.next <= |batch|)
    && now >= 0
  }

  ghost predicate Inv(s: State) {
    && !s.fault
    && IndexOk(s.heap, s.timers, s.active)
    && OwnOk(s.heap, s.active, s.batch, s.mail, s.held)
    && SeqOk(s.heap, s.births, s.freed, s.created)
    && JustOk(s.births, s.freed, s.cancelled, s.canceling, s.log)
    && RanOk(s.heap, Called(s.batch, s.phase), s.log)
    && LogOk(s.heap, s.births, s.batch, s.phase, s.now, s.log)
    && FirstOk(s.heap, s.births, s.log)
    && OrderOk(s.batch, s.phase, s.now, s.log, s.round)
    && FdOk(s.fd, s.timers, s.phase, s.now)
    && PhaseOk(s.phase, s.batch, s.calling, s.now)
  }

  lemma InitialInv()
    ensures Inv(INITIAL)
  {
  }

  // ----- the kernel timer, in arithmetic -----

  /** The clamp to 100us keeps the value programmed away from the one that disarms,
      and seconds and nanoseconds lose nothing. */
  lemma ArmedFor(when: int, reading: int)
    ensures ResetTimerFd(when, reading) == TimerFd(Some(Deadline(Max(when, reading + 100), reading)), false)
  {
  }
}
