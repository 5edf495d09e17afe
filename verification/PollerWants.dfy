/** What a run of calls on channels comes to, read off the calls themselves. */
module PollerWants {
  import opened Channels
  import opened Pollers

  /** These events have this bit. */
  predicate Has(events: Events, bit: Events) {
    events & bit != 0
  }

  /** A call that sets this bit of the events of fd, and one that clears it. */
  predicate Sets(call: Call, fd: int, bit: Events) {
    call.Enable? && call.fd == fd && Has(call.mask, bit)
  }

  predicate Clears(call: Call, fd: int, bit: Events) {
    call.Disable? && call.fd == fd && Has(call.mask, bit)
  }

  predicate Watches(call: Call, fd: int) {
    !call.Remove? && call.fd == fd
  }

  predicate Drops(call: Call, fd: int) {
    call.Remove? && call.fd == fd
  }

  /** Some call raises it, with none after that which lowers it; or it is up from the start
      and no call lowers it. */
  ghost predicate EndsUp(calls: seq<Call>, up: Call -> bool, down: Call -> bool, start: bool) {
    || (exists i :: 0 <= i < |calls| && up(calls[i]) && forall j | i < j < |calls| :: !down(calls[j]))
    || (start && forall j | 0 <= j < |calls| :: !down(calls[j]))
  }

  lemma EndsUpCons(calls: seq<Call>, up: Call -> bool, down: Call -> bool, start: bool)
    requires calls != []
    ensures EndsUp(calls, up, down, start)
       <==> EndsUp(calls[1..], up, down, up(calls[0]) || (start && !down(calls[0])))
  {
    var rest := calls[1..];
    var next := up(calls[0]) || (start && !down(calls[0]));
    assert forall j | 0 < j < |calls| :: calls[j] == rest[j - 1];
    if EndsUp(calls, up, down, start) {
      if i :| 0 <= i < |calls| && up(calls[i]) && forall j | i < j < |calls| :: !down(calls[j]) {
        if i > 0 {
          assert up(rest[i - 1]) && forall j | i - 1 < j < |rest| :: !down(rest[j]);
        } else {
          assert next && forall j | 0 <= j < |rest| :: !down(rest[j]);
        }
      } else {
        assert next && forall j | 0 <= j < |rest| :: !down(rest[j]);
      }
    }
    if EndsUp(rest, up, down, next) {
      if i :| 0 <= i < |rest| && up(rest[i]) && forall j | i < j < |rest| :: !down(rest[j]) {
        assert up(calls[i + 1]) && forall j | i + 1 < j < |calls| :: !down(calls[j]);
      } else if up(calls[0]) {
        assert forall j | 0 < j < |calls| :: !down(calls[j]);
      } else {
        assert forall j | 0 <= j < |calls| :: !down(calls[j]);
      }
    }
  }

  /** One bit, and no other. */
  predicate OneBit(bit: Events) {
    || bit == 1 || bit == 2 || bit == 4 || bit == 8 || bit == 0x10 || bit == 0x20 || bit == 0x40 || bit == 0x80
    || bit == 0x100 || bit == 0x200 || bit == 0x400 || bit == 0x800
    || bit == 0x1000 || bit == 0x2000 || bit == 0x4000 || bit == 0x8000
  }

  lemma OrBit(a: Events, b: Events, bit: Events)
    ensures (a | b) & bit == (a & bit) | (b & bit)
  {
  }

  lemma OrZero(a: Events, b: Events)
    ensures a | b != 0 <==> a != 0 || b != 0
  {
  }

  lemma AndNotBit(a: Events, b: Events, bit: Events)
    requires OneBit(bit)
    ensures (a & !b) & bit != 0 <==> a & bit != 0 && b & bit == 0
  {
  }

  lemma BitEnabled(events: Events, mask: Events, bit: Events)
    ensures Has(Enabled(events, mask), bit) <==> Has(mask, bit) || Has(events, bit)
  {
    OrBit(events, mask, bit);
    OrZero(events & bit, mask & bit);
    assert Enabled(events, mask) == events | mask;
  }

  lemma BitDisabled(events: Events, mask: Events, bit: Events)
    requires OneBit(bit)
    ensures Has(Disabled(events, mask), bit) <==> !Has(mask, bit) && Has(events, bit)
  {
    AndNotBit(events, mask, bit);
  }

  lemma {:induction false} EventsKept(wants: Wants, calls: seq<Call>)
    requires wants.AllowsAll(calls)
    ensures wants.AfterAll(calls).events.Keys == wants.events.Keys
    decreases |calls|
  {
    if calls != [] {
      EventsKept(wants.After(calls[0]), calls[1..]);
    }
  }

  lemma BitCalled(wants: Wants, call: Call, fd: int, bit: Events)
    requires wants.Allows(call) && OneBit(bit) && fd in wants.events
    ensures fd in wants.After(call).events
    ensures Has(wants.After(call).events[fd], bit)
       <==> Sets(call, fd, bit) || (Has(wants.events[fd], bit) && !Clears(call, fd, bit))
  {
    hide Has, OneBit, Enabled, Disabled;
    if !call.Remove? {
      BitEnabled(wants.events[call.fd], call.mask, bit);
      BitDisabled(wants.events[call.fd], call.mask, bit);
    }
  }

  lemma {:induction false} BitAfter(wants: Wants, calls: seq<Call>, fd: int, bit: Events)
    requires wants.AllowsAll(calls) && OneBit(bit) && fd in wants.events
    ensures fd in wants.AfterAll(calls).events
    ensures Has(wants.AfterAll(calls).events[fd], bit)
       <==> EndsUp(calls, c => Sets(c, fd, bit), c => Clears(c, fd, bit), Has(wants.events[fd], bit))
    decreases |calls|
  {
    hide Has, OneBit, Wants.After;
    if calls != [] {
      BitCalled(wants, calls[0], fd, bit);
      BitAfter(wants.After(calls[0]), calls[1..], fd, bit);
      EndsUpCons(calls, c => Sets(c, fd, bit), c => Clears(c, fd, bit), Has(wants.events[fd], bit));
    }
  }

  lemma {:induction false} WatchedAfter(wants: Wants, calls: seq<Call>, fd: int)
    requires wants.AllowsAll(calls)
    ensures fd in wants.AfterAll(calls).watched
       <==> EndsUp(calls, c => Watches(c, fd), c => Drops(c, fd), fd in wants.watched)
    decreases |calls|
  {
    if calls != [] {
      WatchedAfter(wants.After(calls[0]), calls[1..], fd);
      EndsUpCons(calls, c => Watches(c, fd), c => Drops(c, fd), fd in wants.watched);
    }
  }

  /** Some enabling or disabling call on fd comes after its last removal; or it is watched
      at the start, and not removed. */
  ghost predicate EndsWatched(calls: seq<Call>, fd: int, start: bool) {
    || (exists i :: 0 <= i < |calls| && !calls[i].Remove? && calls[i].fd == fd
                    && forall j | i < j < |calls| :: calls[j] != Remove(fd))
    || (start && forall j | 0 <= j < |calls| :: calls[j] != Remove(fd))
  }

  /** The last call on fd that enables or disables this bit enables it; or there is none,
      and the bit is set at the start. */
  ghost predicate EndsSet(calls: seq<Call>, fd: int, bit: Events, start: bool) {
    || (exists i :: 0 <= i < |calls| && calls[i].Enable? && calls[i].fd == fd && Has(calls[i].mask, bit)
                    && forall j | i < j < |calls| ::
                         !(calls[j].Disable? && calls[j].fd == fd && Has(calls[j].mask, bit)))
    || (start && forall j | 0 <= j < |calls| :: !(calls[j].Disable? && calls[j].fd == fd && Has(calls[j].mask, bit)))
  }

  lemma EndsWatchedIs(calls: seq<Call>, fd: int, start: bool)
    ensures EndsUp(calls, c => Watches(c, fd), c => Drops(c, fd), start) <==> EndsWatched(calls, fd, start)
  {
  }

  lemma EndsSetIs(calls: seq<Call>, fd: int, bit: Events, start: bool)
    ensures EndsUp(calls, c => Sets(c, fd, bit), c => Clears(c, fd, bit), start) <==> EndsSet(calls, fd, bit, start)
  {
    hide Has;
  }

  /** In every run, the calls alone say what is asked for at its end: which file descriptors
      are watched, and with which events, bit by bit. */
  lemma AskedAfter(wants: Wants, calls: seq<Call>, fd: int, bit: Events)
    requires wants.AllowsAll(calls) && OneBit(bit) && fd in wants.events
    ensures var asked := wants.AfterAll(calls).Asked();
            && (fd in asked <==> EndsWatched(calls, fd, fd in wants.watched))
            && (fd in asked ==> (Has(asked[fd], bit) <==> EndsSet(calls, fd, bit, Has(wants.events[fd], bit))))
  {
    hide Has, OneBit, EndsUp, EndsWatched, EndsSet;
    WatchedAfter(wants, calls, fd);
    EventsKept(wants, calls);
    BitAfter(wants, calls, fd, bit);
    EndsWatchedIs(calls, fd, fd in wants.watched);
    EndsSetIs(calls, fd, bit, Has(wants.events[fd], bit));
  }

  /** This is asked for after these calls, if this was wanted before them. */
  ghost predicate AskedIs(asked: map<int, Events>, calls: seq<Call>, wants: Wants) {
    && asked.Keys <= wants.events.Keys
    && forall fd, bit | fd in wants.events && OneBit(bit) ::
         && (fd in asked <==> EndsWatched(calls, fd, fd in wants.watched))
         && (fd in asked ==> (Has(asked[fd], bit) <==> EndsSet(calls, fd, bit, Has(wants.events[fd], bit))))
  }

  lemma AllAsked(wants: Wants, calls: seq<Call>)
    requires wants.AllowsAll(calls)
    ensures AskedIs(wants.AfterAll(calls).Asked(), calls, wants)
  {
    hide Has, OneBit, EndsWatched, EndsSet;
    EventsKept(wants, calls);
    var asked := wants.AfterAll(calls).Asked();
    forall fd, bit | fd in wants.events && OneBit(bit)
      ensures fd in asked <==> EndsWatched(calls, fd, fd in wants.watched)
      ensures fd in asked ==> (Has(asked[fd], bit) <==> EndsSet(calls, fd, bit, Has(wants.events[fd], bit)))
    {
      AskedAfter(wants, calls, fd, bit);
    }
  }
}
