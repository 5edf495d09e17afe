/** The epoll(4) back end: the kernel keeps the interest set, and fills an event list that
    is doubled whenever it was filled to the end. */
module EPollPollers {
  import opened Channels
  import opened Pollers
  import opened Options

  const KNEW := -1
  const KADDED := 1
  const EVENT_LIST_SIZE: nat := 16

  datatype Event = Event(channel: Channel, revents: int)

  datatype Op = Add | Mod | Del

  // ----- the kernel -----

  /** The interest set after epoll_ctl(2); None when it refuses. */
  function Controlled(interest: map<int, Interest>, op: Op, channel: Channel,
                      events: Events): (r: Option<map<int, Interest>>)
    ensures r.None? <==> (channel.fd in interest) == op.Add?
  {
    match op
    case Add => if channel.fd in interest then None else Some(interest[channel.fd := Interest(channel, events)])
    case Mod => if channel.fd in interest then Some(interest[channel.fd := Interest(channel, events)]) else None
    case Del => if channel.fd in interest then Some(interest - {channel.fd}) else None
  }

  /** What epoll_wait(2) may write into an event list of some size: for as many of the
      ready file descriptors as it holds, in any order, the channel and what happened. */
  ghost predicate Waited(interest: map<int, Interest>, ready: map<int, int>, size: nat, events: seq<Event>) {
    Truthful(interest, ready, events) && Distinct(FdsIn(events))
        && |events| == Least(|interest.Keys * ready.Keys|, size)
  }

  ghost predicate Truthful(interest: map<int, Interest>, ready: map<int, int>, events: seq<Event>) {
    forall e | e in events ::
      var fd := e.channel.fd;
      fd in interest && fd in ready && interest[fd].channel == e.channel && ready[fd] == e.revents
  }

  function Least(a: nat, b: nat): nat {
    if a <= b then a else b
  }

  /** What happened to some of the file descriptors. */
  function Restricted(ready: map<int, int>, fds: set<int>): map<int, int> {
    map fd | fd in ready && fd in fds :: ready[fd]
  }

  // ----- what is made of the event list -----

  function Mark(revents: map<int, int>, event: Event): map<int, int> {
    revents[event.channel.fd := event.revents]
  }

  function Marked(revents: map<int, int>, events: seq<Event>): map<int, int> {
    if events == [] then revents else Mark(Marked(revents, events[..|events| - 1]), events[|events| - 1])
  }

  lemma MarkedSplit(revents: map<int, int>, events: seq<Event>, i: nat)
    requires i < |events|
    ensures Marked(revents, events[..i + 1]) == Mark(Marked(revents, events[..i]), events[i])
  {
    assert events[..i + 1][..i] == events[..i];
  }

  /** The events name channels that are stored. */
  ghost predicate Named(store: map<int, Channel>, events: seq<Event>) {
    forall e | e in events :: e.channel.fd in store && store[e.channel.fd] == e.channel
  }

  function FdsIn(events: seq<Event>): seq<int> {
    seq(|events|, i requires 0 <= i < |events| => events[i].channel.fd)
  }

  lemma {:induction false} TruthfulMarked(revents: map<int, int>, interest: map<int, Interest>, ready: map<int, int>,
                                          events: seq<Event>, n: nat)
    requires Truthful(interest, ready, events) && revents.Keys == interest.Keys && n <= |events|
    ensures Marked(revents, events[..n]) == Told(revents, Restricted(ready, Members(FdsIn(events[..n]))))
  {
    if n == 0 {
      assert Told(revents, Restricted(ready, {})) == revents;
      assert Members(FdsIn(events[..0])) == {};
    } else {
      TruthfulMarked(revents, interest, ready, events, n - 1);
      MarkedSplit(revents, events, n - 1);
      var fd := events[n - 1].channel.fd;
      assert events[n - 1] in events;
      assert FdsIn(events[..n]) == FdsIn(events[..n - 1]) + [fd];
      TellOneMore(revents, ready, Members(FdsIn(events[..n - 1])), fd);
      assert Members(FdsIn(events[..n])) == Members(FdsIn(events[..n - 1])) + {fd};
    }
  }

  lemma TellOneMore(revents: map<int, int>, ready: map<int, int>, fds: set<int>, fd: int)
    requires fd in revents && fd in ready
    ensures Told(revents, Restricted(ready, fds + {fd})) == Told(revents, Restricted(ready, fds))[fd := ready[fd]]
  {
  }

  lemma SubsetOfEqualSize(a: set<int>, b: set<int>)
    requires a <= b && |a| == |b|
    ensures a == b
  {
    assert |b - a| == |b| - |a|;
  }

  lemma WaitedFits(interest: map<int, Interest>, ready: map<int, int>, size: nat, events: seq<Event>)
    requires Waited(interest, ready, size, events)
    ensures Truthful(interest, ready, events) && |events| <= size && (ready == map[] ==> events == [])
  {
  }

  lemma TruthfulNamed(store: map<int, Channel>, interest: map<int, Interest>, ready: map<int, int>, events: seq<Event>)
    requires Truthful(interest, ready, events) && store.Keys == interest.Keys
    requires forall fd | fd in store :: interest[fd].channel == store[fd]
    ensures Named(store, events)
  {
  }

  /** When the event list is large enough, everything that must be reported is. */
  lemma AllReported(store: map<int, Channel>, interest: map<int, Interest>, ready: map<int, int>, size: nat,
                    events: seq<Event>)
    requires Waited(interest, ready, size, events) && |store.Keys * ready.Keys| <= size
    requires store.Keys == interest.Keys && forall fd | fd in store :: store[fd].fd == fd
    ensures Reported(ChannelsOf(store, FdsIn(events)), store, ready)
    ensures Members(FdsIn(events)) == store.Keys * ready.Keys
  {
    var fds := FdsIn(events);
    forall i | 0 <= i < |fds|
      ensures fds[i] in store && fds[i] in ready
    {
      assert events[i] in events;
    }
    DistinctCount(fds);
    SubsetOfEqualSize(Members(fds), store.Keys * ready.Keys);
    FdsOfChannels(store, fds);
  }

  lemma AllTold(revents: map<int, int>, ready: map<int, int>, fds: set<int>)
    requires fds == revents.Keys * ready.Keys
    ensures Told(revents, Restricted(ready, fds)) == Told(revents, ready)
  {
  }

  /** The size of the event list after a poll at which that many were ready. */
  function Resized(size: nat, ready: nat): nat {
    if ready < size then size else 2 * size
  }

  class EPollPoller {
    var interest: map<int, Interest> // what this poller watches, which the kernel keeps
    var eventListSize: nat
    var channelStore: map<int, Channel>
    var activeChannels: seq<Channel>

    ghost predicate Linked()
      reads this`channelStore, this`interest, channelStore.Values`index
    {
      && channelStore.Keys == interest.Keys
      && forall fd | fd in channelStore ::
           channelStore[fd].fd == fd && channelStore[fd].index == KADDED && interest[fd].channel == channelStore[fd]
    }

    ghost predicate Valid()
      reads this`eventListSize, this`channelStore, this`interest, channelStore.Values`index
    {
      eventListSize > 0 && Linked()
    }

    ghost function Revents(): map<int, int>
      reads this`channelStore, channelStore.Values`revents
    {
      map fd | fd in channelStore :: channelStore[fd].revents
    }

    constructor ()
      ensures Valid() && interest == map[] && channelStore == map[] && activeChannels == []
      ensures eventListSize == EVENT_LIST_SIZE
    {
      interest, eventListSize, channelStore, activeChannels := map[], EVENT_LIST_SIZE, map[], [];
    }

    /** Tells the kernel: false when it refuses, which is a fatal error. */
    method Update(op: Op, channel: Channel) returns (ok: bool)
      modifies this`interest
      ensures ok <==> ((channel.fd in old(interest)) != op.Add?)
      ensures ok && !op.Del? ==> interest == old(interest)[channel.fd := Interest(channel, channel.events)]
      ensures ok && op.Del? ==> interest == old(interest) - {channel.fd}
      ensures !ok ==> interest == old(interest)
    {
      var controlled := Controlled(interest, op, channel, channel.events);
      ok := controlled.Some?;
      if ok {
        interest := controlled.value;
      }
    }

    /** Starts to watch the channel, or changes what is wanted of it. */
    method UpdateChannel(channel: Channel)
      requires Valid()
      requires channel.index == KNEW ==> channel.fd !in channelStore
      requires channel.index != KNEW ==>
                 channel.index == KADDED && channel.fd in channelStore && channelStore[channel.fd] == channel
      modifies this`interest, this`channelStore, channel`index
      ensures channelStore == old(channelStore)[channel.fd := channel]
      ensures Valid() && interest == old(interest)[channel.fd := Interest(channel, channel.events)]
      ensures channel.index == KADDED
    {
      if channel.index == KNEW {
        channelStore := channelStore[channel.fd := channel];
        channel.SetIndex(KADDED);
        var ok := Update(Add, channel);
        assert ok;
      } else {
        var ok := Update(Mod, channel);
        assert ok;
      }
    }

    /** The channel wants other events, and says so. */
    method Ask(channel: Channel, events: Events)
      requires Valid()
      requires channel.index == KNEW ==> channel.fd !in channelStore
      requires channel.index != KNEW ==>
                 channel.index == KADDED && channel.fd in channelStore && channelStore[channel.fd] == channel
      modifies this`interest, this`channelStore, channel`index, channel`events
      ensures channelStore == old(channelStore)[channel.fd := channel] && channel.events == events
      ensures Valid() && interest == old(interest)[channel.fd := Interest(channel, events)]
      ensures channel.index == KADDED
    {
      channel.SetEvents(events);
      UpdateChannel(channel);
    }

    /** Stops watching the channel. */
    method RemoveChannel(channel: Channel)
      requires Valid()
      requires channel.fd in channelStore && channelStore[channel.fd] == channel
      modifies this`interest, this`channelStore, channel`index
      ensures channelStore == old(channelStore) - {channel.fd}
      ensures Valid() && interest == old(interest) - {channel.fd}
      ensures channel.index == KNEW
    {
      channelStore := channelStore - {channel.fd};
      var ok := Update(Del, channel);
      assert ok;
      channel.SetIndex(KNEW);
    }

    /** Reports the channels of the events, in the order of the event list. */
    method FillActiveChannels(events: seq<Event>)
      requires Linked() && |events| <= eventListSize && Named(channelStore, events)
      modifies this`activeChannels, channelStore.Values`revents
      ensures Linked()
      ensures activeChannels == old(activeChannels) + ChannelsOf(channelStore, FdsIn(events))
      ensures Revents() == Marked(old(Revents()), events)
    {
      ghost var before, was := activeChannels, Revents();
      var i := 0;
      while i < |events|
        invariant 0 <= i <= |events| && Linked()
        invariant activeChannels == before + ChannelsOf(channelStore, FdsIn(events[..i]))
        invariant Revents() == Marked(was, events[..i])
      {
        MarkedSplit(was, events, i);
        ReportStep(channelStore, before, FdsIn(events[..i]), events[i].channel.fd);
        assert FdsIn(events[..i + 1]) == FdsIn(events[..i]) + [events[i].channel.fd];
        Report(events[i]);
        i := i + 1;
      }
      assert events[..|events|] == events;
    }

    /** The body of the loop in fill_active_channels. */
    method Report(event: Event)
      requires Linked() && event.channel.fd in channelStore && channelStore[event.channel.fd] == event.channel
      modifies this`activeChannels, event.channel`revents
      ensures activeChannels == old(activeChannels) + [channelStore[event.channel.fd]]
      ensures Revents() == Mark(old(Revents()), event)
    {
      var channel := event.channel;
      channel.SetRevents(event.revents);
      activeChannels := activeChannels + [channel];
      assert forall fd | fd in channelStore && fd != channel.fd :: channelStore[fd] != channel;
    }

    /** Asks the kernel, which writes some of what is ready into the event list, and
        reports that. */
    method Poll(answer: Answer, events: seq<Event>)
      requires Valid() && Waited(interest, Happened(answer), eventListSize, events)
      modifies this`eventListSize, this`activeChannels, channelStore.Values`revents
      ensures Valid()
      ensures activeChannels == ChannelsOf(channelStore, FdsIn(events))
      ensures Revents() == Told(old(Revents()), Restricted(Happened(answer), Members(FdsIn(events))))
      ensures eventListSize == Resized(old(eventListSize), |events|)
    {
      hide Waited, Truthful, Named, Told, Restricted;
      ghost var was := Revents();
      activeChannels := [];
      assert Revents() == was;
      WaitedFits(interest, Happened(answer), eventListSize, events);
      TruthfulMarked(was, interest, Happened(answer), events, |events|);
      assert events[..|events|] == events;
      TruthfulNamed(channelStore, interest, Happened(answer), events);
      match answer {
        case Interrupted =>
        case Answered(ready) =>
          HandleEvents(events);
      }
    }

    /** What poll does when the kernel answers. */
    method HandleEvents(events: seq<Event>)
      requires Valid() && |events| <= eventListSize && Named(channelStore, events) && activeChannels == []
      modifies this`eventListSize, this`activeChannels, channelStore.Values`revents
      ensures Valid()
      ensures activeChannels == ChannelsOf(channelStore, FdsIn(events))
      ensures Revents() == Marked(old(Revents()), events)
      ensures eventListSize == Resized(old(eventListSize), |events|)
    {
      var numEvents := |events|;
      if numEvents > 0 {
        FillActiveChannels(events);
        if numEvents == eventListSize {
          eventListSize := eventListSize * 2;
        }
      }
    }
  }
}
