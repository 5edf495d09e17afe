/** Whole runs on the two back ends: they watch the same, and report the same. */
module PollerRuns {
  import opened Channels
  import opened Pollers
  import opened PollPollers
  import opened EPollPollers
  import opened PollerWants

  // ----- any run of calls on channels -----

  /** What some channels want, when those of some store are watched. */
  function WantsOf(channels: map<int, Channel>, store: map<int, Channel>): Wants
    reads channels.Values`events
  {
    Wants(EventsOf(channels), store.Keys)
  }

  function EventsOf(channels: map<int, Channel>): map<int, Events>
    reads channels.Values`events
  {
    map fd | fd in channels :: channels[fd].events
  }

  ghost predicate Numbered(channels: map<int, Channel>) {
    forall fd | fd in channels :: channels[fd].fd == fd
  }

  /** The channels are of one poller, which stores those of them that it watches, with the
      events that they want. */
  ghost predicate Served(channels: map<int, Channel>, events: map<int, Events>, store: map<int, Channel>,
                         view: map<int, Interest>) {
    && store.Keys <= channels.Keys && view.Keys == store.Keys && events.Keys == channels.Keys
    && Numbered(channels)
    && (forall fd | fd in store :: store[fd] == channels[fd] && view[fd] == Interest(store[fd], events[fd]))
  }

  /** The channels that are not watched have no place in the poller. */
  ghost predicate Idle(channels: map<int, Channel>, store: map<int, Channel>)
    reads channels.Values`index
  {
    forall fd | fd in channels && fd !in store :: channels[fd].index == -1
  }

  /** Then the kernel is asked exactly what the channels want. */
  lemma ServedAsked(channels: map<int, Channel>, events: map<int, Events>, store: map<int, Channel>,
                    view: map<int, Interest>)
    requires Served(channels, events, store, view)
    ensures Wanted(view) == Wants(events, store.Keys).Asked()
  {
    var asked := Wants(events, store.Keys).Asked();
    assert Wanted(view).Keys == asked.Keys;
    assert forall fd | fd in asked :: fd in view && asked[fd] == view[fd].events;
  }

  lemma ServedAsk(channels: map<int, Channel>, events: map<int, Events>, store: map<int, Channel>,
                  view: map<int, Interest>, 
                  fd: int, wanted: Events)
    requires Served(channels, events, store, view) && fd in channels
    ensures Served(channels, events[fd := wanted], store[fd := channels[fd]],
            view[fd := Interest(channels[fd], wanted)])
  {
  }

  lemma ServedAt(channels: map<int, Channel>, events: map<int, Events>, store: map<int, Channel>,
                 view: map<int, Interest>, fd: int)
    requires Served(channels, events, store, view) && fd in channels
    ensures Numbered(channels) && channels[fd].fd == fd && (fd in store ==> store[fd] == channels[fd])
  {
  }

  /** What is stored is among the channels, and only under its own fd. */
  ghost predicate Among(channels: map<int, Channel>, store: map<int, Channel>) {
    && (forall c | c in store.Values :: c in channels.Values)
    && (forall fd | fd in channels && fd !in store :: channels[fd] !in store.Values)
  }

  lemma ServedRemove(channels: map<int, Channel>, events: map<int, Events>, store: map<int, Channel>,
                     view: map<int, Interest>, fd: int)
    requires Served(channels, events, store, view) && fd in store
    ensures Served(channels, events, store - {fd}, view - {fd})
    ensures Among(channels, store)
  {
    ServedAmong(channels, events, store, view);
  }

  lemma ServedAmong(channels: map<int, Channel>, events: map<int, Events>, store: map<int, Channel>,
                    view: map<int, Interest>)
    requires Served(channels, events, store, view)
    ensures Among(channels, store)
  {
    StoredAmong(channels, store);
    forall f | f in channels && f !in store
      ensures channels[f] !in store.Values
    {
      assert forall g | g in store :: store[g].fd == g;
    }
  }

  lemma StoredAmong(channels: map<int, Channel>, store: map<int, Channel>)
    requires forall fd | fd in store :: fd in channels && store[fd] == channels[fd]
    ensures forall c | c in store.Values :: c in channels.Values
  {
    assert forall fd | fd in store :: store[fd] in channels.Values;
  }

  /** A channel of the poll(2) back end wants other events. */
  method AskPoll(poller: PollPoller, channel: Channel, events: Events, channels: map<int, Channel>)
    requires poller.Valid() && Idle(channels, poller.channelStore) && Numbered(channels)
    requires channel.fd in poller.channelStore ==> poller.channelStore[channel.fd] == channel
    requires channel.fd in channels && channels[channel.fd] == channel
    modifies poller`pollfdList, poller`channelStore, poller`place, channel`index, channel`events
    ensures poller.Valid() && poller.View() == old(poller.View())[channel.fd := Interest(channel, events)]
    ensures poller.channelStore == old(poller.channelStore)[channel.fd := channel]
    ensures Idle(channels, poller.channelStore) && EventsOf(channels) == old(EventsOf(channels))[channel.fd := events]
  {
    assert forall f | f in channels && f != channel.fd :: channels[f] != channel;
    poller.Ask(channel, events);
  }

  /** A channel of the poll(2) back end is removed. */
  method DropPoll(poller: PollPoller, channel: Channel, channels: map<int, Channel>)
    requires poller.Valid() && Idle(channels, poller.channelStore) && Among(channels, poller.channelStore)
    requires channel.fd in poller.channelStore && poller.channelStore[channel.fd] == channel
    requires channel.fd in channels && channels[channel.fd] == channel
    modifies poller`pollfdList, poller`channelStore, poller`place, channels.Values`index
    ensures poller.Valid() && poller.View() == old(poller.View()) - {channel.fd}
    ensures poller.channelStore == old(poller.channelStore) - {channel.fd}
    ensures Idle(channels, poller.channelStore) && EventsOf(channels) == old(EventsOf(channels))
  {
    poller.RemoveChannel(channel);
  }

  method CallPoll(poller: PollPoller, call: Call, channels: map<int, Channel>)
    requires poller.Valid() && Idle(channels, poller.channelStore)
    requires Served(channels, EventsOf(channels), poller.channelStore, poller.View())
    requires WantsOf(channels, poller.channelStore).Allows(call)
    modifies poller`pollfdList, poller`channelStore, poller`place, channels.Values`index, channels.Values`events
    ensures poller.Valid() && Idle(channels, poller.channelStore)
    ensures Served(channels, EventsOf(channels), poller.channelStore, poller.View())
    ensures WantsOf(channels, poller.channelStore) == old(WantsOf(channels, poller.channelStore)).After(call)
  {
    hide Served, Idle, Among, Enabled, Disabled, Numbered;
    ghost var events, store := EventsOf(channels), poller.channelStore;
    var channel := channels[call.fd];
    if call.Remove? {
      ServedAt(channels, events, store, poller.View(), call.fd);
      ServedRemove(channels, events, store, poller.View(), call.fd);
      DropPoll(poller, channel, channels);
    } else {
      var wanted := if call.Enable? then Enabled(channel.events, call.mask) else Disabled(channel.events, call.mask);
      ServedAt(channels, events, store, poller.View(), call.fd);
      ServedAsk(channels, events, store, poller.View(), call.fd, wanted);
      AskPoll(poller, channel, wanted, channels);
      assert (store[call.fd := channel]).Keys == store.Keys + {call.fd};
    }
  }

  /** A channel of the epoll(4) back end wants other events. */
  method AskEPoll(poller: EPollPoller, channel: Channel, events: Events, channels: map<int, Channel>)
    requires poller.Valid() && Idle(channels, poller.channelStore) && Numbered(channels)
    requires channel.fd in poller.channelStore ==> poller.channelStore[channel.fd] == channel
    requires channel.fd in channels && channels[channel.fd] == channel
    modifies poller`interest, poller`channelStore, channel`index, channel`events
    ensures poller.Valid() && poller.interest == old(poller.interest)[channel.fd := Interest(channel, events)]
    ensures poller.channelStore == old(poller.channelStore)[channel.fd := channel]
    ensures Idle(channels, poller.channelStore) && EventsOf(channels) == old(EventsOf(channels))[channel.fd := events]
  {
    assert forall f | f in channels && f != channel.fd :: channels[f] != channel;
    poller.Ask(channel, events);
  }

  /** A channel of the epoll(4) back end is removed. */
  method DropEPoll(poller: EPollPoller, channel: Channel, channels: map<int, Channel>)
    requires poller.Valid() && Idle(channels, poller.channelStore) && Among(channels, poller.channelStore)
    requires channel.fd in poller.channelStore && poller.channelStore[channel.fd] == channel
    requires channel.fd in channels && channels[channel.fd] == channel
    modifies poller`interest, poller`channelStore, channels.Values`index
    ensures poller.Valid() && poller.interest == old(poller.interest) - {channel.fd}
    ensures poller.channelStore == old(poller.channelStore) - {channel.fd}
    ensures Idle(channels, poller.channelStore) && EventsOf(channels) == old(EventsOf(channels))
  {
    poller.RemoveChannel(channel);
  }

  method CallEPoll(poller: EPollPoller, call: Call, channels: map<int, Channel>)
    requires poller.Valid() && Idle(channels, poller.channelStore)
    requires Served(channels, EventsOf(channels), poller.channelStore, poller.interest)
    requires WantsOf(channels, poller.channelStore).Allows(call)
    modifies poller`interest, poller`channelStore, channels.Values`index, channels.Values`events
    ensures poller.Valid() && Idle(channels, poller.channelStore)
    ensures Served(channels, EventsOf(channels), poller.channelStore, poller.interest)
    ensures WantsOf(channels, poller.channelStore) == old(WantsOf(channels, poller.channelStore)).After(call)
  {
    ghost var events, store := EventsOf(channels), poller.channelStore;
    var channel := channels[call.fd];
    if call.Remove? {
      ServedAt(channels, events, store, poller.interest, call.fd);
      ServedRemove(channels, events, store, poller.interest, call.fd);
      DropEPoll(poller, channel, channels);
    } else {
      var wanted := if call.Enable? then Enabled(channel.events, call.mask) else Disabled(channel.events, call.mask);
      ServedAt(channels, events, store, poller.interest, call.fd);
      ServedAsk(channels, events, store, poller.interest, call.fd, wanted);
      AskEPoll(poller, channel, wanted, channels);
      assert (store[call.fd := channel]).Keys == store.Keys + {call.fd};
    }
  }

  /** Any run of calls on the poll(2) back end leaves the kernel asked for exactly what the
      channels want. */
  method RunPoll(poller: PollPoller, calls: seq<Call>, channels: map<int, Channel>)
    requires poller.Valid() && Idle(channels, poller.channelStore)
    requires Served(channels, EventsOf(channels), poller.channelStore, poller.View())
    requires WantsOf(channels, poller.channelStore).AllowsAll(calls)
    modifies poller`pollfdList, poller`channelStore, poller`place, channels.Values`index, channels.Values`events
    ensures poller.Valid() && Idle(channels, poller.channelStore)
    ensures Served(channels, EventsOf(channels), poller.channelStore, poller.View())
    ensures WantsOf(channels, poller.channelStore) == old(WantsOf(channels, poller.channelStore)).AfterAll(calls)
    ensures Wanted(poller.View()) == old(WantsOf(channels, poller.channelStore)).AfterAll(calls).Asked()
    ensures AskedIs(Wanted(poller.View()), calls, old(WantsOf(channels, poller.channelStore)))
  {
    ghost var wants := WantsOf(channels, poller.channelStore);
    assert calls[0..] == calls;
    for i := 0 to |calls|
      invariant poller.Valid() && Idle(channels, poller.channelStore)
      invariant Served(channels, EventsOf(channels), poller.channelStore, poller.View())
      invariant WantsOf(channels, poller.channelStore).AllowsAll(calls[i..])
      invariant WantsOf(channels, poller.channelStore).AfterAll(calls[i..]) == wants.AfterAll(calls)
    {
      assert calls[i..][0] == calls[i] && calls[i..][1..] == calls[i + 1..];
      CallPoll(poller, calls[i], channels);
    }
    ServedAsked(channels, EventsOf(channels), poller.channelStore, poller.View());
    AllAsked(wants, calls);
  }

  /** Any run of calls on the epoll(4) back end leaves the kernel asked for exactly what the
      channels want. */
  method RunEPoll(poller: EPollPoller, calls: seq<Call>, channels: map<int, Channel>)
    requires poller.Valid() && Idle(channels, poller.channelStore)
    requires Served(channels, EventsOf(channels), poller.channelStore, poller.interest)
    requires WantsOf(channels, poller.channelStore).AllowsAll(calls)
    modifies poller`interest, poller`channelStore, channels.Values`index, channels.Values`events
    ensures poller.Valid() && Idle(channels, poller.channelStore)
    ensures Served(channels, EventsOf(channels), poller.channelStore, poller.interest)
    ensures WantsOf(channels, poller.channelStore) == old(WantsOf(channels, poller.channelStore)).AfterAll(calls)
    ensures Wanted(poller.interest) == old(WantsOf(channels, poller.channelStore)).AfterAll(calls).Asked()
    ensures AskedIs(Wanted(poller.interest), calls, old(WantsOf(channels, poller.channelStore)))
  {
    ghost var wants := WantsOf(channels, poller.channelStore);
    assert calls[0..] == calls;
    for i := 0 to |calls|
      invariant poller.Valid() && Idle(channels, poller.channelStore)
      invariant Served(channels, EventsOf(channels), poller.channelStore, poller.interest)
      invariant WantsOf(channels, poller.channelStore).AllowsAll(calls[i..])
      invariant WantsOf(channels, poller.channelStore).AfterAll(calls[i..]) == wants.AfterAll(calls)
    {
      assert calls[i..][0] == calls[i] && calls[i..][1..] == calls[i + 1..];
      CallEPoll(poller, calls[i], channels);
    }
    ServedAsked(channels, EventsOf(channels), poller.channelStore, poller.interest);
    AllAsked(wants, calls);
  }

  /** New channels, which want the same and have no place in a poller yet. */
  ghost predicate Fresh(channels: map<int, Channel>, events: map<int, Events>)
    reads channels.Values
  {
    channels.Keys == events.Keys
    && forall fd | fd in channels ::
         channels[fd].fd == fd && channels[fd].index == -1 && channels[fd].events == events[fd]
  }

  lemma FreshServed(channels: map<int, Channel>, events: map<int, Events>)
    requires Fresh(channels, events)
    ensures EventsOf(channels) == events && Idle(channels, map[]) && Served(channels, events, map[], map[])
    ensures WantsOf(channels, map[]) == Wants(events, {})
  {
    assert EventsOf(channels).Keys == events.Keys;
    assert forall fd | fd in events :: fd in channels && EventsOf(channels)[fd] == events[fd];
  }

  method StartPoll(calls: seq<Call>, channels: map<int, Channel>, events: map<int, Events>) returns (poller: PollPoller)
    requires Fresh(channels, events) && Wants(events, {}).AllowsAll(calls)
    modifies channels.Values`index, channels.Values`events
    ensures fresh(poller) && poller.Valid() && poller.channelStore.Values <= channels.Values
    ensures Wanted(poller.View()) == Wants(events, {}).AfterAll(calls).Asked()
    ensures AskedIs(Wanted(poller.View()), calls, Wants(events, {}))
    ensures poller.channelStore.Keys == Wants(events, {}).AfterAll(calls).watched
  {
    FreshServed(channels, events);
    poller := new PollPoller();
    RunPoll(poller, calls, channels);
    ServedAmong(channels, EventsOf(channels), poller.channelStore, poller.View());
  }

  method StartEPoll(calls: seq<Call>, channels: map<int, Channel>,
                    events: map<int, Events>) returns (poller: EPollPoller)
    requires Fresh(channels, events) && Wants(events, {}).AllowsAll(calls)
    modifies channels.Values`index, channels.Values`events
    ensures fresh(poller) && poller.Valid() && poller.channelStore.Values <= channels.Values
    ensures Wanted(poller.interest) == Wants(events, {}).AfterAll(calls).Asked()
    ensures AskedIs(Wanted(poller.interest), calls, Wants(events, {}))
    ensures poller.channelStore.Keys == Wants(events, {}).AfterAll(calls).watched
  {
    FreshServed(channels, events);
    poller := new EPollPoller();
    RunEPoll(poller, calls, channels);
    ServedAmong(channels, EventsOf(channels), poller.channelStore, poller.interest);
  }

  /** The same calls on two sets of channels, one for each back end, leave both asking the
      kernel for the same. */
  method RunBoth(calls: seq<Call>, ours: map<int, Channel>, theirs: map<int, Channel>, events: map<int, Events>)
      returns (poll: PollPoller, epoll: EPollPoller)
    requires Fresh(ours, events) && Fresh(theirs, events) && ours.Values !! theirs.Values
    requires Wants(events, {}).AllowsAll(calls)
    modifies ours.Values`index, ours.Values`events, theirs.Values`index, theirs.Values`events
    ensures poll.Valid() && epoll.Valid()
    ensures Wanted(poll.View()) == Wants(events, {}).AfterAll(calls).Asked() == Wanted(epoll.interest)
    ensures AskedIs(Wanted(poll.View()), calls, Wants(events, {}))
    ensures poll.channelStore.Keys == epoll.channelStore.Keys && poll.channelStore.Values !! epoll.channelStore.Values
  {
    hide *;
    poll := StartPoll(calls, ours, events);
    epoll := StartEPoll(calls, theirs, events);
  }

  /** What a poller has reported, and told its channels, when something happened. */
  ghost predicate Correct(active: seq<Channel>, revents: map<int, int>, store: map<int, Channel>,
                          ready: map<int, int>) {
    Reported(active, store, ready) && Restricted(revents, ready.Keys) == Restricted(ready, store.Keys)
  }

  lemma TellsTruth(revents: map<int, int>, ready: map<int, int>)
    ensures Restricted(Told(revents, ready), ready.Keys) == Restricted(ready, revents.Keys)
  {
  }

  /** The poll(2) back end always reports everything. */
  method PollPoll(poll: PollPoller, answer: Answer)
    requires poll.Valid() && Positive(Happened(answer))
    modifies poll`pollfdList, poll`activeChannels, poll.channelStore.Values`revents
    ensures poll.Valid() && poll.View() == old(poll.View())
    ensures Correct(poll.activeChannels, poll.Revents(), poll.channelStore, Happened(answer))
    ensures forall fd | fd in poll.channelStore ::
              poll.channelStore[fd].revents
              == if fd in Happened(answer) then Happened(answer)[fd] else old(poll.channelStore[fd].revents)
  {
    ghost var was := poll.Revents();
    TellsTruth(was, Happened(answer));
    poll.Poll(answer);
    forall fd | fd in poll.channelStore
      ensures poll.channelStore[fd].revents
           == if fd in Happened(answer) then Happened(answer)[fd] else old(poll.channelStore[fd].revents)
    {
      assert poll.Revents()[fd] == Told(was, Happened(answer))[fd];
    }
  }

  /** The epoll(4) back end does exactly when what is ready fits in the event list. */
  method PollEPoll(epoll: EPollPoller, answer: Answer, events: seq<Event>)
    requires epoll.Valid() && Waited(epoll.interest, Happened(answer), epoll.eventListSize, events)
    modifies epoll`eventListSize, epoll`activeChannels, epoll.channelStore.Values`revents
    ensures epoll.Valid()
    ensures epoll.eventListSize == Resized(old(epoll.eventListSize), |events|)
    ensures Correct(epoll.activeChannels, epoll.Revents(), epoll.channelStore, Happened(answer))
       <==> |epoll.interest.Keys * Happened(answer).Keys| <= old(epoll.eventListSize)
    ensures Reported(epoll.activeChannels, epoll.channelStore, Happened(answer))
       <==> |epoll.interest.Keys * Happened(answer).Keys| <= old(epoll.eventListSize)
    ensures Listed(epoll.activeChannels, epoll.channelStore)
  {
    EventsCorrect(epoll.Revents(), epoll.channelStore, epoll.interest, Happened(answer), epoll.eventListSize, events);
    epoll.Poll(answer, events);
  }

  /** It tells exactly the channels of the events what happened, and doubles the event list
      exactly if it was full. */
  method PollTells(epoll: EPollPoller, answer: Answer, events: seq<Event>)
    requires epoll.Valid() && Waited(epoll.interest, Happened(answer), epoll.eventListSize, events)
    modifies epoll`eventListSize, epoll`activeChannels, epoll.channelStore.Values`revents
    ensures epoll.Valid() && FdsOf(epoll.activeChannels) == FdsIn(events)
    ensures forall fd | fd in epoll.channelStore ::
              epoll.channelStore[fd].revents
              == if fd in FdsIn(events) && fd in Happened(answer) then Happened(answer)[fd]
                 else old(epoll.channelStore[fd].revents)
    ensures epoll.eventListSize == old(epoll.eventListSize) * if |events| == old(epoll.eventListSize) then 2 else 1
  {
    hide Waited, Correct, Reported, Listed, FdsIn, ChannelsOf;
    ghost var was := epoll.Revents();
    EventsListed(epoll.channelStore, epoll.interest, Happened(answer), epoll.eventListSize, events);
    epoll.Poll(answer, events);
    forall fd | fd in epoll.channelStore
      ensures epoll.channelStore[fd].revents
           == if fd in FdsIn(events) && fd in Happened(answer) then Happened(answer)[fd]
              else old(epoll.channelStore[fd].revents)
    {
      assert epoll.Revents()[fd] == Told(was, Restricted(Happened(answer), Members(FdsIn(events))))[fd];
    }
  }

  lemma EventsCorrect(revents: map<int, int>, store: map<int, Channel>, interest: map<int, Interest>,
                      ready: map<int, int>, size: nat, events: seq<Event>)
    requires Waited(interest, ready, size, events)
    requires store.Keys == interest.Keys == revents.Keys && forall fd | fd in store :: store[fd].fd == fd
    ensures Correct(ChannelsOf(store, FdsIn(events)), Told(revents, Restricted(ready, Members(FdsIn(events)))),
            store, ready)
       <==> |interest.Keys * ready.Keys| <= size
    ensures Reported(ChannelsOf(store, FdsIn(events)), store, ready) <==> |interest.Keys * ready.Keys| <= size
    ensures Listed(ChannelsOf(store, FdsIn(events)), store)
  {
    ListedEvents(store, interest, ready, events);
    if |interest.Keys * ready.Keys| <= size {
      AllReported(store, interest, ready, size, events);
      AllTold(revents, ready, Members(FdsIn(events)));
      TellsTruth(revents, ready);
    } else {
      SomeLeftOut(store, interest, ready, size, events);
    }
  }

  /** The channels are stored ones, each listed once. */
  ghost predicate Listed(active: seq<Channel>, store: map<int, Channel>) {
    active == ChannelsOf(store, FdsOf(active)) && Distinct(FdsOf(active))
  }

  lemma ListedEvents(store: map<int, Channel>, interest: map<int, Interest>, ready: map<int, int>, events: seq<Event>)
    requires Truthful(interest, ready, events) && Distinct(FdsIn(events))
    requires store.Keys == interest.Keys && forall fd | fd in store :: store[fd].fd == fd
    ensures Listed(ChannelsOf(store, FdsIn(events)), store)
  {
    StoredFds(store, interest, ready, events);
    FdsOfChannels(store, FdsIn(events));
  }

  lemma EventsListed(store: map<int, Channel>, interest: map<int, Interest>, ready: map<int, int>, size: nat,
                     events: seq<Event>)
    requires Waited(interest, ready, size, events)
    requires store.Keys == interest.Keys && forall fd | fd in store :: store[fd].fd == fd
    ensures FdsOf(ChannelsOf(store, FdsIn(events))) == FdsIn(events) && |events| <= size
  {
    StoredFds(store, interest, ready, events);
    FdsOfChannels(store, FdsIn(events));
  }

  /** When the event list is too short, something that is ready is not reported. */
  lemma SomeLeftOut(store: map<int, Channel>, interest: map<int, Interest>, ready: map<int, int>, size: nat,
                    events: seq<Event>)
    requires Waited(interest, ready, size, events) && |interest.Keys * ready.Keys| > size
    requires store.Keys == interest.Keys && forall fd | fd in store :: store[fd].fd == fd
    ensures FdsOf(ChannelsOf(store, FdsIn(events))) == FdsIn(events)
    ensures exists fd :: fd in interest && fd in ready && fd !in FdsIn(events)
    ensures !Reported(ChannelsOf(store, FdsIn(events)), store, ready)
  {
    var fds := FdsIn(events);
    StoredFds(store, interest, ready, events);
    FdsOfChannels(store, fds);
    DistinctCount(fds);
    var due := interest.Keys * ready.Keys;
    NotAll(Members(fds), due);
    var fd :| fd in due && fd !in Members(fds);
    assert fd in interest && fd in ready && fd !in fds;
  }

  lemma NotAll(a: set<int>, b: set<int>)
    requires |a| < |b|
    ensures exists x :: x in b && x !in a
  {
    if forall x | x in b :: x in a {
      SubsetSize(b, a);
      assert false;
    }
  }

  lemma SubsetSize(a: set<int>, b: set<int>)
    requires a <= b
    ensures |a| <= |b|
  {
    assert |b - a| == |b| - |a|;
  }

  lemma StoredFds(store: map<int, Channel>, interest: map<int, Interest>, ready: map<int, int>, events: seq<Event>)
    requires Truthful(interest, ready, events) && store.Keys == interest.Keys
    ensures forall i | 0 <= i < |events| :: FdsIn(events)[i] in store && FdsIn(events)[i] in ready
  {
    forall i | 0 <= i < |events|
      ensures FdsIn(events)[i] in store && FdsIn(events)[i] in ready
    {
      assert events[i] in events;
    }
  }

  /** Two correct reports of the same are the same. */
  lemma SameReports(active1: seq<Channel>, revents1: map<int, int>, store1: map<int, Channel>,
                    active2: seq<Channel>, revents2: map<int, int>, store2: map<int, Channel>, ready: map<int, int>)
    requires Correct(active1, revents1, store1, ready) && Correct(active2, revents2, store2, ready)
    requires store1.Keys == store2.Keys
    ensures Members(FdsOf(active1)) == Members(FdsOf(active2)) && |active1| == |active2|
    ensures Restricted(revents1, ready.Keys) == Restricted(revents2, ready.Keys)
  {
    DistinctCount(FdsOf(active1));
    DistinctCount(FdsOf(active2));
  }

  /** Two reports name the same file descriptors, and tell their channels the same. */
  ghost predicate Agree(active1: seq<Channel>, revents1: map<int, int>, active2: seq<Channel>,
                        revents2: map<int, int>, ready: map<int, int>) {
    && Members(FdsOf(active1)) == Members(FdsOf(active2)) && |active1| == |active2|
    && Restricted(revents1, ready.Keys) == Restricted(revents2, ready.Keys)
  }

  /** A report agrees with a correct one exactly if it is correct too. */
  lemma AgreeIff(active1: seq<Channel>, revents1: map<int, int>, store1: map<int, Channel>,
                 active2: seq<Channel>, revents2: map<int, int>, store2: map<int, Channel>, ready: map<int, int>)
    requires Correct(active1, revents1, store1, ready) && store1.Keys == store2.Keys && Listed(active2, store2)
    requires Correct(active2, revents2, store2, ready) <==> Reported(active2, store2, ready)
    ensures Agree(active1, revents1, active2, revents2, ready) <==> Reported(active2, store2, ready)
  {
    if Reported(active2, store2, ready) {
      SameReports(active1, revents1, store1, active2, revents2, store2, ready);
    }
  }

  /** The epoll(4) back end is asked after the other, which has reported correctly, and has
      other channels. */
  method PollSecond(poll: PollPoller, epoll: EPollPoller, answer: Answer, events: seq<Event>)
    requires Correct(poll.activeChannels, poll.Revents(), poll.channelStore, Happened(answer))
    requires epoll.Valid() && Waited(epoll.interest, Happened(answer), epoll.eventListSize, events)
    requires poll.channelStore.Keys == epoll.channelStore.Keys && poll.channelStore.Values !! epoll.channelStore.Values
    modifies epoll`eventListSize, epoll`activeChannels, epoll.channelStore.Values`revents
    ensures Agree(poll.activeChannels, poll.Revents(), epoll.activeChannels, epoll.Revents(), Happened(answer))
       <==> |epoll.interest.Keys * Happened(answer).Keys| <= old(epoll.eventListSize)
  {
    hide *;
    ghost var revents := poll.Revents();
    PollEPoll(epoll, answer, events);
    assert poll.Revents() == revents;
    AgreeIff(poll.activeChannels, revents, poll.channelStore,
             epoll.activeChannels, epoll.Revents(), epoll.channelStore, Happened(answer));
  }

  /** Two pollers that watch the same file descriptors, asked when the same has happened,
      give the same report exactly if what is ready fits in the event list. */
  method PollBoth(poll: PollPoller, epoll: EPollPoller, answer: Answer, events: seq<Event>)
    requires poll.Valid() && epoll.Valid() && poll.channelStore.Keys == epoll.channelStore.Keys
    requires poll.channelStore.Values !! epoll.channelStore.Values
    requires Positive(Happened(answer)) && Waited(epoll.interest, Happened(answer), epoll.eventListSize, events)
    modifies poll`pollfdList, poll`activeChannels, poll.channelStore.Values`revents
    modifies epoll`eventListSize, epoll`activeChannels, epoll.channelStore.Values`revents
    ensures Agree(poll.activeChannels, poll.Revents(), epoll.activeChannels, epoll.Revents(), Happened(answer))
       <==> |epoll.interest.Keys * Happened(answer).Keys| <= old(epoll.eventListSize)
  {
    hide *;
    PollPoll(poll, answer);
    PollSecond(poll, epoll, answer, events);
  }

  // ----- how long the event list stays too short -----

  /** The size of the event list after n polls, at each of which this many were ready. */
  function SizeAfter(size: nat, ready: nat, n: nat): nat
    decreases n
  {
    if n == 0 then size else SizeAfter(Resized(size, Least(ready, size)), ready, n - 1)
  }

  function Power2(n: nat): nat {
    if n == 0 then 1 else 2 * Power2(n - 1)
  }

  /** It doubles at every poll, until it is longer than what is ready; and it never grows
      beyond twice that. */
  lemma {:induction false} SizeDoubles(size: nat, ready: nat, n: nat)
    requires size > 0
    ensures ready < SizeAfter(size, ready, n) || SizeAfter(size, ready, n) == size * Power2(n)
    ensures SizeAfter(size, ready, n) <= size || SizeAfter(size, ready, n) <= 2 * ready
    ensures size <= SizeAfter(size, ready, n)
    decreases n
  {
    if n > 0 {
      SizeDoubles(Resized(size, Least(ready, size)), ready, n - 1);
    }
  }

  lemma {:induction false} SizeAtMost(size: nat, ready: nat, n: nat)
    ensures SizeAfter(size, ready, n) <= size * Power2(n)
    decreases n
  {
    if n > 0 {
      var next := Resized(size, Least(ready, size));
      SizeAtMost(next, ready, n - 1);
      TwiceAtMost(next, size, Power2(n - 1));
    }
  }

  lemma TwiceAtMost(next: nat, size: nat, p: nat)
    requires next <= 2 * size
    ensures next * p <= size * (2 * p)
  {
  }

  lemma {:induction false} SizeNext(size: nat, ready: nat, n: nat)
    ensures SizeAfter(size, ready, n + 1) == Resized(SizeAfter(size, ready, n), Least(ready, SizeAfter(size, ready, n)))
    decreases n
  {
    if n > 0 {
      SizeNext(Resized(size, Least(ready, size)), ready, n - 1);
    }
  }

  /** So at poll number n (from 0) nothing that is ready is left out exactly if size * 2^n is
      enough for it: it takes a number of polls that is logarithmic in what is ready. */
  lemma EnoughIff(size: nat, ready: nat, n: nat)
    requires size > 0
    ensures ready <= SizeAfter(size, ready, n) <==> ready <= size * Power2(n)
    ensures ready <= SizeAfter(size, ready, n) ==> ready <= SizeAfter(size, ready, n + 1)
  {
    SizeDoubles(size, ready, n);
    SizeAtMost(size, ready, n);
    SizeNext(size, ready, n);
  }

  /** There is such a number, and the least one is the logarithm of ready / size, rounded up. */
  lemma EnoughExists(size: nat, ready: nat) returns (n: nat)
    requires size > 0
    ensures ready <= size * Power2(n) && (n > 0 ==> size * Power2(n - 1) < ready)
    decreases ready - size
  {
    if ready <= size {
      n := 0;
    } else {
      var m := EnoughExists(2 * size, ready);
      n := m + 1;
      TwiceAtMost(2 * size, size, Power2(m));
      Doubled(size, Power2(m));
      if m > 0 {
        Doubled(size, Power2(m - 1));
      }
    }
  }

  lemma Doubled(size: nat, p: nat)
    ensures 2 * size * p == size * (2 * p)
  {
  }

  /** Polls again and again while the same stays ready: the last report is correct exactly
      if the event list has been doubled often enough by then. */
  method PollAgain(epoll: EPollPoller, ready: map<int, int>, kernel: seq<seq<Event>>)
    requires epoll.Valid()
    requires forall i | 0 <= i < |kernel| ::
               Waited(epoll.interest, ready, SizeAfter(epoll.eventListSize, |epoll.interest.Keys * ready.Keys|, i),
                   kernel[i])
    modifies epoll`eventListSize, epoll`activeChannels, epoll.channelStore.Values`revents
    ensures epoll.Valid()
    ensures epoll.eventListSize == SizeAfter(old(epoll.eventListSize), |epoll.interest.Keys * ready.Keys|, |kernel|)
    ensures |kernel| > 0 ==>
              (Correct(epoll.activeChannels, epoll.Revents(), epoll.channelStore, ready)
               <==> |epoll.interest.Keys * ready.Keys| <= old(epoll.eventListSize) * Power2(|kernel| - 1))
  {
    ghost var size, count := epoll.eventListSize, |epoll.interest.Keys * ready.Keys|;
    for i := 0 to |kernel|
      invariant epoll.Valid() && epoll.eventListSize == SizeAfter(size, count, i)
      invariant i > 0 ==>
                  (Correct(epoll.activeChannels, epoll.Revents(), epoll.channelStore, ready)
                   <==> count <= size * Power2(i - 1))
    {
      SizeNext(size, count, i);
      EnoughIff(size, count, i);
      PollEPoll(epoll, Answered(ready), kernel[i]);
    }
  }

  // ----- a poll that leaves something out -----

  function Below(n: nat): (r: set<int>)
    ensures |r| == n && forall fd :: fd in r <==> 0 <= fd < n
  {
    if n == 0 then {} else Below(n - 1) + {n - 1}
  }

  /** A poller that watches one more file descriptor. */
  method WatchMore(epoll: EPollPoller, fd: int, events: Events) returns (channel: Channel)
    requires epoll.Valid() && fd !in epoll.channelStore
    modifies epoll`interest, epoll`channelStore
    ensures fresh(channel) && epoll.Valid()
    ensures epoll.channelStore == old(epoll.channelStore)[fd := channel] && fd in epoll.interest
    ensures epoll.interest.Keys == old(epoll.interest).Keys + {fd}
  {
    channel := new Channel(fd);
    epoll.Ask(channel, events);
  }

  /** A new poller, watching the file descriptors below n. */
  method WatchBelow(n: nat, events: Events) returns (epoll: EPollPoller)
    ensures fresh(epoll) && epoll.Valid() && epoll.eventListSize == EVENT_LIST_SIZE && epoll.interest.Keys == Below(n)
    ensures fresh(epoll.channelStore.Values)
  {
    hide Waited, Correct;
    epoll := new EPollPoller();
    ghost var made: set<Channel> := {};
    for fd := 0 to n
      invariant fresh(epoll) && epoll.Valid() && epoll.eventListSize == EVENT_LIST_SIZE
                && epoll.interest.Keys == Below(fd)
      invariant epoll.channelStore.Values <= made && fresh(made)
    {
      ghost var store := epoll.channelStore;
      var channel := WatchMore(epoll, fd, events);
      StoreMore(store, fd, channel);
      made := made + {channel};
    }
  }

  lemma StoreMore(store: map<int, Channel>, fd: int, channel: Channel)
    ensures store[fd := channel].Values <= store.Values + {channel}
  {
    assert forall f | f in store :: store[f] in store.Values;
  }

  /** What the kernel may write when the file descriptors below size + 1 are all ready. */
  function FirstEvents(store: map<int, Channel>, size: nat): seq<Event>
    requires forall fd :: fd in store <==> 0 <= fd <= size
  {
    seq(size, i requires 0 <= i < size => Event(store[i], 1))
  }

  lemma FirstWaited(store: map<int, Channel>, interest: map<int, Interest>, ready: map<int, int>, size: nat)
    requires interest.Keys == store.Keys == ready.Keys == Below(size + 1)
    requires forall fd | fd in store :: store[fd].fd == fd && interest[fd].channel == store[fd] && ready[fd] == 1
    ensures Waited(interest, ready, size, FirstEvents(store, size)) && |interest.Keys * ready.Keys| == size + 1
  {
    assert interest.Keys * ready.Keys == Below(size + 1);
  }

  /** Polls when as many file descriptors are ready as the event list holds, and one more. */
  method PollShort(epoll: EPollPoller, ready: map<int, int>)
    requires epoll.Valid() && epoll.interest.Keys == ready.Keys == Below(epoll.eventListSize + 1)
    requires forall fd | fd in ready :: ready[fd] == 1
    modifies epoll`eventListSize, epoll`activeChannels, epoll.channelStore.Values`revents
    ensures epoll.Valid() && !Reported(epoll.activeChannels, epoll.channelStore, ready)
  {
    hide Correct, Reported, Waited, FirstEvents, Listed;
    FirstWaited(epoll.channelStore, epoll.interest, ready, epoll.eventListSize);
    PollEPoll(epoll, Answered(ready), FirstEvents(epoll.channelStore, epoll.eventListSize));
  }

  /** With 17 channels ready, a new poller does not report them all. */
  method LeavesOneOut(events: Events) returns (epoll: EPollPoller, ready: map<int, int>)
    ensures epoll.Valid() && epoll.interest.Keys == ready.Keys && |ready.Keys| == EVENT_LIST_SIZE + 1
    ensures !Reported(epoll.activeChannels, epoll.channelStore, ready)
  {
    hide *;
    epoll := WatchBelow(EVENT_LIST_SIZE + 1, events);
    var fds := Below(EVENT_LIST_SIZE + 1);
    ready := map fd | fd in fds :: 1;
    PollShort(epoll, ready);
  }
}
