/** The poll(2) back end: a dense list of pollfds, with the position of each kept in its
    channel. */
module PollPollers {
  import opened Channels
  import opened Pollers

  datatype Pollfd = Pollfd(fd: int, events: Events, revents: int)

  /** The number of entries that something happened to: what poll(2) returns. */
  function ReadyCount(list: seq<Pollfd>): nat {
    if list == [] then 0
    else (if list[0].revents > 0 then 1 else 0) + ReadyCount(list[1..])
  }

  /** The file descriptors that something happened to, in the order of the list. */
  function ReadyFds(list: seq<Pollfd>): (r: seq<int>)
    ensures |r| == ReadyCount(list)
  {
    if list == [] then []
    else (if list[0].revents > 0 then [list[0].fd] else []) + ReadyFds(list[1..])
  }

  lemma {:induction false} ReadyFdsComplete(list: seq<Pollfd>, fd: int)
    ensures fd in ReadyFds(list) <==> exists i :: 0 <= i < |list| && list[i].fd == fd && list[i].revents > 0
    decreases |list|
  {
    if list != [] {
      ReadyFdsComplete(list[1..], fd);
      if i :| 0 <= i < |list| && list[i].fd == fd && list[i].revents > 0 {
        assert i > 0 ==> list[1..][i - 1] == list[i];
      }
      if i :| 0 <= i < |list[1..]| && list[1..][i].fd == fd && list[1..][i].revents > 0 {
        assert list[i + 1] == list[1..][i];
      }
    }
  }

  lemma {:induction false} ReadySplit(list: seq<Pollfd>, i: nat)
    requires i < |list|
    ensures ReadyFds(list[..i + 1]) == ReadyFds(list[..i]) + if list[i].revents > 0 then [list[i].fd] else []
    decreases i
  {
    if i == 0 {
      assert list[..1] == [list[0]];
      assert list[..1][1..] == [];
    } else {
      ReadySplit(list[1..], i - 1);
      assert list[..i + 1][1..] == list[1..][..i];
      assert list[..i][1..] == list[1..][..i - 1];
      assert list[1..][i - 1] == list[i];
    }
  }

  /** What the entries below i report is the beginning of what those below j do. */
  lemma {:induction false} ReadyPrefix(list: seq<Pollfd>, i: nat, j: nat)
    requires i <= j <= |list|
    ensures ReadyFds(list[..i]) <= ReadyFds(list[..j])
    decreases j - i
  {
    if i < j {
      ReadySplit(list, j - 1);
      ReadyPrefix(list, i, j - 1);
    }
  }

  /** Once all ready entries have been seen, the rest of the list adds none. */
  lemma ReadyRest(list: seq<Pollfd>, i: nat)
    requires i <= |list| && ReadyCount(list[..i]) == ReadyCount(list)
    ensures ReadyFds(list) == ReadyFds(list[..i])
    ensures forall j | i <= j < |list| :: list[j].revents <= 0
  {
    assert list[..|list|] == list;
    ReadyPrefix(list, i, |list|);
    forall j | i <= j < |list|
      ensures list[j].revents <= 0
    {
      ReadyAdds(list, i, j);
    }
  }

  lemma ReadyAdds(list: seq<Pollfd>, i: nat, j: nat)
    requires i <= j < |list|
    ensures list[j].revents > 0 ==> ReadyCount(list[..i]) < ReadyCount(list[..|list|])
  {
    ReadyPrefix(list, i, j);
    ReadySplit(list, j);
    ReadyPrefix(list, j + 1, |list|);
  }

  // ----- a dense list and the places of its file descriptors -----

  /** Every fd knows its place, and every place belongs to an fd: so the fds in the list
      are distinct. */
  ghost predicate Dense(list: seq<Pollfd>, place: map<int, int>) {
    && (forall fd | fd in place :: 0 <= place[fd] < |list| && list[place[fd]].fd == fd)
    && (forall i | 0 <= i < |list| :: list[i].fd in place && place[list[i].fd] == i)
  }

  /** What a list and a store say is watched. */
  function ViewOf(store: map<int, Channel>, list: seq<Pollfd>, place: map<int, int>): map<int, Interest>
    requires forall fd | fd in place :: 0 <= place[fd] < |list|
  {
    map fd | fd in store && fd in place :: Interest(store[fd], list[place[fd]].events)
  }

  lemma AppendDense(store: map<int, Channel>, list: seq<Pollfd>, place: map<int, int>, p: Pollfd, channel: Channel)
    requires Dense(list, place) && p.fd !in place
    ensures Dense(list + [p], place[p.fd := |list|])
    ensures ViewOf(store[p.fd := channel], list + [p], place[p.fd := |list|])
         == ViewOf(store, list, place)[p.fd := Interest(channel, p.events)]
  {
    var v := ViewOf(store[p.fd := channel], list + [p], place[p.fd := |list|]);
    var w := ViewOf(store, list, place)[p.fd := Interest(channel, p.events)];
    assert v.Keys == w.Keys;
  }

  lemma UpdateDense(store: map<int, Channel>, list: seq<Pollfd>, place: map<int, int>, p: Pollfd)
    requires Dense(list, place) && p.fd in place && p.fd in store
    ensures Dense(list[place[p.fd] := p], place)
    ensures ViewOf(store, list[place[p.fd] := p], place)
         == ViewOf(store, list, place)[p.fd := Interest(store[p.fd], p.events)]
  {
    var v := ViewOf(store, list[place[p.fd] := p], place);
    var w := ViewOf(store, list, place)[p.fd := Interest(store[p.fd], p.events)];
    assert v.Keys == w.Keys;
    forall fd | fd in w
      ensures v[fd] == w[fd]
    {
      assert fd != p.fd ==> place[fd] != place[p.fd];
    }
  }

  /** The list without entry number i, whose place the last entry takes. */
  function SwapRemoved(list: seq<Pollfd>, i: nat): seq<Pollfd>
    requires i < |list|
  {
    if i == |list| - 1 then list[..i] else list[i := list[|list| - 1]][..|list| - 1]
  }

  /** Swapping entry i with the last and popping the last removes entry i. */
  lemma SwapThenPop(list: seq<Pollfd>, i: nat)
    requires i < |list|
    ensures var last := |list| - 1;
            list[i := list[last]][last := list[i]][..last] == SwapRemoved(list, i)
  {
  }

  function Replaced(list: seq<Pollfd>, place: map<int, int>, fd: int): map<int, int>
    requires fd in place && 0 <= place[fd] < |list|
  {
    if place[fd] == |list| - 1 then place - {fd}
    else (place - {fd})[list[|list| - 1].fd := place[fd]]
  }

  lemma RemoveDense(store: map<int, Channel>, list: seq<Pollfd>, place: map<int, int>, fd: int)
    requires Dense(list, place) && fd in place
    ensures Dense(SwapRemoved(list, place[fd]), Replaced(list, place, fd))
  {
  }

  lemma RemoveView(store: map<int, Channel>, list: seq<Pollfd>, place: map<int, int>, fd: int)
    requires Dense(list, place) && fd in place
    requires Dense(SwapRemoved(list, place[fd]), Replaced(list, place, fd))
    ensures ViewOf(store - {fd}, SwapRemoved(list, place[fd]), Replaced(list, place, fd))
            == ViewOf(store, list, place) - {fd}
  {
    var v := ViewOf(store - {fd}, SwapRemoved(list, place[fd]), Replaced(list, place, fd));
    var w := ViewOf(store, list, place) - {fd};
    assert v.Keys == w.Keys;
    forall f | f in w
      ensures v[f] == w[f]
    {
      assert place[f] != place[fd];
      assert f != list[|list| - 1].fd ==> place[f] != |list| - 1;
    }
  }

  /** What the channels say has happened, after one entry has been looked at. */
  function Mark(revents: map<int, int>, entry: Pollfd): map<int, int> {
    if entry.revents > 0 then revents[entry.fd := entry.revents] else revents
  }

  /** ... and after all have. */
  function Marked(revents: map<int, int>, list: seq<Pollfd>): map<int, int> {
    if list == [] then revents else Mark(Marked(revents, list[..|list| - 1]), list[|list| - 1])
  }

  lemma MarkedSplit(revents: map<int, int>, list: seq<Pollfd>, i: nat)
    requires i < |list|
    ensures Marked(revents, list[..i + 1]) == Mark(Marked(revents, list[..i]), list[i])
  {
    assert list[..i + 1][..i] == list[..i];
  }

  lemma {:induction false} MarkedRest(revents: map<int, int>, list: seq<Pollfd>, i: nat)
    requires i <= |list| && forall j | i <= j < |list| :: list[j].revents <= 0
    ensures Marked(revents, list) == Marked(revents, list[..i])
    decreases |list|
  {
    if i == |list| {
      assert list[..i] == list;
    } else {
      var front := list[..|list| - 1];
      MarkedRest(revents, front, i);
      assert front[..i] == list[..i];
    }
  }

  // ----- what poll(2) writes into the list -----

  function Answers(list: seq<Pollfd>, ready: map<int, int>): seq<Pollfd> {
    seq(|list|, i requires 0 <= i < |list| => list[i].(revents := if list[i].fd in ready then ready[list[i].fd] else 0))
  }

  lemma AnswersDense(list: seq<Pollfd>, place: map<int, int>, ready: map<int, int>)
    requires Dense(list, place)
    ensures Dense(Answers(list, ready), place)
  {
  }

  lemma AnswersView(store: map<int, Channel>, list: seq<Pollfd>, place: map<int, int>, ready: map<int, int>)
    requires Dense(list, place)
    ensures ViewOf(store, Answers(list, ready), place) == ViewOf(store, list, place)
  {
    var v, w := ViewOf(store, Answers(list, ready), place), ViewOf(store, list, place);
    assert v.Keys == w.Keys;
    assert forall fd | fd in w :: v[fd] == w[fd];
  }

  /** These fds stand in the list in this order, and before place n. */
  ghost predicate InPlace(fds: seq<int>, place: map<int, int>, n: int) {
    && (forall i | 0 <= i < |fds| :: fds[i] in place && place[fds[i]] < n)
    && (forall i, j | 0 <= i < j < |fds| :: place[fds[i]] < place[fds[j]])
  }

  lemma {:induction false} ReadyInOrder(list: seq<Pollfd>, place: map<int, int>, n: nat)
    requires Dense(list, place) && n <= |list|
    ensures InPlace(ReadyFds(list[..n]), place, n)
  {
    if n > 0 {
      ReadyInOrder(list, place, n - 1);
      ReadySplit(list, n - 1);
    }
  }

  /** The ready entries are those of the watched fds that are ready. */
  lemma ReadyMembers(list: seq<Pollfd>, place: map<int, int>, ready: map<int, int>)
    requires Dense(list, place) && Positive(ready)
    ensures Members(ReadyFds(Answers(list, ready))) == place.Keys * ready.Keys
  {
    var answers := Answers(list, ready);
    forall fd
      ensures fd in ReadyFds(answers) <==> fd in place && fd in ready
    {
      ReadyFdsComplete(answers, fd);
      if fd in place && fd in ready {
        assert answers[place[fd]].fd == fd;
      }
    }
  }

  /** What the channels below place n have been told. */
  function ToldBelow(revents: map<int, int>, ready: map<int, int>, place: map<int, int>, n: nat): map<int, int>
    requires revents.Keys == place.Keys
  {
    map fd | fd in revents :: if fd in ready && place[fd] < n then ready[fd] else revents[fd]
  }

  lemma {:induction false} AnswersMarked(revents: map<int, int>, list: seq<Pollfd>, place: map<int, int>,
                                         ready: map<int, int>, n: nat)
    requires Dense(list, place) && n <= |list| && revents.Keys == place.Keys && Positive(ready)
    ensures Marked(revents, Answers(list, ready)[..n]) == ToldBelow(revents, ready, place, n)
  {
    if n == 0 {
      var told := ToldBelow(revents, ready, place, 0);
      assert told.Keys == revents.Keys;
      assert forall fd | fd in revents :: fd in place && told[fd] == revents[fd];
    } else {
      var answers := Answers(list, ready);
      AnswersMarked(revents, list, place, ready, n - 1);
      MarkedSplit(revents, answers, n - 1);
      var fd := answers[n - 1].fd;
      assert fd == list[n - 1].fd;
      assert forall f | f in place && place[f] == n - 1 :: f == fd;
      var before := ToldBelow(revents, ready, place, n - 1);
      assert ToldBelow(revents, ready, place, n) == Mark(before, answers[n - 1]);
    }
  }

  /** So telling the channels of the ready entries tells all of those that are watched. */
  lemma AnswersTold(revents: map<int, int>, list: seq<Pollfd>, place: map<int, int>, ready: map<int, int>)
    requires Dense(list, place) && revents.Keys == place.Keys && Positive(ready)
    ensures Marked(revents, Answers(list, ready)) == Told(revents, ready)
    ensures Members(ReadyFds(Answers(list, ready))) == place.Keys * ready.Keys
    ensures InPlace(ReadyFds(Answers(list, ready)), place, |list|)
  {
    var answers := Answers(list, ready);
    AnswersMarked(revents, list, place, ready, |list|);
    ReadyMembers(list, place, ready);
    AnswersDense(list, place, ready);
    ReadyInOrder(answers, place, |list|);
    assert answers[..|list|] == answers;
    var below, told := ToldBelow(revents, ready, place, |list|), Told(revents, ready);
    assert below.Keys == told.Keys;
    assert forall fd | fd in below :: fd in place && below[fd] == told[fd];
  }

  /** So the channels of the ready entries are those that must be reported. */
  lemma AnswersReported(store: map<int, Channel>, list: seq<Pollfd>, place: map<int, int>, ready: map<int, int>,
                        active: seq<Channel>)
    requires Dense(list, place) && store.Keys == place.Keys && forall fd | fd in store :: store[fd].fd == fd
    requires Positive(ready) && active == ChannelsOf(store, ReadyFds(Answers(list, ready)))
    ensures Reported(active, store, ready)
    ensures InPlace(FdsOf(active), place, |list|)
  {
    var fds := ReadyFds(Answers(list, ready));
    AnswersDense(list, place, ready);
    ReadyInOrder(Answers(list, ready), place, |list|);
    ReadyMembers(list, place, ready);
    assert Answers(list, ready)[..|list|] == Answers(list, ready);
    FdsOfChannels(store, fds);
  }

  lemma NothingReported(store: map<int, Channel>, revents: map<int, int>)
    ensures Reported([], store, map[])
    ensures Told(revents, map[]) == revents
  {
    assert FdsOf([]) == [];
  }

  class PollPoller {
    var pollfdList: seq<Pollfd>
    var channelStore: map<int, Channel>
    var activeChannels: seq<Channel>
    ghost var place: map<int, int>

    /** The channels are stored under their fds, and each knows its place in the list. */
    ghost predicate Linked()
      reads this`channelStore, this`place, channelStore.Values`index
    {
      && channelStore.Keys == place.Keys
      && forall fd | fd in channelStore :: channelStore[fd].fd == fd && channelStore[fd].index == place[fd]
    }

    ghost predicate Valid()
      reads this`pollfdList, this`channelStore, this`place, channelStore.Values`index
    {
      Dense(pollfdList, place) && Linked()
    }

    /** What this poller watches. */
    ghost function View(): map<int, Interest>
      requires Valid()
      reads this`pollfdList, this`channelStore, this`place, channelStore.Values`index
    {
      ViewOf(channelStore, pollfdList, place)
    }

    constructor ()
      ensures Valid() && View() == map[] && channelStore == map[] && activeChannels == []
    {
      pollfdList, channelStore, activeChannels := [], map[], [];
      place := map[];
    }

    /** Starts to watch the channel, or changes what is wanted of it. */
    method UpdateChannel(channel: Channel)
      requires Valid()
      requires channel.index < 0 ==> channel.fd !in channelStore
      requires channel.index >= 0 ==> channel.fd in channelStore && channelStore[channel.fd] == channel
      modifies this`pollfdList, this`channelStore, this`place, channel`index
      ensures channelStore == old(channelStore)[channel.fd := channel]
      ensures Valid() && View() == old(View())[channel.fd := Interest(channel, channel.events)]
      ensures channel.index >= 0
    {
      var fd := channel.fd;
      if channel.index < 0 {
        var pfd := Pollfd(fd, channel.events, 0);
        AppendDense(channelStore, pollfdList, place, pfd, channel);
        place := place[fd := |pollfdList|];
        channelStore := channelStore[fd := channel];
        pollfdList := pollfdList + [pfd];
        channel.SetIndex(|pollfdList| - 1);
      } else {
        var index := channel.index;
        assert 0 <= index < |pollfdList| && pollfdList[index].fd == fd;
        var pfd := pollfdList[index].(events := channel.events, revents := 0);
        UpdateDense(channelStore, pollfdList, place, pfd);
        pollfdList := pollfdList[index := pfd];
      }
    }

    /** The channel wants other events, and says so. */
    method Ask(channel: Channel, events: Events)
      requires Valid()
      requires channel.index < 0 ==> channel.fd !in channelStore
      requires channel.index >= 0 ==> channel.fd in channelStore && channelStore[channel.fd] == channel
      modifies this`pollfdList, this`channelStore, this`place, channel`index, channel`events
      ensures channelStore == old(channelStore)[channel.fd := channel] && channel.events == events
      ensures Valid() && View() == old(View())[channel.fd := Interest(channel, events)]
      ensures channel.index >= 0
    {
      channel.SetEvents(events);
      UpdateChannel(channel);
    }

    /** Stops watching the channel: the last entry of the list takes its place. */
    method RemoveChannel(channel: Channel)
      requires Valid()
      requires channel.fd in channelStore && channelStore[channel.fd] == channel
      modifies this`pollfdList, this`channelStore, this`place, channelStore.Values`index
      ensures channelStore == old(channelStore) - {channel.fd}
      ensures Valid() && View() == old(View()) - {channel.fd}
      ensures pollfdList == SwapRemoved(old(pollfdList), old(channel.index))
      ensures channel.index == -1
    {
      hide ViewOf, SwapRemoved;
      RemoveDense(channelStore, pollfdList, place, channel.fd);
      RemoveView(channelStore, pollfdList, place, channel.fd);
      RemoveEntry(channel);
      channel.SetIndex(-1);
    }

    /** What remove_channel does to the store and the list. */
    method RemoveEntry(channel: Channel)
      requires Valid()
      requires channel.fd in channelStore && channelStore[channel.fd] == channel
      modifies this`pollfdList, this`channelStore, this`place, channelStore.Values`index
      ensures channelStore == old(channelStore) - {channel.fd} && Linked()
      ensures pollfdList == SwapRemoved(old(pollfdList), old(channel.index))
      ensures place == old(Replaced(pollfdList, place, channel.fd))
    {
      var fd := channel.fd;
      var index := channel.index;
      SwapThenPop(pollfdList, index);
      assert 0 <= index < |pollfdList| && pollfdList[index].fd == fd;
      channelStore := channelStore - {fd};
      place := Replaced(pollfdList, place, fd);
      var last := |pollfdList| - 1;
      if index == last {
        pollfdList := pollfdList[..last];
      } else {
        var channelAtEnd := pollfdList[last].fd;
        channelStore[channelAtEnd].SetIndex(index);
        pollfdList := pollfdList[index := pollfdList[last]][last := pollfdList[index]][..last];
      }
    }

    /** What the channels say has happened to them. */
    ghost function Revents(): map<int, int>
      reads this`channelStore, channelStore.Values`revents
    {
      map fd | fd in channelStore :: channelStore[fd].revents
    }

    /** The body of the loop in fill_active_channels, at entry number i. */
    method Look(i: nat) returns (ready: bool)
      requires Valid() && i < |pollfdList|
      modifies this`activeChannels, channelStore.Values`revents
      ensures Linked() && ready == (pollfdList[i].revents > 0)
      ensures activeChannels == old(activeChannels) + if ready then [channelStore[pollfdList[i].fd]] else []
      ensures Revents() == Mark(old(Revents()), pollfdList[i])
    {
      var pollfd := pollfdList[i];
      assert place[pollfd.fd] == i;
      ready := pollfd.revents > 0;
      if ready {
        var channel := channelStore[pollfd.fd];
        assert channel.fd == pollfd.fd;
        channel.SetRevents(pollfd.revents);
        activeChannels := activeChannels + [channel];
      }
      assert forall fd | fd in channelStore && fd != pollfd.fd :: channelStore[fd] != channelStore[pollfd.fd];
    }

    /** Reports the channels of the entries that something happened to, of which there
        are numEvents, in the order of the list. */
    method FillActiveChannels(numEvents: nat)
      requires Valid() && numEvents == ReadyCount(pollfdList)
      modifies this`activeChannels, channelStore.Values`revents
      ensures Valid()
      ensures activeChannels == old(activeChannels) + ChannelsOf(channelStore, ReadyFds(pollfdList))
      ensures Revents() == Marked(old(Revents()), pollfdList)
    {
      var left := numEvents;
      var i := 0;
      ghost var seen: seq<int> := [];
      ghost var before, was := activeChannels, Revents();
      while i < |pollfdList| && left > 0
        invariant 0 <= i <= |pollfdList| && seen == ReadyFds(pollfdList[..i]) && left == numEvents - |seen|
        invariant Linked() && activeChannels == before + ChannelsOf(channelStore, seen)
        invariant Revents() == Marked(was, pollfdList[..i])
      {
        ReadySplit(pollfdList, i);
        MarkedSplit(was, pollfdList, i);
        ReportStep(channelStore, before, seen, pollfdList[i].fd);
        var ready := Look(i);
        if ready {
          left := left - 1;
          seen := seen + [pollfdList[i].fd];
        }
        i := i + 1;
      }
      assert pollfdList[..|pollfdList|] == pollfdList;
      ReadyRest(pollfdList, i);
      MarkedRest(was, pollfdList, i);
    }

    /** What poll does when the kernel answers. */
    method PollAnswered(ready: map<int, int>)
      requires Valid() && Positive(ready) && activeChannels == []
      modifies this`pollfdList, this`activeChannels, channelStore.Values`revents
      ensures Valid() && pollfdList == Answers(old(pollfdList), ready)
      ensures Revents() == Told(old(Revents()), ready)
      ensures activeChannels == ChannelsOf(channelStore, ReadyFds(pollfdList))
    {
      hide Dense, ViewOf, ReadyCount, Marked, ReadyFds, ChannelsOf, InPlace;
      AnswersDense(pollfdList, place, ready);
      ghost var was := Revents();
      AnswersTold(was, pollfdList, place, ready);
      pollfdList := Answers(pollfdList, ready);
      assert Revents() == was;
      HandleEvents(ReadyCount(pollfdList));
    }

    method HandleEvents(numEvents: nat)
      requires Valid() && numEvents == ReadyCount(pollfdList) && activeChannels == []
      modifies this`activeChannels, channelStore.Values`revents
      ensures Valid()
      ensures activeChannels == ChannelsOf(channelStore, ReadyFds(pollfdList))
      ensures Revents() == Marked(old(Revents()), pollfdList)
    {
      if numEvents > 0 {
        FillActiveChannels(numEvents);
      } else {
        ReadyRest(pollfdList, 0);
        MarkedRest(Revents(), pollfdList, 0);
      }
    }

    /** Asks the kernel, and reports exactly the watched channels that something happened
        to, each once and in the order of the list, and tells them what happened. */
    method Poll(answer: Answer)
      requires Valid() && Positive(Happened(answer))
      modifies this`pollfdList, this`activeChannels, channelStore.Values`revents
      ensures Valid() && View() == old(View())
      ensures Revents() == Told(old(Revents()), Happened(answer))
      ensures Reported(activeChannels, channelStore, Happened(answer))
      ensures InPlace(FdsOf(activeChannels), place, |pollfdList|)
    {
      ghost var was, list := Revents(), pollfdList;
      activeChannels := [];
      assert Revents() == was;
      match answer {
        case Interrupted =>
          NothingReported(channelStore, was);
        case Answered(ready) =>
          PollAnswered(ready);
          assert Revents() == Told(was, ready);
          AnswersView(channelStore, list, place, ready);
          AnswersReported(channelStore, list, place, ready, activeChannels);
      }
    }
  }
}
