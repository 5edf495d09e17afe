/** What the two back ends share: the map of what is watched, and what a poll must report. */
module Pollers {
  import opened Channels

  /** What a poller watches: the channel and the events wanted, by file descriptor. */
  datatype Interest = Interest(channel: Channel, events: Events)

  /** What has happened, by file descriptor: something did, to each of them. */
  ghost predicate Positive(ready: map<int, int>) {
    forall fd | fd in ready :: ready[fd] > 0
  }

  /** What the kernel answers to a poll. */
  datatype Answer = Interrupted | Answered(ready: map<int, int>)

  function Happened(answer: Answer): map<int, int> {
    match answer
    case Interrupted => map[]
    case Answered(ready) => ready
  }

  /** What the channels say has happened, after a poll has told them. */
  function Told(revents: map<int, int>, ready: map<int, int>): map<int, int> {
    map fd | fd in revents :: if fd in ready then ready[fd] else revents[fd]
  }

  /** The channels of some file descriptors, those that are stored. */
  function ChannelsOf(store: map<int, Channel>, fds: seq<int>): seq<Channel> {
    if fds == [] then []
    else (if fds[0] in store then [store[fds[0]]] else []) + ChannelsOf(store, fds[1..])
  }

  lemma {:induction false} ChannelsSnoc(store: map<int, Channel>, fds: seq<int>, fd: int)
    requires fd in store
    ensures ChannelsOf(store, fds + [fd]) == ChannelsOf(store, fds) + [store[fd]]
    decreases |fds|
  {
    if fds == [] {
      assert [fd][1..] == [];
    } else {
      assert (fds + [fd])[1..] == fds[1..] + [fd];
      ChannelsSnoc(store, fds[1..], fd);
      var first := if fds[0] in store then [store[fds[0]]] else [];
      assert ChannelsOf(store, fds + [fd]) == first + (ChannelsOf(store, fds[1..]) + [store[fd]]);
    }
  }

  lemma ReportStep(store: map<int, Channel>, before: seq<Channel>, seen: seq<int>, fd: int)
    requires fd in store
    ensures seen + [] == seen
    ensures before + ChannelsOf(store, seen + [fd]) == (before + ChannelsOf(store, seen)) + [store[fd]]
  {
    ChannelsSnoc(store, seen, fd);
  }

  /** The file descriptors of some channels. */
  function FdsOf(channels: seq<Channel>): seq<int> {
    seq(|channels|, i requires 0 <= i < |channels| => channels[i].fd)
  }

  lemma {:induction false} FdsOfChannels(store: map<int, Channel>, fds: seq<int>)
    requires forall i | 0 <= i < |fds| :: fds[i] in store && store[fds[i]].fd == fds[i]
    ensures FdsOf(ChannelsOf(store, fds)) == fds
    decreases |fds|
  {
    if fds != [] {
      FdsOfChannels(store, fds[1..]);
      assert ChannelsOf(store, fds) == [store[fds[0]]] + ChannelsOf(store, fds[1..]);
      assert forall i | 0 < i < |fds| :: FdsOf(ChannelsOf(store, fds))[i] == FdsOf(ChannelsOf(store, fds[1..]))[i - 1];
    }
  }

  // ----- sequences without repetition -----

  ghost predicate Distinct(fds: seq<int>) {
    forall i, j | 0 <= i < j < |fds| :: fds[i] != fds[j]
  }

  function Members(fds: seq<int>): set<int> {
    set fd | fd in fds
  }

  lemma {:induction false} DistinctCount(fds: seq<int>)
    requires Distinct(fds)
    ensures |Members(fds)| == |fds|
    decreases |fds|
  {
    if fds != [] {
      DistinctCount(fds[1..]);
      assert Members(fds) == {fds[0]} + Members(fds[1..]);
      assert fds[0] !in Members(fds[1..]);
    }
  }

  /** The active channels are exactly those stored for what happened, each of them once. */
  ghost predicate Reported(active: seq<Channel>, store: map<int, Channel>, ready: map<int, int>) {
    var fds := FdsOf(active);
    && active == ChannelsOf(store, fds)
    && Distinct(fds)
    && Members(fds) == store.Keys * ready.Keys
  }

  // ----- scripts of calls on channels -----

  /** Enabling or disabling events of the channel of a file descriptor, or removing it. */
  datatype Call = Enable(fd: int, mask: Events) | Disable(fd: int, mask: Events) | Remove(fd: int)

  /** What the channels want, by file descriptor, and which of them are watched. */
  datatype Wants = Wants(events: map<int, Events>, watched: set<int>) {
    /** Only a channel that exists may be called, and only one that is watched removed. */
    predicate Allows(call: Call) {
      call.fd in events && (call.Remove? ==> call.fd in watched)
    }

    function After(call: Call): Wants
      requires Allows(call)
    {
      match call
      case Enable(fd, mask) => Wants(events[fd := Enabled(events[fd], mask)], watched + {fd})
      case Disable(fd, mask) => Wants(events[fd := Disabled(events[fd], mask)], watched + {fd})
      case Remove(fd) => Wants(events, watched - {fd})
    }

    predicate AllowsAll(calls: seq<Call>)
      decreases |calls|
    {
      calls == [] || (Allows(calls[0]) && After(calls[0]).AllowsAll(calls[1..]))
    }

    function AfterAll(calls: seq<Call>): Wants
      requires AllowsAll(calls)
      decreases |calls|
    {
      if calls == [] then this else After(calls[0]).AfterAll(calls[1..])
    }

    /** What the kernel should be asked to watch. */
    function Asked(): map<int, Events> {
      map fd | fd in watched && fd in events :: events[fd]
    }
  }

  /** What the kernel is asked to watch. */
  function Wanted(view: map<int, Interest>): map<int, Events> {
    map fd | fd in view :: view[fd].events
  }
}
