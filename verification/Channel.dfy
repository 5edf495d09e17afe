/** A channel: what is wanted of one file descriptor, and what has happened to it. */
module Channels {

  type Events = bv16

  class Channel {
    const fd: int
    var events: Events
    var revents: int
    var index: int

    constructor (fd: int)
      ensures this.fd == fd && events == 0 && revents == 0 && index == -1
    {
      this.fd := fd;
      events, revents, index := 0, 0, -1;
    }

    method SetRevents(revents: int)
      modifies this`revents
      ensures this.revents == revents
    {
      this.revents := revents;
    }

    method SetIndex(index: int)
      modifies this`index
      ensures this.index == index
    {
      this.index := index;
    }

    method SetEvents(events: Events)
      modifies this`events
      ensures this.events == events
    {
      this.events := events;
    }
  }

  // What enable_reading and the like make of the events, before they call update: the mask
  // is that of the read events or of the write event.

  function Enabled(events: Events, mask: Events): (r: Events)
    ensures r & mask == mask
    ensures r & !mask == events & !mask
  {
    events | mask
  }

  function Disabled(events: Events, mask: Events): (r: Events)
    ensures r & mask == 0
    ensures r & !mask == events & !mask
  {
    events & !mask
  }
}
