/** The part of channel.h that the pollers use. */
module Channels {
  class Channel {
    const fd: nat
    var interestedEvents: nat
    var receivedEvents: int
    var index: int

    constructor (fd: nat)
      ensures this.fd == fd && interestedEvents == 0 && receivedEvents == 0 && index == -1
    {
      this.fd := fd;
      interestedEvents, receivedEvents, index := 0, 0, -1;
    }

    predicate IsNoneEvent()
      reads this
    {
      interestedEvents == 0
    }
  }
}
