/** prepareStreamForDelivery and bufferedEventStream (internal/server/public.go): an upstream stream
    is read far enough to know that it works, and what was read is delivered from a buffer. */
module Delivery {
  import opened Text

  datatype Event = Quota(id: int) | Problem(id: int) | Plain(id: int) | Terminal(id: int)

  datatype Ending = EndOfStream | Broken(status: int)

  datatype Failure = Incomplete | Reported(event: Event) | Lost(status: int)

  /** The events that are delivered: all but the quota notices. */
  function Delivered(events: seq<Event>): seq<Event> {
    if events == [] then []
    else (if events[0].Quota? then [] else [events[0]]) + Delivered(events[1..])
  }

  lemma {:induction false} DeliveredSnoc(events: seq<Event>, n: nat)
    requires n < |events|
    ensures Delivered(events[..n + 1]) == Delivered(events[..n]) + if events[n].Quota? then [] else [events[n]]
  {
    if n > 0 {
      DeliveredSnoc(events[1..], n - 1);
      assert events[..n + 1][1..] == events[1..][..n] && events[..n][1..] == events[1..][..n - 1];
    }
  }

  /** How far a stream is read: to its first event, or for a whole response to its terminal one. */
  predicate Enough(e: Event, streaming: bool) {
    !e.Quota? && !e.Problem? && (streaming || e.Terminal?)
  }

  class UpstreamStream {
    var events: seq<Event>
    const ending: Ending

    constructor (events: seq<Event>, ending: Ending)
      ensures this.events == events && this.ending == ending
    {
      this.events, this.ending := events, ending;
    }

    /** None at the end, however the stream ended. */
    method NextEvent() returns (event: Option<Event>)
      modifies this`events
      ensures if old(events) == [] then event == None && events == []
              else event == Some(old(events)[0]) && events == old(events)[1..]
    {
      if events == [] {
        return None;
      }
      event := Some(events[0]);
      events := events[1..];
    }
  }

  class BufferedEventStream {
    var events: seq<Event>
    const stream: UpstreamStream

    constructor (events: seq<Event>, stream: UpstreamStream)
      ensures this.events == events && this.stream == stream
    {
      this.events, this.stream := events, stream;
    }

    /** What is still to come. */
    ghost function Remaining(): seq<Event>
      reads this, stream
    {
      events + stream.events
    }

    method NextEvent() returns (event: Option<Event>)
      modifies this`events, stream`events
      ensures if old(Remaining()) == [] then event == None && Remaining() == []
              else event == Some(old(Remaining())[0]) && Remaining() == old(Remaining())[1..]
    {
      if |events| > 0 {
        event := Some(events[0]);
        events := events[1..];
        assert old(events + stream.events)[1..] == old(events)[1..] + old(stream.events);
        return;
      }
      event := stream.NextEvent();
    }
  }

  datatype Prepared = Ready(stream: BufferedEventStream) | Failing(failure: Failure)

  /** The stream is read up to the first event that is enough, unless it reports a problem or ends
      before; nothing that was read is lost but the quota notices. */
  method PrepareStreamForDelivery(stream: UpstreamStream, streaming: bool) returns (prepared: Prepared, ghost n: nat)
    modifies stream`events
    ensures n <= |old(stream.events)| && stream.events == old(stream.events)[n..]
    ensures forall i | 0 <= i < n - 1 :: !old(stream.events)[i].Problem? && !Enough(old(stream.events)[i], streaming)
    ensures prepared.Ready? ==>
      && n > 0 && Enough(old(stream.events)[n - 1], streaming)
      && fresh(prepared.stream) && prepared.stream.stream == stream
      && prepared.stream.Remaining() == Delivered(old(stream.events)[..n]) + old(stream.events)[n..]
    ensures prepared.Failing? ==>
      if n > 0 && old(stream.events)[n - 1].Problem? then prepared.failure == Reported(old(stream.events)[n - 1])
      else
        && n == |old(stream.events)| && (n > 0 ==> !Enough(old(stream.events)[n - 1], streaming))
        && prepared.failure == (if stream.ending == EndOfStream then Incomplete else Lost(stream.ending.status))
  {
    var buffered: seq<Event> := [];
    ghost var all := stream.events;
    n := 0;
    while true
      invariant n <= |all| && stream.events == all[n..] && buffered == Delivered(all[..n])
      invariant forall i | 0 <= i < n :: !all[i].Problem? && !Enough(all[i], streaming)
      decreases |stream.events|
    {
      var event := stream.NextEvent();
      if event == None {
        return Failing(if stream.ending == EndOfStream then Incomplete else Lost(stream.ending.status)), n;
      }
      DeliveredSnoc(all, n);
      n := n + 1;
      if event.value.Problem? {
        return Failing(Reported(event.value)), n;
      }
      if !event.value.Quota? {
        buffered := buffered + [event.value];
        if streaming || event.value.Terminal? {
          var ready := new BufferedEventStream(buffered, stream);
          return Ready(ready), n;
        }
      }
    }
  }
}
