/** The result handoff channel (`mpsc::sync_channel(1)`, src/bin/main.rs:40):
    one slot shared by the acquisition loop, which offers snapshots with
    `try_send`, and the display, which drains it with `try_recv`. Neither side
    ever blocks. An offer that finds the slot full is dropped and the pending
    value is kept. */
module Channel {
  import opened Base

  /** The channel's state: the slot, and whether each end still exists. */
  datatype Chan<T> = Chan(slot: Option<T>, senderAlive: bool, receiverAlive: bool)

  /** The outcome of `try_send`: `Ok(())`, `Full(_)` or `Disconnected(_)`. */
  datatype SendResult = Sent | Full | SendDisconnected

  /** The outcome of `try_recv`: a value, `Empty` or `Disconnected`. */
  datatype RecvResult<T> = Got(value: T) | RecvEmpty | RecvDisconnected

  /** The slot as a sequence of at most one pending value. */
  function Pending<T>(c: Chan<T>): (q: seq<T>)
    ensures |q| <= 1
    ensures |q| == 1 <==> c.slot.Some?
  {
    match c.slot
    case Some(x) => [x]
    case None => []
  }

  /** `try_send(x)`. A vanished receiver is reported first; otherwise an empty
      slot takes `x` and a full one is left as it is, `x` being dropped. */
  function Send<T>(c: Chan<T>, x: T): (r: (Chan<T>, SendResult))
    ensures r.1 == Sent <==> c.receiverAlive && c.slot.None?
    ensures r.1 == Full <==> c.receiverAlive && c.slot.Some?
    ensures r.1 == Sent ==> r.0 == c.(slot := Some(x))
    ensures r.1 != Sent ==> r.0 == c
  {
    if !c.receiverAlive then (c, SendDisconnected)
    else if c.slot.Some? then (c, Full)
    else (c.(slot := Some(x)), Sent)
  }

  /** `try_recv()`. A pending value is delivered even after the sender has
      gone; an empty slot reads as `Disconnected` once the sender has gone and
      as `Empty` before. */
  function Recv<T>(c: Chan<T>): (r: (Chan<T>, RecvResult<T>))
    ensures c.slot.Some? ==> r == (c.(slot := None), Got(c.slot.value))
    ensures c.slot.None? ==> r.0 == c && !r.1.Got?
    ensures c.slot.None? ==> (r.1 == RecvDisconnected <==> !c.senderAlive)
  {
    match c.slot
    case Some(x) => (c.(slot := None), Got(x))
    case None => (c, if c.senderAlive then RecvEmpty else RecvDisconnected)
  }

  /** An offer followed by a poll on an empty, connected channel hands the
      value over and leaves the channel empty again. */
  lemma SendThenRecv<T>(c: Chan<T>, x: T)
    requires c.slot.None? && c.receiverAlive
    ensures Recv(Send(c, x).0) == (c, Got(x))
  {
  }

  /** One event on the channel, from either side. */
  datatype Event<T> = Offer(value: T) | Poll

  /** What a sequence of events did: the final channel, the values the
      channel accepted (offers not dropped) and the values delivered. */
  datatype History<T> = History(chan: Chan<T>, accepted: seq<T>, delivered: seq<T>)

  /** The channel after a sequence of events, with what it accepted and
      what it delivered along the way. */
  function RunEvents<T>(c: Chan<T>, events: seq<Event<T>>): (h: History<T>)
    decreases |events|
  {
    if events == [] then History(c, [], [])
    else
      var last := events[|events| - 1];
      var h := RunEvents(c, events[..|events| - 1]);
      match last
      case Offer(x) =>
        var (c', res) := Send(h.chan, x);
        History(c', if res == Sent then h.accepted + [x] else h.accepted, h.delivered)
      case Poll =>
        var (c', res) := Recv(h.chan);
        History(c', h.accepted, if res.Got? then h.delivered + [res.value] else h.delivered)
  }

  /** The offered values of a sequence of events, in order. */
  function Offered<T>(events: seq<Event<T>>): (xs: seq<T>)
    decreases |events|
  {
    if events == [] then []
    else
      var front := Offered(events[..|events| - 1]);
      match events[|events| - 1]
      case Offer(x) => front + [x]
      case Poll => front
  }

  /** `xs` can be obtained from `ys` by deleting elements. */
  ghost predicate Subsequence<T>(xs: seq<T>, ys: seq<T>)
    decreases |ys|
  {
    if xs == [] then true
    else if ys == [] then false
    else if xs[|xs| - 1] == ys[|ys| - 1] then Subsequence(xs[..|xs| - 1], ys[..|ys| - 1])
    else Subsequence(xs, ys[..|ys| - 1])
  }

  lemma {:induction false} SubsequenceExtend<T>(xs: seq<T>, ys: seq<T>, y: T)
    requires Subsequence(xs, ys)
    ensures Subsequence(xs, ys + [y])
    decreases |ys|, 1
  {
    assert (ys + [y])[..|ys|] == ys;
    if xs != [] && xs[|xs| - 1] == y {
      SubsequenceDropLast(xs, ys);
    }
  }

  lemma {:induction false} SubsequenceDropLast<T>(xs: seq<T>, ys: seq<T>)
    requires xs != [] && Subsequence(xs, ys)
    ensures Subsequence(xs[..|xs| - 1], ys)
    decreases |ys|, 0
  {
    var front, last := ys[..|ys| - 1], ys[|ys| - 1];
    assert ys == front + [last];
    if xs[|xs| - 1] == last {
      SubsequenceExtend(xs[..|xs| - 1], front, last);
    } else {
      SubsequenceDropLast(xs, front);
      SubsequenceExtend(xs[..|xs| - 1], front, last);
    }
  }

  lemma SubsequenceSnoc<T>(xs: seq<T>, ys: seq<T>, y: T)
    requires Subsequence(xs, ys)
    ensures Subsequence(xs + [y], ys + [y])
  {
    assert (ys + [y])[..|ys|] == ys;
    assert (xs + [y])[..|xs|] == xs;
  }

  /** Nothing is lost inside the channel and nothing is duplicated: what was
      pending at the start, followed by every accepted value, is exactly what
      was delivered followed by what is pending at the end. The slot never
      holds more than one value. */
  lemma {:induction false} Conservation<T>(c: Chan<T>, events: seq<Event<T>>)
    ensures Pending(c) + RunEvents(c, events).accepted == RunEvents(c, events).delivered + Pending(RunEvents(c, events).chan)
    decreases |events|
  {
    if events != [] {
      var front := events[..|events| - 1];
      Conservation(c, front);
      var h := RunEvents(c, front);
      match events[|events| - 1]
      case Offer(x) =>
        if h.chan.slot.None? && h.chan.receiverAlive {
          assert Pending(c) + (h.accepted + [x]) == (Pending(c) + h.accepted) + [x];
        }
      case Poll =>
        if h.chan.slot.Some? {
          assert h.delivered + Pending(h.chan) == (h.delivered + [h.chan.slot.value]) + [];
        }
    }
  }

  /** A full slot keeps its value against any number of offers. */
  lemma {:induction false} FullSlotKept<T>(c: Chan<T>, events: seq<Event<T>>)
    requires c.slot.Some?
    requires forall k :: 0 <= k < |events| ==> events[k].Offer?
    ensures RunEvents(c, events).chan == c && RunEvents(c, events).accepted == []
    decreases |events|
  {
    if events != [] {
      FullSlotKept(c, events[..|events| - 1]);
    }
  }

  /** The accepted values are some of the offered ones, in the order they were
      offered: the display sees snapshots in publication order, with gaps but
      never a repeat or a reordering. */
  lemma {:induction false} AcceptedInOrder<T>(c: Chan<T>, events: seq<Event<T>>)
    ensures Subsequence(RunEvents(c, events).accepted, Offered(events))
    decreases |events|
  {
    if events != [] {
      var front := events[..|events| - 1];
      AcceptedInOrder(c, front);
      match events[|events| - 1]
      case Offer(x) =>
        var h := RunEvents(c, front);
        if h.chan.slot.None? && h.chan.receiverAlive {
          SubsequenceSnoc(h.accepted, Offered(front), x);
        } else {
          SubsequenceExtend(h.accepted, Offered(front), x);
        }
      case Poll =>
    }
  }

  /** The slot of a channel whose two ends are separate threads. */
  class SyncChannel<T> {
    var slot: Option<T>
    var senderAlive: bool
    var receiverAlive: bool

    function State(): Chan<T>
      reads this
    {
      Chan(slot, senderAlive, receiverAlive)
    }

    /** `sync_channel(1)`: empty, both ends alive. */
    constructor ()
      ensures State() == Chan(None, true, true)
    {
      slot := None;
      senderAlive := true;
      receiverAlive := true;
    }

    method TrySend(x: T) returns (r: SendResult)
      modifies this
      ensures (State(), r) == Send(old(State()), x)
    {
      if !receiverAlive {
        r := SendDisconnected;
      } else if slot.Some? {
        r := Full;
      } else {
        slot := Some(x);
        r := Sent;
      }
    }

    method TryRecv() returns (r: RecvResult<T>)
      modifies this
      ensures (State(), r) == Recv(old(State()))
    {
      match slot
      case Some(x) =>
        slot := None;
        r := Got(x);
      case None =>
        r := if senderAlive then RecvEmpty else RecvDisconnected;
    }

    /** The sending end is dropped (its thread has returned). */
    method DropSender()
      modifies this
      ensures State() == old(State()).(senderAlive := false)
    {
      senderAlive := false;
    }
  }
}
