/** The display's side of the result channel (src/bin/main.rs:159-168): on
    every repaint the display polls the slot without blocking. A pending
    snapshot replaces the one shown, an empty slot keeps it, and a slot that
    is empty for good (the receiver thread has returned) is a panic. */
module Gui {
  import opened Base
  import opened Channel
  import opened Snapshots
  import Externals
  import Acquisition

  /** What one poll did to the display. */
  datatype Refresh = Unchanged | Replaced | Panicked

  /** One poll of the slot, from the snapshot shown and the channel: the
      snapshot shown afterwards, the channel afterwards, and the outcome. */
  function Drain(current: Option<Snapshot>, c: Chan<Snapshot>): (r: (Option<Snapshot>, Chan<Snapshot>, Refresh))
    ensures r.2 == Replaced <==> c.slot.Some?
    ensures r.2 == Panicked <==> c.slot.None? && !c.senderAlive
    ensures r.2 == Replaced ==> r.0 == c.slot && r.1 == c.(slot := None)
    ensures r.2 != Replaced ==> r.0 == current && r.1 == c
  {
    var (c', res) := Recv(c);
    match res
    case Got(x) => (Some(x), c', Replaced)
    case RecvEmpty => (current, c', Unchanged)
    case RecvDisconnected => (current, c', Panicked)
  }

  /** While the acquisition loop runs, its end of the channel exists, so the
      display never panics. */
  lemma NoPanicWhileRunning(s: Acquisition.LoopState, current: Option<Snapshot>)
    requires Acquisition.Invariant(s) && s.status == Acquisition.Running
    ensures Drain(current, s.tx).2 != Panicked
  {
  }

  /** A snapshot the loop manages to publish is the next one the display
      shows; after that poll the slot has room again. */
  lemma PublishedIsShown(s: Acquisition.LoopState, inp: Acquisition.Input, minAvg: nat, est: Externals.Estimator,
                         current: Option<Snapshot>)
    requires Acquisition.Invariant(s) && s.status == Acquisition.Running
    requires Acquisition.Publishes(s, inp) && s.tx.slot.None? && s.tx.receiverAlive
    ensures var s' := Acquisition.Next(s, inp, minAvg, est);
            var (shown, c, outcome) := Drain(current, s'.tx);
            outcome == Replaced && shown == Some(SnapshotOf(s'.dec, minAvg, est)) && c.slot.None?
  {
    Acquisition.PublishesIff(s, inp, minAvg, est);
  }

  /** Once the loop has ended, a snapshot still pending is shown first; only
      the poll after it panics. */
  lemma LastSnapshotShownBeforePanic(current: Option<Snapshot>, c: Chan<Snapshot>)
    requires !c.senderAlive && c.slot.Some?
    ensures var (shown, c1, first) := Drain(current, c);
            first == Replaced && shown == c.slot &&
            Drain(shown, c1) == (shown, c1, Panicked)
  {
  }

  /** The display: the receiving end of the result channel and the snapshot
      currently plotted. */
  class Fls {
    const rx: SyncChannel<Snapshot>
    var current: Option<Snapshot>

    /** `FLS::new`: nothing to show yet. */
    constructor (rx: SyncChannel<Snapshot>)
      ensures this.rx == rx && current == None
    {
      this.rx := rx;
      current := None;
    }

    /** The poll at the top of `update`. */
    method Update() returns (outcome: Refresh)
      modifies this, rx
      ensures (current, rx.State(), outcome) == Drain(old(current), old(rx.State()))
    {
      var res := rx.TryRecv();
      match res
      case Got(x) =>
        current := Some(x);
        outcome := Replaced;
      case RecvEmpty =>
        outcome := Unchanged;
      case RecvDisconnected =>
        outcome := Panicked;
    }
  }
}
