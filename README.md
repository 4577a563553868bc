# stabilizer-stream receiver, modelled in Dafny

This is a model of the sequential core of the `stabilizer-stream` live
spectrum viewer. The viewer has two threads joined by channels. The
receiver thread reads fixed-size frames from a source, decodes them, and
feeds their traces to a bank of four decimation cascades (the
"accumulators"). Every 101 decoded frames it builds a snapshot of the
bank's PSD estimates and offers it, without blocking, to a channel that
holds one value. The display thread drains that slot on each repaint.

The model has these parts:

- `Base`: shared `Option`/`Result` types, bytes, I/O errors and `Min`.
- `StreamSource` (src/source.rs):
  - `Open` is source construction, choosing file mode or network mode.
  - The class `Source` holds the file bytes and a cursor. Its method `Get`
    has the same retry loop as the source: read a frame; on end-of-file,
    seek to 0 and retry.
  - The function `FileGet` specifies `Get`, and `Replay` specifies a run of
    `Get`s. Lemmas over them prove cyclic replay and that a trailing partial
    frame is never served.
- `Channel` (the `sync_channel(1)` slot):
  - The pure functions `Send`/`Recv` specify `try_send`/`try_recv`.
  - The class `SyncChannel` implements them on mutable fields.
  - Lemmas over event histories prove that nothing is lost or duplicated
    and that accepted values keep their order.
- `Externals`: the collaborators the loop drives but whose code is not part
  of this model. Frames, cascades (represented by what they were fed),
  breaks, the loss tracker (the record of calls made to it) and the PSD and
  `log10` functions (uninterpreted).
- `Snapshots`: the construction of the published traces (src/bin/main.rs:80-96).
- `Acquisition` (the receiver loop, src/bin/main.rs:41-112):
  - The step function `Next` over an explicit `LoopState`, and `Run`, which
    iterates it over a sequence of inputs.
  - The loop invariant, and lemmas for every branch of the step.
  - Proofs about runs: the publication period and equal feeding of the
    cascades (for runs without commands), the bank staying balanced across
    any commands, `Reset` included, and `analyze` running once. The
    equal-feeding results hold for frames with a trace per cascade.
  - The class `Receiver`, whose `Step`/`Receive` methods run the loop on
    mutable fields and are proved equal to `Next`/`Run`.
- `Gui`: the display's non-blocking poll of the slot (src/bin/main.rs:159-168),
  as the function `Drain` and the method `Fls.Update`.

The inputs of an iteration are its three observations: the command poll,
the result of `Source::get`, and the result of decoding the frame.
Operating-system answers are parameters: file contents, faults per file
operation, socket set-up results and received datagrams.

Where the code and its documentation differ, the model follows the code:

- A socket read timeout is not recoverable. `socket.recv(buf)?`
  (src/source.rs:65) and `source.get(&mut buf)?` (src/bin/main.rs:66) end
  the receiver loop on any receive error, a timeout included. `Next` sends
  every `Err` from the source to `Failed`.
- When the slot is full, the loop's new snapshot is dropped and the older,
  still-pending snapshot is what the display receives (src/bin/main.rs:97-101).
  So the display does not always get the latest snapshot.
- Cascade `k` is fed trace `k` only while both last (`zip`, src/bin/main.rs:70).
  The cascades stay fed equally only when every decoded frame carries at
  least four traces. `FedPerFrame` and `FedSinceInit` assume this.
  `RunBalanced` and `BalancedFromStart` assume this as well.
  `NarrowFrameSkipsCascades` shows what happens otherwise.

## Model

| member | source | states |
|---|---|---|
| StreamSource.Open | src/source.rs:37-50 | File mode with the file's contents and `frame_size` iff a file is named and opens. A named file that fails to open is that error. Otherwise network mode: a socket on ip:port, receive buffer 1 << 20, read timeout 1000 ms. It fails with the first failing set-up call, bind first. |
| StreamSource.Served | src/source.rs:54-61 | The served frame lies inside the file and starts either at the cursor or at offset 0. The body chooses the cursor when a whole frame fits there, and 0 (after the rewind) otherwise. |
| StreamSource.FileGet | src/source.rs:52-64 | A fault-free `get` returns exactly `n` and moves the cursor to the served offset plus `n`. Errors come only from the file operations and propagate unchanged. A failing first read ends `get` with its error and leaves the cursor in place. After end-of-file, a failing seek ends `get` with the seek's error, and otherwise a failing retried read ends it with that read's error. With no fault, the read at a cursor where a frame fits returns `n` and advances by `n`. |
| StreamSource.Source.Get | src/source.rs:52-66 | The method with the retry loop agrees with FileGet on result and cursor. On success `buf[..n]` is the frame at the served offset, and bytes past `n` are untouched. In network mode the datagram is copied, truncated to the buffer, and its length is returned, and the bytes of `buf` past it are untouched; a receive error is returned as is. Requires `n <= buf.len()` (the slice) and a file holding at least one frame (termination). |
| StreamSource.Fill | src/source.rs:55 | `read_exact` into `buf[..n]`: `buf` starts with the given bytes, and the rest of `buf` is unchanged |
| StreamSource.ShortFileNeverFits | src/source.rs:54-61 | a file shorter than one frame hits end-of-file at every cursor and after every rewind, so `get` would loop forever |
| StreamSource.FaultFreeGet | src/source.rs:54-61 | a fault-free `get` is one step of `Replay`: result `n`, cursor at the served offset plus `n` |
| StreamSource.ServeStep | src/source.rs:54-61 | From a cursor on frame boundary `m`, the frame served is frame `m mod ⌊L/n⌋`, and the cursor moves to the following boundary. |
| StreamSource.ReplayAt | src/source.rs:54-64 | from frame boundary `m`, the `j`-th of `k` successive `get`s serves frame `(m + j) mod ⌊L/n⌋`, proved one index at a time |
| StreamSource.ReplayFrom | src/source.rs:54-64 | from frame boundary `m`, the `j`-th successive `get` serves frame `(m + j) mod ⌊L/n⌋` |
| StreamSource.Cyclic | src/source.rs:54-64 | from the start of the file, successive `get`s serve frames 0, 1, …, ⌊L/n⌋−1, then frame 0 again, cyclically |
| StreamSource.NoPartialFrame | src/source.rs:54-64 | no served frame reaches into the trailing `L mod n` bytes |
| StreamSource.Source.constructor | src/source.rs:38-43 | a new file source starts reading at offset 0 of the file |
| StreamSource.DefaultFrameFits | src/source.rs:26-27 | A capture file opened with the default frame size 1400 and holding at least one frame yields a file source. That source meets `Get`'s precondition for the loop's 2048-byte buffer (src/bin/main.rs:47). |
| Channel.Pending | src/bin/main.rs:40 | the capacity-one slot holds at most one value |
| Channel.Send | src/bin/main.rs:97-105 | `try_send` never blocks. It reports `Disconnected` once the receiver is gone. Otherwise it reports `Sent` iff the slot is empty, and then the slot holds the value; it reports `Full` iff the slot is occupied, and then the channel is unchanged and the new value is dropped. |
| Channel.Recv | src/bin/main.rs:159-164 | `try_recv` delivers and removes a pending value, even when the sender is gone. On an empty slot it is `Disconnected` iff the sender is gone, `Empty` otherwise, and the channel is unchanged. |
| Channel.SendThenRecv | src/bin/main.rs:97-98 | an offer to an empty, connected slot is the next value polled, and the slot is then empty again |
| Channel.Conservation | src/bin/main.rs:40 | in any event history, the initially pending value followed by the accepted values equals the delivered values followed by what is finally pending |
| Channel.FullSlotKept | src/bin/main.rs:99-101 | a full slot keeps its value against any number of offers, none of which is accepted |
| Channel.AcceptedInOrder | src/bin/main.rs:97-105 | the accepted values are a subsequence of the offered ones: snapshots reach the display in publication order, with gaps, never repeated or reordered |
| Channel.SyncChannel.constructor | src/bin/main.rs:40 | `sync_channel(1)` starts with an empty slot and both ends alive |
| Channel.SyncChannel.DropSender | src/bin/main.rs:109-111 | when the receiver thread returns, its sending end is dropped; the slot and the receiving end are unchanged |
| Channel.SyncChannel.TrySend | src/bin/main.rs:97-105 | the mutable slot changes as `Send` says and returns its result |
| Channel.SyncChannel.TryRecv | src/bin/main.rs:159-164 | the mutable slot changes as `Recv` says and returns its result |
| Snapshots.Zip | src/bin/main.rs:88-89 | `zip` pairs elements index by index, up to the shorter length |
| Snapshots.Reverse | src/bin/main.rs:90 | `rev` puts element `|s|-1-j` at index `j` |
| Snapshots.SkipFirst | src/bin/main.rs:91 | `skip(1)` drops the first element: one element fewer, saturating at 0, and element `j` is the input's element `j + 1` |
| Snapshots.Points | src/bin/main.rs:92 | each pair maps to (log10 f, 10·log10 p), in order |
| Snapshots.PsdPoints | src/bin/main.rs:87-93 | The plotted trace has length min(|f|,|p|) − 1, saturating at 0. Its point `j` is built from index `|r|−1−j` (that is, min(|f|,|p|)−2−j) of `f` and `p`. So the pairs are reversed, and the highest index (the DC term) is dropped. |
| Snapshots.TraceOf | src/bin/main.rs:82-95 | The trace of one cascade holds the breaks of its estimate. It also holds the plotted points of the estimate over the frequency axis of those breaks, one point fewer than the shorter of the two. |
| Snapshots.SnapshotOf | src/bin/main.rs:80-96 | one trace per cascade, in bank order: trace `k` is `TraceOf` cascade `k`, holding that cascade's breaks and its plotted estimate |
| Acquisition.FreshBank | src/bin/main.rs:56-62 | the created bank is exactly four cascades, each of FFT size 512, stage length 3, `Detrend::Mid`, fed nothing |
| Acquisition.Feed | src/bin/main.rs:70-73 | cascade `k` is fed trace `k` for `k` below the number of traces; the other cascades are unchanged; the bank keeps its size |
| Acquisition.Terminate | src/bin/main.rs:51 | Leaving the loop normally (`break`, then `loss.analyze()` at line 109 and the thread's return) marks the loop finished. `analyze` has then run once more, the result sender is dropped, and the bank, counter, tracker updates and slot are unchanged. |
| Acquisition.Command | src/bin/main.rs:50-54 | `Exit` or a disconnected command channel terminates, `Reset` clears the bank, and no command changes nothing |
| Acquisition.Init | src/bin/main.rs:56-64 | an empty bank becomes a fresh bank of four cascades with the counter at 0; an existing bank is left as it is |
| Acquisition.Ingest | src/bin/main.rs:66-77 | A source error fails the loop with that error, drops the sender and changes nothing else. A decoded frame adds its sequence number to the tracker, feeds the bank and adds 1 to the counter. A decode failure changes nothing. |
| Acquisition.Ingested | src/bin/main.rs:50-77 | The part of an iteration before publication, when the poll does not end the loop, leaves four configured cascades and a counter of at most 101. `analyze` has not run, the loop has not finished, and the result sender is alive iff the loop still runs. |
| Acquisition.Publish | src/bin/main.rs:78-106 | past 100 the counter restarts at 0 and the channel becomes `Send` of the bank's snapshot; otherwise the channel is untouched; bank, tracker and status never change |
| Acquisition.Next | src/bin/main.rs:49-106 | The step keeps the loop invariant: bank size 0 or 4, all cascades configured, counter at most 100, analyze-count and sender liveness tied to the status. An ending poll terminates. Any other poll leaves a bank of four. |
| Acquisition.SourceErrorFails | src/bin/main.rs:66 | A source error ends the loop with that error. `analyze` is not reached, the tracker and the slot are untouched, and the result sender is dropped. |
| Acquisition.ResetRefills | src/bin/main.rs:52-64 | `Reset` empties the bank, and the same iteration refills it with a fresh bank, sets `i` to 0 and then processes that iteration's frame |
| Acquisition.DecodeFailureIgnored | src/bin/main.rs:67-76 | a decode failure leaves the whole state unchanged: no cascade, no tracker update, no count |
| Acquisition.DecodedFrameCounted | src/bin/main.rs:67-79 | A decoded frame adds its sequence number to the tracker once and is fed to the bank trace by trace. The counter becomes `(i + 1) mod 101`. |
| Acquisition.PublishesIff | src/bin/main.rs:78-101 | `Publishes` (no command, no source error, a decoded frame, and `i = 100` at the start) holds iff the loop's own test holds: the poll does not end the loop, the frame step leaves it running, and the counter then exceeds 100. A publishing iteration leaves `i = 0` and offers the snapshot of the fed bank to the slot. Otherwise the slot is unchanged. |
| Acquisition.Run | src/bin/main.rs:49-107 | every run keeps the invariant, and a run that has ended stays where it is |
| Acquisition.QuietStep | src/bin/main.rs:66-79 | an iteration without command or source error keeps running, moves the counter by the decoded frames modulo 101, and publishes exactly when that wraps |
| Acquisition.QuietCountPeriod | src/bin/main.rs:74-79 | by the counting rule alone (add 1 per decoded frame, restart after 100), `n` decoded frames from counter `i` end at `(i + n) mod 101` after `(i + n) div 101` restarts |
| Acquisition.RunCounter | src/bin/main.rs:66-79 | a run without commands or source errors keeps running, and its counter follows the counting rule |
| Acquisition.RunPublications | src/bin/main.rs:66-106 | a run without commands or source errors offers exactly as many snapshots as the counting rule restarts the counter |
| Acquisition.PublicationPeriod | src/bin/main.rs:66-106 | Without commands or source errors, after `n` decoded frames the counter is `(i + n) mod 101`, and `(i + n) div 101` snapshots have been offered. This holds whatever decode failures come in between. |
| Acquisition.FirstPublication | src/bin/main.rs:63-79 | after a fresh init, no snapshot is offered iff fewer than 101 frames have been decoded, so the 101st decoded frame triggers the first |
| Acquisition.FedPerFrame | src/bin/main.rs:56-77 | with frames carrying a trace per cascade, every cascade is fed once per decoded frame, so the cascades stay fed equally |
| Acquisition.FedSinceInit | src/bin/main.rs:56-79 | Starting from a bank whose cascades have each been fed `i` traces (a fresh init, or a `Reset` iteration), a run without commands leaves every cascade fed 101 × (snapshots offered) + `i` traces. This assumes frames carry a trace per cascade. |
| Acquisition.NextBalanced | src/bin/main.rs:50-106 | Every iteration keeps the cascades fed equally, with 101 × k + `i` traces each for some k. This holds for any command, including `Reset`, which restarts the bank at zero fed traces. It assumes the frame carries a trace per cascade. |
| Acquisition.RunBalanced | src/bin/main.rs:49-107 | over any run, whatever commands it carries, a balanced bank stays balanced, assuming every decoded frame carries a trace per cascade |
| Acquisition.BalancedFromStart | src/bin/main.rs:44-107 | from the loop's initial state, every state reached has all cascades fed equally (101 × k + `i` traces), assuming every decoded frame carries a trace per cascade |
| Acquisition.NarrowFrameSkipsCascades | src/bin/main.rs:70 | a frame with fewer than four traces leaves the last cascade unfed while feeding the first, so the bank no longer agrees |
| Acquisition.AnalyzeOnce | src/bin/main.rs:50-51 | from the initial state, `analyze` has run exactly once if the loop ended normally and never otherwise |
| Acquisition.Receiver.constructor | src/bin/main.rs:44-48 | a fresh tracker, an empty bank and counter 0 |
| Acquisition.Receiver.Step | src/bin/main.rs:49-106 | one loop body on the mutable bank, counter, tracker and channel equals `Next`, and reports whether it published |
| Acquisition.Receiver.HandleCommand | src/bin/main.rs:50-54 | the command match on the mutable state equals `Command` |
| Acquisition.Receiver.MakeBank | src/bin/main.rs:56-64 | the loop that fills an empty bank with four fresh cascades, then restarts the counter, equals `Init`; a non-empty bank is untouched |
| Acquisition.Receiver.TakeFrame | src/bin/main.rs:66-77 | reading and decoding one frame on the mutable state equals `Ingest` |
| Acquisition.Receiver.PublishIfDue | src/bin/main.rs:78-106 | the publication test on the mutable state equals `Publish`, and reports whether the counter had passed 100 |
| Acquisition.Receiver.FeedBank | src/bin/main.rs:70-73 | the in-place feeding loop yields `Feed` of the old bank and touches nothing else |
| Acquisition.Receiver.Receive | src/bin/main.rs:49-107 | the loop run until it breaks or the inputs end equals `Run`, and counts exactly `Publications` |
| Gui.Drain | src/bin/main.rs:159-168 | The display's poll replaces the shown snapshot iff one is pending, and empties the slot. It panics iff the slot is empty and the sender is gone. Otherwise nothing changes. |
| Gui.NoPanicWhileRunning | src/bin/main.rs:164-166 | while the receiver loop runs, the display's poll never panics |
| Gui.PublishedIsShown | src/bin/main.rs:97-98 | a snapshot offered to an empty slot is the next one the display shows |
| Gui.LastSnapshotShownBeforePanic | src/bin/main.rs:159-166 | after the loop ends, a pending snapshot is still shown; only the next poll panics |
| Gui.Fls.constructor | src/bin/main.rs:137-149 | `FLS::new` starts with nothing shown, on the given receiving end |
| Gui.Fls.Update | src/bin/main.rs:159-168 | the poll on the mutable display state and channel equals `Drain` |

## Left out

- The GUI itself is presentation only and is not modelled: eframe/egui plotting, the window options, the Reset button and the sample-count label (src/bin/main.rs:113-123, 169-206). The one part included is the slot poll.
- `ctx.request_repaint_after` (src/bin/main.rs:163) after a new snapshot arrives is a repaint request to the GUI toolkit and is not modelled.
- `FLS::new` setting the light theme, and the display's command sender, are not modelled (src/bin/main.rs:142, 132).
- `on_exit` sending `Cmd::Exit` is not modelled as an operation; the command poll is an input of each iteration.
- Threads, `spawn`/`join` and the real `mpsc` implementation are not modelled. Both channels are sequential state: the command poll is an input, and the result channel is a one-value slot. Interleavings of the two threads are not modelled.
- `Source::new` failing inside the receiver thread (src/bin/main.rs:42) is covered by `Open` returning `Err`. The loop model starts after a successful construction.
- `PsdCascade`, `Frame::from_bytes`, `Loss` and `Break` are defined in files that are not part of this model. A cascade is its configuration and the traces it was fed. The loss tracker is the list of sequence numbers of the frames passed to `update` and the `analyze` count. Nothing else of a frame is recorded. Decoding is an input.
- The PSD estimate, the frequency axis and `log10` are uninterpreted functions, and floating-point arithmetic is not modelled. `f32` to `f64` widening is not modelled either.
- UDP bind, socket options and `recv` are operating-system I/O. Their outcomes are parameters (`NetSetup`, the datagram), and the IP/port defaults come from argument parsing.
- `clap` argument parsing, `env_logger` and all `log` output are not modelled.
- StreamSource.FileGet: how many bytes a failing read consumes before its error is not modelled. On such an error the cursor is at the file's end (an end-of-file read), at 0 (after the seek) or unchanged (the first read).
- StreamSource.Source.Get: after an error, the contents of `buf` are not specified.
- StreamSource.Source.Get requires the file to hold at least one frame. With a shorter file the source loops forever. `ShortFileNeverFits` states why, and the model does not represent divergence.
- Acquisition.FedPerFrame and Acquisition.FedSinceInit are stated only for runs without commands. The invariant across commands, `Reset` included, is `RunBalanced`, which says the fed count is 101 × k + `i` for some k rather than naming k.
- Acquisition.FedPerFrame, Acquisition.FedSinceInit, Acquisition.NextBalanced, Acquisition.RunBalanced and Acquisition.BalancedFromStart are stated only for frames with at least four traces. For narrower frames the equal-feeding invariant of the bank does not hold; see NarrowFrameSkipsCascades.
- The snapshot thread-handoff move semantics (`Vec<Trace>` ownership) is represented by value copies.
