/** The acquisition loop of the receiver thread (src/bin/main.rs:41-112).
    Each iteration polls the command channel, lazily (re)creates the bank of
    four cascades, feeds one frame to it and, every 101 decoded frames,
    offers a snapshot of the bank to the display through the capacity-one
    channel. The loop's behaviour is given by the step function Next over an
    explicit LoopState; the class Receiver runs it on mutable fields. */
module Acquisition {
  import opened Base
  import opened Externals
  import opened Snapshots
  import opened Channel

  /** Number of cascades in the bank, one per channel. */
  const BANK_SIZE: nat := 4
  /** Stage length every cascade is configured with. */
  const STAGE_LENGTH: nat := 3
  /** FFT size of a cascade (1 << 9). */
  const FFT_SIZE: nat := 512
  /** A snapshot is published once the frame counter exceeds this. */
  const THRESHOLD: nat := 100
  /** Decoded frames per publication. */
  const PERIOD: nat := 101

  /** A command from the display thread. */
  datatype Cmd = Exit | Reset

  /** What a non-blocking `try_recv` on the command channel yields. */
  datatype CmdPoll = Empty | Received(cmd: Cmd) | Disconnected

  /** What one iteration observes: the command poll, the result of reading
      the source, and the result of decoding what was read. The last two are
      not consulted when the poll ends the loop. */
  datatype Input = Input(poll: CmdPoll, fetched: Result<nat, IoError>, decoded: Result<Frame, DecodeError>)

  /** Whether the loop is still running, has left it normally (the thread
      returns `Ok`), or was ended by a source error (the thread returns it). */
  datatype Status = Running | Finished | Failed(error: IoError)

  /** The state of the receiver thread: the bank `dec`, the frame counter
      `i`, the loss tracker, the status, and the result channel. */
  datatype LoopState = LoopState(dec: seq<Cascade>, i: nat, loss: Loss, status: Status, tx: Chan<Snapshot>)

  /** The state on entering the loop: empty bank, counter 0, fresh tracker. */
  function Initial(tx: Chan<Snapshot>): LoopState
  {
    LoopState([], 0, Loss([], 0), Running, tx)
  }

  /** A cascade as the bank creates it: stage length 3, `Detrend::Mid`. */
  function FreshCascade(): Cascade
  {
    Cascade(FFT_SIZE, STAGE_LENGTH, Mid, [])
  }

  predicate Configured(c: Cascade)
  {
    c.fftSize == FFT_SIZE && c.stageLength == STAGE_LENGTH && c.detrend == Mid
  }

  /** A freshly created bank: four identically configured cascades that have
      been fed nothing. */
  function FreshBank(): (bank: seq<Cascade>)
    ensures |bank| == BANK_SIZE
    ensures forall k :: 0 <= k < |bank| ==> bank[k] == FreshCascade()
  {
    [FreshCascade(), FreshCascade(), FreshCascade(), FreshCascade()]
  }

  /** `dec.iter_mut().zip(traces)`: cascade `k` is fed trace `k`, for as many
      cascades as there are traces; the others are left alone. */
  function Feed(dec: seq<Cascade>, traces: seq<Samples>): (r: seq<Cascade>)
    ensures |r| == |dec|
    ensures forall k :: 0 <= k < |dec| ==>
      r[k] == if k < |traces| then dec[k].(fed := dec[k].fed + [traces[k]]) else dec[k]
    decreases |dec|
  {
    if dec == [] || traces == [] then dec
    else [dec[0].(fed := dec[0].fed + [traces[0]])] + Feed(dec[1..], traces[1..])
  }

  /** The poll ends the loop: an `Exit` command, or every sender gone. */
  predicate Ends(poll: CmdPoll)
  {
    poll.Disconnected? || poll == Received(Exit)
  }

  /** Leaving the loop normally: `loss.analyze()` runs, the thread returns
      and its result sender is dropped. */
  function Terminate(s: LoopState): (t: LoopState)
    ensures t.status == Finished && t.loss.analyzed == s.loss.analyzed + 1
    ensures t.loss.updates == s.loss.updates && t.dec == s.dec && t.i == s.i
    ensures t.tx.slot == s.tx.slot && t.tx.receiverAlive == s.tx.receiverAlive && !t.tx.senderAlive
  {
    s.(status := Finished, loss := s.loss.(analyzed := s.loss.analyzed + 1), tx := s.tx.(senderAlive := false))
  }

  /** src/bin/main.rs:50-54: the command. An `Exit` or a disconnected
      channel leaves the loop; `Reset` clears the bank and nothing else; no
      command changes nothing. */
  function Command(s: LoopState, poll: CmdPoll): (c: LoopState)
    ensures Ends(poll) ==> c == Terminate(s)
    ensures poll == Received(Reset) ==> c == s.(dec := [])
    ensures poll == Empty ==> c == s
  {
    match poll
    case Received(Reset) => s.(dec := [])
    case Empty => s
    case _ => Terminate(s)
  }

  /** src/bin/main.rs:56-64: an empty bank is refilled with fresh cascades
      and the counter restarted; a bank that exists is left alone. */
  function Init(s: LoopState): (t: LoopState)
    ensures |t.dec| == if s.dec == [] then BANK_SIZE else |s.dec|
    ensures s.dec == [] ==> t == s.(dec := FreshBank(), i := 0)
    ensures s.dec != [] ==> t == s
  {
    if s.dec == [] then s.(dec := FreshBank(), i := 0) else s
  }

  /** src/bin/main.rs:66-77: a source error ends the loop (the `?` returns it, skipping
      `loss.analyze()`); a decoded frame updates the tracker, is fed to the
      bank and counted; a decode failure is only logged. */
  function Ingest(s: LoopState, fetched: Result<nat, IoError>, decoded: Result<Frame, DecodeError>): (t: LoopState)
    ensures fetched.Err? ==> t.status == Failed(fetched.error) && !t.tx.senderAlive
    ensures fetched.Err? ==> t.dec == s.dec && t.i == s.i && t.loss == s.loss && t.tx.slot == s.tx.slot &&
                             t.tx.receiverAlive == s.tx.receiverAlive
    ensures fetched.Ok? ==> t.status == s.status && t.tx == s.tx
    ensures fetched.Ok? && decoded.Ok? ==>
              t.i == s.i + 1 && t.dec == Feed(s.dec, decoded.value.traces) &&
              t.loss == s.loss.(updates := s.loss.updates + [decoded.value.sequence])
    ensures fetched.Ok? && decoded.Err? ==> t == s
  {
    match fetched
    case Err(e) => s.(status := Failed(e), tx := s.tx.(senderAlive := false))
    case Ok(_) =>
      match decoded
      case Ok(frame) =>
        s.(loss := s.loss.(updates := s.loss.updates + [frame.sequence]),
           dec := Feed(s.dec, frame.traces),
           i := s.i + 1)
      case Err(_) => s
  }

  /** src/bin/main.rs:78-106: past the threshold the counter restarts and a snapshot
      of the bank is offered to the channel; a full slot drops it. */
  function Publish(s: LoopState, minAvg: nat, est: Estimator): (t: LoopState)
    ensures t.i == if s.i > THRESHOLD then 0 else s.i
    ensures t.dec == s.dec && t.loss == s.loss && t.status == s.status
    ensures s.i > THRESHOLD ==> t.tx == Send(s.tx, SnapshotOf(s.dec, minAvg, est)).0
    ensures s.i <= THRESHOLD ==> t.tx == s.tx
  {
    if s.i > THRESHOLD then s.(i := 0, tx := Send(s.tx, SnapshotOf(s.dec, minAvg, est)).0) else s
  }

  /** The state after the frame step of an iteration that did not end at the
      poll, before publication. */
  function Ingested(s: LoopState, inp: Input): (g: LoopState)
    requires Invariant(s) && s.status == Running && !Ends(inp.poll)
    ensures |g.dec| == BANK_SIZE && g.i <= PERIOD
    ensures forall k :: 0 <= k < |g.dec| ==> Configured(g.dec[k])
    ensures g.loss.analyzed == 0 && g.status != Finished
    ensures g.status == Running <==> g.tx.senderAlive
  {
    Ingest(Init(Command(s, inp.poll)), inp.fetched, inp.decoded)
  }

  /** Whether the iteration offers a snapshot: no command, the read
      succeeds, and the decoded frame is the 101st since the counter last
      restarted. PublishesIff shows this is the loop's own test. */
  predicate Publishes(s: LoopState, inp: Input)
  {
    inp.poll == Empty && inp.fetched.Ok? && inp.decoded.Ok? && s.i == THRESHOLD
  }

  /** What holds at the top of every iteration, and after the loop: the bank
      is empty (only before the first iteration) or holds four configured
      cascades; the counter is at most 100; `analyze` has run once if the
      loop ended normally and never otherwise; the result sender exists
      exactly while the loop runs. */
  predicate Invariant(s: LoopState)
  {
    && (|s.dec| == 0 || |s.dec| == BANK_SIZE)
    && (s.dec == [] ==> s.i == 0)
    && s.i <= THRESHOLD
    && (forall k :: 0 <= k < |s.dec| ==> Configured(s.dec[k]))
    && s.loss.analyzed == (if s.status == Finished then 1 else 0)
    && (s.status == Running <==> s.tx.senderAlive)
  }

  /** One iteration of the loop. An `Exit` command or a disconnected
      channel ends the loop before any read, and `analyze` runs. */
  function Next(s: LoopState, inp: Input, minAvg: nat, est: Estimator): (s': LoopState)
    requires Invariant(s) && s.status == Running
    ensures Invariant(s')
    ensures Ends(inp.poll) ==> s' == Terminate(s)
    ensures !Ends(inp.poll) ==> |s'.dec| == BANK_SIZE
  {
    var c := Command(s, inp.poll);
    if c.status != Running then c
    else
      var g := Ingested(s, inp);
      if g.status != Running then g else Publish(g, minAvg, est)
  }

  /** A source error ends the loop with that error: `analyze` is not
      reached, the tracker and the slot are untouched. */
  lemma SourceErrorFails(s: LoopState, inp: Input, minAvg: nat, est: Estimator)
    requires Invariant(s) && s.status == Running
    requires !Ends(inp.poll) && inp.fetched.Err?
    ensures var s' := Next(s, inp, minAvg, est);
            s'.status == Failed(inp.fetched.error) && s'.loss == s.loss && s'.tx == s.tx.(senderAlive := false)
  {
  }

  /** `Reset` empties the bank; the same iteration refills it with fresh
      cascades, restarts the counter and then takes this iteration's frame. */
  lemma ResetRefills(s: LoopState, inp: Input, minAvg: nat, est: Estimator)
    requires Invariant(s) && s.status == Running
    requires inp.poll == Received(Reset) && inp.fetched.Ok?
    ensures var s' := Next(s, inp, minAvg, est);
            s'.status == Running &&
            s'.dec == (if inp.decoded.Ok? then Feed(FreshBank(), inp.decoded.value.traces) else FreshBank()) &&
            s'.i == (if inp.decoded.Ok? then 1 else 0)
  {
  }

  /** A decode failure changes nothing once the bank exists: no cascade, no
      tracker update, no count. */
  lemma DecodeFailureIgnored(s: LoopState, inp: Input, minAvg: nat, est: Estimator)
    requires Invariant(s) && s.status == Running && s.dec != []
    requires inp.poll == Empty && inp.fetched.Ok? && inp.decoded.Err?
    ensures Next(s, inp, minAvg, est) == s
  {
  }

  /** A decoded frame updates the tracker once with its sequence number, is
      fed to the bank trace by trace, and adds one to the counter modulo 101. */
  lemma DecodedFrameCounted(s: LoopState, inp: Input, minAvg: nat, est: Estimator)
    requires Invariant(s) && s.status == Running && s.dec != []
    requires inp.poll == Empty && inp.fetched.Ok? && inp.decoded.Ok?
    ensures var s' := Next(s, inp, minAvg, est);
            s'.status == Running &&
            s'.dec == Feed(s.dec, inp.decoded.value.traces) &&
            s'.loss == s.loss.(updates := s.loss.updates + [inp.decoded.value.sequence]) &&
            s'.i == (s.i + 1) % PERIOD
  {
  }

  /** Publication happens exactly when a decoded frame takes the counter
      past 100; it restarts the counter and offers the snapshot of the bank
      to the channel. Otherwise the slot is untouched. */
  lemma PublishesIff(s: LoopState, inp: Input, minAvg: nat, est: Estimator)
    requires Invariant(s) && s.status == Running
    ensures Publishes(s, inp) <==> !Ends(inp.poll) && Ingested(s, inp).status == Running && Ingested(s, inp).i > THRESHOLD
    ensures var s' := Next(s, inp, minAvg, est);
            (Publishes(s, inp) ==> s'.i == 0 && s'.tx == Send(s.tx, SnapshotOf(s'.dec, minAvg, est)).0) &&
            (!Publishes(s, inp) ==> s'.tx.slot == s.tx.slot)
  {
  }

  /** The loop run on a sequence of inputs, until it ends or the inputs do. */
  function Run(s: LoopState, inputs: seq<Input>, minAvg: nat, est: Estimator): (s': LoopState)
    requires Invariant(s)
    ensures Invariant(s')
    ensures s.status != Running ==> s' == s
    decreases |inputs|
  {
    if inputs == [] || s.status != Running then s
    else Run(Next(s, inputs[0], minAvg, est), inputs[1..], minAvg, est)
  }

  /** How many snapshots a run offers. */
  function Publications(s: LoopState, inputs: seq<Input>, minAvg: nat, est: Estimator): nat
    requires Invariant(s)
    decreases |inputs|
  {
    if inputs == [] || s.status != Running then 0
    else
      (if Publishes(s, inputs[0]) then 1 else 0) +
      Publications(Next(s, inputs[0], minAvg, est), inputs[1..], minAvg, est)
  }

  /** Inputs without commands and without source errors. */
  predicate Quiet(inputs: seq<Input>)
  {
    forall k :: 0 <= k < |inputs| ==> inputs[k].poll == Empty && inputs[k].fetched.Ok?
  }

  /** Whether the input carries a decoded frame, as a count. */
  function Counted(inp: Input): (d: nat)
    ensures d <= 1
  {
    if inp.decoded.Ok? then 1 else 0
  }

  /** How many of the inputs carry a decoded frame. */
  function Successes(inputs: seq<Input>): (n: nat)
    ensures n <= |inputs|
  {
    if inputs == [] then 0 else Counted(inputs[0]) + Successes(inputs[1..])
  }

  lemma CarryPeriod(x: nat, extra: nat)
    requires x <= PERIOD
    ensures (x % PERIOD + extra) % PERIOD == (x + extra) % PERIOD
    ensures x / PERIOD + (x % PERIOD + extra) / PERIOD == (x + extra) / PERIOD
  {
    if x == PERIOD {
      assert x % PERIOD == 0 && x / PERIOD == 1;
    } else {
      assert x % PERIOD == x && x / PERIOD == 0;
    }
  }

  /** One iteration without command or source error keeps the loop running
      and advances the counter by the number of decoded frames (0 or 1),
      modulo 101; it publishes exactly when that wraps the counter. */
  lemma QuietStep(s: LoopState, inp: Input, minAvg: nat, est: Estimator)
    requires Invariant(s) && s.status == Running
    requires inp.poll == Empty && inp.fetched.Ok?
    ensures var s' := Next(s, inp, minAvg, est);
            var d := Counted(inp);
            s'.status == Running &&
            s'.i == (s.i + d) % PERIOD &&
            (if Publishes(s, inp) then 1 else 0) == (s.i + d) / PERIOD
  {
    CountStep(s.i, Counted(inp));
  }

  /** The counter arithmetic of one input: the counter wraps to 0 exactly
      when it reaches 101. */
  lemma CountStep(i: nat, d: nat)
    requires i <= THRESHOLD && d <= 1
    ensures (i + d) % PERIOD == if i + d == PERIOD then 0 else i + d
    ensures (i + d) / PERIOD == if i + d == PERIOD then 1 else 0
  {
    if i + d == PERIOD {
      assert (i + d) % PERIOD == 0 && (i + d) / PERIOD == 1;
    } else {
      assert (i + d) % PERIOD == i + d && (i + d) / PERIOD == 0;
    }
  }

  /** The counter and the number of publications that a quiet run reaches
      from counter `i`, by the counting rule alone. */
  function QuietCount(i: nat, inputs: seq<Input>): (r: (nat, nat))
    decreases |inputs|
  {
    if inputs == [] then (i, 0)
    else
      var d := Counted(inputs[0]);
      var r := QuietCount((i + d) % PERIOD, inputs[1..]);
      (r.0, (i + d) / PERIOD + r.1)
  }

  /** The counting rule wraps every 101 decoded frames. */
  lemma {:induction false} QuietCountPeriod(i: nat, inputs: seq<Input>)
    requires i <= THRESHOLD
    ensures QuietCount(i, inputs) == ((i + Successes(inputs)) % PERIOD, (i + Successes(inputs)) / PERIOD)
    decreases |inputs|
  {
    if inputs == [] {
      assert i % PERIOD == i && i / PERIOD == 0;
    } else {
      QuietCountPeriod((i + Counted(inputs[0])) % PERIOD, inputs[1..]);
      PeriodStep(i, Counted(inputs[0]), Successes(inputs[1..]), i + Successes(inputs),
                 (i + Counted(inputs[0])) % PERIOD,
                 (i + Counted(inputs[0])) / PERIOD,
                 QuietCount((i + Counted(inputs[0])) % PERIOD, inputs[1..]).0,
                 QuietCount((i + Counted(inputs[0])) % PERIOD, inputs[1..]).1);
    }
  }

  /** A quiet run keeps running, and its counter follows the counting rule. */
  lemma {:induction false} RunCounter(s: LoopState, inputs: seq<Input>, minAvg: nat, est: Estimator)
    requires Invariant(s) && s.status == Running
    requires Quiet(inputs)
    ensures Run(s, inputs, minAvg, est).status == Running
    ensures Run(s, inputs, minAvg, est).i == QuietCount(s.i, inputs).0
    decreases |inputs|
  {
    if inputs != [] {
      QuietTail(inputs);
      QuietStep(s, inputs[0], minAvg, est);
      RunCounter(Next(s, inputs[0], minAvg, est), inputs[1..], minAvg, est);
      RunStep(s, inputs, minAvg, est);
      QuietCountStep(s.i, inputs);
    }
  }

  /** One step of the counting rule. */
  lemma QuietCountStep(i: nat, inputs: seq<Input>)
    requires inputs != []
    ensures QuietCount(i, inputs).0 == QuietCount((i + Counted(inputs[0])) % PERIOD, inputs[1..]).0
    ensures QuietCount(i, inputs).1 ==
            (i + Counted(inputs[0])) / PERIOD +
            QuietCount((i + Counted(inputs[0])) % PERIOD, inputs[1..]).1
  {
  }

  /** The publications of a quiet run follow the counting rule. */
  lemma {:induction false} RunPublications(s: LoopState, inputs: seq<Input>, minAvg: nat, est: Estimator)
    requires Invariant(s) && s.status == Running
    requires Quiet(inputs)
    ensures Publications(s, inputs, minAvg, est) == QuietCount(s.i, inputs).1
    decreases |inputs|
  {
    if inputs != [] {
      QuietTail(inputs);
      QuietStep(s, inputs[0], minAvg, est);
      CountStep(s.i, Counted(inputs[0]));
      RunPublications(Next(s, inputs[0], minAvg, est), inputs[1..], minAvg, est);
      PublicationsStep(s, inputs, minAvg, est);
      QuietCountStep(s.i, inputs);
    }
  }

  /** Without commands or source errors the loop keeps running, and the
      counter and the publications follow the decoded frames alone, whatever
      decode failures come between them: after `n` decoded frames the counter
      is `(i + n) mod 101` and `(i + n) div 101` snapshots have been offered. */
  lemma PublicationPeriod(s: LoopState, inputs: seq<Input>, minAvg: nat, est: Estimator)
    requires Invariant(s) && s.status == Running
    requires Quiet(inputs)
    ensures Run(s, inputs, minAvg, est).status == Running
    ensures Run(s, inputs, minAvg, est).i == (s.i + Successes(inputs)) % PERIOD
    ensures Publications(s, inputs, minAvg, est) == (s.i + Successes(inputs)) / PERIOD
  {
    RunCounter(s, inputs, minAvg, est);
    RunPublications(s, inputs, minAvg, est);
    QuietCountPeriod(s.i, inputs);
  }

  lemma QuietTail(inputs: seq<Input>)
    requires inputs != [] && Quiet(inputs)
    ensures Quiet(inputs[1..]) && inputs[0].poll == Empty && inputs[0].fetched.Ok?
  {
    forall k | 0 <= k < |inputs[1..]|
      ensures inputs[1..][k].poll == Empty && inputs[1..][k].fetched.Ok?
    {
      assert inputs[1..][k] == inputs[k + 1];
    }
  }

  /** The counter arithmetic of one step of PublicationPeriod. */
  lemma PeriodStep(x: nat, d: nat, rest: nat, total: nat, i1: nat, p1: nat, iEnd: nat, pRest: nat)
    requires x <= THRESHOLD && d <= 1 && total == x + d + rest
    requires i1 == (x + d) % PERIOD && p1 == (x + d) / PERIOD
    requires iEnd == (i1 + rest) % PERIOD && pRest == (i1 + rest) / PERIOD
    ensures iEnd == total % PERIOD && p1 + pRest == total / PERIOD
  {
    CarryPeriod(x + d, rest);
  }

  /** One unfolding of a run that has not ended. */
  lemma RunStep(s: LoopState, inputs: seq<Input>, minAvg: nat, est: Estimator)
    requires Invariant(s) && s.status == Running && inputs != []
    ensures Run(s, inputs, minAvg, est) == Run(Next(s, inputs[0], minAvg, est), inputs[1..], minAvg, est)
  {
  }

  /** One unfolding of the publications of a run that has not ended. */
  lemma PublicationsStep(s: LoopState, inputs: seq<Input>, minAvg: nat, est: Estimator)
    requires Invariant(s) && s.status == Running && inputs != []
    ensures Publications(s, inputs, minAvg, est) ==
            (if Publishes(s, inputs[0]) then 1 else 0) + Publications(Next(s, inputs[0], minAvg, est), inputs[1..], minAvg, est)
  {
  }

  /** After a fresh start (counter 0), the first snapshot is offered exactly
      at the 101st decoded frame. */
  lemma FirstPublication(s: LoopState, inputs: seq<Input>, minAvg: nat, est: Estimator)
    requires Invariant(s) && s.status == Running && s.i == 0
    requires Quiet(inputs)
    ensures Publications(s, inputs, minAvg, est) == 0 <==> Successes(inputs) < PERIOD
  {
    PublicationPeriod(s, inputs, minAvg, est);
  }

  /** A decoded frame carries a trace for every cascade. */
  predicate WideInput(inp: Input)
  {
    inp.decoded.Ok? ==> |inp.decoded.value.traces| >= BANK_SIZE
  }

  /** Every decoded frame carries a trace for every cascade. */
  predicate Wide(inputs: seq<Input>)
  {
    forall k :: 0 <= k < |inputs| ==> WideInput(inputs[k])
  }

  /** All cascades of the bank have been fed `n` traces. */
  predicate FedEqually(dec: seq<Cascade>, n: nat)
  {
    forall k :: 0 <= k < |dec| ==> |dec[k].fed| == n
  }

  /** Without commands or source errors, and with frames wide enough for the
      bank, every cascade is fed once per decoded frame. */
  lemma {:induction false} FedPerFrame(s: LoopState, inputs: seq<Input>, minAvg: nat, est: Estimator, n: nat)
    requires Invariant(s) && s.status == Running
    requires Quiet(inputs) && Wide(inputs)
    requires FedEqually(s.dec, n) && (s.dec == [] ==> n == 0)
    ensures FedEqually(Run(s, inputs, minAvg, est).dec, n + Successes(inputs))
    decreases |inputs|
  {
    if inputs != [] {
      var inp := inputs[0];
      var s1 := Next(s, inp, minAvg, est);
      var d := Counted(inp);
      assert inputs[0] == inp;
      forall k | 0 <= k < |inputs[1..]|
        ensures inputs[1..][k].poll == Empty && inputs[1..][k].fetched.Ok?
        ensures inputs[1..][k].decoded.Ok? ==> |inputs[1..][k].decoded.value.traces| >= BANK_SIZE
      {
        assert inputs[1..][k] == inputs[k + 1];
      }
      var bank := Init(s).dec;
      assert FedEqually(bank, n);
      assert FedEqually(s1.dec, n + d);
      FedPerFrame(s1, inputs[1..], minAvg, est, n + d);
    }
  }

  /** The bank invariant since the last (re)creation: when every cascade has
      been fed `i` traces, then after a run without commands every cascade has
      been fed `101 * (snapshots offered) + i` traces. */
  lemma FedSinceInit(s: LoopState, inputs: seq<Input>, minAvg: nat, est: Estimator)
    requires Invariant(s) && s.status == Running && FedEqually(s.dec, s.i)
    requires Quiet(inputs) && Wide(inputs)
    ensures FedEqually(Run(s, inputs, minAvg, est).dec,
                       PERIOD * Publications(s, inputs, minAvg, est) + Run(s, inputs, minAvg, est).i)
  {
    PublicationPeriod(s, inputs, minAvg, est);
    FedPerFrame(s, inputs, minAvg, est, s.i);
    var x := s.i + Successes(inputs);
    assert PERIOD * (x / PERIOD) + x % PERIOD == x;
  }

  /** Every cascade has been fed `101 * k + i` traces: `k` snapshots' worth
      since the bank was created, and the frames counted since. */
  predicate FedSince(dec: seq<Cascade>, i: nat, k: nat)
  {
    FedEqually(dec, PERIOD * k + i)
  }

  /** The bank is balanced: its cascades agree on how many traces they have
      been fed, which is a whole number of publication periods plus the
      counter. */
  ghost predicate Balanced(s: LoopState)
  {
    exists k: nat :: FedSince(s.dec, s.i, k)
  }

  /** Every iteration keeps the bank balanced, commands included: `Reset`
      restarts it with every cascade fed nothing and the counter at 0, a
      decoded frame feeds every cascade once and counts once, and a
      publication turns 101 counted frames into one more period. */
  lemma NextBalanced(s: LoopState, inp: Input, minAvg: nat, est: Estimator, k: nat)
    requires Invariant(s) && s.status == Running && WideInput(inp)
    requires FedSince(s.dec, s.i, k)
    ensures Balanced(Next(s, inp, minAvg, est))
  {
    var s' := Next(s, inp, minAvg, est);
    if Ends(inp.poll) {
      assert FedSince(s'.dec, s'.i, k);
    } else {
      var k0 := CommandBalanced(s, inp.poll, k);
      var g := Ingested(s, inp);
      IngestBalanced(Init(Command(s, inp.poll)), inp, k0);
      if g.status != Running {
        assert FedSince(s'.dec, s'.i, k0);
      } else {
        var k1 := PublishBalanced(g, minAvg, est, k0);
        assert FedSince(s'.dec, s'.i, k1);
      }
    }
  }

  /** The command and the lazy (re)creation keep the bank balanced; a fresh
      bank starts a new count. */
  lemma CommandBalanced(s: LoopState, poll: CmdPoll, k: nat) returns (k0: nat)
    requires Invariant(s) && !Ends(poll) && FedSince(s.dec, s.i, k)
    ensures FedSince(Init(Command(s, poll)).dec, Init(Command(s, poll)).i, k0)
    ensures |Init(Command(s, poll)).dec| == BANK_SIZE
  {
    var c := Command(s, poll);
    if c.dec == [] {
      k0 := 0;
      assert Init(c).dec == FreshBank() && Init(c).i == 0;
    } else {
      k0 := k;
      assert Init(c) == c && c.dec == s.dec && c.i == s.i;
    }
  }

  /** Taking the frame keeps the bank balanced with the same count of
      periods: every cascade is fed once and the counter moves once. */
  lemma IngestBalanced(b: LoopState, inp: Input, k: nat)
    requires |b.dec| == BANK_SIZE && WideInput(inp) && FedSince(b.dec, b.i, k)
    ensures FedSince(Ingest(b, inp.fetched, inp.decoded).dec, Ingest(b, inp.fetched, inp.decoded).i, k)
  {
    if inp.fetched.Ok? && inp.decoded.Ok? {
      var t := Ingest(b, inp.fetched, inp.decoded);
      forall j | 0 <= j < |t.dec|
        ensures |t.dec[j].fed| == PERIOD * k + t.i
      {
        assert t.dec[j] == b.dec[j].(fed := b.dec[j].fed + [inp.decoded.value.traces[j]]);
      }
    }
  }

  /** A publication turns the 101 counted frames into one more period. */
  lemma PublishBalanced(g: LoopState, minAvg: nat, est: Estimator, k: nat) returns (k1: nat)
    requires g.i <= PERIOD && FedSince(g.dec, g.i, k)
    ensures FedSince(Publish(g, minAvg, est).dec, Publish(g, minAvg, est).i, k1)
  {
    if g.i > THRESHOLD {
      k1 := k + 1;
      assert PERIOD * k + g.i == PERIOD * k1 + 0;
    } else {
      k1 := k;
    }
  }

  /** The bank stays balanced over any run whose decoded frames are wide
      enough, whatever commands come: the cascades are fed as a unit. */
  lemma {:induction false} RunBalanced(s: LoopState, inputs: seq<Input>, minAvg: nat, est: Estimator)
    requires Invariant(s) && Wide(inputs) && Balanced(s)
    ensures Balanced(Run(s, inputs, minAvg, est))
    decreases |inputs|
  {
    if inputs != [] && s.status == Running {
      var k: nat :| FedSince(s.dec, s.i, k);
      assert WideInput(inputs[0]);
      NextBalanced(s, inputs[0], minAvg, est, k);
      assert Wide(inputs[1..]) by {
        forall j | 0 <= j < |inputs[1..]|
          ensures WideInput(inputs[1..][j])
        {
          assert inputs[1..][j] == inputs[j + 1];
        }
      }
      RunBalanced(Next(s, inputs[0], minAvg, est), inputs[1..], minAvg, est);
      RunStep(s, inputs, minAvg, est);
    }
  }

  /** From the start of the loop, with frames wide enough for the bank, every
      state the loop reaches has all cascades fed equally, a whole number of
      publication periods plus the counter. */
  lemma BalancedFromStart(tx: Chan<Snapshot>, inputs: seq<Input>, minAvg: nat, est: Estimator)
    requires tx.senderAlive && Wide(inputs)
    ensures Balanced(Run(Initial(tx), inputs, minAvg, est))
  {
    assert FedSince(Initial(tx).dec, 0, 0);
    RunBalanced(Initial(tx), inputs, minAvg, est);
  }

  /** A frame with fewer traces than cascades leaves the last cascades unfed,
      so the bank's cascades no longer agree on how much they have seen. */
  lemma NarrowFrameSkipsCascades(s: LoopState, minAvg: nat, est: Estimator, frame: Frame)
    requires Invariant(s) && s.status == Running && s.dec != [] && FedEqually(s.dec, 0)
    requires |frame.traces| < BANK_SIZE
    ensures var s' := Next(s, Input(Empty, Ok(0), Ok(frame)), minAvg, est);
            |s'.dec[BANK_SIZE - 1].fed| == 0 &&
            (|frame.traces| > 0 ==> |s'.dec[0].fed| == 1)
  {
  }

  /** Once the loop has ended normally, `analyze` has run exactly once; if a
      source error ended it, never. */
  lemma AnalyzeOnce(tx: Chan<Snapshot>, inputs: seq<Input>, minAvg: nat, est: Estimator)
    requires tx.senderAlive
    ensures var s' := Run(Initial(tx), inputs, minAvg, est);
            s'.loss.analyzed == (if s'.status == Finished then 1 else 0)
  {
  }

  /** The state of the receiver thread, on mutable fields. */
  class Receiver {
    var dec: seq<Cascade>
    var i: nat
    var loss: Loss
    var status: Status
    const tx: SyncChannel<Snapshot>
    const minAvg: nat

    function State(): LoopState
      reads this, tx
    {
      LoopState(dec, i, loss, status, tx.State())
    }

    /** src/bin/main.rs:44-48: a fresh tracker, an empty bank, counter 0. */
    constructor (tx: SyncChannel<Snapshot>, minAvg: nat)
      requires tx.senderAlive
      ensures this.tx == tx && this.minAvg == minAvg
      ensures State() == Initial(tx.State())
      ensures Invariant(State())
    {
      this.tx := tx;
      this.minAvg := minAvg;
      dec := [];
      i := 0;
      loss := Loss([], 0);
      status := Running;
    }

    /** One iteration of the loop body; `published` says whether a snapshot
        was offered. */
    method Step(inp: Input, est: Estimator) returns (published: bool)
      requires Invariant(State()) && status == Running
      modifies this, tx
      ensures State() == Next(old(State()), inp, minAvg, est)
      ensures published == Publishes(old(State()), inp)
    {
      PublishesIff(State(), inp, minAvg, est);
      published := false;
      HandleCommand(inp.poll);
      if status != Running {
        return;
      }
      MakeBank();
      TakeFrame(inp.fetched, inp.decoded);
      if status != Running {
        return;
      }
      published := PublishIfDue(est);
    }

    /** src/bin/main.rs:50-54: `Reset` drops the bank; `Exit` or a
        disconnected command channel runs `analyze` and leaves the loop. */
    method HandleCommand(poll: CmdPoll)
      modifies this, tx
      ensures State() == Command(old(State()), poll)
    {
      match poll {
        case Received(Reset) =>
          dec := [];
        case Empty =>
        case _ =>
          loss := loss.(analyzed := loss.analyzed + 1);
          status := Finished;
          tx.DropSender();
      }
    }

    /** src/bin/main.rs:56-64: an empty bank is filled with four fresh
        cascades and the counter restarted. */
    method MakeBank()
      modifies this
      ensures State() == Init(old(State()))
    {
      if dec == [] {
        while |dec| < BANK_SIZE
          invariant |dec| <= BANK_SIZE
          invariant forall k :: 0 <= k < |dec| ==> dec[k] == FreshCascade()
          invariant i == old(i) && loss == old(loss) && status == old(status)
        {
          dec := dec + [FreshCascade()];
        }
        i := 0;
      }
    }

    /** src/bin/main.rs:66-77: read and decode one frame; a read error ends
        the loop with that error. */
    method TakeFrame(fetched: Result<nat, IoError>, decoded: Result<Frame, DecodeError>)
      modifies this, tx
      ensures State() == Ingest(old(State()), fetched, decoded)
    {
      match fetched {
        case Err(e) =>
          status := Failed(e);
          tx.DropSender();
          return;
        case Ok(_) =>
      }
      match decoded {
        case Ok(frame) =>
          loss := loss.(updates := loss.updates + [frame.sequence]);
          FeedBank(frame.traces);
          i := i + 1;
        case Err(_) =>
      }
    }

    /** src/bin/main.rs:78-106: past the threshold, restart the counter and
        offer a snapshot of the bank; `published` says whether it did. */
    method PublishIfDue(est: Estimator) returns (published: bool)
      modifies this, tx
      ensures State() == Publish(old(State()), minAvg, est)
      ensures published == (old(i) > THRESHOLD)
    {
      published := false;
      if i > THRESHOLD {
        i := 0;
        var _ := tx.TrySend(SnapshotOf(dec, minAvg, est));
        published := true;
      }
    }

    /** src/bin/main.rs:70-73: cascade `k` is fed trace `k`, for as long as both last. */
    method FeedBank(traces: seq<Samples>)
      modifies this
      ensures dec == Feed(old(dec), traces)
      ensures i == old(i) && loss == old(loss) && status == old(status)
    {
      ghost var before := dec;
      var k := 0;
      while k < |dec| && k < |traces|
        invariant 0 <= k <= |dec| && k <= |traces| && |dec| == |before|
        invariant forall j :: 0 <= j < |dec| ==>
          dec[j] == if j < k then before[j].(fed := before[j].fed + [traces[j]]) else before[j]
        invariant i == old(i) && loss == old(loss) && status == old(status)
      {
        dec := dec[k := dec[k].(fed := dec[k].fed + [traces[k]])];
        k := k + 1;
      }
    }

    /** The loop itself, run on a sequence of inputs until it breaks or the
        inputs run out; `published` counts the snapshots offered. */
    method Receive(inputs: seq<Input>, est: Estimator) returns (published: nat)
      requires Invariant(State())
      modifies this, tx
      ensures State() == Run(old(State()), inputs, minAvg, est)
      ensures published == Publications(old(State()), inputs, minAvg, est)
    {
      var n := 0;
      published := 0;
      while n < |inputs| && status == Running
        invariant n <= |inputs|
        invariant Invariant(State())
        invariant Run(old(State()), inputs, minAvg, est) == Run(State(), inputs[n..], minAvg, est)
        invariant Publications(old(State()), inputs, minAvg, est) ==
                  published + Publications(State(), inputs[n..], minAvg, est)
      {
        assert inputs[n..][1..] == inputs[n + 1..];
        var p := Step(inputs[n], est);
        if p {
          published := published + 1;
        }
        n := n + 1;
      }
    }
  }
}
