/** The collaborators the acquisition loop drives but whose workings are not
    part of this model: the frame decoder, the decimation cascades, their PSD
    estimates and the loss tracker. They are represented by what the loop
    hands them and by uninterpreted functions for what they return. */
module Externals {

  /** The samples of one channel in one frame. */
  type Samples = seq<real>

  /** A decoded frame: its sequence number, which the loss tracker follows,
      and one sample trace per channel. */
  datatype Frame = Frame(sequence: nat, traces: seq<Samples>)

  /** A frame that failed to decode (the decoder's reason is only logged). */
  datatype DecodeError = DecodeError

  /** The detrending mode of a cascade. Only `Mid` is ever selected by this
      program; `OtherDetrend` stands for the remaining modes. */
  datatype Detrend = Mid | OtherDetrend

  /** One decimation cascade (`PsdCascade<{1 << 9}>`): its configuration and
      every trace it has been fed, oldest first. Everything the cascade
      computes is a function of these. */
  datatype Cascade = Cascade(fftSize: nat, stageLength: nat, detrend: Detrend, fed: seq<Samples>)

  /** Averaging metadata of one stage of a PSD estimate. */
  datatype Break = Break(count: nat, effectiveFftSize: nat)

  /** The loss tracker, as the record of the calls made to it: the sequence
      numbers passed to `update`, and how many times `analyze` ran. */
  datatype Loss = Loss(updates: seq<nat>, analyzed: nat)

  /** The cascade's estimators, uninterpreted: `psd(c, minAvg)` is the power
      estimate and its breaks, `frequencies(c, breaks)` the frequency axis,
      and `log10` the floating-point base-10 logarithm. */
  datatype Estimator = Estimator(
    psd: (Cascade, nat) -> (seq<real>, seq<Break>),
    frequencies: (Cascade, seq<Break>) -> seq<real>,
    log10: real -> real)
}
