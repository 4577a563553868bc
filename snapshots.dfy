/** Construction of the snapshot published by the acquisition loop
    (src/bin/main.rs:80-96): one plotting-ready trace per cascade, in bank
    order. */
module Snapshots {
  import opened Base
  import opened Externals

  /** The published data of one channel: the breaks of its estimate and the
      points (log10 frequency, power in dB) to plot. */
  datatype Trace = Trace(breaks: seq<Break>, psd: seq<(real, real)>)

  /** One trace per channel. */
  type Snapshot = seq<Trace>

  /** `a.iter().zip(b.iter())`: pairs up to the shorter length. */
  function Zip<A, B>(a: seq<A>, b: seq<B>): (r: seq<(A, B)>)
    ensures |r| == Min(|a|, |b|)
    ensures forall j :: 0 <= j < |r| ==> r[j] == (a[j], b[j])
    decreases |a|
  {
    if a == [] || b == [] then [] else [(a[0], b[0])] + Zip(a[1..], b[1..])
  }

  /** `.rev()`. */
  function Reverse<T>(s: seq<T>): (r: seq<T>)
    ensures |r| == |s|
    ensures forall j :: 0 <= j < |s| ==> r[j] == s[|s| - 1 - j]
  {
    if s == [] then [] else Reverse(s[1..]) + [s[0]]
  }

  /** `.skip(1)`: everything but the first element, if any. */
  function SkipFirst<T>(s: seq<T>): (r: seq<T>)
    ensures |r| == if s == [] then 0 else |s| - 1
    ensures forall j :: 0 <= j < |r| ==> r[j] == s[j + 1]
  {
    if s == [] then [] else s[1..]
  }

  /** The plotted point of one (frequency, power) pair. */
  function Point(f: real, p: real, log10: real -> real): (real, real)
  {
    (log10(f), 10.0 * log10(p))
  }

  /** `.map(|(f, p)| [f.log10(), 10.0 * p.log10()])`. */
  function Points(pairs: seq<(real, real)>, log10: real -> real): (r: seq<(real, real)>)
    ensures |r| == |pairs|
    ensures forall j :: 0 <= j < |r| ==> r[j] == Point(pairs[j].0, pairs[j].1, log10)
  {
    if pairs == [] then [] else [Point(pairs[0].0, pairs[0].1, log10)] + Points(pairs[1..], log10)
  }

  /** The plotted points of one estimate: the pairs of frequency and power,
      reversed, with the first reversed pair (the one at the highest index,
      the DC term) skipped. */
  function PsdPoints(f: seq<real>, p: seq<real>, log10: real -> real): (r: seq<(real, real)>)
    ensures |r| == if Min(|f|, |p|) == 0 then 0 else Min(|f|, |p|) - 1
    ensures forall j :: 0 <= j < |r| ==> r[j] == Point(f[|r| - 1 - j], p[|r| - 1 - j], log10)
  {
    Points(SkipFirst(Reverse(Zip(f, p))), log10)
  }

  /** The trace of one cascade: the breaks of its estimate, and the plotted
      points of that estimate over the frequency axis of those breaks. */
  function TraceOf(c: Cascade, minAvg: nat, est: Estimator): (t: Trace)
    ensures t.breaks == est.psd(c, minAvg).1
    ensures |t.psd| == if Min(|est.frequencies(c, t.breaks)|, |est.psd(c, minAvg).0|) == 0 then 0
                       else Min(|est.frequencies(c, t.breaks)|, |est.psd(c, minAvg).0|) - 1
    ensures t.psd == PsdPoints(est.frequencies(c, t.breaks), est.psd(c, minAvg).0, est.log10)
  {
    var (p, b) := est.psd(c, minAvg);
    Trace(b, PsdPoints(est.frequencies(c, b), p, est.log10))
  }

  /** The snapshot of a bank: one trace per cascade, in bank order, each
      holding that cascade's breaks and its plotted estimate. */
  function SnapshotOf(dec: seq<Cascade>, minAvg: nat, est: Estimator): (s: Snapshot)
    ensures |s| == |dec|
    ensures forall k :: 0 <= k < |dec| ==> s[k] == TraceOf(dec[k], minAvg, est)
  {
    if dec == [] then [] else [TraceOf(dec[0], minAvg, est)] + SnapshotOf(dec[1..], minAvg, est)
  }
}
