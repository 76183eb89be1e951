/** The configuration both scanners share (frqscan8.py:33-39,
    analyze6.py:8-16), in integer Hz. */
module Config {
  import opened Hz

  /** 2.048 MHz tuner sample rate; one capture window is this wide. */
  const SampleRate: int := 2_048_000
  const FftSize: int := 4096
  /** Expected width of one transmission, 12.5 kHz. */
  const SignalBandwidth: int := 12_500
  /** Peaks no further than this from the tuned centre are DC spikes. */
  const DcExclusion: int := 10_000

  /** analyze6's single scanned range, 450 to 470 MHz. */
  const RangeStart: int := 450_000_000
  const RangeEnd: int := 470_000_000

  /** `sample_rate / fft_size`: the width of one FFT bin in Hz. */
  function BinWidth(sampleRate: int, fftSize: int): (r: real)
    requires sampleRate > 0 && fftSize > 0
    ensures r > 0.0
    ensures r * fftSize as real == sampleRate as real
  {
    sampleRate as real / fftSize as real
  }

  /** `int(signal_bandwidth / bin_width)`: the number of whole bins that fit
      in one signal's bandwidth. `int` truncates, so a fractional bin is
      dropped rather than rounded. */
  function MinDistance(signalBandwidth: nat, sampleRate: int, fftSize: int): (r: nat)
    requires sampleRate > 0 && fftSize > 0
    ensures r as real * BinWidth(sampleRate, fftSize) <= signalBandwidth as real
    ensures signalBandwidth as real < (r + 1) as real * BinWidth(sampleRate, fftSize)
  {
    var w := BinWidth(sampleRate, fftSize);
    var t := Trunc(signalBandwidth as real / w);
    WholeBins(signalBandwidth as real, w, t);
    t
  }

  /** t = int(x / w) whole bins of width w fit in x, and t + 1 do not. */
  lemma WholeBins(x: real, w: real, t: int)
    requires x >= 0.0 && w > 0.0 && t == Trunc(x / w)
    ensures t as real * w <= x < (t + 1) as real * w
  {
    var q := x / w;
    assert q * w == x;
    ScaleBounds(t as real, q, (t + 1) as real, w, x);
  }

  /** Scaling lo <= q < hi by a positive w, where q * w is x. */
  lemma ScaleBounds(lo: real, q: real, hi: real, w: real, x: real)
    requires lo <= q < hi && w > 0.0 && q * w == x
    ensures lo * w <= x < hi * w
  {
    RealMulMono(lo, q, w);
    RealMulStrict(q, hi, w);
  }

  lemma RealMulMono(a: real, b: real, c: real)
    requires a <= b && c > 0.0
    ensures a * c <= b * c
  {
  }

  lemma RealMulStrict(a: real, b: real, c: real)
    requires a < b && c > 0.0
    ensures a * c < b * c
  {
  }

  /** With the configured values the bins are 500 Hz wide and 25 of them
      fit in 12.5 kHz. */
  lemma ConfiguredMinDistance()
    ensures BinWidth(SampleRate, FftSize) == 500.0
    ensures MinDistance(SignalBandwidth, SampleRate, FftSize) == 25
  {
    var r := MinDistance(SignalBandwidth, SampleRate, FftSize);
    assert r as real * 500.0 <= 12_500.0 < (r + 1) as real * 500.0;
  }

  /** Truncation, not rounding: 12.75 kHz is 25.5 bins and still gives 25,
      where rounding would give 26. */
  lemma MinDistanceTruncates()
    ensures MinDistance(12_750, SampleRate, FftSize) == 25
  {
    var r := MinDistance(12_750, SampleRate, FftSize);
    assert r as real * 500.0 <= 12_750.0 < (r + 1) as real * 500.0;
  }
}
