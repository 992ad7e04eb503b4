/** Rates, smoothing and ping statistics, with real numbers for times and rates. */
module Measurements {
  import opened Numbers

  // ---------------------------------------------------------------- sampling a transfer

  /** `bytes` have arrived (or were sent) and the clock then reads `now`, in milliseconds. */
  datatype Chunk = Chunk(bytes: nat, now: real)

  datatype Sample = Sample(rate: real, seconds: real, smoothed: real)

  /** The variables of a transfer phase, and the samples it has shown so far. */
  datatype Meter = Meter(received: nat, delta: nat, last: real, smoothed: real, peak: real, samples: seq<Sample>)

  const SAMPLE_SECONDS := 0.5

  function Rate(bytes: nat, seconds: real): real
    requires seconds > 0.0
  {
    (bytes * 8) as real / (seconds * 1000000.0)
  }

  function Smooth(smoothed: real, rate: real): real {
    if smoothed == 0.0 then rate else smoothed * 0.65 + rate * 0.35
  }

  function Feed(m: Meter, c: Chunk): Meter {
    var seconds := (c.now - m.last) / 1000.0;
    var delta := m.delta + c.bytes;
    if seconds < SAMPLE_SECONDS then m.(received := m.received + c.bytes, delta := delta)
    else
      var rate := Rate(delta, seconds);
      var smoothed := Smooth(m.smoothed, rate);
      Meter(m.received + c.bytes, 0, c.now, smoothed, if smoothed > m.peak then smoothed else m.peak,
            m.samples + [Sample(rate, seconds, smoothed)])
  }

  function Metered(start: real, chunks: seq<Chunk>): Meter {
    if chunks == [] then Meter(0, 0, start, 0.0, 0.0, [])
    else Feed(Metered(start, chunks[..|chunks| - 1]), chunks[|chunks| - 1])
  }

  function TotalBytes(chunks: seq<Chunk>): nat {
    if chunks == [] then 0 else TotalBytes(chunks[..|chunks| - 1]) + chunks[|chunks| - 1].bytes
  }

  /** Megabits that the samples account for. */
  function Sampled(samples: seq<Sample>): real {
    if samples == [] then 0.0
    else var s := samples[|samples| - 1]; Sampled(samples[..|samples| - 1]) + s.rate * s.seconds
  }

  function Seconds(samples: seq<Sample>): real {
    if samples == [] then 0.0 else Seconds(samples[..|samples| - 1]) + samples[|samples| - 1].seconds
  }

  lemma RateTimesTime(bytes: nat, seconds: real)
    requires seconds > 0.0
    ensures Rate(bytes, seconds) * seconds * 1000000.0 == (bytes * 8) as real && Rate(bytes, seconds) >= 0.0
  {
    var d := seconds * 1000000.0;
    var r := Rate(bytes, seconds);
    assert r * d == (bytes * 8) as real;
    assert r * seconds * 1000000.0 == r * d;
  }

  /** Every byte is in a sample or still pending, and the samples cover the time up to the last of them. */
  ghost predicate Accounted(start: real, m: Meter) {
    && m.delta <= m.received
    && (m.received * 8) as real == Sampled(m.samples) * 1000000.0 + (m.delta * 8) as real
    && Seconds(m.samples) == (m.last - start) / 1000.0
    && forall i | 0 <= i < |m.samples| :: m.samples[i].rate >= 0.0 && m.samples[i].seconds >= 0.5
  }

  lemma FeedKeepsAccount(start: real, m: Meter, c: Chunk)
    requires Accounted(start, m)
    ensures Accounted(start, Feed(m, c))
  {
    hide Rate, Smooth;
    var seconds := (c.now - m.last) / 1000.0;
    if seconds >= SAMPLE_SECONDS {
      var n, delta := Feed(m, c), m.delta + c.bytes;
      RateTimesTime(delta, seconds);
      assert n.samples[..|n.samples| - 1] == m.samples;
      var s := n.samples[|n.samples| - 1];
      assert Sampled(n.samples) == Sampled(m.samples) + s.rate * s.seconds;
      assert (n.received * 8) as real == (m.received * 8) as real + (c.bytes * 8) as real;
      assert (delta * 8) as real == (m.delta * 8) as real + (c.bytes * 8) as real;
    }
  }

  /** No byte and no millisecond is lost between the samples. */
  lemma {:induction false} Conserved(start: real, chunks: seq<Chunk>)
    ensures var m := Metered(start, chunks); m.received == TotalBytes(chunks) && Accounted(start, m)
  {
    hide Accounted, Rate, Smooth;
    if chunks == [] {
      Unfed(start);
    } else {
      Conserved(start, chunks[..|chunks| - 1]);
      FeedKeepsAccount(start, Metered(start, chunks[..|chunks| - 1]), chunks[|chunks| - 1]);
    }
  }

  /** A sample is taken as soon as it is due: what is pending is less than half a second old. */
  lemma PendingIsYoung(start: real, chunks: seq<Chunk>)
    requires chunks != []
    ensures (chunks[|chunks| - 1].now - Metered(start, chunks).last) / 1000.0 < 0.5
  {
    hide Rate, Smooth;
    var m := Metered(start, chunks);
    assert m == Feed(Metered(start, chunks[..|chunks| - 1]), chunks[|chunks| - 1]);
  }

  lemma Unfed(start: real)
    ensures Accounted(start, Metered(start, []))
  {
  }

  /** The displayed rate stays between the lowest and the highest sample, restarts from zero included. */
  lemma {:induction false} SmoothedWithin(start: real, chunks: seq<Chunk>, lo: real, hi: real)
    requires forall i | 0 <= i < |Metered(start, chunks).samples| :: lo <= Metered(start, chunks).samples[i].rate <= hi
    ensures var m := Metered(start, chunks);
            && (m.samples == [] ==> m.smoothed == 0.0)
            && (m.samples != [] ==> lo <= m.smoothed <= hi && m.samples[|m.samples| - 1].smoothed == m.smoothed)
            && (forall i | 0 <= i < |m.samples| :: lo <= m.samples[i].smoothed <= hi)
  {
    if chunks != [] {
      var prior := Metered(start, chunks[..|chunks| - 1]);
      var m := Metered(start, chunks);
      assert prior.samples <= m.samples;
      forall i | 0 <= i < |prior.samples| ensures lo <= prior.samples[i].rate <= hi {
        assert prior.samples[i] == m.samples[i];
      }
      SmoothedWithin(start, chunks[..|chunks| - 1], lo, hi);
      if m.samples != prior.samples {
        assert m.samples[|m.samples| - 1].rate <= hi;
      }
    }
  }

  /** The peak is the highest rate that was ever displayed. */
  lemma {:induction false} PeakIsMaximum(start: real, chunks: seq<Chunk>)
    ensures var m := Metered(start, chunks);
            && (forall i | 0 <= i < |m.samples| :: 0.0 <= m.samples[i].smoothed <= m.peak)
            && (if m.samples == [] then m.peak == 0.0
                else exists i :: 0 <= i < |m.samples| && m.samples[i].smoothed == m.peak)
            && 0.0 <= m.smoothed
  {
    if chunks != [] {
      var prior, c := Metered(start, chunks[..|chunks| - 1]), chunks[|chunks| - 1];
      var m := Metered(start, chunks);
      PeakIsMaximum(start, chunks[..|chunks| - 1]);
      var seconds := (c.now - prior.last) / 1000.0;
      if seconds >= SAMPLE_SECONDS {
        RateTimesTime(prior.delta + c.bytes, seconds);
        assert m.samples == prior.samples + [m.samples[|m.samples| - 1]];
        if m.peak == m.smoothed {
          assert m.samples[|m.samples| - 1].smoothed == m.peak;
        } else {
          assert prior.samples != [];
          var i :| 0 <= i < |prior.samples| && prior.samples[i].smoothed == prior.peak;
          assert m.samples[i].smoothed == m.peak;
        }
      }
    }
  }

  /** Each displayed rate comes from the one before it. */
  lemma {:induction false} SmoothedChain(start: real, chunks: seq<Chunk>)
    ensures var m := Metered(start, chunks);
            && (m.samples != [] ==> m.samples[|m.samples| - 1].smoothed == m.smoothed)
            && (m.samples == [] ==> m.smoothed == 0.0)
            && (forall i | 0 <= i < |m.samples| :: m.samples[i].rate >= 0.0)
            && (forall i | 0 < i < |m.samples| ::
                  m.samples[i].smoothed == Smooth(m.samples[i - 1].smoothed, m.samples[i].rate))
  {
    hide Rate, Smooth;
    if chunks != [] {
      var prior, c := Metered(start, chunks[..|chunks| - 1]), chunks[|chunks| - 1];
      SmoothedChain(start, chunks[..|chunks| - 1]);
      var seconds := (c.now - prior.last) / 1000.0;
      if seconds >= SAMPLE_SECONDS {
        RateTimesTime(prior.delta + c.bytes, seconds);
      }
    }
  }

  /** The rule of the display: the first sample, and any after a zero, shows as it is; others count for 35 percent. */
  lemma DisplayRule(start: real, chunks: seq<Chunk>, i: nat)
    requires i < |Metered(start, chunks).samples|
    ensures var s := Metered(start, chunks).samples;
            && (i == 0 || s[i - 1].smoothed == 0.0 ==> s[i].smoothed == s[i].rate)
            && (i > 0 && s[i - 1].smoothed != 0.0 ==>
                  s[i].smoothed - s[i - 1].smoothed == 0.35 * (s[i].rate - s[i - 1].smoothed))
  {
    hide Metered, Rate;
    SmoothedChain(start, chunks);
    if i == 0 { FirstShown(start, chunks); }
  }

  lemma {:induction false} FirstShown(start: real, chunks: seq<Chunk>)
    requires Metered(start, chunks).samples != []
    ensures Metered(start, chunks).samples[0].smoothed == Metered(start, chunks).samples[0].rate
  {
    hide Rate;
    if chunks != [] {
      var prior := Metered(start, chunks[..|chunks| - 1]);
      SmoothedChain(start, chunks[..|chunks| - 1]);
      if prior.samples != [] { FirstShown(start, chunks[..|chunks| - 1]); }
    }
  }

  function Decay(n: nat): real {
    if n == 0 then 1.0 else 0.65 * Decay(n - 1)
  }

  /** While the link runs at one rate, the display's error shrinks to 0.65 of itself with every sample. */
  lemma {:induction false} DisplaySettles(start: real, chunks: seq<Chunk>, i: nat, j: nat, rate: real)
    requires i <= j < |Metered(start, chunks).samples| && Metered(start, chunks).samples[i].smoothed > 0.0
    requires forall k | i < k <= j :: Metered(start, chunks).samples[k].rate == rate
    ensures var s := Metered(start, chunks).samples;
            s[j].smoothed > 0.0 && s[j].smoothed - rate == Decay(j - i) * (s[i].smoothed - rate)
    decreases j
  {
    hide Metered;
    var s := Metered(start, chunks).samples;
    SmoothedChain(start, chunks);
    if i < j {
      DisplaySettles(start, chunks, i, j - 1, rate);
      var error := s[i].smoothed - rate;
      assert s[j].smoothed - rate == 0.65 * (s[j - 1].smoothed - rate);
      assert 0.65 * (Decay(j - 1 - i) * error) == Decay(j - i) * error;
    }
  }

  lemma Weighted(lo: real, x: real, hi: real, weight: real)
    requires lo <= x <= hi && weight >= 0.0
    ensures lo * weight <= x * weight <= hi * weight
  {
  }

  lemma Distributes(a: real, b: real, c: real)
    ensures a * (b + c) == a * b + a * c
  {
  }

  lemma {:induction false} SampledWithin(samples: seq<Sample>, lo: real, hi: real)
    requires forall i | 0 <= i < |samples| :: lo <= samples[i].rate <= hi && samples[i].seconds >= 0.0
    ensures lo * Seconds(samples) <= Sampled(samples) <= hi * Seconds(samples)
  {
    if samples != [] {
      var n := |samples| - 1;
      SampledWithin(samples[..n], lo, hi);
      var s := samples[n];
      Weighted(lo, s.rate, hi, s.seconds);
      Distributes(lo, Seconds(samples[..n]), s.seconds);
      Distributes(hi, Seconds(samples[..n]), s.seconds);
    }
  }

  /** Throughput over the sampled window lies between the lowest and the highest instantaneous rate. */
  lemma ThroughputWithin(start: real, chunks: seq<Chunk>, lo: real, hi: real)
    requires forall i | 0 <= i < |Metered(start, chunks).samples| :: lo <= Metered(start, chunks).samples[i].rate <= hi
    ensures var m := Metered(start, chunks);
            var seconds := (m.last - start) / 1000.0;
            && m.delta <= m.received
            && lo * seconds * 1000000.0 <= ((m.received - m.delta) * 8) as real <= hi * seconds * 1000000.0
  {
    hide Metered, Sampled, Seconds;
    var m := Metered(start, chunks);
    Conserved(start, chunks);
    SampledWithin(m.samples, lo, hi);
    assert ((m.received - m.delta) * 8) as real == (m.received * 8) as real - (m.delta * 8) as real;
  }

  // ---------------------------------------------------------------- the two phases

  /** One response: when the outer loop looked at the clock before asking for it, and its pieces. */
  datatype Fetch = Fetch(checkedAt: real, chunks: seq<Chunk>)

  /**
   * How many pieces of a response are read: all of them, or up to and including the first one that arrives
   * when the time is up.
   */
  ghost predicate ReadsFetch(chunks: seq<Chunk>, start: real, duration: real, n: nat) {
    && n <= |chunks|
    && (forall k | 0 <= k < n - 1 :: chunks[k].now - start < duration)
    && (n == |chunks| || (n > 0 && chunks[n - 1].now - start >= duration))
  }

  /**
   * Which responses are asked for, and how many pieces of each are read: a response is asked for exactly if
   * every earlier one was and the clock, looked at before asking, is before the deadline.
   */
  ghost predicate Reads(fetches: seq<Fetch>, start: real, duration: real, taken: seq<nat>) {
    && |taken| <= |fetches|
    && (forall f | 0 <= f < |taken| :: fetches[f].checkedAt - start < duration)
    && (|taken| < |fetches| ==> fetches[|taken|].checkedAt - start >= duration)
    && (forall f | 0 <= f < |taken| :: ReadsFetch(fetches[f].chunks, start, duration, taken[f]))
  }

  /** The first `taken[f]` pieces of each response f, one response after the other. */
  ghost function Pieces(fetches: seq<Fetch>, taken: seq<nat>): (r: seq<Chunk>)
    requires |taken| <= |fetches| && forall f | 0 <= f < |taken| :: taken[f] <= |fetches[f].chunks|
    ensures |r| == Sum(taken)
  {
    if taken == [] then []
    else
      var n := |taken| - 1;
      Pieces(fetches, taken[..n]) + fetches[n].chunks[..taken[n]]
  }

  /** Piece k of response f comes after all pieces of the earlier responses. */
  lemma {:induction false} PieceOf(fetches: seq<Fetch>, taken: seq<nat>, f: nat, k: nat)
    requires |taken| <= |fetches| && forall g | 0 <= g < |taken| :: taken[g] <= |fetches[g].chunks|
    requires f < |taken| && k < taken[f]
    ensures Sum(taken[..f]) + k < |Pieces(fetches, taken)|
    ensures Pieces(fetches, taken)[Sum(taken[..f]) + k] == fetches[f].chunks[k]
    decreases |taken|
  {
    var n := |taken| - 1;
    if f < n {
      PieceOf(fetches, taken[..n], f, k);
      assert taken[..n][..f] == taken[..f];
    }
  }

  /** The rule leaves no choice. */
  lemma ReadsUnique(fetches: seq<Fetch>, start: real, duration: real, a: seq<nat>, b: seq<nat>)
    requires Reads(fetches, start, duration, a) && Reads(fetches, start, duration, b)
    ensures a == b
  {
    assert |a| == |b| by { hide ReadsFetch; }
    forall f | 0 <= f < |a| ensures a[f] == b[f] {
      ReadsFetchUnique(fetches[f].chunks, start, duration, a[f], b[f]);
    }
  }

  lemma ReadsFetchUnique(chunks: seq<Chunk>, start: real, duration: real, m: nat, n: nat)
    requires ReadsFetch(chunks, start, duration, m) && ReadsFetch(chunks, start, duration, n)
    ensures m == n
  {
  }

  /** What the total is: that of one piece is its size, that of two stretches the sum of theirs. */
  lemma {:induction false} TotalBytesIs(a: seq<Chunk>, b: seq<Chunk>, c: Chunk)
    ensures TotalBytes([]) == 0 && TotalBytes([c]) == c.bytes && TotalBytes(a + b) == TotalBytes(a) + TotalBytes(b)
    decreases |b|
  {
    assert [c][..0] == [];
    if b == [] {
      assert a + b == a;
    } else {
      var n := |b| - 1;
      assert (a + b)[..|a| + n] == a + b[..n];
      TotalBytesIs(a, b[..n], c);
    }
  }

  lemma MeteredMore(start: real, done: seq<Chunk>, c: Chunk)
    ensures Metered(start, done + [c]) == Feed(Metered(start, done), c)
  {
    assert (done + [c])[..|done|] == done;
  }

  /** What both phases do with a piece: count it, and after half a second turn the count into a sample. */
  method Take(m: Meter, c: Chunk) returns (n: Meter)
    ensures n == Feed(m, c)
  {
    var received, deltaSampleBytes := m.received + c.bytes, m.delta + c.bytes;
    var lastSampleTime, smoothedMbps, peakMbps, samples := m.last, m.smoothed, m.peak, m.samples;
    var deltaSampleTime := (c.now - lastSampleTime) / 1000.0;
    if deltaSampleTime >= 0.5 {
      var instMbps := (deltaSampleBytes * 8) as real / (deltaSampleTime * 1000000.0);
      lastSampleTime := c.now;
      deltaSampleBytes := 0;
      if smoothedMbps == 0.0 {
        smoothedMbps := instMbps;
      } else {
        smoothedMbps := smoothedMbps * 0.65 + instMbps * 0.35;
      }
      if smoothedMbps > peakMbps {
        peakMbps := smoothedMbps;
      }
      samples := samples + [Sample(instMbps, deltaSampleTime, smoothedMbps)];
    }
    n := Meter(received, deltaSampleBytes, lastSampleTime, smoothedMbps, peakMbps, samples);
  }

  /** The final figure of a phase: all bytes over the whole time, but never over less than a millisecond. */
  method FinalRate(bytes: nat, start: real, ended: real) returns (mbps: real)
    ensures mbps == Rate(bytes, if ended - start > 1.0 then (ended - start) / 1000.0 else 0.001)
  {
    var totalDuration := (ended - start) / 1000.0;
    mbps := (bytes * 8) as real / ((if totalDuration > 0.001 then totalDuration else 0.001) * 1000000.0);
  }

  /**
   * Both loops together meter exactly the pieces that the rule above names, in order; `ended` is the clock at
   * the end.
   */
  method RunDownloadPhase(fetches: seq<Fetch>, start: real, duration: real, ended: real)
    returns (m: Meter, mbps: real, ghost taken: seq<nat>)
    ensures Reads(fetches, start, duration, taken)
    ensures m == Metered(start, Pieces(fetches, taken)) && m.received == TotalBytes(Pieces(fetches, taken))
    ensures mbps == Rate(m.received, if ended - start > 1.0 then (ended - start) / 1000.0 else 0.001)
  {
    hide Feed, Rate, Accounted, TotalBytes, ReadsFetch;
    m := Meter(0, 0, start, 0.0, 0.0, []);
    assert m == Metered(start, []);
    hide Metered, Sum;
    taken := [];
    var f := 0;
    while f < |fetches| && fetches[f].checkedAt - start < duration
      invariant 0 <= f <= |fetches| && |taken| == f
      invariant forall g | 0 <= g < f ::
                  fetches[g].checkedAt - start < duration && ReadsFetch(fetches[g].chunks, start, duration, taken[g])
      invariant forall g | 0 <= g < f :: taken[g] <= |fetches[g].chunks|
      invariant m == Metered(start, Pieces(fetches, taken))
    {
      ghost var before, n := Pieces(fetches, taken), 0;
      m, n := ReadFetch(m, fetches[f].chunks, start, duration, before);
      assert (taken + [n])[..f] == taken;
      taken := taken + [n];
      f := f + 1;
    }
    Conserved(start, Pieces(fetches, taken));
    mbps := FinalRate(m.received, start, ended);
  }

  /** The inner loop of a download: read one response until it ends or the time is up. */
  method ReadFetch(was: Meter, chunks: seq<Chunk>, start: real, duration: real, ghost before: seq<Chunk>)
    returns (m: Meter, ghost n: nat)
    requires was == Metered(start, before)
    ensures n <= |chunks| && ReadsFetch(chunks, start, duration, n)
    ensures m == Metered(start, before + chunks[..n])
  {
    hide Feed, Metered;
    m := was;
    var i, reading := 0, true;
    assert before + chunks[..0] == before;
    while i < |chunks| && reading
      invariant 0 <= i <= |chunks|
      invariant forall k | 0 <= k < i - 1 :: chunks[k].now - start < duration
      invariant i > 0 ==> (reading <==> chunks[i - 1].now - start < duration)
      invariant i == 0 ==> reading
      invariant m == Metered(start, before + chunks[..i])
    {
      assert before + chunks[..i + 1] == before + chunks[..i] + [chunks[i]];
      MeteredMore(start, before + chunks[..i], chunks[i]);
      m := Take(m, chunks[i]);
      if chunks[i].now - start >= duration {
        reading := false;
      }
      i := i + 1;
    }
    n := i;
  }

  /** One POST: the clock before it and after its response. */
  datatype Post = Post(checkedAt: real, now: real)

  /**
   * Each finished request counts as 512 KiB at the time after its own response; a request is made exactly if
   * every earlier one was and the clock before it is before the deadline.
   */
  method RunUploadPhase(posts: seq<Post>, start: real, duration: real, ended: real)
    returns (m: Meter, mbps: real, ghost sent: seq<Chunk>)
    ensures |sent| <= |posts| && (|sent| < |posts| ==> posts[|sent|].checkedAt - start >= duration)
    ensures forall i | 0 <= i < |sent| ::
              posts[i].checkedAt - start < duration && sent[i] == Chunk(524288, posts[i].now)
    ensures m == Metered(start, sent) && m.received == 524288 * |sent|
    ensures mbps == Rate(m.received, if ended - start > 1.0 then (ended - start) / 1000.0 else 0.001)
  {
    hide Feed, Rate, Accounted, TotalBytes;
    var chunkSize := 512 * 1024;
    m := Meter(0, 0, start, 0.0, 0.0, []);
    sent := [];
    var i := 0;
    while i < |posts| && posts[i].checkedAt - start < duration
      invariant 0 <= i <= |posts| && |sent| == i
      invariant m == Metered(start, sent)
      invariant forall k | 0 <= k < i :: posts[k].checkedAt - start < duration && sent[k] == Chunk(524288, posts[k].now)
    {
      var c := Chunk(chunkSize, posts[i].now);
      MeteredMore(start, sent, c);
      sent := sent + [c];
      m := Take(m, c);
      i := i + 1;
    }
    Conserved(start, sent);
    EqualChunks(sent, 524288);
    mbps := FinalRate(m.received, start, ended);
  }

  lemma {:induction false} EqualChunks(chunks: seq<Chunk>, size: nat)
    requires forall i | 0 <= i < |chunks| :: chunks[i].bytes == size
    ensures TotalBytes(chunks) == size * |chunks|
  {
    if chunks != [] {
      EqualChunks(chunks[..|chunks| - 1], size);
    }
  }

  // ---------------------------------------------------------------- ping statistics

  datatype PingResult = PingResult(count: nat, minMs: real, avgMs: real, maxMs: real, jitterMs: real)

  function MinOf(s: seq<real>): real
    requires s != []
  {
    if |s| == 1 then s[0]
    else var m := MinOf(s[..|s| - 1]); if s[|s| - 1] < m then s[|s| - 1] else m
  }

  function MaxOf(s: seq<real>): real
    requires s != []
  {
    if |s| == 1 then s[0]
    else var m := MaxOf(s[..|s| - 1]); if s[|s| - 1] > m then s[|s| - 1] else m
  }

  function SumOf(s: seq<real>): real {
    if s == [] then 0.0 else SumOf(s[..|s| - 1]) + s[|s| - 1]
  }

  function Abs(x: real): real {
    if x < 0.0 then -x else x
  }

  /** Sum of the absolute differences between neighbours. */
  function StepSum(s: seq<real>): real {
    if |s| <= 1 then 0.0 else StepSum(s[..|s| - 1]) + Abs(s[|s| - 1] - s[|s| - 2])
  }

  /** What the sum is: that of one value is the value, that of two lists the sum of theirs. */
  lemma {:induction false} SumIs(a: seq<real>, b: seq<real>, x: real)
    ensures SumOf([]) == 0.0 && SumOf([x]) == x && SumOf(a + b) == SumOf(a) + SumOf(b)
    decreases |b|
  {
    assert [x][..0] == [];
    if b == [] {
      assert a + b == a;
    } else {
      var n := |b| - 1;
      assert (a + b)[..|a| + n] == a + b[..n];
      SumIs(a, b[..n], x);
    }
  }

  /** What the steps are: one value has none, and joining two lists adds the distance between their facing ends. */
  lemma {:induction false} StepSumIs(a: seq<real>, b: seq<real>, x: real)
    requires a != [] && b != []
    ensures StepSum([x]) == 0.0
    ensures var last, first := a[|a| - 1], b[0];
            StepSum(a + b) == StepSum(a) + StepSum(b) + (if last <= first then first - last else last - first)
    decreases |b|
  {
    var n := |b| - 1;
    assert (a + b)[..|a| + n] == a + b[..n];
    if n == 0 {
      assert a + b[..n] == a;
    } else {
      StepSumIs(a, b[..n], x);
    }
  }

  lemma {:induction false} Extremes(s: seq<real>)
    requires s != []
    ensures MinOf(s) in s && MaxOf(s) in s && forall i | 0 <= i < |s| :: MinOf(s) <= s[i] <= MaxOf(s)
  {
    if |s| > 1 { Extremes(s[..|s| - 1]); }
  }

  method PingStatistics(latencies: seq<real>) returns (r: PingResult)
    requires latencies != []
    ensures r == PingResult(|latencies|, MinOf(latencies), SumOf(latencies) / |latencies| as real, MaxOf(latencies),
                            MaxOf(latencies) - MinOf(latencies))
  {
    var minV, maxV, sum := latencies[0], latencies[0], 0.0;
    for i := 0 to |latencies|
      invariant sum == SumOf(latencies[..i])
      invariant i == 0 ==> minV == maxV == latencies[0]
      invariant i > 0 ==> minV == MinOf(latencies[..i]) && maxV == MaxOf(latencies[..i])
    {
      assert latencies[..i + 1][..i] == latencies[..i];
      var v := latencies[i];
      if v < minV {
        minV := v;
      }
      if v > maxV {
        maxV := v;
      }
      sum := sum + v;
    }
    assert latencies[..|latencies|] == latencies;
    r := PingResult(|latencies|, minV, sum / |latencies| as real, maxV, maxV - minV);
  }

  method BrowserJitter(pings: seq<real>) returns (jitter: real)
    ensures jitter == if |pings| > 1 then StepSum(pings) / (|pings| - 1) as real else 0.0
  {
    jitter := 0.0;
    if |pings| > 1 {
      var diffSum := 0.0;
      for j := 1 to |pings|
        invariant diffSum == StepSum(pings[..j])
      {
        assert pings[..j + 1][..j] == pings[..j];
        diffSum := diffSum + Abs(pings[j] - pings[j - 1]);
      }
      assert pings[..|pings|] == pings;
      jitter := diffSum / (|pings| - 1) as real;
    }
  }

  lemma OneMore(bound: real, n: nat, total: real, x: real)
    requires total <= bound * n as real && x <= bound
    ensures total + x <= bound * (n + 1) as real
  {
    assert (n + 1) as real == n as real + 1.0;
    Distributes(bound, n as real, 1.0);
  }

  lemma {:induction false} SumWithin(s: seq<real>, lo: real, hi: real)
    requires forall i | 0 <= i < |s| :: lo <= s[i] <= hi
    ensures lo * |s| as real <= SumOf(s) <= hi * |s| as real
  {
    if s != [] {
      var n := |s| - 1;
      SumWithin(s[..n], lo, hi);
      OneMore(hi, n, SumOf(s[..n]), s[n]);
      OneMore(-lo, n, -SumOf(s[..n]), -s[n]);
    }
  }

  lemma {:induction false} StepsWithin(s: seq<real>, lo: real, hi: real)
    requires s != [] && forall i | 0 <= i < |s| :: lo <= s[i] <= hi
    ensures StepSum(s) <= (hi - lo) * (|s| - 1) as real
  {
    if |s| > 1 {
      var n := |s| - 1;
      StepsWithin(s[..n], lo, hi);
      OneMore(hi - lo, n - 1, StepSum(s[..n]), Abs(s[n] - s[n - 1]));
    }
  }

  lemma DivideBound(x: real, n: real, bound: real)
    requires n > 0.0
    ensures x <= bound * n ==> x / n <= bound
    ensures bound * n <= x ==> bound <= x / n
  {
    assert x == x / n * n;
    if x / n > bound { assert (x / n - bound) * n > 0.0; }
    if x / n < bound { assert (bound - x / n) * n > 0.0; }
  }

  /** The server's figures are ordered, and the browser's jitter never exceeds the server's. */
  lemma PingFigures(s: seq<real>)
    requires s != []
    ensures MinOf(s) <= SumOf(s) / |s| as real <= MaxOf(s)
    ensures |s| > 1 ==> 0.0 <= StepSum(s) / (|s| - 1) as real <= MaxOf(s) - MinOf(s)
  {
    hide MinOf, MaxOf, SumOf, StepSum;
    Extremes(s);
    SumWithin(s, MinOf(s), MaxOf(s));
    DivideBound(SumOf(s), |s| as real, MinOf(s));
    DivideBound(SumOf(s), |s| as real, MaxOf(s));
    if |s| > 1 {
      StepsWithin(s, MinOf(s), MaxOf(s));
      StepsNonNegative(s);
      DivideBound(StepSum(s), (|s| - 1) as real, MaxOf(s) - MinOf(s));
      DivideBound(StepSum(s), (|s| - 1) as real, 0.0);
    }
  }

  lemma {:induction false} StepsNonNegative(s: seq<real>)
    ensures StepSum(s) >= 0.0
  {
    if |s| > 1 { StepsNonNegative(s[..|s| - 1]); }
  }
}
