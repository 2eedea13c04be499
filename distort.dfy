/**
 * The buffer accounting of the radio distortion filter. Incoming samples
 * pass through a dynamics compressor into an input buffer; whole chunks
 * (1/30 or 1/32 of a second) are cut from it at a stride of
 * chunk - 600 samples, equalised, cross-faded over their first 600 samples
 * with the tail of the previous chunk and appended to an output buffer;
 * each call hands back exactly as many samples as it was given, padding
 * the front with silence when the output buffer runs short.
 *
 * The compressor and the noise/FFT equaliser are parameters: only the
 * lengths they keep are assumed.
 */
module Distortion {
  import opened Common

  /** Samples over which consecutive chunks are cross-faded. */
  const EdgeBlend: nat := 600
  const TimeQuantum44k: nat := 30
  const TimeQuantum48k: nat := 32

  /** The running levels of the dynamics compressor. */
  datatype Dynamics = Dynamics(rms: real, comprEnergy: real)

  /**
   * The noise injection and FFT equaliser applied to one chunk, which may
   * depend on the chunk toggle (the noise level is re-drawn only on the
   * first chunk of each pair): a transform that keeps the chunk's length.
   */
  type ChunkFx = f: (bool, seq<int>) -> seq<int> | forall ab, x :: |f(ab, x)| == |x|
    witness (ab: bool, x: seq<int>) => x

  /** The dynamics compressor: new levels and the compressed block, as long as the input. */
  type Compressor = f: (Dynamics, seq<int>) -> (Dynamics, seq<int>) | forall d, x :: |f(d, x).1| == |x|
    witness (d: Dynamics, x: seq<int>) => (d, x)

  /** The only sample rates `distort_init` accepts, each with its time quantum. */
  predicate RateOk(srate: nat, quantum: nat)
  {
    (srate == 44100 && quantum == TimeQuantum44k) || (srate == 48000 && quantum == TimeQuantum48k)
  }

  /** Chunk length in samples, `srate / time_quantum`, spelled out for the two accepted rates. */
  function ChunkSize(srate: nat, quantum: nat): (cs: nat)
    requires RateOk(srate, quantum)
    ensures cs > EdgeBlend
  {
    if srate == 44100 then 1470 else 1500
  }

  /** The chunk is `srate / time_quantum`, and the quantum divides the rate exactly. */
  lemma ChunkDividesRate(srate: nat, quantum: nat)
    requires RateOk(srate, quantum)
    ensures ChunkSize(srate, quantum) == srate / quantum
    ensures ChunkSize(srate, quantum) * quantum == srate
  {
  }

  /**
   * How many input samples the processing loop consumes from a buffer
   * holding `fill`: a chunk is cut whenever a whole one is available, and
   * the next starts `cs - EdgeBlend` samples later.
   */
  function Consumed(fill: nat, cs: nat): (r: nat)
    requires cs > EdgeBlend
    ensures r <= fill && fill - r < cs
    ensures r > 0 ==> r < fill
    ensures fill < cs ==> r == 0
    decreases fill
  {
    if fill < cs then 0 else (cs - EdgeBlend) + Consumed(fill - (cs - EdgeBlend), cs)
  }

  /** The number of chunks cut from a buffer holding `fill`. */
  function ChunkCount(fill: nat, cs: nat): (m: nat)
    requires cs > EdgeBlend
    ensures m == 0 <==> fill < cs
    ensures m > 0 ==> (m - 1) * (cs - EdgeBlend) + cs <= fill
    ensures fill - m * (cs - EdgeBlend) < cs
    decreases fill
  {
    if fill < cs then 0 else 1 + ChunkCount(fill - (cs - EdgeBlend), cs)
  }

  /** Every chunk advances the consumption by exactly one stride. */
  lemma {:induction false} ConsumedIsStrides(fill: nat, cs: nat)
    requires cs > EdgeBlend
    ensures Consumed(fill, cs) == ChunkCount(fill, cs) * (cs - EdgeBlend)
    decreases fill
  {
    if fill >= cs {
      ConsumedIsStrides(fill - (cs - EdgeBlend), cs);
    }
  }

  /** Cutting one chunk from a buffer holding at least one leaves the rest to the same counts. */
  lemma ChunkStep(fill: nat, cs: nat)
    requires cs > EdgeBlend && fill >= cs
    ensures ChunkCount(fill, cs) == 1 + ChunkCount(fill - (cs - EdgeBlend), cs)
    ensures Consumed(fill, cs) == (cs - EdgeBlend) + Consumed(fill - (cs - EdgeBlend), cs)
  {
  }

  /** The loop's bookkeeping: after one more chunk, what is consumed plus what the rest yields is still the total. */
  lemma ConsumedAdvance(fill: nat, done: nat, cs: nat)
    requires cs > EdgeBlend && done + cs <= fill
    requires done + Consumed(fill - done, cs) == Consumed(fill, cs)
    ensures done + (cs - EdgeBlend) + Consumed(fill - (done + (cs - EdgeBlend)), cs) == Consumed(fill, cs)
  {
    ChunkStep(fill - done, cs);
  }

  /** A silent block of `n` samples. */
  function Zeros(n: nat): (z: seq<int>)
    ensures |z| == n && forall i :: 0 <= i < n ==> z[i] == 0
  {
    seq(n, _ => 0)
  }

  /**
   * One cross-faded sample: `wavg(old, new, i / 600)` stored into a 16-bit
   * sample, which truncates.
   */
  function BlendAt(prev: int, cur: int, i: nat): (r: int)
    ensures i == 0 ==> r == prev
    ensures i == EdgeBlend ==> r == cur
  {
    Trunc(Wavg(prev as real, cur as real, i as real / EdgeBlend as real))
  }

  /** A chunk whose first `EdgeBlend` samples fade in from `prev`; the rest is the chunk itself. */
  function Blended(prev: seq<int>, cur: seq<int>): (r: seq<int>)
    requires |prev| == EdgeBlend <= |cur|
    ensures |r| == |cur|
  {
    seq(|cur|, k requires 0 <= k < |cur| => if k < EdgeBlend then BlendAt(prev[k], cur[k], k) else cur[k])
  }

  /** The cross-fade loop of `distort_process`, rewriting the head of the new chunk sample by sample. */
  method BlendEdge(prev: seq<int>, cur: seq<int>) returns (r: seq<int>)
    requires |prev| == EdgeBlend <= |cur|
    ensures r == Blended(prev, cur)
  {
    r := cur;
    var i := 0;
    while i < EdgeBlend
      invariant 0 <= i <= EdgeBlend
      invariant |r| == |cur|
      invariant forall k :: 0 <= k < i ==> r[k] == BlendAt(prev[k], cur[k], k)
      invariant r[i..] == cur[i..]
    {
      assert r[i] == cur[i];
      r := r[i := BlendAt(prev[i], r[i], i)];
      i := i + 1;
    }
    assert forall k :: 0 <= k < |r| ==> r[k] == Blended(prev, cur)[k] by {
      forall k | EdgeBlend <= k < |r| ensures r[k] == cur[k] {
        assert r[k] == r[EdgeBlend..][k - EdgeBlend];
      }
    }
  }

  /** Truncating a value that lies between two integers keeps it between them. */
  lemma TruncBetween(x: real, a: int, b: int)
    requires a <= b && a as real <= x <= b as real
    ensures a <= Trunc(x) <= b
  {
  }

  /** The fade starts from the old sample and every blended sample lies between the old and the new one. */
  lemma BlendBetween(prev: int, cur: int, i: nat)
    requires i < EdgeBlend
    ensures i == 0 ==> BlendAt(prev, cur, i) == prev
    ensures MinInt(prev, cur) <= BlendAt(prev, cur, i) <= -MinInt(-prev, -cur)
  {
    var lo, hi := MinInt(prev, cur), -MinInt(-prev, -cur);
    var w := i as real / EdgeBlend as real;
    assert 0.0 <= w <= 1.0;
    WavgBetween(prev as real, cur as real, w, lo as real, hi as real);
    TruncBetween(Wavg(prev as real, cur as real, w), lo, hi);
  }

  /** "(fill = fill_act = 0) or fill_act = fill + 600 <= cap": the next blend reads inside the buffer. */
  predicate BlendReady(fill: nat, act: nat, cap: nat)
  {
    (fill == 0 && act == 0) || act == fill + EdgeBlend <= cap
  }

  /**
   * The output side of a `distort_t`: the buffer, its fill (where the next
   * chunk goes), the fill including the tail kept for the next cross-fade,
   * its capacity, and the chunk toggle.
   */
  datatype OutBuf = OutBuf(buf: seq<int>, fill: nat, act: nat, cap: nat, ab: bool)

  /** The buffer is as large as its capacity and the next cross-fade reads inside it. */
  predicate OutOk(o: OutBuf)
  {
    |o.buf| == o.cap && o.fill <= o.cap && BlendReady(o.fill, o.act, o.cap)
  }

  /** The chunk as it is stored: cross-faded with the held tail when there is one. */
  function Faded(o: OutBuf, chunk: seq<int>): (r: seq<int>)
    requires OutOk(o) && |chunk| > EdgeBlend
    ensures |r| == |chunk|
    ensures o.act == 0 ==> r == chunk
    ensures forall k :: EdgeBlend <= k < |chunk| ==> r[k] == chunk[k]
  {
    if o.act != 0 then Blended(o.buf[o.fill..o.fill + EdgeBlend], chunk) else chunk
  }

  /**
   * Storing a (faded) chunk: grow the buffer by a chunk when it does not
   * fit, write the chunk at the fill, advance the fill by the stride, keep
   * `EdgeBlend` samples past it for the next fade, and flip the toggle.
   */
  function Stored(o: OutBuf, tmp: seq<int>): (r: OutBuf)
    requires OutOk(o) && |tmp| > EdgeBlend
    ensures OutOk(r)
  {
    var cs := |tmp|;
    var grow := o.fill + cs > o.cap;
    var buf := if grow then o.buf + Zeros(cs) else o.buf;
    var cap := if grow then o.cap + cs else o.cap;
    OutBuf(buf[..o.fill] + tmp + buf[o.fill + cs..], o.fill + (cs - EdgeBlend), o.fill + cs, cap, !o.ab)
  }

  /** One pass of the chunking loop on an equalised chunk. */
  function ChunkOut(o: OutBuf, chunk: seq<int>): (r: OutBuf)
    requires OutOk(o) && |chunk| > EdgeBlend
    ensures OutOk(r)
  {
    Stored(o, Faded(o, chunk))
  }

  /** Storing advances the fill by the stride, keeps earlier samples, holds a blend tail and flips the toggle. */
  lemma StoredEffect(o: OutBuf, tmp: seq<int>)
    requires OutOk(o) && |tmp| > EdgeBlend
    ensures var r := Stored(o, tmp);
      && r.fill == o.fill + (|tmp| - EdgeBlend)
      && r.act == r.fill + EdgeBlend
      && r.cap >= o.cap
      && (forall k :: 0 <= k < o.fill ==> r.buf[k] == o.buf[k])
      && r.buf[o.fill..o.fill + |tmp|] == tmp
      && r.ab == !o.ab
  {
  }

  /**
   * The samples one call may hand out, `MIN(outbuf_fill, outbuf_fill -
   * (chunksz - inbuf_fill))` in 64-bit `size_t` arithmetic: the held-back
   * amount is subtracted when the output buffer holds that much, and
   * otherwise the subtraction wraps and the whole buffer is available.
   */
  function Avail(outFill: nat, cs: nat, inFill: nat): (r: nat)
    requires inFill < cs < U64
    ensures r <= outFill
    ensures outFill < U64 && outFill >= cs - inFill ==> r == outFill - (cs - inFill)
    ensures outFill < cs - inFill ==> r == outFill
  {
    var lag := cs - inFill;
    var diff := WrapU64(outFill - lag);
    assert outFill < lag ==> diff == outFill - lag + U64;
    if outFill < diff then outFill else diff
  }

  /** The number of leading silent samples a call of `n` samples produces. */
  function Padding(n: nat, avail: nat): (p: nat)
    ensures p <= n
    ensures p + MinInt(n, avail) == n
  {
    if n > avail then n - avail else 0
  }

  /** A `distort_t`: rate, compressor levels, the chunk toggle and the two buffers with their fills and capacities. */
  class Distorter {
    const srate: nat
    const timeQuantum: nat
    var comprEnergy: real
    var rms: real
    var noiseLevel: real
    var amplify: real
    var chunkAB: bool
    var inbuf: seq<int>
    var inbufFill: nat
    var inbufCap: nat
    var outbuf: seq<int>
    var outbufFill: nat
    var outbufFillAct: nat
    var outbufCap: nat

    /** The output side of the filter as a value. */
    ghost function Out(): OutBuf
      reads this
    {
      OutBuf(outbuf, outbufFill, outbufFillAct, outbufCap, chunkAB)
    }

    /** The invariant that holds before the chunking loop: buffers as large as their capacities, fills inside them. */
    ghost predicate Buffered()
      reads this
    {
      RateOk(srate, timeQuantum)
      && |inbuf| == inbufCap && inbufFill <= inbufCap
      && OutOk(Out())
    }

    /** Between calls, less than one chunk waits in the input buffer. */
    ghost predicate Valid()
      reads this
    {
      Buffered() && inbufFill < ChunkSize(srate, timeQuantum)
    }

    /** `distort_init`: only 44.1 kHz and 48 kHz are accepted; both buffers start empty. */
    constructor (sampleRate: nat)
      requires sampleRate == 44100 || sampleRate == 48000
      ensures Valid()
      ensures srate == sampleRate
      ensures comprEnergy == 1.0 && amplify == 1.0 && rms == 0.0 && noiseLevel == 0.0 && !chunkAB
      ensures inbufFill == 0 && inbufCap == 0 && outbufFill == 0 && outbufFillAct == 0 && outbufCap == 0
    {
      srate := sampleRate;
      timeQuantum := if sampleRate == 44100 then TimeQuantum44k else TimeQuantum48k;
      comprEnergy := 1.0;
      rms := 0.0;
      noiseLevel := 0.0;
      amplify := 1.0;
      chunkAB := false;
      inbuf, inbufFill, inbufCap := [], 0, 0;
      outbuf, outbufFill, outbufFillAct, outbufCap := [], 0, 0, 0;
    }

    /** `distort_clear_buffers`: forget buffered audio and reset the compressor; nothing else changes. */
    method ClearBuffers()
      requires Valid()
      modifies this
      ensures Valid()
      ensures inbufFill == 0 && outbufFill == 0 && outbufFillAct == 0
      ensures comprEnergy == 1.0 && rms == 0.0
      ensures inbuf == old(inbuf) && inbufCap == old(inbufCap)
      ensures outbuf == old(outbuf) && outbufCap == old(outbufCap)
      ensures noiseLevel == old(noiseLevel) && amplify == old(amplify) && chunkAB == old(chunkAB)
    {
      inbufFill := 0;
      outbufFill := 0;
      outbufFillAct := 0;
      comprEnergy := 1.0;
      rms := 0.0;
    }

    /**
     * The intake of `distort_impl`: grow the input buffer to hold the new
     * block, compress the block and append it after the buffered samples.
     */
    method Feed(input: seq<int>, comp: Compressor)
      requires Valid()
      modifies this
      ensures Buffered()
      ensures inbufCap == if old(inbufFill) + |input| > old(inbufCap) then old(inbufFill) + |input| else old(inbufCap)
      ensures inbufFill == old(inbufFill) + |input|
      ensures inbuf[..inbufFill] == old(inbuf[..inbufFill]) + comp(old(Dynamics(rms, comprEnergy)), input).1
      ensures Dynamics(rms, comprEnergy) == comp(old(Dynamics(rms, comprEnergy)), input).0
      ensures Out() == old(Out())
      ensures noiseLevel == old(noiseLevel) && amplify == old(amplify)
    {
      var n := |input|;
      if inbufFill + n > inbufCap {
        inbuf := inbuf + Zeros(inbufFill + n - inbufCap);
        inbufCap := inbufFill + n;
      }
      var res := comp(Dynamics(rms, comprEnergy), input);
      inbuf := inbuf[..inbufFill] + res.1 + inbuf[inbufFill + n..];
      rms, comprEnergy := res.0.rms, res.0.comprEnergy;
      inbufFill := inbufFill + n;
    }

    /**
     * `distort_process`: run the chunking loop over the buffered input,
     * then move the unconsumed input to the front.
     */
    method Process(eq: ChunkFx)
      requires Buffered()
      modifies this`inbuf, this`inbufFill, this`outbuf, this`outbufFill, this`outbufFillAct, this`outbufCap, this`chunkAB
      ensures Valid()
      ensures outbufFill == old(outbufFill) + Consumed(old(inbufFill), ChunkSize(srate, timeQuantum))
      ensures outbufCap >= old(outbufCap)
      ensures forall k :: 0 <= k < old(outbufFill) ==> outbuf[k] == old(outbuf[k])
      ensures inbufFill == old(inbufFill) - Consumed(old(inbufFill), ChunkSize(srate, timeQuantum))
      ensures inbuf[..inbufFill] == old(inbuf[..inbufFill])[Consumed(old(inbufFill), ChunkSize(srate, timeQuantum))..]
    {
      var consumed := RunChunks(eq);
      if consumed > 0 {
        ShiftInput(consumed);
      }
    }

    /** The `memmove` that drops the first `n` buffered input samples; the tail beyond the new fill keeps old samples. */
    method ShiftInput(n: nat)
      requires n <= inbufFill <= |inbuf|
      modifies this`inbuf, this`inbufFill
      ensures inbufFill == old(inbufFill) - n
      ensures |inbuf| == old(|inbuf|)
      ensures inbuf[..inbufFill] == old(inbuf[n..inbufFill])
    {
      var kept := inbuf[n..inbufFill];
      inbuf := kept + inbuf[inbufFill - n..];
      inbufFill := inbufFill - n;
      assert inbuf[..inbufFill] == kept;
    }

    /**
     * The chunking loop of `distort_process`; returns how much input it
     * consumed. Every pass is one `ChunkOut` (see `ProcessChunk`); over the
     * whole loop the output fill moves by exactly the input consumed and the
     * samples already waiting to be handed out stay as they were.
     */
    method RunChunks(eq: ChunkFx) returns (consumed: nat)
      requires Buffered()
      modifies this`outbuf, this`outbufFill, this`outbufFillAct, this`outbufCap, this`chunkAB
      ensures Buffered()
      ensures consumed == Consumed(inbufFill, ChunkSize(srate, timeQuantum))
      ensures outbufFill == old(outbufFill) + consumed
      ensures outbufCap >= old(outbufCap)
      ensures forall k :: 0 <= k < old(outbufFill) ==> outbuf[k] == old(outbuf[k])
    {
      var cs, fill := ChunkSize(srate, timeQuantum), inbufFill;
      consumed := 0;
      while consumed + cs <= fill
        invariant Buffered() && inbufFill == fill
        invariant consumed <= fill
        invariant consumed + Consumed(fill - consumed, cs) == Consumed(fill, cs)
        invariant outbufFill == old(outbufFill) + consumed
        invariant outbufCap >= old(outbufCap)
        invariant forall k :: 0 <= k < old(outbufFill) ==> outbuf[k] == old(outbuf[k])
        decreases fill - consumed
      {
        ConsumedAdvance(fill, consumed, cs);
        ProcessChunk(eq(chunkAB, inbuf[consumed..consumed + cs]));
        consumed := consumed + (cs - EdgeBlend);
      }
    }

    /**
     * One pass of the chunking loop on the equalised chunk: cross-fade its
     * head with the held tail when there is one, then store it.
     */
    method ProcessChunk(chunk: seq<int>)
      requires Buffered() && |chunk| == ChunkSize(srate, timeQuantum)
      modifies this`outbuf, this`outbufFill, this`outbufFillAct, this`outbufCap, this`chunkAB
      ensures Buffered()
      ensures Out() == ChunkOut(old(Out()), chunk)
      ensures outbufFill == old(outbufFill) + (|chunk| - EdgeBlend)
      ensures outbufCap >= old(outbufCap)
      ensures forall k :: 0 <= k < old(outbufFill) ==> outbuf[k] == old(outbuf[k])
    {
      var tmp := chunk;
      if outbufFillAct != 0 {
        tmp := BlendEdge(outbuf[outbufFill..outbufFill + EdgeBlend], tmp);
      }
      assert tmp == Faded(Out(), chunk);
      StoreChunk(tmp);
    }

    /** The copy of the (faded) chunk into the output buffer, growing it by a chunk when it does not fit. */
    method StoreChunk(tmp: seq<int>)
      requires Buffered() && |tmp| == ChunkSize(srate, timeQuantum)
      modifies this`outbuf, this`outbufFill, this`outbufFillAct, this`outbufCap, this`chunkAB
      ensures Buffered()
      ensures Out() == Stored(old(Out()), tmp)
      ensures outbufFill == old(outbufFill) + (|tmp| - EdgeBlend)
      ensures outbufCap >= old(outbufCap)
      ensures forall k :: 0 <= k < old(outbufFill) ==> outbuf[k] == old(outbuf[k])
    {
      var cs := |tmp|;
      ghost var before := Out();
      var buf, cap := outbuf, outbufCap;
      if outbufFill + cs > cap {
        buf := buf + Zeros(cs);
        cap := cap + cs;
      }
      var fill := outbufFill + (cs - EdgeBlend);
      StoredEffect(before, tmp);
      assert OutBuf(buf[..outbufFill] + tmp + buf[outbufFill + cs..], fill, fill + EdgeBlend, cap, !chunkAB)
        == Stored(before, tmp);
      outbuf, outbufCap := buf[..outbufFill] + tmp + buf[outbufFill + cs..], cap;
      outbufFill, outbufFillAct, chunkAB := fill, fill + EdgeBlend, !chunkAB;
    }

    /**
     * The output stage of `distort_impl`: silence for whatever the output
     * buffer cannot supply, then the available samples taken from the head
     * of the output buffer, which shifts the rest forward.
     */
    method Drain(n: nat) returns (out: seq<int>)
      requires Valid()
      modifies this`outbuf, this`outbufFill, this`outbufFillAct
      ensures Valid()
      ensures |out| == n
      ensures var a := Avail(old(outbufFill), ChunkSize(srate, timeQuantum), inbufFill);
        out == Zeros(Padding(n, a)) + old(outbuf[..MinInt(n, a)])
      ensures var k := MinInt(n, Avail(old(outbufFill), ChunkSize(srate, timeQuantum), inbufFill));
        outbufFill == old(outbufFill) - k && outbufFillAct == old(outbufFillAct) - k
        && outbuf[..outbufFillAct] == old(outbuf[k..outbufFillAct])
    {
      var cs := ChunkSize(srate, timeQuantum);
      var avail := Avail(outbufFill, cs, inbufFill);
      var i := 0;
      if n > avail {
        i := n - avail;
      }
      out := Zeros(i);
      if i < n {
        var wanted := n - i;
        var toCopy := if wanted < avail then wanted else avail;
        out := out + outbuf[..toCopy];
        ShiftOutput(toCopy);
      }
    }

    /** The `memmove` that drops the first `k` output samples, the held blend tail included; the fills move back by `k`. */
    method ShiftOutput(k: nat)
      requires OutOk(Out()) && k <= outbufFill
      modifies this`outbuf, this`outbufFill, this`outbufFillAct
      ensures OutOk(Out()) && |outbuf| == old(|outbuf|)
      ensures outbufFill == old(outbufFill) - k && outbufFillAct == old(outbufFillAct) - k
      ensures outbuf[..outbufFillAct] == old(outbuf[k..outbufFillAct])
    {
      var kept := outbuf[k..outbufFillAct];
      outbuf := kept + outbuf[outbufFillAct - k..];
      outbufFill := outbufFill - k;
      outbufFillAct := outbufFillAct - k;
      assert outbuf[..outbufFillAct] == kept;
    }

    /**
     * `distort_impl` (and `distort`, which copies its result over the
     * caller's samples): always exactly as many samples out as in.
     */
    method Impl(input: seq<int>, amp: real, noise: real, comp: Compressor, eq: ChunkFx)
      returns (out: seq<int>)
      requires Valid()
      modifies this
      ensures Valid()
      ensures |out| == |input|
      ensures amplify == amp && noiseLevel == noise
    {
      amplify := amp;
      noiseLevel := noise;
      Feed(input, comp);
      Process(eq);
      out := Drain(|input|);
    }
  }
}
