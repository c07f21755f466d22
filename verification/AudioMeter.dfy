/** One pass over decoded audio: frames cut out of a byte stream that arrives in
    chunks of any length, and the bits its samples use (src/quality/mod.rs). */
module AudioMeter {
  import opened Decimal

  newtype Byte = b: int | 0 <= b < 256

  const WORD: nat := 0x1_0000_0000

  function Pow2(k: nat): (p: nat)
    ensures p > 0
  {
    if k == 0 then 1 else 2 * Pow2(k - 1)
  }

  /** Four bytes, least significant first, as an unsigned word. */
  function Word(bytes: seq<Byte>): (w: nat)
    requires |bytes| == 4
    ensures w < WORD
  {
    bytes[0] as nat + 0x100 * bytes[1] as nat + 0x1_0000 * bytes[2] as nat + 0x100_0000 * bytes[3] as nat
  }

  /** The same bits in two's complement. */
  function Signed(w: nat): (v: int)
    requires w < WORD
  {
    if w < WORD / 2 then w else w - WORD
  }

  /** Bit by bit, whether either number sets it. */
  function Or(a: nat, b: nat): (r: nat) {
    if a == 0 && b == 0 then 0
    else 2 * Or(a / 2, b / 2) + (if a % 2 == 1 || b % 2 == 1 then 1 else 0)
  }

  function TrailingZeros(n: nat): (k: nat)
    requires n > 0
  {
    if n % 2 == 1 then 0 else 1 + TrailingZeros(n / 2)
  }

  function EffectiveBits(orBits: nat, float: bool): (bits: Option<int>) {
    if !float && orBits != 0 then Some(32 - TrailingZeros(orBits)) else None
  }

  function FrameOf(bytes: seq<Byte>, channels: nat, level: int -> real): (frame: seq<real>)
    requires |bytes| == 4 * channels
  {
    seq(channels, c requires 0 <= c < channels => level(Signed(Word(bytes[4 * c..4 * c + 4]))))
  }

  /** Every whole frame of a stream, first to last. */
  function FramesOf(bytes: seq<Byte>, channels: nat, level: int -> real): (frames: seq<seq<real>>)
    requires channels > 0
  {
    var n := 4 * channels;
    if |bytes| < n then [] else [FrameOf(bytes[..n], channels, level)] + FramesOf(bytes[n..], channels, level)
  }

  /** How many of `length` bytes make whole frames of `n`. */
  function WholeLength(length: nat, n: nat): (whole: nat)
    requires n > 0
    ensures length - n < whole <= length
  {
    if length < n then 0 else n + WholeLength(length - n, n)
  }

  /** The OR of every sample of a stream. */
  function OrOf(bytes: seq<Byte>): (w: nat) {
    if |bytes| < 4 then 0
    else
      var k := |bytes| - 4;
      Or(OrOf(bytes[..k]), Word(bytes[k..]))
  }

  function Concat(chunks: seq<seq<Byte>>): (bytes: seq<Byte>) {
    if chunks == [] then [] else Concat(chunks[..|chunks| - 1]) + chunks[|chunks| - 1]
  }

  /** A larger multiplier leaves no smaller remainder. */
  lemma MoreTimes(n: nat, p: int, q: int)
    requires p > q
    ensures n * p >= n * q + n
  {
    assert n * p == n * q + n + n * (p - q - 1);
  }

  lemma DivisionStep(length: nat, n: nat)
    requires 0 < n <= length
    ensures length / n == 1 + (length - n) / n
  {
    var p, q := length / n, 1 + (length - n) / n;
    assert n * q == n + n * ((length - n) / n);
    if p > q {
      MoreTimes(n, p, q);
    } else if q > p {
      MoreTimes(n, q, p);
    }
  }

  lemma {:induction false} WholeIsAProduct(length: nat, n: nat)
    requires n > 0
    ensures WholeLength(length, n) == length / n * n
  {
    if length >= n {
      WholeIsAProduct(length - n, n);
      DivisionStep(length, n);
    }
  }

  /** Frames of whole frames, then of what follows them. */
  lemma {:induction false} FramesOfSum(a: seq<Byte>, b: seq<Byte>, channels: nat, level: int -> real)
    requires channels > 0 && WholeLength(|a|, 4 * channels) == |a|
    ensures FramesOf(a + b, channels, level) == FramesOf(a, channels, level) + FramesOf(b, channels, level)
  {
    var n := 4 * channels;
    if a == [] {
      assert a + b == b;
    } else {
      var rest := a[n..];
      FramesOfSum(rest, b, channels, level);
      assert (a + b)[..n] == a[..n] && (a + b)[n..] == rest + b;
      assert FramesOf(a + b, channels, level) == [FrameOf(a[..n], channels, level)] + FramesOf(rest + b, channels, level);
    }
  }

  lemma {:induction false} WholeOfSum(a: nat, b: nat, n: nat)
    requires n > 0 && WholeLength(a, n) == a
    ensures WholeLength(a + b, n) == a + WholeLength(b, n)
  {
    if a > 0 {
      WholeOfSum(a - n, b, n);
    }
  }

  lemma {:induction false} WholeIsWhole(length: nat, n: nat)
    requires n > 0
    ensures WholeLength(WholeLength(length, n), n) == WholeLength(length, n)
  {
    if length >= n {
      WholeIsWhole(length - n, n);
    }
  }

  lemma {:induction false} OneFrame(bytes: seq<Byte>, channels: nat, level: int -> real)
    requires channels > 0 && |bytes| == 4 * channels
    ensures FramesOf(bytes, channels, level) == [FrameOf(bytes, channels, level)]
  {
    assert bytes[..4 * channels] == bytes;
  }

  /** One more frame after whole ones. */
  lemma {:induction false} FrameAfter(done: seq<Byte>, piece: seq<Byte>, channels: nat, level: int -> real)
    requires channels > 0 && WholeLength(|done|, 4 * channels) == |done| && |piece| == 4 * channels
    ensures FramesOf(done + piece, channels, level) == FramesOf(done, channels, level) + [FrameOf(piece, channels, level)]
    ensures WholeLength(|done + piece|, 4 * channels) == |done + piece|
  {
    FramesOfSum(done, piece, channels, level);
    OneFrame(piece, channels, level);
    WholeOfSum(|done|, |piece|, 4 * channels);
  }

  /** Whole frames and a rest too short for one are a stream cut where its whole part ends. */
  lemma {:induction false} CutAtTheRest(done: seq<Byte>, rest: seq<Byte>, channels: nat, level: int -> real)
    requires channels > 0 && WholeLength(|done|, 4 * channels) == |done| && |rest| < 4 * channels
    ensures |done| == WholeLength(|done + rest|, 4 * channels)
    ensures (done + rest)[..|done|] == done && (done + rest)[|done|..] == rest
    ensures FramesOf(done + rest, channels, level) == FramesOf(done, channels, level)
  {
    WholeOfSum(|done|, |rest|, 4 * channels);
    FramesOfSum(done, rest, channels, level);
  }

  lemma {:induction false} WholeIsAMultiple(length: nat, n: nat)
    requires n > 0 && n % 4 == 0
    ensures WholeLength(length, n) % 4 == 0
  {
    if length >= n {
      WholeIsAMultiple(length - n, n);
    }
  }

  lemma {:induction false} OrAfter(done: seq<Byte>, sample: seq<Byte>)
    requires |sample| == 4
    ensures OrOf(done + sample) == Or(OrOf(done), Word(sample))
  {
    assert (done + sample)[..|done|] == done && (done + sample)[|done|..] == sample;
  }

  // ---- samples, as the decoder writes them ----

  predicate InRange(v: int) {
    -0x8000_0000 <= v < 0x8000_0000
  }

  /** Four bytes from the lowest up, as a decoder writes a signed sample. */
  function LittleEndian(v: int): (bytes: seq<Byte>)
    requires InRange(v)
  {
    var w := if v < 0 then v + WORD else v;
    [(w % 0x100) as Byte, (w / 0x100 % 0x100) as Byte, (w / 0x1_0000 % 0x100) as Byte, (w / 0x100_0000) as Byte]
  }

  /** Every signed 32-bit sample is read back from the bytes it was written as. */
  lemma {:induction false} SamplesAreReadBack(v: int)
    requires InRange(v)
    ensures Signed(Word(LittleEndian(v))) == v
  {
    var w := if v < 0 then v + WORD else v;
    assert w / 0x1_0000 == w / 0x100 / 0x100 && w / 0x100_0000 == w / 0x1_0000 / 0x100;
  }

  /** The samples of every channel, frame after frame, as one stream of bytes. */
  function Encoded(samples: seq<int>): (bytes: seq<Byte>)
    requires forall v | v in samples :: InRange(v)
    ensures |bytes| == 4 * |samples|
  {
    if samples == [] then [] else LittleEndian(samples[0]) + Encoded(samples[1..])
  }

  lemma {:induction false} EncodedAt(samples: seq<int>, k: nat)
    requires forall v | v in samples :: InRange(v)
    requires k < |samples|
    ensures Encoded(samples)[4 * k..4 * k + 4] == LittleEndian(samples[k])
  {
    if k > 0 {
      EncodedAt(samples[1..], k - 1);
      assert Encoded(samples)[4 * k..4 * k + 4] == Encoded(samples[1..])[4 * (k - 1)..4 * (k - 1) + 4];
    }
  }

  lemma {:induction false} EncodedSplits(samples: seq<int>, n: nat)
    requires forall v | v in samples :: InRange(v)
    requires n <= |samples|
    ensures Encoded(samples)[..4 * n] == Encoded(samples[..n]) && Encoded(samples)[4 * n..] == Encoded(samples[n..])
  {
    if n > 0 {
      EncodedSplits(samples[1..], n - 1);
      assert samples[1..][..n - 1] == samples[..n][1..] && samples[1..][n - 1..] == samples[n..];
      assert Encoded(samples)[..4 * n] == LittleEndian(samples[0]) + Encoded(samples[1..])[..4 * (n - 1)];
      assert Encoded(samples)[4 * n..] == Encoded(samples[1..])[4 * (n - 1)..];
    }
  }

  lemma {:induction false} OneFrameOfSamples(samples: seq<int>, channels: nat, level: int -> real, k: nat)
    requires forall v | v in samples :: InRange(v)
    requires |samples| == channels && k < channels
    ensures FrameOf(Encoded(samples), channels, level)[k] == level(samples[k])
  {
    EncodedAt(samples, k);
    SamplesAreReadBack(samples[k]);
  }

  /** Sample `k` of frame `i` is number `i * channels + k` of the stream. */
  predicate Carries(frames: seq<seq<real>>, samples: seq<int>, channels: nat, level: int -> real, i: nat, k: nat)
    requires i < |frames|
  {
    |frames[i]| == channels && k < channels && i * channels + k < |samples| && frames[i][k] == level(samples[i * channels + k])
  }

  ghost predicate Interleaved(frames: seq<seq<real>>, samples: seq<int>, channels: nat, level: int -> real) {
    forall i: nat, k: nat | i < |frames| && k < channels :: Carries(frames, samples, channels, level, i, k)
  }

  lemma NextFrame(i: nat, channels: nat)
    requires i > 0
    ensures i * channels == channels + (i - 1) * channels
  {
  }

  lemma {:induction false} FrameAhead(frame: seq<real>, rest: seq<seq<real>>, samples: seq<int>, channels: nat, level: int -> real)
    requires channels <= |samples| && |frame| == channels && forall k: nat | k < channels :: frame[k] == level(samples[k])
    requires Interleaved(rest, samples[channels..], channels, level)
    ensures Interleaved([frame] + rest, samples, channels, level)
  {
    var frames := [frame] + rest;
    forall i: nat, k: nat | i < |frames| && k < channels ensures Carries(frames, samples, channels, level, i, k) {
      if i > 0 {
        NextFrame(i, channels);
        assert Carries(rest, samples[channels..], channels, level, i - 1, k);
      }
    }
  }

  lemma {:induction false} FirstFrameOfSamples(samples: seq<int>, channels: nat, level: int -> real) returns (first: seq<real>)
    requires 0 < channels <= |samples|
    requires forall v | v in samples :: InRange(v)
    ensures |first| == channels && forall k: nat | k < channels :: first[k] == level(samples[k])
    ensures FramesOf(Encoded(samples), channels, level) == [first] + FramesOf(Encoded(samples[channels..]), channels, level)
  {
    var head := samples[..channels];
    EncodedSplits(samples, channels);
    first := FrameOf(Encoded(head), channels, level);
    forall k: nat | k < channels ensures first[k] == level(samples[k]) {
      OneFrameOfSamples(head, channels, level, k);
    }
  }

  /** How many frames of `n` samples there are in `length`. */
  function FrameCount(length: nat, n: nat): (count: nat)
    requires n > 0
  {
    if length < n then 0 else 1 + FrameCount(length - n, n)
  }

  lemma {:induction false} FrameCountIs(length: nat, n: nat)
    requires n > 0
    ensures FrameCount(length, n) == length / n
  {
    if length >= n {
      FrameCountIs(length - n, n);
      DivisionStep(length, n);
    }
  }

  /** Decoding a stream of samples gives back each of them, in its frame and on
      its channel, sign and order kept. */
  lemma {:induction false} FramesAreSamples(samples: seq<int>, channels: nat, level: int -> real)
    requires channels > 0
    requires forall v | v in samples :: InRange(v)
    ensures |FramesOf(Encoded(samples), channels, level)| == FrameCount(|samples|, channels)
    ensures Interleaved(FramesOf(Encoded(samples), channels, level), samples, channels, level)
  {
    if |samples| >= channels {
      var rest := samples[channels..];
      var first := FirstFrameOfSamples(samples, channels, level);
      FramesAreSamples(rest, channels, level);
      FrameAhead(first, FramesOf(Encoded(rest), channels, level), samples, channels, level);
    }
  }

  lemma {:induction false} ConcatAdds(a: seq<seq<Byte>>, b: seq<seq<Byte>>)
    ensures Concat(a + b) == Concat(a) + Concat(b)
  {
    if b == [] {
      assert a + b == a;
    } else {
      assert (a + b)[..|a + b| - 1] == a + b[..|b| - 1];
      ConcatAdds(a, b[..|b| - 1]);
    }
  }

  /** Chunks follow one another in a stream, each whole. */
  lemma {:induction false} ChunksFollow(before: seq<seq<Byte>>, chunk: seq<Byte>, after: seq<seq<Byte>>)
    ensures Concat(before + [chunk] + after) == Concat(before) + chunk + Concat(after)
  {
    ConcatAdds(before + [chunk], after);
    ConcatAdds(before, [chunk]);
    assert [chunk][..0] == [];
  }

  class Accumulator {
    const channels: nat
    /** What a sample is pushed as: its value on the meter's own scale. */
    const level: int -> real
    var meter: seq<seq<real>>
    var orBits: nat
    var samples: nat

    constructor (channels: nat, level: int -> real)
      requires channels > 0
      ensures this.channels == channels && this.level == level && Measured([])
    {
      this.channels := channels;
      this.level := level;
      meter, orBits, samples := [], 0, 0;
    }

    /** The state after exactly the frames these bytes hold. */
    ghost predicate Measured(bytes: seq<Byte>)
      reads this
    {
      && channels > 0
      && WholeLength(|bytes|, 4 * channels) == |bytes|
      && meter == FramesOf(bytes, channels, level)
      && orBits == OrOf(bytes)
      && samples == |meter|
    }

    /** Decodes one frame's samples into a buffer, folding them in as it goes. */
    method Fold(bytes: seq<Byte>, frame: array<real>, ghost done: seq<Byte>)
      requires |bytes| == 4 * channels && frame.Length == channels && orBits == OrOf(done)
      modifies this`orBits, frame
      ensures frame[..] == FrameOf(bytes, channels, level) && orBits == OrOf(done + bytes)
    {
      assert done + bytes[..0] == done;
      for c := 0 to channels
        invariant forall k | 0 <= k < c :: frame[k] == FrameOf(bytes, channels, level)[k]
        invariant orBits == OrOf(done + bytes[..4 * c])
      {
        var sample := bytes[4 * c..4 * c + 4];
        assert done + bytes[..4 * (c + 1)] == (done + bytes[..4 * c]) + sample;
        OrAfter(done + bytes[..4 * c], sample);
        orBits := Or(orBits, Word(sample));
        frame[c] := level(Signed(Word(sample)));
      }
      assert bytes[..4 * channels] == bytes;
    }

    method WholeBytes(length: nat, n: nat) returns (whole: nat)
      requires n > 0
      ensures whole == WholeLength(length, n) == WholeLength(whole, n)
    {
      whole := length / n * n;
      WholeIsAProduct(length, n);
      WholeIsWhole(length, n);
    }

    /** Takes one chunk: pushes what makes whole frames, and keeps the rest. */
    method Receive(chunk: seq<Byte>, kept: seq<Byte>, frame: array<real>, ghost done: seq<Byte>)
      returns (pending: seq<Byte>, ghost now: seq<Byte>)
      requires frame.Length == channels && Measured(done)
      modifies this, frame
      ensures Measured(now) && |pending| < 4 * channels
      ensures now + pending == done + (kept + chunk)
    {
      pending := kept + chunk;
      var whole := WholeBytes(|pending|, 4 * channels);
      now := Push(frame, pending[..whole], done);
      assert done + pending == (done + pending[..whole]) + pending[whole..];
      pending := pending[whole..];
    }

    /** Reads every chunk. Wherever the stream was cut, the frames pushed, the
        bits and the count are those of the stream decoded whole, and only what
        is shorter than a frame is left unread. */
    method Run(chunks: seq<seq<Byte>>) returns (pending: seq<Byte>)
      requires Measured([])
      modifies this
      ensures var all := Concat(chunks);
              var whole := WholeLength(|all|, 4 * channels);
              && Measured(all[..whole])
              && meter == FramesOf(all, channels, level)
              && pending == all[whole..] && |pending| < 4 * channels
      ensures forall stream: seq<int> | (forall v | v in stream :: InRange(v)) && Encoded(stream) == Concat(chunks) ::
                |meter| == |stream| / channels && Interleaved(meter, stream, channels, level)
    {
      pending := [];
      var frame := new real[channels];
      ghost var done: seq<Byte> := [];
      for i := 0 to |chunks|
        invariant done + pending == Concat(chunks[..i])
        invariant |pending| < 4 * channels && Measured(done)
      {
        ghost var before := done + pending;
        assert chunks[..i + 1][..i] == chunks[..i];
        assert before + chunks[i] == done + (pending + chunks[i]);
        pending, done := Receive(chunks[i], pending, frame, done);
      }
      assert chunks[..|chunks|] == chunks;
      CutAtTheRest(done, pending, channels, level);
      forall stream: seq<int> | (forall v | v in stream :: InRange(v)) && Encoded(stream) == Concat(chunks)
        ensures |meter| == |stream| / channels && Interleaved(meter, stream, channels, level)
      {
        FramesAreSamples(stream, channels, level);
        FrameCountIs(|stream|, channels);
      }
    }

    method PushFrame(frame: array<real>, bytes: seq<Byte>, ghost done: seq<Byte>)
      requires |bytes| == 4 * channels && frame.Length == channels && Measured(done)
      modifies this, frame
      ensures Measured(done + bytes)
    {
      FrameAfter(done, bytes, channels, level);
      Fold(bytes, frame, done);
      meter := meter + [frame[..]];
      samples := samples + 1;
    }

    /** The depth reported for what was measured: the least one every sample
        fits, and none exactly for a floating-point source or a silent one. */
    method IntoMeasurement(float: bool, ghost bytes: seq<Byte>) returns (bits: Option<int>)
      requires Measured(bytes)
      ensures bits.None? <==> float || Silent(bytes)
      ensures bits.Some? ==> 1 <= bits.value <= 32 && forall depth: nat | depth <= 32 :: FitsDepth(bytes, depth) <==> bits.value <= depth
      ensures ReportsDepth(bits, float, bytes)
    {
      bits := EffectiveBits(orBits, float);
      WholeIsAMultiple(|bytes|, 4 * channels);
      EffectiveBitsIsTheDepth(bytes, float);
      DepthIsReported(bytes, float);
    }

    /** Pushes each frame of a run of whole ones. */
    method Push(frame: array<real>, bytes: seq<Byte>, ghost done: seq<Byte>) returns (ghost now: seq<Byte>)
      requires frame.Length == channels && Measured(done) && WholeLength(|bytes|, 4 * channels) == |bytes|
      modifies this, frame
      ensures now == done + bytes && Measured(now)
    {
      var n := 4 * channels;
      var rest := bytes;
      now := done;
      while |rest| > 0
        invariant WholeLength(|rest|, n) == |rest|
        invariant now + rest == done + bytes && Measured(now)
      {
        PushFrame(frame, rest[..n], now);
        assert now + rest == (now + rest[..n]) + rest[n..];
        now := now + rest[..n];
        rest := rest[n..];
      }
      assert now + rest == now;
    }
  }

  // ---- what a word and an OR are ----

  predicate Bit(n: nat, k: nat) {
    if k == 0 then n % 2 == 1 else Bit(n / 2, k - 1)
  }

  lemma OrByHalves(a: nat, b: nat)
    ensures Or(a, b) / 2 == Or(a / 2, b / 2) && (Or(a, b) % 2 == 1 <==> a % 2 == 1 || b % 2 == 1)
  {
  }

  /** An OR sets exactly the bits either side sets. */
  lemma {:induction false} OrSetsBits(a: nat, b: nat, k: nat)
    ensures Bit(Or(a, b), k) <==> Bit(a, k) || Bit(b, k)
  {
    OrByHalves(a, b);
    if k > 0 {
      OrSetsBits(a / 2, b / 2, k - 1);
      assert Bit(Or(a, b), k) == Bit(Or(a / 2, b / 2), k - 1);
    }
  }

  // ---- what the OR of every sample says of each ----

  lemma ProductDivides(m: nat, q: int)
    requires m > 0
    ensures m * q % m == 0
  {
    var d := m * q / m;
    if q > d {
      MoreTimes(m, q, d);
    } else if d > q {
      MoreTimes(m, d, q);
    }
  }

  lemma HalfDivides(n: int, m: nat)
    requires m > 0
    ensures n % (2 * m) == 0 <==> n % 2 == 0 && n / 2 % m == 0
  {
    if n % (2 * m) == 0 {
      var q := n / (2 * m);
      assert n == 2 * m * q == 2 * (m * q);
      ProductDivides(m, q);
    }
    if n % 2 == 0 && n / 2 % m == 0 {
      var q := n / 2 / m;
      assert n / 2 == m * q;
      assert 2 * m * q == 2 * (m * q);
      ProductDivides(2 * m, q);
    }
  }

  /** Halved `k` times, a number leaves no remainder. */
  predicate Halves(v: int, k: nat)
    decreases k
  {
    k == 0 || (v % 2 == 0 && Halves(v / 2, k - 1))
  }

  /** Which is to be a multiple of that power of two. */
  lemma {:induction false} HalvesIsMultiple(v: int, k: nat)
    ensures Halves(v, k) <==> v % Pow2(k) == 0
    decreases k
  {
    if k > 0 {
      HalvesIsMultiple(v / 2, k - 1);
      HalfDivides(v, Pow2(k - 1));
    }
  }

  /** An OR has no low bit that neither number has. */
  lemma {:induction false} OrHalves(a: nat, b: nat, k: nat)
    ensures Halves(Or(a, b), k) <==> Halves(a, k) && Halves(b, k)
  {
    OrByHalves(a, b);
    if k > 0 {
      OrHalves(a / 2, b / 2, k - 1);
    }
  }

  lemma {:induction false} ZerosHalve(n: nat, k: nat)
    requires n > 0
    ensures Halves(n, k) <==> k <= TrailingZeros(n)
  {
    if k > 0 && n % 2 == 0 {
      ZerosHalve(n / 2, k - 1);
    }
  }

  lemma {:induction false} OrIsZero(a: nat, b: nat)
    ensures Or(a, b) == 0 <==> a == 0 && b == 0
  {
    if a > 0 || b > 0 {
      OrIsZero(a / 2, b / 2);
    }
  }

  lemma {:induction false} OrIsAWord(a: nat, b: nat, k: nat)
    requires a < Pow2(k) && b < Pow2(k)
    ensures Or(a, b) < Pow2(k)
  {
    if k > 0 {
      OrIsAWord(a / 2, b / 2, k - 1);
    }
  }

  /** The samples of a stream, as the words that carry them. */
  function Words(bytes: seq<Byte>): (ws: seq<nat>)
    ensures |ws| == |bytes| / 4 && forall w | w in ws :: w < WORD
  {
    seq(|bytes| / 4, i requires 0 <= i < |bytes| / 4 => Word(bytes[4 * i..4 * i + 4]))
  }

  function OrAll(ws: seq<nat>): (w: nat) {
    if ws == [] then 0 else Or(OrAll(ws[..|ws| - 1]), ws[|ws| - 1])
  }

  /** Every sample is a whole multiple of what `depth` bits out of 32 can tell apart. */
  predicate FitsDepth(bytes: seq<Byte>, depth: nat)
    requires depth <= 32
  {
    forall w | w in Words(bytes) :: Halves(Signed(w), 32 - depth)
  }

  predicate Silent(bytes: seq<Byte>) {
    forall w | w in Words(bytes) :: Signed(w) == 0
  }

  lemma WordIsAPower()
    ensures Pow2(32) == WORD
  {
    assert Pow2(8) == 0x100;
    assert Pow2(16) == 0x1_0000;
    assert Pow2(24) == 0x100_0000;
  }

  lemma HalfOfShifted(v: int, p: int)
    ensures (v - 2 * p) / 2 == v / 2 - p && (v - 2 * p) % 2 == v % 2
  {
  }

  lemma {:induction false} ShiftedHalves(v: int, j: nat, k: nat)
    requires k <= j
    ensures Halves(v - Pow2(j), k) <==> Halves(v, k)
    decreases k
  {
    if k > 0 {
      HalfOfShifted(v, Pow2(j - 1));
      ShiftedHalves(v / 2, j - 1, k - 1);
    }
  }

  /** The sign takes nothing from what divides a word. */
  lemma {:induction false} SignedHalves(w: nat, k: nat)
    requires w < WORD && k <= 32
    ensures Halves(Signed(w), k) <==> Halves(w, k)
  {
    WordIsAPower();
    ShiftedHalves(w, 32, k);
  }

  lemma {:induction false} OrOfWords(bytes: seq<Byte>)
    requires |bytes| % 4 == 0
    ensures OrOf(bytes) == OrAll(Words(bytes))
  {
    if bytes != [] {
      var n := |bytes| - 4;
      OrOfWords(bytes[..n]);
      var ws := Words(bytes);
      assert ws[..|ws| - 1] == Words(bytes[..n]) by {
        assert forall i | 0 <= i < n / 4 :: bytes[4 * i..4 * i + 4] == bytes[..n][4 * i..4 * i + 4];
      }
      assert ws[|ws| - 1] == Word(bytes[n..]);
    }
  }

  /** What an OR says of both its sides, it says of every sample it folds. */
  lemma {:induction false} FoldSays(ws: seq<nat>, says: nat -> bool)
    requires says(0)
    requires forall a: nat, b: nat :: says(Or(a, b)) <==> says(a) && says(b)
    ensures says(OrAll(ws)) <==> forall w | w in ws :: says(w)
  {
    if ws != [] {
      var front, last := ws[..|ws| - 1], ws[|ws| - 1];
      assert ws == front + [last];
      FoldSays(front, says);
    }
  }

  lemma {:induction false} AllHalve(ws: seq<nat>, k: nat)
    ensures Halves(OrAll(ws), k) <==> forall w | w in ws :: Halves(w, k)
  {
    var halves := (w: nat) => Halves(w, k);
    forall a: nat, b: nat ensures halves(Or(a, b)) <==> halves(a) && halves(b) {
      OrHalves(a, b, k);
    }
    assert halves(0) by { ZeroHalves(k); }
    FoldSays(ws, halves);
    assert forall w | w in ws :: halves(w) <==> Halves(w, k);
  }

  lemma {:induction false} ZeroHalves(k: nat)
    ensures Halves(0, k)
  {
    if k > 0 {
      ZeroHalves(k - 1);
    }
  }

  lemma {:induction false} AllZero(ws: seq<nat>)
    ensures OrAll(ws) == 0 <==> forall w | w in ws :: w == 0
  {
    var zero := (w: nat) => w == 0;
    forall a: nat, b: nat ensures zero(Or(a, b)) <==> zero(a) && zero(b) {
      OrIsZero(a, b);
    }
    FoldSays(ws, zero);
    assert forall w | w in ws :: zero(w) <==> w == 0;
  }

  lemma {:induction false} AllAreWords(ws: seq<nat>)
    requires forall i | 0 <= i < |ws| :: ws[i] < WORD
    ensures OrAll(ws) < WORD
  {
    if ws != [] {
      AllAreWords(ws[..|ws| - 1]);
      WordIsAPower();
      OrIsAWord(OrAll(ws[..|ws| - 1]), ws[|ws| - 1], 32);
    }
  }

  lemma {:induction false} SignedWordsHalve(ws: seq<nat>, k: nat)
    requires k <= 32 && forall w | w in ws :: w < WORD
    ensures Halves(OrAll(ws), k) <==> forall w | w in ws :: Halves(Signed(w), k)
  {
    AllHalve(ws, k);
    forall w | w in ws ensures Halves(Signed(w), k) <==> Halves(w, k) {
      SignedHalves(w, k);
    }
  }

  lemma {:induction false} WordsFit(ws: seq<nat>, k: nat)
    requires k <= 32 && OrAll(ws) > 0 && forall w | w in ws :: w < WORD
    ensures (forall w | w in ws :: Halves(Signed(w), k)) <==> k <= TrailingZeros(OrAll(ws))
  {
    SignedWordsHalve(ws, k);
    ZerosHalve(OrAll(ws), k);
  }

  lemma {:induction false} SilenceIsZero(bytes: seq<Byte>)
    requires |bytes| % 4 == 0
    ensures Silent(bytes) <==> OrOf(bytes) == 0
    ensures OrOf(bytes) < WORD
  {
    OrOfWords(bytes);
    AllZero(Words(bytes));
    AllAreWords(Words(bytes));
  }

  lemma {:induction false} ANumberHasALowBit(n: nat, k: nat)
    requires 0 < n < Pow2(k)
    ensures TrailingZeros(n) < k
  {
    if n % 2 == 0 {
      ANumberHasALowBit(n / 2, k - 1);
    }
  }

  lemma {:induction false} WordsAreSamples(samples: seq<int>)
    requires forall v | v in samples :: InRange(v)
    ensures |Words(Encoded(samples))| == |samples|
    ensures forall i | 0 <= i < |samples| :: Signed(Words(Encoded(samples))[i]) == samples[i]
  {
    forall i | 0 <= i < |samples| ensures Signed(Words(Encoded(samples))[i]) == samples[i] {
      EncodedAt(samples, i);
      SamplesAreReadBack(samples[i]);
    }
  }

  predicate AreMultiples(samples: seq<int>, k: nat) {
    forall i | 0 <= i < |samples| :: samples[i] % Pow2(k) == 0
  }

  predicate AreZero(samples: seq<int>) {
    forall i | 0 <= i < |samples| :: samples[i] == 0
  }

  lemma {:induction false} SamplesFit(samples: seq<int>, k: nat)
    requires forall v | v in samples :: InRange(v)
    ensures (forall w | w in Words(Encoded(samples)) :: Halves(Signed(w), k)) <==> AreMultiples(samples, k)
  {
    var ws := Words(Encoded(samples));
    WordsAreSamples(samples);
    forall i | 0 <= i < |samples| ensures samples[i] % Pow2(k) == 0 <==> Halves(Signed(ws[i]), k) {
      HalvesIsMultiple(samples[i], k);
    }
    ByIndex(ws, w => 0 <= w < WORD && Halves(Signed(w), k));
  }

  lemma {:induction false} SamplesAreSilent(samples: seq<int>)
    requires forall v | v in samples :: InRange(v)
    ensures Silent(Encoded(samples)) <==> AreZero(samples)
  {
    var ws := Words(Encoded(samples));
    WordsAreSamples(samples);
    ByIndex(ws, w => 0 <= w < WORD && Signed(w) == 0);
  }

  /** A stream of samples fits a depth when each of them is a multiple of what it
      can tell apart, and is silent when each of them is zero. */
  lemma {:induction false} DepthOfSamples(samples: seq<int>, depth: nat)
    requires depth <= 32
    requires forall v | v in samples :: InRange(v)
    ensures FitsDepth(Encoded(samples), depth) <==> AreMultiples(samples, 32 - depth)
    ensures Silent(Encoded(samples)) <==> AreZero(samples)
  {
    SamplesFit(samples, 32 - depth);
    SamplesAreSilent(samples);
  }

  lemma ByIndex(ws: seq<nat>, says: nat -> bool)
    ensures (forall w | w in ws :: says(w)) <==> forall i | 0 <= i < |ws| :: says(ws[i])
  {
  }

  /** The reported depth is the least one every sample fits, and there is none
      exactly for a floating-point source or one that is silent throughout. */
  lemma {:induction false} EffectiveBitsIsTheDepth(bytes: seq<Byte>, float: bool)
    requires |bytes| % 4 == 0
    ensures var bits := EffectiveBits(OrOf(bytes), float);
            && (bits.None? <==> float || Silent(bytes))
            && (bits.Some? ==> 1 <= bits.value <= 32 && forall depth: nat | depth <= 32 :: FitsDepth(bytes, depth) <==> bits.value <= depth)
  {
    var w, ws := OrOf(bytes), Words(bytes);
    SilenceIsZero(bytes);
    if w != 0 {
      WordIsAPower();
      ANumberHasALowBit(w, 32);
      OrOfWords(bytes);
      forall depth: nat | depth <= 32 ensures FitsDepth(bytes, depth) <==> 32 - TrailingZeros(w) <= depth {
        WordsFit(ws, 32 - depth);
      }
    }
  }

  /** Every sample is a multiple of a power of two exactly up to the one the
      reported depth leaves of 32 bits, and none is reported exactly for a
      floating-point source or one whose samples are all zero. */
  ghost predicate DepthIsLeast(bits: Option<int>, float: bool, samples: seq<int>) {
    && (bits.None? <==> float || AreZero(samples))
    && (bits.Some? ==> 1 <= bits.value <= 32 && forall k: nat | k <= 32 :: AreMultiples(samples, k) <==> bits.value <= 32 - k)
  }

  lemma {:induction false} EffectiveBitsOfSamples(samples: seq<int>, float: bool)
    requires forall v | v in samples :: InRange(v)
    ensures DepthIsLeast(EffectiveBits(OrOf(Encoded(samples)), float), float, samples)
  {
    var bits := EffectiveBits(OrOf(Encoded(samples)), float);
    EffectiveBitsIsTheDepth(Encoded(samples), float);
    DepthOfSamples(samples, 32);
    if bits.Some? {
      forall k: nat | k <= 32 ensures AreMultiples(samples, k) <==> bits.value <= 32 - k {
        DepthOfSamples(samples, 32 - k);
        assert FitsDepth(Encoded(samples), 32 - k) <==> bits.value <= 32 - k;
      }
    }
  }

  /** Of any samples these bytes may encode, the depth is the least. */
  ghost predicate ReportsDepth(bits: Option<int>, float: bool, bytes: seq<Byte>) {
    forall samples: seq<int> | (forall v | v in samples :: InRange(v)) && Encoded(samples) == bytes :: DepthIsLeast(bits, float, samples)
  }

  lemma {:induction false} DepthIsReported(bytes: seq<Byte>, float: bool)
    ensures ReportsDepth(EffectiveBits(OrOf(bytes), float), float, bytes)
  {
    forall samples: seq<int> | (forall v | v in samples :: InRange(v)) && Encoded(samples) == bytes
      ensures DepthIsLeast(EffectiveBits(OrOf(bytes), float), float, samples)
    {
      EffectiveBitsOfSamples(samples, float);
    }
  }
}
