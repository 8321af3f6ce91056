/** What the two `snd_play` loops ask the device to write, as functions of the
    declared payload size `n` and the number of passes the loop makes.

    Both loops keep a `size_t` counter `i` that starts at 0 and grows by the
    buffer size on every pass, and ask for `n - i < sizeof(buf) ? n - i :
    sizeof(buf)` bytes, all in unsigned 64-bit arithmetic.  How many passes
    there are is decided by the stream alone: the loop runs until `feof`.
 */
module Transfer {
  import opened Formats

  /** Values of `size_t` are taken modulo 2^64, of `unsigned int` modulo 2^32. */
  const SIZE_MOD := 0x1_0000_0000_0000_0000
  const UINT_MOD := 0x1_0000_0000

  /** Buffer of the OSS loop (BUF_SIZE) and of the ALSA loop (BUF_SIZE * 2). */
  const OSS_BUF := 4096
  const ALSA_BUF := 8192

  predicate IsBufSize(b: nat) {
    b == OSS_BUF || b == ALSA_BUF
  }

  /** The counter `i` at the start of pass `k`: `i += sizeof(buf)` in `size_t`. */
  function Counter(b: nat, k: nat): (i: nat)
    requires IsBufSize(b)
    ensures i < SIZE_MOD
  {
    if k == 0 then 0 else (Counter(b, k - 1) + b) % SIZE_MOD
  }

  /** Bytes one pass asks for when the counter is `i`: the smaller of
      `n - i` (computed in `size_t`) and the buffer size. */
  function WriteLen(n: nat, i: nat, b: nat): (len: nat)
    requires n < SIZE_MOD && i < SIZE_MOD
    ensures len <= b
  {
    var d := (n - i) % SIZE_MOD;
    if d < b then d else b
  }

  /** What a pass asks for: `n - i` when the counter has not passed the
      declared size and that is shorter than a buffer, the wrapped
      `2^64 - (i - n)` when it has, and otherwise a whole buffer. */
  lemma WriteLenCases(n: nat, i: nat, b: nat)
    requires n < SIZE_MOD && i < SIZE_MOD
    ensures i <= n ==> WriteLen(n, i, b) == (if n - i < b then n - i else b)
    ensures i > n ==> WriteLen(n, i, b) == (if SIZE_MOD - (i - n) < b then SIZE_MOD - (i - n) else b)
  {
  }

  /** The lengths asked for in the first `k` passes, in order. */
  function Lens(n: nat, b: nat, k: nat): (lens: seq<nat>)
    requires n < SIZE_MOD && IsBufSize(b)
    ensures |lens| == k
  {
    if k == 0 then [] else Lens(n, b, k - 1) + [WriteLen(n, Counter(b, k - 1), b)]
  }

  /** Pass `j` asks for the clamped length at the counter of pass `j`. */
  lemma {:induction false} LensAt(n: nat, b: nat, k: nat, j: nat)
    requires n < SIZE_MOD && IsBufSize(b) && j < k
    ensures Lens(n, b, k)[j] == WriteLen(n, Counter(b, j), b)
  {
    if j < k - 1 {
      LensAt(n, b, k - 1, j);
    }
  }

  /** Total of a sequence of lengths. */
  function Sum(s: seq<nat>): (total: nat) {
    if s == [] then 0 else Sum(s[..|s| - 1]) + s[|s| - 1]
  }

  /** How many times `while (!feof(fp))` runs over a stream with `remaining`
      unread bytes, when each pass reads `b` bytes: every full read leaves the
      end-of-file indicator clear, so the loop stops only after the first
      short read, which may read nothing. */
  function Passes(remaining: nat, eof: bool, b: nat): (p: nat)
    requires IsBufSize(b)
    ensures p == 0 <==> eof
  {
    if eof then 0 else remaining / b + 1
  }

  /** The passes are exactly enough to reach the end of the stream: all but
      the last read a whole buffer, the last one reads less. */
  lemma {:induction false} PassesReachEnd(remaining: nat, b: nat)
    requires IsBufSize(b)
    ensures var k := Passes(remaining, false, b);
      k >= 1 && (k - 1) * b <= remaining < k * b
  {
    var k := Passes(remaining, false, b);
    if b == OSS_BUF {
      assert (k - 1) * OSS_BUF <= remaining < k * OSS_BUF;
    } else {
      assert (k - 1) * ALSA_BUF <= remaining < k * ALSA_BUF;
    }
  }

  /** One more pass over a stream of which `k` whole buffers are consumed and
      `remaining` bytes are left: a short read makes it the last of exactly
      `Passes` passes, a full read consumes one more buffer. */
  lemma {:induction false} PassAdvances(total: nat, k: nat, remaining: nat, b: nat)
    requires IsBufSize(b) && remaining + k * b == total
    ensures remaining < b ==> k + 1 == Passes(total, false, b)
    ensures remaining >= b ==> (k + 1) * b == k * b + b && (k + 1) * b <= total
  {
    if b == OSS_BUF {
      assert (k + 1) * OSS_BUF == k * OSS_BUF + OSS_BUF;
    } else {
      assert (k + 1) * ALSA_BUF == k * ALSA_BUF + ALSA_BUF;
    }
  }

  /** While it stays below 2^64, the counter is the number of bytes the
      passes so far have consumed. */
  lemma {:induction false} CounterNoWrap(b: nat, k: nat)
    requires IsBufSize(b) && k * b < SIZE_MOD
    ensures Counter(b, k) == k * b
  {
    if k > 0 {
      assert (k - 1) * b == k * b - b;
      CounterNoWrap(b, k - 1);
    }
  }

  /** A pass that starts with the counter already past the declared size asks
      for a whole buffer: `n - i` wraps around to a number above 2^64 - i. */
  lemma {:induction false} PastDeclaredSizeFullBuffer(n: nat, b: nat, k: nat)
    requires n < SIZE_MOD && IsBufSize(b)
    requires k * b < SIZE_MOD && k * b > n
    ensures Lens(n, b, k + 1)[k] == b
  {
    CounterNoWrap(b, k);
    if b == OSS_BUF {
      assert k * OSS_BUF <= SIZE_MOD - OSS_BUF;
    } else {
      assert k * ALSA_BUF <= SIZE_MOD - ALSA_BUF;
    }
  }

  /** As long as every pass started at or below the declared size, the bytes
      asked for add up to the declared size or to what the passes consumed,
      whichever is smaller. */
  lemma {:induction false} RequestedWithinDeclared(n: nat, b: nat, k: nat)
    requires n < SIZE_MOD && IsBufSize(b) && k * b < SIZE_MOD
    requires k == 0 || (k - 1) * b <= n
    ensures Sum(Lens(n, b, k)) == (if k * b <= n then k * b else n)
  {
    if k > 0 {
      var lens := Lens(n, b, k);
      assert lens[..k - 1] == Lens(n, b, k - 1);
      assert (k - 1) * b == k * b - b;
      assert k - 1 == 0 || (k - 2) * b <= n by {
        if k > 1 { assert (k - 2) * b == (k - 1) * b - b; }
      }
      RequestedWithinDeclared(n, b, k - 1);
      CounterNoWrap(b, k - 1);
      WriteLenCases(n, Counter(b, k - 1), b);
    }
  }

  /** The length the loops evidently mean to ask for: what is left of the
      declared size, at most one buffer, and nothing once it is used up. */
  function BoundedLen(n: nat, i: nat, b: nat): (len: nat)
    ensures len <= b
  {
    if i < n then (if n - i < b then n - i else b) else 0
  }

  function BoundedLens(n: nat, b: nat, k: nat): (lens: seq<nat>)
    requires IsBufSize(b)
    ensures |lens| == k
  {
    if k == 0 then [] else BoundedLens(n, b, k - 1) + [BoundedLen(n, Counter(b, k - 1), b)]
  }

  /** One more pass adds its bounded length to the total. */
  lemma SumBoundedStep(n: nat, b: nat, k: nat)
    requires IsBufSize(b)
    ensures Sum(BoundedLens(n, b, k + 1)) == Sum(BoundedLens(n, b, k)) + BoundedLen(n, Counter(b, k), b)
  {
    assert BoundedLens(n, b, k + 1)[..k] == BoundedLens(n, b, k);
  }

  /** The running total after one more bounded pass that starts at `prev`:
      the smaller of the declared size and `prev + b`. */
  lemma SumStepArith(n: nat, prev: nat, b: nat, sum: nat)
    requires b > 0 && sum == (if prev <= n then prev else n)
    ensures sum + BoundedLen(n, prev, b) == (if prev + b <= n then prev + b else n)
  {
  }

  /** Without wrap-around, each pass moves the counter on by one buffer. */
  lemma CounterStep(b: nat, k: nat)
    requires IsBufSize(b) && 0 < k && k * b < SIZE_MOD
    ensures Counter(b, k) == Counter(b, k - 1) + b
  {
    assert (k - 1) * b + b == k * b;
    CounterNoWrap(b, k - 1);
  }

  /** Passes the counter can make, for either buffer, before it wraps. */
  const MAX_PASSES := 0x8_0000_0000_0000

  lemma NoWrapBefore(b: nat, k: nat)
    requires IsBufSize(b) && k <= MAX_PASSES
    ensures k * b <= SIZE_MOD
  {
  }

  lemma {:induction false} BoundedSumByCounter(n: nat, b: nat, k: nat)
    requires IsBufSize(b) && k < MAX_PASSES
    ensures Sum(BoundedLens(n, b, k)) == (if Counter(b, k) <= n then Counter(b, k) else n)
  {
    if k > 0 {
      BoundedSumByCounter(n, b, k - 1);
      NoWrapBefore(b, k + 1);
      assert k * b < SIZE_MOD;
      CounterStep(b, k);
      SumBoundedStep(n, b, k - 1);
      SumStepArith(n, Counter(b, k - 1), b, Sum(BoundedLens(n, b, k - 1)));
    }
  }

  /** With the bounded length, however many passes the stream forces, the
      bytes asked for never exceed the declared size. */
  lemma {:induction false} BoundedNeverExceedsDeclared(n: nat, b: nat, k: nat)
    requires IsBufSize(b) && k < MAX_PASSES
    ensures Sum(BoundedLens(n, b, k)) == (if k * b <= n then k * b else n)
  {
    BoundedSumByCounter(n, b, k);
    NoWrapBefore(b, k + 1);
    assert k * b < SIZE_MOD;
    CounterNoWrap(b, k);
  }

  /** The bounded length differs from the source's only on passes that start
      beyond the declared size. */
  lemma {:induction false} BoundedAgreesWithinDeclared(n: nat, b: nat, k: nat, j: nat)
    requires n < SIZE_MOD && IsBufSize(b) && j < k
    requires Counter(b, j) <= n
    ensures Lens(n, b, k)[j] == BoundedLens(n, b, k)[j]
  {
    if j < k - 1 {
      assert Lens(n, b, k)[j] == Lens(n, b, k - 1)[j];
      assert BoundedLens(n, b, k)[j] == BoundedLens(n, b, k - 1)[j];
      BoundedAgreesWithinDeclared(n, b, k - 1, j);
    } else {
      WriteLenCases(n, Counter(b, j), b);
    }
  }

  /** A stream holding 8192 bytes after the header but declaring 5000: the
      OSS loop makes three passes and asks for 9096 bytes, the last 4096 of
      them after the declared payload (here: after the end of the stream). */
  lemma OverrunExample()
    ensures Passes(8192, false, OSS_BUF) == 3
    ensures Lens(5000, OSS_BUF, 3) == [4096, 904, 4096]
    ensures Sum(Lens(5000, OSS_BUF, 3)) == 9096
    ensures Sum(BoundedLens(5000, OSS_BUF, 3)) == 5000
  {
    assert Counter(OSS_BUF, 1) == 4096;
    assert Counter(OSS_BUF, 2) == 8192;
    assert Lens(5000, OSS_BUF, 1) == [4096];
    assert Lens(5000, OSS_BUF, 2) == [4096, 904];
    assert BoundedLens(5000, OSS_BUF, 1) == [4096];
    assert BoundedLens(5000, OSS_BUF, 2) == [4096, 904];
    assert BoundedLens(5000, OSS_BUF, 3) == [4096, 904, 0];
    assert Sum([4096, 904, 4096]) == Sum([4096, 904]) + 4096;
    assert Sum([4096, 904]) == Sum([4096]) + 904;
    assert Sum([4096, 904, 0]) == Sum([4096, 904]) + 0;
  }

  /** The ALSA loop's frame count divisor `format * nchannels`: an enum value
      times an `unsigned int`, computed in `unsigned int`. */
  function Divisor(format: int, nchannels: nat): (d: nat)
    ensures d < UINT_MOD
    ensures 0 <= format && format * nchannels < UINT_MOD ==> d == format * nchannels
  {
    (format * nchannels) % UINT_MOD
  }

  /** Whole blocks of `divisor` bytes in `len` bytes: `len / divisor`. */
  function Frames(len: nat, divisor: nat): (frames: nat)
    requires divisor != 0
  {
    len / divisor
  }

  /** Frames the ALSA loop asks `snd_pcm_writei` for, given a byte length. */
  function FramesAsWritten(len: nat, format: int, nchannels: nat): (frames: nat)
    requires Divisor(format, nchannels) != 0
    ensures frames * Divisor(format, nchannels) <= len
    ensures len < (frames + 1) * Divisor(format, nchannels)
  {
    Frames(len, Divisor(format, nchannels))
  }

  /** Bytes one sample occupies in each ALSA format (S24 is the 24-bit sample
      in a 32-bit container). */
  function SampleBytes(f: SampleFormat): (w: nat)
    ensures 1 <= w <= 4
  {
    match f
    case U8 => 1
    case S16 => 2
    case S24 => 4
    case S32 => 4
    case ALaw => 1
    case MuLaw => 1
  }

  /** The frame count evidently meant: whole frames of `nchannels` samples. */
  function IntendedFrames(len: nat, f: SampleFormat, nchannels: nat): (frames: nat)
    requires nchannels > 0
    ensures frames * (SampleBytes(f) * nchannels) <= len
    ensures len < (frames + 1) * (SampleBytes(f) * nchannels)
  {
    len / (SampleBytes(f) * nchannels)
  }

  /** Dividing by the enum value gives the frame size only for U8 and S16,
      whose ALSA constants happen to equal their widths in bytes. */
  lemma {:induction false} DivisorIsFrameSizeOnlyFor(f: SampleFormat, nchannels: nat)
    requires 0 < nchannels < 0x8000
    ensures Divisor(DeviceCode(Alsa, f), nchannels) == SampleBytes(f) * nchannels
      <==> f == U8 || f == S16
  {
    match f
    case U8 =>
    case S16 => assert 2 * nchannels < UINT_MOD;
    case S24 => assert 6 * nchannels < UINT_MOD;
    case S32 => assert 10 * nchannels < UINT_MOD;
    case ALaw => assert 21 * nchannels < UINT_MOD;
    case MuLaw => assert 20 * nchannels < UINT_MOD;
  }

  /** One 8192-byte buffer of 32-bit stereo holds 1024 frames, but the loop
      asks for 409; one buffer of mono A-law holds 8192 frames, the loop asks
      for 390. */
  lemma FrameCountExamples()
    ensures FramesAsWritten(ALSA_BUF, DeviceCode(Alsa, S32), 2) == 409
    ensures IntendedFrames(ALSA_BUF, S32, 2) == 1024
    ensures FramesAsWritten(ALSA_BUF, DeviceCode(Alsa, ALaw), 1) == 390
    ensures IntendedFrames(ALSA_BUF, ALaw, 1) == 8192
  {
  }
}
