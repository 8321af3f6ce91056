/** The audio device as the player drives it: one process-wide handle (the
    OSS file descriptor `devfd`, or the ALSA `pcm` pointer), and the calls the
    player makes on it, recorded in order.  What the device does with a call
    is not modelled; the record of calls is the observable behaviour.
 */
module Sink {
  import opened Formats
  import opened Transfer
  import Stdio

  /** OSS `ioctl` requests issued by `snd_set`. */
  datatype DspRequest = DspReset | DspSetFmt(format: int) | DspChannels(nchannels: int) | DspSpeed(rate: int)

  /** ALSA hardware-parameter steps issued by `snd_set`. */
  datatype HwStep =
    | HwAny
    | HwAccessInterleaved
    | HwFormat(format: int)
    | HwChannels(nchannels: nat)
    | HwRateNear(rate: nat)
    | HwPeriods(periods: nat)
    | HwInstall

  /** One call into the device API.  A handle is the OSS descriptor or an
      identifier for the ALSA pcm object; -1 stands for "no handle" (a failed
      `open`, the descriptor -1, the NULL pointer). */
  datatype Call =
    | Open(h: int)
    | Close(h: int)
    | Ioctl(h: int, req: DspRequest)
    | Write(h: int, bytes: nat)
    | Hw(h: int, step: HwStep)
    | HwCurrent(h: int)      // snd_pcm_hw_params_current: read back the installed parameters
    | Prepare(h: int)
    | WriteFrames(h: int, frames: nat)
    | Drain(h: int)

  /** ALSA periods requested by `snd_set` (PERIOD). */
  const PERIOD := 2

  /** The open handles after one more call. */
  function Step(live: set<int>, c: Call): (next: set<int>) {
    match c
    case Open(h) => if h >= 0 then live + {h} else live
    case Close(h) => live - {h}
    case _ => live
  }

  /** The handles a sequence of calls leaves open. */
  function LiveHandles(log: seq<Call>): (live: set<int>) {
    if log == [] then {} else Step(LiveHandles(log[..|log| - 1]), log[|log| - 1])
  }

  lemma LiveAppend(log: seq<Call>, c: Call)
    ensures LiveHandles(log + [c]) == Step(LiveHandles(log), c)
  {
    assert (log + [c])[..|log|] == log;
  }

  predicate OpensOrCloses(c: Call) {
    c.Open? || c.Close?
  }

  /** Configuring and streaming never change which handles are open. */
  lemma {:induction false} LiveIgnoresTransfers(log: seq<Call>, extra: seq<Call>)
    requires forall j :: 0 <= j < |extra| ==> !OpensOrCloses(extra[j])
    ensures LiveHandles(log + extra) == LiveHandles(log)
  {
    if extra != [] {
      var front, last := extra[..|extra| - 1], extra[|extra| - 1];
      assert log + extra == (log + front) + [last];
      LiveAppend(log + front, last);
      assert !OpensOrCloses(last);
      LiveIgnoresTransfers(log, front);
    } else {
      assert log + extra == log;
    }
  }

  /** The calls the OSS loop makes for the given write lengths. */
  function OssWrites(h: int, lens: seq<nat>): (calls: seq<Call>)
    ensures |calls| == |lens|
  {
    if lens == [] then [] else OssWrites(h, lens[..|lens| - 1]) + [Write(h, lens[|lens| - 1])]
  }

  /** The calls the ALSA loop makes for the given byte lengths: a prepare and
      a write of `len / divisor` frames per pass. */
  function AlsaWrites(h: int, lens: seq<nat>, divisor: nat): (calls: seq<Call>)
    requires divisor != 0
    ensures |calls| == 2 * |lens|
  {
    if lens == [] then []
    else AlsaWrites(h, lens[..|lens| - 1], divisor) + [Prepare(h), WriteFrames(h, Frames(lens[|lens| - 1], divisor))]
  }

  lemma AppendAssoc(a: seq<Call>, b: seq<Call>, c: seq<Call>)
    ensures (a + b) + c == a + (b + c)
  {
  }

  /** One more OSS pass adds one `write` of that pass's length. */
  lemma {:induction false} OssWritesStep(h: int, n: nat, b: nat, k: nat)
    requires n < SIZE_MOD && IsBufSize(b)
    ensures OssWrites(h, Lens(n, b, k + 1)) == OssWrites(h, Lens(n, b, k)) + [Write(h, WriteLen(n, Counter(b, k), b))]
  {
    assert Lens(n, b, k + 1)[..k] == Lens(n, b, k);
  }

  /** One more ALSA pass adds a prepare and a write of that pass's frames. */
  lemma {:induction false} AlsaWritesStep(h: int, n: nat, b: nat, k: nat, divisor: nat)
    requires n < SIZE_MOD && IsBufSize(b) && divisor != 0
    ensures AlsaWrites(h, Lens(n, b, k + 1), divisor) ==
      AlsaWrites(h, Lens(n, b, k), divisor) + [Prepare(h), WriteFrames(h, Frames(WriteLen(n, Counter(b, k), b), divisor))]
  {
    assert Lens(n, b, k + 1)[..k] == Lens(n, b, k);
  }

  /** A log that holds the first `k` OSS passes' calls, extended by pass
      `k`'s `write`, holds the first `k + 1` passes' calls. */
  lemma OssLogStep(log0: seq<Call>, h: int, n: nat, b: nat, k: nat)
    requires n < SIZE_MOD && IsBufSize(b)
    ensures log0 + OssWrites(h, Lens(n, b, k)) + [Write(h, WriteLen(n, Counter(b, k), b))] ==
            log0 + OssWrites(h, Lens(n, b, k + 1))
  {
    OssWritesStep(h, n, b, k);
    AppendAssoc(log0, OssWrites(h, Lens(n, b, k)), [Write(h, WriteLen(n, Counter(b, k), b))]);
  }

  /** A log that holds the first `k` ALSA passes' calls, extended by pass
      `k`'s prepare and write, holds the first `k + 1` passes' calls. */
  lemma AlsaLogStep(log0: seq<Call>, h: int, n: nat, b: nat, k: nat, divisor: nat)
    requires n < SIZE_MOD && IsBufSize(b) && divisor != 0
    ensures log0 + AlsaWrites(h, Lens(n, b, k), divisor) +
              [Prepare(h), WriteFrames(h, Frames(WriteLen(n, Counter(b, k), b), divisor))] ==
            log0 + AlsaWrites(h, Lens(n, b, k + 1), divisor)
  {
    AlsaWritesStep(h, n, b, k, divisor);
    AppendAssoc(log0, AlsaWrites(h, Lens(n, b, k), divisor),
                [Prepare(h), WriteFrames(h, Frames(WriteLen(n, Counter(b, k), b), divisor))]);
  }

  /** The OSS loop's calls are exactly one `write` per pass, of that pass's length. */
  lemma {:induction false} OssWritesAt(h: int, lens: seq<nat>, j: nat)
    requires j < |lens|
    ensures OssWrites(h, lens)[j] == Write(h, lens[j])
  {
    if j < |lens| - 1 {
      OssWritesAt(h, lens[..|lens| - 1], j);
    }
  }

  /** In the ALSA loop every write is preceded by its own prepare. */
  lemma {:induction false} AlsaWritesAt(h: int, lens: seq<nat>, divisor: nat, j: nat)
    requires divisor != 0 && j < |lens|
    ensures AlsaWrites(h, lens, divisor)[2 * j] == Prepare(h)
    ensures AlsaWrites(h, lens, divisor)[2 * j + 1] == WriteFrames(h, lens[j] / divisor)
  {
    if j < |lens| - 1 {
      AlsaWritesAt(h, lens[..|lens| - 1], divisor, j);
    }
  }

  /** The ALSA `snd_play` first reads back the installed parameters and
      calls `snd_pcm_drain` once, as its last call. */
  lemma {:induction false} DrainOnlyAtEnd(h: int, hw: Option<HwConfig>, n: nat, remaining: nat, eof: bool)
    requires Playable(Alsa, hw) && n < SIZE_MOD
    ensures var calls := PlayCalls(Alsa, h, hw, n, remaining, eof);
      calls[0] == HwCurrent(h) &&
      forall j :: 0 <= j < |calls| ==> (calls[j].Drain? <==> j == |calls| - 1)
  {
    var calls := PlayCalls(Alsa, h, hw, n, remaining, eof);
    var divisor := Divisor(hw.value.format, hw.value.nchannels);
    var lens := Lens(n, ALSA_BUF, Passes(remaining, eof, ALSA_BUF));
    var writes := AlsaWrites(h, lens, divisor);
    assert calls == [HwCurrent(h)] + writes + [Drain(h)];
    forall j | 0 <= j < |calls| ensures calls[j].Drain? <==> j == |calls| - 1 {
      if 0 < j < |calls| - 1 {
        assert calls[j] == writes[j - 1];
        AlsaWritesAt(h, lens, divisor, (j - 1) / 2);
        assert j - 1 == 2 * ((j - 1) / 2) || j - 1 == 2 * ((j - 1) / 2) + 1;
      }
    }
  }

  /** The transfers never open or close a handle. */
  lemma {:induction false} WritesKeepHandles(h: int, lens: seq<nat>, divisor: nat)
    requires divisor != 0
    ensures forall j :: 0 <= j < |OssWrites(h, lens)| ==> !OpensOrCloses(OssWrites(h, lens)[j])
    ensures forall j :: 0 <= j < |AlsaWrites(h, lens, divisor) + [Drain(h)]| ==>
      !OpensOrCloses((AlsaWrites(h, lens, divisor) + [Drain(h)])[j])
  {
    forall j | 0 <= j < |lens| ensures !OpensOrCloses(OssWrites(h, lens)[j]) {
      OssWritesAt(h, lens, j);
    }
    var calls := AlsaWrites(h, lens, divisor) + [Drain(h)];
    forall j | 0 <= j < |calls| ensures !OpensOrCloses(calls[j]) {
      if j < |calls| - 1 {
        AlsaWritesAt(h, lens, divisor, j / 2);
        assert j == 2 * (j / 2) || j == 2 * (j / 2) + 1;
      }
    }
  }

  /** The hardware parameters an ALSA handle currently holds. */
  datatype HwConfig = HwConfig(format: int, nchannels: nat)

  /** The calls `snd_set` makes on handle `h`. */
  function ConfigCalls(b: Backend, h: int, format: int, nchannels: int, framerate: int): (calls: seq<Call>)
    ensures forall j :: 0 <= j < |calls| ==> !OpensOrCloses(calls[j])
  {
    match b
    case Oss =>
      [Ioctl(h, DspReset), Ioctl(h, DspSetFmt(format)),
       Ioctl(h, DspChannels(nchannels)), Ioctl(h, DspSpeed(framerate))]
    case Alsa =>
      [Hw(h, HwAny), Hw(h, HwAccessInterleaved), Hw(h, HwFormat(format)),
       Hw(h, HwChannels(nchannels % UINT_MOD)), Hw(h, HwRateNear(framerate % UINT_MOD)),
       Hw(h, HwPeriods(PERIOD)), Hw(h, HwInstall)]
  }

  /** The ALSA parameters `snd_set` installs. */
  function Installed(format: int, nchannels: int): (cfg: HwConfig) {
    HwConfig(format, nchannels % UINT_MOD)
  }

  /** What `snd_play` needs of the device: for ALSA, installed parameters
      whose frame divisor is not zero. */
  predicate Playable(b: Backend, hw: Option<HwConfig>) {
    b == Alsa ==> hw.Some? && Divisor(hw.value.format, hw.value.nchannels) != 0
  }

  /** The calls `snd_play` makes on handle `h` for a stream with `remaining`
      unread bytes and end-of-file indicator `eof`, declared size `n`: for
      ALSA, the read-back of the installed parameters, the loop, the drain. */
  function PlayCalls(b: Backend, h: int, hw: Option<HwConfig>, n: nat, remaining: nat, eof: bool): (calls: seq<Call>)
    requires Playable(b, hw) && n < SIZE_MOD
    ensures b == Oss ==> |calls| == Passes(remaining, eof, OSS_BUF)
    ensures b == Alsa ==> |calls| == 2 * Passes(remaining, eof, ALSA_BUF) + 2
  {
    match b
    case Oss => OssWrites(h, Lens(n, OSS_BUF, Passes(remaining, eof, OSS_BUF)))
    case Alsa =>
      [HwCurrent(h)] + AlsaWrites(h, Lens(n, ALSA_BUF, Passes(remaining, eof, ALSA_BUF)),
                                  Divisor(hw.value.format, hw.value.nchannels)) + [Drain(h)]
  }

  /** Streaming leaves the open handles as they were; how many calls it makes
      depends on the stream's length alone, never on the declared size. */
  lemma {:induction false} PlayCallsKeepHandles(b: Backend, h: int, hw: Option<HwConfig>, n: nat, m: nat,
                                                remaining: nat, eof: bool, log: seq<Call>)
    requires Playable(b, hw) && n < SIZE_MOD && m < SIZE_MOD
    ensures LiveHandles(log + PlayCalls(b, h, hw, n, remaining, eof)) == LiveHandles(log)
    ensures |PlayCalls(b, h, hw, n, remaining, eof)| == |PlayCalls(b, h, hw, m, remaining, eof)|
  {
    match b
    case Oss =>
      var lens := Lens(n, OSS_BUF, Passes(remaining, eof, OSS_BUF));
      WritesKeepHandles(h, lens, 1);
      var calls := OssWrites(h, lens);
      assert forall j :: 0 <= j < |calls| ==> !OpensOrCloses(calls[j]);
      LiveIgnoresTransfers(log, calls);
    case Alsa =>
      var divisor := Divisor(hw.value.format, hw.value.nchannels);
      var lens := Lens(n, ALSA_BUF, Passes(remaining, eof, ALSA_BUF));
      WritesKeepHandles(h, lens, divisor);
      var rest := AlsaWrites(h, lens, divisor) + [Drain(h)];
      var calls := [HwCurrent(h)] + rest;
      forall j | 0 <= j < |calls| ensures !OpensOrCloses(calls[j]) {
        if j > 0 {
          assert calls[j] == rest[j - 1];
        }
      }
      AppendAssoc([HwCurrent(h)], AlsaWrites(h, lens, divisor), [Drain(h)]);
      LiveIgnoresTransfers(log, calls);
  }

  function Handles(h: int): (live: set<int>) {
    if h >= 0 then {h} else {}
  }

  /** The loops' `fread` of one `b`-byte buffer, `k` buffers after the read
      position `start`: the stream either moves one more buffer on, or hits
      end of file after exactly `Passes` passes, having read all its bytes. */
  method ReadPass(fp: Stdio.CFile, b: nat, ghost start: nat, ghost k: nat) returns (got: nat)
    requires IsBufSize(b) && fp.Valid() && !fp.faulty && !fp.closed && !fp.eof
    requires start <= |fp.data| && fp.pos == start + k * b
    modifies fp
    ensures fp.Valid() && !fp.closed && fp.err == old(fp.err) && got <= b
    ensures !fp.eof ==> fp.pos == start + (k + 1) * b && fp.pos == old(fp.pos) + b
    ensures fp.eof ==> k + 1 == Passes(|fp.data| - start, false, b) && fp.pos == |fp.data|
  {
    PassAdvances(|fp.data| - start, k, fp.Remaining(), b);
    got := fp.Read(b);
  }

  class Device {
    /** OSS or ALSA: which branch of `#if !defined(USE_ALSA)` was compiled. */
    const backend: Backend
    /** `devfd` (OSS) or `pcm` (ALSA); -1 when there is none. */
    var handle: int
    /** ALSA: the parameters `snd_pcm_hw_params_current` reads back. */
    var hw: Option<HwConfig>
    /** Every call made on the device API so far. */
    var log: seq<Call>

    /** The handle field names the only open handle, if any. */
    ghost predicate Valid()
      reads this
    {
      handle >= -1 && LiveHandles(log) == Handles(handle)
    }

    constructor (backend: Backend)
      ensures Valid() && this.backend == backend
      ensures handle == -1 && hw == None && log == []
    {
      this.backend := backend;
      handle := -1;
      hw := None;
      log := [];
    }

    /** `snd_end`: close the handle, whatever it is, and forget it. */
    method End()
      requires Valid()
      modifies this
      ensures Valid() && handle == -1 && hw == None
      ensures log == old(log) + [Close(old(handle))]
      ensures LiveHandles(log) == {}
    {
      LiveAppend(log, Close(handle));
      log := log + [Close(handle)];
      handle := -1;
      hw := None;
    }

    /** `snd_init`: close an open handle first, then open the device.  The
        device's answer is a parameter: `answer` is the handle it gives (-1
        when it refuses), `error` the ALSA error code it would return. */
    method Init(answer: int, error: int) returns (r: int)
      requires Valid() && answer >= -1 && error < 0
      modifies this
      ensures Valid() && handle == answer && hw == None
      ensures log == old(log) + (if old(handle) > -1 then [Close(old(handle))] else []) + [Open(answer)]
      ensures LiveHandles(log) == Handles(answer)
      ensures r < 0 <==> answer == -1
      ensures backend == Oss ==> r == answer
      ensures backend == Alsa ==> r == (if answer >= 0 then 0 else error)
    {
      if handle > -1 {
        End();
      }
      LiveAppend(log, Open(answer));
      log := log + [Open(answer)];
      handle := answer;
      hw := None;
      r := if backend == Oss then answer else if answer >= 0 then 0 else error;
    }

    /** `snd_set`: push sample format, channel count and rate to the handle. */
    method Set(format: int, nchannels: int, framerate: int)
      requires Valid()
      modifies this
      ensures Valid() && handle == old(handle)
      ensures log == old(log) + ConfigCalls(backend, handle, format, nchannels, framerate)
      ensures hw == if backend == Alsa then Some(Installed(format, nchannels)) else old(hw)
    {
      var calls := ConfigCalls(backend, handle, format, nchannels, framerate);
      if backend == Alsa {
        hw := Some(Installed(format, nchannels));
      }
      LiveIgnoresTransfers(log, calls);
      log := log + calls;
    }

    /** Whether `Play` may run: the stream is open and readable, the size is a
        `size_t`, and ALSA has parameters whose frame divisor is not zero. */
    predicate CanPlay(fp: Stdio.CFile, n: nat)
      reads this, fp
    {
      !fp.faulty && !fp.closed && n < SIZE_MOD && Playable(backend, hw)
    }

    /** `snd_play`: stream `fp` to the device until end of file, with the
        declared payload size `n`; the ALSA version first reads back the
        installed parameters for its frame divisor, and drains the device
        once its loop is done. */
    method Play(fp: Stdio.CFile, n: nat)
      requires Valid() && fp.Valid() && CanPlay(fp, n)
      modifies this`log, fp
      ensures Valid() && fp.Valid() && fp.eof && !fp.closed && fp.err == old(fp.err)
      ensures fp.pos == if old(fp.eof) then old(fp.pos) else |fp.data|
      ensures log == old(log) + PlayCalls(backend, handle, hw, n, old(fp.Remaining()), old(fp.eof))
    {
      ghost var log0, remaining, wasEof := log, fp.Remaining(), fp.eof;
      ghost var calls := PlayCalls(backend, handle, hw, n, remaining, wasEof);
      if backend == Oss {
        PlayOss(fp, n);
        assert log == log0 + calls;
      } else {
        log := log + [HwCurrent(handle)];
        var divisor := Divisor(hw.value.format, hw.value.nchannels);
        PlayAlsa(fp, n, divisor);
        log := log + [Drain(handle)];
        ghost var writes := AlsaWrites(handle, Lens(n, ALSA_BUF, Passes(remaining, wasEof, ALSA_BUF)), divisor);
        AppendAssoc(log0 + [HwCurrent(handle)], writes, [Drain(handle)]);
        AppendAssoc(log0, [HwCurrent(handle)], writes + [Drain(handle)]);
        AppendAssoc([HwCurrent(handle)], writes, [Drain(handle)]);
        assert log == log0 + calls;
      }
      PlayCallsKeepHandles(backend, handle, hw, n, n, remaining, wasEof, log0);
    }

    /** One OSS pass, the `k`th, whose counter is `i`: a `write` of the
        clamped length, then `i += sizeof(buf)`, which gives the next pass's
        counter. */
    method OssPass(n: nat, i: nat, ghost k: nat) returns (next: nat)
      requires n < SIZE_MOD && i == Counter(OSS_BUF, k)
      modifies this`log
      ensures log == old(log) + [Write(handle, WriteLen(n, Counter(OSS_BUF, k), OSS_BUF))]
      ensures next == Counter(OSS_BUF, k + 1)
    {
      log := log + [Write(handle, WriteLen(n, i, OSS_BUF))];
      next := (i + OSS_BUF) % SIZE_MOD;
    }

    /** One ALSA pass, the `k`th, whose counter is `i`: `snd_pcm_prepare`,
        `snd_pcm_writei` of the clamped length in frames, then the counter's
        step. */
    method AlsaPass(n: nat, i: nat, divisor: nat, ghost k: nat) returns (next: nat)
      requires n < SIZE_MOD && divisor != 0 && i == Counter(ALSA_BUF, k)
      modifies this`log
      ensures log == old(log) + [Prepare(handle), WriteFrames(handle, Frames(WriteLen(n, Counter(ALSA_BUF, k), ALSA_BUF), divisor))]
      ensures next == Counter(ALSA_BUF, k + 1)
    {
      log := log + [Prepare(handle), WriteFrames(handle, Frames(WriteLen(n, i, ALSA_BUF), divisor))];
      next := (i + ALSA_BUF) % SIZE_MOD;
    }

    /** The OSS loop: read a 4096-byte buffer, write the clamped length. */
    method PlayOss(fp: Stdio.CFile, n: nat)
      requires fp.Valid() && !fp.faulty && !fp.closed && n < SIZE_MOD
      modifies this`log, fp
      ensures fp.Valid() && fp.eof && !fp.closed && fp.err == old(fp.err)
      ensures fp.pos == if old(fp.eof) then old(fp.pos) else |fp.data|
      ensures log == old(log) +
        OssWrites(handle, Lens(n, OSS_BUF, Passes(old(fp.Remaining()), old(fp.eof), OSS_BUF)))
    {
      ghost var start, total, wasEof := fp.pos, fp.Remaining(), fp.eof;
      var i := 0;
      ghost var k := 0;
      while !fp.eof
        invariant fp.Valid() && !fp.faulty && !fp.closed && fp.err == old(fp.err)
        invariant i == Counter(OSS_BUF, k)
        invariant log == old(log) + OssWrites(handle, Lens(n, OSS_BUF, k))
        invariant !fp.eof ==> !wasEof && fp.pos == start + k * OSS_BUF
        invariant fp.eof ==> k == Passes(total, wasEof, OSS_BUF)
        invariant fp.eof ==> fp.pos == if wasEof then start else |fp.data|
        decreases if fp.eof then 0 else 1 + fp.Remaining()
      {
        var got := ReadPass(fp, OSS_BUF, start, k);
        i := OssPass(n, i, k);
        OssLogStep(old(log), handle, n, OSS_BUF, k);
        k := k + 1;
      }
    }

    /** The ALSA loop: read an 8192-byte buffer, prepare the device, write
        the clamped length divided by `divisor` (the installed
        `format * nchannels`) as frames. */
    method PlayAlsa(fp: Stdio.CFile, n: nat, divisor: nat)
      requires fp.Valid() && !fp.faulty && !fp.closed && n < SIZE_MOD && divisor != 0
      modifies this`log, fp
      ensures fp.Valid() && fp.eof && !fp.closed && fp.err == old(fp.err)
      ensures fp.pos == if old(fp.eof) then old(fp.pos) else |fp.data|
      ensures log == old(log) +
        AlsaWrites(handle, Lens(n, ALSA_BUF, Passes(old(fp.Remaining()), old(fp.eof), ALSA_BUF)), divisor)
    {
      ghost var start, total, wasEof := fp.pos, fp.Remaining(), fp.eof;
      var i := 0;
      ghost var k := 0;
      while !fp.eof
        invariant fp.Valid() && !fp.faulty && !fp.closed && fp.err == old(fp.err)
        invariant i == Counter(ALSA_BUF, k)
        invariant log == old(log) + AlsaWrites(handle, Lens(n, ALSA_BUF, k), divisor)
        invariant !fp.eof ==> !wasEof && fp.pos == start + k * ALSA_BUF
        invariant fp.eof ==> k == Passes(total, wasEof, ALSA_BUF)
        invariant fp.eof ==> fp.pos == if wasEof then start else |fp.data|
        decreases if fp.eof then 0 else 1 + fp.Remaining()
      {
        var got := ReadPass(fp, ALSA_BUF, start, k);
        i := AlsaPass(n, i, divisor, k);
        AlsaLogStep(old(log), handle, n, ALSA_BUF, k, divisor);
        k := k + 1;
      }
    }
  }
}
