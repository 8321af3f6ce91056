/** Playing one file: `wav_open` reads the header and either configures the
    device or gives up on the stream, `wav_play` streams what `wav_open`
    kept, and `wav_close` releases the record.
 */
module Session {
  import opened Formats
  import opened Transfer
  import Stdio
  import opened Sink

  type Int16 = x: int | -0x8000 <= x < 0x8000
  type Int32 = x: int | -0x8000_0000 <= x < 0x8000_0000

  /** The header fields `wav_open` uses, as the header read decoded them. */
  datatype WavHeader = WavHeader(comptype: Int16, nchannels: Int16, framerate: Int32,
                                 bitdepth: Int16, nframes: Int32)

  /** What the session writes to standard error. */
  datatype Diagnostic =
    | UnsupportedFormat   // wav_open: "Unsupported PCM format"
    | Skipping            // wav_play: "Skipping file ..."
    | OpenFailed          // wav_play: perror after wav_open returned NULL

  /** The `wavfile_t` record `wav_open` allocates. */
  class WavFile {
    var stream: Stdio.CFile?
    var size: nat

    constructor (stream: Stdio.CFile, size: nat)
      ensures this.stream == stream && this.size == size
    {
      this.stream := stream;
      this.size := size;
    }
  }

  /** The declared size as `wav_open` stores it: the header's frame count
      converted to `size_t`. */
  function DeclaredSize(h: WavHeader): (n: nat)
    ensures n < SIZE_MOD
    ensures h.nframes >= 0 ==> n == h.nframes
    ensures h.nframes < 0 ==> n == SIZE_MOD + h.nframes
  {
    h.nframes % SIZE_MOD
  }

  /** The format `wav_open` hands to `snd_set`, or a negative value: it is
      non-negative exactly when it is the device code of a sample format. */
  function HeaderFormat(b: Backend, h: WavHeader): (f: int)
    ensures f >= 0 <==> FormatOf(b, f).Some?
  {
    GetFmt(b, h.comptype, h.bitdepth)
  }

  /** For a supported header with a positive channel count, the parameters
      `snd_set` installs give the ALSA loop a divisor that is not zero. */
  lemma {:induction false} SupportedHeaderIsPlayable(h: WavHeader)
    requires HeaderFormat(Alsa, h) >= 0 && h.nchannels > 0
    ensures Playable(Alsa, Some(Installed(HeaderFormat(Alsa, h), h.nchannels)))
    ensures Divisor(HeaderFormat(Alsa, h), h.nchannels) == HeaderFormat(Alsa, h) * h.nchannels
  {
    var format := HeaderFormat(Alsa, h);
    var f :| DeviceCode(Alsa, f) == format;
    assert 1 <= format <= 21;
    assert format * h.nchannels <= 21 * h.nchannels < UINT_MOD;
  }

  /** `wav_open`: read the header from `fp` (NULL when `fopen` failed); on a
      read error give up, otherwise allocate the record and either configure
      the device or close the stream and keep NULL in its place. */
  method WavOpen(fp: Stdio.CFile?, header: WavHeader, headerSize: nat, dev: Device)
      returns (wav: WavFile?, diags: seq<Diagnostic>)
    requires dev.Valid()
    requires fp != null ==> fp.Valid() && !fp.err && !fp.closed
    modifies fp, dev
    ensures dev.Valid() && dev.handle == old(dev.handle)
    ensures fp == null ==> wav == null && diags == [] && dev.log == old(dev.log) && dev.hw == old(dev.hw)
    ensures fp != null ==> fp.Valid() && fp.err == fp.faulty
    ensures fp != null && fp.faulty ==>
      wav == null && diags == [] && dev.log == old(dev.log) && dev.hw == old(dev.hw) && !fp.closed
    ensures fp != null && !fp.faulty ==>
      wav != null && fresh(wav) && wav.size == DeclaredSize(header) &&
      fp.pos == old(fp.pos) + (if headerSize <= old(fp.Remaining()) then headerSize else old(fp.Remaining())) &&
      fp.eof == (old(fp.eof) || headerSize > old(fp.Remaining()))
    ensures wav != null && HeaderFormat(dev.backend, header) < 0 ==>
      wav.stream == null && fp.closed && diags == [UnsupportedFormat] &&
      dev.log == old(dev.log) && dev.hw == old(dev.hw)
    ensures wav != null && HeaderFormat(dev.backend, header) >= 0 ==>
      wav.stream == fp && !fp.closed && diags == [] &&
      dev.log == old(dev.log) + ConfigCalls(dev.backend, dev.handle, HeaderFormat(dev.backend, header),
                                            header.nchannels, header.framerate) &&
      dev.hw == (if dev.backend == Alsa then Some(Installed(HeaderFormat(dev.backend, header), header.nchannels))
                 else old(dev.hw))
  {
    wav, diags := null, [];
    if fp != null {
      var got := fp.Read(headerSize);
      if fp.err {
        return;
      }
      wav := new WavFile(fp, DeclaredSize(header));
      var format := GetFmt(dev.backend, header.comptype, header.bitdepth);
      if format < 0 {
        diags := [UnsupportedFormat];
        fp.Close();
        wav.stream := null;
      } else {
        dev.Set(format, header.nchannels, header.framerate);
      }
    }
  }

  /** `wav_close`: close the stream if the record still holds one.  (Freeing
      the record has no counterpart here.) */
  method WavClose(wav: WavFile)
    modifies wav.stream
    ensures wav.stream != null ==> wav.stream.closed
    ensures wav.stream != null ==>
      wav.stream.pos == old(wav.stream.pos) && wav.stream.eof == old(wav.stream.eof)
  {
    if wav.stream != null {
      wav.stream.Close();
    }
  }

  /** The device calls a played file causes: `snd_set`'s, then `snd_play`'s
      over what the header read left of a stream of `left` bytes. */
  function PlayedCalls(b: Backend, h: int, hw: Option<HwConfig>, header: WavHeader,
                       headerSize: nat, left: nat, eof: bool): (calls: seq<Call>)
    requires HeaderFormat(b, header) >= 0 && Playable(b, SessionHw(b, hw, header))
  {
    ConfigCalls(b, h, HeaderFormat(b, header), header.nchannels, header.framerate)
    + PlayCalls(b, h, SessionHw(b, hw, header), DeclaredSize(header),
                if headerSize <= left then left - headerSize else 0,
                eof || headerSize > left)
  }

  /** The ALSA parameters after `wav_open` configured the device. */
  function SessionHw(b: Backend, hw: Option<HwConfig>, header: WavHeader): (installed: Option<HwConfig>) {
    if b == Alsa then Some(Installed(HeaderFormat(b, header), header.nchannels)) else hw
  }

  /** Setting up the device and then streaming makes the calls of a played file. */
  lemma PlayedLogSplits(b: Backend, h: int, hw: Option<HwConfig>, header: WavHeader, headerSize: nat,
                        left: nat, eof: bool, log0: seq<Call>)
    requires HeaderFormat(b, header) >= 0 && Playable(b, SessionHw(b, hw, header))
    ensures log0 + ConfigCalls(b, h, HeaderFormat(b, header), header.nchannels, header.framerate) +
              PlayCalls(b, h, SessionHw(b, hw, header), DeclaredSize(header),
                        if headerSize <= left then left - headerSize else 0, eof || headerSize > left) ==
            log0 + PlayedCalls(b, h, hw, header, headerSize, left, eof)
  {
  }

  /** `wav_play`: open, stream when the record kept its stream, report a skip
      otherwise, and close; report the failure when there is no record. */
  method WavPlay(fp: Stdio.CFile?, header: WavHeader, headerSize: nat, dev: Device)
      returns (diags: seq<Diagnostic>)
    requires dev.Valid()
    requires fp != null ==> fp.Valid() && !fp.err && !fp.closed
    requires dev.backend == Alsa && HeaderFormat(Alsa, header) >= 0 ==> header.nchannels > 0
    modifies fp, dev
    ensures dev.Valid() && dev.handle == old(dev.handle)
    ensures LiveHandles(dev.log) == LiveHandles(old(dev.log))
    ensures fp == null || fp.faulty ==>
      diags == [OpenFailed] && dev.log == old(dev.log) && dev.hw == old(dev.hw)
    ensures fp != null && fp.faulty ==> !fp.closed
    ensures fp != null && !fp.faulty && HeaderFormat(dev.backend, header) < 0 ==>
      diags == [UnsupportedFormat, Skipping] && fp.closed && dev.log == old(dev.log) && dev.hw == old(dev.hw)
    ensures fp != null && !fp.faulty && HeaderFormat(dev.backend, header) >= 0 ==>
      diags == [] && fp.closed && fp.eof && dev.hw == SessionHw(dev.backend, old(dev.hw), header) &&
      Playable(dev.backend, SessionHw(dev.backend, old(dev.hw), header)) &&
      dev.log == old(dev.log) + PlayedCalls(dev.backend, dev.handle, old(dev.hw), header, headerSize,
                                            old(fp.Remaining()), old(fp.eof))
  {
    ghost var left := if fp != null then fp.Remaining() else 0;
    ghost var wasEof := fp != null && fp.eof;
    ghost var hw0 := dev.hw;
    ghost var log0 := dev.log;
    var wav;
    wav, diags := WavOpen(fp, header, headerSize, dev);
    if wav != null {
      if wav.stream != null {
        if dev.backend == Alsa {
          SupportedHeaderIsPlayable(header);
        }
        assert dev.hw == SessionHw(dev.backend, hw0, header);
        ghost var rest := if headerSize <= left then left - headerSize else 0;
        assert fp.Remaining() == rest && fp.eof == (wasEof || headerSize > left);
        dev.Play(wav.stream, wav.size);
        PlayedLogSplits(dev.backend, dev.handle, hw0, header, headerSize, left, wasEof, log0);
      } else {
        diags := diags + [Skipping];
      }
      WavClose(wav);
    } else {
      diags := diags + [OpenFailed];
    }
  }
}
