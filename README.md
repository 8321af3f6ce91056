# wavplay in Dafny

A model of `wavplay.c`, the core of wavplay, a small C library that plays PCM
WAVE audio through either OSS (`/dev/dsp`) or ALSA (the `default` pcm). The
library does four things, and each is modelled:

- **Sample-format mapping** (`wav_getfmt`): the header's compression code and
  bit depth select one of six device sample formats, or -1 for "unsupported".
  For PCM the depth is first raised by its own C remainder modulo 8.
- **Device handle** (`snd_init`, `snd_set`, `snd_end`): one process-wide
  handle (`devfd` for OSS, `pcm` for ALSA). Re-initialising closes the old
  handle first, and ending resets it to -1/NULL.
- **Streaming** (`snd_play`, one per backend): the stream is read in 4096-byte
  (OSS) or 8192-byte (ALSA) buffers until end of file. Each pass asks the device
  to write `min(n - i, sizeof(buf))` bytes, computed in `size_t`, and the
  counter `i` then grows by a whole buffer. ALSA turns bytes into frames by
  dividing by `format * nchannels`, prepares the device before every write and
  drains it once at the end.
- **Session** (`wav_open`, `wav_play`, `wav_close`): read the header. Then
  either configure the device and stream, or close the stream and skip the
  file.

Modules, one per concern:

- `Formats` (formats.dfy): device constants, C remainder, `GetFmt`.
- `Stdio` (stdio.dfy): the `FILE *` the player reads, as a class `CFile` with a
  position and end-of-file and error indicators.
- `Transfer` (transfer.dfy): what the two loops ask for, as functions of the
  declared size and the number of passes, with the lemmas about them.
- `Sink` (sink.dfy): the device as a class `Device` with the handle, the ALSA
  hardware parameters and a log of the calls made on the device handle. Which
  backend was compiled in is the constant `backend`.
- `Session` (session.dfy): `WavOpen`, `WavClose`, `WavPlay` over a class
  `WavFile` (the `wavfile_t` record).

Modelling choices:

- The device API (`open`, `close`, `ioctl`, `write`, and the `snd_pcm_*`
  calls that take the handle, `snd_pcm_hw_params_current` included) is a log
  of calls. The `snd_pcm_hw_params_alloca` and `snd_pcm_hw_params_get_*`
  calls work on a local parameter block and are not logged. Nothing about how
  the device reacts is modelled.
- The ALSA `snd_play` reads the format and channel count back from the
  device (wavplay.c:95-97). The model takes them to be the values `snd_set`
  last requested: `Device.Set` records them in the field `hw`.
- What `open`/`snd_pcm_open` returns is a parameter of `Init`.
- `size_t` arithmetic is written out modulo 2^64, and `unsigned int`
  arithmetic modulo 2^32.
- The C remainder is written out, because Dafny's `%` is Euclidean.
- The device format constants are those of ALSA's `snd_pcm_format_t` and of
  FreeBSD's `sys/soundcard.h`. Those headers are not part of this model.
  `SND_PCM_FORMAT_S16`, `S24` and `S32` name the host's byte order; the model
  uses their little-endian values 2, 6 and 10, so the ALSA results hold on a
  little-endian host. The
  proofs rely on the constants being positive and distinct within a backend,
  with two exceptions that depend on the ALSA values: the frame-count
  finding, and `Session.SupportedHeaderIsPlayable` (and through it the ALSA
  case of `Session.WavPlay`), which uses that no ALSA constant exceeds 21, so
  that `format * nchannels` stays below 2^32 for every 16-bit channel count.
- The `wavheader_t` shown in `wavplay.h` has no `comptype` or `nframes` field,
  yet `wav_open` reads both. So `WavOpen` takes the decoded header, whose field
  types follow the `int16_t`/`int32_t` pattern of that struct, and the header's
  byte size as parameters.

## Model

| member | source | states |
|---|---|---|
| `Formats.DeviceCode` | wavplay.c:17-22 | each of the six sample formats has a positive device constant, for OSS and for ALSA (wavplay.c:56-61) |
| `Formats.FormatOf` | wavplay.c:56-61 | inverse of the constant table: a code names a format exactly when that format's constant equals it |
| `Formats.CodesDistinct` | wavplay.c:17-22 | within a backend the six constants are pairwise distinct, and `FormatOf` recovers the format from its constant |
| `Formats.CRem8` | wavplay.c:113 | C's `bitdepth % 8`: strictly between -8 and 8, with the sign of the dividend, and differing from it by a multiple of 8 |
| `Formats.GetFmt` | wavplay.c:110-125 | the result is -1 or one of the backend's six constants (so `< 0` means unsupported); code 6 gives A-law and code 7 gives µ-law whatever the depth; any code other than 1, 6 and 7 gives -1 |
| `Formats.PcmDepthRule` | wavplay.c:112-120 | for PCM a depth is accepted exactly when it is a multiple of 4 from 4 to 32, and it then selects the format of ceil(depth/8) bytes; every other depth gives -1 |
| `Formats.AdjustedDepths` | wavplay.c:113-119 | 8, 16, 24 and 32 select U8, S16, S24 and S32; 4, 12 and 20 are raised to 8, 16 and 24; 7, 9 and every negative depth give -1 |
| `Stdio.CFile.Open` | wavplay.c:130 | a stream from `fopen` or `stdin`, positioned at its first byte with neither indicator set and not closed |
| `Stdio.CFile.Read` | wavplay.c:48 | `fread` of one buffer: moves the full count or what is left; a short read sets end-of-file; a faulty stream sets the error indicator and moves nothing |
| `Stdio.CFile.Close` | wavplay.c:149 | `fclose` marks the stream closed and changes nothing else |
| `Transfer.Counter` | wavplay.c:46-50 | the counter `i` at the start of pass `k`: 0, then `i += sizeof(buf)` per pass in `size_t`, so it is always below 2^64 |
| `Transfer.WriteLen` | wavplay.c:49 | a pass never asks for more than one buffer |
| `Transfer.WriteLenCases` | wavplay.c:49 | what a pass asks for: `n - i` when `i <= n` and that is shorter than a buffer; once `i > n`, the wrapped `2^64 - (i - n)` if that is shorter; otherwise the buffer size |
| `Transfer.Lens` | wavplay.c:47-51 | the lengths the first `k` passes ask for, one per pass |
| `Transfer.LensAt` | wavplay.c:49 | pass `j` asks for the clamped length at pass `j`'s counter |
| `Transfer.Passes` | wavplay.c:47-48 | how many times `while (!feof(fp))` runs (also wavplay.c:98-99): none exactly when end of file is already set, otherwise `remaining / buf + 1` |
| `Transfer.PassesReachEnd` | wavplay.c:47-48 | the loop makes `remaining / buf + 1` passes: all but the last read a full buffer, and the last one reads less |
| `Transfer.PassAdvances` | wavplay.c:47-48 | after `k` full buffers, a read that finds less than a buffer left is the last of exactly `Passes` passes, and a full read leaves `k + 1` buffers consumed within the stream |
| `Transfer.CounterNoWrap` | wavplay.c:50 | until it wraps, the counter after `k` passes is `k` buffers |
| `Transfer.RequestedWithinDeclared` | wavplay.c:45-51 | while every pass starts at or below the declared size, the bytes asked for add up to `min(n, i)` |
| `Transfer.PastDeclaredSizeFullBuffer` | wavplay.c:49-50 | a pass that starts with `i > n` asks for a whole buffer, because `n - i` wraps |
| `Transfer.OverrunExample` | wavplay.c:47-51 | 8192 stream bytes with declared size 5000 take three passes that ask for 4096, 904 and 4096 bytes, 9096 in all |
| `Transfer.BoundedLen` | wavplay.c:49 | corrected length, never more than one buffer; what the lengths add up to is stated by `Transfer.BoundedSumByCounter` and `Transfer.BoundedNeverExceedsDeclared` |
| `Transfer.BoundedSumByCounter` | wavplay.c:49-50 | with the corrected length, the bytes asked for so far are `min(n, i)` for the counter `i` |
| `Transfer.BoundedNeverExceedsDeclared` | wavplay.c:44-52 | with the corrected length, the bytes asked for after `k` passes are `min(n, k * buf)`, so never more than declared |
| `Transfer.BoundedAgreesWithinDeclared` | wavplay.c:49 | the corrected length equals the source's on every pass that starts at or below the declared size |
| `Transfer.Divisor` | wavplay.c:101-102 | `format * nchannels` in `unsigned int`, which is the plain product when that fits in 32 bits |
| `Transfer.FramesAsWritten` | wavplay.c:101-102 | the frames requested are the largest count whose product with the divisor fits in the byte length |
| `Transfer.IntendedFrames` | wavplay.c:101-102 | corrected frame count: the whole frames of `nchannels` samples, each of the format's byte width, that the byte length holds |
| `Transfer.DivisorIsFrameSizeOnlyFor` | wavplay.c:56-61 | dividing by the ALSA constant gives the frame size exactly for U8 and S16 and for no other format (with the little-endian values of S16, S24 and S32) |
| `Transfer.FrameCountExamples` | wavplay.c:101-102 | 8192 bytes of 32-bit stereo are asked for as 409 frames but hold 1024; mono A-law is asked for as 390 frames but holds 8192 |
| `Sink.LiveIgnoresTransfers` | wavplay.c:32-37 | calls that neither open nor close (ioctl, hardware parameters, writes, prepare, drain) leave the set of open handles unchanged |
| `Sink.OssWrites` | wavplay.c:47-51 | the OSS loop's calls for the given lengths: one call per pass |
| `Sink.AlsaWrites` | wavplay.c:98-104 | the ALSA loop's calls for the given lengths: two calls per pass |
| `Sink.OssWritesAt` | wavplay.c:47-51 | the OSS loop's calls are one `write` on `devfd` per pass, of that pass's length, in order |
| `Sink.AlsaWritesAt` | wavplay.c:98-104 | in the ALSA loop every `snd_pcm_writei` of `len / divisor` frames directly follows its own `snd_pcm_prepare` |
| `Sink.DrainOnlyAtEnd` | wavplay.c:95-105 | the ALSA `snd_play`'s calls begin with the parameter read-back `snd_pcm_hw_params_current`, and `snd_pcm_drain` is called exactly once, as the last call |
| `Sink.WritesKeepHandles` | wavplay.c:88-106 | neither loop opens or closes a handle |
| `Sink.ConfigCalls` | wavplay.c:32-37 | `snd_set` (OSS ioctls, or ALSA hardware-parameter steps at wavplay.c:70-81) opens and closes nothing |
| `Sink.Installed` | wavplay.c:76-80 | the format and the channel count, as the `unsigned int` `snd_pcm_hw_params_set_channels` takes, that the ALSA `snd_set` installs |
| `Sink.PlayCalls` | wavplay.c:44-106 | the calls `snd_play` makes: OSS, one `write` per pass; ALSA, `snd_pcm_hw_params_current` (wavplay.c:95), a prepare and a write per pass, and the drain, so `2 * passes + 2` calls |
| `Sink.PlayCallsKeepHandles` | wavplay.c:98-99 | streaming leaves the open handles as they were, and the number of calls it makes is the same for any declared size: only reaching end of file ends the loop |
| `Sink.ReadPass` | wavplay.c:48 | one loop `fread` after `k` full buffers: either the stream moves on by exactly one buffer, or it reaches end of file, having read every byte, on pass number `Passes`; the error indicator is unchanged |
| `Sink.Device.constructor` | wavplay.c:24 | the handle starts at -1 (no handle) with no calls made |
| `Sink.Device.End` | wavplay.c:39-42 | `snd_end` closes the current handle (ALSA: wavplay.c:83-86), leaves the handle at -1 and no handle open |
| `Sink.Device.Init` | wavplay.c:26-30 | `snd_init` first closes an open handle, then opens; afterwards the opened handle is the only live one; OSS returns the descriptor, ALSA (wavplay.c:65-68) returns 0 or the error, and both are negative exactly when opening failed |
| `Sink.Device.Set` | wavplay.c:32-37 | `snd_set` sends the format, channel count and rate to the current handle, and for ALSA records the requested format and channel count, which `snd_play` later reads back |
| `Sink.Device.Play` | wavplay.c:44-52 | `snd_play` of the compiled backend reads the stream to end of file and makes exactly `PlayCalls` for that stream and declared size; for ALSA (wavplay.c:88-106) that is the parameter read-back, the loop's calls, then one `snd_pcm_drain`; the handle invariant is kept; the stream ends at end of file, open, with its error indicator unchanged |
| `Sink.Device.OssPass` | wavplay.c:49-50 | pass `k` of the OSS loop appends exactly one `write` of that pass's clamped length, and the counter becomes pass `k + 1`'s |
| `Sink.OssLogStep` | wavplay.c:47-51 | a log holding the first `k` passes' writes, extended by pass `k`'s, holds the first `k + 1` passes' writes |
| `Sink.Device.AlsaPass` | wavplay.c:100-103 | pass `k` of the ALSA loop appends exactly one `snd_pcm_prepare` and one `snd_pcm_writei` of that pass's frames, and the counter becomes pass `k + 1`'s |
| `Sink.AlsaLogStep` | wavplay.c:98-104 | a log holding the first `k` ALSA passes' calls, extended by pass `k`'s prepare and write, holds the first `k + 1` passes' calls |
| `Sink.Device.PlayOss` | wavplay.c:44-52 | the OSS loop makes one write per pass with the lengths `Lens(n, 4096, passes)` and leaves the stream at end of file, with its error indicator unchanged |
| `Sink.Device.PlayAlsa` | wavplay.c:98-104 | the ALSA loop, given the divisor `format * nchannels` read back at wavplay.c:95-97, makes a prepare and a write of `Lens(n, 8192, passes)[j] / divisor` frames per pass and leaves the stream at end of file, with its error indicator unchanged |
| `Session.DeclaredSize` | wavplay.c:137 | the record's size is the header's frame count converted to `size_t` (a negative count becomes `2^64 + count`); `wavfile_t` is not part of this model, so the `size_t` type of `wav->size` is taken from `snd_play`'s parameter `n` |
| `Session.HeaderFormat` | wavplay.c:138 | the format `wav_getfmt` gives for the header: non-negative exactly when it is the device code of a sample format |
| `Session.WavFile.constructor` | wavplay.c:135-137 | the `malloc`ed record holds the stream and the declared size |
| `Session.SessionHw` | wavplay.c:143 | the ALSA parameters recorded once `wav_open` has called `snd_set` (wavplay.c:76-80): the header's format and channel count; OSS keeps what it had |
| `Session.SupportedHeaderIsPlayable` | wavplay.c:138-143 | for a supported format and a positive channel count, the ALSA frame divisor is the plain nonzero product |
| `Session.WavOpen` | wavplay.c:127-146 | NULL when there is no stream (the device's calls and parameters untouched) or the header read fails. Otherwise a fresh record whose size is the declared size. An unsupported format closes the stream, leaves NULL in the record and never touches the device; a supported one sends exactly `snd_set(format, nchannels, framerate)` |
| `Session.WavClose` | wavplay.c:148-151 | the stream, when the record still holds one, is closed |
| `Session.PlayedCalls` | wavplay.c:153-158 | the device calls of a played file: `snd_set`'s (wavplay.c:143), then `snd_play`'s over what the header read left of the stream |
| `Session.PlayedLogSplits` | wavplay.c:143-158 | appending `snd_set`'s calls and then `snd_play`'s to a log gives the same log as appending `PlayedCalls` |
| `Session.WavPlay` | wavplay.c:153-163 | streams only when the record kept its stream and always closes that stream; a stream whose header read fails is left open. The device log grows by `snd_set`'s calls then `snd_play`'s, and for ALSA the recorded parameters become those `snd_set` requested; when the format is unsupported or opening failed, neither the log nor the parameters change; the diagnostics printed are reported; the open handles never change |

## Left out

- `play.c` (argument handling, the pause between files, the `SIGQUIT` handler) is not part of this model. `snd_drop` and `wav_send`, which it calls, have no definition in the library.
- `wavplay.h` only declares things. Its prototypes give `snd_set`, `snd_end` and `wav_play` an `int` result, but `wavplay.c` defines them as `void`; the model follows `wavplay.c`.
- AIFF/AIFC and Sun/Au parsing, the 80-bit float decoder, RIFF chunk walking and byte-order conversion: only their structs exist, with no code. There is no underrun recovery, short-read diagnostic or cancellation either.
- Device behaviour: what `open`, `ioctl`, `write` and the `snd_pcm_*` calls do is not modelled. They are recorded as calls, and their results are not read, with two exceptions: the handle `open`/`snd_pcm_open` gives, which is stored and returned (wavplay.c:28-29, 67) and is a parameter of `Init`, and the ALSA parameter read-back below.
- Buffer contents: only lengths are modelled, not the bytes `fread` leaves in `buf`. The partly stale buffer after a short read is therefore not visible.
- The stream `wav_open` leaks when the header read fails is left unclosed, as in the source. Freeing the record has no counterpart.
- The header's byte layout and the text of the diagnostics: the header arrives decoded, and diagnostics are reported as values.
- Read errors after the header: `Sink.Device.Play` requires a stream that is not faulty. With a read error, `feof` never becomes true and the C loop would not end.
- Sink.Device.Play: for ALSA, the format and channel count read back from the device (wavplay.c:95-97) are taken to equal what `snd_set` requested. A device that installs a different format or channel count from the one requested (or refuses them) is not modelled.
- Sink.Device.PlayAlsa: requires a nonzero `format * nchannels`. The C code would divide by zero otherwise.
- Session.WavPlay: for ALSA, requires a positive channel count in a header whose format is supported. What ALSA does with a zero or negative count is device behaviour, and `snd_play` then divides by what the device reports. A header with an unsupported format is skipped whatever its channel count, as in the source.
- Transfer.BoundedNeverExceedsDeclared: proved for fewer than 2^51 passes, not for every pass count up to `2^64 / buf`; a stream that long is far beyond any file.
- Formats.GetFmt: takes unbounded integers. The `int` overflow of `bitdepth + bitdepth % 8` for depths within 7 of `INT_MAX` is not modelled; those depths give -1 here.

## Findings

| source | as written | input that shows it | evidently intended | confidence | as-written member | corrected member |
|---|---|---|---|---|---|---|
| wavplay.c:101-102 | the ALSA loop divides the byte count by `format * nchannels`, where `format` is the `snd_pcm_format_t` enumeration value, not a width in bytes | one 8192-byte buffer of S32 stereo: 8192 / (10 * 2) = 409 frames are requested, while the buffer holds 1024; for mono A-law, 390 instead of 8192 | divide by the frame size, bytes per sample times channels | high (the two agree only for U8 and S16, with the little-endian values 2, 6 and 10 of S16, S24 and S32; on a big-endian host these are 3, 7 and 11 and only U8 agrees); not executed | `Transfer.FramesAsWritten` (shown by `Transfer.FrameCountExamples`, `Transfer.DivisorIsFrameSizeOnlyFor`) | `Transfer.IntendedFrames` |
| wavplay.c:49 | `n - i` is computed in `size_t`, so once `i` passes the declared size it wraps to a huge value, and both loops (also wavplay.c:101) ask for whole buffers beyond the declared payload | declared size 5000 with 8192 bytes left in the stream: the OSS loop asks for 4096, 904 and 4096 bytes, 9096 in all | ask for what is left of the declared size and nothing after it | high; not executed | `Transfer.WriteLen` (shown by `Transfer.OverrunExample`, `Transfer.PastDeclaredSizeFullBuffer`) | `Transfer.BoundedLen` (proved by `Transfer.BoundedNeverExceedsDeclared`) |

The session (`Session.WavPlay`, `Sink.Device.Play`) keeps the source's loop
and frame count, so that the device log it describes is the one the program
produces. The corrected definitions stand beside it, with their properties
proved. `Transfer.BoundedAgreesWithinDeclared` shows that the two lengths
differ only on passes that start past the declared size.
