/** Sample-format mapping: from the WAVE header's (compression code, bit depth)
    to the sample-format constant of the audio backend the library was built for.
 */
module Formats {

  /** The two device backends; the library picks one when it is compiled. */
  datatype Backend = Oss | Alsa

  /** The six sample formats the library can ask a device for. */
  datatype SampleFormat = U8 | S16 | S24 | S32 | ALaw | MuLaw

  /** RIFF WAVE compression codes the mapper recognises. */
  const WAVE_FORMAT_PCM := 1
  const WAVE_FORMAT_ALAW := 6
  const WAVE_FORMAT_MULAW := 7

  /** The backend's numeric constant for a sample format: for OSS the AFMT_*
      bit flags of soundcard.h, for ALSA the snd_pcm_format_t enumeration
      values (S16, S24 and S32 stand for the host's byte order; these are the
      little-endian members, as on a little-endian host). */
  function DeviceCode(b: Backend, f: SampleFormat): (c: nat)
    ensures c > 0
  {
    match b
    case Oss =>
      (match f
       case U8 => 0x08
       case S16 => 0x10
       case S24 => 0x1_0000
       case S32 => 0x1000
       case ALaw => 0x02
       case MuLaw => 0x01)
    case Alsa =>
      (match f
       case U8 => 1
       case S16 => 2
       case S24 => 6
       case S32 => 10
       case ALaw => 21
       case MuLaw => 20)
  }

  /** Inverse of DeviceCode: which sample format, if any, a backend constant names. */
  function FormatOf(b: Backend, code: int): (r: Option<SampleFormat>)
    ensures r.Some? ==> DeviceCode(b, r.value) == code
    ensures r.None? ==> forall f :: DeviceCode(b, f) != code
  {
    if code == DeviceCode(b, U8) then Some(U8)
    else if code == DeviceCode(b, S16) then Some(S16)
    else if code == DeviceCode(b, S24) then Some(S24)
    else if code == DeviceCode(b, S32) then Some(S32)
    else if code == DeviceCode(b, ALaw) then Some(ALaw)
    else if code == DeviceCode(b, MuLaw) then Some(MuLaw)
    else None
  }

  datatype Option<T> = None | Some(value: T)

  /** Each backend gives the six formats six different constants, so a code
      names at most one format. */
  lemma CodesDistinct(b: Backend, f: SampleFormat, g: SampleFormat)
    ensures DeviceCode(b, f) == DeviceCode(b, g) <==> f == g
    ensures FormatOf(b, DeviceCode(b, f)) == Some(f)
  {
  }

  /** C's `a % 8` on int: the quotient truncates toward zero, so the
      remainder takes the sign of the dividend (unlike Dafny's Euclidean `%`). */
  function CRem8(a: int): (r: int)
    ensures -8 < r < 8
    ensures a >= 0 ==> r >= 0
    ensures a <= 0 ==> r <= 0
    ensures (a - r) % 8 == 0
  {
    if a >= 0 then a % 8 else -((-a) % 8)
  }

  /** PCM sample format for a whole number of bytes per sample. */
  function PcmFormat(bytes: int): (r: Option<SampleFormat>)
    ensures r.Some? <==> 1 <= bytes <= 4
  {
    if bytes == 1 then Some(U8)
    else if bytes == 2 then Some(S16)
    else if bytes == 3 then Some(S24)
    else if bytes == 4 then Some(S32)
    else None
  }

  /** wav_getfmt: the backend constant for a (compression code, bit depth)
      pair, or -1 when the pair is unsupported.  For PCM the depth is first
      raised by its own C remainder modulo 8. */
  function GetFmt(b: Backend, comptype: int, bitdepth: int): (r: int)
    ensures r == -1 || exists f :: DeviceCode(b, f) == r
    ensures r >= 0 <==> r != -1
    ensures comptype == WAVE_FORMAT_ALAW ==> r == DeviceCode(b, ALaw)
    ensures comptype == WAVE_FORMAT_MULAW ==> r == DeviceCode(b, MuLaw)
    ensures comptype !in {WAVE_FORMAT_PCM, WAVE_FORMAT_ALAW, WAVE_FORMAT_MULAW} ==> r == -1
    ensures comptype == WAVE_FORMAT_PCM ==> r != DeviceCode(b, ALaw) && r != DeviceCode(b, MuLaw)
  {
    if comptype == WAVE_FORMAT_PCM then
      var depth := bitdepth + CRem8(bitdepth);
      if depth == 8 then DeviceCode(b, U8)
      else if depth == 16 then DeviceCode(b, S16)
      else if depth == 24 then DeviceCode(b, S24)
      else if depth == 32 then DeviceCode(b, S32)
      else -1
    else if comptype == WAVE_FORMAT_ALAW then DeviceCode(b, ALaw)
    else if comptype == WAVE_FORMAT_MULAW then DeviceCode(b, MuLaw)
    else -1
  }

  /** The PCM rule in closed form: a PCM depth is accepted exactly when it is
      a multiple of 4 between 4 and 32, and it then selects the format whose
      sample holds ceil(depth / 8) bytes. */
  lemma {:induction false} PcmDepthRule(b: Backend, d: int)
    ensures GetFmt(b, WAVE_FORMAT_PCM, d) ==
      (if 4 <= d <= 32 && d % 4 == 0
       then DeviceCode(b, PcmFormat((d + 7) / 8).value)
       else -1)
  {
    var depth := d + CRem8(d);
    if d < 0 {
      assert depth < 0;
    } else if d >= 40 {
      assert depth >= 40;
    } else {
      var q, s := d / 8, d % 8;
      assert d == 8 * q + s && 0 <= q < 5 && depth == 8 * q + 2 * s;
      if d % 4 == 0 && 4 <= d {
        assert s == 0 || s == 4;
      } else {
        assert depth !in {8, 16, 24, 32};
      }
    }
  }

  /** The depths the source's adjustment lands on a supported width, and the
      odd ones it does not. */
  lemma {:induction false} AdjustedDepths(b: Backend)
    ensures GetFmt(b, WAVE_FORMAT_PCM, 8) == DeviceCode(b, U8)
    ensures GetFmt(b, WAVE_FORMAT_PCM, 16) == DeviceCode(b, S16)
    ensures GetFmt(b, WAVE_FORMAT_PCM, 24) == DeviceCode(b, S24)
    ensures GetFmt(b, WAVE_FORMAT_PCM, 32) == DeviceCode(b, S32)
    ensures GetFmt(b, WAVE_FORMAT_PCM, 4) == DeviceCode(b, U8)
    ensures GetFmt(b, WAVE_FORMAT_PCM, 12) == DeviceCode(b, S16)
    ensures GetFmt(b, WAVE_FORMAT_PCM, 20) == DeviceCode(b, S24)
    ensures GetFmt(b, WAVE_FORMAT_PCM, 7) == -1
    ensures GetFmt(b, WAVE_FORMAT_PCM, 9) == -1
    ensures forall d :: d < 0 ==> GetFmt(b, WAVE_FORMAT_PCM, d) == -1
  {
    forall d | d < 0 ensures GetFmt(b, WAVE_FORMAT_PCM, d) == -1 {
      PcmDepthRule(b, d);
    }
  }
}
