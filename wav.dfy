/**
 * The WAV serialiser for the voice sample: 16-bit mono PCM behind the
 * canonical 44-byte header of the RIFF WAVE form (Microsoft/IBM Multimedia
 * Programming Interface and Data Specifications 1.0): a `RIFF` chunk of form
 * type `WAVE` holding a 16-byte `fmt ` chunk and then the `data` chunk. The
 * bytes are written into a buffer in place, as `DataView` setters do.
 */
module Wav {

  type byte = x: int | 0 <= x < 256
  type int16 = x: int | -0x8000 <= x < 0x8000

  const TwoTo16: int := 0x1_0000
  const TwoTo32: int := 0x1_0000_0000

  // ------------------------------------------------------------ byte encodings

  /** `setUint8` of a character code: the code modulo 256. */
  function Ascii(s: string): (r: seq<byte>)
    ensures |r| == |s|
  {
    seq(|s|, i requires 0 <= i < |s| => (s[i] as int) % 256)
  }

  /** Little-endian 16 bits of `v` taken modulo 2^16 (`setUint16` and
      `setInt16` write the same bytes). */
  function LE16(v: int): (r: seq<byte>)
    ensures |r| == 2
  {
    var u := v % TwoTo16;
    [u % 256, u / 256]
  }

  /** Little-endian 32 bits of `v` taken modulo 2^32 (`setUint32`). */
  function LE32(v: int): (r: seq<byte>)
    ensures |r| == 4
  {
    var u := v % TwoTo32;
    [u % 256, (u / 256) % 256, (u / 256 / 256) % 256, (u / 256 / 256 / 256) % 256]
  }

  /** The sample bytes, two per sample, in order. */
  function PcmBytes(samples: seq<int16>): (r: seq<byte>)
    ensures |r| == 2 * |samples|
  {
    if samples == [] then []
    else PcmBytes(samples[..|samples| - 1]) + LE16(samples[|samples| - 1])
  }

  /** The header, field by field in file order. */
  function WavHeader(n: nat, sampleRate: int): seq<byte>
  {
    RiffDescriptor(n) + FmtChunk(sampleRate) + DataChunkHeader(n)
  }

  /** `RIFF`, the size of the rest of the file, and the form type `WAVE`. */
  function RiffDescriptor(n: nat): seq<byte>
  {
    Ascii("RIFF") + LE32(36 + n * 2) + Ascii("WAVE")
  }

  /** The `fmt ` chunk: its size 16, format tag 1 (PCM), one channel, the
      sample rate, the byte rate, the block align 2 and 16 bits per sample. */
  function FmtChunk(sampleRate: int): seq<byte>
  {
    Ascii("fmt ") + LE32(16) + LE16(1) + LE16(1)
    + LE32(sampleRate) + LE32(sampleRate * 2) + LE16(2) + LE16(16)
  }

  /** `data` and the size of the sample bytes. */
  function DataChunkHeader(n: nat): seq<byte>
  {
    Ascii("data") + LE32(n * 2)
  }

  function WavFile(samples: seq<int16>, sampleRate: int): seq<byte>
  {
    WavHeader(|samples|, sampleRate) + PcmBytes(samples)
  }

  // ------------------------------------------------------------ decoders

  /** A little-endian unsigned 16-bit field. */
  function U16Of(b: seq<byte>): int
    requires |b| == 2
  {
    b[0] as int + 256 * (b[1] as int)
  }

  /** A little-endian signed 16-bit field, two's complement. */
  function I16Of(b: seq<byte>): int
    requires |b| == 2
  {
    if U16Of(b) >= 0x8000 then U16Of(b) - TwoTo16 else U16Of(b)
  }

  /** A little-endian unsigned 32-bit field. */
  function U32Of(b: seq<byte>): int
    requires |b| == 4
  {
    b[0] as int + 256 * (b[1] as int) + 0x1_0000 * (b[2] as int) + 0x100_0000 * (b[3] as int)
  }

  lemma DivMod256(u: int)
    requires u >= 0
    ensures u == (u / 256) * 256 + u % 256 && 0 <= u % 256 < 256
  {
  }

  /** Reading the 16 bits back gives the value modulo 2^16. */
  lemma LE16Decode(v: int)
    ensures U16Of(LE16(v)) == v % TwoTo16
  {
    DivMod256(v % TwoTo16);
  }

  /** A signed sample reads back as itself. */
  lemma LE16DecodeSigned(v: int16)
    ensures I16Of(LE16(v)) == v
  {
    LE16Decode(v);
    if v < 0 {
      assert v % TwoTo16 == v + TwoTo16;
    } else {
      assert v % TwoTo16 == v;
    }
  }

  /** Reading the 32 bits back gives the value modulo 2^32. */
  lemma LE32Decode(v: int)
    ensures U32Of(LE32(v)) == v % TwoTo32
  {
    var u := v % TwoTo32;
    var u1 := u / 256;
    var u2 := u1 / 256;
    var u3 := u2 / 256;
    DivMod256(u);
    DivMod256(u1);
    DivMod256(u2);
    assert u == 0x100_0000 * u3 + 0x1_0000 * (u2 % 256) + 256 * (u1 % 256) + u % 256;
    assert u3 < 256;
  }

  /** Each sample sits as two bytes at twice its index. */
  lemma {:induction false} PcmAt(samples: seq<int16>, i: nat)
    requires i < |samples|
    ensures PcmBytes(samples)[2 * i..2 * i + 2] == LE16(samples[i])
    decreases |samples|
  {
    var n := |samples| - 1;
    var prefix := samples[..n];
    assert PcmBytes(samples) == PcmBytes(prefix) + LE16(samples[n]);
    if i < n {
      PcmAt(prefix, i);
    }
  }

  /** The header fields at the offsets of the canonical layout. */
  lemma WavHeaderLayout(samples: seq<int16>, sampleRate: int)
    ensures var f := WavFile(samples, sampleRate); var n := |samples|;
      && |f| == 44 + 2 * n
      && f[0..4] == Ascii("RIFF")
      && U32Of(f[4..8]) == (36 + 2 * n) % TwoTo32
      && f[8..12] == Ascii("WAVE")
      && f[12..16] == Ascii("fmt ")
      && U32Of(f[16..20]) == 16
      && U16Of(f[20..22]) == 1
      && U16Of(f[22..24]) == 1
      && U32Of(f[24..28]) == sampleRate % TwoTo32
      && U32Of(f[28..32]) == (sampleRate * 2) % TwoTo32
      && U16Of(f[32..34]) == 2
      && U16Of(f[34..36]) == 16
      && f[36..40] == Ascii("data")
      && U32Of(f[40..44]) == (2 * n) % TwoTo32
  {
    var n := |samples|;
    var f := WavFile(samples, sampleRate);
    assert f[4..8] == LE32(36 + n * 2);
    assert f[16..20] == LE32(16);
    assert f[20..22] == LE16(1);
    assert f[22..24] == LE16(1);
    assert f[24..28] == LE32(sampleRate);
    assert f[28..32] == LE32(sampleRate * 2);
    assert f[32..34] == LE16(2);
    assert f[34..36] == LE16(16);
    assert f[40..44] == LE32(n * 2);
    LE32Decode(36 + n * 2);
    LE32Decode(16);
    LE16Decode(1);
    LE16Decode(2);
    LE16Decode(16);
    LE32Decode(sampleRate);
    LE32Decode(sampleRate * 2);
    LE32Decode(n * 2);
  }

  /** Every sample reads back, as a signed little-endian 16-bit value, at
      byte 44 + 2i. */
  lemma WavSampleAt(samples: seq<int16>, sampleRate: int, i: nat)
    requires i < |samples|
    ensures 44 + 2 * i + 2 <= |WavFile(samples, sampleRate)|
    ensures I16Of(WavFile(samples, sampleRate)[44 + 2 * i..44 + 2 * i + 2]) == samples[i]
  {
    var f := WavFile(samples, sampleRate);
    assert f[44 + 2 * i..44 + 2 * i + 2] == PcmBytes(samples)[2 * i..2 * i + 2];
    PcmAt(samples, i);
    LE16DecodeSigned(samples[i]);
  }

  // ------------------------------------------------------------ the writer

  /** `writeString`: byte offset+i becomes the code of character i modulo
      256; no other byte changes. */
  method WriteString(view: array<byte>, offset: nat, s: string)
    requires offset + |s| <= view.Length
    modifies view
    ensures view[..offset + |s|] == old(view[..offset]) + Ascii(s)
    ensures view[offset + |s|..] == old(view[offset + |s|..])
  {
    for i := 0 to |s|
      invariant view[..offset + i] == old(view[..offset]) + Ascii(s[..i])
      invariant view[offset + i..] == old(view[offset + i..])
    {
      ghost var before := view[..];
      view[offset + i] := (s[i] as int) % 256;
      assert Ascii(s[..i + 1]) == Ascii(s[..i]) + [(s[i] as int) % 256];
      assert view[..offset + i + 1] == before[..offset + i] + [(s[i] as int) % 256];
      assert view[offset + i + 1..] == before[offset + i + 1..];
    }
  }

  /** `setUint16(offset, v, true)` */
  method SetUint16(view: array<byte>, offset: nat, v: int)
    requires offset + 2 <= view.Length
    modifies view
    ensures view[..offset + 2] == old(view[..offset]) + LE16(v)
    ensures view[offset + 2..] == old(view[offset + 2..])
  {
    var u := v % TwoTo16;
    view[offset] := u % 256;
    view[offset + 1] := u / 256;
  }

  /** `setInt16(offset, v, true)`: the two's-complement bytes of `v`. */
  method SetInt16(view: array<byte>, offset: nat, v: int16)
    requires offset + 2 <= view.Length
    modifies view
    ensures view[..offset + 2] == old(view[..offset]) + LE16(v)
    ensures view[offset + 2..] == old(view[offset + 2..])
  {
    var u := if v < 0 then v + TwoTo16 else v;
    assert u == v % TwoTo16;
    view[offset] := u % 256;
    view[offset + 1] := u / 256;
  }

  /** `setUint32(offset, v, true)` */
  method SetUint32(view: array<byte>, offset: nat, v: int)
    requires offset + 4 <= view.Length
    modifies view
    ensures view[..offset + 4] == old(view[..offset]) + LE32(v)
    ensures view[offset + 4..] == old(view[offset + 4..])
  {
    var u := v % TwoTo32;
    view[offset] := u % 256;
    view[offset + 1] := (u / 256) % 256;
    view[offset + 2] := (u / 256 / 256) % 256;
    view[offset + 3] := (u / 256 / 256 / 256) % 256;
  }

  /** The RIFF chunk descriptor writes of `createWavFile` (bytes 0 to 12); the
      bytes after are kept. */
  method WriteRiffDescriptor(view: array<byte>, n: nat)
    requires 44 <= view.Length
    modifies view
    ensures view[..12] == RiffDescriptor(n)
    ensures view[12..] == old(view[12..])
  {
    WriteString(view, 0, "RIFF");
    SetUint32(view, 4, 36 + n * 2);
    WriteString(view, 8, "WAVE");
  }

  /** The `fmt ` sub-chunk writes (bytes 12 to 36); the bytes before and after
      are kept. */
  method WriteFmtChunk(view: array<byte>, sampleRate: int)
    requires 44 <= view.Length
    modifies view
    ensures view[..36] == old(view[..12]) + FmtChunk(sampleRate)
    ensures view[36..] == old(view[36..])
  {
    WriteString(view, 12, "fmt ");
    assert view[36..] == view[16..][20..];
    assert view[36..] == old(view[36..]);
    SetUint32(view, 16, 16);
    assert view[36..] == old(view[36..]);
    SetUint16(view, 20, 1);
    assert view[36..] == old(view[36..]);
    SetUint16(view, 22, 1);
    assert view[36..] == old(view[36..]);
    ghost var fmt := Ascii("fmt ") + LE32(16) + LE16(1) + LE16(1);
    assert view[..24] == old(view[..12]) + fmt;
    SetUint32(view, 24, sampleRate);
    assert view[36..] == old(view[36..]);
    SetUint32(view, 28, sampleRate * 2);
    assert view[36..] == old(view[36..]);
    SetUint16(view, 32, 2);
    assert view[36..] == old(view[36..]);
    SetUint16(view, 34, 16);
  }

  /** The `data` sub-chunk header writes (bytes 36 to 44); the bytes before and
      after are kept. */
  method WriteDataChunkHeader(view: array<byte>, n: nat)
    requires 44 <= view.Length
    modifies view
    ensures view[..44] == old(view[..36]) + DataChunkHeader(n)
    ensures view[44..] == old(view[44..])
  {
    WriteString(view, 36, "data");
    SetUint32(view, 40, n * 2);
  }

  /** The sample loop of `createWavFile`: the bytes from 44 on become the
      samples, two per sample, with the offset advancing by two; the header
      bytes are kept. */
  method WriteSamples(view: array<byte>, samples: seq<int16>)
    requires view.Length == 44 + |samples| * 2
    modifies view
    ensures view[..] == old(view[..44]) + PcmBytes(samples)
  {
    ghost var header := view[..44];
    var length := |samples|;
    var offset := 44;
    for i := 0 to length
      invariant offset == 44 + 2 * i
      invariant view[..offset] == header + PcmBytes(samples[..i])
    {
      SetInt16(view, offset, samples[i]);
      assert samples[..i + 1][..i] == samples[..i];
      assert PcmBytes(samples[..i + 1]) == PcmBytes(samples[..i]) + LE16(samples[i]);
      offset := offset + 2;
    }
    assert samples[..length] == samples;
    assert view[..] == view[..offset];
  }

  /** `createWavFile`: a fresh buffer of 44 + 2n bytes holding the header and
      then the samples. */
  method CreateWavFile(samples: seq<int16>, sampleRate: int) returns (buffer: array<byte>)
    ensures fresh(buffer)
    ensures buffer[..] == WavFile(samples, sampleRate)
  {
    buffer := new byte[44 + |samples| * 2](_ => 0);
    var view := buffer;
    WriteRiffDescriptor(view, |samples|);
    WriteFmtChunk(view, sampleRate);
    WriteDataChunkHeader(view, |samples|);
    assert view[..44] == WavHeader(|samples|, sampleRate);
    WriteSamples(view, samples);
  }
}
