/**
 The placeholder-audio container: a canonical 44-byte header of the WAVE form of
 the RIFF format (Multimedia Programming Interface and Data Specifications 1.0,
 "fmt " chunk with WAVE_FORMAT_PCM = 1, one channel, 16 bits per sample), every
 multi-byte field little-endian, followed by two bytes per sample.

 The sample values themselves are abstract integers: the model fixes where each
 sample is written and how an integer is stored, not how it was computed.
 */
module Wav {

  type byte = x: int | 0 <= x < 0x100

  const TwoTo16: int := 0x1_0000
  const TwoTo32: int := 0x1_0000_0000

  /** Size of the header that precedes the sample data. */
  const HeaderSize: nat := 44

  // ---------------------------------------------------------------------------
  // Little-endian integer fields
  // ---------------------------------------------------------------------------

  /** An unsigned 16-bit field, low byte first. */
  function U16(v: int): (b: seq<byte>)
    requires 0 <= v < TwoTo16
    ensures |b| == 2
  {
    [v % 0x100, v / 0x100]
  }

  function DecodeU16(b: seq<byte>): (v: int)
    requires |b| == 2
    ensures 0 <= v < TwoTo16
  {
    (b[0] as int) + 0x100 * (b[1] as int)
  }

  lemma U16RoundTrip(v: int)
    requires 0 <= v < TwoTo16
    ensures DecodeU16(U16(v)) == v
  {
  }

  lemma DecodeU16RoundTrip(b: seq<byte>)
    requires |b| == 2
    ensures U16(DecodeU16(b)) == b
  {
  }

  /** An unsigned 32-bit field, low half first. */
  function U32(v: int): (b: seq<byte>)
    requires 0 <= v < TwoTo32
    ensures |b| == 4
  {
    U16(v % TwoTo16) + U16(v / TwoTo16)
  }

  function DecodeU32(b: seq<byte>): (v: int)
    requires |b| == 4
    ensures 0 <= v < TwoTo32
  {
    DecodeU16(b[..2]) + TwoTo16 * DecodeU16(b[2..])
  }

  lemma U32RoundTrip(v: int)
    requires 0 <= v < TwoTo32
    ensures DecodeU32(U32(v)) == v
  {
  }

  lemma DecodeU32RoundTrip(b: seq<byte>)
    requires |b| == 4
    ensures U32(DecodeU32(b)) == b
  {
  }

  /** What a DataView 16-bit write stores for an integer: the value modulo 2^16
      (for a signed write this is the two's-complement pattern). */
  function Wrap16(x: int): (r: int)
    ensures 0 <= r < TwoTo16
    ensures 0 <= x < TwoTo16 ==> r == x
    ensures -0x8000 <= x < 0 ==> r == x + TwoTo16
  {
    x % TwoTo16
  }

  /** What a DataView 32-bit write stores for an integer: the value modulo 2^32. */
  function Wrap32(x: int): (r: int)
    ensures 0 <= r < TwoTo32
    ensures 0 <= x < TwoTo32 ==> r == x
  {
    x % TwoTo32
  }

  /** A signed 16-bit little-endian sample, as stored by a signed 16-bit write. */
  function I16(s: int): (b: seq<byte>)
    ensures |b| == 2
  {
    U16(Wrap16(s))
  }

  /** Reads two bytes back as a signed 16-bit two's-complement value. */
  function DecodeI16(b: seq<byte>): (s: int)
    requires |b| == 2
    ensures -0x8000 <= s < 0x8000
  {
    var u := DecodeU16(b);
    if u < 0x8000 then u else u - TwoTo16
  }

  lemma I16RoundTrip(s: int)
    requires -0x8000 <= s < 0x8000
    ensures DecodeI16(I16(s)) == s
  {
  }

  /** The byte of each character code, as an 8-bit write stores it. */
  function Ascii(s: string): (b: seq<byte>)
    ensures |b| == |s|
    ensures forall i :: 0 <= i < |s| && s[i] as int < 0x100 ==> b[i] == s[i] as int
  {
    seq(|s|, i requires 0 <= i < |s| => (s[i] as int) % 0x100)
  }

  // ---------------------------------------------------------------------------
  // The file as bytes
  // ---------------------------------------------------------------------------

  /** The header for n mono 16-bit samples at the given sample rate. */
  function Header(n: nat, sampleRate: int): (h: seq<byte>)
    ensures |h| == HeaderSize
  {
    Ascii("RIFF") + U32(Wrap32(36 + n * 2)) + Ascii("WAVE") + Ascii("fmt ") +
    U32(Wrap32(16)) + U16(Wrap16(1)) + U16(Wrap16(1)) +
    U32(Wrap32(sampleRate)) + U32(Wrap32(sampleRate * 2)) +
    U16(Wrap16(2)) + U16(Wrap16(16)) + Ascii("data") + U32(Wrap32(n * 2))
  }

  /** The sample data: each sample as two little-endian bytes, in order. */
  function SampleData(samples: seq<int>): (d: seq<byte>)
    ensures |d| == 2 * |samples|
  {
    if samples == [] then []
    else SampleData(samples[..|samples| - 1]) + I16(samples[|samples| - 1])
  }

  /** The whole container. */
  function WavFile(sampleRate: int, samples: seq<int>): (f: seq<byte>)
    ensures |f| == HeaderSize + 2 * |samples|
  {
    Header(|samples|, sampleRate) + SampleData(samples)
  }

  /** Sample i occupies bytes 2i and 2i+1 of the sample data. */
  lemma {:induction false} SampleDataAt(samples: seq<int>, i: nat)
    requires i < |samples|
    ensures SampleData(samples)[2 * i .. 2 * i + 2] == I16(samples[i])
  {
    var last := |samples| - 1;
    var front := samples[..last];
    assert SampleData(samples) == SampleData(front) + I16(samples[last]);
    assert |SampleData(front)| == 2 * last;
    if i < last {
      SampleDataAt(front, i);
      assert front[i] == samples[i];
      assert SampleData(samples)[2 * i .. 2 * i + 2] == SampleData(front)[2 * i .. 2 * i + 2];
    } else {
      assert SampleData(samples)[2 * i .. 2 * i + 2] == I16(samples[last]);
    }
  }

  /** Every field of the header at its offset, read back little-endian. Size fields
      are stored modulo 2^32, as the 32-bit writes do. */
  lemma HeaderFields(n: nat, sampleRate: int)
    ensures var h := Header(n, sampleRate);
      && h[0..4] == Ascii("RIFF") == [0x52, 0x49, 0x46, 0x46]
      && DecodeU32(h[4..8]) == (36 + 2 * n) % TwoTo32
      && h[8..12] == Ascii("WAVE") == [0x57, 0x41, 0x56, 0x45]
      && h[12..16] == Ascii("fmt ") == [0x66, 0x6d, 0x74, 0x20]
      && DecodeU32(h[16..20]) == 16
      && DecodeU16(h[20..22]) == 1
      && DecodeU16(h[22..24]) == 1
      && DecodeU32(h[24..28]) == sampleRate % TwoTo32
      && DecodeU32(h[28..32]) == (2 * sampleRate) % TwoTo32
      && DecodeU16(h[32..34]) == 2
      && DecodeU16(h[34..36]) == 16
      && h[36..40] == Ascii("data") == [0x64, 0x61, 0x74, 0x61]
      && DecodeU32(h[40..44]) == (2 * n) % TwoTo32
  {
    var h := Header(n, sampleRate);
    assert h[4..8] == U32(Wrap32(36 + n * 2));
    U32RoundTrip(Wrap32(36 + n * 2));
    assert h[16..20] == U32(16);
    U32RoundTrip(16);
    assert h[20..22] == U16(1) && h[22..24] == U16(1);
    assert h[24..28] == U32(Wrap32(sampleRate));
    U32RoundTrip(Wrap32(sampleRate));
    assert h[28..32] == U32(Wrap32(sampleRate * 2));
    U32RoundTrip(Wrap32(sampleRate * 2));
    assert h[32..34] == U16(2) && h[34..36] == U16(16);
    assert h[40..44] == U32(Wrap32(n * 2));
    U32RoundTrip(Wrap32(n * 2));
  }

  /** When the sizes fit in 32 bits the file is self-consistent: the RIFF size is the
      file length minus 8, the data size is the length minus the header, the byte
      rate is sample rate times block align, block align is channels times bytes
      per sample, and sample i reads back at offset 44 + 2i. */
  lemma WavFileConsistent(sampleRate: int, samples: seq<int>)
    requires 0 <= sampleRate && 2 * sampleRate < TwoTo32
    requires 36 + 2 * |samples| < TwoTo32
    ensures var f := WavFile(sampleRate, samples);
      && |f| == 44 + 2 * |samples|
      && DecodeU32(f[4..8]) == |f| - 8
      && DecodeU32(f[40..44]) == |f| - HeaderSize
      && DecodeU32(f[24..28]) == sampleRate
      && DecodeU32(f[28..32]) == DecodeU32(f[24..28]) * DecodeU16(f[32..34])
      && DecodeU16(f[32..34]) == DecodeU16(f[22..24]) * (DecodeU16(f[34..36]) / 8)
      && forall i :: 0 <= i < |samples| && -0x8000 <= samples[i] < 0x8000 ==>
           DecodeI16(f[44 + 2 * i .. 46 + 2 * i]) == samples[i]
  {
    var n := |samples|;
    var h := Header(n, sampleRate);
    var f := WavFile(sampleRate, samples);
    HeaderFields(n, sampleRate);
    assert f[..HeaderSize] == h;
    assert f[4..8] == h[4..8] && f[40..44] == h[40..44] && f[24..28] == h[24..28];
    assert f[28..32] == h[28..32] && f[32..34] == h[32..34];
    assert f[22..24] == h[22..24] && f[34..36] == h[34..36];
    forall i | 0 <= i < n && -0x8000 <= samples[i] < 0x8000
      ensures DecodeI16(f[44 + 2 * i .. 46 + 2 * i]) == samples[i]
    {
      SampleDataAt(samples, i);
      assert f[44 + 2 * i .. 46 + 2 * i] == SampleData(samples)[2 * i .. 2 * i + 2];
      I16RoundTrip(samples[i]);
    }
  }

  // ---------------------------------------------------------------------------
  // The encoder, writing into a zero-filled buffer through DataView-style setters
  // ---------------------------------------------------------------------------

  /** s with the bytes b written from offset off on. */
  function Overwrite(s: seq<byte>, off: nat, b: seq<byte>): (r: seq<byte>)
    requires off + |b| <= |s|
    ensures |r| == |s|
    ensures r[..off] == s[..off] && r[off..off + |b|] == b && r[off + |b|..] == s[off + |b|..]
  {
    s[..off] + b + s[off + |b|..]
  }

  /** Writing right after an already-written prefix extends that prefix. */
  lemma ExtendPrefix(s: seq<byte>, off: nat, done: seq<byte>, b: seq<byte>)
    requires off == |done| && off + |b| <= |s| && s[..off] == done
    ensures Overwrite(s, off, b)[..off + |b|] == done + b
  {
  }

  /** A write that ends at or before `from` leaves everything from `from` on as it was. */
  lemma KeepSuffix(s: seq<byte>, off: nat, b: seq<byte>, from: nat)
    requires off + |b| <= from <= |s|
    ensures Overwrite(s, off, b)[from..] == s[from..]
  {
  }

  /** Stores the character codes of s, one byte each, from offset on. */
  method WriteString(view: array<byte>, offset: nat, s: string)
    requires offset + |s| <= view.Length
    modifies view
    ensures view[..] == Overwrite(old(view[..]), offset, Ascii(s))
  {
    for i := 0 to |s|
      invariant forall k :: 0 <= k < view.Length ==>
        view[k] == if offset <= k < offset + i then Ascii(s)[k - offset] else old(view[k])
    {
      view[offset + i] := (s[i] as int) % 0x100;
    }
    assert forall k :: 0 <= k < view.Length ==> view[..][k] == Overwrite(old(view[..]), offset, Ascii(s))[k];
  }

  method SetUint16(view: array<byte>, offset: nat, value: int)
    requires offset + 2 <= view.Length
    modifies view
    ensures view[..] == Overwrite(old(view[..]), offset, U16(Wrap16(value)))
  {
    var v := Wrap16(value);
    view[offset] := v % 0x100;
    view[offset + 1] := v / 0x100;
    assert forall k :: 0 <= k < view.Length ==> view[..][k] == Overwrite(old(view[..]), offset, U16(v))[k];
  }

  /** A signed 16-bit write stores the same bit pattern as an unsigned one. */
  method SetInt16(view: array<byte>, offset: nat, value: int)
    requires offset + 2 <= view.Length
    modifies view
    ensures view[..] == Overwrite(old(view[..]), offset, I16(value))
  {
    SetUint16(view, offset, value);
  }

  method SetUint32(view: array<byte>, offset: nat, value: int)
    requires offset + 4 <= view.Length
    modifies view
    ensures view[..] == Overwrite(old(view[..]), offset, U32(Wrap32(value)))
  {
    var v := Wrap32(value);
    var lo, hi := v % TwoTo16, v / TwoTo16;
    view[offset] := lo % 0x100;
    view[offset + 1] := lo / 0x100;
    view[offset + 2] := hi % 0x100;
    view[offset + 3] := hi / 0x100;
    assert forall k :: 0 <= k < view.Length ==> view[..][k] == Overwrite(old(view[..]), offset, U32(v))[k];
  }

  /** The header writes of audioBufferToWav, in source order. */
  method WriteHeader(view: array<byte>, length: nat, sampleRate: int)
    requires view.Length == HeaderSize + length * 2
    modifies view
    ensures view[..HeaderSize] == Header(length, sampleRate)
    ensures view[HeaderSize..] == old(view[HeaderSize..])
  {
    // done: the bytes written so far, which form a prefix of the buffer;
    // tail: the bytes after the header, which no write touches
    ghost var done: seq<byte> := [];
    ghost var tail := view[HeaderSize..];
    ghost var before: seq<byte>;
    before := view[..];
    WriteString(view, 0, "RIFF");
    ExtendPrefix(before, 0, done, Ascii("RIFF"));
    KeepSuffix(before, 0, Ascii("RIFF"), HeaderSize);
    done := done + Ascii("RIFF");

    before := view[..];
    SetUint32(view, 4, 36 + length * 2);
    ExtendPrefix(before, 4, done, U32(Wrap32(36 + length * 2)));
    KeepSuffix(before, 4, U32(Wrap32(36 + length * 2)), HeaderSize);
    done := done + U32(Wrap32(36 + length * 2));

    before := view[..];
    WriteString(view, 8, "WAVE");
    ExtendPrefix(before, 8, done, Ascii("WAVE"));
    KeepSuffix(before, 8, Ascii("WAVE"), HeaderSize);
    done := done + Ascii("WAVE");

    before := view[..];
    WriteString(view, 12, "fmt ");
    ExtendPrefix(before, 12, done, Ascii("fmt "));
    KeepSuffix(before, 12, Ascii("fmt "), HeaderSize);
    done := done + Ascii("fmt ");

    before := view[..];
    SetUint32(view, 16, 16);
    ExtendPrefix(before, 16, done, U32(Wrap32(16)));
    KeepSuffix(before, 16, U32(Wrap32(16)), HeaderSize);
    done := done + U32(Wrap32(16));

    before := view[..];
    SetUint16(view, 20, 1);
    ExtendPrefix(before, 20, done, U16(Wrap16(1)));
    KeepSuffix(before, 20, U16(Wrap16(1)), HeaderSize);
    done := done + U16(Wrap16(1));

    before := view[..];
    SetUint16(view, 22, 1);
    ExtendPrefix(before, 22, done, U16(Wrap16(1)));
    KeepSuffix(before, 22, U16(Wrap16(1)), HeaderSize);
    done := done + U16(Wrap16(1));

    before := view[..];
    SetUint32(view, 24, sampleRate);
    ExtendPrefix(before, 24, done, U32(Wrap32(sampleRate)));
    KeepSuffix(before, 24, U32(Wrap32(sampleRate)), HeaderSize);
    done := done + U32(Wrap32(sampleRate));

    before := view[..];
    SetUint32(view, 28, sampleRate * 2);
    ExtendPrefix(before, 28, done, U32(Wrap32(sampleRate * 2)));
    KeepSuffix(before, 28, U32(Wrap32(sampleRate * 2)), HeaderSize);
    done := done + U32(Wrap32(sampleRate * 2));

    before := view[..];
    SetUint16(view, 32, 2);
    ExtendPrefix(before, 32, done, U16(Wrap16(2)));
    KeepSuffix(before, 32, U16(Wrap16(2)), HeaderSize);
    done := done + U16(Wrap16(2));

    before := view[..];
    SetUint16(view, 34, 16);
    ExtendPrefix(before, 34, done, U16(Wrap16(16)));
    KeepSuffix(before, 34, U16(Wrap16(16)), HeaderSize);
    done := done + U16(Wrap16(16));

    before := view[..];
    WriteString(view, 36, "data");
    ExtendPrefix(before, 36, done, Ascii("data"));
    KeepSuffix(before, 36, Ascii("data"), HeaderSize);
    done := done + Ascii("data");

    before := view[..];
    SetUint32(view, 40, length * 2);
    ExtendPrefix(before, 40, done, U32(Wrap32(length * 2)));
    KeepSuffix(before, 40, U32(Wrap32(length * 2)), HeaderSize);
    done := done + U32(Wrap32(length * 2));
    assert done == Header(length, sampleRate);
    assert view[HeaderSize..] == tail;
  }

  /** audioBufferToWav: a buffer of 44 + 2n bytes holding the header and then each
      sample at offset 44 + 2i. */
  method AudioBufferToWav(samples: seq<int>, sampleRate: int) returns (buffer: array<byte>)
    ensures fresh(buffer)
    ensures buffer[..] == WavFile(sampleRate, samples)
  {
    var length := |samples|;
    buffer := new byte[HeaderSize + length * 2](_ => 0);
    WriteHeader(buffer, length, sampleRate);
    ghost var before: seq<byte>;
    var offset := HeaderSize;
    for i := 0 to length
      invariant offset == HeaderSize + 2 * i
      invariant buffer[..offset] == Header(length, sampleRate) + SampleData(samples[..i])
    {
      before := buffer[..];
      SetInt16(buffer, offset, samples[i]);
      ExtendPrefix(before, offset, Header(length, sampleRate) + SampleData(samples[..i]), I16(samples[i]));
      assert samples[..i + 1][..i] == samples[..i];
      offset := offset + 2;
    }
    assert samples[..length] == samples;
    assert buffer[..] == buffer[..offset];
  }
}
