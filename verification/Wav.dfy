/** A 16-bit PCM WAV file written front to back, with its header patched at the end. */
module Wav {
  import opened Common

  // -------------------------------------------------------------------------
  // Little-endian numbers
  // -------------------------------------------------------------------------

  /** The low `k` bytes of a number in two's complement, lowest first. */
  function Le(n: int, k: nat): (b: seq<Byte>)
    ensures |b| == k
    decreases k
  {
    if k == 0 then [] else [n % 256] + Le(n / 256, k - 1)
  }

  function FromLe(b: seq<Byte>): nat {
    if b == [] then 0 else b[0] + 256 * FromLe(b[1..])
  }

  function Size(k: nat): nat {
    if k == 0 then 1 else 256 * Size(k - 1)
  }

  lemma {:induction false} LeRoundTrip(n: nat, k: nat)
    requires n < Size(k)
    ensures FromLe(Le(n, k)) == n
  {
    if k == 0 {
    } else {
      LeRoundTrip(n / 256, k - 1);
      assert Le(n, k)[1..] == Le(n / 256, k - 1);
    }
  }

  function SampleBytes(x: int): (b: seq<Byte>)
    ensures |b| == 2
  {
    [x % 256, x / 256 % 256]
  }

  function SampleOf(lo: Byte, hi: Byte): int {
    var v := lo + 256 * hi;
    if v >= 32768 then v - 65536 else v
  }

  lemma SampleRoundTrip(x: int)
    requires IsI16(x)
    ensures var b := SampleBytes(x); SampleOf(b[0], b[1]) == x
  {
  }

  // -------------------------------------------------------------------------
  // Samples
  // -------------------------------------------------------------------------

  function Encode(pcm: seq<int>): (b: seq<Byte>)
    ensures |b| == 2 * |pcm|
  {
    if pcm == [] then [] else Encode(pcm[..|pcm| - 1]) + SampleBytes(pcm[|pcm| - 1])
  }

  function Decode(b: seq<Byte>): seq<int> {
    if |b| < 2 then [] else Decode(b[..|b| - 2]) + [SampleOf(b[|b| - 2], b[|b| - 1])]
  }

  lemma {:induction false} EncodeConcat(a: seq<int>, b: seq<int>)
    ensures Encode(a + b) == Encode(a) + Encode(b)
  {
    if b == [] {
      assert a + b == a;
    } else {
      var before, x := b[..|b| - 1], b[|b| - 1];
      EncodeConcat(a, before);
      assert (a + b)[..|a + b| - 1] == a + before;
      assert Encode(a) + Encode(before) + SampleBytes(x) == Encode(a) + (Encode(before) + SampleBytes(x));
    }
  }

  lemma {:induction false} DecodeEncode(pcm: seq<int>)
    requires forall x | x in pcm :: IsI16(x)
    ensures Decode(Encode(pcm)) == pcm
  {
    if pcm == [] {
    } else {
      var before, x := pcm[..|pcm| - 1], pcm[|pcm| - 1];
      DecodeEncode(before);
      DecodeSample(Encode(before), x);
      assert pcm == before + [x];
    }
  }

  lemma DecodeSample(b: seq<Byte>, x: int)
    requires IsI16(x)
    ensures Decode(b + SampleBytes(x)) == Decode(b) + [x]
  {
    var s := b + SampleBytes(x);
    assert s[..|s| - 2] == b && s[|s| - 2] == SampleBytes(x)[0] && s[|s| - 1] == SampleBytes(x)[1];
    SampleRoundTrip(x);
  }

  // -------------------------------------------------------------------------
  // The header
  // -------------------------------------------------------------------------

  const RIFF: seq<Byte> := [82, 73, 70, 70]
  const WAVE: seq<Byte> := [87, 65, 86, 69]
  const FMT: seq<Byte> := [102, 109, 116, 32]
  const DATA: seq<Byte> := [100, 97, 116, 97]

  datatype Format = Format(channels: nat, rate: nat) {
    function BlockAlign(): nat {
      channels * 2
    }

    function ByteRate(): nat {
      rate * BlockAlign()
    }
  }

  /** Format, channel count, rate, byte rate, frame size and sample width. */
  function FormatChunk(f: Format): (b: seq<Byte>)
    ensures |b| == 24
  {
    FMT + Le(16, 4) + Le(1, 2) + Le(f.channels, 2) + Le(f.rate, 4) + Le(f.ByteRate(), 4)
    + Le(f.BlockAlign(), 2) + Le(16, 2)
  }

  /** Both sizes are cut to 32 bits. */
  function Header(f: Format, dataBytes: nat): (b: seq<Byte>)
    ensures |b| == 44
  {
    RIFF + Le((36 + dataBytes) % U32, 4) + (WAVE + FormatChunk(f) + DATA) + Le(dataBytes % U32, 4)
  }

  /** The fields of the format chunk at the offsets a WAV reader uses. */
  lemma FormatFields(f: Format)
    requires f.channels < 0x1_0000 && f.rate < U32 && f.ByteRate() < U32 && f.BlockAlign() < 0x1_0000
    ensures var b := FormatChunk(f);
            b[..4] == FMT && FromLe(b[4..8]) == 16 && FromLe(b[8..10]) == 1
            && FromLe(b[10..12]) == f.channels && FromLe(b[12..16]) == f.rate
            && FromLe(b[16..20]) == f.ByteRate() && FromLe(b[20..22]) == f.BlockAlign()
            && FromLe(b[22..24]) == 16
  {
    FormatSlices(Le(16, 4), Le(1, 2), Le(f.channels, 2), Le(f.rate, 4), Le(f.ByteRate(), 4), Le(f.BlockAlign(), 2), Le(16, 2));
    ReadsU16(1);
    ReadsU16(16);
    ReadsU16(f.channels);
    ReadsU16(f.BlockAlign());
    ReadsU32(16);
    ReadsU32(f.rate);
    ReadsU32(f.ByteRate());
  }

  lemma ReadsU16(n: nat)
    requires n < 0x1_0000
    ensures FromLe(Le(n, 2)) == n
  {
    assert Size(2) == 0x1_0000;
    LeRoundTrip(n, 2);
  }

  lemma ReadsU32(n: nat)
    requires n < U32
    ensures FromLe(Le(n, 4)) == n
  {
    assert Size(4) == U32;
    LeRoundTrip(n, 4);
  }

  lemma FormatSlices(
    size: seq<Byte>, pcm: seq<Byte>, ch: seq<Byte>, rate: seq<Byte>, bytes: seq<Byte>, align: seq<Byte>, bits: seq<Byte>)
    requires |size| == 4 && |pcm| == 2 && |ch| == 2 && |rate| == 4 && |bytes| == 4 && |align| == 2 && |bits| == 2
    ensures var b := FMT + size + pcm + ch + rate + bytes + align + bits;
            b[..4] == FMT && b[4..8] == size && b[8..10] == pcm && b[10..12] == ch && b[12..16] == rate
            && b[16..20] == bytes && b[20..22] == align && b[22..24] == bits
  {
  }

  /** The tags and the format chunk sit where a RIFF reader looks for them. */
  lemma HeaderLayout(f: Format, dataBytes: nat)
    ensures var h := Header(f, dataBytes);
            h[..4] == RIFF && h[8..12] == WAVE && h[12..36] == FormatChunk(f) && h[36..40] == DATA
  {
    LayoutSlices(RIFF, Le((36 + dataBytes) % U32, 4), WAVE, FormatChunk(f), DATA, Le(dataBytes % U32, 4));
  }

  lemma LayoutSlices(a: seq<Byte>, total: seq<Byte>, b: seq<Byte>, format: seq<Byte>, c: seq<Byte>, data: seq<Byte>)
    requires |a| == 4 && |total| == 4 && |b| == 4 && |format| == 24 && |c| == 4 && |data| == 4
    ensures var h := a + total + (b + format + c) + data;
            h[..4] == a && h[8..12] == b && h[12..36] == format && h[36..40] == c
  {
    var m := b + format + c;
    var h := a + total + m + data;
    assert h[8..40] == m;
    assert h[36..40] == h[8..40][28..32];
  }

  function RiffSize(file: seq<Byte>): nat
    requires |file| >= 44
  {
    FromLe(file[4..8])
  }

  function DataSize(file: seq<Byte>): nat
    requires |file| >= 44
  {
    FromLe(file[40..44])
  }

  lemma HeaderSizes(f: Format, dataBytes: nat, body: seq<Byte>)
    ensures var file := Header(f, dataBytes) + body;
            RiffSize(file) == (36 + dataBytes) % U32 && DataSize(file) == dataBytes % U32
  {
    var total, data := (36 + dataBytes) % U32, dataBytes % U32;
    Slices(RIFF, Le(total, 4), WAVE + FormatChunk(f) + DATA, Le(data, 4), body);
    ReadsU32(total);
    ReadsU32(data);
  }

  lemma Slices(a: seq<Byte>, b: seq<Byte>, c: seq<Byte>, d: seq<Byte>, e: seq<Byte>)
    requires |a| == 4 && |b| == 4 && |c| == 32 && |d| == 4
    ensures var s := a + b + c + d + e; s[4..8] == b && s[40..44] == d
  {
  }

  lemma BodyOf(header: seq<Byte>, body: seq<Byte>)
    requires |header| == 44
    ensures |header + body| == 44 + |body| && (header + body)[44..] == body
  {
  }

  lemma BodyGrows(file: seq<Byte>, bytes: seq<Byte>)
    requires |file| >= 44
    ensures (file + bytes)[44..] == file[44..] + bytes
  {
  }

  /** A finished file around its data. */
  function Finished(f: Format, body: seq<Byte>): seq<Byte> {
    Header(f, |body|) + body
  }

  /** The sizes in the header are those of the file exactly below the 32-bit limit. */
  lemma SizesAreTrueIff(f: Format, body: seq<Byte>)
    ensures var file := Finished(f, body);
            (RiffSize(file) == |file| - 8 && DataSize(file) == |file| - 44) <==> 36 + |body| < U32
  {
    HeaderSizes(f, |body|, body);
    BodyOf(Header(f, |body|), body);
    NotCutIff(|body|);
  }

  lemma NotCutIff(n: nat)
    ensures (36 + n) % U32 == 36 + n && n % U32 == n <==> 36 + n < U32
  {
  }

  // -------------------------------------------------------------------------
  // The writer
  // -------------------------------------------------------------------------

  /** `file` is the file with everything buffered for it. */
  class WavWriter {
    var file: seq<Byte>
    var dataBytes: nat
    const f: Format

    predicate Ok()
      reads this
    {
      |file| == 44 + dataBytes
    }

    constructor (f: Format)
      ensures Ok() && file == seq(44, _ => 0) && this.f == f
    {
      file, dataBytes, this.f := seq(44, _ => 0), 0, f;
    }

    method WritePcm(pcm: seq<int>)
      requires Ok()
      modifies this
      ensures Ok() && file == old(file) + Encode(pcm)
    {
      var bytes: seq<Byte> := [];
      for i := 0 to |pcm|
        invariant bytes == Encode(pcm[..i])
      {
        assert pcm[..i + 1][..i] == pcm[..i];
        bytes := bytes + SampleBytes(pcm[i]);
      }
      assert pcm[..|pcm|] == pcm;
      file := file + bytes;
      dataBytes := dataBytes + |bytes|;
    }

    /** Overwrites the placeholder; the frame size and byte rate must fit their fields. */
    method Finish()
      requires Ok() && f.BlockAlign() < 0x1_0000 && f.ByteRate() < U32
      modifies this
      ensures Ok() && file == Finished(f, old(file)[44..])
    {
      file := Header(f, dataBytes) + file[44..];
    }
  }
}
