/**
 * The 16-bit PCM sample codec of main.go: `int16ToByte` serialises captured
 * samples as little-endian bytes, and `pcmToFloat32Array` decodes such bytes
 * back into samples scaled into [-1, 1).
 *
 * Samples and bytes are mathematical integers restricted to the ranges of Go's
 * `int16` and `byte`; the float scaling `float32(sample) / 32768.0` is exact
 * rational division here.
 */
module Pcm {
  import opened Outcomes

  type Byte = b: int | 0 <= b < 256
  type Int16 = s: int | -32768 <= s < 32768

  /** One captured sample after scaling, as a rational number. */
  type Normalized = real

  /** Go's `byte(sample)`: the low eight bits of the two's-complement form. */
  function LowByte(s: Int16): Byte {
    s % 256
  }

  /** Go's `byte(sample >> 8)`: `>>` on a signed value is floor division by 256. */
  function HighByte(s: Int16): Byte {
    (s / 256) % 256
  }

  /** A little-endian `int16` read from two bytes, as `binary.Read` does it. */
  function SampleOf(lo: Byte, hi: Byte): Int16 {
    var u := lo as int + 256 * hi as int;
    if u >= 32768 then u - 65536 else u
  }

  /** The two bytes of a sample are its two's-complement 16-bit pattern, and reading them back gives the sample. */
  lemma SampleBytes(s: Int16)
    ensures LowByte(s) as int + 256 * HighByte(s) as int == s as int % 65536
    ensures SampleOf(LowByte(s), HighByte(s)) == s
  {
    if s >= 0 {
      assert s / 256 < 128;
      assert HighByte(s) == s / 256;
    } else {
      assert -128 <= s / 256 < 0;
      assert HighByte(s) == s / 256 + 256;
      assert s as int % 65536 == s as int + 65536;
    }
  }

  /** Reference serialisation: two bytes per sample, low byte first. */
  function Encode(samples: seq<Int16>): (r: seq<Byte>)
    ensures |r| == 2 * |samples|
  {
    if samples == [] then [] else [LowByte(samples[0]), HighByte(samples[0])] + Encode(samples[1..])
  }

  /** Reference deserialisation of an even number of bytes, two bytes per sample. */
  function Decode(bytes: seq<Byte>): (r: seq<Int16>)
    requires |bytes| % 2 == 0
    ensures |r| == |bytes| / 2
  {
    if bytes == [] then [] else [SampleOf(bytes[0], bytes[1])] + Decode(bytes[2..])
  }

  /** Scaling of one decoded sample by 1/32768. */
  function Normalize(s: Int16): (x: Normalized)
    ensures -1.0 <= x < 1.0
    ensures x * 32768.0 == s as real
  {
    s as real / 32768.0
  }

  lemma {:induction false} EncodeAt(samples: seq<Int16>, i: nat)
    requires i < |samples|
    ensures Encode(samples)[2 * i] == LowByte(samples[i])
    ensures Encode(samples)[2 * i + 1] == HighByte(samples[i])
  {
    if i > 0 {
      EncodeAt(samples[1..], i - 1);
    }
  }

  lemma {:induction false} DecodeAt(bytes: seq<Byte>, i: nat)
    requires |bytes| % 2 == 0 && i < |bytes| / 2
    ensures Decode(bytes)[i] == SampleOf(bytes[2 * i], bytes[2 * i + 1])
  {
    if i > 0 {
      DecodeAt(bytes[2..], i - 1);
    }
  }

  /** Decoding what `int16ToByte` produced recovers every sample, in order. */
  lemma {:induction false} DecodeEncode(samples: seq<Int16>)
    ensures Decode(Encode(samples)) == samples
  {
    if samples != [] {
      var e := Encode(samples);
      assert e[2..] == Encode(samples[1..]);
      DecodeEncode(samples[1..]);
      SampleBytes(samples[0]);
    }
  }

  /** Encoding a decoded byte string gives back the same bytes. */
  lemma {:induction false} EncodeDecode(bytes: seq<Byte>)
    requires |bytes| % 2 == 0
    ensures Encode(Decode(bytes)) == bytes
  {
    if bytes != [] {
      var s := SampleOf(bytes[0], bytes[1]);
      SampleBytes(s);
      assert LowByte(s) == bytes[0] && HighByte(s) == bytes[1] by {
        var u := bytes[0] as int + 256 * bytes[1] as int;
        assert s as int % 65536 == u;
      }
      EncodeDecode(bytes[2..]);
      assert Decode(bytes)[1..] == Decode(bytes[2..]);
    }
  }

  /**
   * `int16ToByte` (main.go:162-169): a fresh buffer of twice the length, filled
   * pairwise by index.
   */
  method Int16ToByte(samples: seq<Int16>) returns (buf: seq<Byte>)
    ensures |buf| == 2 * |samples|
    ensures forall i :: 0 <= i < |samples| ==>
      buf[2 * i] == LowByte(samples[i]) && buf[2 * i + 1] == HighByte(samples[i])
    ensures forall i :: 0 <= i < |samples| ==> buf[2 * i] as int + 256 * buf[2 * i + 1] as int == samples[i] as int % 65536
    ensures buf == Encode(samples)
  {
    var a := new Byte[2 * |samples|];
    for i := 0 to |samples|
      invariant forall j :: 0 <= j < i ==> a[2 * j] == LowByte(samples[j]) && a[2 * j + 1] == HighByte(samples[j])
    {
      a[2 * i] := LowByte(samples[i]);
      a[2 * i + 1] := HighByte(samples[i]);
    }
    buf := a[..];
    forall i | 0 <= i < |samples|
      ensures buf[2 * i] as int + 256 * buf[2 * i + 1] as int == samples[i] as int % 65536
    {
      SampleBytes(samples[i]);
    }
    forall k | 0 <= k < |buf|
      ensures buf[k] == Encode(samples)[k]
    {
      EncodeAt(samples, k / 2);
    }
  }

  /** Every sample scaled by 1/32768, in order. */
  function NormalizeAll(samples: seq<Int16>): (r: seq<Normalized>)
    ensures |r| == |samples|
    ensures forall i :: 0 <= i < |r| ==> -1.0 <= r[i] < 1.0
  {
    seq(|samples|, i requires 0 <= i < |samples| => Normalize(samples[i]))
  }

  /**
   * `pcmToFloat32Array` (main.go:178-191): an odd byte count is an error;
   * otherwise sample i is read little-endian from bytes 2i and 2i+1 and scaled.
   * The per-sample read error of the source cannot occur: the reader holds
   * exactly two bytes for each sample read.
   */
  method PcmToFloat32Array(pcm: seq<Byte>) returns (r: Result<seq<Normalized>>)
    ensures r.Failure? <==> |pcm| % 2 != 0
    ensures r.Success? ==> |r.value| == |pcm| / 2
    ensures r.Success? ==> forall i :: 0 <= i < |r.value| ==>
      r.value[i] == Normalize(SampleOf(pcm[2 * i], pcm[2 * i + 1])) && -1.0 <= r.value[i] < 1.0
    ensures r.Success? ==> r.value == NormalizeAll(Decode(pcm))
  {
    if |pcm| % 2 != 0 {
      return Failure("pcm data length must be even");
    }
    var out := new Normalized[|pcm| / 2];
    var pos := 0;
    for i := 0 to out.Length
      invariant pos == 2 * i
      invariant forall j :: 0 <= j < i ==> out[j] == Normalize(SampleOf(pcm[2 * j], pcm[2 * j + 1]))
    {
      var sample := SampleOf(pcm[pos], pcm[pos + 1]);
      pos := pos + 2;
      out[i] := Normalize(sample);
    }
    forall i | 0 <= i < out.Length
      ensures out[i] == NormalizeAll(Decode(pcm))[i]
    {
      DecodeAt(pcm, i);
    }
    r := Success(out[..]);
  }

  /**
   * What the capture loop does with one frame (main.go:87-89): serialise the
   * samples, then decode them. The decode never fails on serialised samples and
   * yields every sample scaled by 1/32768.
   */
  method CaptureFrame(samples: seq<Int16>) returns (data: seq<Byte>, r: Result<seq<Normalized>>)
    ensures data == Encode(samples)
    ensures r == Success(NormalizeAll(samples))
  {
    data := Int16ToByte(samples);
    r := PcmToFloat32Array(data);
    DecodeEncode(samples);
  }
}
