/** The byte-decoding tail of `Wave::Load`: the fetched payload loses a fixed
    header, and every remaining byte, read as unsigned 8-bit PCM, becomes one
    sample `(b - 128) / 128`. Fetching the payload is not modelled. */
module Loader {
  import opened Samples

  /** Bytes the class skips before the first sample. */
  const WavHeaderSize: nat := 48

  type Byte = b: int | 0 <= b < 256

  /** One unsigned 8-bit PCM byte as a sample. */
  function DecodeSample(b: Byte): (x: real)
    ensures -1.0 <= x <= 127.0 / 128.0
    ensures x * 128.0 + 128.0 == b as real
  {
    ((b as int - 128) as real) / 128.0
  }

  function DecodeBytes(p: seq<Byte>): (r: Buffer)
    ensures |r| == |p|
    ensures forall i :: 0 <= i < |p| ==> r[i] == DecodeSample(p[i])
  {
    if |p| == 0 then [] else [DecodeSample(p[0])] + DecodeBytes(p[1..])
  }

  /** The samples `Load` stores for a payload: a payload no longer than the
      header yields none; otherwise one sample per byte after it. */
  function Decode(payload: seq<Byte>): (r: Buffer)
    ensures |r| == if |payload| > WavHeaderSize then |payload| - WavHeaderSize else 0
    ensures forall i :: 0 <= i < |r| ==>
      r[i] == ((payload[WavHeaderSize + i] as int - 128) as real) / 128.0
    ensures forall i :: 0 <= i < |r| ==> -1.0 <= r[i] <= 127.0 / 128.0
  {
    if |payload| <= WavHeaderSize then [] else DecodeBytes(payload[WavHeaderSize..])
  }

  /** The inverse of `DecodeSample` on the samples it produces. */
  function EncodeSample(x: real): int
  {
    (x * 128.0).Floor + 128
  }

  function EncodeBytes(r: Buffer): (p: seq<int>)
    ensures |p| == |r|
    ensures forall i :: 0 <= i < |r| ==> p[i] == EncodeSample(r[i])
  {
    if |r| == 0 then [] else [EncodeSample(r[0])] + EncodeBytes(r[1..])
  }

  lemma SampleRoundTrip(b: Byte)
    ensures EncodeSample(DecodeSample(b)) == b
  {
    assert DecodeSample(b) * 128.0 == (b as int - 128) as real;
  }

  /** Decoding loses nothing: re-encoding the samples gives back exactly the
      bytes after the header. */
  lemma DecodeRoundTrip(payload: seq<Byte>)
    requires |payload| > WavHeaderSize
    ensures EncodeBytes(Decode(payload)) == payload[WavHeaderSize..]
  {
    var r := Decode(payload);
    forall i | 0 <= i < |r|
      ensures EncodeBytes(r)[i] == payload[WavHeaderSize + i]
    {
      SampleRoundTrip(payload[WavHeaderSize + i]);
    }
  }

  /** Distinct bytes decode to distinct samples. */
  lemma DecodeSampleInjective(a: Byte, b: Byte)
    requires DecodeSample(a) == DecodeSample(b)
    ensures a == b
  {
    SampleRoundTrip(a);
    SampleRoundTrip(b);
  }
}
