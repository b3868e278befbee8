/** Turning base64 text into a mono 24 kHz audio buffer: `decodeGreeting` in src/hooks/useGreeting.js, and the
    identical decode inlined in the drain loop of both playback revisions. */
module Pcm {
  import opened Wrappers
  import opened Base64
  import JsText

  /** The fixed rate of the speech stream and of every buffer the client creates. */
  const SampleRate: nat := 24000

  /** Why a decode fails: no stored greeting, `atob` throws, `new Int16Array` throws on an odd byte
      length (RangeError), or `createBuffer` throws on a zero-length buffer (NotSupportedError). */
  datatype DecodeError = NoGreetingAudio | InvalidBase64 | OddByteLength | EmptyBuffer

  /** The fields of a Web Audio `AudioBuffer` the client sets: channel count, rate, and the values of channel 0. */
  datatype AudioBuffer = AudioBuffer(numberOfChannels: nat, sampleRate: nat, channel: seq<real>)

  /** Storing a character code into a `Uint8Array` keeps it modulo 256. */
  function ByteOfCode(c: char): (b: Byte)
    ensures b as int == c as int % 256
  {
    ByteOf(c as int % 256)
  }

  /** The little-endian signed 16-bit value of two bytes, as `Int16Array` reads them on a little-endian host. */
  function Int16LE(lo: Byte, hi: Byte): (v: int)
    ensures -32768 <= v < 32768
  {
    var u := lo as int + 256 * hi as int;
    if u >= 32768 then u - 65536 else u
  }

  /** The samples of a byte sequence of even length, one per byte pair. */
  function Samples(bytes: seq<Byte>): (pcm: seq<int>)
    requires |bytes| % 2 == 0
    ensures |pcm| == |bytes| / 2
  {
    seq(|bytes| / 2, i requires 0 <= i < |bytes| / 2 => Int16LE(bytes[2 * i], bytes[2 * i + 1]))
  }

  /** `sample / 32768.0`. The quotient of a 16-bit integer by 2^15 is exact in a 32-bit float, so the real
      number is the value the browser stores. */
  function Normalise(sample: int): real {
    sample as real / 32768.0
  }

  /** The specification of one decode: `atob`, one byte per character, samples, then one normalised value
      each in a mono buffer at 24000 Hz. */
  function DecodeAudio(text: string): Result<AudioBuffer, DecodeError> {
    match Atob(text)
    case None => Err(InvalidBase64)
    case Some(bin) =>
      var bytes := CodeUnits(bin);
      if |bytes| % 2 != 0 then Err(OddByteLength)
      else
        var pcm := Samples(bytes);
        if |pcm| == 0 then Err(EmptyBuffer)
        else Ok(AudioBuffer(1, SampleRate, Channel(pcm)))
  }

  /** The `Uint8Array` filled from a binary string. */
  function CodeUnits(bin: string): (bytes: seq<Byte>)
    ensures |bytes| == |bin|
  {
    seq(|bin|, i requires 0 <= i < |bin| => ByteOfCode(bin[i]))
  }

  /** The channel data filled from the samples. */
  function Channel(pcm: seq<int>): (values: seq<real>)
    ensures |values| == |pcm|
  {
    seq(|pcm|, i requires 0 <= i < |pcm| => Normalise(pcm[i]))
  }

  /** The number of frames a chunk decodes to, 0 when its decode fails; it depends only on the length of
      the base64 text, so it is stated without decoding (`FrameCountDecodes` relates the two). */
  function FrameCount(text: string): nat {
    var s := StripPadding(RemoveAsciiWhitespace(text));
    if |s| % 4 == 1 || !AllBase64(s) then 0
    else
      var n := DecodedLength(|s|);
      if n % 2 != 0 then 0 else n / 2
  }

  /** The frame count is positive exactly when the decode succeeds, and then it is the buffer's length. */
  lemma FrameCountDecodes(text: string)
    ensures FrameCount(text) > 0 <==> DecodeAudio(text).Ok?
    ensures DecodeAudio(text).Ok? ==> FrameCount(text) == |DecodeAudio(text).value.channel|
  {
    var s := StripPadding(RemoveAsciiWhitespace(text));
    if |s| % 4 != 1 && AllBase64(s) {
      DecodeSextetsLength(s);
      assert |Atob(text).value| == DecodedLength(|s|);
    }
  }

  /** The greeting decode: no audio stored (null or empty) is an error; otherwise every `\s` character is
      removed before the decode. */
  function GreetingAudio(stored: Option<string>): Result<AudioBuffer, DecodeError> {
    if stored == None || stored == Some("") then Err(NoGreetingAudio)
    else DecodeAudio(JsText.RemoveSpaces(stored.value))
  }

  /** The decode in the drain loop: `atob`, then the `Uint8Array`, the `Int16Array` view and the channel. */
  method DecodeChunk(text: string) returns (r: Result<AudioBuffer, DecodeError>)
    ensures r == DecodeAudio(text)
  {
    var decoded := Atob(text);
    if decoded.None? {
      return Err(InvalidBase64);
    }
    var bytes := FillBytes(decoded.value);
    if bytes.Length % 2 != 0 {
      return Err(OddByteLength);
    }
    var pcm := Samples(bytes[..]);
    if |pcm| == 0 {
      return Err(EmptyBuffer);
    }
    var channel := FillChannel(pcm);
    r := Ok(AudioBuffer(1, SampleRate, channel[..]));
  }

  /** The loop storing each character code of the binary string into a fresh `Uint8Array`. */
  method FillBytes(bin: string) returns (bytes: array<Byte>)
    ensures fresh(bytes) && bytes[..] == CodeUnits(bin)
  {
    bytes := new Byte[|bin|];
    for i := 0 to |bin|
      invariant forall k :: 0 <= k < i ==> bytes[k] == ByteOfCode(bin[k])
    {
      bytes[i] := ByteOfCode(bin[i]);
    }
  }

  /** The loop writing each sample divided by 32768 into the channel data. */
  method FillChannel(pcm: seq<int>) returns (channel: array<real>)
    ensures fresh(channel) && channel[..] == Channel(pcm)
  {
    channel := new real[|pcm|];
    for i := 0 to |pcm|
      invariant forall k :: 0 <= k < i ==> channel[k] == Normalise(pcm[k])
    {
      channel[i] := pcm[i] as real / 32768.0;
    }
  }

  /** The decode inside the drain loop's `try`: the length of the decoded buffer, or 0 when the decode
      throws and the chunk is dropped by the `catch`. */
  method DecodeFrames(text: string) returns (frames: nat)
    ensures frames == FrameCount(text)
  {
    var decoded := DecodeChunk(text);
    FrameCountDecodes(text);
    frames := if decoded.Ok? then |decoded.value.channel| else 0;
  }

  /** `decodeGreeting`: the stored text, spaces stripped, decoded. */
  method DecodeGreeting(stored: Option<string>) returns (r: Result<AudioBuffer, DecodeError>)
    ensures r == GreetingAudio(stored)
  {
    if stored == None || stored == Some("") {
      return Err(NoGreetingAudio);
    }
    var clean := JsText.RemoveSpaces(stored.value);
    r := DecodeChunk(clean);
  }

  /** What a successful decode contains: one channel at 24000 Hz, one value per byte pair of the decoded
      text, each the little-endian sample of its pair divided by 32768 and so within [-1, 1). */
  lemma DecodedBuffer(text: string)
    requires DecodeAudio(text).Ok?
    ensures var buf := DecodeAudio(text).value;
            var bin := Atob(text).value;
            && buf.numberOfChannels == 1 && buf.sampleRate == SampleRate
            && |bin| % 2 == 0 && |buf.channel| == |bin| / 2 > 0
            && forall i :: 0 <= i < |buf.channel| ==>
                 && buf.channel[i] * 32768.0 == Int16LE(ByteOfCode(bin[2 * i]), ByteOfCode(bin[2 * i + 1])) as real
                 && -1.0 <= buf.channel[i] < 1.0
  {
    var buf := DecodeAudio(text).value;
    var bin := Atob(text).value;
    forall i | 0 <= i < |buf.channel|
      ensures buf.channel[i] * 32768.0 == Int16LE(ByteOfCode(bin[2 * i]), ByteOfCode(bin[2 * i + 1])) as real
      ensures -1.0 <= buf.channel[i] < 1.0
    {
      NormaliseRange(Int16LE(ByteOfCode(bin[2 * i]), ByteOfCode(bin[2 * i + 1])));
    }
  }

  lemma CodeIsByte(c: char)
    requires c as int < 256
    ensures ByteOfCode(c) as int == c as int
  {
  }

  /** A 16-bit sample normalises into [-1, 1), and the sample can be recovered from the value. */
  lemma NormaliseRange(sample: int)
    requires -32768 <= sample < 32768
    ensures -1.0 <= Normalise(sample) < 1.0
    ensures Normalise(sample) * 32768.0 == sample as real
  {
  }

  /** The two's-complement reading of a 16-bit sample. */
  function Unsigned16(sample: int): (u: int)
    requires -32768 <= sample < 32768
    ensures 0 <= u < 65536
  {
    if sample < 0 then sample + 65536 else sample
  }

  /** The two little-endian bytes of a 16-bit sample. */
  function LowByte(sample: int): Byte
    requires -32768 <= sample < 32768
  {
    ByteOf(Unsigned16(sample) % 256)
  }

  function HighByte(sample: int): Byte
    requires -32768 <= sample < 32768
  {
    ByteOf(Unsigned16(sample) / 256)
  }

  /** The bytes of a sample sequence, low byte first. */
  function PcmBytes(samples: seq<int>): (bytes: seq<Byte>)
    requires forall i :: 0 <= i < |samples| ==> -32768 <= samples[i] < 32768
    ensures |bytes| == 2 * |samples|
  {
    if samples == [] then []
    else [LowByte(samples[0]), HighByte(samples[0])] + PcmBytes(samples[1..])
  }

  /** Reading a sample's two bytes back gives the sample. */
  lemma Int16RoundTrip(sample: int)
    requires -32768 <= sample < 32768
    ensures Int16LE(LowByte(sample), HighByte(sample)) == sample
  {
    DivMod256(Unsigned16(sample));
  }

  lemma DivMod256(u: int)
    requires 0 <= u < 65536
    ensures u == 256 * (u / 256) + u % 256 && 0 <= u / 256 < 256 && 0 <= u % 256 < 256
  {
  }

  lemma SampleAt(bytes: seq<Byte>, i: nat)
    requires |bytes| % 2 == 0 && i < |bytes| / 2
    ensures 2 * i + 1 < |bytes| && Samples(bytes)[i] == Int16LE(bytes[2 * i], bytes[2 * i + 1])
  {
  }

  lemma HalfOfDouble(m: nat, n: nat)
    requires m == 2 * n
    ensures m % 2 == 0 && m / 2 == n
  {
  }

  lemma {:induction false} PcmBytesAt(samples: seq<int>, i: nat)
    requires forall k :: 0 <= k < |samples| ==> -32768 <= samples[k] < 32768
    requires i < |samples|
    ensures PcmBytes(samples)[2 * i] == LowByte(samples[i])
    ensures PcmBytes(samples)[2 * i + 1] == HighByte(samples[i])
  {
    if i > 0 {
      PcmBytesAt(samples[1..], i - 1);
    }
  }

  /** The end-to-end round trip: base64 text made from a non-empty run of 16-bit samples decodes to the
      buffer that holds exactly those samples, normalised, in order. */
  lemma DecodeEncodedSamples(samples: seq<int>)
    requires |samples| > 0
    requires forall i :: 0 <= i < |samples| ==> -32768 <= samples[i] < 32768
    ensures DecodeAudio(Btoa(PcmBytes(samples))) == Ok(AudioBuffer(1, SampleRate, Channel(samples)))
  {
    var b := PcmBytes(samples);
    AtobBtoa(b);
    CodeUnitsOfBinary(b);
    SamplesOfPcmBytes(samples);
  }

  lemma CodeUnitsOfBinary(b: seq<Byte>)
    ensures CodeUnits(BinaryString(b)) == b
  {
    var bin := BinaryString(b);
    forall i | 0 <= i < |b| ensures CodeUnits(bin)[i] == b[i] {
      CodeIsByte(bin[i]);
    }
  }

  lemma SampleOfPcmBytes(samples: seq<int>, i: nat)
    requires forall k :: 0 <= k < |samples| ==> -32768 <= samples[k] < 32768
    requires i < |samples|
    requires |PcmBytes(samples)| % 2 == 0
    ensures Samples(PcmBytes(samples))[i] == samples[i]
  {
    PcmBytesAt(samples, i);
    Int16RoundTrip(samples[i]);
    SampleAt(PcmBytes(samples), i);
  }

  lemma SamplesOfPcmBytes(samples: seq<int>)
    requires forall i :: 0 <= i < |samples| ==> -32768 <= samples[i] < 32768
    ensures Samples(PcmBytes(samples)) == samples
  {
    var bytes := PcmBytes(samples);
    var n := |samples|;
    HalfOfDouble(|bytes|, n);
    var pcm := Samples(bytes);
    assert |pcm| == n;
    forall i | 0 <= i < n ensures pcm[i] == samples[i] {
      SampleOfPcmBytes(samples, i);
    }
  }

  /** Whitespace anywhere in the stored greeting does not change what it decodes to. */
  lemma GreetingIgnoresSpace(before: string, after: string, c: char)
    requires JsText.IsJsSpace(c) && before + after != ""
    ensures GreetingAudio(Some(before + [c] + after)) == GreetingAudio(Some(before + after))
  {
    JsText.RemoveSpacesDropsSpace(before, after, c);
  }

  /** A greeting stored as the `btoa` of 16-bit samples plays exactly those samples. */
  lemma GreetingOfEncodedSamples(samples: seq<int>)
    requires |samples| > 0
    requires forall i :: 0 <= i < |samples| ==> -32768 <= samples[i] < 32768
    ensures GreetingAudio(Some(Btoa(PcmBytes(samples)))) == Ok(AudioBuffer(1, SampleRate, Channel(samples)))
  {
    var text := Btoa(PcmBytes(samples));
    assert text != "" by {
      EncodeUnpaddedLength(PcmBytes(samples));
    }
    BtoaHasNoJsSpace(PcmBytes(samples));
    JsText.RemoveSpacesIdentity(text);
    DecodeEncodedSamples(samples);
  }

  /** Padded base64 text holds no JavaScript whitespace. */
  lemma BtoaHasNoJsSpace(b: seq<Byte>)
    ensures JsText.NoJsSpace(Btoa(b))
  {
    var u := EncodeUnpadded(b);
    var e := Btoa(b);
    forall i | 0 <= i < |e| ensures !JsText.IsJsSpace(e[i]) {
      if i < |u| {
        assert IsBase64Char(u[i]);
      }
    }
  }
}
