/**
 * Duration: a signed 64-bit count of nanoseconds, and its versioned
 * binary encoding (a version byte followed by the big-endian two's
 * complement of the value), as used by the gob hooks, plus the quote
 * check of the JSON decoder.
 */
module Durations {
  import opened Wrappers

  newtype byte = x: int | 0 <= x < 0x100

  newtype int64 = x: int | -0x8000_0000_0000_0000 <= x < 0x8000_0000_0000_0000

  /** Version tag stored in byte 0 of every binary encoding. */
  const DurationBinaryVersion: byte := 1

  /** One version byte and eight bytes of nanoseconds. */
  const EncodedLength: nat := 1 + 8

  const TwoTo63: int := 0x8000_0000_0000_0000
  const TwoTo64: int := 0x1_0000_0000_0000_0000

  /** 256^k for the byte positions of a 64-bit word. */
  const Shift8: int := 0x100
  const Shift16: int := 0x1_0000
  const Shift24: int := 0x100_0000
  const Shift32: int := 0x1_0000_0000
  const Shift40: int := 0x100_0000_0000
  const Shift48: int := 0x1_0000_0000_0000
  const Shift56: int := 0x100_0000_0000_0000

  /** The ASCII double quote that delimits a JSON string. */
  const Quote: byte := 0x22

  datatype DecodeError = NoData | UnsupportedVersion | InvalidLength

  datatype JsonError = InvalidJson | TextError

  lemma MulNonneg(a: int, b: int)
    requires a >= 0 && b >= 0
    ensures a * b >= 0
  {
  }

  lemma MulAwayFromZero(c: int, d: int)
    requires c > 0
    ensures d >= 1 ==> c * d >= c
    ensures d <= -1 ==> c * d <= -c
  {
    if d >= 1 {
      MulNonneg(c, d - 1);
    } else if d <= -1 {
      MulNonneg(c, -d - 1);
    }
  }

  /** Quotient and remainder are unique. */
  lemma Unique(x: int, c: int, q: int, r: int)
    requires c > 0 && x == c * q + r && 0 <= r < c
    ensures x / c == q && x % c == r
  {
    var q', r' := x / c, x % c;
    assert c * (q - q') == r' - r;
    MulAwayFromZero(c, q - q');
  }

  /** Shifting right by k + 8 bits is shifting by k bits, then by 8. */
  lemma DivDiv(x: int, c: int)
    requires c > 0
    ensures x / (c * 256) == (x / c) / 256
  {
    var q, r := x / c, x % c;
    var q2, r2 := q / 256, q % 256;
    assert x == (c * 256) * q2 + (c * r2 + r) by {
      assert x == c * q + r;
      assert q == 256 * q2 + r2;
      assert c * q == c * (256 * q2) + c * r2;
    }
    MulNonneg(c, r2);
    MulNonneg(c, 255 - r2);
    Unique(x, c * 256, q2, c * r2 + r);
  }

  /** The 64-bit two's complement of `d`, read as an unsigned number. */
  function TwosComplement(d: int64): (u: int)
    ensures 0 <= u < TwoTo64
    ensures d >= 0 ==> u == d as int
    ensures d < 0 ==> u == d as int + TwoTo64
  {
    d as int % TwoTo64
  }

  /** Go's `byte(x)` conversion keeps the low eight bits. */
  function LowByte(x: int): (b: byte)
    ensures 0 <= x < 0x100 ==> b as int == x
    ensures (x - b as int) % 0x100 == 0
  {
    (x % 0x100) as byte
  }

  /** Unsigned value of eight bytes, most significant first. */
  function BigEndian(b: seq<byte>): (u: int)
    requires |b| == 8
    ensures 0 <= u < TwoTo64
  {
    b[0] as int * Shift56 + b[1] as int * Shift48 + b[2] as int * Shift40 + b[3] as int * Shift32
    + b[4] as int * Shift24 + b[5] as int * Shift16 + b[6] as int * Shift8 + b[7] as int
  }

  /**
   * Reassembles the value: the eight shifted bytes occupy disjoint bits, so
   * their OR is their unsigned sum, and `int64(b0) << 56` wraps into the sign
   * bit, which reinterprets that sum as a two's complement number.
   */
  function FromBigEndian(b: seq<byte>): (d: int64)
    requires |b| == 8
    ensures TwosComplement(d) == BigEndian(b)
  {
    var u := BigEndian(b);
    if u >= TwoTo63 then (u - TwoTo64) as int64 else u as int64
  }

  /**
   * MarshalBinary: the version byte, then `byte(d >> 56)` … `byte(d)`. A right
   * shift of a signed int64 is floor division by a power of two. The source
   * never returns an error here, so the model returns the bytes alone.
   */
  function MarshalBinary(d: int64): (enc: seq<byte>)
    ensures |enc| == EncodedLength
    ensures enc[0] == DurationBinaryVersion
    ensures BigEndian(enc[1..]) == TwosComplement(d)
  {
    var x := d as int;
    var enc := [DurationBinaryVersion,
                LowByte(x / Shift56), LowByte(x / Shift48), LowByte(x / Shift40), LowByte(x / Shift32),
                LowByte(x / Shift24), LowByte(x / Shift16), LowByte(x / Shift8), LowByte(x)];
    assert IsWordBytes(x, enc[1..]);
    BytesOfWord(x, enc[1..]);
    enc
  }

  /** `b` holds `byte(x >> 56)`, `byte(x >> 48)`, …, `byte(x)`, in that order. */
  predicate IsWordBytes(x: int, b: seq<byte>)
    ensures IsWordBytes(x, b) && 0 <= x < 0x100 ==> b == [0, 0, 0, 0, 0, 0, 0, x as byte]
    ensures IsWordBytes(x, b) && -0x100 <= x < 0 ==> b[..7] == [0xff, 0xff, 0xff, 0xff, 0xff, 0xff, 0xff]
  {
    |b| == 8 &&
    b[0] == LowByte(x / Shift56) && b[1] == LowByte(x / Shift48) &&
    b[2] == LowByte(x / Shift40) && b[3] == LowByte(x / Shift32) &&
    b[4] == LowByte(x / Shift24) && b[5] == LowByte(x / Shift16) &&
    b[6] == LowByte(x / Shift8) && b[7] == LowByte(x)
  }

  /** The shifted low bytes of a signed word spell out its two's complement. */
  lemma BytesOfWord(x: int, b: seq<byte>)
    requires -TwoTo63 <= x < TwoTo63
    requires IsWordBytes(x, b)
    ensures BigEndian(b) == x % TwoTo64
  {
    DivDiv(x, Shift8);
    DivDiv(x, Shift16);
    DivDiv(x, Shift24);
    DivDiv(x, Shift32);
    DivDiv(x, Shift40);
    DivDiv(x, Shift48);
    DivDiv(x, Shift56);
    var y1, y2, y3, y4 := x / Shift8, x / Shift16, x / Shift24, x / Shift32;
    var y5, y6, y7, y8 := x / Shift40, x / Shift48, x / Shift56, x / TwoTo64;
    assert -1 <= y8 <= 0;
    assert x == 256 * y1 + x % 256;
    assert y1 == 256 * y2 + y1 % 256;
    assert y2 == 256 * y3 + y2 % 256;
    assert y3 == 256 * y4 + y3 % 256;
    assert y4 == 256 * y5 + y4 % 256;
    assert y5 == 256 * y6 + y5 % 256;
    assert y6 == 256 * y7 + y6 % 256;
    assert y7 == 256 * y8 + y7 % 256;
    assert BigEndian(b) == x - TwoTo64 * y8;
  }

  /** The bytes of a big-endian word are the shifted low bytes of its value. */
  lemma WordOfBytes(b: seq<byte>)
    requires |b| == 8
    ensures IsWordBytes(BigEndian(b), b)
  {
    var u := BigEndian(b);
    var p1 := b[0] as int;
    var p2 := 256 * p1 + b[1] as int;
    var p3 := 256 * p2 + b[2] as int;
    var p4 := 256 * p3 + b[3] as int;
    var p5 := 256 * p4 + b[4] as int;
    var p6 := 256 * p5 + b[5] as int;
    var p7 := 256 * p6 + b[6] as int;
    assert u == 256 * p7 + b[7] as int;
    Unique(u, 256, p7, b[7] as int);
    Unique(p7, 256, p6, b[6] as int);
    Unique(p6, 256, p5, b[5] as int);
    Unique(p5, 256, p4, b[4] as int);
    Unique(p4, 256, p3, b[3] as int);
    Unique(p3, 256, p2, b[2] as int);
    Unique(p2, 256, p1, b[1] as int);
    Unique(p1, 256, 0, b[0] as int);
    DivDiv(u, Shift8);
    DivDiv(u, Shift16);
    DivDiv(u, Shift24);
    DivDiv(u, Shift32);
    DivDiv(u, Shift40);
    DivDiv(u, Shift48);
  }

  /** Eight bytes are determined by their big-endian value. */
  lemma BigEndianInjective(a: seq<byte>, b: seq<byte>)
    requires |a| == |b| == 8 && BigEndian(a) == BigEndian(b)
    ensures a == b
  {
    WordOfBytes(a);
    WordOfBytes(b);
  }

  /**
   * UnmarshalBinary, as a function of the input: its three checks in the
   * source's order (empty, then version, then length), then the value.
   */
  function DecodeBinary(data: seq<byte>): (r: Result<int64, DecodeError>)
    ensures r == Failure(NoData) <==> |data| == 0
    ensures r == Failure(UnsupportedVersion) <==> |data| > 0 && data[0] != DurationBinaryVersion
    ensures r == Failure(InvalidLength) <==>
              |data| > 0 && data[0] == DurationBinaryVersion && |data| != EncodedLength
    ensures r.Success? ==> MarshalBinary(r.value) == data
  {
    if |data| == 0 then Failure(NoData)
    else if data[0] != DurationBinaryVersion then Failure(UnsupportedVersion)
    else if |data| != EncodedLength then Failure(InvalidLength)
    else
      var d := FromBigEndian(data[1..]);
      EncodingDeterminesBytes(MarshalBinary(d), data);
      Success(d)
  }

  /** Two encodings with the same version byte and the same value are equal. */
  lemma EncodingDeterminesBytes(a: seq<byte>, b: seq<byte>)
    requires |a| == |b| == EncodedLength && a[0] == b[0]
    requires BigEndian(a[1..]) == BigEndian(b[1..])
    ensures a == b
  {
    BigEndianInjective(a[1..], b[1..]);
    assert a == a[..1] + a[1..] && b == b[..1] + b[1..];
  }

  /** Decoding an encoding gives the value back, for every int64. */
  lemma RoundTrip(d: int64)
    ensures DecodeBinary(MarshalBinary(d)) == Success(d)
  {
  }

  /** The inputs UnmarshalBinary accepts as `d` are exactly the encoding of `d`. */
  lemma DecodesExactlyEncodings(data: seq<byte>, d: int64)
    ensures DecodeBinary(data) == Success(d) <==> data == MarshalBinary(d)
  {
    if data == MarshalBinary(d) {
      RoundTrip(d);
    }
  }

  /** One second, 1e9 = 0x3b9aca00 nanoseconds, is stored big-endian after the version byte. */
  lemma SecondEncoding()
    ensures MarshalBinary(1_000_000_000) == [1, 0, 0, 0, 0, 0x3b, 0x9a, 0xca, 0x00]
  {
  }

  /** Negative durations are stored in two's complement. */
  lemma NegativeEncodings()
    ensures MarshalBinary(-1) == [1, 0xff, 0xff, 0xff, 0xff, 0xff, 0xff, 0xff, 0xff]
    ensures MarshalBinary(-0x8000_0000_0000_0000) == [1, 0x80, 0, 0, 0, 0, 0, 0, 0]
  {
  }

  /** GobEncode delegates to MarshalBinary. */
  function GobEncode(d: int64): (enc: seq<byte>)
    ensures |enc| == EncodedLength && enc[0] == DurationBinaryVersion
    ensures BigEndian(enc[1..]) == TwosComplement(d)
  {
    MarshalBinary(d)
  }

  /** GobDecode delegates to UnmarshalBinary. */
  function DecodeGob(data: seq<byte>): (r: Result<int64, DecodeError>)
    ensures r.Failure? <==> |data| != EncodedLength || data[0] != DurationBinaryVersion
    ensures r.Success? ==> GobEncode(r.value) == data
  {
    DecodeBinary(data)
  }

  lemma GobRoundTrip(d: int64)
    ensures DecodeGob(GobEncode(d)) == Success(d)
  {
    RoundTrip(d);
  }

  /**
   * True when the source's UnmarshalJSON does not panic on `data`: indexing
   * byte 0 needs one byte, and slicing between the quotes needs two once both
   * end bytes are quotes.
   */
  predicate JsonIndexable(data: seq<byte>)
    ensures JsonIndexable(data) <==> data != [] && data != [Quote]
  {
    |data| >= 2 || (|data| == 1 && data[0] != Quote)
  }

  /**
   * UnmarshalJSON: reject unless the first and last bytes are quotes, then
   * hand the bytes strictly between them to the text parser `text`, which
   * stands for UnmarshalText (None when it fails).
   */
  function DecodeJson(data: seq<byte>, text: seq<byte> -> Option<int64>): (r: Result<int64, JsonError>)
    requires JsonIndexable(data)
    ensures r == Failure(InvalidJson) <==> data[0] != Quote || data[|data| - 1] != Quote
    ensures r.Success? ==> |data| >= 2 && text(data[1..|data| - 1]) == Some(r.value)
    ensures r == Failure(TextError) <==>
              data[0] == Quote && data[|data| - 1] == Quote && text(data[1..|data| - 1]).None?
  {
    if data[0] != Quote || data[|data| - 1] != Quote then Failure(InvalidJson)
    else
      match text(data[1..|data| - 1])
      case Some(d) => Success(d)
      case None => Failure(TextError)
  }

  /** Quoting any text and decoding it gives exactly what the text parser gives. */
  lemma QuotedText(t: seq<byte>, text: seq<byte> -> Option<int64>)
    ensures JsonIndexable([Quote] + t + [Quote])
    ensures DecodeJson([Quote] + t + [Quote], text) ==
              match text(t)
              case Some(d) => Success(d)
              case None => Failure(TextError)
  {
    var q := [Quote] + t + [Quote];
    assert q[1..|q| - 1] == t;
  }

  /**
   * A Duration variable, the target of the pointer-receiver decoders: each
   * writes the decoded value on success and leaves it alone on error.
   */
  class Duration {
    var value: int64

    constructor (value: int64)
      ensures this.value == value
    {
      this.value := value;
    }

    method UnmarshalBinary(data: seq<byte>) returns (err: Option<DecodeError>)
      modifies this
      ensures DecodeBinary(data).Success? ==> err == None && value == DecodeBinary(data).value
      ensures DecodeBinary(data).Failure? ==> err == Some(DecodeBinary(data).error) && value == old(value)
    {
      match DecodeBinary(data)
      case Success(d) =>
        value := d;
        err := None;
      case Failure(e) =>
        err := Some(e);
    }

    method GobDecode(data: seq<byte>) returns (err: Option<DecodeError>)
      modifies this
      ensures DecodeGob(data).Success? ==> err == None && value == DecodeGob(data).value
      ensures DecodeGob(data).Failure? ==> err == Some(DecodeGob(data).error) && value == old(value)
    {
      err := UnmarshalBinary(data);
    }

    method UnmarshalJSON(data: seq<byte>, text: seq<byte> -> Option<int64>) returns (err: Option<JsonError>)
      requires JsonIndexable(data)
      modifies this
      ensures DecodeJson(data, text).Success? ==> err == None && value == DecodeJson(data, text).value
      ensures DecodeJson(data, text).Failure? ==> err == Some(DecodeJson(data, text).error) && value == old(value)
    {
      match DecodeJson(data, text)
      case Success(d) =>
        value := d;
        err := None;
      case Failure(e) =>
        err := Some(e);
    }
  }
}
