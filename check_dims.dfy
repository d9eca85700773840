/** Model of the header decode in check_dims.js: the first 24 bytes of a file are
    read into a zero-filled buffer, the PNG signature is compared through its
    lower-case hex spelling, and the IHDR width and height are read as big-endian
    unsigned 32-bit integers at offsets 16 and 20 (sections 5.2 and 11.2.2 of the
    W3C PNG Specification, Second Edition). The chunk length and chunk type at
    bytes 8-15 are not inspected. */
module PngHeader {
  import opened Wrappers

  type Byte = b: int | 0 <= b < 0x100

  /** Size of the buffer `Buffer.alloc(24)`. */
  const HeaderSize: nat := 24
  const WidthOffset: nat := 16
  const HeightOffset: nat := 20
  const TwoTo32: nat := 0x1_0000_0000

  /** The eight signature bytes every PNG file starts with. */
  const Signature: seq<Byte> := [0x89, 0x50, 0x4E, 0x47, 0x0D, 0x0A, 0x1A, 0x0A]

  /** The string the signature is compared with. */
  const SignatureHex: string := "89504e470d0a1a0a"

  datatype Dimensions = Dimensions(width: nat, height: nat)

  /** One lower-case hexadecimal digit, as `Buffer.toString("hex")` writes it. */
  function HexDigit(d: int): (c: char)
    requires 0 <= d < 16
    ensures '0' <= c <= '9' || 'a' <= c <= 'f'
  {
    if d < 10 then ('0' as int + d) as char else ('a' as int + d - 10) as char
  }

  /** `buffer.toString("hex", 0, n)` on the first n bytes: two digits per byte, high nibble first. */
  function Hex(bytes: seq<Byte>): (s: string)
    ensures |s| == 2 * |bytes|
    ensures forall i :: 0 <= i < |bytes| ==>
      s[2 * i] == HexDigit(bytes[i] / 16) && s[2 * i + 1] == HexDigit(bytes[i] % 16)
  {
    if bytes == [] then ""
    else [HexDigit(bytes[0] / 16), HexDigit(bytes[0] % 16)] + Hex(bytes[1..])
  }

  lemma HexDigitInjective(d: int, e: int)
    requires 0 <= d < 16 && 0 <= e < 16
    ensures HexDigit(d) == HexDigit(e) ==> d == e
  {
  }

  /** Two byte strings of the same length have the same hex spelling only if they are equal. */
  lemma HexInjective(a: seq<Byte>, b: seq<Byte>)
    requires |a| == |b|
    ensures Hex(a) == Hex(b) ==> a == b
  {
    if Hex(a) == Hex(b) {
      forall i | 0 <= i < |a| ensures a[i] == b[i] {
        assert Hex(a)[2 * i] == Hex(b)[2 * i];
        assert Hex(a)[2 * i + 1] == Hex(b)[2 * i + 1];
        HexDigitInjective(a[i] / 16, b[i] / 16);
        HexDigitInjective(a[i] % 16, b[i] % 16);
      }
    }
  }

  /** The string comparison at check_dims.js:13 accepts exactly the signature bytes. */
  lemma SignatureCheck(head: seq<Byte>)
    requires |head| == 8
    ensures Hex(head) == SignatureHex <==> head == Signature
  {
    var h := Hex(Signature);
    forall i | 0 <= i < 16 ensures h[i] == SignatureHex[i] {
      assert h[2 * (i / 2) + i % 2] == h[i];
    }
    assert h == SignatureHex;
    HexInjective(head, Signature);
  }

  /** `buffer.readUInt32BE(offset)`. */
  function ReadUInt32BE(buf: seq<Byte>, offset: nat): (n: nat)
    requires offset + 4 <= |buf|
    ensures n < TwoTo32
  {
    buf[offset] as int * 0x100_0000 + buf[offset + 1] as int * 0x1_0000
      + buf[offset + 2] as int * 0x100 + buf[offset + 3] as int
  }

  /** The four big-endian bytes of an unsigned 32-bit integer. */
  function BigEndian32(n: nat): (b: seq<Byte>)
    requires n < TwoTo32
    ensures |b| == 4
  {
    [n / 0x100_0000, n / 0x1_0000 % 0x100, n / 0x100 % 0x100, n % 0x100]
  }

  lemma ReadOfBigEndian(n: nat)
    requires n < TwoTo32
    ensures ReadUInt32BE(BigEndian32(n), 0) == n
  {
  }

  lemma {:induction false} BigEndianOfRead(buf: seq<Byte>, offset: nat)
    requires offset + 4 <= |buf|
    ensures BigEndian32(ReadUInt32BE(buf, offset)) == buf[offset..offset + 4]
  {
    var n := ReadUInt32BE(buf, offset);
    var a, b, c, d: int := buf[offset], buf[offset + 1], buf[offset + 2], buf[offset + 3];
    DivModUnique(a, b * 0x1_0000 + c * 0x100 + d, 0x100_0000);
    DivModUnique(a * 0x100 + b, c * 0x100 + d, 0x1_0000);
    DivModUnique(a * 0x1_0000 + b * 0x100 + c, d, 0x100);
    DivModUnique(a, b, 0x100);
    DivModUnique(a * 0x100 + b, c, 0x100);
  }

  /** Quotient and remainder are determined by any decomposition n = q * m + r with 0 <= r < m. */
  lemma DivModUnique(q: int, r: int, m: int)
    requires m > 0 && 0 <= r < m
    ensures (q * m + r) / m == q && (q * m + r) % m == r
  {
    var n := q * m + r;
    var q', r' := n / m, n % m;
    assert n == q' * m + r' && 0 <= r' < m;
    assert (q - q') * m == r' - r;
    if q - q' >= 1 {
      assert false;
    } else if q - q' <= -1 {
      assert false;
    }
  }

  /** The buffer after `Buffer.alloc(24)` and `fs.readSync(fd, buffer, 0, 24, 0)`:
      the file's first bytes, and zeros where the file is shorter. */
  function FillBuffer(file: seq<Byte>): (buf: seq<Byte>)
    ensures |buf| == HeaderSize
    ensures forall i :: 0 <= i < HeaderSize ==> buf[i] == if i < |file| then file[i] else 0
  {
    if |file| >= HeaderSize then file[..HeaderSize]
    else file + seq(HeaderSize - |file|, _ => 0 as Byte)
  }

  /** The decode of check_dims.js:13-20 on the filled buffer: `null` unless the
      signature matches, otherwise the IHDR width and height. */
  function DecodeHeader(buf: seq<Byte>): (r: Option<Dimensions>)
    requires |buf| == HeaderSize
    ensures r.Some? <==> buf[..8] == Signature
    ensures r.Some? ==> r.value.width < TwoTo32 && r.value.height < TwoTo32
    ensures r.Some? ==> BigEndian32(r.value.width) == buf[WidthOffset..WidthOffset + 4]
    ensures r.Some? ==> BigEndian32(r.value.height) == buf[HeightOffset..HeightOffset + 4]
  {
    SignatureCheck(buf[..8]);
    if Hex(buf[..8]) != SignatureHex then None
    else
      BigEndianOfRead(buf, WidthOffset);
      BigEndianOfRead(buf, HeightOffset);
      Some(Dimensions(ReadUInt32BE(buf, WidthOffset), ReadUInt32BE(buf, HeightOffset)))
  }

  /** `getPngDimensions` on a file's contents, without the file I/O: a result exactly
      when the file starts with the signature. A file shorter than the signature is
      never taken for a PNG, because the zero bytes that stand in for its missing
      bytes differ from every signature byte. */
  function GetPngDimensions(file: seq<Byte>): (r: Option<Dimensions>)
    ensures r.Some? <==> |file| >= 8 && file[..8] == Signature
  {
    var buf := FillBuffer(file);
    assert |file| < 8 ==> buf[..8][|file|] == 0 != Signature[|file|];
    assert |file| >= 8 ==> buf[..8] == file[..8];
    DecodeHeader(buf)
  }

  /** Only the first 24 bytes of a file take part in the decode. */
  lemma FirstBytesOnly(file: seq<Byte>, other: seq<Byte>)
    requires |file| >= HeaderSize && |other| >= HeaderSize
    requires file[..HeaderSize] == other[..HeaderSize]
    ensures GetPngDimensions(file) == GetPngDimensions(other)
  {
    assert FillBuffer(file) == FillBuffer(other);
  }

  /** A header laid out as the PNG standard prescribes: the signature, eight bytes of
      chunk length and type, then the width and height in big-endian order. */
  function EncodeHeader(d: Dimensions, chunkPrefix: seq<Byte>): (bytes: seq<Byte>)
    requires d.width < TwoTo32 && d.height < TwoTo32
    requires |chunkPrefix| == 8
    ensures |bytes| == HeaderSize
  {
    Signature + chunkPrefix + BigEndian32(d.width) + BigEndian32(d.height)
  }

  /** Decoding an encoded header, followed by anything, gives back its dimensions,
      whatever the chunk length and type bytes hold. */
  lemma DecodeEncodedHeader(d: Dimensions, chunkPrefix: seq<Byte>, rest: seq<Byte>)
    requires d.width < TwoTo32 && d.height < TwoTo32
    requires |chunkPrefix| == 8
    ensures GetPngDimensions(EncodeHeader(d, chunkPrefix) + rest) == Some(d)
  {
    var header := EncodeHeader(d, chunkPrefix);
    var buf := FillBuffer(header + rest);
    assert buf == header;
    assert buf[..8] == Signature;
    ReadOfBigEndian(d.width);
    ReadOfBigEndian(d.height);
    assert buf[WidthOffset..WidthOffset + 4] == BigEndian32(d.width);
    assert buf[HeightOffset..HeightOffset + 4] == BigEndian32(d.height);
    BigEndianInjective(d.width, ReadUInt32BE(buf, WidthOffset));
    BigEndianInjective(d.height, ReadUInt32BE(buf, HeightOffset));
    BigEndianOfRead(buf, WidthOffset);
    BigEndianOfRead(buf, HeightOffset);
  }

  lemma BigEndianInjective(m: nat, n: nat)
    requires m < TwoTo32 && n < TwoTo32
    ensures BigEndian32(m) == BigEndian32(n) ==> m == n
  {
    ReadOfBigEndian(m);
    ReadOfBigEndian(n);
  }
}
