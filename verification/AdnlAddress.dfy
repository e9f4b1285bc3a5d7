/** ADNL site addresses: base32 text around a tag byte, a 32-byte id and a CRC-16/XMODEM
    (proxy/transport/types.go). Registers and messages are bit strings, most significant bit first. */
module AdnlAddress {
  import opened GoTypes

  type Bits = seq<bool>
  type Register = r: Bits | |r| == 16 witness ToBits(0, 16)

  datatype AddressError = WrongIdLength | DecodeFailed | InvalidFirstByte | InvalidAddress

  // ---------------------------------------------------------------- bits and numbers

  function ToBits(n: nat, width: nat): (b: Bits)
    ensures |b| == width
  {
    if width == 0 then [] else ToBits(n / 2, width - 1) + [n % 2 == 1]
  }

  function FromBits(b: Bits): nat {
    if b == [] then 0 else 2 * FromBits(b[..|b| - 1]) + (if b[|b| - 1] then 1 else 0)
  }

  lemma {:induction false} FromBitsBound(b: Bits)
    ensures FromBits(b) < Pow2(|b|)
  {
    if b != [] { FromBitsBound(b[..|b| - 1]); }
  }

  lemma {:induction false} ToFromBits(b: Bits)
    ensures ToBits(FromBits(b), |b|) == b
  {
    if b != [] { ToFromBits(b[..|b| - 1]); }
  }

  lemma {:induction false} FromToBits(n: nat, width: nat)
    requires n < Pow2(width)
    ensures FromBits(ToBits(n, width)) == n
  {
    if width > 0 {
      FromToBits(n / 2, width - 1);
      assert ToBits(n, width)[..width - 1] == ToBits(n / 2, width - 1);
    }
  }

  lemma SmallPowers()
    ensures Pow2(5) == 32 && Pow2(8) == 256 && Pow2(16) == 65536
  {
    assert Pow2(4) == 16;
    assert Pow2(8) == 16 * Pow2(4) by { assert Pow2(6) == 4 * Pow2(4); }
    assert Pow2(12) == 16 * Pow2(8) by { assert Pow2(10) == 4 * Pow2(8); }
    assert Pow2(16) == 16 * Pow2(12) by { assert Pow2(14) == 4 * Pow2(12); }
  }

  /** The bits of a byte slice, first byte first. */
  function Unpack(bytes: seq<byte>): (b: Bits)
    ensures |b| == 8 * |bytes|
  {
    if bytes == [] then [] else ToBits(bytes[0], 8) + Unpack(bytes[1..])
  }

  function Pack(b: Bits): (bytes: seq<byte>)
    requires |b| % 8 == 0
    ensures 8 * |bytes| == |b|
  {
    if b == [] then []
    else
      FromBitsBound(b[..8]);
      SmallPowers();
      [FromBits(b[..8])] + Pack(b[8..])
  }

  lemma {:induction false} UnpackPack(b: Bits)
    requires |b| % 8 == 0
    ensures Unpack(Pack(b)) == b
  {
    if b != [] {
      UnpackPack(b[8..]);
      ToFromBits(b[..8]);
      assert Pack(b)[1..] == Pack(b[8..]);
      assert b == b[..8] + b[8..];
    }
  }

  lemma {:induction false} PackUnpack(bytes: seq<byte>)
    ensures Pack(Unpack(bytes)) == bytes
  {
    if bytes != [] {
      PackUnpack(bytes[1..]);
      SmallPowers();
      FromToBits(bytes[0], 8);
      assert Unpack(bytes)[..8] == ToBits(bytes[0], 8);
      assert Unpack(bytes)[8..] == Unpack(bytes[1..]);
    }
  }

  lemma {:induction false} UnpackAppend(a: seq<byte>, b: seq<byte>)
    ensures Unpack(a + b) == Unpack(a) + Unpack(b)
  {
    if a == [] {
      assert a + b == b;
    } else {
      UnpackAppend(a[1..], b);
      assert (a + b)[1..] == a[1..] + b;
    }
  }

  // ---------------------------------------------------------------- CRC-16/XMODEM

  const POLYNOMIAL: Register := ToBits(0x1021, 16)
  const ZERO: Register := [false, false, false, false, false, false, false, false,
                           false, false, false, false, false, false, false, false]

  function Xor(a: Bits, b: Bits): (r: Bits)
    requires |a| == |b|
    ensures |r| == |a|
  {
    seq(|a|, i requires 0 <= i < |a| => a[i] != b[i])
  }

  /** The register after one zero input bit. */
  function Shift(r: Register): Register {
    var shifted := r[1..] + [false];
    if r[0] then Xor(shifted, POLYNOMIAL) else shifted
  }

  function Feed(r: Register, bit: bool): Register {
    Shift(r[0 := r[0] != bit])
  }

  function Crc(r: Register, message: Bits): Register
    decreases |message|
  {
    if message == [] then r else Crc(Feed(r, message[0]), message[1..])
  }

  function Checksum(bytes: seq<byte>): (c: nat)
    ensures c < 65536
  {
    var r := Crc(ZERO, Unpack(bytes));
    FromBitsBound(r);
    SmallPowers();
    FromBits(r)
  }

  lemma PolynomialEndsInOne()
    ensures POLYNOMIAL[15]
  {
    assert ToBits(0x1021, 16) == ToBits(0x1021 / 2, 15) + [0x1021 % 2 == 1];
  }

  /** The two register steps agree on their last bit exactly when the tops, after input, agree;
      then the rest of the register moves up unchanged. */
  lemma FeedBackwards(r: Register, s: Register, x: bool, y: bool)
    requires Feed(r, x)[15] == Feed(s, y)[15]
    ensures (r[0] != x) == (s[0] != y)
    ensures forall i :: 0 <= i < 15 ==> ((Feed(r, x)[i] != Feed(s, y)[i]) == (r[i + 1] != s[i + 1]))
  {
    PolynomialEndsInOne();
  }

  lemma {:induction false} CrcAppend(r: Register, a: Bits, b: Bits)
    ensures Crc(r, a + b) == Crc(Crc(r, a), b)
    decreases |a|
  {
    if a == [] {
      assert a + b == b;
    } else {
      CrcAppend(Feed(r, a[0]), a[1..], b);
      assert (a + b)[1..] == a[1..] + b;
    }
  }

  /** Two runs over at most 16 bits that meet in one register: the registers they started from
      differ exactly where their inputs did. */
  lemma {:induction false} ShortInputsThatMeet(r: Register, s: Register, u: Bits, v: Bits)
    requires |u| == |v| <= 16
    requires Crc(r, u) == Crc(s, v)
    ensures forall i :: 0 <= i < |u| ==> ((r[i] != s[i]) == (u[i] != v[i]))
    ensures forall i :: |u| <= i < 16 ==> r[i] == s[i]
    decreases |u|
  {
    if u != [] {
      var r1, s1 := Feed(r, u[0]), Feed(s, v[0]);
      ShortInputsThatMeet(r1, s1, u[1..], v[1..]);
      assert r1[15] == s1[15];
      FeedBackwards(r, s, u[0], v[0]);
      forall i | 1 <= i < 16
        ensures (r[i] != s[i]) == (if i < |u| then u[i] != v[i] else false)
      {
        assert (r1[i - 1] != s1[i - 1]) == (r[i] != s[i]);
        assert i < |u| ==> u[1..][i - 1] == u[i] && v[1..][i - 1] == v[i];
      }
    }
  }

  /** Registers that differ exactly where their inputs do meet. */
  lemma {:induction false} DifferingAlikeMeet(r: Register, s: Register, u: Bits, v: Bits)
    requires |u| == |v| <= 16
    requires forall i :: 0 <= i < |u| ==> ((r[i] != s[i]) == (u[i] != v[i]))
    requires forall i :: |u| <= i < 16 ==> r[i] == s[i]
    ensures Crc(r, u) == Crc(s, v)
    decreases |u|
  {
    if u == [] {
      assert r == s;
    } else {
      DifferingAlikeMeet(Feed(r, u[0]), Feed(s, v[0]), u[1..], v[1..]);
    }
  }

  /** On a common input the register is a one-to-one function of where it started. */
  lemma {:induction false} CrcInjective(r: Register, s: Register, message: Bits)
    requires Crc(r, message) == Crc(s, message)
    ensures r == s
    decreases |message|
  {
    if message != [] {
      var r1, s1 := Feed(r, message[0]), Feed(s, message[0]);
      CrcInjective(r1, s1, message[1..]);
      FeedBackwards(r, s, message[0], message[0]);
      forall i | 0 <= i < 16 ensures r[i] == s[i] {
        if i > 0 { assert (r1[i - 1] != s1[i - 1]) == (r[i] != s[i]); }
      }
    }
  }

  /** Feeding a register its own bits empties it. */
  lemma {:induction false} CrcOfItself(r: Register, k: nat)
    requires k <= 16
    requires forall i :: k <= i < 16 ==> !r[i]
    ensures Crc(r, r[..k]) == ZERO
    decreases k
  {
    if k == 0 {
      assert r == ZERO;
    } else {
      var r1 := Feed(r, r[0]);
      assert r1 == r[1..] + [false];
      CrcOfItself(r1, k - 1);
      assert r[..k][1..] == r1[..k - 1];
    }
  }

  /** A 16-bit trailer brings the register to zero exactly when it is the register itself. */
  lemma ZeroRemainder(r: Register, trailer: Register)
    ensures Crc(r, trailer) == ZERO <==> trailer == r
  {
    assert trailer[..16] == trailer;
    CrcOfItself(trailer, 16);
    if Crc(r, trailer) == ZERO {
      ShortInputsThatMeet(r, trailer, trailer, trailer);
    }
  }

  /** Seventeen bits, changed where the whole polynomial has ones. */
  function Disguised(u: Bits): (v: Bits)
    requires |u| == 17
    ensures |v| == 17
  {
    [!u[0]] + Xor(u[1..], POLYNOMIAL)
  }

  /** Such a change goes unnoticed, wherever it is. */
  lemma DisguiseUnnoticed(before: Bits, u: Bits, after: Bits)
    requires |u| == 17
    ensures Crc(ZERO, before + u + after) == Crc(ZERO, before + Disguised(u) + after)
  {
    var r, v := Crc(ZERO, before), Disguised(u);
    assert v[1..] == Xor(u[1..], POLYNOMIAL);
    DifferingAlikeMeet(Feed(r, u[0]), Feed(r, v[0]), u[1..], v[1..]);
    CrcAppend(ZERO, before, u);
    CrcAppend(ZERO, before, v);
    CrcAppend(ZERO, before + u, after);
    CrcAppend(ZERO, before + v, after);
  }

  function BigEndian(high: int, low: int): int {
    high * 256 + low
  }

  /** Whatever surrounds it, a changed stretch of at most 16 bits changes the remainder. */
  lemma BurstChangesRemainder(before: Bits, u: Bits, v: Bits, after: Bits)
    requires |u| == |v| <= 16 && u != v
    ensures Crc(ZERO, before + u + after) != Crc(ZERO, before + v + after)
  {
    var r := Crc(ZERO, before);
    CrcAppend(ZERO, before, u);
    CrcAppend(ZERO, before, v);
    CrcAppend(ZERO, before + u, after);
    CrcAppend(ZERO, before + v, after);
    if Crc(ZERO, before + u + after) == Crc(ZERO, before + v + after) {
      CrcInjective(Crc(r, u), Crc(r, v), after);
      ShortInputsThatMeet(r, r, u, v);
    }
  }

  // ---------------------------------------------------------------- base32, section 6 of RFC 4648

  function CharValue(c: char): (v: Option<nat>)
    ensures v.Some? ==> v.value < 32
  {
    if 'A' <= c <= 'Z' then Some((c - 'A') as nat)
    else if '2' <= c <= '7' then Some((c - '2') as nat + 26)
    else None
  }

  function ValueChar(v: nat): (c: char)
    requires v < 32
    ensures CharValue(c) == Some(v)
  {
    if v < 26 then 'A' + v as char else '2' + (v - 26) as char
  }

  /** Decoding of text without padding or line ends; any character outside the alphabet fails it. */
  function DecodeBits(text: string): (b: Option<Bits>)
    ensures b.Some? ==> |b.value| == 5 * |text|
  {
    if text == [] then Some([])
    else
      match (CharValue(text[0]), DecodeBits(text[1..]))
      case (Some(v), Some(rest)) => Some(ToBits(v, 5) + rest)
      case _ => None
  }

  function EncodeBits(b: Bits): (text: string)
    requires |b| % 5 == 0
    ensures 5 * |text| == |b|
  {
    if b == [] then []
    else
      FromBitsBound(b[..5]);
      SmallPowers();
      [ValueChar(FromBits(b[..5]))] + EncodeBits(b[5..])
  }

  lemma {:induction false} DecodeEncode(b: Bits)
    requires |b| % 5 == 0
    ensures DecodeBits(EncodeBits(b)) == Some(b)
  {
    if b != [] {
      DecodeEncode(b[5..]);
      ToFromBits(b[..5]);
      assert EncodeBits(b)[1..] == EncodeBits(b[5..]);
      assert b == b[..5] + b[5..];
    }
  }

  lemma CharValueOneToOne(c: char, d: char)
    requires CharValue(c).Some? && CharValue(c) == CharValue(d)
    ensures c == d
  {
    if 'A' <= c <= 'Z' { assert c - 'A' == d - 'A'; } else { assert c - '2' == d - '2'; }
  }

  lemma {:induction false} EncodeDecode(text: string)
    requires DecodeBits(text).Some?
    ensures EncodeBits(DecodeBits(text).value) == text
  {
    if text != [] {
      var b, v := DecodeBits(text).value, CharValue(text[0]).value;
      EncodeDecode(text[1..]);
      SmallPowers();
      FromToBits(v, 5);
      assert b[..5] == ToBits(v, 5) && b[5..] == DecodeBits(text[1..]).value;
      CharValueOneToOne(text[0], ValueChar(v));
    }
  }

  lemma {:induction false} DecodeAppend(a: string, b: string)
    requires DecodeBits(a + b).Some?
    ensures DecodeBits(a).Some? && DecodeBits(b).Some?
    ensures DecodeBits(a + b).value == DecodeBits(a).value + DecodeBits(b).value
  {
    if a == [] {
      assert a + b == b;
    } else {
      assert (a + b)[1..] == a[1..] + b;
      DecodeAppend(a[1..], b);
    }
  }

  // ---------------------------------------------------------------- the address

  function ToUpperChar(c: char): char {
    if 'a' <= c <= 'z' then c - 'a' + 'A' else c
  }

  function ToUpper(s: string): (u: string)
    ensures |u| == |s| && forall i :: 0 <= i < |s| ==> u[i] == ToUpperChar(s[i])
  {
    if s == [] then [] else [ToUpperChar(s[0])] + ToUpper(s[1..])
  }

  /** ASCII text without the characters the base32 library skips (line ends) or counts (padding). */
  predicate Plain(s: string) {
    forall i :: 0 <= i < |s| ==> s[i] < 128 as char && s[i] != '\n' && s[i] != '\r' && s[i] != '='
  }

  function ParseAddress(addr: string): Result<seq<byte>, AddressError>
    requires Plain(addr)
  {
    if |addr| != 55 then Err(WrongIdLength)
    else
      match DecodeBits(FullText(addr))
      case None => Err(DecodeFailed)
      case Some(bits) => CheckBits(bits)
  }

  function CheckBits(bits: Bits): Result<seq<byte>, AddressError>
    requires |bits| == 280
  {
    CheckPayload(Pack(bits))
  }

  /** The text that is decoded: the F every address starts with is left out of its short form. */
  function FullText(addr: string): (text: string)
    ensures |text| == |addr| + 1
  {
    ['F'] + ToUpper(addr)
  }

  function CheckPayload(buf: seq<byte>): Result<seq<byte>, AddressError>
    requires |buf| == 35
  {
    if buf[0] != 0x2d then Err(InvalidFirstByte)
    else if BigEndian(buf[33], buf[34]) != Checksum(buf[..33]) then Err(InvalidAddress)
    else Ok(buf[1..33])
  }

  /** The standard text of an id: tag, id and checksum, in base32. */
  function FormatAddress(id: seq<byte>): (text: string)
    requires |id| == 32
    ensures |text| == 56
  {
    EncodeBits(Unpack(Payload(id)))
  }

  function Payload(id: seq<byte>): (p: seq<byte>)
    requires |id| == 32
    ensures |p| == 35
  {
    var c := Checksum([0x2d] + id);
    [0x2d] + id + [c / 256, c % 256]
  }

  lemma ToBitsInit(n: nat, width: nat)
    requires width > 0
    ensures ToBits(n, width)[..width - 1] == ToBits(n / 2, width - 1)
  {
  }

  lemma TagBits(tag: nat)
    ensures ToBits(tag, 8)[..5] == ToBits(tag / 8, 5)
  {
    ToBitsInit(tag, 8);
    ToBitsInit(tag / 2, 7);
    ToBitsInit(tag / 2 / 2, 6);
    assert tag / 2 / 2 / 2 == tag / 8;
    assert ToBits(tag, 8)[..5] == ToBits(tag, 8)[..7][..6][..5];
  }

  lemma EncodeFirst(b: Bits, v: nat)
    requires |b| % 5 == 0 && |b| >= 5 && v < 32 && b[..5] == ToBits(v, 5)
    ensures EncodeBits(b)[0] == ValueChar(v)
  {
    SmallPowers();
    FromToBits(v, 5);
  }

  lemma FirstByteBits(bytes: seq<byte>, k: nat)
    requires bytes != [] && k <= 8
    ensures Unpack(bytes)[..k] == ToBits(bytes[0], 8)[..k]
  {
  }

  /** The first character holds the top five bits of the first byte. */
  lemma FirstCharacter(bytes: seq<byte>)
    requires |bytes| == 35
    ensures EncodeBits(Unpack(bytes))[0] == ValueChar(bytes[0] / 8)
  {
    TagBits(bytes[0]);
    FirstByteBits(bytes, 5);
    EncodeFirst(Unpack(bytes), bytes[0] / 8);
  }

  lemma FormatStartsWithF(id: seq<byte>)
    requires |id| == 32
    ensures FormatAddress(id)[0] == 'F'
  {
    FirstCharacter(Payload(id));
  }

  /** The checks pass exactly on the payload of the id they return. */
  lemma CheckIffPayload(buf: seq<byte>, id: seq<byte>)
    requires |buf| == 35
    ensures CheckPayload(buf) == Ok(id) <==> |id| == 32 && buf == Payload(id)
  {
    var c := Checksum(buf[..33]);
    BigEndianBytes(buf[33], buf[34], c);
    assert buf == buf[..33] + [buf[33], buf[34]];
    if |id| == 32 { PayloadParts(id); }
    if CheckPayload(buf) == Ok(id) { assert buf[..33] == [0x2d] + id; }
  }

  lemma BigEndianBytes(high: byte, low: byte, c: nat)
    ensures BigEndian(high, low) == c <==> high == c / 256 && low == c % 256
  {
  }

  lemma PayloadParts(id: seq<byte>)
    requires |id| == 32
    ensures Payload(id)[..33] == [0x2d] + id && Payload(id)[1..33] == id
  {
  }

  /** Parsing accepts an address exactly when, letter case aside, it is the standard text of the id
      it returns, without its leading F. */
  lemma ParseIffFormatted(addr: string, id: seq<byte>)
    requires Plain(addr)
    ensures ParseAddress(addr) == Ok(id) <==> |id| == 32 && FullText(addr) == FormatAddress(id)
  {
    if ParseAddress(addr) == Ok(id) { ParsedIsFormatted(addr, id); }
    if |id| == 32 && FullText(addr) == FormatAddress(id) { FormattedParses(addr, id); }
  }

  /** The bits of an accepted address, on which the checks have passed. */
  lemma Opened(addr: string) returns (bits: Bits)
    requires Plain(addr) && ParseAddress(addr).Ok?
    ensures |bits| == 280 && DecodeBits(FullText(addr)) == Some(bits) && CheckBits(bits) == ParseAddress(addr)
  {
    bits := DecodeBits(FullText(addr)).value;
  }

  lemma ParsedIsFormatted(addr: string, id: seq<byte>)
    requires Plain(addr) && ParseAddress(addr) == Ok(id)
    ensures |id| == 32 && FullText(addr) == FormatAddress(id)
  {
    var bits := Opened(addr);
    UnpackPack(bits);
    EncodeDecode(FullText(addr));
    CheckIffPayload(Pack(bits), id);
  }

  lemma FormattedParses(addr: string, id: seq<byte>)
    requires Plain(addr) && |id| == 32 && FullText(addr) == FormatAddress(id)
    ensures ParseAddress(addr) == Ok(id)
  {
    var buf := Payload(id);
    DecodeEncode(Unpack(buf));
    PackUnpack(buf);
    CheckIffPayload(buf, id);
  }

  /** Decoding is the inverse of the standard encoding. */
  lemma ParseFormatRoundTrip(id: seq<byte>)
    requires |id| == 32
    ensures Plain(FormatAddress(id)[1..]) && ParseAddress(FormatAddress(id)[1..]) == Ok(id)
  {
    var text := FormatAddress(id);
    FormatStartsWithF(id);
    DecodeEncode(Unpack(Payload(id)));
    EncodedIsPlainUpper(text);
    assert text == [text[0]] + text[1..];
    assert FullText(text[1..]) == text by { UpperTail(text); }
    ParseIffFormatted(text[1..], id);
  }

  lemma UpperTail(text: string)
    requires text != [] && ToUpper(text) == text
    ensures ToUpper(text[1..]) == text[1..]
  {
  }

  lemma {:induction false} EncodedIsPlainUpper(text: string)
    requires DecodeBits(text).Some?
    ensures Plain(text) && ToUpper(text) == text
  {
    if text != [] {
      EncodedIsPlainUpper(text[1..]);
      assert text == [text[0]] + text[1..];
    }
  }

  /** Two addresses of one id are equal up to letter case. */
  lemma SameIdSameAddress(a: string, b: string)
    requires Plain(a) && Plain(b)
    requires ParseAddress(a).Ok? && ParseAddress(a) == ParseAddress(b)
    ensures ToUpper(a) == ToUpper(b)
  {
    var id := ParseAddress(a).value;
    ParseIffFormatted(a, id);
    ParseIffFormatted(b, id);
    SameFullText(a, b);
  }

  lemma SameFullText(a: string, b: string)
    requires FullText(a) == FullText(b)
    ensures ToUpper(a) == ToUpper(b)
  {
    assert ToUpper(a) == FullText(a)[1..] && ToUpper(b) == FullText(b)[1..];
  }

  /** An accepted address is a codeword with no CRC remainder. */
  lemma AcceptedHasNoRemainder(addr: string)
    requires Plain(addr) && ParseAddress(addr).Ok?
    ensures DecodeBits(FullText(addr)).Some? && Crc(ZERO, DecodeBits(FullText(addr)).value) == ZERO
  {
    var bits := Opened(addr);
    UnpackPack(bits);
    CheckedHasNoRemainder(Pack(bits));
  }

  lemma CheckedHasNoRemainder(buf: seq<byte>)
    requires |buf| == 35 && CheckPayload(buf).Ok?
    ensures Crc(ZERO, Unpack(buf)) == ZERO
  {
    assert buf == buf[..33] + buf[33..];
    UnpackAppend(buf[..33], buf[33..]);
    var r := Crc(ZERO, Unpack(buf[..33]));
    CrcAppend(ZERO, Unpack(buf[..33]), Unpack(buf[33..]));
    TrailerBits(buf[33..], r);
    ZeroRemainder(r, r);
  }

  /** Two bytes whose big-endian value is the register's are the register. */
  lemma TrailerBits(bytes: seq<byte>, r: Register)
    requires |bytes| == 2 && BigEndian(bytes[0], bytes[1]) == FromBits(r)
    ensures Unpack(bytes) == r
  {
    TwoBytes(bytes);
    ToFromBits(Unpack(bytes));
    ToFromBits(r);
  }

  lemma TwoBytes(bytes: seq<byte>)
    requires |bytes| == 2
    ensures FromBits(Unpack(bytes)) == BigEndian(bytes[0], bytes[1])
  {
    var high, low := ToBits(bytes[0], 8), ToBits(bytes[1], 8);
    assert Unpack(bytes) == high + low by {
      assert bytes[1..] == [bytes[1]] && Unpack([bytes[1]]) == low + Unpack([]);
    }
    SmallPowers();
    FromToBits(bytes[0], 8);
    FromToBits(bytes[1], 8);
    FromBitsAppend(high, low);
    DoubledEightTimes(bytes[0]);
  }

  function Doubled(x: nat, times: nat): nat {
    if times == 0 then x else 2 * Doubled(x, times - 1)
  }

  lemma DoubledEightTimes(x: nat)
    ensures Doubled(x, 8) == 256 * x
  {
    assert Doubled(x, 2) == 2 * Doubled(x, 1) == 4 * x;
    assert Doubled(x, 4) == 2 * Doubled(x, 3) == 4 * Doubled(x, 2);
    assert Doubled(x, 6) == 2 * Doubled(x, 5) == 4 * Doubled(x, 4);
    assert Doubled(x, 8) == 2 * Doubled(x, 7) == 4 * Doubled(x, 6);
  }

  lemma {:induction false} FromBitsAppend(a: Bits, b: Bits)
    ensures FromBits(a + b) == Doubled(FromBits(a), |b|) + FromBits(b)
  {
    if b == [] {
      assert a + b == a;
    } else {
      FromBitsAppend(a, b[..|b| - 1]);
      assert (a + b)[..|a + b| - 1] == a + b[..|b| - 1];
    }
  }

  /** Changing up to three adjacent characters of a valid address, in more than letter case,
      always gives an address that is rejected. */
  lemma BurstRejected(addr: string, changed: string, at: nat)
    requires Plain(addr) && Plain(changed) && |addr| == |changed| == 55 && at <= 52
    requires forall i :: 0 <= i < 55 && !(at <= i < at + 3) ==> ToUpper(addr)[i] == ToUpper(changed)[i]
    requires ToUpper(addr) != ToUpper(changed)
    requires ParseAddress(addr).Ok?
    ensures ParseAddress(changed).Err?
  {
    if ParseAddress(changed).Ok? {
      AcceptedHasNoRemainder(addr);
      AcceptedHasNoRemainder(changed);
      var s, t := FullText(addr), FullText(changed);
      forall i | 0 <= i < 56 && !(at + 1 <= i < at + 4) ensures s[i] == t[i] {
        assert i > 0 ==> s[i] == ToUpper(addr)[i - 1] && t[i] == ToUpper(changed)[i - 1];
      }
      NoShortBurstBetweenCodewords(s, t, at + 1);
      SameFullText(addr, changed);
    }
  }

  lemma AlikeOutside(s: string, t: string, k: nat)
    requires |s| == |t| && k + 3 <= |s|
    requires forall i :: 0 <= i < |s| && !(k <= i < k + 3) ==> s[i] == t[i]
    ensures s[..k] == t[..k] && s[k + 3..] == t[k + 3..]
  {
  }

  /** Texts without remainder that agree outside three adjacent characters are the same text. */
  lemma NoShortBurstBetweenCodewords(s: string, t: string, k: nat)
    requires |s| == |t| && k + 3 <= |s|
    requires forall i :: 0 <= i < |s| && !(k <= i < k + 3) ==> s[i] == t[i]
    requires DecodeBits(s).Some? && Crc(ZERO, DecodeBits(s).value) == ZERO
    requires DecodeBits(t).Some? && Crc(ZERO, DecodeBits(t).value) == ZERO
    ensures s == t
  {
    var p, u, w := Split(s, k);
    var q, v, z := Split(t, k);
    AlikeOutside(s, t, k);
    if u != v { BurstChangesRemainder(p, u, v, w); }
    EncodeDecode(s);
    EncodeDecode(t);
  }

  /** The bits of a text as those before, of and after the three characters from k on. */
  lemma Split(text: string, k: nat) returns (before: Bits, here: Bits, after: Bits)
    requires DecodeBits(text).Some? && k + 3 <= |text|
    ensures DecodeBits(text[..k]) == Some(before) && DecodeBits(text[k + 3..]) == Some(after)
    ensures |here| == 15 && DecodeBits(text).value == before + here + after
  {
    assert text == text[..k] + (text[k..k + 3] + text[k + 3..]);
    DecodeAppend(text[..k], text[k..k + 3] + text[k + 3..]);
    DecodeAppend(text[k..k + 3], text[k + 3..]);
    before, here := DecodeBits(text[..k]).value, DecodeBits(text[k..k + 3]).value;
    after := DecodeBits(text[k + 3..]).value;
  }

  // ---------------------------------------------------------------- four characters are one too many

  lemma NoRemainderPasses(buf: seq<byte>)
    requires |buf| == 35 && buf[0] == 0x2d && Crc(ZERO, Unpack(buf)) == ZERO
    ensures CheckPayload(buf).Ok?
  {
    assert buf == buf[..33] + buf[33..];
    UnpackAppend(buf[..33], buf[33..]);
    var r := Crc(ZERO, Unpack(buf[..33]));
    CrcAppend(ZERO, Unpack(buf[..33]), Unpack(buf[33..]));
    ZeroRemainder(r, Unpack(buf[33..]));
    TwoBytes(buf[33..]);
  }

  /** Each character holds its own five bits. */
  lemma {:induction false} EncodeAt(b: Bits, i: nat)
    requires |b| % 5 == 0 && 5 * i + 5 <= |b|
    ensures EncodeBits(b)[i] == EncodeBits(b[5 * i..5 * i + 5])[0]
  {
    if i > 0 {
      EncodeAt(b[5..], i - 1);
      assert b[5..][5 * (i - 1)..5 * (i - 1) + 5] == b[5 * i..5 * i + 5];
    } else {
      assert b[..5][..5] == b[..5];
    }
  }

  lemma TagByte(buf: seq<byte>)
    requires buf != [] && Unpack(buf)[..8] == ToBits(0x2d, 8)
    ensures buf[0] == 0x2d
  {
    FirstByteBits(buf, 8);
    SmallPowers();
    FromToBits(0x2d, 8);
    FromToBits(buf[0], 8);
  }

  /** Bits with the tag and no remainder are those of an accepted address. */
  lemma CodewordAccepted(bits: Bits)
    requires |bits| == 280 && bits[..8] == ToBits(0x2d, 8) && Crc(ZERO, bits) == ZERO
    ensures EncodeBits(bits) == FullText(EncodeBits(bits)[1..]) && Plain(EncodeBits(bits)[1..])
    ensures ParseAddress(EncodeBits(bits)[1..]).Ok?
  {
    var text, buf := EncodeBits(bits), Pack(bits);
    UnpackPack(bits);
    TagByte(buf);
    FirstCharacter(buf);
    DecodeEncode(bits);
    EncodedIsPlainUpper(text);
    assert text == [text[0]] + text[1..];
    UpperTail(text);
    NoRemainderPasses(buf);
  }

  /** Bits that agree outside four characters encode alike outside them. */
  lemma EncodedAlike(a: Bits, b: Bits, k: nat)
    requires |a| == |b| == 280 && k + 4 <= 56
    requires a[..5 * k] == b[..5 * k] && a[5 * k + 20..] == b[5 * k + 20..]
    ensures forall i :: 0 <= i < 56 && !(k <= i < k + 4) ==> EncodeBits(a)[i] == EncodeBits(b)[i]
  {
    forall i | 0 <= i < 56 && !(k <= i < k + 4) ensures EncodeBits(a)[i] == EncodeBits(b)[i] {
      EncodeAt(a, i);
      EncodeAt(b, i);
      SameFive(a, b, k, i);
    }
  }

  lemma SameFive(a: Bits, b: Bits, k: nat, i: nat)
    requires |a| == |b| == 280 && k + 4 <= 56 && i < 56 && !(k <= i < k + 4)
    requires a[..5 * k] == b[..5 * k] && a[5 * k + 20..] == b[5 * k + 20..]
    ensures a[5 * i..5 * i + 5] == b[5 * i..5 * i + 5]
  {
    if i < k {
      SameSlice(a, b, 0, 5 * k, 5 * i);
    } else {
      SameSlice(a, b, 5 * k + 20, 280, 5 * i);
    }
  }

  lemma SameSlice(a: Bits, b: Bits, from: nat, to: nat, i: nat)
    requires |a| == |b| && from <= to <= |a| && a[from..to] == b[from..to] && from <= i && i + 5 <= to
    ensures a[i..i + 5] == b[i..i + 5]
  {
    forall j | i <= j < i + 5 ensures a[j] == b[j] {
      assert a[from..to][j - from] == a[j] && b[from..to][j - from] == b[j];
    }
  }

  /** The accepted address's bits with the last seventeen of some four characters disguised. */
  lemma DisguisedCodeword(bits: Bits, k: nat) returns (other: Bits)
    requires |bits| == 280 && 1 <= k <= 52 && bits[..8] == ToBits(0x2d, 8) && Crc(ZERO, bits) == ZERO
    ensures |other| == 280 && other != bits && other[..8] == ToBits(0x2d, 8) && Crc(ZERO, other) == ZERO
    ensures other[..5 * k] == bits[..5 * k] && other[5 * k + 20..] == bits[5 * k + 20..]
  {
    var before, u, after := bits[..5 * k + 3], bits[5 * k + 3..5 * k + 20], bits[5 * k + 20..];
    other := before + Disguised(u) + after;
    DisguiseUnnoticed(before, u, after);
    InThree(bits, 5 * k + 3, 5 * k + 20);
    SplicedAlike(before, u, Disguised(u), after, 8);
    SplicedAlike(before, u, Disguised(u), after, 5 * k);
  }

  lemma InThree(bits: Bits, i: nat, j: nat)
    requires i <= j <= |bits|
    ensures bits == bits[..i] + bits[i..j] + bits[j..]
  {
  }

  lemma SplicedAlike(before: Bits, u: Bits, v: Bits, after: Bits, n: nat)
    requires n <= |before| && |u| == |v| > 0 && u[0] != v[0]
    ensures (before + u + after)[..n] == (before + v + after)[..n]
    ensures (before + u + after)[|before| + |u|..] == after == (before + v + after)[|before| + |u|..]
    ensures before + u + after != before + v + after
  {
    assert (before + u + after)[|before|] == u[0] && (before + v + after)[|before|] == v[0];
  }

  lemma AcceptedBits(addr: string) returns (bits: Bits)
    requires Plain(addr) && ParseAddress(addr).Ok?
    ensures |bits| == 280 && DecodeBits(FullText(addr)) == Some(bits)
    ensures bits[..8] == ToBits(0x2d, 8) && Crc(ZERO, bits) == ZERO
  {
    bits := Opened(addr);
    AcceptedHasNoRemainder(addr);
    TaggedBits(bits);
  }

  lemma TaggedBits(bits: Bits)
    requires |bits| == 280 && CheckPayload(Pack(bits)).Ok?
    ensures bits[..8] == ToBits(0x2d, 8)
  {
    UnpackPack(bits);
    FirstByteBits(Pack(bits), 8);
  }

  /** Three is the most that can be promised: at any place, some change of four adjacent characters of an
      accepted address gives another accepted one. */
  lemma FourCharactersCanPass(addr: string, at: nat) returns (changed: string)
    requires Plain(addr) && ParseAddress(addr).Ok? && at + 4 <= 55
    ensures Plain(changed) && ParseAddress(changed).Ok? && |changed| == 55 && ToUpper(changed) != ToUpper(addr)
    ensures forall i :: 0 <= i < 55 && !(at <= i < at + 4) ==> ToUpper(changed)[i] == ToUpper(addr)[i]
  {
    var bits := AcceptedBits(addr);
    EncodeDecode(FullText(addr));
    var other := DisguisedCodeword(bits, at + 1);
    changed := EncodeBits(other)[1..];
    CodewordAccepted(other);
    EncodedAlike(bits, other, at + 1);
    DecodeEncode(other);
    assert FullText(changed) != FullText(addr);
    forall i | 0 <= i < 55 && !(at <= i < at + 4) ensures ToUpper(changed)[i] == ToUpper(addr)[i] {
      assert FullText(changed)[i + 1] == FullText(addr)[i + 1];
    }
  }
}
