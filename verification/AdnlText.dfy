/** What the text of an ADNL address stands for, in numbers and polynomials, apart from how it is computed
    (proxy/transport/types.go): a number in base 32 that is the payload's number in base 256, whose bits are a
    multiple of the CRC's generator. ParseADNLAddress accepts exactly these. */
module AdnlText {
  import opened GoTypes
  import opened AdnlAddress

  // ---------------------------------------------------------------- polynomials over two elements

  /** The coefficient of x^e. */
  function Coefficient(p: Bits, e: int): bool {
    0 <= e < |p| && p[|p| - 1 - e]
  }

  /** The product with x^16 + x^12 + x^5 + 1, highest coefficient first. */
  function Product(q: Bits): (p: Bits)
    ensures |p| == |q| + 16
  {
    seq(|q| + 16, i requires 0 <= i < |q| + 16 => ProductCoefficient(q, |q| + 15 - i))
  }

  function ProductCoefficient(q: Bits, e: int): bool {
    (Coefficient(q, e - 16) != Coefficient(q, e - 12)) != (Coefficient(q, e - 5) != Coefficient(q, e))
  }

  function BitAt(b: Bits, i: int): bool {
    0 <= i < |b| && b[i]
  }

  lemma ProductBit(q: Bits, i: nat)
    requires i < |q| + 16
    ensures Product(q)[i] == ((BitAt(q, i) != BitAt(q, i - 4)) != (BitAt(q, i - 11) != BitAt(q, i - 16)))
  {
    var e := |q| + 15 - i;
    assert Product(q)[i] == ProductCoefficient(q, e);
    assert Coefficient(q, e - 16) == BitAt(q, i) && Coefficient(q, e - 12) == BitAt(q, i - 4);
    assert Coefficient(q, e - 5) == BitAt(q, i - 11) && Coefficient(q, e) == BitAt(q, i - 16);
  }

  /** A quotient's highest digit is the product's; it changes the rest where the generator has ones. */
  lemma ProductOfMore(top: bool, q: Bits, i: nat)
    requires i <= |q| + 16
    ensures Product([top] + q)[i]
            == if i == 0 then top else Product(q)[i - 1] != (top && (i == 4 || i == 11 || i == 16))
  {
    ProductBit([top] + q, i);
    if i > 0 { ProductBit(q, i - 1); }
    assert BitAt([top] + q, 0) == top;
    assert BitAt([top] + q, i) == if i == 0 then top else BitAt(q, i - 1);
    assert i != 4 ==> BitAt([top] + q, i - 4) == BitAt(q, i - 5);
    assert i != 11 ==> BitAt([top] + q, i - 11) == BitAt(q, i - 12);
    assert i != 16 ==> BitAt([top] + q, i - 16) == BitAt(q, i - 17);
  }

  function Nibble(n: nat): Bits {
    [n / 8 % 2 == 1, n / 4 % 2 == 1, n / 2 % 2 == 1, n % 2 == 1]
  }

  lemma FourBits(n: nat, width: nat)
    requires width >= 4
    ensures ToBits(n, width) == ToBits(n / 16, width - 4) + Nibble(n)
  {
    assert ToBits(n, width) == ToBits(n / 2, width - 1) + [n % 2 == 1];
    assert ToBits(n / 2, width - 1) == ToBits(n / 4, width - 2) + [n / 2 % 2 == 1];
    assert ToBits(n / 4, width - 2) == ToBits(n / 8, width - 3) + [n / 4 % 2 == 1];
    assert ToBits(n / 8, width - 3) == ToBits(n / 16, width - 4) + [n / 8 % 2 == 1];
  }

  lemma FourNibbles(n: nat, i: nat)
    requires i < 16
    ensures ToBits(n, 16)[i]
            == if i < 4 then Nibble(n / 4096)[i] else if i < 8 then Nibble(n / 256)[i - 4]
               else if i < 12 then Nibble(n / 16)[i - 8] else Nibble(n)[i - 12]
  {
    assert n / 16 / 16 == n / 256 && n / 256 / 16 == n / 4096;
    FourBits(n, 16);
    FourBits(n / 16, 12);
    FourBits(n / 256, 8);
    FourBits(n / 4096, 4);
  }

  lemma GeneratorBit(n: nat, i: nat)
    requires n == 0x1021 && i < 16
    ensures ToBits(n, 16)[i] == (i == 3 || i == 10 || i == 15)
  {
    FourNibbles(n, i);
    assert n / 4096 == 1 && n / 256 == 16 && n / 16 == 258;
    Nibbles(n / 4096, n / 256, n / 16, n);
  }

  lemma Nibbles(a: nat, b: nat, c: nat, d: nat)
    requires a == 1 && b == 16 && c == 258 && d == 4129
    ensures Nibble(a) == [false, false, false, true] == Nibble(d)
    ensures Nibble(b) == [false, false, false, false] && Nibble(c) == [false, false, true, false]
  {
  }

  /** A register and zeros. */
  function Padded(r: Register, n: nat): (b: Bits)
    ensures |b| == n + 16
  {
    r + seq(n, i => false)
  }

  /** The quotient of a message after which a register that started as s has become Crc(s, m). */
  function Quotient(s: Register, m: Bits): (q: Bits)
    ensures |q| == |m|
    decreases |m|
  {
    if m == [] then [] else [s[0] != m[0]] + Quotient(Feed(s, m[0]), m[1..])
  }

  lemma FeedBit(s: Register, bit: bool, i: nat)
    requires i > 0
    ensures BitAt(Feed(s, bit), i - 1) == (BitAt(s, i) != ((s[0] != bit) && (i == 4 || i == 11 || i == 16)))
  {
    if i <= 16 { GeneratorBit(0x1021, i - 1); }
  }

  lemma {:induction false} CrcDivides(s: Register, m: Bits)
    ensures Product(Quotient(s, m)) == Xor(m + Crc(s, m), Padded(s, |m|))
    decreases |m|
  {
    var p, t := Product(Quotient(s, m)), Xor(m + Crc(s, m), Padded(s, |m|));
    if m == [] {
      forall i | 0 <= i < 16 ensures p[i] == t[i] { ProductBit([], i); }
    } else {
      CrcDivides(Feed(s, m[0]), m[1..]);
      forall i | 0 <= i < |p| ensures p[i] == t[i] {
        ProductOfMore(s[0] != m[0], Quotient(Feed(s, m[0]), m[1..]), i);
        if i > 0 { DividedBit(s, m, Crc(s, m), i); }
      }
    }
  }

  /** What one more bit of input does to what is divided, the register it ends with being r. */
  lemma DividedBit(s: Register, m: Bits, r: Register, i: nat)
    requires m != [] && 0 < i < |m| + 16
    ensures Xor(m + r, Padded(s, |m|))[i]
            == (Xor(m[1..] + r, Padded(Feed(s, m[0]), |m| - 1))[i - 1]
                != ((s[0] != m[0]) && (i == 4 || i == 11 || i == 16)))
  {
    FeedBit(s, m[0], i);
    XoredBit(m, r, s, i);
    XoredBit(m[1..], r, Feed(s, m[0]), i - 1);
    TailBit(m, r, i);
  }

  lemma TailBit(m: Bits, r: Bits, i: nat)
    requires m != [] && 0 < i < |m| + |r|
    ensures (m + r)[i] == (m[1..] + r)[i - 1]
  {
  }

  lemma XoredBit(m: Bits, r: Register, s: Register, i: nat)
    requires i < |m| + 16
    ensures Xor(m + r, Padded(s, |m|))[i] == ((m + r)[i] != BitAt(s, i))
  {
  }

  /** A multiple's highest digits give the quotient. */
  lemma {:induction false} QuotientUnique(q: Bits, r: Bits, n: nat)
    requires |q| == |r| && n <= |q| && Product(q)[..|q|] == Product(r)[..|q|]
    ensures forall i :: i < n ==> BitAt(q, i) == BitAt(r, i)
  {
    if n > 0 {
      QuotientUnique(q, r, n - 1);
      ProductBit(q, n - 1);
      ProductBit(r, n - 1);
      assert Product(q)[..|q|][n - 1] == Product(r)[..|q|][n - 1];
    }
  }

  /** The remainder is the register that makes the message a multiple of the generator. */
  lemma CrcIsRemainder(m: Bits, r: Register)
    ensures r == Crc(ZERO, m) <==> exists q :: |q| == |m| && Product(q) == m + r
  {
    var q := Quotient(ZERO, m);
    DividesPlainly(m);
    forall p | |p| == |m| && Product(p) == m + r ensures r == Crc(ZERO, m) {
      QuotientUnique(p, q, |m|);
      assert forall i :: 0 <= i < |m| ==> BitAt(p, i) == p[i] && BitAt(q, i) == q[i];
      assert p == q;
      assert (m + r)[|m|..] == r && (m + Crc(ZERO, m))[|m|..] == Crc(ZERO, m);
    }
  }

  lemma DividesPlainly(m: Bits)
    ensures Product(Quotient(ZERO, m)) == m + Crc(ZERO, m)
  {
    CrcDivides(ZERO, m);
  }

  // ---------------------------------------------------------------- the text

  const UPPER: string := "ABCDEFGHIJKLMNOPQRSTUVWXYZ234567"
  const LOWER: string := "abcdefghijklmnopqrstuvwxyz234567"

  /** The places of F and of the characters of an address in the base32 alphabet, in either case. */
  predicate Spells(addr: string, digits: seq<nat>) {
    && |digits| == |addr| + 1 && digits[0] == 5
    && (forall i :: 0 <= i < |addr| ==> IsPlace(addr[i], digits[i + 1]))
  }

  predicate IsPlace(c: char, v: nat) {
    v < 32 && (c == UPPER[v] || c == LOWER[v])
  }

  function Number(digits: seq<nat>, base: nat): nat {
    if digits == [] then 0 else base * Number(digits[..|digits| - 1], base) + digits[|digits| - 1]
  }

  /** The number the text spells in base 32 has the bits of a multiple of the generator; all but their last sixteen
      are those of the number that the tag and the id spell in base 256. */
  predicate Stands(digits: seq<nat>, q: Bits, id: seq<byte>) {
    && Number(digits, 32) == FromBits(Product(q))
    && FromBits(Product(q)[..|q|]) == Number([0x2d] + id, 256)
  }

  ghost predicate StandardText(addr: string, id: seq<byte>) {
    && |addr| == 55 && |id| == 32
    && exists digits: seq<nat>, q: Bits :: |q| == 264 && Spells(addr, digits) && Stands(digits, q, id)
  }

  lemma Characters(v: nat)
    requires v < 32
    ensures UPPER[v] == if v < 26 then 'A' + v as char else '2' + (v - 26) as char
    ensures LOWER[v] == if v < 26 then 'a' + v as char else '2' + (v - 26) as char
  {
  }

  lemma PlaceIffValue(c: char, v: nat)
    requires c < 128 as char
    ensures IsPlace(c, v) <==> CharValue(ToUpperChar(c)) == Some(v)
  {
    if v < 32 { Characters(v); }
  }

  /** Five more bits, or eight, are one more digit. */
  lemma AppendedDigit(b: Bits, v: nat, width: nat)
    requires (width == 5 && v < 32) || (width == 8 && v < 256)
    ensures FromBits(b + ToBits(v, width)) == (if width == 5 then 32 else 256) * FromBits(b) + v
  {
    FromBitsAppend(b, ToBits(v, width));
    SmallPowers();
    FromToBits(v, width);
    DoubledEightTimes(FromBits(b));
    assert Doubled(FromBits(b), 5) == 2 * Doubled(FromBits(b), 4) == 4 * Doubled(FromBits(b), 3);
    assert Doubled(FromBits(b), 3) == 2 * Doubled(FromBits(b), 2) == 4 * Doubled(FromBits(b), 1);
  }

  /** The bits of a text are those of the number it spells. */
  lemma {:induction false} DecodedNumber(text: string, digits: seq<nat>)
    requires |text| == |digits| && forall i :: 0 <= i < |text| ==> CharValue(text[i]) == Some(digits[i])
    ensures DecodeBits(text).Some? && FromBits(DecodeBits(text).value) == Number(digits, 32)
  {
    if text != [] {
      var n := |text| - 1;
      DecodedNumber(text[..n], digits[..n]);
      assert text == text[..n] + [text[n]];
      DecodedMore(text[..n], text[n]);
      AppendedDigit(DecodeBits(text[..n]).value, digits[n], 5);
    }
  }

  lemma {:induction false} DecodedMore(text: string, c: char)
    requires DecodeBits(text).Some? && CharValue(c).Some?
    ensures DecodeBits(text + [c]) == Some(DecodeBits(text).value + ToBits(CharValue(c).value, 5))
  {
    if text == [] {
      var last := ToBits(CharValue(c).value, 5);
      assert text + [c] == [c] && [] + last == last == last + [];
    } else {
      DecodedMore(text[1..], c);
      var head, rest := ToBits(CharValue(text[0]).value, 5), DecodeBits(text[1..]).value;
      assert head + (rest + ToBits(CharValue(c).value, 5)) == head + rest + ToBits(CharValue(c).value, 5);
      assert (text + [c])[1..] == text[1..] + [c];
    }
  }

  /** The bits of bytes are those of the number they spell. */
  lemma {:induction false} UnpackedNumber(bytes: seq<byte>)
    ensures FromBits(Unpack(bytes)) == Number(bytes, 256)
  {
    if bytes != [] {
      var n := |bytes| - 1;
      UnpackedNumber(bytes[..n]);
      assert bytes == bytes[..n] + [bytes[n]];
      UnpackAppend(bytes[..n], [bytes[n]]);
      assert Unpack([bytes[n]]) == ToBits(bytes[n], 8) + [];
      AppendedDigit(Unpack(bytes[..n]), bytes[n], 8);
      assert Unpack(bytes) == Unpack(bytes[..n]) + ToBits(bytes[n], 8);
    }
  }

  lemma SameNumberSameBits(a: Bits, b: Bits)
    requires |a| == |b| && FromBits(a) == FromBits(b)
    ensures a == b
  {
    ToFromBits(a);
    ToFromBits(b);
  }

  lemma {:induction false} DecodedCharacters(text: string, i: nat)
    requires DecodeBits(text).Some? && i < |text|
    ensures CharValue(text[i]).Some?
  {
    if i > 0 { DecodedCharacters(text[1..], i - 1); }
  }

  lemma Places(addr: string) returns (digits: seq<nat>)
    requires Plain(addr) && DecodeBits(FullText(addr)).Some?
    ensures Spells(addr, digits)
  {
    var text := FullText(addr);
    forall i | 0 <= i < |text| ensures CharValue(text[i]).Some? { DecodedCharacters(text, i); }
    digits := seq(|text|, i requires 0 <= i < |text| => CharValue(text[i]).value);
    forall i | 0 <= i < |addr| ensures IsPlace(addr[i], digits[i + 1]) {
      PlaceIffValue(addr[i], digits[i + 1]);
    }
  }

  lemma SpelledNumber(addr: string, digits: seq<nat>)
    requires Plain(addr) && Spells(addr, digits)
    ensures var b := DecodeBits(FullText(addr)); b.Some? && FromBits(b.value) == Number(digits, 32)
  {
    var text := FullText(addr);
    forall i | 0 <= i < |text| ensures CharValue(text[i]) == Some(digits[i]) {
      if i > 0 { PlaceIffValue(addr[i - 1], digits[i]); }
    }
    DecodedNumber(text, digits);
  }

  /** Bits leave no remainder exactly when they are a multiple of the generator. */
  lemma NoRemainderIffMultiple(m: Bits, r: Register)
    ensures Crc(ZERO, m + r) == ZERO <==> exists q :: |q| == |m| && Product(q) == m + r
  {
    CrcAppend(ZERO, m, r);
    ZeroRemainder(Crc(ZERO, m), r);
    CrcIsRemainder(m, r);
  }

  /** An address is accepted as an id exactly when it stands for the tag, the id and their checksum. */
  lemma ParseIffStandard(addr: string, id: seq<byte>)
    requires Plain(addr)
    ensures ParseAddress(addr) == Ok(id) <==> StandardText(addr, id)
  {
    if ParseAddress(addr) == Ok(id) { ParsedIsStandard(addr, id); }
    if StandardText(addr, id) {
      var digits: seq<nat>, q: Bits :| |q| == 264 && Spells(addr, digits) && Stands(digits, q, id);
      StandardParses(addr, id, digits, q);
    }
  }

  lemma ParsedIsStandard(addr: string, id: seq<byte>)
    requires Plain(addr) && ParseAddress(addr) == Ok(id)
    ensures StandardText(addr, id)
  {
    var bits := Opened(addr);
    var digits := Places(addr);
    SpelledNumber(addr, digits);
    AcceptedHasNoRemainder(addr);
    var m, r := bits[..264], bits[264..];
    assert m + r == bits;
    NoRemainderIffMultiple(m, r);
    var q :| |q| == 264 && Product(q) == m + r;
    FirstBytes(bits, id);
    assert Stands(digits, q, id);
  }

  lemma FirstBytes(bits: Bits, id: seq<byte>)
    requires |bits| == 280 && CheckPayload(Pack(bits)) == Ok(id)
    ensures |id| == 32 && FromBits(bits[..264]) == Number([0x2d] + id, 256)
  {
    var buf := Pack(bits);
    UnpackPack(bits);
    UnpackedFront(buf);
    UnpackedNumber(buf[..33]);
    CheckedFront(buf, id);
  }

  lemma CheckedFront(buf: seq<byte>, id: seq<byte>)
    requires |buf| == 35 && CheckPayload(buf) == Ok(id)
    ensures |id| == 32 && buf[..33] == [0x2d] + id
  {
    CheckIffPayload(buf, id);
    PayloadParts(id);
  }

  lemma UnpackedFront(buf: seq<byte>)
    requires |buf| == 35
    ensures Unpack(buf)[..264] == Unpack(buf[..33]) && Unpack(buf)[264..] == Unpack(buf[33..])
  {
    assert buf == buf[..33] + buf[33..];
    UnpackAppend(buf[..33], buf[33..]);
  }

  lemma StandardParses(addr: string, id: seq<byte>, digits: seq<nat>, q: Bits)
    requires Plain(addr) && |addr| == 55 && |id| == 32 && |q| == 264 && Spells(addr, digits) && Stands(digits, q, id)
    ensures ParseAddress(addr) == Ok(id)
  {
    SpelledNumber(addr, digits);
    SameNumberSameBits(DecodeBits(FullText(addr)).value, Product(q));
    MultipleHasNoRemainder(q);
    BitsCheck(Product(q), id);
  }

  lemma MultipleHasNoRemainder(q: Bits)
    ensures Crc(ZERO, Product(q)) == ZERO
  {
    var p := Product(q);
    var m, r := p[..|q|], p[|q|..];
    assert p == m + r;
    NoRemainderIffMultiple(m, r);
  }

  lemma BitsCheck(bits: Bits, id: seq<byte>)
    requires |bits| == 280 && |id| == 32 && Crc(ZERO, bits) == ZERO
    requires FromBits(bits[..264]) == Number([0x2d] + id, 256)
    ensures CheckBits(bits) == Ok(id)
  {
    UnpackPack(bits);
    UnpackedFront(Pack(bits));
    MultipleChecks(Pack(bits), id);
  }

  lemma MultipleChecks(buf: seq<byte>, id: seq<byte>)
    requires |buf| == 35 && |id| == 32 && Crc(ZERO, Unpack(buf)) == ZERO
    requires FromBits(Unpack(buf[..33])) == Number([0x2d] + id, 256)
    ensures CheckPayload(buf) == Ok(id)
  {
    UnpackedNumber([0x2d] + id);
    SameNumberSameBits(Unpack(buf[..33]), Unpack([0x2d] + id));
    PackUnpack(buf[..33]);
    PackUnpack([0x2d] + id);
    assert buf[0] == buf[..33][0] && buf[1..33] == buf[..33][1..];
    NoRemainderPasses(buf);
  }

  /** Every id has such a text, the one FormatAddress writes. */
  lemma FormatStands(id: seq<byte>)
    requires |id| == 32
    ensures StandardText(FormatAddress(id)[1..], id)
  {
    ParseFormatRoundTrip(id);
    ParseIffStandard(FormatAddress(id)[1..], id);
  }

  predicate InAlphabet(c: char) {
    c in UPPER || c in LOWER
  }

  lemma AlphabetIffValue(c: char)
    requires c < 128 as char
    ensures InAlphabet(c) <==> CharValue(ToUpperChar(c)).Some?
  {
    if InAlphabet(c) {
      var v :| 0 <= v < 32 && (UPPER[v] == c || LOWER[v] == c);
      PlaceIffValue(c, v);
    }
    if CharValue(ToUpperChar(c)).Some? { PlaceIffValue(c, CharValue(ToUpperChar(c)).value); }
  }

  predicate AllInAlphabet(addr: string) {
    forall i :: 0 <= i < |addr| ==> InAlphabet(addr[i])
  }

  lemma DecodedInAlphabet(addr: string)
    requires Plain(addr) && DecodeBits(FullText(addr)).Some?
    ensures AllInAlphabet(addr)
  {
    forall i | 0 <= i < |addr| ensures InAlphabet(addr[i]) {
      DecodedCharacters(FullText(addr), i + 1);
      AlphabetIffValue(addr[i]);
    }
  }

  lemma AlphabetDecodes(addr: string)
    requires Plain(addr) && AllInAlphabet(addr)
    ensures DecodeBits(FullText(addr)).Some?
  {
    var text := FullText(addr);
    forall j | 0 <= j < |text| ensures CharValue(text[j]).Some? {
      if j > 0 { AlphabetIffValue(addr[j - 1]); }
    }
    Decodes(text);
  }

  lemma {:induction false} Decodes(text: string)
    requires forall i :: 0 <= i < |text| ==> CharValue(text[i]).Some?
    ensures DecodeBits(text).Some?
  {
    if text != [] { Decodes(text[1..]); }
  }

  /** The first byte is what F and the next character leave of it. */
  lemma FirstByte(text: string)
    requires |text| == 56 && text[0] == 'F' && DecodeBits(text).Some?
    ensures CharValue(text[1]).Some? && Pack(DecodeBits(text).value)[0] == 40 + CharValue(text[1]).value / 4
  {
    var v := FirstTwo(text);
    TopByte(v);
  }

  lemma FirstTwo(text: string) returns (v: nat)
    requires |text| == 56 && text[0] == 'F' && DecodeBits(text).Some?
    ensures CharValue(text[1]) == Some(v) && DecodeBits(text).value[..8] == (ToBits(5, 5) + ToBits(v, 5))[..8]
  {
    DecodedCharacters(text, 1);
    v := CharValue(text[1]).value;
    var rest := DecodeBits(text[1..]).value;
    assert DecodeBits(text).value == ToBits(5, 5) + rest;
    assert rest[..5] == ToBits(v, 5);
  }

  lemma TopByte(v: nat)
    requires v < 32
    ensures FromBits((ToBits(5, 5) + ToBits(v, 5))[..8]) == 40 + v / 4
  {
    ToBitsInit(v, 5);
    ToBitsInit(v / 2, 4);
    assert v / 2 / 2 == v / 4;
    assert (ToBits(5, 5) + ToBits(v, 5))[..8] == ToBits(5, 5) + ToBits(v / 4, 3);
    FromBitsAppend(ToBits(5, 5), ToBits(v / 4, 3));
    SmallPowers();
    FromToBits(5, 5);
    FromToBits(v / 4, 3);
    assert Doubled(5, 3) == 2 * Doubled(5, 2) == 4 * Doubled(5, 1) == 40;
  }

  lemma GoesOnWithTag(c: char)
    requires c < 128 as char && CharValue(ToUpperChar(c)).Some?
    ensures 40 + CharValue(ToUpperChar(c)).value / 4 == 0x2d <==> c in "UVWXuvwx"
  {
    var v := CharValue(ToUpperChar(c)).value;
    PlaceIffValue(c, v);
  }

  /** How an address is refused: by its length, by a character outside the alphabet, by a first character that does
      not go on with the tag, and otherwise by its checksum. */
  lemma HowRefused(addr: string)
    requires Plain(addr)
    ensures ParseAddress(addr) == Err(WrongIdLength) <==> |addr| != 55
    ensures ParseAddress(addr) == Err(DecodeFailed)
            <==> |addr| == 55 && !AllInAlphabet(addr)
    ensures ParseAddress(addr) == Err(InvalidFirstByte)
            <==> |addr| == 55 && AllInAlphabet(addr) && addr[0] !in "UVWXuvwx"
  {
    if AllInAlphabet(addr) { AlphabetDecodes(addr); }
    if DecodeBits(FullText(addr)).Some? { DecodedInAlphabet(addr); }
    if |addr| == 55 && DecodeBits(FullText(addr)).Some? { TagDecides(addr); }
  }

  lemma TagDecides(addr: string)
    requires Plain(addr) && |addr| == 55 && DecodeBits(FullText(addr)).Some?
    ensures ParseAddress(addr) == Err(InvalidFirstByte) <==> addr[0] !in "UVWXuvwx"
    ensures ParseAddress(addr) != Err(WrongIdLength) && ParseAddress(addr) != Err(DecodeFailed)
  {
    FirstByte(FullText(addr));
    GoesOnWithTag(addr[0]);
  }
}
