/** Files of at most 20 bytes are not uploaded: their content travels inside the 40-digit hash. */
module HexHash {
  import opened Bytes
  import opened PartNames

  /** A `char` widened to `uint32_t`: signed, so bytes from 0x80 on are sign-extended. */
  function Widen(b: Byte): nat {
    if b < 0x80 then b as nat else 0xFFFF_FF00 + b as nat
  }

  function HexChar(d: nat): (c: char)
    requires d < 16
  {
    if d < 10 then '0' + d as char else 'A' + (d - 10) as char
  }

  function HexValue(c: char): (v: nat)
    ensures v < 16
  {
    if '0' <= c <= '9' then (c - '0') as nat
    else if 'A' <= c <= 'F' then (c - 'A') as nat + 10
    else 0
  }

  predicate IsHex(c: char) {
    '0' <= c <= '9' || 'A' <= c <= 'F'
  }

  /** `std::hex << std::uppercase` */
  function HexDigits(n: nat): (s: string)
    ensures s != []
  {
    if n < 16 then [HexChar(n)] else HexDigits(n / 16) + [HexChar(n % 16)]
  }

  /** `std::setw(width)`: pads on the left, never cuts; a width below the length has no effect. */
  function PadLeft(s: string, width: int, fill: char): string {
    if |s| < width then seq(width - |s|, _ => fill) + s else s
  }

  function ByteHex(b: Byte): string {
    PadLeft(HexDigits(Widen(b)), 2, '0')
  }

  function HexAll(s: Content): string {
    if s == [] then [] else ByteHex(s[0]) + HexAll(s[1..])
  }

  /** The zero that fills the stream up to `width` characters; what is missing is computed unsigned, then cast
      to `int`. */
  function Padding(length: nat, width: nat, fill: char): string {
    var remaining := U64(width - length);
    if remaining > 0 then PadLeft("0", Int32(remaining), fill) else ""
  }

  /** What a shortage of `d` becomes as an unsigned size, and then as an `int`. */
  lemma ShortageWraps(d: int)
    requires 0 < d < 0x8000_0000
    ensures U64(-d) == 0x1_0000_0000_0000_0000 - d && Int32(U64(-d)) == -d
  {
    var w: int := 0x1_0000_0000;
    assert U64(-d) == w * w - d;
    assert (w * w - d + 0x8000_0000) == w * w + (0x8000_0000 - d);
    assert (w * w + (0x8000_0000 - d)) % w == 0x8000_0000 - d;
  }

  lemma SmallCounts(n: nat)
    requires n < 0x8000_0000
    ensures U64(n) == n && Int32(n) == n
  {
  }

  lemma PaddingLength(length: nat, width: nat, fill: char)
    requires width < 0x8000_0000 && length < width + 0x8000_0000
    ensures |Padding(length, width, fill)| == if length <= width then width - length else 1
  {
    if length <= width {
      SmallCounts(width - length);
    } else {
      ShortageWraps(length - width);
    }
    hide U64, Int32;
  }

  /** The hash of a tiny file, as wide as wished; None where the source throws. */
  function Hash(s: Content, width: nat): Option<string> {
    if |s| >= width then None
    else Some(HexAll(s) + Padding(|HexAll(s)|, width, if s == [] then ' ' else '0'))
  }

  /** The width the cloud expects, and how many bytes it holds. */
  const WIDTH := 40
  const TINY := 20

  lemma HexAllStep(s: Content, i: nat)
    requires i < |s|
    ensures HexAll(s[i..]) == ByteHex(s[i]) + HexAll(s[i + 1..])
  {
    assert s[i..][1..] == s[i + 1..];
  }

  lemma Regroup(a: string, b: string, c: string)
    ensures a + (b + c) == (a + b) + c
  {
  }

  /** The string stream of the source, written digit group by digit group. */
  method ToPadded40Hex(s: Content) returns (r: Option<string>)
    ensures r == Hash(s, WIDTH)
  {
    if |s| >= WIDTH {
      return None;
    }
    var ret: string := [];
    var fill := ' ';
    var i := 0;
    while i < |s|
      invariant 0 <= i <= |s|
      invariant ret + HexAll(s[i..]) == HexAll(s)
      invariant fill == if i == 0 then ' ' else '0'
    {
      fill := '0';
      var group := PadLeft(HexDigits(Widen(s[i])), 2, fill);
      HexAllStep(s, i);
      Regroup(ret, group, HexAll(s[i + 1..]));
      ret := ret + group;
      i := i + 1;
    }
    assert ret == HexAll(s) by {
      assert s[i..] == [];
    }
    r := Some(ret + Padding(|ret|, WIDTH, fill));
  }

  function ByteFrom(high: char, low: char): Byte {
    (HexValue(high) * 16 + HexValue(low)) as Byte
  }

  /** Reading `n` bytes back out of a hash. */
  function FromHex(h: string, n: nat): (r: Content)
    requires 2 * n <= |h|
    ensures |r| == n
  {
    seq(n, i requires 0 <= i < n => ByteFrom(h[2 * i], h[2 * i + 1]))
  }

  lemma AsciiByteHex(b: Byte)
    requires b < 0x80
    ensures ByteHex(b) == [HexChar(b as nat / 16), HexChar(b as nat % 16)]
  {
    if b >= 16 {
      assert HexDigits(b as nat) == HexDigits(b as nat / 16) + [HexChar(b as nat % 16)];
    } else {
      assert seq(1, _ => '0') == ['0'];
    }
  }

  lemma HighDigits(n: nat)
    requires 16 <= n
    ensures HexDigits(n) == HexDigits(n / 16) + [HexChar(n % 16)]
  {
  }

  /** From 0x80 on a byte takes eight digits, the first six of them F. */
  lemma HighByteHex(b: Byte)
    requires b >= 0x80
    ensures ByteHex(b) == "FFFFFF" + [HexChar(b as nat / 16), HexChar(b as nat % 16)]
  {
    HighDigits(0xFF);
    HighDigits(0xFFF);
    HighDigits(0xFFFF);
    HighDigits(0xF_FFFF);
    HighDigits(0xFF_FFFF);
    var n := Widen(b);
    assert n / 16 == 0xFFF_FFF0 + b as nat / 16 && n % 16 == b as nat % 16;
    assert n / 16 / 16 == 0xFF_FFFF && n / 16 % 16 == b as nat / 16;
    HighDigits(n);
    HighDigits(n / 16);
    assert HexDigits(0xFF_FFFF) == "FFFFFF";
  }

  predicate Ascii(s: Content) {
    forall i :: 0 <= i < |s| ==> s[i] < 0x80
  }

  predicate AllFF(s: Content) {
    forall i :: 0 <= i < |s| ==> s[i] == 0xFF
  }

  function DigitCount(s: Content): nat {
    if s == [] then 0 else (if s[0] < 0x80 then 2 else 8) + DigitCount(s[1..])
  }

  lemma {:induction false} HexAllLength(s: Content)
    ensures |HexAll(s)| == DigitCount(s) && 2 * |s| <= DigitCount(s) <= 8 * |s|
  {
    if s != [] {
      HexAllLength(s[1..]);
      if s[0] < 0x80 {
        AsciiByteHex(s[0]);
      } else {
        HighByteHex(s[0]);
      }
    }
  }

  /** The hash is as wide as wished exactly when the digits of all bytes fit. */
  lemma HashLength(s: Content, width: nat)
    requires 0 < |s| && 2 * |s| <= width < 0x2000_0000
    ensures Hash(s, width).Some? && 2 * |s| <= |Hash(s, width).value|
    ensures |Hash(s, width).value| == width <==> DigitCount(s) <= width
    ensures HexAll(s) <= Hash(s, width).value
  {
    HexAllLength(s);
    PaddingLength(|HexAll(s)|, width, '0');
  }

  /** The cloud takes the content: it does not travel in a hash, or in one of the right width. */
  predicate Storable(c: Content) {
    |c| == 0 || |c| > TINY || DigitCount(c) <= WIDTH
  }

  /** What the cloud holds after `c` was uploaded whole: tiny content is read back out of its hash. */
  function Stored(c: Content): (r: Content)
    ensures |r| == |c|
  {
    if 0 < |c| <= TINY then
      HashLength(c, WIDTH);
      FromHex(Hash(c, WIDTH).value, |c|)
    else c
  }

  /** What an upload of the whole content registers, if anything. */
  function Registered(c: Content): Option<Content> {
    if Storable(c) then Some(Stored(c)) else None
  }

  /** ASCII first, then nothing but 0xFF: what survives the widening to 32 bits. */
  predicate Survives(s: Content) {
    s == [] || (if s[0] < 0x80 then Survives(s[1..]) else AllFF(s))
  }

  lemma {:induction false} AsciiSurvives(s: Content)
    requires Ascii(s)
    ensures Survives(s) && DigitCount(s) == 2 * |s|
  {
    if s != [] {
      AsciiSurvives(s[1..]);
    }
  }

  lemma {:induction false} FFHex(s: Content, k: nat)
    requires k <= |s| && AllFF(s[..k])
    ensures 8 * k <= |HexAll(s)| && forall i :: 0 <= i < 8 * k ==> HexAll(s)[i] == 'F'
  {
    if k > 0 {
      assert s[0] == s[..k][0];
      HighByteHex(s[0]);
      assert s[1..][..k - 1] == s[..k][1..];
      FFHex(s[1..], k - 1);
    }
  }

  lemma SharedDigits(prefix: string, h: string, i: nat)
    requires prefix <= h && 2 * i + 1 < |prefix|
    ensures h[2 * i] == prefix[2 * i] && h[2 * i + 1] == prefix[2 * i + 1]
  {
  }

  lemma TwoFs(h: string, n: nat, i: nat)
    requires i < n && 2 * n <= |h| && h[2 * i] == 'F' && h[2 * i + 1] == 'F'
    ensures FromHex(h, n)[i] == 0xFF
  {
  }

  lemma DigitsGiveFF(s: Content, h: string, k: nat)
    requires k < |s| && 2 * k + 1 < |HexAll(s)|
    requires HexAll(s)[2 * k] == 'F' && HexAll(s)[2 * k + 1] == 'F'
    requires HexAll(s) <= h && 2 * |s| <= |h|
    ensures FromHex(h, |s|)[k] == 0xFF
  {
    SharedDigits(HexAll(s), h, k);
    TwoFs(h, |s|, k);
  }

  lemma StartsWithFs(s: Content)
    requires s != [] && s[0] >= 0x80
    ensures 8 <= |HexAll(s)| && HexAll(s)[0] == 'F' && HexAll(s)[1] == 'F'
  {
    HighByteHex(s[0]);
    var head, rest := ByteHex(s[0]), HexAll(s[1..]);
    assert HexAll(s) == head + rest;
    assert head[0] == 'F' && head[1] == 'F';
  }

  /** Byte `k` is read from the digits of the bytes before it, or from the first digits. */
  lemma NextIsFF(s: Content, h: string, k: nat)
    requires k < |s| && s[0] >= 0x80 && AllFF(s[..k])
    requires HexAll(s) <= h && 2 * |s| <= |h|
    ensures FromHex(h, |s|)[k] == 0xFF
  {
    StartsWithFs(s);
    FFHex(s, k);
    DigitsGiveFF(s, h, k);
  }

  lemma {:induction false} FirstNonFF(s: Content) returns (j: nat)
    requires !AllFF(s)
    ensures j < |s| && s[j] != 0xFF && AllFF(s[..j])
  {
    var front := s[..|s| - 1];
    if AllFF(front) {
      j := |s| - 1;
    } else {
      j := FirstNonFF(front);
      assert s[..j] == front[..j];
    }
  }

  /** A high first byte forces every byte: its eight digits are read back as the next bytes. */
  lemma HighForcesFF(s: Content, h: string)
    requires 0 < |s| && s[0] >= 0x80
    requires HexAll(s) <= h && 2 * |s| <= |h|
    ensures FromHex(h, |s|) == s ==> AllFF(s)
  {
    if !AllFF(s) {
      var j := FirstNonFF(s);
      NextIsFF(s, h, j);
      assert FromHex(h, |s|)[j] != s[j];
    }
  }

  lemma AllFsReadBack(h: string, n: nat)
    requires 2 * n <= |h| && forall i :: 0 <= i < 2 * n ==> h[i] == 'F'
    ensures AllFF(FromHex(h, n))
  {
    forall i | 0 <= i < n
      ensures FromHex(h, n)[i] == 0xFF
    {
      TwoFs(h, n, i);
    }
  }

  lemma FFReadsBack(s: Content, h: string)
    requires AllFF(s) && HexAll(s) <= h && 2 * |s| <= |h|
    ensures FromHex(h, |s|) == s
  {
    hide HexAll, FromHex, DigitCount;
    assert s[..|s|] == s;
    FFHex(s, |s|);
    HexAllLength(s);
    assert forall i :: 0 <= i < 2 * |s| ==> h[i] == HexAll(s)[i];
    AllFsReadBack(h, |s|);
  }

  lemma FromHexDropByte(h: string, n: nat)
    requires 0 < n && 2 * n <= |h|
    ensures FromHex(h, n) == [ByteFrom(h[0], h[1])] + FromHex(h[2..], n - 1)
  {
    var t := FromHex(h[2..], n - 1);
    forall i | 1 <= i < n
      ensures FromHex(h, n)[i] == t[i - 1]
    {
      assert h[2 * i] == h[2..][2 * (i - 1)] && h[2 * i + 1] == h[2..][2 * (i - 1) + 1];
    }
  }

  lemma PrefixDrop(a: string, b: string, h: string)
    requires a + b <= h
    ensures a <= h && b <= h[|a|..]
  {
    assert h[|a|..][..|b|] == h[..|a + b|][|a|..] == b;
    assert h[..|a|] == h[..|a + b|][..|a|] == a;
  }

  lemma ByteFromChars(b: Byte)
    requires b < 0x80
    ensures ByteFrom(HexChar(b as nat / 16), HexChar(b as nat % 16)) == b
  {
  }

  lemma FromHexAscii(s: Content, h: string)
    requires 0 < |s| && s[0] < 0x80 && HexAll(s) <= h && 2 * |s| <= |h|
    ensures HexAll(s[1..]) <= h[2..]
    ensures FromHex(h, |s|) == [s[0]] + FromHex(h[2..], |s| - 1)
  {
    var head := ByteHex(s[0]);
    AsciiByteHex(s[0]);
    PrefixDrop(head, HexAll(s[1..]), h);
    SharedDigits(head, h, 0);
    ByteFromChars(s[0]);
    FromHexDropByte(h, |s|);
  }

  lemma {:induction false} ReadsBackIff(s: Content, h: string)
    requires HexAll(s) <= h && 2 * |s| <= |h|
    ensures FromHex(h, |s|) == s <==> Survives(s)
  {
    if s == [] {
      assert FromHex(h, 0) == [];
    } else if s[0] < 0x80 {
      FromHexAscii(s, h);
      ReadsBackIff(s[1..], h[2..]);
      assert s == [s[0]] + s[1..];
      assert ([s[0]] + FromHex(h[2..], |s| - 1))[1..] == FromHex(h[2..], |s| - 1);
    } else {
      HighForcesFF(s, h);
      if AllFF(s) {
        FFReadsBack(s, h);
      }
    }
  }

  /** An upload keeps its content exactly if it is not tiny, or its digits fit and its high bytes are a tail
      of 0xFF. */
  lemma StoredIff(c: Content)
    ensures Stored(c) == c <==> |c| == 0 || |c| > 20 || Survives(c)
    ensures Registered(c) == Some(c) <==> |c| == 0 || |c| > 20 || (DigitCount(c) <= 40 && Survives(c))
  {
    if 0 < |c| <= TINY {
      HashLength(c, WIDTH);
      ReadsBackIff(c, Hash(c, WIDTH).value);
    }
  }

  lemma {:induction false} HexAllIsHex(s: Content)
    ensures forall i :: 0 <= i < |HexAll(s)| ==> IsHex(HexAll(s)[i])
  {
    if s != [] {
      HexAllIsHex(s[1..]);
      if s[0] < 0x80 {
        AsciiByteHex(s[0]);
      } else {
        HighByteHex(s[0]);
      }
    }
  }

  lemma PaddingIsHex(length: nat, width: nat)
    requires length <= width < 0x8000_0000
    ensures forall i :: 0 <= i < |Padding(length, width, '0')| ==> IsHex(Padding(length, width, '0')[i])
  {
  }

  /** Seven-bit text of up to half the width: all digits hexadecimal, as many as wished, and they decode to the
      text. */
  lemma AsciiRoundTrip(s: Content, width: nat)
    requires 0 < |s| && 2 * |s| <= width < 0x2000_0000 && Ascii(s)
    ensures Hash(s, width).Some? && |Hash(s, width).value| == width
    ensures forall i :: 0 <= i < width ==> IsHex(Hash(s, width).value[i])
    ensures FromHex(Hash(s, width).value, |s|) == s
  {
    AsciiSurvives(s);
    HashLength(s, width);
    ReadsBackIff(s, Hash(s, width).value);
    HexAllIsHex(s);
    HexAllLength(s);
    PaddingIsHex(|HexAll(s)|, width);
  }

  /** The digits of a seven-bit byte, at its place in the hash, and zeros behind the last one. */
  lemma AsciiDigits(s: Content)
    requires 0 < |s| <= 20 && Ascii(s)
    ensures Hash(s, 40).Some? && |Hash(s, 40).value| == 40
    ensures forall i :: 0 <= i < |s| ==>
              && Hash(s, 40).value[2 * i] == "0123456789ABCDEF"[s[i] as int / 16]
              && Hash(s, 40).value[2 * i + 1] == "0123456789ABCDEF"[s[i] as int % 16]
    ensures forall j :: 2 * |s| <= j < 40 ==> Hash(s, 40).value[j] == '0'
  {
    AsciiSurvives(s);
    HashLength(s, 40);
    HexAllLength(s);
    var h := HexAll(s);
    forall i | 0 <= i < |s|
      ensures h[2 * i] == "0123456789ABCDEF"[s[i] as int / 16]
      ensures h[2 * i + 1] == "0123456789ABCDEF"[s[i] as int % 16]
    {
      DigitsAt(s, i);
    }
    PaddingIsZeros(|h|, 40);
  }

  lemma {:induction false} DigitsAt(s: Content, i: nat)
    requires i < |s| && Ascii(s)
    ensures |HexAll(s)| == 2 * |s|
    ensures HexAll(s)[2 * i] == "0123456789ABCDEF"[s[i] as int / 16]
    ensures HexAll(s)[2 * i + 1] == "0123456789ABCDEF"[s[i] as int % 16]
  {
    AsciiSurvives(s);
    HexAllLength(s);
    AsciiByteHex(s[0]);
    if i == 0 {
      DigitIs(s[0] as nat / 16);
      DigitIs(s[0] as nat % 16);
    } else {
      DigitsAt(s[1..], i - 1);
      var head, rest := ByteHex(s[0]), HexAll(s[1..]);
      assert HexAll(s) == head + rest && |head| == 2;
      assert HexAll(s)[2 * i] == rest[2 * (i - 1)] && HexAll(s)[2 * i + 1] == rest[2 * (i - 1) + 1];
    }
  }

  lemma DigitIs(d: nat)
    requires d < 16
    ensures HexChar(d) == "0123456789ABCDEF"[d]
  {
  }

  lemma PaddingIsZeros(length: nat, width: nat)
    requires length <= width < 0x8000_0000
    ensures forall i :: 0 <= i < |Padding(length, width, '0')| ==> Padding(length, width, '0')[i] == '0'
  {
  }

  /** Tiny content that begins with a high byte comes back as three bytes 0xFF and then that byte, as far as it goes. */
  lemma HighBytesMove(s: Content)
    requires 0 < |s| <= 20 && s[0] >= 0x80
    ensures forall i :: 0 <= i < |s| && i < 3 ==> Stored(s)[i] == 0xFF
    ensures |s| > 3 ==> Stored(s)[3] == s[0]
  {
    hide HexAll, ByteHex, FromHex, HexDigits, Padding;
    HashLength(s, WIDTH);
    var h, b := Hash(s, WIDTH).value, s[0];
    assert Stored(s) == FromHex(h, |s|);
    HeadDigits(s, h);
    forall i | 0 <= i < |s| && i < 3
      ensures FromHex(h, |s|)[i] == 0xFF
    {
      TwoFs(h, |s|, i);
    }
    if |s| > 3 {
      LastPair(b);
      FourthByte(h, |s|, b);
    }
  }

  lemma HeadDigits(s: Content, h: string)
    requires s != [] && s[0] >= 0x80 && HexAll(s) <= h
    ensures |h| >= 8 && forall j :: 0 <= j < 6 ==> h[j] == 'F'
    ensures h[6] == HexChar(s[0] as nat / 16) && h[7] == HexChar(s[0] as nat % 16)
  {
    HighByteHex(s[0]);
    var head, rest := ByteHex(s[0]), HexAll(s[1..]);
    assert HexAll(s) == head + rest;
    PrefixDrop(head, rest, h);
    hide HexAll, ByteHex, HexChar;
    assert h[..8] == head;
    assert forall j :: 0 <= j < 8 ==> h[j] == head[j];
  }

  lemma FourthByte(h: string, n: nat, b: Byte)
    requires 3 < n && 2 * n <= |h| && h[6] == HexChar(b as nat / 16) && h[7] == HexChar(b as nat % 16)
    requires ByteFrom(HexChar(b as nat / 16), HexChar(b as nat % 16)) == b
    ensures FromHex(h, n)[3] == b
  {
    hide HexChar, ByteFrom;
  }

  lemma LastPair(b: Byte)
    ensures ByteFrom(HexChar(b as nat / 16), HexChar(b as nat % 16)) == b
  {
  }

  /** With the width of the cloud: seven-bit text of up to 20 bytes is stored as it is. */
  lemma AsciiIsStored(s: Content)
    requires |s| <= 20 && Ascii(s)
    ensures Registered(s) == Some(s)
  {
    AsciiSurvives(s);
    StoredIff(s);
  }
}
