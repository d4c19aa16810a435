/** The GGA sentence, over the real numbers. */
module Gga {
  import opened Common
  import opened Text

  // ---------- coordinates ----------

  function Abs(x: real): real {
    if x < 0.0 then -x else x
  }

  /** Rounding as fmt does for a fixed number of decimals: to the nearest, ties to even. */
  function Round(x: real): (n: nat)
    requires x >= 0.0
    ensures -0.5 <= n as real - x <= 0.5
    ensures n as real - x == 0.5 || n as real - x == -0.5 ==> n % 2 == 0
  {
    var f := x.Floor;
    var rest := x - f as real;
    if rest < 0.5 || (rest == 0.5 && f % 2 == 0) then f else f + 1
  }

  function ZeroPad(s: string, width: nat): (r: string)
    ensures |r| == if |s| < width then width else |s|
    decreases width - |s|
  {
    if |s| >= width then s else ZeroPad("0" + s, width)
  }

  /** %0w.3f of a number given in thousandths. */
  function Fixed3(thousandths: nat, width: nat): string {
    ZeroPad(Decimal(thousandths / 1000) + "." + ZeroPad(Decimal(thousandths % 1000), 3), width)
  }

  function Degrees(decimal: real): nat {
    Abs(decimal).Floor
  }

  function Minutes(decimal: real): (m: real)
    ensures 0.0 <= m < 60.0
  {
    (Abs(decimal) - Degrees(decimal) as real) * 60.0
  }

  /** DecimalToNMEACoords */
  function Coords(decimal: real, isLatitude: bool): (string, char) {
    (ZeroPad(Decimal(Degrees(decimal)), if isLatitude then 2 else 3) + Fixed3(Round(Minutes(decimal) * 1000.0), 6),
     if decimal < 0.0 then (if isLatitude then 'S' else 'W') else (if isLatitude then 'N' else 'E'))
  }

  /** How a receiver reads a coordinate: whole degrees in the first digits, then minutes with
      three decimals, and the letter of the hemisphere. */
  function ReadCoords(field: string, dir: char, isLatitude: bool): Option<real> {
    var d := if isLatitude then 2 else 3;
    if |field| != d + 6 || field[d + 2] != '.' || Negative(dir, isLatitude).None? then None
    else
      var minutes := ReadDecimal(field[d..d + 2]) as real + ReadDecimal(field[d + 3..]) as real / 1000.0;
      Some(Signed(ReadDecimal(field[..d]) as real + minutes / 60.0, Negative(dir, isLatitude).value))
  }

  function Negative(dir: char, isLatitude: bool): Option<bool> {
    if isLatitude then (if dir == 'N' then Some(false) else if dir == 'S' then Some(true) else None)
    else (if dir == 'E' then Some(false) else if dir == 'W' then Some(true) else None)
  }

  function Signed(x: real, negative: bool): real {
    if negative then -x else x
  }

  lemma {:induction false} LeadingZero(s: string)
    ensures ReadDecimal("0" + s) == ReadDecimal(s)
  {
    if s == "" {
      assert ("0" + s)[..0] == "";
    } else {
      assert ("0" + s)[..|s|] == "0" + s[..|s| - 1];
      LeadingZero(s[..|s| - 1]);
    }
  }

  lemma {:induction false} PaddingReadsBack(s: string, width: nat)
    ensures ReadDecimal(ZeroPad(s, width)) == ReadDecimal(s)
    decreases width - |s|
  {
    if |s| < width {
      LeadingZero(s);
      PaddingReadsBack("0" + s, width);
    }
  }

  lemma DecimalWidth(n: nat)
    ensures |Decimal(n)| <= 1 <==> n < 10
    ensures |Decimal(n)| <= 2 <==> n < 100
    ensures |Decimal(n)| <= 3 <==> n < 1000
  {
    if n >= 10 {
      assert |Decimal(n)| == |Decimal(n / 10)| + 1;
      if n >= 100 {
        assert |Decimal(n / 10)| == |Decimal(n / 10 / 10)| + 1;
        if n >= 1000 {
          assert |Decimal(n / 10 / 10)| == |Decimal(n / 10 / 10 / 10)| + 1;
        }
      }
    }
  }

  lemma PadToSix(whole: string, rest: string)
    requires 1 <= |whole| <= 2 && |rest| == 3
    ensures var r := ZeroPad(whole + "." + rest, 6);
      |r| == 6 && r[2] == '.' && r[..2] == ZeroPad(whole, 2) && r[3..] == rest
  {
    var body := whole + "." + rest;
    if |whole| == 1 {
      assert ZeroPad(body, 6) == "0" + body && ZeroPad(whole, 2) == "0" + whole;
      assert ("0" + body)[..2] == "0" + whole;
    } else {
      assert ZeroPad(body, 6) == body && ZeroPad(whole, 2) == whole;
      assert body[..2] == whole;
    }
  }

  /** Minutes in thousandths are always six characters, "60.000" included. */
  lemma Fixed3Parts(th: nat)
    requires th <= 60000
    ensures |Fixed3(th, 6)| == 6 && Fixed3(th, 6)[2] == '.'
    ensures ReadDecimal(Fixed3(th, 6)[..2]) == th / 1000 && ReadDecimal(Fixed3(th, 6)[3..]) == th % 1000
  {
    DecimalWidth(th / 1000);
    DecimalWidth(th % 1000);
    PadToSix(Decimal(th / 1000), ZeroPad(Decimal(th % 1000), 3));
    DecimalReadsBack(th / 1000);
    DecimalReadsBack(th % 1000);
    PaddingReadsBack(Decimal(th / 1000), 2);
    PaddingReadsBack(Decimal(th % 1000), 3);
  }

  predicate Near(read: real, decimal: real) {
    -1.0 / 120000.0 <= read - decimal <= 1.0 / 120000.0
  }

  lemma ThousandthsBound(decimal: real)
    ensures var th := Round(Minutes(decimal) * 1000.0);
      th <= 60000 && Near(Degrees(decimal) as real + th as real / 60000.0, Abs(decimal))
  {
    var m := Minutes(decimal);
    var th := Round(m * 1000.0);
    assert th as real <= m * 1000.0 + 0.5 < 60000.5;
    assert Abs(decimal) == Degrees(decimal) as real + m / 60.0;
  }

  lemma SignedNear(x: real, decimal: real, isLatitude: bool)
    requires Near(x, Abs(decimal))
    ensures Negative(Coords(decimal, isLatitude).1, isLatitude) == Some(decimal < 0.0)
    ensures Near(Signed(x, decimal < 0.0), decimal)
  {
  }

  /** A coordinate field has its fixed width exactly when the degrees fit their digits. */
  lemma CoordsWidth(decimal: real, isLatitude: bool)
    ensures |Coords(decimal, isLatitude).0| == (if isLatitude then 8 else 9)
       <==> Degrees(decimal) < if isLatitude then 100 else 1000
  {
    ThousandthsBound(decimal);
    Fixed3Parts(Round(Minutes(decimal) * 1000.0));
    DecimalWidth(Degrees(decimal));
  }

  /** And then it reads back to within 1/120000 of a degree, sign included. */
  lemma CoordsReadBack(decimal: real, isLatitude: bool)
    requires Degrees(decimal) < if isLatitude then 100 else 1000
    ensures var (field, dir) := Coords(decimal, isLatitude);
      && |field| == (if isLatitude then 8 else 9)
      && ReadCoords(field, dir, isLatitude).Some? && Near(ReadCoords(field, dir, isLatitude).value, decimal)
  {
    CoordsWidth(decimal, isLatitude);
    var digits := if isLatitude then 2 else 3;
    var th := Round(Minutes(decimal) * 1000.0);
    ThousandthsBound(decimal);
    Fixed3Parts(th);
    DecimalWidth(Degrees(decimal));
    DecimalReadsBack(Degrees(decimal));
    PaddingReadsBack(Decimal(Degrees(decimal)), digits);
    SignedNear(Degrees(decimal) as real + th as real / 60000.0, decimal, isLatitude);
    ReadParts(ZeroPad(Decimal(Degrees(decimal)), digits), Fixed3(th, 6), Coords(decimal, isLatitude).1, isLatitude,
              Degrees(decimal), th);
  }

  lemma WholeAndRest(th: nat)
    ensures ((th / 1000) as real + (th % 1000) as real / 1000.0) / 60.0 == th as real / 60000.0
  {
    assert th as real == (th / 1000) as real * 1000.0 + (th % 1000) as real;
  }

  lemma ReadParts(d: string, minutes: string, dir: char, isLatitude: bool, degrees: nat, th: nat)
    requires |d| == (if isLatitude then 2 else 3) && |minutes| == 6 && minutes[2] == '.' && ReadDecimal(d) == degrees
    requires ReadDecimal(minutes[..2]) == th / 1000 && ReadDecimal(minutes[3..]) == th % 1000
    requires Negative(dir, isLatitude).Some?
    ensures ReadCoords(d + minutes, dir, isLatitude)
         == Some(Signed(degrees as real + th as real / 60000.0, Negative(dir, isLatitude).value))
  {
    var field := d + minutes;
    assert field[..|d|] == d && field[|d|..|d| + 2] == minutes[..2] && field[|d| + 3..] == minutes[3..];
    WholeAndRest(th);
  }

  // ---------- the checksum ----------

  /** Exclusive or, bit by bit from the lowest. */
  function Xor(a: nat, b: nat): nat
    decreases a + b
  {
    if a == 0 && b == 0 then 0 else 2 * Xor(a / 2, b / 2) + (a % 2 + b % 2) % 2
  }

  function Pow2(k: nat): nat {
    if k == 0 then 1 else 2 * Pow2(k - 1)
  }

  /** Exclusive or stays within the bits of its operands. */
  lemma {:induction false} XorBound(a: nat, b: nat, k: nat)
    requires a < Pow2(k) && b < Pow2(k)
    ensures Xor(a, b) < Pow2(k)
  {
    if k > 0 {
      XorBound(a / 2, b / 2, k - 1);
    }
  }

  lemma {:induction false} XorCommutes(a: nat, b: nat)
    ensures Xor(a, b) == Xor(b, a)
    decreases a + b
  {
    if a != 0 || b != 0 {
      XorCommutes(a / 2, b / 2);
    }
  }

  /** With one operand fixed, different operands give different results. */
  lemma {:induction false} XorCancels(a: nat, b: nat, c: nat)
    ensures Xor(a, c) == Xor(b, c) ==> a == b
    decreases a + b + c
  {
    if a + b + c > 0 {
      XorCancels(a / 2, b / 2, c / 2);
    }
  }

  lemma ByteBits()
    ensures Pow2(8) == 256
  {
    assert Pow2(4) == 16;
    assert Pow2(6) == 64;
  }

  function Checksum(s: string): (sum: nat)
    requires IsByteString(s)
    ensures sum < 256
  {
    if s == "" then 0
    else
      ByteBits();
      XorBound(Checksum(s[..|s| - 1]), s[|s| - 1] as nat, 8);
      Xor(Checksum(s[..|s| - 1]), s[|s| - 1] as nat)
  }

  // ---------- the checksum, bit by bit ----------

  /** Bit k of a number. */
  function Bit(n: nat, k: nat): nat {
    if k == 0 then n % 2 else Bit(n / 2, k - 1)
  }

  /** How many bytes of the text have bit k set. */
  function BytesWithBit(s: string, k: nat): nat {
    if s == "" then 0 else BytesWithBit(s[1..], k) + Bit(s[0] as nat, k)
  }

  lemma {:induction false} XorBit(a: nat, b: nat, k: nat)
    ensures Bit(Xor(a, b), k) == (Bit(a, k) + Bit(b, k)) % 2
    decreases k
  {
    assert Xor(a, b) / 2 == Xor(a / 2, b / 2) && Xor(a, b) % 2 == (a % 2 + b % 2) % 2;
    if k > 0 {
      XorBit(a / 2, b / 2, k - 1);
    }
  }

  lemma {:induction false} ZeroBit(k: nat)
    ensures Bit(0, k) == 0
  {
    if k > 0 {
      ZeroBit(k - 1);
    }
  }

  lemma {:induction false} LastByteBit(s: string, k: nat)
    requires s != ""
    ensures BytesWithBit(s, k) == BytesWithBit(s[..|s| - 1], k) + Bit(s[|s| - 1] as nat, k)
  {
    if |s| > 1 {
      assert s[1..][..|s[1..]| - 1] == s[..|s| - 1][1..];
      LastByteBit(s[1..], k);
    } else {
      assert s[1..] == "" == s[..0];
    }
  }

  /** The numbers' bits are the parities of the text: of the bytes that have the bit set, an odd
      number if it is one and an even number if it is zero. */
  ghost predicate Parities(sum: nat, s: string) {
    forall k: nat :: k < 8 ==> Bit(sum, k) == BytesWithBit(s, k) % 2
  }

  lemma {:induction false} ChecksumParity(s: string, k: nat)
    requires IsByteString(s)
    ensures Bit(Checksum(s), k) == BytesWithBit(s, k) % 2
  {
    if s == "" {
      ZeroBit(k);
    } else {
      var before := s[..|s| - 1];
      ChecksumParity(before, k);
      LastByteBit(s, k);
      XorBit(Checksum(before), s[|s| - 1] as nat, k);
    }
  }

  lemma ChecksumParities(s: string)
    requires IsByteString(s)
    ensures Parities(Checksum(s), s)
  {
    forall k: nat | k < 8 ensures Bit(Checksum(s), k) == BytesWithBit(s, k) % 2 {
      ChecksumParity(s, k);
    }
  }

  /** Bits below k decide a number below 2 to the k. */
  lemma {:induction false} BitsDecide(a: nat, b: nat, k: nat)
    requires a < Pow2(k) && b < Pow2(k) && forall j: nat :: j < k ==> Bit(a, j) == Bit(b, j)
    ensures a == b
  {
    if k > 0 {
      assert Bit(a, 0) == Bit(b, 0);
      forall j: nat | j < k - 1 ensures Bit(a / 2, j) == Bit(b / 2, j) {
        assert Bit(a, j + 1) == Bit(b, j + 1);
      }
      BitsDecide(a / 2, b / 2, k - 1);
    }
  }

  /** So there is only one byte with these parities. */
  lemma ParitiesDecide(sum: nat, s: string)
    requires IsByteString(s) && sum < 256
    ensures Parities(sum, s) <==> sum == Checksum(s)
  {
    ChecksumParities(s);
    if Parities(sum, s) {
      ByteBits();
      BitsDecide(sum, Checksum(s), 8);
    }
  }

  /** Changing one byte changes the checksum. */
  lemma {:induction false} OneByteCounts(s: string, i: nat, c: char)
    requires IsByteString(s) && i < |s| && c as int < 256 && c != s[i]
    ensures Checksum(s[i := c]) != Checksum(s)
  {
    var t := s[i := c];
    var before, last := s[..|s| - 1], s[|s| - 1] as nat;
    if i == |s| - 1 {
      assert t[..|s| - 1] == before;
      XorCommutes(Checksum(before), c as nat);
      XorCommutes(Checksum(before), last);
      XorCancels(c as nat, last, Checksum(before));
    } else {
      assert t[..|s| - 1] == before[i := c];
      OneByteCounts(before, i, c);
      XorCancels(Checksum(before[i := c]), Checksum(before), last);
    }
  }

  const HEX: string := "0123456789ABCDEF"

  /** %02X of a byte */
  function Hex(b: nat): (s: string)
    requires b < 256
    ensures |s| == 2
  {
    HexDigits();
    [HEX[b / 16], HEX[b % 16]]
  }

  lemma HexDigits()
    ensures |HEX| == 16 && forall i, j :: 0 <= i < j < 16 ==> HEX[i] != HEX[j]
  {
  }

  /** How a receiver reads two hexadecimal digits. */
  function ReadHex(s: string): Option<nat> {
    if |s| == 2 && HexValue(s[0]).Some? && HexValue(s[1]).Some? then Some(16 * HexValue(s[0]).value + HexValue(s[1]).value)
    else None
  }

  function HexValue(c: char): (v: Option<nat>)
    ensures v.Some? ==> v.value < 16
  {
    if '0' <= c <= '9' then Some(c as nat - '0' as nat)
    else if 'A' <= c <= 'F' then Some(c as nat - 'A' as nat + 10)
    else None
  }

  lemma HexDigitReadsBack(n: nat)
    requires n < 16
    ensures |HEX| == 16 && HexValue(HEX[n]) == Some(n)
  {
  }

  lemma HexReadsBack(b: nat)
    requires b < 256
    ensures ReadHex(Hex(b)) == Some(b)
  {
    HexDigitReadsBack(b / 16);
    HexDigitReadsBack(b % 16);
  }

  lemma ReadHexBound(s: string)
    ensures ReadHex(s).Some? ==> ReadHex(s).value < 256
  {
  }

  function Framed(body: string, digits: string): string {
    "$" + body + "*" + digits + "\r\n"
  }

  function Sentence(body: string): string
    requires IsByteString(body)
  {
    Framed(body, Hex(Checksum(body)))
  }

  /** What a receiver checks: after the first '*' there are two hexadecimal digits and the end
      of the line, and the bits of their number are the parities of what is between '$' and
      the '*'. */
  ghost predicate Verifies(line: string) {
    && line != "" && line[0] == '$'
    && var (body, tail, found) := Cut(line[1..], '*');
    && found && IsByteString(body) && |tail| == 4 && tail[2..] == "\r\n"
    && ReadHex(tail[..2]).Some? && Parities(ReadHex(tail[..2]).value, body)
  }

  lemma FramedParts(body: string, digits: string)
    ensures Framed(body, digits) != "" && Framed(body, digits)[0] == '$'
    ensures Framed(body, digits)[1..] == body + ['*'] + (digits + "\r\n")
  {
  }

  /** Whether a line verifies when its body has no '*'. */
  lemma VerifiesExactly(body: string, digits: string)
    requires IsByteString(body) && Without(body, '*') && |digits| == 2
    ensures Cut(Framed(body, digits)[1..], '*').0 == body
    ensures Verifies(Framed(body, digits)) <==> ReadHex(digits) == Some(Checksum(body))
  {
    var tail := digits + "\r\n";
    FramedParts(body, digits);
    CutAt(body, '*', tail);
    assert tail[..2] == digits && tail[2..] == "\r\n";
    ReadHexBound(digits);
    if ReadHex(digits).Some? {
      ParitiesDecide(ReadHex(digits).value, body);
    }
  }

  /** A sentence verifies, and with any one byte of its body changed it does not. */
  lemma {:induction false} ChecksumProtects(body: string, i: nat, c: char)
    requires IsByteString(body) && Without(body, '*') && i < |body| && c as int < 256
    ensures Verifies(Framed(body[i := c], Hex(Checksum(body)))) <==> c == body[i]
  {
    var digits := Hex(Checksum(body));
    HexReadsBack(Checksum(body));
    if c == body[i] {
      assert body[i := c] == body;
      VerifiesExactly(body, digits);
    } else if c == '*' {
      StarTooEarly(body, i, digits);
    } else {
      VerifiesExactly(body[i := c], digits);
      OneByteCounts(body, i, c);
    }
  }

  lemma StarTooEarly(body: string, i: nat, digits: string)
    requires Without(body, '*') && i < |body| && |digits| == 2
    ensures !Verifies(Framed(body[i := '*'], digits))
  {
    var after := body[i + 1..] + ['*'] + (digits + "\r\n");
    FramedParts(body[i := '*'], digits);
    assert body[i := '*'] + ['*'] + (digits + "\r\n") == body[..i] + ['*'] + after;
    CutAt(body[..i], '*', after);
  }

  method ChecksumOf(gga: string) returns (checksum: nat)
    requires IsByteString(gga)
    ensures checksum == Checksum(gga) && checksum < 256 && Parities(checksum, gga)
  {
    ChecksumParities(gga);
    checksum := 0;
    for i := 0 to |gga|
      invariant checksum == Checksum(gga[..i])
    {
      assert gga[..i + 1][..i] == gga[..i];
      checksum := Xor(checksum, gga[i] as nat);
    }
    assert gga[..|gga|] == gga;
  }

  // ---------- the sentence ----------

  /** Digits, with a sign or a point. */
  predicate Numeric(s: string) {
    forall i :: 0 <= i < |s| ==> '0' <= s[i] <= '9' || s[i] == '.' || s[i] == '-'
  }

  predicate AllDigits(s: string) {
    forall i :: 0 <= i < |s| ==> '0' <= s[i] <= '9'
  }

  lemma {:induction false} DecimalNumeric(n: nat)
    ensures Numeric(Decimal(n)) && AllDigits(Decimal(n))
  {
    if n >= 10 {
      DecimalNumeric(n / 10);
    }
  }

  lemma {:induction false} PaddingNumeric(s: string, width: nat)
    requires Numeric(s)
    ensures Numeric(ZeroPad(s, width))
    decreases width - |s|
  {
    if |s| < width {
      PaddingNumeric("0" + s, width);
    }
  }

  function Two(n: nat): (s: string)
    ensures Numeric(s)
  {
    DecimalNumeric(n);
    PaddingNumeric(Decimal(n), 2);
    ZeroPad(Decimal(n), 2)
  }

  function TimeText(hour: nat, minute: nat, second: nat): (s: string)
    ensures Numeric(s)
  {
    Two(hour) + Two(minute) + Two(second) + ".00"
  }

  /** %.1f */
  function Fixed1(x: real): (s: string)
    ensures Numeric(s)
  {
    var tenths := Round(Abs(x) * 10.0);
    DecimalNumeric(tenths / 10);
    DecimalNumeric(tenths % 10);
    (if x < 0.0 then "-" else "") + Decimal(tenths / 10) + "." + Decimal(tenths % 10)
  }

  /** A number with a sign and decimals. */
  function ReadFixed(s: string): real {
    if s != "" && s[0] == '-' then -ReadUnsigned(s[1..]) else ReadUnsigned(s)
  }

  function ReadUnsigned(s: string): real {
    var (whole, decimals, _) := Cut(s, '.');
    ReadDecimal(whole) as real + ReadDecimal(decimals) as real / 10.0
  }

  lemma UnsignedReadsBack(tenths: nat)
    ensures var s := Decimal(tenths / 10) + "." + Decimal(tenths % 10);
      ReadUnsigned(s) == tenths as real / 10.0 && s[0] != '-'
  {
    DecimalNumeric(tenths / 10);
    CutAt(Decimal(tenths / 10), '.', Decimal(tenths % 10));
    assert Decimal(tenths / 10) + "." + Decimal(tenths % 10) == Decimal(tenths / 10) + ['.'] + Decimal(tenths % 10);
    DecimalReadsBack(tenths / 10);
    DecimalReadsBack(tenths % 10);
    assert tenths as real == (tenths / 10) as real * 10.0 + (tenths % 10) as real;
  }

  /** The altitude reads back to within half of its last decimal. */
  lemma FixedReadsBack(x: real)
    ensures -0.05 <= ReadFixed(Fixed1(x)) - x <= 0.05
  {
    var tenths := Round(Abs(x) * 10.0);
    var s := Decimal(tenths / 10) + "." + Decimal(tenths % 10);
    UnsignedReadsBack(tenths);
    if x < 0.0 {
      assert Fixed1(x) == "-" + s && ("-" + s)[1..] == s;
    } else {
      assert Fixed1(x) == s;
    }
  }

  lemma CoordsNumeric(decimal: real, isLatitude: bool)
    ensures Numeric(Coords(decimal, isLatitude).0)
  {
    var th := Round(Minutes(decimal) * 1000.0);
    DecimalNumeric(Degrees(decimal));
    PaddingNumeric(Decimal(Degrees(decimal)), if isLatitude then 2 else 3);
    DecimalNumeric(th / 1000);
    DecimalNumeric(th % 1000);
    PaddingNumeric(Decimal(th % 1000), 3);
    PaddingNumeric(Decimal(th / 1000) + "." + ZeroPad(Decimal(th % 1000), 3), 6);
  }

  function JoinBy(fields: seq<string>, c: char): string
    requires fields != []
  {
    if |fields| == 1 then fields[0] else fields[0] + [c] + JoinBy(fields[1..], c)
  }

  lemma {:induction false} SplitWhole(s: string, c: char)
    requires Without(s, c)
    ensures Split(s, c) == [s]
  {
    if s != "" {
      SplitWhole(s[1..], c);
      assert [s[0]] + s[1..] == s;
    }
  }

  lemma {:induction false} SplitUndoesJoin(fields: seq<string>, c: char)
    requires fields != [] && forall i :: 0 <= i < |fields| ==> Without(fields[i], c)
    ensures Split(JoinBy(fields, c), c) == fields
  {
    if |fields| == 1 {
      SplitWhole(fields[0], c);
    } else {
      SplitUndoesJoin(fields[1..], c);
      SplitAt(fields[0], c, JoinBy(fields[1..], c));
    }
  }

  /** Text that neither ends a field nor the body. */
  predicate FieldText(s: string) {
    IsByteString(s) && Without(s, ',') && Without(s, '*')
  }

  lemma {:induction false} JoinedFields(fields: seq<string>)
    requires fields != [] && AllFieldText(fields)
    ensures IsByteString(JoinBy(fields, ',')) && Without(JoinBy(fields, ','), '*')
  {
    if |fields| > 1 {
      JoinedFields(fields[1..]);
    }
  }

  datatype Fix = Fix(hour: nat, minute: nat, second: nat, latitude: real, longitude: real, altitude: real)

  function PositionFields(f: Fix): seq<string> {
    var (lat, latDir) := Coords(f.latitude, true);
    var (lon, lonDir) := Coords(f.longitude, false);
    ["GPGGA", TimeText(f.hour, f.minute, f.second), lat, [latDir], lon, [lonDir]]
  }

  function QualityFields(f: Fix): seq<string> {
    ["1", "12", "1.0", Fixed1(f.altitude), "M", "0.0", "M", "", ""]
  }

  function GgaFields(f: Fix): seq<string> {
    PositionFields(f) + QualityFields(f)
  }

  ghost predicate AllFieldText(fields: seq<string>) {
    forall i :: 0 <= i < |fields| ==> FieldText(fields[i])
  }

  lemma PositionFieldsOk(f: Fix)
    ensures AllFieldText(PositionFields(f))
  {
    CoordsNumeric(f.latitude, true);
    CoordsNumeric(f.longitude, false);
  }

  lemma QualityFieldsOk(f: Fix)
    ensures AllFieldText(QualityFields(f))
  {
  }

  lemma FieldsOk(f: Fix)
    ensures |GgaFields(f)| == 15 && AllFieldText(GgaFields(f))
  {
    PositionFieldsOk(f);
    QualityFieldsOk(f);
  }

  function Gga(f: Fix): string {
    FieldsOk(f);
    JoinedFields(GgaFields(f));
    Sentence(JoinBy(GgaFields(f), ','))
  }

  /** What a receiver makes of a line. */
  datatype Reading = Reading(hour: int, minute: int, second: int, latitude: real, longitude: real, altitude: real)

  /** hhmmss.00 */
  predicate IsTime(s: string) {
    |s| == 9 && s[6..] == ".00"
  }

  /** The fields behind the position: a fix of quality 1 by 12 satellites, and so on. */
  predicate UsualQuality(fields: seq<string>)
    requires |fields| == 15
  {
    && fields[6] == "1" && fields[7] == "12" && fields[8] == "1.0" && fields[10] == "M"
    && fields[11] == "0.0" && fields[12] == "M" && fields[13] == "" && fields[14] == ""
  }

  function ReadFields(fields: seq<string>): Option<Reading> {
    if !(|fields| == 15 && fields[0] == "GPGGA" && IsTime(fields[1]) && |fields[3]| == 1 && |fields[5]| == 1) then None
    else if !UsualQuality(fields) then None
    else
      var time, lat, lon := fields[1], ReadCoords(fields[2], fields[3][0], true), ReadCoords(fields[4], fields[5][0], false);
      if lat.Some? && lon.Some? then
        Some(Reading(ReadDecimal(time[..2]), ReadDecimal(time[2..4]), ReadDecimal(time[4..6]),
                     lat.value, lon.value, ReadFixed(fields[9])))
      else None
  }

  /** The fields count if the checksum is right. */
  ghost function ReadFix(line: string): Option<Reading> {
    if Verifies(line) then ReadFields(Split(Cut(line[1..], '*').0, ',')) else None
  }

  predicate Validated(f: Fix) {
    -90.0 <= f.latitude <= 90.0 && -180.0 <= f.longitude <= 180.0
  }

  /** A time of day, as a clock shows it. */
  predicate OnClock(f: Fix) {
    f.hour < 24 && f.minute < 60 && f.second < 60
  }

  lemma TwoReadsBack(n: nat)
    requires n < 100
    ensures |Two(n)| == 2 && ReadDecimal(Two(n)) == n
  {
    DecimalWidth(n);
    DecimalReadsBack(n);
    PaddingReadsBack(Decimal(n), 2);
  }

  lemma TimeReadsBack(hour: nat, minute: nat, second: nat)
    requires hour < 24 && minute < 60 && second < 60
    ensures var s := TimeText(hour, minute, second);
      && IsTime(s)
      && ReadDecimal(s[..2]) == hour && ReadDecimal(s[2..4]) == minute && ReadDecimal(s[4..6]) == second
  {
    TwoReadsBack(hour);
    TwoReadsBack(minute);
    TwoReadsBack(second);
    var s := TimeText(hour, minute, second);
    assert s[..2] == Two(hour) && s[2..4] == Two(minute) && s[4..6] == Two(second) && s[6..] == ".00";
  }

  /** The reading is that of the fix: its time, its position to within 1/120000 of a degree and
      its altitude to within 1/20. */
  predicate ReadingOf(read: Reading, f: Fix) {
    && read.hour == f.hour && read.minute == f.minute && read.second == f.second
    && Near(read.latitude, f.latitude) && Near(read.longitude, f.longitude)
    && -0.05 <= read.altitude - f.altitude <= 0.05
  }

  lemma FieldsReadBack(f: Fix)
    requires Validated(f) && OnClock(f)
    ensures var read := ReadFields(GgaFields(f)); read.Some? && ReadingOf(read.value, f)
  {
    TimeReadsBack(f.hour, f.minute, f.second);
    CoordsReadBack(f.latitude, true);
    CoordsReadBack(f.longitude, false);
    FixedReadsBack(f.altitude);
    assert UsualQuality(GgaFields(f));
  }

  /** From the sentence for a validated position a receiver reads back that position, the time
      and the altitude. */
  lemma {:induction false} GgaReadsBack(f: Fix)
    requires Validated(f) && OnClock(f)
    ensures var read := ReadFix(Gga(f)); read.Some? && ReadingOf(read.value, f)
  {
    var fields := GgaFields(f);
    FieldsOk(f);
    JoinedFields(fields);
    HexReadsBack(Checksum(JoinBy(fields, ',')));
    VerifiesExactly(JoinBy(fields, ','), Hex(Checksum(JoinBy(fields, ','))));
    SplitUndoesJoin(fields, ',');
    FieldsReadBack(f);
  }

  method GenerateChecked(f: Fix) returns (r: Result<string>)
    ensures r.Ok? <==> -90.0 <= f.latitude <= 90.0 && -180.0 <= f.longitude <= 180.0
    ensures r.Ok? ==> Validated(f) && r.value == Gga(f)
  {
    if f.latitude < -90.0 || f.latitude > 90.0 {
      return Err;
    }
    if f.longitude < -180.0 || f.longitude > 180.0 {
      return Err;
    }
    FieldsOk(f);
    JoinedFields(GgaFields(f));
    var gga := JoinBy(GgaFields(f), ',');
    var checksum := ChecksumOf(gga);
    return Ok(Framed(gga, Hex(checksum)));
  }
}
