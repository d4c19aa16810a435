/** Base64 with padding (section 4 of RFC 4648) over strings whose chars stand for bytes.
    Decoding skips CR and LF and, like Go's standard encoding, does not look at the spare
    bits of a last group. */
module Base64 {
  import opened Common
  import opened Text

  function Digit(n: nat): char
    requires n < 64
  {
    if n < 26 then (n + 65) as char        // A..Z
    else if n < 52 then (n - 26 + 97) as char  // a..z
    else if n < 62 then (n - 52 + 48) as char  // 0..9
    else if n == 62 then '+' else '/'
  }

  function Value(c: char): Option<nat> {
    if 'A' <= c <= 'Z' then Some(c as nat - 65)
    else if 'a' <= c <= 'z' then Some(c as nat - 97 + 26)
    else if '0' <= c <= '9' then Some(c as nat - 48 + 52)
    else if c == '+' then Some(62)
    else if c == '/' then Some(63)
    else None
  }

  /** Three bytes as four digits, and back. */
  function Split3(a: nat, b: nat, c: nat): (nat, nat, nat, nat) {
    (a / 4, a % 4 * 16 + b / 16, b % 16 * 4 + c / 64, c % 64)
  }

  function Merge4(w: nat, x: nat, y: nat, z: nat): (nat, nat, nat) {
    (w * 4 + x / 16, x % 16 * 16 + y / 4, y % 4 * 64 + z)
  }

  lemma MergeSplit(a: nat, b: nat, c: nat)
    requires a < 256 && b < 256 && c < 256
    ensures var (w, x, y, z) := Split3(a, b, c);
      w < 64 && x < 64 && y < 64 && z < 64 && Merge4(w, x, y, z) == (a, b, c)
  {
  }

  /** The four digits of a full group. */
  function Group(a: nat, b: nat, c: nat): (r: string)
    requires a < 256 && b < 256 && c < 256
    ensures |r| == 4
  {
    var (w, x, y, z) := Split3(a, b, c);
    [Digit(w), Digit(x), Digit(y), Digit(z)]
  }

  function Encode(s: string): string
    requires IsByteString(s)
  {
    if s == "" then ""
    else if |s| == 1 then Group(s[0] as nat, 0, 0)[..2] + "=="
    else if |s| == 2 then Group(s[0] as nat, s[1] as nat, 0)[..3] + "="
    else Group(s[0] as nat, s[1] as nat, s[2] as nat) + Encode(s[3..])
  }

  function WithoutNewlines(s: string): string {
    if s == "" then ""
    else if s[0] == '\r' || s[0] == '\n' then WithoutNewlines(s[1..])
    else [s[0]] + WithoutNewlines(s[1..])
  }

  /** Digit values below 64 merge to numbers below 256. */
  function Byte(n: nat): char {
    if n < 256 then n as char else '\0'
  }

  /** The bytes of a full group of four digit values. */
  function Bytes(w: nat, x: nat, y: nat, z: nat): string {
    var m := Merge4(w, x, y, z);
    [Byte(m.0), Byte(m.1), Byte(m.2)]
  }

  function DecodeGroups(s: string): Result<string> {
    if s == "" then Ok("")
    else if |s| < 4 then Err
    else
      match (Value(s[0]), Value(s[1]), Value(s[2]), Value(s[3]))
      case (Some(w), Some(x), Some(y), Some(z)) =>
        (match DecodeGroups(s[4..])
         case Ok(rest) => Ok(Bytes(w, x, y, z) + rest)
         case Err => Err)
      case (Some(w), Some(x), Some(y), None) =>
        if s[3] == '=' && |s| == 4 then Ok(Bytes(w, x, y, 0)[..2]) else Err
      case (Some(w), Some(x), None, _) =>
        if s[2] == '=' && s[3] == '=' && |s| == 4 then Ok(Bytes(w, x, 0, 0)[..1]) else Err
      case _ => Err
  }

  function Decode(s: string): Result<string> {
    DecodeGroups(WithoutNewlines(s))
  }

  lemma {:induction false} NewlineLeftOut(before: string, c: char, after: string)
    requires c == '\r' || c == '\n'
    ensures WithoutNewlines(before + [c] + after) == WithoutNewlines(before + after)
  {
    if before == "" {
      assert ("" + [c] + after)[1..] == after && "" + after == after;
    } else {
      assert (before + [c] + after)[1..] == before[1..] + [c] + after && (before + after)[1..] == before[1..] + after;
      NewlineLeftOut(before[1..], c, after);
    }
  }

  lemma {:induction false} AllNewlinesLeftOut(s: string)
    ensures OneLine(WithoutNewlines(s)) && (OneLine(s) ==> WithoutNewlines(s) == s)
  {
    if s != "" {
      AllNewlinesLeftOut(s[1..]);
    }
  }

  /** Line breaks anywhere make no difference, and nothing else is passed over. */
  lemma DecodeSkips(before: string, c: char, after: string)
    ensures c == '\r' || c == '\n' ==> Decode(before + [c] + after) == Decode(before + after)
    ensures OneLine(before) ==> Decode(before) == DecodeGroups(before)
  {
    if c == '\r' || c == '\n' {
      NewlineLeftOut(before, c, after);
    }
    AllNewlinesLeftOut(before);
  }

  predicate IsDigit(c: char) {
    Value(c).Some? || c == '='
  }

  lemma ValueOfDigit(n: nat)
    requires n < 64
    ensures Value(Digit(n)) == Some(n)
  {
  }

  lemma GroupIsDigits(a: nat, b: nat, c: nat)
    requires a < 256 && b < 256 && c < 256
    ensures forall i :: 0 <= i < 4 ==> IsDigit(Group(a, b, c)[i])
  {
    var w, x, y, z := GroupValues(a, b, c);
    DigitValues(w, x, y, z);
  }

  lemma {:induction false} EncodeDigits(s: string)
    requires IsByteString(s)
    ensures forall i :: 0 <= i < |Encode(s)| ==> IsDigit(Encode(s)[i])
    ensures s != "" ==> |Encode(s)| >= 4
  {
    if |s| > 2 {
      EncodeDigits(s[3..]);
      GroupIsDigits(s[0] as nat, s[1] as nat, s[2] as nat);
    } else if |s| == 2 {
      GroupIsDigits(s[0] as nat, s[1] as nat, 0);
    } else if |s| == 1 {
      GroupIsDigits(s[0] as nat, 0, 0);
    }
  }

  lemma {:induction false} NoNewlines(s: string)
    requires OneLine(s)
    ensures WithoutNewlines(s) == s
  {
    if s != "" {
      NoNewlines(s[1..]);
    }
  }

  lemma DecodeFull(w: nat, x: nat, y: nat, z: nat, rest: string, decoded: string)
    requires w < 64 && x < 64 && y < 64 && z < 64 && DecodeGroups(rest) == Ok(decoded)
    ensures DecodeGroups([Digit(w), Digit(x), Digit(y), Digit(z)] + rest) == Ok(Bytes(w, x, y, z) + decoded)
  {
    DigitValues(w, x, y, z);
    var s := [Digit(w), Digit(x), Digit(y), Digit(z)] + rest;
    assert s[4..] == rest;
  }

  lemma DecodePadded(w: nat, x: nat, y: nat)
    requires w < 64 && x < 64 && y < 64
    ensures DecodeGroups([Digit(w), Digit(x), '=', '=']) == Ok(Bytes(w, x, 0, 0)[..1])
    ensures DecodeGroups([Digit(w), Digit(x), Digit(y), '=']) == Ok(Bytes(w, x, y, 0)[..2])
  {
    DigitValues(w, x, y, y);
  }

  lemma DigitValues(w: nat, x: nat, y: nat, z: nat)
    requires w < 64 && x < 64 && y < 64 && z < 64
    ensures Value(Digit(w)) == Some(w) && Value(Digit(x)) == Some(x)
    ensures Value(Digit(y)) == Some(y) && Value(Digit(z)) == Some(z)
  {
    ValueOfDigit(w);
    ValueOfDigit(x);
    ValueOfDigit(y);
    ValueOfDigit(z);
  }

  /** A group in terms of its digit values alone. */
  lemma GroupValues(a: nat, b: nat, c: nat) returns (w: nat, x: nat, y: nat, z: nat)
    requires a < 256 && b < 256 && c < 256
    ensures w < 64 && x < 64 && y < 64 && z < 64
    ensures Group(a, b, c) == [Digit(w), Digit(x), Digit(y), Digit(z)]
    ensures Bytes(w, x, y, z) == [a as char, b as char, c as char]
    ensures (c == 0 ==> z == 0) && (b == c == 0 ==> y == 0)
  {
    MergeSplit(a, b, c);
    var split := Split3(a, b, c);
    w, x, y, z := split.0, split.1, split.2, split.3;
    MergedBytes(w, x, y, z, a, b, c);
  }

  lemma MergedBytes(w: nat, x: nat, y: nat, z: nat, a: nat, b: nat, c: nat)
    requires Merge4(w, x, y, z) == (a, b, c) && a < 256 && b < 256 && c < 256
    ensures Bytes(w, x, y, z) == [a as char, b as char, c as char]
  {
  }

  lemma {:induction false} DecodeOne(c: char)
    requires c as int < 256
    ensures DecodeGroups(Group(c as nat, 0, 0)[..2] + "==") == Ok([c])
  {
    var w, x, y, z := GroupValues(c as nat, 0, 0);
    DecodePadded(w, x, 0);
    assert [Digit(w), Digit(x), Digit(y), Digit(z)][..2] + "==" == [Digit(w), Digit(x), '=', '='];
    assert [c, '\0', '\0'][..1] == [c];
  }

  lemma {:induction false} DecodeTwo(c: char, d: char)
    requires c as int < 256 && d as int < 256
    ensures DecodeGroups(Group(c as nat, d as nat, 0)[..3] + "=") == Ok([c, d])
  {
    var w, x, y, z := GroupValues(c as nat, d as nat, 0);
    DecodePadded(w, x, y);
    assert [Digit(w), Digit(x), Digit(y), Digit(z)][..3] + "=" == [Digit(w), Digit(x), Digit(y), '='];
    assert [c, d, '\0'][..2] == [c, d];
  }

  lemma DecodeThree(c: char, d: char, e: char, rest: string, decoded: string)
    requires c as int < 256 && d as int < 256 && e as int < 256 && DecodeGroups(rest) == Ok(decoded)
    ensures DecodeGroups(Group(c as nat, d as nat, e as nat) + rest) == Ok([c, d, e] + decoded)
  {
    var w, x, y, z := GroupValues(c as nat, d as nat, e as nat);
    DecodeFull(w, x, y, z, rest, decoded);
  }

  lemma Head3(s: string)
    requires |s| > 2
    ensures [s[0], s[1], s[2]] + s[3..] == s
  {
  }

  lemma {:induction false} DecodeGroupsOfEncode(s: string)
    requires IsByteString(s)
    ensures DecodeGroups(Encode(s)) == Ok(s)
  {
    if |s| > 2 {
      DecodeGroupsOfEncode(s[3..]);
      DecodeThree(s[0], s[1], s[2], Encode(s[3..]), s[3..]);
      Head3(s);
    } else if |s| == 2 {
      DecodeTwo(s[0], s[1]);
      assert [s[0], s[1]] == s;
    } else if |s| == 1 {
      DecodeOne(s[0]);
      assert [s[0]] == s;
    }
  }

  /** Decoding undoes encoding, for every byte string. */
  lemma {:induction false} DecodeOfEncode(s: string)
    requires IsByteString(s)
    ensures Decode(Encode(s)) == Ok(s)
  {
    EncodeDigits(s);
    NoNewlines(Encode(s));
    DecodeGroupsOfEncode(s);
  }

  /** The encoding has nothing in it that header parsing would cut or trim. */
  lemma EncodeIsPlain(s: string)
    requires IsByteString(s)
    ensures OneLine(Encode(s)) && SpaceFree(Encode(s)) && (s != "" ==> Encode(s) != "")
  {
    EncodeDigits(s);
  }

  // ---------- the code itself ----------

  /** Table 1 of RFC 4648. */
  const ALPHABET: string := "ABCDEFGHIJKLMNOPQRSTUVWXYZ" + "abcdefghijklmnopqrstuvwxyz" + "0123456789+/"

  lemma UpperDigits()
    ensures forall n :: 0 <= n < 26 ==> "ABCDEFGHIJKLMNOPQRSTUVWXYZ"[n] == (n + 65) as char
  {
  }

  lemma LowerDigits()
    ensures forall n :: 0 <= n < 26 ==> "abcdefghijklmnopqrstuvwxyz"[n] == (n + 97) as char
  {
  }

  lemma OtherDigits()
    ensures forall n :: 0 <= n < 10 ==> "0123456789+/"[n] == (n + 48) as char
    ensures "0123456789+/"[10] == '+' && "0123456789+/"[11] == '/'
  {
  }

  /** The digits are those of the table, and nothing else has a value. */
  lemma DigitsAreTheTable(n: nat)
    requires n < 64
    ensures |ALPHABET| == 64 && Digit(n) == ALPHABET[n]
  {
    UpperDigits();
    LowerDigits();
    OtherDigits();
  }

  lemma ValueExactly(c: char, n: nat)
    ensures Value(c) == Some(n) <==> n < 64 && Digit(n) == c
  {
  }

  /** A group is one number of 24 bits, written in four digits of six bits, the highest first. */
  lemma GroupIsPositional(a: nat, b: nat, c: nat)
    requires a < 256 && b < 256 && c < 256
    ensures var (w, x, y, z) := Split3(a, b, c);
      w < 64 && x < 64 && y < 64 && z < 64 && 262144 * w + 4096 * x + 64 * y + z == 65536 * a + 256 * b + c
  {
  }

  /** How much padding a text ends with. */
  function Padding(t: string): nat {
    if |t| >= 2 && t[|t| - 1] == '=' && t[|t| - 2] == '=' then 2
    else if t != "" && t[|t| - 1] == '=' then 1
    else 0
  }

  /** Groups of four digits, the last one with one or two of them replaced by padding. */
  predicate WellFormed(t: string) {
    |t| % 4 == 0 && forall i :: 0 <= i < |t| - Padding(t) ==> Value(t[i]).Some?
  }

  predicate FourDigits(t: string) {
    |t| >= 4 && forall i :: 0 <= i < 4 ==> Value(t[i]).Some?
  }

  lemma OneGroup(t: string)
    requires |t| <= 4
    ensures DecodeGroups(t).Ok? <==> WellFormed(t)
    ensures DecodeGroups(t).Ok? ==> |DecodeGroups(t).value| == |t| / 4 * 3 - Padding(t)
  {
  }

  lemma FullGroupFirst(t: string)
    requires FourDigits(t)
    ensures DecodeGroups(t) ==
            match DecodeGroups(t[4..])
            case Ok(rest) => Ok(Bytes(Value(t[0]).value, Value(t[1]).value, Value(t[2]).value, Value(t[3]).value) + rest)
            case Err => Err
  {
  }

  lemma NoFullGroup(t: string)
    requires |t| > 4 && !FourDigits(t)
    ensures DecodeGroups(t).Err?
  {
  }

  lemma {:induction false} GroupAndMore(t: string)
    requires |t| > 4
    ensures DecodeGroups(t).Ok? <==> FourDigits(t) && DecodeGroups(t[4..]).Ok?
    ensures DecodeGroups(t).Ok? ==> |DecodeGroups(t).value| == 3 + |DecodeGroups(t[4..]).value|
  {
    if FourDigits(t) {
      FullGroupFirst(t);
    } else {
      NoFullGroup(t);
    }
  }

  /** Decoding accepts exactly that, and gives three bytes for each group less the padding. */
  lemma {:induction false} DecodeAccepts(t: string)
    ensures DecodeGroups(t).Ok? <==> WellFormed(t)
    ensures DecodeGroups(t).Ok? ==> |DecodeGroups(t).value| == |t| / 4 * 3 - Padding(t)
    decreases |t|
  {
    if |t| > 4 {
      DecodeAccepts(t[4..]);
      MoreAccepts(t);
    } else {
      OneGroup(t);
    }
  }

  lemma MoreAccepts(t: string)
    requires |t| > 4 && (DecodeGroups(t[4..]).Ok? <==> WellFormed(t[4..]))
    requires DecodeGroups(t[4..]).Ok? ==> |DecodeGroups(t[4..]).value| == |t[4..]| / 4 * 3 - Padding(t[4..])
    ensures DecodeGroups(t).Ok? <==> WellFormed(t)
    ensures DecodeGroups(t).Ok? ==> |DecodeGroups(t).value| == |t| / 4 * 3 - Padding(t)
  {
    GroupAndMore(t);
    LongerText(t);
    assert |t[4..]| == |t| - 4 && (|t| - 4) / 4 == |t| / 4 - 1;
  }

  lemma LongerText(t: string)
    requires |t| > 4
    ensures |t| >= 6 ==> Padding(t[4..]) == Padding(t)
    ensures |t| % 4 == 0 ==>
              (WellFormed(t) <==> FourDigits(t) && WellFormed(t[4..]))
  {
    if |t| % 4 == 0 {
      assert forall i :: 4 <= i < |t| ==> t[i] == t[4..][i - 4];
    }
  }
}
