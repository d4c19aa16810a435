/** The parts of Go's bytes and strings packages that the protocol code uses, on strings
    whose chars stand for bytes. White space is the six ASCII white-space bytes, and case
    is ASCII case. */
module Text {

  predicate IsByteString(s: string) {
    forall i :: 0 <= i < |s| ==> s[i] as int < 256
  }

  predicate IsSpace(c: char) {
    c == ' ' || '\t' as int <= c as int <= '\r' as int
  }

  /** Tab, line feed, vertical tab, form feed, carriage return and blank. */
  lemma SixSpaces(c: char)
    ensures IsSpace(c) <==> c as int in {9, 10, 11, 12, 13, 32}
  {
  }

  predicate SpaceFree(s: string) {
    forall i :: 0 <= i < |s| ==> !IsSpace(s[i])
  }

  /** No byte of s is c. */
  predicate Without(s: string, c: char) {
    forall i :: 0 <= i < |s| ==> s[i] != c
  }

  predicate OneLine(s: string) {
    Without(s, '\r') && Without(s, '\n')
  }

  // ---------- searching ----------

  predicate At(s: string, i: nat, pat: string) {
    i + |pat| <= |s| && s[i..i + |pat|] == pat
  }

  /** The first position at or after `from` where pat occurs, or -1. */
  function IndexFrom(s: string, pat: string, from: nat): (r: int)
    ensures -1 <= r
    ensures r >= 0 ==> from <= r && At(s, r, pat) && forall j: nat :: from <= j < r ==> !At(s, j, pat)
    ensures r < 0 ==> forall j: nat :: from <= j ==> !At(s, j, pat)
    decreases |s| - from
  {
    if At(s, from, pat) then from
    else if from + |pat| > |s| then -1
    else IndexFrom(s, pat, from + 1)
  }

  function Index(s: string, pat: string): (r: int)
    ensures -1 <= r <= |s|
    ensures r >= 0 ==> At(s, r, pat) && forall j: nat :: j < r ==> !At(s, j, pat)
    ensures r < 0 ==> forall j: nat :: !At(s, j, pat)
  {
    IndexFrom(s, pat, 0)
  }

  predicate Contains(s: string, pat: string) {
    Index(s, pat) >= 0
  }

  /** The first position is decided by the part of s that ends with the occurrence. */
  lemma IndexIs(s: string, pat: string, i: nat)
    requires At(s, i, pat) && forall j: nat :: j < i ==> !At(s, j, pat)
    ensures Index(s, pat) == i
  {
  }

  lemma CharAt(s: string, i: nat, pat: string, k: nat)
    requires At(s, i, pat) && k < |pat|
    ensures i + k < |s| && s[i + k] == pat[k]
  {
    assert s[i..i + |pat|][k] == s[i + k];
  }

  lemma CharDiffers(s: string, i: nat, pat: string, k: nat)
    requires k < |pat| && (i + k < |s| ==> s[i + k] != pat[k])
    ensures !At(s, i, pat)
  {
    if At(s, i, pat) {
      CharAt(s, i, pat, k);
    }
  }

  /** Positions in the rest of a string, and back. */
  lemma AtRest(s: string, from: nat, i: nat, pat: string)
    requires from <= i && from <= |s|
    ensures At(s, i, pat) <==> At(s[from..], i - from, pat)
  {
    if i + |pat| <= |s| {
      assert s[from..][i - from..i - from + |pat|] == s[i..i + |pat|];
    }
  }

  /** The first CRLF of a text is the end of its first line. */
  lemma LineEnd(line: string, rest: string)
    requires Without(line, '\r')
    ensures Index(line + "\r\n" + rest, "\r\n") == |line|
  {
    var s := line + "\r\n" + rest;
    assert s[|line|..|line| + 2] == "\r\n";
    forall i: nat | i < |line| ensures !At(s, i, "\r\n") {
      CharDiffers(s, i, "\r\n", 0);
    }
    IndexIs(s, "\r\n", |line|);
  }

  /** What has no byte k of the pattern does not contain the pattern. */
  lemma LacksChar(s: string, pat: string, k: nat)
    requires k < |pat| && Without(s, pat[k])
    ensures !Contains(s, pat)
  {
    forall i: nat ensures !At(s, i, pat) {
      CharDiffers(s, i, pat, k);
    }
  }

  // ---------- trimming ----------

  function TrimLeft(s: string, drop: char -> bool): string {
    if s != "" && drop(s[0]) then TrimLeft(s[1..], drop) else s
  }

  function TrimRight(s: string, drop: char -> bool): string {
    if s != "" && drop(s[|s| - 1]) then TrimRight(s[..|s| - 1], drop) else s
  }

  function Trim(s: string, drop: char -> bool): string {
    TrimRight(TrimLeft(s, drop), drop)
  }

  function TrimSpace(s: string): string {
    Trim(s, IsSpace)
  }

  lemma TrimNothing(s: string, drop: char -> bool)
    requires s != "" ==> !drop(s[0]) && !drop(s[|s| - 1])
    ensures Trim(s, drop) == s
  {
  }

  lemma {:induction false} TrimLeftParts(s: string, drop: char -> bool) returns (left: string)
    ensures s == left + TrimLeft(s, drop) && forall c | c in left :: drop(c)
    ensures TrimLeft(s, drop) != "" ==> !drop(TrimLeft(s, drop)[0])
  {
    left := "";
    if s != "" && drop(s[0]) {
      var rest := TrimLeftParts(s[1..], drop);
      left := [s[0]] + rest;
      assert s == [s[0]] + s[1..];
    }
  }

  lemma {:induction false} TrimRightParts(s: string, drop: char -> bool) returns (right: string)
    ensures s == TrimRight(s, drop) + right && forall c | c in right :: drop(c)
    ensures TrimRight(s, drop) != "" ==> !drop(TrimRight(s, drop)[|TrimRight(s, drop)| - 1])
  {
    right := "";
    if s != "" && drop(s[|s| - 1]) {
      var rest := TrimRightParts(s[..|s| - 1], drop);
      right := rest + [s[|s| - 1]];
      assert s == s[..|s| - 1] + [s[|s| - 1]];
    }
  }

  /** Trimming takes off what is to be dropped at both ends, all of it and nothing else. */
  lemma TrimExactly(s: string, drop: char -> bool) returns (left: string, right: string)
    ensures s == left + Trim(s, drop) + right
    ensures (forall c | c in left :: drop(c)) && (forall c | c in right :: drop(c))
    ensures var t := Trim(s, drop); t != "" ==> !drop(t[0]) && !drop(t[|t| - 1])
  {
    left := TrimLeftParts(s, drop);
    right := TrimRightParts(TrimLeft(s, drop), drop);
    assert s == left + (Trim(s, drop) + right);
  }

  // ---------- cutting ----------

  /** The parts before and after the first c, and whether there is one. */
  function Cut(s: string, c: char): (string, string, bool) {
    if s == "" then ("", "", false)
    else if s[0] == c then ("", s[1..], true)
    else
      var (before, after, found) := Cut(s[1..], c);
      if found then ([s[0]] + before, after, true) else (s, "", false)
  }

  lemma {:induction false} CutAt(before: string, c: char, after: string)
    requires Without(before, c)
    ensures Cut(before + [c] + after, c) == (before, after, true)
  {
    var s := before + [c] + after;
    if before == "" {
      assert s[1..] == after;
    } else {
      assert s[1..] == before[1..] + [c] + after;
      CutAt(before[1..], c, after);
      assert before == [before[0]] + before[1..];
    }
  }

  lemma {:induction false} CutParts(s: string, c: char)
    ensures var (before, after, found) := Cut(s, c);
      Without(before, c) || !found
    ensures Cut(s, c).2 ==> s == Cut(s, c).0 + [c] + Cut(s, c).1
  {
    if s != "" && s[0] != c {
      CutParts(s[1..], c);
    }
  }

  lemma {:induction false} HasChar(s: string, i: nat, c: char)
    requires i < |s| && s[i] == c
    ensures Cut(s, c).2
  {
    if s[0] != c {
      HasChar(s[1..], i - 1, c);
    }
  }

  /** What has no c is not cut. */
  lemma {:induction false} CutNothing(s: string, c: char)
    requires !Cut(s, c).2
    ensures Cut(s, c).0 == s && Without(s, c)
  {
    if s != "" {
      CutNothing(s[1..], c);
    }
  }

  /** A text that has a c is cut where any longer text is. */
  lemma {:induction false} CutOfStart(start: string, s: string, c: char)
    requires start <= s && Cut(start, c).2
    ensures Cut(s, c).2 && Cut(s, c).0 == Cut(start, c).0
  {
    if start[0] != c {
      CutOfStart(start[1..], s[1..], c);
    }
  }

  // ---------- lines ----------

  /** strings.ReplaceAll(s, "\r\n", "\n") */
  function Unix(s: string): string {
    if s == "" then ""
    else if At(s, 0, "\r\n") then "\n" + Unix(s[2..])
    else [s[0]] + Unix(s[1..])
  }

  /** strings.Split(s, c) for a one-byte separator. */
  function Split(s: string, c: char): (r: seq<string>)
    ensures r != []
  {
    if s == "" then [""]
    else
      var r := Split(s[1..], c);
      if s[0] == c then [""] + r else [[s[0]] + r[0]] + r[1..]
  }

  lemma {:induction false} SplitAt(line: string, c: char, rest: string)
    requires Without(line, c)
    ensures Split(line + [c] + rest, c) == [line] + Split(rest, c)
  {
    var s := line + [c] + rest;
    if line == "" {
      assert s[1..] == rest;
    } else {
      assert s[1..] == line[1..] + [c] + rest;
      SplitAt(line[1..], c, rest);
      assert [line[0]] + line[1..] == line;
    }
  }

  lemma {:induction false} UnixLine(line: string, rest: string)
    requires OneLine(line)
    ensures Unix(line + "\r\n" + rest) == line + "\n" + Unix(rest)
  {
    var s := line + "\r\n" + rest;
    if line == "" {
      assert s[..2] == "\r\n" && s[2..] == rest;
    } else {
      assert s[0] == line[0] != '\r';
      assert s[1..] == line[1..] + "\r\n" + rest;
      UnixLine(line[1..], rest);
      assert [line[0]] + line[1..] == line;
    }
  }

  function Lines(s: string): (r: seq<string>)
    ensures r != []
  {
    Split(Unix(s), '\n')
  }

  /** The first line is what comes before the first LF, but for a CR. */
  lemma {:induction false} FirstOfLines(s: string)
    ensures Cut(s, '\n').0 == Lines(s)[0] || Cut(s, '\n').0 == Lines(s)[0] + "\r"
  {
    if s == "" {
    } else if At(s, 0, "\r\n") {
      CharAt(s, 0, "\r\n", 0);
      CharAt(s, 0, "\r\n", 1);
      assert ("\n" + Unix(s[2..]))[0] == '\n';
    } else {
      FirstOfLines(s[1..]);
      FirstByte(s);
    }
  }

  lemma FirstByte(s: string)
    requires s != "" && !At(s, 0, "\r\n")
    ensures Lines(s)[0] == if s[0] == '\n' then "" else [s[0]] + Lines(s[1..])[0]
    ensures Cut(s, '\n').0 == if s[0] == '\n' then "" else [s[0]] + Cut(s[1..], '\n').0
  {
    assert ([s[0]] + Unix(s[1..]))[1..] == Unix(s[1..]);
    if s[0] != '\n' && !Cut(s[1..], '\n').2 {
      CutNothing(s[1..], '\n');
    }
  }

  /** Lines that each end with CRLF. */
  function JoinLines(lines: seq<string>): string {
    if lines == [] then "" else lines[0] + "\r\n" + JoinLines(lines[1..])
  }

  /** Splitting undoes joining; the last CRLF leaves one empty line. */
  lemma {:induction false} LinesOfJoin(lines: seq<string>)
    requires forall i :: 0 <= i < |lines| ==> OneLine(lines[i])
    ensures Lines(JoinLines(lines)) == lines + [""]
  {
    if lines != [] {
      LinesOfJoin(lines[1..]);
      UnixLine(lines[0], JoinLines(lines[1..]));
      var u := Unix(JoinLines(lines[1..]));
      assert lines[0] + "\n" + u == lines[0] + ['\n'] + u;
      SplitAt(lines[0], '\n', u);
      assert [lines[0]] + (lines[1..] + [""]) == lines + [""];
    }
  }

  // ---------- fields ----------

  /** The longest prefix without white space. */
  function Word(s: string): (w: string)
    ensures |w| <= |s| && w == s[..|w|] && SpaceFree(w)
    ensures |w| < |s| ==> IsSpace(s[|w|])
  {
    if s == "" || IsSpace(s[0]) then "" else [s[0]] + Word(s[1..])
  }

  /** strings.Fields */
  function Fields(s: string): seq<string>
    decreases |s|
  {
    if s == "" then []
    else if IsSpace(s[0]) then Fields(s[1..])
    else [Word(s)] + Fields(s[|Word(s)|..])
  }

  lemma {:induction false} WordIs(w: string, rest: string)
    requires SpaceFree(w) && (rest != "" ==> IsSpace(rest[0]))
    ensures Word(w + rest) == w
  {
    if w == "" {
      assert w + rest == rest;
    } else {
      assert (w + rest)[1..] == w[1..] + rest;
      WordIs(w[1..], rest);
    }
  }

  lemma {:induction false} FieldsStep(w: string, rest: string)
    requires w != "" && SpaceFree(w) && (rest != "" ==> IsSpace(rest[0]))
    ensures Fields(w + rest) == [w] + Fields(rest)
  {
    WordIs(w, rest);
    assert (w + rest)[|w|..] == rest;
  }

  lemma {:induction false} FieldsAreWords(s: string)
    ensures forall i :: 0 <= i < |Fields(s)| ==> Fields(s)[i] != "" && SpaceFree(Fields(s)[i])
    decreases |s|
  {
    if s == "" {
    } else if IsSpace(s[0]) {
      FieldsAreWords(s[1..]);
    } else {
      FieldsAreWords(s[|Word(s)|..]);
    }
  }

  // ---------- case ----------

  function LowerChar(c: char): char {
    if 'A' <= c <= 'Z' then (c as int + 32) as char else c
  }

  function UpperChar(c: char): char {
    if 'a' <= c <= 'z' then (c as int - 32) as char else c
  }

  function Lower(s: string): string {
    seq(|s|, i requires 0 <= i < |s| => LowerChar(s[i]))
  }

  function Upper(s: string): string {
    seq(|s|, i requires 0 <= i < |s| => UpperChar(s[i]))
  }

  predicate EqualFold(a: string, b: string) {
    Lower(a) == Lower(b)
  }

  /** One of them is the capital of the other. */
  predicate Capital(c: char, d: char) {
    'A' <= c <= 'Z' && 'a' <= d <= 'z' && c as int - 'A' as int == d as int - 'a' as int
  }

  lemma LowerExactly(c: char, d: char)
    ensures LowerChar(c) == LowerChar(d) <==> c == d || Capital(c, d) || Capital(d, c)
  {
  }

  /** Two texts are equal up to case when in each place they have the same byte or the same
      letter. */
  lemma FoldExactly(a: string, b: string)
    ensures EqualFold(a, b) <==>
            |a| == |b| && forall i :: 0 <= i < |a| ==> a[i] == b[i] || Capital(a[i], b[i]) || Capital(b[i], a[i])
  {
    if EqualFold(a, b) {
      forall i | 0 <= i < |a| ensures a[i] == b[i] || Capital(a[i], b[i]) || Capital(b[i], a[i]) {
        assert Lower(a)[i] == Lower(b)[i];
        LowerExactly(a[i], b[i]);
      }
    } else if |a| == |b| {
      var i :| 0 <= i < |a| && Lower(a)[i] != Lower(b)[i];
      LowerExactly(a[i], b[i]);
      assert a[i] != b[i];
    }
  }

  /** Capitals have no small letters, and are otherwise the same text up to case. */
  lemma UpperExactly(s: string)
    ensures EqualFold(Upper(s), s) && forall i :: 0 <= i < |s| ==> !('a' <= Upper(s)[i] <= 'z')
  {
    forall i | 0 <= i < |s| ensures Upper(s)[i] == s[i] || Capital(Upper(s)[i], s[i]) {
    }
    FoldExactly(Upper(s), s);
  }

  // ---------- decimal numbers ----------

  function Decimal(n: nat): (s: string)
    ensures s != "" && OneLine(s) && SpaceFree(s)
  {
    var digit := ['0' + (n % 10) as char];
    if n < 10 then digit else Decimal(n / 10) + digit
  }

  function ReadDecimal(s: string): int {
    if s == "" then 0 else ReadDecimal(s[..|s| - 1]) * 10 + (s[|s| - 1] as int - '0' as int)
  }

  lemma {:induction false} DecimalReadsBack(n: nat)
    ensures ReadDecimal(Decimal(n)) == n
  {
    var s := Decimal(n);
    if n >= 10 {
      DecimalReadsBack(n / 10);
      assert s[..|s| - 1] == Decimal(n / 10);
    } else {
      assert s[..|s| - 1] == "";
    }
  }
}
