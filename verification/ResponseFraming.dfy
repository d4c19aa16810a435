/** How the clients find the end of the caster's response and hand on what follows it. */
module ResponseFraming {
  import opened Text
  import opened Request
  import opened RequestFraming
  import opened Responses

  const ICY_LINE: string := "ICY 200 OK\r\n"

  /** The phrases on which NtripClient gives up wherever they occur; NtripServer has none. */
  const CLIENT_PHRASES: seq<string> := ["401 Unauthorized", "Bad Request", "Mount Point Is Not Exit"]

  const KNOWN_HEADERS: seq<string> := ["server:", "date:", "ntrip-version:", "content-type:", "connection:"]

  predicate Printable(s: string) {
    forall i :: 0 <= i < |s| ==> 32 <= s[i] as int < 127
  }

  predicate NameChars(s: string) {
    forall i :: 0 <= i < |s| ==> 'A' <= s[i] <= 'Z' || 'a' <= s[i] <= 'z' || s[i] == '-'
  }

  /** looksLikeHeaderContinuation */
  predicate Continues(data: string) {
    data == "" ||
    var cr := Index(data, "\r\n");
    var line := if cr >= 0 then data[..cr] else data;
    line == "" ||
    (Printable(line) &&
     var colon := Index(line, ":");
     if colon > 0 then NameChars(line[..colon])
     else cr < 0 && exists h :: h in KNOWN_HEADERS && Lower(line) <= h)
  }

  function ResponseEnd(data: string): (r: int)
    ensures r <= |data|
  {
    if Index(data, BLANK) >= 0 then Index(data, BLANK) + 4
    else if !(ICY_LINE <= data) || |data| == |ICY_LINE| || Continues(data[|ICY_LINE|..]) then -1
    else |ICY_LINE|
  }

  function FirstLine(data: string): string {
    var cr := Index(data, "\r\n");
    var lf := Index(data, "\n");
    TrimSpace(if cr >= 0 then data[..cr] else if lf >= 0 then data[..lf] else data)
  }

  predicate Success(line: string) {
    "ICY 200 " <= line || "HTTP/1.0 200 " <= line || "HTTP/1.1 200 " <= line
  }

  predicate IsSuccess(header: string) {
    Success(Upper(FirstLine(header)))
  }

  predicate NoPhrase(buf: string, phrases: seq<string>) {
    forall p :: p in phrases ==> !Contains(buf, p)
  }

  /** The client's reader: no verdict yet, connected with what it delivered, or refused. */
  datatype Client = Waiting(buf: string) | Connected(delivered: string) | Refused

  function Listen(c: Client, data: string, phrases: seq<string>): Client {
    match c
    case Waiting(buf) => Decide(buf + data, phrases)
    case Connected(delivered) => Connected(delivered + data)
    case Refused => Refused
  }

  function Decide(all: string, phrases: seq<string>): Client {
    if !NoPhrase(all, phrases) then Refused
    else
      var end := ResponseEnd(all);
      if end < 0 then (if |all| > MAX_HEADER then Refused else Waiting(all))
      else if IsSuccess(all[..end]) then Connected(all[end..])
      else Refused
  }

  function ListenAll(chunks: seq<string>, phrases: seq<string>): Client {
    if chunks == [] then Waiting("")
    else Listen(ListenAll(chunks[..|chunks| - 1], phrases), chunks[|chunks| - 1], phrases)
  }

  /** The read loop of handleConnWithAuth over the reads of a connection. */
  method Await(chunks: seq<string>, phrases: seq<string>) returns (c: Client)
    ensures c == ListenAll(chunks, phrases)
  {
    var responseBuf, delivered := "", "";
    var connected := false;
    for i := 0 to |chunks|
      invariant ListenAll(chunks[..i], phrases) == if connected then Connected(delivered) else Waiting(responseBuf)
    {
      assert chunks[..i + 1][..i] == chunks[..i];
      if connected {
        delivered := delivered + chunks[i];
      } else {
        responseBuf := responseBuf + chunks[i];
        var end := ResponseEnd(responseBuf);
        if !NoPhrase(responseBuf, phrases) || (end < 0 && |responseBuf| > MAX_HEADER)
           || (end >= 0 && !IsSuccess(responseBuf[..end])) {
          StaysRefused(chunks, phrases, i + 1);
          return Refused;
        }
        if end >= 0 {
          connected, delivered := true, responseBuf[end..];
        }
      }
    }
    assert chunks[..|chunks|] == chunks;
    return if connected then Connected(delivered) else Waiting(responseBuf);
  }

  lemma {:induction false} StaysRefused(chunks: seq<string>, phrases: seq<string>, i: nat)
    requires i <= |chunks| && ListenAll(chunks[..i], phrases).Refused?
    ensures ListenAll(chunks, phrases).Refused?
  {
    if i == |chunks| {
      assert chunks[..i] == chunks;
    } else {
      assert chunks[..|chunks| - 1][..i] == chunks[..i];
      StaysRefused(chunks[..|chunks| - 1], phrases, i);
    }
  }

  // ---------- any response but ICY ----------

  lemma PrefixHasNoEnd(r: string, bytes: string)
    requires ProperHeader(r) && r[0] != 'I' && bytes < r
    ensures ResponseEnd(bytes) < 0
  {
    assert bytes == r[..|bytes|];
    IndexOfPrefix(r, BLANK, |bytes|);
    if bytes != "" {
      assert bytes[0] == r[0];
    }
  }

  lemma FullHasEnd(r: string, bytes: string)
    requires ProperHeader(r) && r <= bytes
    ensures ResponseEnd(bytes) == |r|
  {
    EndOfExtension(r, bytes);
    assert r == bytes[..|r|];
    IndexOfPrefix(bytes, BLANK, |r|);
  }

  lemma PhraseMonotone(buf: string, more: string, phrases: seq<string>)
    requires NoPhrase(buf + more, phrases)
    ensures NoPhrase(buf, phrases)
  {
    forall p | p in phrases ensures !Contains(buf, p) {
      assert buf == (buf + more)[..|buf|];
      IndexOfPrefix(buf + more, p, |buf|);
    }
  }

  /** What was buffered when the first n bytes were complete. */
  function Covering(chunks: seq<string>, n: nat): string {
    if chunks == [] then ""
    else if |Join(chunks[..|chunks| - 1])| >= n then Covering(chunks[..|chunks| - 1], n)
    else Join(chunks)
  }

  /** The verdict when `got` has been read and `cover` was buffered when the response r was
      complete. */
  ghost predicate Expected(c: Client, got: string, cover: string, r: string, phrases: seq<string>) {
    if |got| < |r| then c == (if NoPhrase(got, phrases) then Waiting(got) else Refused)
    else c == if NoPhrase(cover, phrases) && IsSuccess(r) then Connected(got[|r|..]) else Refused
  }

  lemma DecideFull(all: string, r: string, phrases: seq<string>)
    requires ProperHeader(r) && r <= all
    ensures Decide(all, phrases) == if NoPhrase(all, phrases) && IsSuccess(r) then Connected(all[|r|..]) else Refused
  {
    FullHasEnd(r, all);
    assert all[..|r|] == r;
  }

  lemma BeforeEnd(c: Client, got: string, data: string, r: string, payload: string, phrases: seq<string>)
    requires ProperHeader(r) && got + data <= r + payload && |got| < |r| && Expected(c, got, got, r, phrases)
    requires |got + data| < |r| ==> ResponseEnd(got + data) < 0
    ensures Expected(Listen(c, data, phrases), got + data, got + data, r, phrases)
  {
    EitherPrefix(r, payload, got + data);
    if !NoPhrase(got, phrases) {
      if NoPhrase(got + data, phrases) {
        PhraseMonotone(got, data, phrases);
      }
    } else if r <= got + data {
      DecideFull(got + data, r, phrases);
    }
  }

  lemma AfterEnd(c: Client, got: string, cover: string, data: string, r: string, phrases: seq<string>)
    requires |r| <= |got| && Expected(c, got, cover, r, phrases)
    ensures Expected(Listen(c, data, phrases), got + data, cover, r, phrases)
  {
    assert got[|r|..] + data == (got + data)[|r|..];
  }

  /** For a response that is not ICY, the verdict on every division into reads. */
  lemma {:induction false} SplitVerdict(chunks: seq<string>, r: string, payload: string, phrases: seq<string>)
    requires ProperHeader(r) && r[0] != 'I' && Join(chunks) <= r + payload && NoPhrase("", phrases)
    ensures Expected(ListenAll(chunks, phrases), Join(chunks), Covering(chunks, |r|), r, phrases)
  {
    if chunks != [] {
      var before, data := chunks[..|chunks| - 1], chunks[|chunks| - 1];
      var got := Join(before);
      assert got <= Join(chunks);
      SplitVerdict(before, r, payload, phrases);
      if |got| < |r| {
        EitherPrefix(r, payload, got + data);
        if |got + data| < |r| {
          PrefixHasNoEnd(r, got + data);
        }
        BeforeEnd(ListenAll(before, phrases), got, data, r, payload, phrases);
      } else {
        AfterEnd(ListenAll(before, phrases), got, Covering(before, |r|), data, r, phrases);
      }
    }
  }

  // ---------- the ICY response ----------

  /** Just after the CR of the Server line. */
  const EARLY: nat := 41

  /** The response after its ICY line. */
  function IcyRest(date: string): string {
    SERVER_LINE + "\r\n" + ("Date: " + date + "\r\n\r\n")
  }

  lemma IcyShape(date: string)
    ensures Response(Welcome(false), date) == ICY_LINE + IcyRest(date)
    ensures |ICY_LINE| == 12 && |SERVER_LINE| == 28
  {
    var lines := ["ICY 200 OK", SERVER_LINE, "Date: " + date, ""];
    assert "ICY " + "200 OK" == "ICY 200 OK";
    assert ReplyLines(Welcome(false), date) + [""] == lines;
    assert lines[1..][1..][1..][1..] == [];
    assert JoinLines(lines[1..][1..][1..]) == "\r\n";
    assert JoinLines(lines[1..][1..]) == "Date: " + date + "\r\n" + "\r\n";
    assert JoinLines(lines[1..]) == IcyRest(date);
    assert "ICY 200 OK" + "\r\n" == ICY_LINE;
  }

  lemma ServerLineChars()
    ensures |SERVER_LINE| == 28 && Printable(SERVER_LINE) && NameChars(SERVER_LINE[..6]) && SERVER_LINE[6] == ':'
    ensures Lower(SERVER_LINE[..6]) == "server:"[..6]
  {
  }

  /** Within the Server line, every part looks like a header. */
  lemma PartOfServerLine(k: nat)
    requires 1 <= k <= 28
    ensures Continues(SERVER_LINE[..k])
  {
    ServerLineChars();
    var line := SERVER_LINE[..k];
    LacksChar(line, "\r\n", 0);
    if k >= 7 {
      ColonAt(line);
    } else {
      NoColon(line);
      assert Lower(line) == "server:"[..k];
      assert Lower(line) <= KNOWN_HEADERS[0] && KNOWN_HEADERS[0] in KNOWN_HEADERS;
    }
  }

  lemma ColonAt(line: string)
    requires |line| >= 7 && NameChars(line[..6]) && line[6] == ':'
    ensures Index(line, ":") == 6
  {
    forall i: nat | i < 6 ensures !At(line, i, ":") {
      assert line[..6][i] == line[i];
      CharDiffers(line, i, ":", 0);
    }
    assert line[6..7] == ":";
    IndexIs(line, ":", 6);
  }

  lemma NoColon(line: string)
    requires NameChars(line)
    ensures Index(line, ":") < 0
  {
    LacksChar(line, ":", 0);
  }

  lemma CrAtTheEnd(line: string)
    requires Printable(line)
    ensures !Continues(line + "\r")
  {
    var all := line + "\r";
    assert all[|line|] == '\r';
    LacksChar(all, "\r\n", 1);
  }

  lemma PastServerLine(more: string)
    ensures Continues(SERVER_LINE + "\r\n" + more)
  {
    ServerLineChars();
    var data := SERVER_LINE + "\r\n" + more;
    LineEnd(SERVER_LINE, more);
    assert data[..28] == SERVER_LINE;
    ColonAt(SERVER_LINE);
  }

  /** Of all proper starts of the rest of the response, only the one that ends between the
      CR and LF of the Server line does not look like a header. */
  lemma OnlyEarlyFails(date: string, k: nat)
    requires 1 <= k <= |IcyRest(date)|
    ensures Continues(IcyRest(date)[..k]) <==> k != 29
  {
    ServerLineChars();
    var rest := IcyRest(date);
    if k <= 28 {
      assert rest[..k] == SERVER_LINE[..k];
      PartOfServerLine(k);
    } else if k == 29 {
      assert rest[..k] == SERVER_LINE + "\r";
      CrAtTheEnd(SERVER_LINE);
    } else {
      var more := ("Date: " + date + "\r\n\r\n")[..k - 30];
      assert rest[..k] == SERVER_LINE + "\r\n" + more;
      PastServerLine(more);
    }
  }

  /** A start of the ICY response that goes on after its first line. */
  lemma IcyStart(date: string, bytes: string)
    requires bytes <= ICY_LINE + IcyRest(date) && |bytes| > |ICY_LINE| == 12
    ensures ICY_LINE <= bytes && bytes[12..] == IcyRest(date)[..|bytes| - 12]
  {
    assert bytes[..12] == ICY_LINE;
  }

  lemma NoBlankBefore(r: string, bytes: string)
    requires ProperHeader(r) && bytes < r
    ensures Index(bytes, BLANK) < 0
  {
    assert bytes == r[..|bytes|];
    IndexOfPrefix(r, BLANK, |bytes|);
  }

  /** Of all proper prefixes of the ICY response only one has a header end. */
  lemma IcyPrefixEnd(date: string, bytes: string)
    requires IsDate(date) && bytes < Response(Welcome(false), date)
    ensures ResponseEnd(bytes) == if |bytes| == EARLY then 12 else -1
  {
    WelcomeIsProper(false, date);
    NoBlankBefore(Response(Welcome(false), date), bytes);
    IcyShape(date);
    if |bytes| > 12 {
      IcyStart(date, bytes);
      OnlyEarlyFails(date, |bytes| - 12);
    }
  }

  lemma FixedReplyLines()
    ensures AllOneLine([V2_LINE]) && AllOneLine([SERVER_LINE]) && AllOneLine([REALM_LINE, CLOSE_LINE]) && AllOneLine([CLOSE_LINE])
    ensures OneLine("Date: ")
  {
  }

  predicate Trimmed(line: string) {
    OneLine(line) && line != "" && !IsSpace(line[|line| - 1])
  }

  lemma ProtocolOk(reply: Reply)
    ensures OneLine(Protocol(reply)) && 4 <= |Protocol(reply)| <= 9 && !IsSpace(Protocol(reply)[0])
  {
  }

  lemma StatusOfRequest(reply: Reply)
    requires reply.Welcome? || reply.Unauthorized? || reply.Conflict? || reply.NotFound?
    ensures Trimmed(Status(reply)) && 6 <= |Status(reply)| <= 35
  {
  }

  lemma StatusOfBusy(reply: Reply)
    requires reply.Unavailable? || reply.TooMany?
    ensures Trimmed(Status(reply)) && 6 <= |Status(reply)| <= 35
  {
  }

  lemma StatusOfTooLarge()
    ensures Trimmed(Status(HeaderTooLarge)) && |Status(HeaderTooLarge)| == 35
  {
  }

  lemma StatusLineOk(reply: Reply)
    ensures Trimmed(StatusLine(reply)) && 10 <= |StatusLine(reply)| <= 44 && !IsSpace(StatusLine(reply)[0])
  {
    ProtocolOk(reply);
    if reply.Welcome? || reply.Unauthorized? || reply.Conflict? || reply.NotFound? {
      StatusOfRequest(reply);
    } else if reply.HeaderTooLarge? {
      StatusOfTooLarge();
    } else {
      StatusOfBusy(reply);
    }
    OneLineConcat(Protocol(reply), Status(reply));
  }

  lemma ReplyLinesOk(reply: Reply, date: string)
    requires OneLine(date)
    ensures AllOneLine(ReplyLines(reply, date)) && ReplyLines(reply, date) != []
  {
    FixedReplyLines();
    StatusLineOk(reply);
    OneLineConcat("Date: ", date);
    var middle := if ReplyV2(reply) then [V2_LINE] else [];
    var tail := match reply
      case Welcome(_) => [SERVER_LINE, "Date: " + date]
      case Unauthorized(_) => [REALM_LINE, CLOSE_LINE]
      case _ => [CLOSE_LINE];
    Together([StatusLine(reply)], middle);
    Together([StatusLine(reply)] + middle, tail);
  }

  lemma {:induction false} JoinLinesLength(lines: seq<string>, most: nat)
    requires forall i :: 0 <= i < |lines| ==> |lines[i]| <= most
    ensures |JoinLines(lines)| <= |lines| * (most + 2)
  {
    if lines != [] {
      JoinLinesLength(lines[1..], most);
      assert |lines| * (most + 2) == (|lines| - 1) * (most + 2) + (most + 2);
    }
  }

  lemma ReplyIsShort(reply: Reply, date: string)
    requires |date| <= 29
    ensures |Response(reply, date)| <= MAX_HEADER
  {
    StatusLineOk(reply);
    var lines := ReplyLines(reply, date) + [""];
    assert |lines| <= 5;
    JoinLinesLength(lines, 44);
  }

  /** Every response is a proper header. */
  lemma ReplyIsProper(reply: Reply, date: string)
    requires IsDate(date)
    ensures ProperHeader(Response(reply, date))
  {
    ReplyLinesOk(reply, date);
    ReplyIsShort(reply, date);
    MessageIsProper(ReplyLines(reply, date));
  }

  lemma WelcomeIsProper(v2: bool, date: string)
    requires IsDate(date)
    ensures ProperHeader(Response(Welcome(v2), date))
  {
    ReplyIsProper(Welcome(v2), date);
  }

  // ---------- success ----------

  /** The first line of a message decides whether it is a success. */
  lemma FirstLineOfMessage(line: string, rest: string)
    requires OneLine(line) && line != "" && !IsSpace(line[0]) && !IsSpace(line[|line| - 1])
    ensures FirstLine(line + "\r\n" + rest) == line
  {
    var data := line + "\r\n" + rest;
    LineEnd(line, rest);
    assert data[..|line|] == line;
    TrimNothing(line, IsSpace);
  }

  lemma UpperConcat(a: string, b: string)
    ensures Upper(a + b) == Upper(a) + Upper(b)
  {
  }

  lemma UpperProtocol(reply: Reply)
    ensures Upper(Protocol(reply)) == Protocol(reply)
  {
  }

  /** The digit that starts the status. */
  lemma StatusClass(reply: Reply)
    ensures |Status(reply)| >= 6 && ('2' == Status(reply)[0] <==> reply.Welcome?)
  {
  }

  lemma OnlyWelcomeIsSuccess(reply: Reply)
    ensures Success(Upper(StatusLine(reply))) <==> reply.Welcome?
  {
    UpperConcat(Protocol(reply), Status(reply));
    UpperProtocol(reply);
    StatusClass(reply);
    if reply.Welcome? {
      WelcomeIsSuccess(reply.v2);
    } else {
      NoSuccess(Protocol(reply), Upper(Status(reply)));
    }
  }

  lemma WelcomeIsSuccess(v2: bool)
    ensures Success((if v2 then "HTTP/1.1 " else "ICY ") + Upper("200 OK"))
  {
    assert Upper("200 OK")[..4] == "200 ";
    assert "ICY 200 " == "ICY " + "200 " && "HTTP/1.1 200 " == "HTTP/1.1 " + "200 ";
  }

  lemma NoSuccess(protocol: string, status: string)
    requires protocol == "HTTP/1.0 " || protocol == "HTTP/1.1 "
    requires status != "" && status[0] != '2'
    ensures !Success(protocol + status)
  {
    var line := protocol + status;
    assert line[0] == 'H' && line[9] == status[0];
    assert "HTTP/1.0 200 "[9] == '2' && "HTTP/1.1 200 "[9] == '2';
  }

  lemma SuccessExactly(reply: Reply, date: string)
    ensures IsSuccess(Response(reply, date)) <==> reply.Welcome?
  {
    StatusLineOk(reply);
    OnlyWelcomeIsSuccess(reply);
    var lines := ReplyLines(reply, date) + [""];
    assert lines[0] == StatusLine(reply);
    FirstLineOfMessage(StatusLine(reply), JoinLines(lines[1..]));
  }

  // ---------- success in general ----------

  /** The first word of a text is a start of another text only as its first word. */
  lemma WordPrefix(p: string, rest: string, word: string, more: string)
    requires SpaceFree(p) && SpaceFree(word)
    ensures p + " " + rest <= word + " " + more <==> p == word && rest <= more
  {
    var a, b := p + " " + rest, word + " " + more;
    assert a[|p|] == ' ' && b[|word|] == ' ';
    assert forall i :: 0 <= i < |p| ==> a[i] == p[i];
    assert forall i :: 0 <= i < |word| ==> b[i] == word[i];
    if a <= b {
      assert b[|p|] == ' ';
      assert |p| == |word|;
      assert p == a[..|p|] == b[..|p|] == word;
      assert rest == a[|p| + 1..] && more == b[|p| + 1..];
    }
    if p == word && rest <= more {
      assert b == a + more[|rest|..];
    }
  }

  lemma UpperKeepsSpaces(s: string)
    ensures SpaceFree(s) ==> SpaceFree(Upper(s))
  {
  }

  lemma UpperOfLine(protocol: string, code: string, reason: string)
    ensures Upper(protocol + " " + code + " " + reason) == Upper(protocol) + " " + (Upper(code) + " " + Upper(reason))
  {
    assert protocol + " " + code + " " + reason == protocol + (" " + (code + (" " + reason)));
    UpperConcat(protocol, " " + (code + (" " + reason)));
    UpperConcat(" ", code + (" " + reason));
    UpperConcat(code, " " + reason);
    UpperConcat(" ", reason);
    assert Upper(" ") == " ";
  }

  lemma StatusStart(protocol: string, line: string, word: string, code: string, reason: string)
    requires SpaceFree(protocol) && SpaceFree(word) && SpaceFree(code) && SpaceFree("200")
    requires line == word + " " + (code + " " + reason)
    ensures protocol + " " + ("200" + " " + "") <= line <==> protocol == word && code == "200"
  {
    WordPrefix(protocol, "200" + " " + "", word, code + " " + reason);
    WordPrefix("200", "", code, reason);
  }

  lemma Protocols()
    ensures "ICY 200 " == "ICY" + " " + ("200" + " " + "") && SpaceFree("ICY") && SpaceFree("200")
    ensures "HTTP/1.0 200 " == "HTTP/1.0" + " " + ("200" + " " + "") && SpaceFree("HTTP/1.0")
    ensures "HTTP/1.1 200 " == "HTTP/1.1" + " " + ("200" + " " + "") && SpaceFree("HTTP/1.1")
  {
  }

  /** The response of any caster is a success exactly when its code is 200 and its protocol, in
      any letter case, ICY or one of the two versions of HTTP. */
  lemma SuccessIsOk(protocol: string, code: string, reason: string)
    requires SpaceFree(protocol) && SpaceFree(code)
    ensures Success(Upper(protocol + " " + code + " " + reason)) <==>
            Upper(code) == "200" && (Upper(protocol) == "ICY" || Upper(protocol) == "HTTP/1.0" || Upper(protocol) == "HTTP/1.1")
  {
    var line := Upper(protocol + " " + code + " " + reason);
    UpperOfLine(protocol, code, reason);
    UpperKeepsSpaces(protocol);
    UpperKeepsSpaces(code);
    Protocols();
    StatusStart("ICY", line, Upper(protocol), Upper(code), Upper(reason));
    StatusStart("HTTP/1.0", line, Upper(protocol), Upper(code), Upper(reason));
    StatusStart("HTTP/1.1", line, Upper(protocol), Upper(code), Upper(reason));
  }

  /** Without CR LF, an LF ends the first line. */
  lemma FirstLineOfLf(line: string, rest: string)
    requires OneLine(line) && line != "" && !IsSpace(line[0]) && !IsSpace(line[|line| - 1]) && Without(rest, '\r')
    ensures FirstLine(line + "\n" + rest) == line
  {
    var data := line + "\n" + rest;
    LacksChar(data, "\r\n", 0);
    forall i: nat | i < |line| ensures !At(data, i, "\n") {
      CharDiffers(data, i, "\n", 0);
    }
    assert data[|line|..|line| + 1] == "\n";
    IndexIs(data, "\n", |line|);
    assert data[..|line|] == line;
    TrimNothing(line, IsSpace);
  }

  // ---------- headers and phrases ----------

  /** A line with a name of letters and hyphens before a colon is a header, complete or not. */
  lemma NamedLineContinues(name: string, value: string, more: string)
    requires name != "" && NameChars(name) && Printable(value)
    ensures Continues(name + ":" + value) && Continues(name + ":" + value + "\r\n" + more)
  {
    var line := name + ":" + value;
    LacksChar(line, "\r\n", 0);
    LineEnd(line, more);
    assert (line + "\r\n" + more)[..|line|] == line;
    ColonAfter(name, value);
    assert line[..|name|] == name;
  }

  lemma ColonAfter(name: string, value: string)
    requires NameChars(name)
    ensures Index(name + ":" + value, ":") == |name|
  {
    var line := name + ":" + value;
    forall i: nat | i < |name| ensures !At(line, i, ":") {
      CharDiffers(line, i, ":", 0);
    }
    assert line[|name|..|name| + 1] == ":";
    IndexIs(line, ":", |name|);
  }

  /** The start of a header is waited for exactly if it is one of five known ones. */
  lemma NameStartContinues(start: string)
    requires start != "" && NameChars(start)
    ensures Continues(start) <==>
            || Lower(start) <= "server:" || Lower(start) <= "date:" || Lower(start) <= "ntrip-version:"
            || Lower(start) <= "content-type:" || Lower(start) <= "connection:"
  {
    LacksChar(start, "\r\n", 0);
    NoColon(start);
    assert KNOWN_HEADERS[0] in KNOWN_HEADERS && KNOWN_HEADERS[1] in KNOWN_HEADERS && KNOWN_HEADERS[2] in KNOWN_HEADERS;
    assert KNOWN_HEADERS[3] in KNOWN_HEADERS && KNOWN_HEADERS[4] in KNOWN_HEADERS;
  }

  /** The three phrases. */
  lemma PhrasesExactly(buf: string)
    ensures NoPhrase(buf, CLIENT_PHRASES) <==>
            !Contains(buf, "401 Unauthorized") && !Contains(buf, "Bad Request") && !Contains(buf, "Mount Point Is Not Exit")
  {
    assert CLIENT_PHRASES[0] in CLIENT_PHRASES && CLIENT_PHRASES[1] in CLIENT_PHRASES && CLIENT_PHRASES[2] in CLIENT_PHRASES;
  }

  // ---------- a caster that sends nothing but the ICY line ----------

  /** Payload that no header starts with, such as an RTCM 3 frame. */
  predicate Binary(payload: string) {
    payload != "" && payload[0] as int >= 127 && !Contains(ICY_LINE + payload, BLANK)
  }

  lemma BinaryIsNoHeader(data: string)
    requires data != "" && data[0] as int >= 127
    ensures !Continues(data)
  {
    var cr := Index(data, "\r\n");
    if cr == 0 {
      CharAt(data, 0, "\r\n", 0);
    } else {
      var line := if cr >= 0 then data[..cr] else data;
      assert line[0] == data[0];
    }
  }

  lemma BareIcyEnd(payload: string, bytes: string)
    requires Binary(payload) && bytes <= ICY_LINE + payload && |ICY_LINE| == 12
    ensures ResponseEnd(bytes) == if |bytes| <= 12 then -1 else 12
  {
    var all := ICY_LINE + payload;
    assert bytes == all[..|bytes|];
    IndexOfPrefix(all, BLANK, |bytes|);
    if |bytes| > 12 {
      assert bytes[..12] == ICY_LINE && bytes[12] == payload[0];
      BinaryIsNoHeader(bytes[12..]);
    }
  }

  /** For every division into reads the client waits for the first byte behind the line, and then
      delivers everything behind it. */
  lemma {:induction false} BareIcyDelivers(chunks: seq<string>, payload: string, phrases: seq<string>)
    requires Binary(payload) && NoPhrase(ICY_LINE + payload, phrases) && Join(chunks) <= ICY_LINE + payload
    ensures ListenAll(chunks, phrases) == if |Join(chunks)| <= 12 then Waiting(Join(chunks)) else Connected(Join(chunks)[12..])
  {
    IcyLineIsSuccess();
    if chunks != [] {
      var before, data := chunks[..|chunks| - 1], chunks[|chunks| - 1];
      var got := Join(before);
      assert got <= Join(chunks);
      BareIcyDelivers(before, payload, phrases);
      BareIcyStep(got, data, payload, phrases);
    }
  }

  lemma BareIcyStep(got: string, data: string, payload: string, phrases: seq<string>)
    requires Binary(payload) && NoPhrase(ICY_LINE + payload, phrases) && got + data <= ICY_LINE + payload
    requires IsSuccess(ICY_LINE) && |ICY_LINE| == 12
    ensures |got| <= 12 ==>
              Decide(got + data, phrases) == if |got + data| <= 12 then Waiting(got + data) else Connected((got + data)[12..])
    ensures |got| > 12 ==> got[12..] + data == (got + data)[12..]
  {
    var all := got + data;
    var more := (ICY_LINE + payload)[|all|..];
    assert all + more == ICY_LINE + payload;
    PhraseMonotone(all, more, phrases);
    BareIcyEnd(payload, all);
    if |all| > 12 {
      assert all[..12] == ICY_LINE;
    }
  }

  // ---------- a response without an end ----------

  /** What does not start like ICY and has no blank line is waited for until it is longer than
      the limit, unless a phrase comes first. */
  lemma {:induction false} EndlessIsRefused(chunks: seq<string>, text: string, phrases: seq<string>)
    requires !Contains(text, BLANK) && text != "" && text[0] != 'I' && Join(chunks) <= text && NoPhrase("", phrases)
    ensures var got := Join(chunks);
      ListenAll(chunks, phrases) == if NoPhrase(got, phrases) && !PausedAbove(chunks) then Waiting(got) else Refused
  {
    if chunks != [] {
      var before, data := chunks[..|chunks| - 1], chunks[|chunks| - 1];
      var got := Join(before);
      assert got <= Join(chunks);
      EndlessIsRefused(before, text, phrases);
      NoEndInside(text, got + data);
      if !NoPhrase(got, phrases) && NoPhrase(got + data, phrases) {
        PhraseMonotone(got, data, phrases);
      }
    }
  }

  /** Some read ended above the limit. */
  predicate PausedAbove(chunks: seq<string>) {
    |Join(chunks)| > MAX_HEADER || (chunks != [] && PausedAbove(chunks[..|chunks| - 1]))
  }

  lemma NoEndInside(text: string, bytes: string)
    requires !Contains(text, BLANK) && text != "" && text[0] != 'I' && bytes <= text
    ensures ResponseEnd(bytes) < 0
  {
    assert bytes == text[..|bytes|];
    IndexOfPrefix(text, BLANK, |bytes|);
    if bytes != "" {
      assert bytes[0] == text[0];
    }
  }

  // ---------- what is delivered ----------

  /** None of the response's bytes is part of a phrase: each phrase has a q, x or z. */
  predicate PhraseFree(s: string) {
    Without(s, 'q') && Without(s, 'x') && Without(s, 'z')
  }

  /** The phrases of one of the two clients. */
  predicate ClientPhrases(phrases: seq<string>) {
    phrases == CLIENT_PHRASES || phrases == []
  }

  lemma PhraseLetters()
    ensures "401 Unauthorized"[13] == 'z' && "Bad Request"[6] == 'q' && "Mount Point Is Not Exit"[20] == 'x'
  {
  }

  lemma PhraseFreeHasNone(s: string, phrases: seq<string>)
    requires PhraseFree(s) && ClientPhrases(phrases)
    ensures NoPhrase(s, phrases)
  {
    PhraseLetters();
    LacksChar(s, "401 Unauthorized", 13);
    LacksChar(s, "Bad Request", 6);
    LacksChar(s, "Mount Point Is Not Exit", 20);
  }

  lemma {:induction false} JoinedPhraseFree(lines: seq<string>)
    requires forall i :: 0 <= i < |lines| ==> PhraseFree(lines[i])
    ensures PhraseFree(JoinLines(lines))
  {
    if lines != [] {
      JoinedPhraseFree(lines[1..]);
    }
  }

  lemma StatusPhraseFree(v2: bool)
    ensures PhraseFree(StatusLine(Welcome(v2)))
  {
  }

  lemma FixedLinesPhraseFree()
    ensures PhraseFree(V2_LINE) && PhraseFree(SERVER_LINE) && PhraseFree("Date: ")
  {
  }

  lemma WelcomePhraseFree(v2: bool, date: string)
    requires IsDate(date)
    ensures PhraseFree(Response(Welcome(v2), date))
  {
    StatusPhraseFree(v2);
    FixedLinesPhraseFree();
    assert PhraseFree("Date: " + date);
    JoinedPhraseFree(ReplyLines(Welcome(v2), date) + [""]);
  }

  /** One of the reads ended when exactly n bytes had been read. */
  predicate Boundary(chunks: seq<string>, n: nat) {
    |Join(chunks)| == n || (chunks != [] && Boundary(chunks[..|chunks| - 1], n))
  }

  lemma IcyLineShape()
    ensures ICY_LINE == StatusLine(Welcome(false)) + "\r\n" + "" && |ICY_LINE| == 12
  {
  }

  lemma IcyLineIsSuccess()
    ensures IsSuccess(ICY_LINE) && |ICY_LINE| == 12
  {
    IcyLineShape();
    StatusLineOk(Welcome(false));
    OnlyWelcomeIsSuccess(Welcome(false));
    FirstLineOfMessage(StatusLine(Welcome(false)), "");
  }

  /** A read that ends between the CR and LF of the Server line ends the header too early. */
  lemma DecideEarly(date: string, bytes: string, phrases: seq<string>)
    requires IsDate(date) && bytes < Response(Welcome(false), date) && |bytes| == EARLY && NoPhrase(bytes, phrases)
    ensures Decide(bytes, phrases) == Connected(bytes[12..])
  {
    IcyPrefixEnd(date, bytes);
    IcyShape(date);
    IcyLineIsSuccess();
    assert bytes[..12] == ICY_LINE;
  }

  /** The verdict on every division of the ICY response and a payload into reads. */
  ghost predicate IcyExpected(c: Client, chunks: seq<string>, r: string, phrases: seq<string>) {
    var got := Join(chunks);
    if Boundary(chunks, EARLY) then |got| >= EARLY && c == Connected(got[12..])
    else Expected(c, got, Covering(chunks, |r|), r, phrases)
  }

  lemma IcyLength(date: string)
    requires IsDate(date)
    ensures |Response(Welcome(false), date)| == 81
  {
    IcyShape(date);
  }

  lemma {:induction false} IcyVerdict(chunks: seq<string>, date: string, payload: string, phrases: seq<string>)
    requires IsDate(date) && ClientPhrases(phrases) && Join(chunks) <= Response(Welcome(false), date) + payload
    ensures IcyExpected(ListenAll(chunks, phrases), chunks, Response(Welcome(false), date), phrases)
  {
    var r := Response(Welcome(false), date);
    IcyLength(date);
    if chunks == [] {
      PhraseFreeHasNone("", phrases);
    } else {
      var before, data := chunks[..|chunks| - 1], chunks[|chunks| - 1];
      assert Join(before) <= Join(chunks);
      IcyVerdict(before, date, payload, phrases);
      if Boundary(before, EARLY) {
        assert Join(before)[12..] + data == Join(chunks)[12..];
      } else if |Join(before)| < |r| {
        IcyStep(ListenAll(before, phrases), Join(before), data, date, payload, phrases);
      } else {
        AfterEnd(ListenAll(before, phrases), Join(before), Covering(before, |r|), data, r, phrases);
      }
    }
  }

  lemma IcyStep(c: Client, got: string, data: string, date: string, payload: string, phrases: seq<string>)
    requires IsDate(date) && ClientPhrases(phrases)
    requires var r := Response(Welcome(false), date);
      got + data <= r + payload && |got| < |r| && Expected(c, got, got, r, phrases)
    ensures var r := Response(Welcome(false), date);
      if |got + data| == EARLY then Listen(c, data, phrases) == Connected((got + data)[12..])
      else Expected(Listen(c, data, phrases), got + data, got + data, r, phrases)
  {
    var r := Response(Welcome(false), date);
    IcyLength(date);
    WelcomePhraseFree(false, date);
    EitherPrefix(r, payload, got + data);
    assert got == r[..|got|];
    PhraseFreeHasNone(got, phrases);
    if |got + data| == EARLY {
      assert got + data == r[..EARLY];
      PhraseFreeHasNone(got + data, phrases);
      DecideEarly(date, got + data, phrases);
    } else {
      if |got + data| < |r| {
        IcyPrefixEnd(date, got + data);
      }
      WelcomeIsProper(false, date);
      BeforeEnd(c, got, data, r, payload, phrases);
    }
  }

  /** For the v1 response every division into reads delivers exactly the payload unless a read
      ended between the CR and the LF of the Server line, or what was buffered when the
      response was complete contains a phrase. */
  lemma IcyExactly(chunks: seq<string>, date: string, payload: string, phrases: seq<string>)
    requires IsDate(date) && ClientPhrases(phrases) && Join(chunks) == Response(Welcome(false), date) + payload
    ensures ListenAll(chunks, phrases) ==
            if Boundary(chunks, EARLY) then Connected(IcyRest(date) + payload)
            else if NoPhrase(Covering(chunks, |Response(Welcome(false), date)|), phrases) then Connected(payload)
            else Refused
    ensures ListenAll(chunks, phrases) == Connected(payload)
       <==> !Boundary(chunks, EARLY) && NoPhrase(Covering(chunks, |Response(Welcome(false), date)|), phrases)
  {
    var r := Response(Welcome(false), date);
    IcyVerdict(chunks, date, payload, phrases);
    SuccessExactly(Welcome(false), date);
    IcyLength(date);
    IcyShape(date);
    assert (r + payload)[12..] == IcyRest(date) + payload;
    assert (r + payload)[|r|..] == payload;
  }

  /** A division that leaks the rest of the welcome into the data. */
  lemma EarlyReadLeaks(date: string, payload: string, phrases: seq<string>) returns (chunks: seq<string>)
    requires IsDate(date) && ClientPhrases(phrases)
    ensures Join(chunks) == Response(Welcome(false), date) + payload
    ensures ListenAll(chunks, phrases) == Connected(IcyRest(date) + payload) != Connected(payload)
  {
    var r := Response(Welcome(false), date);
    IcyLength(date);
    var start := [r[..EARLY]];
    chunks := start + [r[EARLY..] + payload];
    JoinOne(r[..EARLY]);
    JoinAppend(start, r[EARLY..] + payload);
    assert chunks[..|chunks| - 1] == start;
    assert Boundary(start, EARLY);
    IcyExactly(chunks, date, payload, phrases);
    assert |IcyRest(date)| > 0;
  }

  /** For the v2 response every division into reads delivers exactly the payload unless what
      was buffered when the response was complete contains a phrase. */
  lemma V2Exactly(chunks: seq<string>, date: string, payload: string, phrases: seq<string>)
    requires IsDate(date) && ClientPhrases(phrases) && Join(chunks) == Response(Welcome(true), date) + payload
    ensures ListenAll(chunks, phrases) ==
            if NoPhrase(Covering(chunks, |Response(Welcome(true), date)|), phrases) then Connected(payload) else Refused
  {
    var r := Response(Welcome(true), date);
    WelcomeIsProper(true, date);
    PhraseFreeHasNone("", phrases);
    NotIcy(Welcome(true), date);
    SplitVerdict(chunks, r, payload, phrases);
    SuccessExactly(Welcome(true), date);
    assert (r + payload)[|r|..] == payload;
  }

  lemma NotIcy(reply: Reply, date: string)
    requires reply != Welcome(false)
    ensures |Response(reply, date)| >= 1 && Response(reply, date)[0] == 'H'
  {
    var lines := ReplyLines(reply, date) + [""];
    assert lines[0] == StatusLine(reply);
    assert Protocol(reply)[0] == 'H';
  }

  /** No start of a refusing response, however divided, is taken for success, and the whole of
      it is refused. */
  lemma RefusalRefuses(chunks: seq<string>, reply: Reply, date: string, phrases: seq<string>)
    requires !reply.Welcome? && IsDate(date) && ClientPhrases(phrases) && Join(chunks) <= Response(reply, date)
    ensures !ListenAll(chunks, phrases).Connected?
    ensures Join(chunks) == Response(reply, date) ==> ListenAll(chunks, phrases).Refused?
  {
    var r := Response(reply, date);
    ReplyIsProper(reply, date);
    NotIcy(reply, date);
    PhraseFreeHasNone("", phrases);
    assert r + "" == r;
    SplitVerdict(chunks, r, "", phrases);
    SuccessExactly(reply, date);
  }

  /** No bytes of a welcome alone are refused, and only the whole v2 welcome, or for v1 the
      whole or a read that ends early, connects. */
  lemma WelcomeConnects(chunks: seq<string>, v2: bool, date: string, phrases: seq<string>)
    requires IsDate(date) && ClientPhrases(phrases) && Join(chunks) <= Response(Welcome(v2), date)
    ensures !ListenAll(chunks, phrases).Refused?
    ensures ListenAll(chunks, phrases).Connected?
       <==> Join(chunks) == Response(Welcome(v2), date) || (!v2 && Boundary(chunks, EARLY))
  {
    var r := Response(Welcome(v2), date);
    WelcomePhraseFree(v2, date);
    PhraseFreeHasNone(Join(chunks), phrases);
    CoveringIsPart(chunks, |r|);
    PhraseFreeHasNone(Covering(chunks, |r|), phrases);
    PhraseFreeHasNone("", phrases);
    WelcomeIsProper(v2, date);
    SuccessExactly(Welcome(v2), date);
    assert r + "" == r;
    if v2 {
      NotIcy(Welcome(true), date);
      SplitVerdict(chunks, r, "", phrases);
    } else {
      IcyVerdict(chunks, date, "", phrases);
    }
  }

  lemma {:induction false} CoveringIsPart(chunks: seq<string>, n: nat)
    ensures Covering(chunks, n) <= Join(chunks)
  {
    if chunks != [] {
      CoveringIsPart(chunks[..|chunks| - 1], n);
    }
  }
}
