/** What a caster answers: the fixed responses and the sourcetable. */
module Responses {
  import opened Text
  import opened Request
  import opened RequestFraming

  /** The response to a request; v2 when the request's version was HTTP/1.1. The last three
      are sent without looking at a request. */
  datatype Reply =
    | Welcome(v2: bool)
    | Unauthorized(v2: bool)
    | Conflict(v2: bool)
    | NotFound(v2: bool)
    | HeaderTooLarge
    | Unavailable
    | TooMany

  const V2_LINE: string := "Ntrip-Version: Ntrip/2.0"
  const SERVER_LINE: string := "Server: nav-rtlogging-go-lib"
  const CLOSE_LINE: string := "Connection: close"
  const REALM_LINE: string := "WWW-Authenticate: Basic realm=\"NTRIP\""

  /** A date as the casters write it: 29 characters on one line, made of day and month
      abbreviations, GMT, digits, commas, colons and blanks. None of those has a q, x or z. */
  predicate IsDate(date: string) {
    |date| == 29 && OneLine(date) && Without(date, 'q') && Without(date, 'x') && Without(date, 'z')
  }

  predicate ReplyV2(reply: Reply) {
    (reply.Welcome? || reply.Unauthorized? || reply.Conflict? || reply.NotFound?) && reply.v2
  }

  function Protocol(reply: Reply): string {
    if ReplyV2(reply) then "HTTP/1.1 " else if reply.Welcome? then "ICY " else "HTTP/1.0 "
  }

  function Status(reply: Reply): string {
    match reply
    case Welcome(_) => "200 OK"
    case Unauthorized(_) => "401 Unauthorized"
    case Conflict(_) => "409 Conflict"
    case NotFound(_) => "404 Not Found"
    case HeaderTooLarge => "431 Request Header Fields Too Large"
    case Unavailable => "503 Service Unavailable"
    case TooMany => "429 Too Many Requests"
  }

  function StatusLine(reply: Reply): string {
    Protocol(reply) + Status(reply)
  }

  function ReplyLines(reply: Reply, date: string): seq<string> {
    [StatusLine(reply)]
    + (if ReplyV2(reply) then [V2_LINE] else [])
    + (match reply
       case Welcome(_) => [SERVER_LINE, "Date: " + date]
       case Unauthorized(_) => [REALM_LINE, CLOSE_LINE]
       case _ => [CLOSE_LINE])
  }

  function Response(reply: Reply, date: string): string {
    Message(ReplyLines(reply, date))
  }

  // ---------- the sourcetable ----------

  /** Entries that would break the table are passed over. */
  predicate Plain(mount: string) {
    mount != "" && Without(mount, ';') && OneLine(mount)
  }

  const ROW_TAIL: string := ";RTCM 3;;;;;;" + "0.0000;0.0000;0;0;" + "nav-rtlogging-go-lib;" + "none;B;N;0;"

  function Row(mount: string): string {
    "STR;" + mount + ";" + mount + ROW_TAIL
  }

  function Kept(mounts: seq<string>): seq<string> {
    if mounts == [] then []
    else Kept(mounts[..|mounts| - 1]) + if Plain(mounts[|mounts| - 1]) then [mounts[|mounts| - 1]] else []
  }

  function Rows(mounts: seq<string>): seq<string> {
    seq(|mounts|, i requires 0 <= i < |mounts| => Row(mounts[i]))
  }

  const END_LINE: string := "ENDSOURCETABLE"

  function Body(mounts: seq<string>): string {
    JoinLines(Rows(Kept(mounts)) + [END_LINE])
  }

  function TableLines(v2: bool, length: nat): seq<string> {
    (if v2 then ["HTTP/1.1 200 OK", V2_LINE, SERVER_LINE, "Content-Type: gnss/sourcetable"]
     else ["SOURCETABLE 200 OK", SERVER_LINE, "Content-Type: text/plain"])
    + ["Content-Length: " + Decimal(length), CLOSE_LINE]
  }

  function Sourcetable(v2: bool, mounts: seq<string>): string {
    Message(TableLines(v2, |Body(mounts)|)) + Body(mounts)
  }

  method BuildSourcetable(v2: bool, mounts: seq<string>) returns (response: string)
    ensures response == Sourcetable(v2, mounts)
  {
    var body := "";
    for i := 0 to |mounts|
      invariant body == JoinLines(Rows(Kept(mounts[..i])))
    {
      assert mounts[..i + 1][..i] == mounts[..i] && mounts[..i + 1][i] == mounts[i];
      assert Kept(mounts[..i]) + [] == Kept(mounts[..i]);
      if Plain(mounts[i]) {
        RowsAppend(Kept(mounts[..i]), mounts[i]);
        body := body + Row(mounts[i]) + "\r\n";
      }
    }
    assert mounts[..|mounts|] == mounts;
    JoinLinesAppend(Rows(Kept(mounts)), END_LINE);
    body := body + END_LINE + "\r\n";
    response := Message(TableLines(v2, |body|)) + body;
  }

  lemma RowsAppend(mounts: seq<string>, mount: string)
    ensures JoinLines(Rows(mounts + [mount])) == JoinLines(Rows(mounts)) + Row(mount) + "\r\n"
  {
    assert Rows(mounts + [mount]) == Rows(mounts) + [Row(mount)];
    JoinLinesAppend(Rows(mounts), Row(mount));
  }

  /** A reader of the table: split by CRLF, then by ';', up to the end line. */
  function ReadRows(lines: seq<string>): seq<string> {
    if lines == [] || lines[0] == END_LINE then []
    else
      var fields := Split(lines[0], ';');
      (if |fields| >= 3 && fields[0] == "STR" then [fields[1]] else []) + ReadRows(lines[1..])
  }

  lemma RowReadsBack(mount: string)
    requires Plain(mount)
    ensures OneLine(Row(mount)) && Row(mount) != END_LINE
    ensures |Split(Row(mount), ';')| >= 3 && Split(Row(mount), ';')[0] == "STR" && Split(Row(mount), ';')[1] == mount
  {
    RowParts(mount);
    SplitAt("STR", ';', mount + [';'] + (mount + ROW_TAIL));
    SplitAt(mount, ';', mount + ROW_TAIL);
    RowOnOneLine(mount);
  }

  lemma RowParts(mount: string)
    ensures Row(mount) == "STR" + [';'] + (mount + [';'] + (mount + ROW_TAIL))
    ensures Row(mount) != END_LINE
  {
    assert "STR;" == "STR" + [';'];
    assert Row(mount)[0] == 'S' && END_LINE[0] == 'E';
  }

  lemma TailOnOneLine()
    ensures OneLine(ROW_TAIL)
  {
    assert OneLine(";RTCM 3;;;;;;") && OneLine("0.0000;0.0000;0;0;");
    assert OneLine("nav-rtlogging-go-lib;") && OneLine("none;B;N;0;");
    OneLineConcat(";RTCM 3;;;;;;", "0.0000;0.0000;0;0;");
    OneLineConcat(";RTCM 3;;;;;;" + "0.0000;0.0000;0;0;", "nav-rtlogging-go-lib;");
    OneLineConcat(";RTCM 3;;;;;;" + "0.0000;0.0000;0;0;" + "nav-rtlogging-go-lib;", "none;B;N;0;");
  }

  lemma RowOnOneLine(mount: string)
    requires OneLine(mount)
    ensures OneLine(Row(mount))
  {
    TailOnOneLine();
    OneLineConcat("STR;", mount);
    OneLineConcat("STR;" + mount, ";");
    OneLineConcat("STR;" + mount + ";", mount);
    OneLineConcat("STR;" + mount + ";" + mount, ROW_TAIL);
  }

  lemma {:induction false} RowsReadBack(mounts: seq<string>, rest: seq<string>)
    requires forall i :: 0 <= i < |mounts| ==> Plain(mounts[i])
    ensures ReadRows(Rows(mounts) + [END_LINE] + rest) == mounts
  {
    var lines := Rows(mounts) + [END_LINE] + rest;
    if mounts != [] {
      RowReadsBack(mounts[0]);
      assert lines[0] == Row(mounts[0]);
      assert lines[1..] == Rows(mounts[1..]) + [END_LINE] + rest;
      RowsReadBack(mounts[1..], rest);
      assert mounts == [mounts[0]] + mounts[1..];
    }
  }

  lemma {:induction false} KeptArePlain(mounts: seq<string>)
    ensures forall i :: 0 <= i < |Kept(mounts)| ==> Plain(Kept(mounts)[i])
    ensures |Kept(mounts)| <= |mounts|
    ensures Kept(mounts) == mounts <==> forall i :: 0 <= i < |mounts| ==> Plain(mounts[i])
  {
    if mounts != [] {
      var last := |mounts| - 1;
      KeptArePlain(mounts[..last]);
      assert mounts == mounts[..last] + [mounts[last]];
      if Plain(mounts[last]) {
        assert Kept(mounts)[..|Kept(mounts)| - 1] == Kept(mounts[..last]);
      }
    }
  }

  /** The mounts that are kept, in their order: those that are not empty and have neither a
      semicolon nor a line break. */
  lemma {:induction false} KeptExactly(mounts: seq<string>, mount: string)
    ensures mount in Kept(mounts) <==>
            mount in mounts && mount != "" && forall i :: 0 <= i < |mount| ==> mount[i] !in {';', '\r', '\n'}
  {
    if mounts != [] {
      var before, last := mounts[..|mounts| - 1], mounts[|mounts| - 1];
      assert mounts == before + [last];
      KeptExactly(before, mount);
    }
  }

  /** Reading the body gives back the kept mounts, and these are all of them exactly when
      every mount is plain. */
  lemma {:induction false} TableReadsBack(mounts: seq<string>)
    ensures ReadRows(Lines(Body(mounts))) == Kept(mounts)
    ensures ReadRows(Lines(Body(mounts))) == mounts <==> forall i :: 0 <= i < |mounts| ==> Plain(mounts[i])
  {
    KeptArePlain(mounts);
    var rows := Rows(Kept(mounts));
    forall i | 0 <= i < |rows| ensures OneLine(rows[i]) {
      RowReadsBack(Kept(mounts)[i]);
    }
    EndOnOneLine();
    LinesOfJoin(rows + [END_LINE]);
    RowsReadBack(Kept(mounts), [""]);
  }

  lemma EndOnOneLine()
    ensures OneLine(END_LINE)
  {
  }

  // ---------- the length of the body ----------

  lemma FixedTableLines()
    ensures AllOneLine(["HTTP/1.1 200 OK", V2_LINE, SERVER_LINE]) && AllOneLine(["SOURCETABLE 200 OK", SERVER_LINE])
    ensures AllOneLine(["Content-Type: gnss/sourcetable"]) && AllOneLine(["Content-Type: text/plain"])
    ensures AllOneLine([CLOSE_LINE]) && OneLine("Content-Length: ")
  {
  }

  lemma TableLinesOk(v2: bool, length: nat)
    ensures AllOneLine(TableLines(v2, length))
  {
    FixedTableLines();
    OneLineConcat("Content-Length: ", Decimal(length));
    var start := if v2 then ["HTTP/1.1 200 OK", V2_LINE, SERVER_LINE] else ["SOURCETABLE 200 OK", SERVER_LINE];
    var kind := if v2 then ["Content-Type: gnss/sourcetable"] else ["Content-Type: text/plain"];
    Together(start, kind);
    Together(start + kind, ["Content-Length: " + Decimal(length)]);
    Together(start + kind + ["Content-Length: " + Decimal(length)], [CLOSE_LINE]);
    TableLinesParts(v2, length);
  }

  lemma TableLinesParts(v2: bool, length: nat)
    ensures TableLines(v2, length) ==
            (if v2 then ["HTTP/1.1 200 OK", V2_LINE, SERVER_LINE] else ["SOURCETABLE 200 OK", SERVER_LINE])
            + (if v2 then ["Content-Type: gnss/sourcetable"] else ["Content-Type: text/plain"])
            + ["Content-Length: " + Decimal(length)] + [CLOSE_LINE]
  {
  }

  lemma LengthName()
    ensures Lower("Content-Length") == "content-length" && TrimSpace("Content-Length") == "Content-Length"
    ensures Without("Content-Length", ':')
  {
    TrimNothing("Content-Length", IsSpace);
  }

  lemma CloseIsOther()
    ensures NotHeader(CLOSE_LINE, "Content-Length")
  {
    assert CLOSE_LINE == "Connection" + [':'] + " close";
    OtherHeader("Connection", " close", "Content-Length");
  }

  /** Whoever cuts the response at its header end and reads the headers finds in
      Content-Length the length of what follows (section 8.6 of RFC 9110). */
  lemma ContentLengthIsBodyLength(v2: bool, mounts: seq<string>)
    ensures var response := Sourcetable(v2, mounts);
      var end := HeaderEnd(response);
      && 0 <= end && response[end..] == Body(mounts)
      && var headers := Headers(Lines(response[..end]));
      && "content-length" in headers && ReadDecimal(headers["content-length"]) == |response| - end
  {
    var n := |Body(mounts)|;
    var lines := TableLines(v2, n);
    var header := Message(lines);
    TableLinesOk(v2, n);
    TableLinesParts(v2, n);
    MessageEnds(lines);
    EndOfExtension(header, Sourcetable(v2, mounts));
    LinesOfJoin(lines + [""]);
    LengthHeader(lines + [""] + [""], |lines| - 2, n);
    DecimalReadsBack(n);
  }

  lemma LengthLine(d: string)
    ensures "Content-Length: " + d == "Content-Length" + [':'] + (" " + d)
  {
    assert "Content-Length: " == "Content-Length" + [':'] + " ";
  }

  lemma LengthHeader(lines: seq<string>, i: nat, n: nat)
    requires i + 4 == |lines| && lines[i] == "Content-Length: " + Decimal(n) && lines[i + 1] == CLOSE_LINE
    requires lines[i + 2] == lines[i + 3] == ""
    ensures "content-length" in Headers(lines) && Headers(lines)["content-length"] == Decimal(n)
  {
    LengthName();
    LengthLine(Decimal(n));
    TrimOneSpace(Decimal(n));
    CloseIsOther();
    BlankIsOther("Content-Length");
    OnlyOthersFollow(lines, i, CLOSE_LINE, "", "Content-Length");
    LastHeaderWins(lines, i, "Content-Length", " " + Decimal(n));
  }

  lemma OnlyOthersFollow(lines: seq<string>, i: nat, line: string, last: string, name: string)
    requires i + 4 == |lines| && lines[i + 1] == line && lines[i + 2] == lines[i + 3] == last
    requires NotHeader(line, name) && NotHeader(last, name)
    ensures forall j :: i < j < |lines| ==> NotHeader(lines[j], name)
  {
  }

  lemma BlankIsOther(name: string)
    ensures NotHeader("", name)
  {
  }
}
