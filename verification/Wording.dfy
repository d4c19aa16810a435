/** What whoever reads the casters' and the clients' messages finds in them, line by line and
    header by header. */
module Wording {
  import opened Common
  import opened Text
  import opened Base64
  import opened Request
  import opened RequestFraming
  import opened Responses
  import opened ResponseFraming

  // ---------- the fixed responses ----------

  /** The lines of a fixed response, the empty one that ends it aside. */
  function Said(reply: Reply, date: string): seq<string> {
    match reply
    case Welcome(false) => ["ICY " + "200 OK", "Server: nav-rtlogging-go-lib", "Date: " + date]
    case Welcome(true) =>
      ["HTTP/1.1 " + "200 OK", "Ntrip-Version: Ntrip/2.0", "Server: nav-rtlogging-go-lib", "Date: " + date]
    case Unauthorized(false) =>
      ["HTTP/1.0 " + "401 Unauthorized", "WWW-Authenticate: Basic realm=\"NTRIP\"", "Connection: close"]
    case Unauthorized(true) =>
      ["HTTP/1.1 " + "401 Unauthorized", "Ntrip-Version: Ntrip/2.0", "WWW-Authenticate: Basic realm=\"NTRIP\"",
       "Connection: close"]
    case Conflict(false) => ["HTTP/1.0 " + "409 Conflict", "Connection: close"]
    case Conflict(true) => ["HTTP/1.1 " + "409 Conflict", "Ntrip-Version: Ntrip/2.0", "Connection: close"]
    case NotFound(false) => ["HTTP/1.0 " + "404 Not Found", "Connection: close"]
    case NotFound(true) => ["HTTP/1.1 " + "404 Not Found", "Ntrip-Version: Ntrip/2.0", "Connection: close"]
    case HeaderTooLarge => ["HTTP/1.0 " + "431 Request Header Fields Too Large", "Connection: close"]
    case Unavailable => ["HTTP/1.0 " + "503 Service Unavailable", "Connection: close"]
    case TooMany => ["HTTP/1.0 " + "429 Too Many Requests", "Connection: close"]
  }

  lemma RequestReplySaid(reply: Reply, date: string)
    requires reply.Welcome? || reply.Unauthorized? || reply.Conflict? || reply.NotFound?
    ensures ReplyLines(reply, date) == Said(reply, date)
  {
    assert [StatusLine(reply)] + [] == [StatusLine(reply)];
  }

  lemma PlainReplySaid(reply: Reply, date: string)
    requires reply.HeaderTooLarge? || reply.Unavailable? || reply.TooMany?
    ensures ReplyLines(reply, date) == Said(reply, date)
  {
    assert [StatusLine(reply)] + [] == [StatusLine(reply)];
  }

  /** Splitting a response into lines gives these, and the header ends with them. */
  lemma ResponseReadsAs(reply: Reply, date: string)
    requires IsDate(date)
    ensures Lines(Response(reply, date)) == Said(reply, date) + ["", ""]
    ensures HeaderEnd(Response(reply, date)) == |Response(reply, date)|
  {
    if reply.HeaderTooLarge? || reply.Unavailable? || reply.TooMany? {
      PlainReplySaid(reply, date);
    } else {
      RequestReplySaid(reply, date);
    }
    ReplyLinesOk(reply, date);
    MessageReadsAs(ReplyLines(reply, date));
    MessageEnds(ReplyLines(reply, date));
    BlankIsEnd(Response(reply, date));
  }

  lemma BlankIsEnd(h: string)
    requires EndsAtBlank(h)
    ensures HeaderEnd(h) == |h|
  {
  }

  lemma MessageReadsAs(lines: seq<string>)
    requires forall i :: 0 <= i < |lines| ==> OneLine(lines[i])
    ensures Lines(Message(lines)) == lines + ["", ""]
  {
    LinesOfJoin(lines + [""]);
    assert lines + [""] + [""] == lines + ["", ""];
  }

  // ---------- headers, one after the other ----------

  /** A name as it stands in a header line, and as it is looked up. */
  predicate IsName(name: string, key: string) {
    && name != "" && !IsSpace(name[0]) && !IsSpace(name[|name| - 1]) && Without(name, ':')
    && Lower(name) == key
  }

  lemma OneMoreHeader(lines: seq<string>, name: string, key: string, value: string)
    requires IsName(name, key)
    ensures Headers(lines + [name + ": " + value]) == Headers(lines)[key := TrimSpace(value)]
  {
    var line := name + ": " + value;
    assert line == name + [':'] + (" " + value);
    assert (lines + [line])[..|lines|] == lines;
    CutAt(name, ':', " " + value);
    TrimNothing(name, IsSpace);
    assert (" " + value)[1..] == value;
  }

  /** The same for a value that has nothing to trim. */
  lemma OneMoreFixed(lines: seq<string>, line: string, name: string, key: string, value: string)
    requires IsName(name, key) && line == name + ": " + value
    requires value != "" && !IsSpace(value[0]) && !IsSpace(value[|value| - 1])
    ensures Headers(lines + [line]) == Headers(lines)[key := value]
  {
    OneMoreHeader(lines, name, key, value);
    TrimNothing(value, IsSpace);
  }

  lemma NoMoreHeaders(lines: seq<string>)
    ensures Headers(lines + ["", ""]) == Headers(lines)
  {
    assert (lines + ["", ""])[..|lines| + 1] == lines + [""];
    assert (lines + [""])[..|lines|] == lines;
  }

  lemma HostHeader(lines: seq<string>, host: string)
    ensures Headers(lines + ["Host: " + host]) == Headers(lines)["host" := TrimSpace(host)]
  {
    assert IsName("Host", "host");
    assert "Host: " + host == "Host" + ": " + host;
    OneMoreHeader(lines, "Host", "host", host);
  }

  lemma VersionHeader(lines: seq<string>)
    ensures Headers(lines + ["Ntrip-Version: Ntrip/2.0"]) == Headers(lines)["ntrip-version" := "Ntrip/2.0"]
  {
    assert IsName("Ntrip-Version", "ntrip-version");
    OneMoreFixed(lines, "Ntrip-Version: Ntrip/2.0", "Ntrip-Version", "ntrip-version", "Ntrip/2.0");
  }

  lemma LibraryAgent(lines: seq<string>)
    ensures Headers(lines + ["User-Agent: NTRIP nav-rtlogging-go-lib"])
         == Headers(lines)["user-agent" := "NTRIP nav-rtlogging-go-lib"]
  {
    assert IsName("User-Agent", "user-agent");
    assert "User-Agent: NTRIP nav-rtlogging-go-lib" == "User-Agent" + ": " + "NTRIP nav-rtlogging-go-lib";
    OneMoreFixed(lines, "User-Agent: NTRIP nav-rtlogging-go-lib", "User-Agent", "user-agent", "NTRIP nav-rtlogging-go-lib");
  }

  lemma ClientAgent(lines: seq<string>)
    ensures Headers(lines + ["User-Agent: NTRIP Client"]) == Headers(lines)["user-agent" := "NTRIP Client"]
  {
    assert IsName("User-Agent", "user-agent");
    OneMoreFixed(lines, "User-Agent: NTRIP Client", "User-Agent", "user-agent", "NTRIP Client");
  }

  lemma AcceptHeader(lines: seq<string>)
    ensures Headers(lines + ["Accept: */*"]) == Headers(lines)["accept" := "*/*"]
  {
    assert IsName("Accept", "accept");
    OneMoreFixed(lines, "Accept: */*", "Accept", "accept", "*/*");
  }

  lemma DataType(lines: seq<string>)
    ensures Headers(lines + ["Content-Type: gnss/data"]) == Headers(lines)["content-type" := "gnss/data"]
  {
    assert IsName("Content-Type", "content-type");
    OneMoreFixed(lines, "Content-Type: gnss/data", "Content-Type", "content-type", "gnss/data");
  }

  lemma SourceAgent(lines: seq<string>)
    ensures Headers(lines + ["Source-Agent: NTRIP NtripServerCMD/1.0"])
         == Headers(lines)["source-agent" := "NTRIP NtripServerCMD/1.0"]
  {
    assert IsName("Source-Agent", "source-agent");
    assert "Source-Agent: NTRIP NtripServerCMD/1.0" == "Source-Agent" + ": " + "NTRIP NtripServerCMD/1.0";
    OneMoreFixed(lines, "Source-Agent: NTRIP NtripServerCMD/1.0", "Source-Agent", "source-agent", "NTRIP NtripServerCMD/1.0");
  }

  lemma AuthorizationIsName()
    ensures IsName("Authorization", "authorization")
  {
  }

  lemma BasicLineValue(encoded: string)
    requires encoded != "" && SpaceFree(encoded)
    ensures "Authorization" + [':'] + (" Basic " + encoded) == "Authorization" + ": " + ("Basic " + encoded)
    ensures var value := "Basic " + encoded; !IsSpace(value[0]) && !IsSpace(value[|value| - 1])
  {
    assert ("Basic " + encoded)[5 + |encoded|] == encoded[|encoded| - 1];
  }

  lemma AuthorizationHeader(lines: seq<string>, username: string, password: string)
    requires IsByteString(username) && IsByteString(password)
    ensures Headers(lines + [BasicLine(username, password)])
         == Headers(lines)["authorization" := "Basic " + Encode(username + ":" + password)]
  {
    var encoded := Encode(username + ":" + password);
    EncodeIsPlain(username + ":" + password);
    BasicLineValue(encoded);
    BasicLineParts(username, password);
    AuthorizationIsName();
    assert BasicLine(username, password) == "Authorization" + ": " + ("Basic " + encoded);
    OneMoreFixed(lines, BasicLine(username, password), "Authorization", "authorization", "Basic " + encoded);
  }

  // ---------- the requests, whole ----------

  /** The headers that version 2 requests begin with. */
  function V2Headers(host: string): map<string, string> {
    map["host" := TrimSpace(host)]["ntrip-version" := "Ntrip/2.0"]["user-agent" := "NTRIP nav-rtlogging-go-lib"]
  }

  function V2Start(host: string): seq<string> {
    ["Host: " + host, "Ntrip-Version: Ntrip/2.0", "User-Agent: NTRIP nav-rtlogging-go-lib"]
  }

  lemma OneByOne(a: string, b: string, c: string)
    ensures [] + [a] + [b] == [a, b] && [] + [a] + [b] + [c] == [a, b, c]
  {
  }

  lemma FirstHeader(k: string, v: string)
    ensures Headers([])[k := v] == map[k := v]
  {
  }

  lemma V2StartReadsAs(host: string)
    ensures Headers(V2Start(host)) == V2Headers(host)
  {
    var none: seq<string> := [];
    HostHeader(none, host);
    FirstHeader("host", TrimSpace(host));
    VersionHeader(none + ["Host: " + host]);
    LibraryAgent(none + ["Host: " + host] + ["Ntrip-Version: Ntrip/2.0"]);
    OneByOne("Host: " + host, "Ntrip-Version: Ntrip/2.0", "User-Agent: NTRIP nav-rtlogging-go-lib");
  }

  /** All that a caster gets of a built POST. */
  lemma PostReadsAs(mount: string, username: string, password: string, host: string)
    requires ValidMount(mount) && TrimSlashes(mount) != "" && OneLine(host) && IsByteString(username) && IsByteString(password)
    ensures Parse(Message(PostLines(mount, username, password, host))) ==
            Ok(Request("POST", TrimSlashes(mount), ["POST", "/" + mount, "HTTP/1.1"],
                       V2Headers(host)["authorization" := "Basic " + Encode(username + ":" + password)]
                                      ["content-type" := "gnss/data"]))
  {
    var lines := PostLines(mount, username, password, host);
    PostLinesOk(mount, username, password, host);
    PostFirst(mount, username, password, host);
    VerbAndVersion();
    TargetOfMount(mount);
    RequestLineOf("POST", mount, "HTTP/1.1");
    ParseThreeParts(lines, "POST", "/" + mount, "HTTP/1.1");
    PostHeaders(mount, username, password, host);
  }

  lemma PostHeaders(mount: string, username: string, password: string, host: string)
    requires IsByteString(username) && IsByteString(password)
    ensures Headers(PostLines(mount, username, password, host)[1..] + ["", ""]) ==
            V2Headers(host)["authorization" := "Basic " + Encode(username + ":" + password)]["content-type" := "gnss/data"]
  {
    var lines := V2Start(host) + [BasicLine(username, password)];
    V2StartReadsAs(host);
    AuthorizationHeader(V2Start(host), username, password);
    DataType(lines);
    PostParts(mount, username, password, host);
    NoMoreHeaders(lines + ["Content-Type: gnss/data"]);
  }

  lemma PostParts(mount: string, username: string, password: string, host: string)
    requires IsByteString(username) && IsByteString(password)
    ensures PostLines(mount, username, password, host)[1..]
         == V2Start(host) + [BasicLine(username, password)] + ["Content-Type: gnss/data"]
  {
  }

  /** The headers of a GET; Authorization only with both credentials. */
  function GetHeaders(username: string, password: string, v2: bool, host: string): map<string, string>
    requires IsByteString(username) && IsByteString(password)
  {
    var start := if v2 then V2Headers(host) else map["user-agent" := "NTRIP Client"];
    var credentials := if username != "" && password != "" then
                         start["authorization" := "Basic " + Encode(username + ":" + password)]
                       else start;
    credentials["accept" := "*/*"]
  }

  /** All that a caster gets of a built GET. */
  lemma GetReadsAs(mount: string, username: string, password: string, v2: bool, host: string)
    requires ValidMount(mount) && OneLine(host) && IsByteString(username) && IsByteString(password)
    ensures Parse(Message(GetLines(mount, username, password, v2, host))) ==
            Ok(Request("GET", TrimSlashes(mount), ["GET", "/" + mount, if v2 then "HTTP/1.1" else "HTTP/1.0"],
                       GetHeaders(username, password, v2, host)))
  {
    var lines := GetLines(mount, username, password, v2, host);
    var version := if v2 then "HTTP/1.1" else "HTTP/1.0";
    GetLinesOk(mount, username, password, v2, host);
    GetFirst(mount, username, password, v2, host);
    VerbAndVersion();
    TargetOfMount(mount);
    RequestLineOf("GET", mount, version);
    ParseThreeParts(lines, "GET", "/" + mount, version);
    HeadersOfGet(mount, username, password, v2, host);
  }

  lemma HeadersOfGet(mount: string, username: string, password: string, v2: bool, host: string)
    requires IsByteString(username) && IsByteString(password)
    ensures Headers(GetLines(mount, username, password, v2, host)[1..] + ["", ""])
         == GetHeaders(username, password, v2, host)
  {
    var agent: seq<string> := ["User-Agent: NTRIP Client"];
    var start := if v2 then V2Start(host) else agent;
    V2StartReadsAs(host);
    ClientAgent([]);
    assert [] + agent == agent;
    var lines := if username != "" && password != "" then start + [BasicLine(username, password)] else start;
    AuthorizationHeader(start, username, password);
    AcceptHeader(lines);
    GetParts(mount, username, password, v2, host);
    NoMoreHeaders(lines + ["Accept: */*"]);
  }

  lemma GetParts(mount: string, username: string, password: string, v2: bool, host: string)
    requires IsByteString(username) && IsByteString(password)
    ensures GetLines(mount, username, password, v2, host)[1..] ==
            (var start := if v2 then V2Start(host) else ["User-Agent: NTRIP Client"];
             if username != "" && password != "" then start + [BasicLine(username, password)] else start)
            + ["Accept: */*"]
  {
  }

  /** All that a caster gets of a built SOURCE with a password of one word. */
  lemma SourceReadsAs(mount: string, password: string)
    requires ValidMount(mount) && TrimSlashes(mount) != "" && password != "" && SpaceFree(password)
    ensures Parse(Message(SourceLines(mount, password))) ==
            Ok(Request("SOURCE", TrimSlashes(mount), ["SOURCE", password, "/" + mount],
                       map["source-agent" := "NTRIP NtripServerCMD/1.0"]))
  {
    var lines := SourceLines(mount, password);
    TargetOfMount(mount);
    SourceLinesOk(mount, password);
    ParseThreeParts(lines, "SOURCE", password, "/" + mount);
    VerbAndVersion();
    var agent: seq<string> := ["Source-Agent: NTRIP NtripServerCMD/1.0"];
    SourceAgent([]);
    assert [] + agent == agent && lines[1..] == agent;
    NoMoreHeaders(agent);
  }

  // ---------- the sourcetable ----------

  lemma ServerHeader(lines: seq<string>)
    ensures Headers(lines + [SERVER_LINE]) == Headers(lines)["server" := "nav-rtlogging-go-lib"]
  {
    assert IsName("Server", "server");
    assert SERVER_LINE == "Server" + ": " + "nav-rtlogging-go-lib";
    OneMoreFixed(lines, SERVER_LINE, "Server", "server", "nav-rtlogging-go-lib");
  }

  lemma TableType(lines: seq<string>)
    ensures Headers(lines + ["Content-Type: gnss/sourcetable"]) == Headers(lines)["content-type" := "gnss/sourcetable"]
  {
    assert IsName("Content-Type", "content-type");
    OneMoreFixed(lines, "Content-Type: gnss/sourcetable", "Content-Type", "content-type", "gnss/sourcetable");
  }

  lemma PlainType(lines: seq<string>)
    ensures Headers(lines + ["Content-Type: text/plain"]) == Headers(lines)["content-type" := "text/plain"]
  {
    assert IsName("Content-Type", "content-type");
    OneMoreFixed(lines, "Content-Type: text/plain", "Content-Type", "content-type", "text/plain");
  }

  lemma LengthAndClose(lines: seq<string>, length: nat)
    ensures Headers(lines + ["Content-Length: " + Decimal(length)] + [CLOSE_LINE])
         == Headers(lines)["content-length" := Decimal(length)]["connection" := "close"]
  {
    var line := "Content-Length: " + Decimal(length);
    assert IsName("Content-Length", "content-length") && IsName("Connection", "connection");
    assert "Content-Length: " == "Content-Length" + ": ";
    OneMoreFixed(lines, line, "Content-Length", "content-length", Decimal(length));
    OneMoreFixed(lines + [line], CLOSE_LINE, "Connection", "connection", "close");
  }

  /** The headers of a sourcetable with a body of this length. */
  function TableHeaders(v2: bool, length: nat): map<string, string> {
    TableKind(v2)["content-length" := Decimal(length)]["connection" := "close"]
  }

  function TableKind(v2: bool): map<string, string> {
    if v2 then
      map["ntrip-version" := "Ntrip/2.0"]["server" := "nav-rtlogging-go-lib"]["content-type" := "gnss/sourcetable"]
    else map["server" := "nav-rtlogging-go-lib"]["content-type" := "text/plain"]
  }

  lemma StartOfV2()
    ensures Headers([V2_LINE, SERVER_LINE, "Content-Type: gnss/sourcetable"]) == TableKind(true)
  {
    var none: seq<string> := [];
    VersionHeader(none);
    FirstHeader("ntrip-version", "Ntrip/2.0");
    ServerHeader(none + [V2_LINE]);
    TableType(none + [V2_LINE] + [SERVER_LINE]);
    OneByOne(V2_LINE, SERVER_LINE, "Content-Type: gnss/sourcetable");
  }

  lemma StartOfV1()
    ensures Headers([SERVER_LINE, "Content-Type: text/plain"]) == TableKind(false)
  {
    var none: seq<string> := [];
    ServerHeader(none);
    FirstHeader("server", "nav-rtlogging-go-lib");
    PlainType(none + [SERVER_LINE]);
    OneByOne(SERVER_LINE, "Content-Type: text/plain", "");
  }

  /** The first line of a sourcetable, its headers and its body, as cut at the header end. */
  lemma TableReadsAs(v2: bool, mounts: seq<string>)
    ensures var response := Sourcetable(v2, mounts);
      var end := HeaderEnd(response);
      && 0 <= end && response[end..] == Body(mounts)
      && var lines := Lines(response[..end]);
      && lines[0] == (if v2 then "HTTP/1.1 200 OK" else "SOURCETABLE 200 OK")
      && Headers(lines[1..]) == TableHeaders(v2, |Body(mounts)|)
  {
    var n := |Body(mounts)|;
    var lines := TableLines(v2, n);
    TableLinesOk(v2, n);
    MessageEnds(lines);
    EndOfExtension(Message(lines), Sourcetable(v2, mounts));
    MessageReadsAs(lines);
    var start := if v2 then [V2_LINE, SERVER_LINE, "Content-Type: gnss/sourcetable"]
                 else [SERVER_LINE, "Content-Type: text/plain"];
    StartOfV2();
    StartOfV1();
    LengthAndClose(start, n);
    TableParts(v2, n, start);
    NoMoreHeaders(start + ["Content-Length: " + Decimal(n)] + [CLOSE_LINE]);
  }

  lemma TableParts(v2: bool, length: nat, start: seq<string>)
    requires start == if v2 then [V2_LINE, SERVER_LINE, "Content-Type: gnss/sourcetable"]
                      else [SERVER_LINE, "Content-Type: text/plain"]
    ensures (TableLines(v2, length) + ["", ""])[1..]
         == start + ["Content-Length: " + Decimal(length)] + [CLOSE_LINE] + ["", ""]
  {
  }

  lemma FormatFields(rest: string)
    ensures Split("RTCM 3;;;;;;" + rest, ';') == ["RTCM 3", "", "", "", "", ""] + Split(rest, ';')
  {
    var none := "";
    SplitAt(none, ';', rest);
    SplitAt(none, ';', none + [';'] + rest);
    SplitAt(none, ';', none + [';'] + (none + [';'] + rest));
    SplitAt(none, ';', none + [';'] + (none + [';'] + (none + [';'] + rest)));
    SplitAt(none, ';', none + [';'] + (none + [';'] + (none + [';'] + (none + [';'] + rest))));
    var blanks := none + [';'] + (none + [';'] + (none + [';'] + (none + [';'] + (none + [';'] + rest))));
    SplitAt("RTCM 3", ';', blanks);
    assert "RTCM 3" + [';'] + blanks == "RTCM 3;;;;;;" + rest;
  }

  lemma TwoFields(a: string, b: string, rest: string)
    requires Without(a, ';') && Without(b, ';')
    ensures Split(a + ";" + b + ";" + rest, ';') == [a, b] + Split(rest, ';')
  {
    var tail := b + [';'] + rest;
    SplitAt(b, ';', rest);
    SplitAt(a, ';', tail);
    TwoRegrouped(a, b, rest);
  }

  lemma TwoRegrouped(a: string, b: string, rest: string)
    ensures a + ";" + b + ";" + rest == a + [';'] + (b + [';'] + rest)
  {
  }

  lemma PositionFields(rest: string)
    ensures Split("0.0000;0.0000;0;0;" + rest, ';') == ["0.0000", "0.0000"] + (["0", "0"] + Split(rest, ';'))
  {
    TwoFields("0", "0", rest);
    TwoFields("0.0000", "0.0000", "0" + ";" + "0" + ";" + rest);
    assert "0.0000;0.0000;0;0;" == "0.0000" + ";" + "0.0000" + ";" + ("0" + ";" + "0" + ";");
    assert "0.0000;0.0000;0;0;" + rest == "0.0000" + ";" + "0.0000" + ";" + ("0" + ";" + "0" + ";" + rest);
  }

  lemma GeneratorField(rest: string)
    ensures Split("nav-rtlogging-go-lib;" + rest, ';') == ["nav-rtlogging-go-lib"] + Split(rest, ';')
  {
    SplitAt("nav-rtlogging-go-lib", ';', rest);
    assert "nav-rtlogging-go-lib" + [';'] + rest == "nav-rtlogging-go-lib;" + rest;
  }

  lemma LastFields()
    ensures Split("none;B;N;0;", ';') == ["none", "B"] + ["N", "0", ""]
  {
    var rest := "N" + ";" + "0" + ";" + "";
    TwoFields("N", "0", "");
    assert Split("", ';') == [""];
    TwoFields("none", "B", rest);
    LastText(rest);
  }

  lemma LastText(rest: string)
    requires rest == "N" + ";" + "0" + ";" + ""
    ensures "none" + ";" + "B" + ";" + rest == "none;B;N;0;"
  {
    assert rest == "N;0;";
  }

  lemma {:induction false} TailFields(mount: string)
    requires Without(mount, ';')
    ensures Split(mount + ROW_TAIL, ';') ==
            [mount] + (["RTCM 3", "", "", "", "", ""]
                       + (["0.0000", "0.0000"] + (["0", "0"] + (["nav-rtlogging-go-lib"] + (["none", "B"] + ["N", "0", ""])))))
  {
    var last := "none;B;N;0;";
    LastFields();
    GeneratorField(last);
    PositionFields("nav-rtlogging-go-lib;" + last);
    FormatFields("0.0000;0.0000;0;0;" + ("nav-rtlogging-go-lib;" + last));
    var rest := "RTCM 3;;;;;;" + ("0.0000;0.0000;0;0;" + ("nav-rtlogging-go-lib;" + last));
    SplitAt(mount, ';', rest);
    TailRegrouped(mount, rest, last);
  }

  lemma TailRegrouped(mount: string, rest: string, last: string)
    requires last == "none;B;N;0;"
    requires rest == "RTCM 3;;;;;;" + ("0.0000;0.0000;0;0;" + ("nav-rtlogging-go-lib;" + last))
    ensures mount + ROW_TAIL == mount + [';'] + rest
  {
    assert ";RTCM 3;;;;;;" == [';'] + "RTCM 3;;;;;;";
    assert ROW_TAIL == [';'] + rest;
  }

  /** What follows the two mounts in a row. */
  const AFTER_MOUNTS: seq<string> :=
    ["RTCM 3", "", "", "", "", ""]
    + (["0.0000", "0.0000"] + (["0", "0"] + (["nav-rtlogging-go-lib"] + (["none", "B"] + ["N", "0", ""]))))

  lemma RowFields(mount: string)
    requires Plain(mount)
    ensures Split(Row(mount), ';') == ["STR"] + ([mount] + ([mount] + AFTER_MOUNTS))
  {
    RowParts(mount);
    SplitAt("STR", ';', mount + [';'] + (mount + ROW_TAIL));
    SplitAt(mount, ';', mount + ROW_TAIL);
    TailFields(mount);
  }

  lemma OneList(mount: string)
    ensures ["STR"] + ([mount] + ([mount] + AFTER_MOUNTS)) ==
            ["STR", mount, mount, "RTCM 3", "", "", "", "", "", "0.0000", "0.0000", "0", "0", "nav-rtlogging-go-lib",
             "none", "B", "N", "0", ""]
  {
  }

  /** The fields of a row of the table, 19 of them. */
  lemma RowReadsAs(mount: string)
    requires Plain(mount)
    ensures Split(Row(mount), ';') ==
            ["STR", mount, mount, "RTCM 3", "", "", "", "", "", "0.0000", "0.0000", "0", "0", "nav-rtlogging-go-lib",
             "none", "B", "N", "0", ""]
  {
    RowFields(mount);
    OneList(mount);
  }
}
