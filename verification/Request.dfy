/** NTRIP requests: the parser of the casters and the builders of the two clients. */
module Request {
  import opened Common
  import opened Text
  import opened Base64

  datatype Request = Request(verb: string, target: string, parts: seq<string>, headers: map<string, string>)

  // ---------- parsing ----------

  predicate IsSlash(c: char) {
    c == '/'
  }

  function TrimSlashes(s: string): string {
    Trim(s, IsSlash)
  }

  function NormalizeMount(target: string): string {
    TrimSlashes(TrimSpace(target))
  }

  function AddHeader(headers: map<string, string>, line: string): map<string, string> {
    var (name, value, ok) := Cut(line, ':');
    if ok then headers[Lower(TrimSpace(name)) := TrimSpace(value)] else headers
  }

  function Headers(lines: seq<string>): map<string, string> {
    if lines == [] then map[] else AddHeader(Headers(lines[..|lines| - 1]), lines[|lines| - 1])
  }

  /** The verb and target of a request line. */
  function RequestLine(parts: seq<string>): Result<(string, string)> {
    if |parts| < 2 then Err
    else
      var verb := Upper(parts[0]);
      if verb == "SOURCE" && |parts| < 3 then Err
      else
        var target := NormalizeMount(if verb == "SOURCE" then parts[2] else parts[1]);
        if target == "" && verb != "GET" then Err else Ok((verb, target))
  }

  function Parse(data: string): (r: Result<Request>)
    ensures r.Ok? ==> |r.value.parts| >= 2
  {
    var lines := Lines(data);
    var parts := Fields(lines[0]);
    match RequestLine(parts)
    case Ok((verb, target)) => Ok(Request(verb, target, parts, Headers(lines[1..])))
    case Err => Err
  }

  method ParseRequest(data: string) returns (r: Result<Request>)
    ensures r == Parse(data)
  {
    var lines := Lines(data);
    var parts := Fields(lines[0]);
    if |parts| < 2 {
      return Err;
    }
    var verb := Upper(parts[0]);
    var target;
    if verb == "SOURCE" {
      if |parts| < 3 {
        return Err;
      }
      target := NormalizeMount(parts[2]);
    } else {
      target := NormalizeMount(parts[1]);
    }
    if target == "" && verb != "GET" {
      return Err;
    }
    var headers: map<string, string> := map[];
    for i := 1 to |lines|
      invariant headers == Headers(lines[1..i])
    {
      assert lines[1..i + 1][..i - 1] == lines[1..i];
      var (name, value, ok) := Cut(lines[i], ':');
      if ok {
        headers := headers[Lower(TrimSpace(name)) := TrimSpace(value)];
      }
    }
    assert lines[1..|lines|] == lines[1..];
    return Ok(Request(verb, target, parts, headers));
  }

  /** A header that is not there reads as the empty string. */
  function Header(r: Request, name: string): string {
    if name in r.headers then r.headers[name] else ""
  }

  function ParseBasic(value: string): Result<(string, string)> {
    var (scheme, encoded, ok) := Cut(TrimSpace(value), ' ');
    if !ok || !EqualFold(scheme, "Basic") || TrimSpace(encoded) == "" then Err
    else
      match Decode(TrimSpace(encoded))
      case Err => Err
      case Ok(decoded) =>
        var (username, password, found) := Cut(decoded, ':');
        if found then Ok((username, password)) else Err
  }

  predicate IsV2(r: Request) {
    |r.parts| >= 3 && EqualFold(r.parts[2], "HTTP/1.1")
  }

  predicate IsControl(c: char) {
    c < ' ' || c as int == 127
  }

  predicate ValidMount(mount: string) {
    && TrimSpace(mount) != ""
    && forall i :: 0 <= i < |mount| ==> mount[i] != ';' && !IsSpace(mount[i]) && !IsControl(mount[i])
  }

  /** A mount is of printable bytes, none of them a blank or a semicolon. */
  lemma ValidMountExactly(mount: string)
    ensures ValidMount(mount) <==>
            mount != "" && forall i :: 0 <= i < |mount| ==> mount[i] as int >= 33 && mount[i] as int != 127 && mount[i] != ';'
  {
    if mount != "" && !IsSpace(mount[0]) && !IsSpace(mount[|mount| - 1]) {
      TrimNothing(mount, IsSpace);
    }
  }

  // ---------- building ----------

  function BasicLine(username: string, password: string): string
    requires IsByteString(username) && IsByteString(password)
  {
    "Authorization: Basic " + Encode(username + ":" + password)
  }

  /** The lines of createNtripAuthMsg, and of createNtripAuthMsgV2 when v2. */
  function GetLines(mount: string, username: string, password: string, v2: bool, host: string): seq<string>
    requires IsByteString(username) && IsByteString(password)
  {
    var credentials := if username != "" && password != "" then [BasicLine(username, password)] else [];
    if v2 then
      ["GET /" + mount + " HTTP/1.1", "Host: " + host, "Ntrip-Version: Ntrip/2.0",
       "User-Agent: NTRIP nav-rtlogging-go-lib"] + credentials + ["Accept: */*"]
    else
      ["GET /" + mount + " HTTP/1.0", "User-Agent: NTRIP Client"] + credentials + ["Accept: */*"]
  }

  function PostLines(mount: string, username: string, password: string, host: string): seq<string>
    requires IsByteString(username) && IsByteString(password)
  {
    ["POST /" + mount + " HTTP/1.1", "Host: " + host, "Ntrip-Version: Ntrip/2.0",
     "User-Agent: NTRIP nav-rtlogging-go-lib", BasicLine(username, password), "Content-Type: gnss/data"]
  }

  function SourceLines(mount: string, password: string): seq<string> {
    ["SOURCE " + password + " /" + mount, "Source-Agent: NTRIP NtripServerCMD/1.0"]
  }

  /** A message is its lines, each ended by CRLF, and an empty line. */
  function Message(lines: seq<string>): string {
    JoinLines(lines + [""])
  }

  // ---------- Basic credentials ----------

  /** The scheme and the encoded part of a value that a builder wrote. */
  lemma BasicParts(encoded: string)
    requires encoded != "" && SpaceFree(encoded)
    ensures Cut(TrimSpace("Basic " + encoded), ' ') == ("Basic", encoded, true)
    ensures TrimSpace(encoded) == encoded
  {
    var value := "Basic " + encoded;
    assert value[|value| - 1] == encoded[|encoded| - 1];
    TrimNothing(value, IsSpace);
    TrimNothing(encoded, IsSpace);
    assert value == "Basic" + [' '] + encoded;
    CutAt("Basic", ' ', encoded);
  }

  lemma {:induction false} ParseBasicOfEncoded(joined: string)
    requires IsByteString(joined) && joined != ""
    ensures ParseBasic("Basic " + Encode(joined)) ==
            var (username, password, found) := Cut(joined, ':');
            if found then Ok((username, password)) else Err
  {
    EncodeIsPlain(joined);
    DecodeOfEncode(joined);
    BasicParts(Encode(joined));
  }

  /** The credentials that a receiver splits out of the joined ones. */
  function Credentials(username: string, password: string): (string, string) {
    var (before, after, _) := Cut(username + ":" + password, ':');
    (before, after)
  }

  /** Splitting gives the credentials, which are those that were joined (section 2 of RFC 7617)
      exactly when the username has no colon. */
  lemma CredentialsExactly(username: string, password: string)
    requires IsByteString(username) && IsByteString(password)
    ensures ParseBasic("Basic " + Encode(username + ":" + password)) == Ok(Credentials(username, password))
    ensures Credentials(username, password) == (username, password) <==> Without(username, ':')
    ensures password != "" ==> Credentials(username, password).1 != ""
  {
    var joined := username + ":" + password;
    ParseBasicOfEncoded(joined);
    assert joined == username + [':'] + password;
    HasChar(joined, |username|, ':');
    CutParts(joined, ':');
    if Without(username, ':') {
      CutAt(username, ':', password);
    } else {
      FirstIsFirst(Cut(joined, ':').0, ':', Cut(joined, ':').1, |username|);
    }
  }

  lemma FirstIsFirst(before: string, c: char, after: string, i: nat)
    requires Without(before, c) && i < |before + [c] + after| && (before + [c] + after)[i] == c
    ensures |before| <= i
  {
  }

  /** The name of the scheme counts in any case, and no other scheme does. */
  lemma SchemeExactly(scheme: string, encoded: string)
    requires scheme != "" && SpaceFree(scheme) && encoded != "" && SpaceFree(encoded)
    ensures ParseBasic(scheme + " " + encoded) ==
            if EqualFold(scheme, "Basic") then ParseBasic("Basic " + encoded) else Err
  {
    var value := scheme + " " + encoded;
    assert value[|value| - 1] == encoded[|encoded| - 1] && value[0] == scheme[0];
    TrimNothing(value, IsSpace);
    TrimNothing(encoded, IsSpace);
    assert value == scheme + [' '] + encoded;
    CutAt(scheme, ' ', encoded);
    BasicParts(encoded);
  }

  lemma {:induction false} BasicRoundTrip(username: string, password: string)
    requires IsByteString(username) && IsByteString(password)
    ensures ParseBasic("Basic " + Encode(username + ":" + password)).Ok?
    ensures ParseBasic("Basic " + Encode(username + ":" + password)) == Ok((username, password))
       <==> Without(username, ':')
  {
    CredentialsExactly(username, password);
  }

  // ---------- headers ----------

  /** The line does not set the header that `name` sets. */
  predicate NotHeader(line: string, name: string) {
    !Cut(line, ':').2 || Lower(TrimSpace(Cut(line, ':').0)) != Lower(name)
  }

  /** The last line that sets a header decides it. */
  lemma {:induction false} LastHeaderWins(lines: seq<string>, i: nat, name: string, value: string)
    requires i < |lines| && lines[i] == name + [':'] + value && Without(name, ':')
    requires TrimSpace(name) == name
    requires forall j :: i < j < |lines| ==> NotHeader(lines[j], name)
    ensures Lower(name) in Headers(lines) && Headers(lines)[Lower(name)] == TrimSpace(value)
  {
    if i == |lines| - 1 {
      CutAt(name, ':', value);
    } else {
      LastHeaderWins(lines[..|lines| - 1], i, name, value);
    }
  }

  /** A line "Other: ..." whose name has another length is another header. */
  lemma OtherHeader(other: string, rest: string, name: string)
    requires Without(other, ':') && other != "" && |other| != |name|
    requires !IsSpace(other[0]) && !IsSpace(other[|other| - 1])
    ensures NotHeader(other + [':'] + rest, name)
  {
    CutAt(other, ':', rest);
    TrimNothing(other, IsSpace);
  }

  lemma AcceptIsOther()
    ensures NotHeader("Accept: */*", "Authorization")
  {
    assert "Accept: */*" == "Accept" + [':'] + " */*";
    OtherHeader("Accept", " */*", "Authorization");
  }

  lemma ContentTypeIsOther()
    ensures NotHeader("Content-Type: gnss/data", "Authorization")
  {
    assert "Content-Type: gnss/data" == "Content-Type" + [':'] + " gnss/data";
    OtherHeader("Content-Type", " gnss/data", "Authorization");
  }

  lemma TrimOneSpace(value: string)
    requires value != "" && !IsSpace(value[0]) && !IsSpace(value[|value| - 1])
    ensures TrimSpace(" " + value) == value
  {
    assert (" " + value)[1..] == value;
    TrimNothing(value, IsSpace);
  }

  lemma BasicValueTrims(encoded: string)
    requires encoded != "" && SpaceFree(encoded)
    ensures TrimSpace(" Basic " + encoded) == "Basic " + encoded
  {
    var value := "Basic " + encoded;
    assert value[|value| - 1] == encoded[|encoded| - 1];
    assert " Basic " + encoded == " " + value;
    TrimOneSpace(value);
  }

  lemma AuthorizationName()
    ensures Lower("Authorization") == "authorization" && TrimSpace("Authorization") == "Authorization"
    ensures Without("Authorization", ':')
  {
    TrimNothing("Authorization", IsSpace);
  }

  /** A built message with the Authorization line at i carries its credentials. */
  lemma {:induction false} CredentialsCarried(lines: seq<string>, i: nat, username: string, password: string)
    requires IsByteString(username) && IsByteString(password)
    requires i < |lines| && lines[i] == BasicLine(username, password)
    requires forall j :: i < j < |lines| ==> NotHeader(lines[j], "Authorization")
    ensures "authorization" in Headers(lines)
         && Headers(lines)["authorization"] == "Basic " + Encode(username + ":" + password)
  {
    var encoded := Encode(username + ":" + password);
    EncodeIsPlain(username + ":" + password);
    BasicValueTrims(encoded);
    AuthorizationName();
    BasicLineParts(username, password);
    LastHeaderWins(lines, i, "Authorization", " Basic " + encoded);
  }

  lemma BasicLineParts(username: string, password: string)
    requires IsByteString(username) && IsByteString(password)
    ensures BasicLine(username, password)
         == "Authorization" + [':'] + (" Basic " + Encode(username + ":" + password))
  {
  }

  // ---------- request lines ----------

  lemma SkipSpace(s: string)
    ensures Fields(" " + s) == Fields(s)
  {
    assert (" " + s)[1..] == s;
  }

  lemma FieldsOne(c: string)
    requires c != "" && SpaceFree(c)
    ensures Fields(" " + c) == [c]
  {
    SkipSpace(c);
    FieldsStep(c, "");
    assert c + "" == c;
  }

  lemma Regroup(a: string, b: string, c: string)
    ensures a + " " + b + " " + c == a + (" " + (b + (" " + c)))
  {
  }

  lemma {:induction false} FieldsThree(a: string, b: string, c: string)
    requires a != "" && b != "" && c != "" && SpaceFree(a) && SpaceFree(b) && SpaceFree(c)
    ensures Fields(a + " " + b + " " + c) == [a, b, c]
  {
    var rest := " " + c;
    FieldsOne(c);
    FieldsStep(b, rest);
    SkipSpace(b + rest);
    FieldsStep(a, " " + (b + rest));
    Regroup(a, b, c);
  }

  lemma FirstField(a: string, c: char, b: string)
    requires a != "" && !IsSpace(a[0]) && IsSpace(c)
    ensures Fields(a + [c] + b) == [Word(a)] + Fields(a[|Word(a)|..] + [c] + b)
  {
    var w := Word(a);
    var rest := a[|w|..] + [c] + b;
    assert a + [c] + b == w + rest;
    FieldsStep(w, rest);
  }

  lemma LeadingSpace(a: string, c: char, b: string)
    requires a != "" && IsSpace(a[0])
    ensures Fields(a + [c] + b) == Fields(a[1..] + [c] + b) && Fields(a) == Fields(a[1..])
  {
    assert (a + [c] + b)[1..] == a[1..] + [c] + b;
  }

  lemma NoFields(c: char, b: string)
    requires IsSpace(c)
    ensures Fields("" + [c] + b) == Fields(b)
  {
    assert "" + [c] + b == [c] + b && ([c] + b)[1..] == b;
  }

  /** White space between two texts divides their fields. */
  lemma {:induction false} FieldsConcat(a: string, c: char, b: string)
    requires IsSpace(c)
    ensures Fields(a + [c] + b) == Fields(a) + Fields(b)
    decreases |a|
  {
    if a == "" {
      NoFields(c, b);
    } else if IsSpace(a[0]) {
      LeadingSpace(a, c, b);
      FieldsConcat(a[1..], c, b);
    } else {
      var rest := a[|Word(a)|..];
      FirstField(a, c, b);
      FieldsConcat(rest, c, b);
      assert [Word(a)] + (Fields(rest) + Fields(b)) == [Word(a)] + Fields(rest) + Fields(b);
    }
  }

  /** No slash at either end. */
  predicate NoEdgeSlash(mount: string) {
    mount != "" ==> mount[0] != '/' && mount[|mount| - 1] != '/'
  }

  lemma {:induction false} TrimRightClean(s: string, drop: char -> bool)
    ensures var r := TrimRight(s, drop);
      && r <= s && (r != "" ==> !drop(r[|r| - 1]))
      && (s != "" && !drop(s[0]) ==> r != "" && r[0] == s[0])
  {
    if s != "" && drop(s[|s| - 1]) {
      TrimRightClean(s[..|s| - 1], drop);
    }
  }

  lemma {:induction false} TrimLeftClean(s: string, drop: char -> bool)
    ensures TrimLeft(s, drop) != "" ==> !drop(TrimLeft(s, drop)[0])
  {
    if s != "" && drop(s[0]) {
      TrimLeftClean(s[1..], drop);
    }
  }

  lemma TrimSlashesClean(s: string)
    ensures NoEdgeSlash(TrimSlashes(s)) && (NoEdgeSlash(s) ==> TrimSlashes(s) == s)
  {
    TrimLeftClean(s, IsSlash);
    TrimRightClean(TrimLeft(s, IsSlash), IsSlash);
    if NoEdgeSlash(s) {
      TrimNothing(s, IsSlash);
    }
  }

  /** The target of "/mount" is the mount without its outer slashes. */
  lemma TargetOfMount(mount: string)
    requires ValidMount(mount)
    ensures mount != "" && SpaceFree("/" + mount) && OneLine(mount)
    ensures NormalizeMount("/" + mount) == TrimSlashes(mount)
    ensures NormalizeMount("/" + mount) == mount <==> NoEdgeSlash(mount)
  {
    TrimNothing("/" + mount, IsSpace);
    assert ("/" + mount)[1..] == mount;
    TrimSlashesClean(mount);
  }

  /** What parsing makes of a message whose request line has three parts. */
  lemma ParseThreeParts(lines: seq<string>, a: string, b: string, c: string)
    requires lines != [] && forall i :: 0 <= i < |lines| ==> OneLine(lines[i])
    requires lines[0] == a + " " + b + " " + c
    requires a != "" && b != "" && c != "" && SpaceFree(a) && SpaceFree(b) && SpaceFree(c)
    ensures Parse(Message(lines)) ==
            match RequestLine([a, b, c])
            case Ok((verb, target)) => Ok(Request(verb, target, [a, b, c], Headers(lines[1..] + ["", ""])))
            case Err => Err
  {
    LinesOfJoin(lines + [""]);
    FieldsThree(a, b, c);
    assert (lines + [""] + [""])[1..] == lines[1..] + ["", ""];
  }

  // ---------- round trips ----------

  lemma OneLineConcat(a: string, b: string)
    requires OneLine(a) && OneLine(b)
    ensures OneLine(a + b)
  {
  }

  lemma BasicLineOk(username: string, password: string)
    requires IsByteString(username) && IsByteString(password)
    ensures OneLine(BasicLine(username, password))
  {
    EncodeIsPlain(username + ":" + password);
    OneLineConcat("Authorization: Basic ", Encode(username + ":" + password));
  }

  ghost predicate AllOneLine(lines: seq<string>) {
    forall i :: 0 <= i < |lines| ==> OneLine(lines[i]) && lines[i] != ""
  }

  lemma FirstLineOk(before: string, mount: string, after: string)
    requires ValidMount(mount) && OneLine(before) && OneLine(after)
    ensures OneLine(before + mount + after)
  {
    TargetOfMount(mount);
  }

  lemma FixedLinesOk()
    ensures AllOneLine(["Ntrip-Version: Ntrip/2.0", "User-Agent: NTRIP nav-rtlogging-go-lib"])
    ensures AllOneLine(["User-Agent: NTRIP Client"]) && AllOneLine(["Accept: */*"]) && AllOneLine(["Content-Type: gnss/data"])
  {
  }

  lemma Together(a: seq<string>, b: seq<string>)
    requires AllOneLine(a) && AllOneLine(b)
    ensures AllOneLine(a + b)
  {
  }

  lemma GetLinesOk(mount: string, username: string, password: string, v2: bool, host: string)
    requires ValidMount(mount) && IsByteString(username) && IsByteString(password) && OneLine(host)
    ensures AllOneLine(GetLines(mount, username, password, v2, host))
  {
    BasicLineOk(username, password);
    FixedLinesOk();
    var credentials := if username != "" && password != "" then [BasicLine(username, password)] else [];
    if v2 {
      FirstLineOk("GET /", mount, " HTTP/1.1");
      OneLineConcat("Host: ", host);
      var start := ["GET /" + mount + " HTTP/1.1", "Host: " + host];
      var fixed := ["Ntrip-Version: Ntrip/2.0", "User-Agent: NTRIP nav-rtlogging-go-lib"];
      Together(start, fixed);
      Together(start + fixed, credentials);
      Together(start + fixed + credentials, ["Accept: */*"]);
      assert GetLines(mount, username, password, v2, host) == start + fixed + credentials + ["Accept: */*"];
    } else {
      FirstLineOk("GET /", mount, " HTTP/1.0");
      var start := ["GET /" + mount + " HTTP/1.0"];
      Together(start, ["User-Agent: NTRIP Client"]);
      Together(start + ["User-Agent: NTRIP Client"], credentials);
      Together(start + ["User-Agent: NTRIP Client"] + credentials, ["Accept: */*"]);
      assert GetLines(mount, username, password, v2, host)
          == start + ["User-Agent: NTRIP Client"] + credentials + ["Accept: */*"];
    }
  }

  lemma PostLinesOk(mount: string, username: string, password: string, host: string)
    requires ValidMount(mount) && IsByteString(username) && IsByteString(password) && OneLine(host)
    ensures AllOneLine(PostLines(mount, username, password, host))
  {
    BasicLineOk(username, password);
    FixedLinesOk();
    FirstLineOk("POST /", mount, " HTTP/1.1");
    OneLineConcat("Host: ", host);
    var start := ["POST /" + mount + " HTTP/1.1", "Host: " + host];
    var fixed := ["Ntrip-Version: Ntrip/2.0", "User-Agent: NTRIP nav-rtlogging-go-lib"];
    Together(start, fixed);
    Together(start + fixed, [BasicLine(username, password)]);
    Together(start + fixed + [BasicLine(username, password)], ["Content-Type: gnss/data"]);
    assert PostLines(mount, username, password, host)
        == start + fixed + [BasicLine(username, password)] + ["Content-Type: gnss/data"];
  }

  ghost predicate Recovers(msg: string, verb: string, mount: string, username: string, password: string, v2: bool) {
    match Parse(msg)
    case Err => false
    case Ok(r) =>
      && r.verb == verb && r.target == mount && IsV2(r) == v2
      && ParseBasic(Header(r, "authorization")) == Ok((username, password))
  }

  /** What is common to GET and POST: the request line and one Authorization line. */
  lemma ParsedMessage(lines: seq<string>, i: nat, verb: string, mount: string, version: string,
                      username: string, password: string) returns (headers: map<string, string>)
    requires AllOneLine(lines) && ValidMount(mount) && IsByteString(username) && IsByteString(password)
    requires (verb == "GET" || verb == "POST") && version != "" && SpaceFree(version)
    requires 1 <= i < |lines| && lines[i] == BasicLine(username, password)
    requires lines[0] == verb + " " + ("/" + mount) + " " + version
    requires forall j :: i < j < |lines| ==> NotHeader(lines[j], "Authorization")
    ensures Parse(Message(lines)) ==
            if TrimSlashes(mount) == "" && verb == "POST" then Err
            else Ok(Request(verb, TrimSlashes(mount), [verb, "/" + mount, version], headers))
    ensures "authorization" in headers && headers["authorization"] == "Basic " + Encode(username + ":" + password)
  {
    TargetOfMount(mount);
    RequestLineOf(verb, mount, version);
    ParseThreeParts(lines, verb, "/" + mount, version);
    TailHeaders(lines, i, username, password);
    headers := Headers(lines[1..] + ["", ""]);
  }

  lemma {:induction false} Recovered(lines: seq<string>, i: nat, verb: string, mount: string, username: string, password: string, version: string)
    requires AllOneLine(lines) && ValidMount(mount) && IsByteString(username) && IsByteString(password)
    requires (verb == "GET" || verb == "POST") && version != "" && SpaceFree(version)
    requires 1 <= i < |lines| && lines[i] == BasicLine(username, password)
    requires lines[0] == verb + " " + ("/" + mount) + " " + version
    requires forall j :: i < j < |lines| ==> NotHeader(lines[j], "Authorization")
    ensures Recovers(Message(lines), verb, mount, username, password, EqualFold(version, "HTTP/1.1"))
       <==> NoEdgeSlash(mount) && Without(username, ':')
  {
    var headers := ParsedMessage(lines, i, verb, mount, version, username, password);
    TargetOfMount(mount);
    TrimSlashesClean(mount);
    BasicRoundTrip(username, password);
  }

  /** The request line of a GET or POST for a mount. */
  lemma RequestLineOf(verb: string, mount: string, version: string)
    requires ValidMount(mount) && (verb == "GET" || verb == "POST")
    ensures RequestLine([verb, "/" + mount, version]) ==
            if TrimSlashes(mount) == "" && verb == "POST" then Err else Ok((verb, TrimSlashes(mount)))
  {
    TargetOfMount(mount);
    VerbAndVersion();
  }

  lemma {:induction false} TailHeaders(lines: seq<string>, i: nat, username: string, password: string)
    requires IsByteString(username) && IsByteString(password)
    requires 1 <= i < |lines| && lines[i] == BasicLine(username, password)
    requires forall j :: i < j < |lines| ==> NotHeader(lines[j], "Authorization")
    ensures var headers := Headers(lines[1..] + ["", ""]);
      "authorization" in headers && headers["authorization"] == "Basic " + Encode(username + ":" + password)
  {
    var rest := lines[1..] + ["", ""];
    forall j | i - 1 < j < |rest| ensures NotHeader(rest[j], "Authorization") {
      assert j < |lines| - 1 ==> rest[j] == lines[j + 1];
    }
    CredentialsCarried(rest, i - 1, username, password);
  }

  lemma VerbAndVersion()
    ensures Upper("GET") == "GET" && Upper("POST") == "POST" && Upper("SOURCE") == "SOURCE"
    ensures SpaceFree("HTTP/1.0") && SpaceFree("HTTP/1.1")
    ensures EqualFold("HTTP/1.1", "HTTP/1.1") && !EqualFold("HTTP/1.0", "HTTP/1.1")
  {
    assert Lower("HTTP/1.0")[7] == '0' && Lower("HTTP/1.1")[7] == '1';
  }

  lemma GetAuthorization(mount: string, username: string, password: string, v2: bool, host: string) returns (i: nat)
    requires IsByteString(username) && IsByteString(password) && username != "" && password != ""
    ensures var lines := GetLines(mount, username, password, v2, host);
      && 1 <= i < |lines| && lines[i] == BasicLine(username, password)
      && (forall j :: i < j < |lines| ==> lines[j] == "Accept: */*")
  {
    i := if v2 then 4 else 2;
  }

  lemma GetFirst(mount: string, username: string, password: string, v2: bool, host: string)
    requires IsByteString(username) && IsByteString(password)
    ensures GetLines(mount, username, password, v2, host)[0]
         == "GET" + " " + ("/" + mount) + " " + (if v2 then "HTTP/1.1" else "HTTP/1.0")
  {
  }

  /** A built GET with credentials is parsed back to its mount, credentials and protocol
      version exactly when the mount has no slash at an end and the username no colon. */
  lemma GetRoundTrip(mount: string, username: string, password: string, v2: bool, host: string)
    requires ValidMount(mount) && OneLine(host)
    requires IsByteString(username) && IsByteString(password) && username != "" && password != ""
    ensures Recovers(Message(GetLines(mount, username, password, v2, host)), "GET", mount, username, password, v2)
       <==> NoEdgeSlash(mount) && Without(username, ':')
  {
    var lines := GetLines(mount, username, password, v2, host);
    GetLinesOk(mount, username, password, v2, host);
    AcceptIsOther();
    var i := GetAuthorization(mount, username, password, v2, host);
    GetFirst(mount, username, password, v2, host);
    VerbAndVersion();
    Recovered(lines, i, "GET", mount, username, password, if v2 then "HTTP/1.1" else "HTTP/1.0");
  }

  lemma PostAuthorization(mount: string, username: string, password: string, host: string)
    requires IsByteString(username) && IsByteString(password)
    ensures var lines := PostLines(mount, username, password, host);
      && |lines| == 6 && lines[4] == BasicLine(username, password) && lines[5] == "Content-Type: gnss/data"
  {
  }

  lemma PostFirst(mount: string, username: string, password: string, host: string)
    requires IsByteString(username) && IsByteString(password)
    ensures PostLines(mount, username, password, host)[0] == "POST" + " " + ("/" + mount) + " " + "HTTP/1.1"
  {
  }

  /** The same for a built POST, whose credentials may also be empty. */
  lemma PostRoundTrip(mount: string, username: string, password: string, host: string)
    requires ValidMount(mount) && OneLine(host) && IsByteString(username) && IsByteString(password)
    ensures Recovers(Message(PostLines(mount, username, password, host)), "POST", mount, username, password, true)
       <==> NoEdgeSlash(mount) && Without(username, ':')
  {
    var lines := PostLines(mount, username, password, host);
    PostLinesOk(mount, username, password, host);
    ContentTypeIsOther();
    PostAuthorization(mount, username, password, host);
    PostFirst(mount, username, password, host);
    VerbAndVersion();
    Recovered(lines, 4, "POST", mount, username, password, "HTTP/1.1");
  }

  ghost predicate RecoversSource(msg: string, mount: string, password: string) {
    match Parse(msg)
    case Err => false
    case Ok(r) => r.verb == "SOURCE" && r.target == mount && |r.parts| >= 2 && r.parts[1] == password && !IsV2(r)
  }

  /** A built SOURCE is parsed back to its mount and password exactly when the mount has no
      slash at an end and the password is non-empty and free of white space. */
  lemma SourceRoundTrip(mount: string, password: string)
    requires ValidMount(mount)
    ensures RecoversSource(Message(SourceLines(mount, password)), mount, password)
       <==> NoEdgeSlash(mount) && password != "" && SpaceFree(password)
  {
    var msg := Message(SourceLines(mount, password));
    TargetOfMount(mount);
    FieldsAreWords(Lines(msg)[0]);
    if Parse(msg).Ok? && Parse(msg).value.verb == "SOURCE" {
      TrimSlashesClean(TrimSpace(Parse(msg).value.parts[2]));
    }
    if password != "" && SpaceFree(password) {
      SourceParsed(mount, password);
    }
  }

  lemma SourceParsed(mount: string, password: string)
    requires ValidMount(mount) && password != "" && SpaceFree(password)
    requires NormalizeMount("/" + mount) == mount <==> NoEdgeSlash(mount)
    ensures NoEdgeSlash(mount) ==> RecoversSource(Message(SourceLines(mount, password)), mount, password)
  {
    var lines := SourceLines(mount, password);
    TargetOfMount(mount);
    SourceLinesOk(mount, password);
    ParseThreeParts(lines, "SOURCE", password, "/" + mount);
    VerbAndVersion();
    assert Lower("/" + mount)[0] == '/' && Lower("HTTP/1.1")[0] == 'h';
  }

  lemma SourceFirst(mount: string, password: string)
    ensures "SOURCE " + password + " /" + mount == "SOURCE" + " " + password + " " + ("/" + mount)
  {
    assert "SOURCE " == "SOURCE" + " " && " /" + mount == " " + ("/" + mount);
    assert "SOURCE " + password + " /" + mount == "SOURCE " + password + (" /" + mount);
  }

  lemma SourceAgentOk()
    ensures AllOneLine(["Source-Agent: NTRIP NtripServerCMD/1.0"])
  {
  }

  lemma SourceLineOk(mount: string, password: string)
    requires ValidMount(mount) && OneLine(password)
    ensures AllOneLine(["SOURCE " + password + " /" + mount])
  {
    TargetOfMount(mount);
    OneLineConcat("SOURCE ", password);
    OneLineConcat("SOURCE " + password, " /");
    OneLineConcat("SOURCE " + password + " /", mount);
  }

  lemma SourceLinesOk(mount: string, password: string)
    requires ValidMount(mount) && OneLine(password)
    ensures AllOneLine(SourceLines(mount, password))
    ensures SourceLines(mount, password)[0] == "SOURCE" + " " + password + " " + ("/" + mount)
  {
    SourceLineOk(mount, password);
    SourceAgentOk();
    Together(["SOURCE " + password + " /" + mount], ["Source-Agent: NTRIP NtripServerCMD/1.0"]);
    SourceFirst(mount, password);
  }
}
