/** Whom the casters let in, and that the two ends agree on it. */
module Handshake {
  import opened Common
  import opened Text
  import opened Base64
  import opened Request
  import opened RequestFraming
  import opened Responses
  import opened ResponseFraming
  import opened Registry
  import Beans = ChannelBean
  import Sorting
  import SubscriberQueue

  /** The application's OnAuth callback, if there is one, and whether the caster insists on it. */
  datatype Policy = Policy(onAuth: Option<(string, string, string) -> bool>, requireAuth: bool)

  predicate Permits(policy: Policy, mount: string, username: string, password: string, fallback: bool) {
    match policy.onAuth
    case Some(ask) => ask(mount, username, password)
    case None => !policy.requireAuth && fallback
  }

  datatype Answer = Accept(mount: string, v2: bool) | Refuse(reply: Reply) | Table(v2: bool)

  predicate Proper(answer: Answer) {
    answer.Refuse? ==> !answer.reply.Welcome?
  }

  function AnswerText(answer: Answer, date: string, mounts: seq<string>): string {
    match answer
    case Accept(_, v2) => Response(Welcome(v2), date)
    case Refuse(reply) => Response(reply, date)
    case Table(v2) => Sourcetable(v2, mounts)
  }

  // ---------- the source side ----------

  function SourceCredentials(r: Request): Result<(string, string)>
    requires |r.parts| >= 2
  {
    if r.verb == "SOURCE" then Ok(("", r.parts[1])) else ParseBasic(Header(r, "authorization"))
  }

  /** NtripCasterServer.auth, when `taken` are the mounts that already have a source. */
  function SourceAnswer(header: string, policy: Policy, taken: set<string>): (answer: Answer)
    ensures Proper(answer) && !answer.Table?
    ensures answer.Accept? ==> ValidMount(answer.mount) && answer.mount !in taken
  {
    match Parse(header)
    case Err => Refuse(Unauthorized(false))
    case Ok(r) =>
      if r.verb != "SOURCE" && r.verb != "POST" then Refuse(Unauthorized(false))
      else if !ValidMount(r.target) then Refuse(Unauthorized(IsV2(r)))
      else
        match SourceCredentials(r)
        case Err => Refuse(Unauthorized(IsV2(r)))
        case Ok((username, password)) => Judged(r.target, username, password, IsV2(r), policy, taken)
  }

  function Judged(mount: string, username: string, password: string, v2: bool, policy: Policy, taken: set<string>)
    : (answer: Answer)
    ensures Proper(answer) && !answer.Table?
    ensures answer.Accept? ==> answer.mount == mount && mount !in taken
  {
    if Permits(policy, mount, username, password, mount == password) then Placed(mount, v2, taken)
    else Refuse(Unauthorized(v2))
  }

  /** One source per mount. */
  function Placed(mount: string, v2: bool, taken: set<string>): (answer: Answer)
    ensures Proper(answer) && !answer.Table?
    ensures answer.Accept? ==> answer.mount == mount && mount !in taken
  {
    if mount in taken then Refuse(Conflict(v2)) else Accept(mount, v2)
  }

  /** The part of auth before the registry is asked: whether the source is authorised, for
      which mount, and in which version it is answered. */
  method CheckSource(header: string, policy: Policy) returns (ok: bool, mount: string, v2: bool)
    ensures forall taken: set<string> ::
              SourceAnswer(header, policy, taken) ==
              (if !ok then Refuse(Unauthorized(v2)) else if mount in taken then Refuse(Conflict(v2)) else Accept(mount, v2))
    ensures ok <==>
            match Parse(header)
            case Err => false
            case Ok(r) =>
              var credentials := if r.verb == "SOURCE" then Ok(("", r.parts[1]))
                                 else if r.verb == "POST" then ParseBasic(Header(r, "authorization")) else Err;
              && ValidMount(r.target) && credentials.Ok?
              && (match policy.onAuth
                  case Some(ask) => ask(r.target, credentials.value.0, credentials.value.1)
                  case None => !policy.requireAuth && r.target == credentials.value.1)
    ensures ok ==> mount == Parse(header).value.target
    ensures v2 <==> Parse(header).Ok? && Parse(header).value.verb in {"SOURCE", "POST"} && IsV2(Parse(header).value)
  {
    var request := ParseRequest(header);
    if request.Err? || (request.value.verb != "SOURCE" && request.value.verb != "POST") {
      return false, "", false;
    }
    var r := request.value;
    v2 := IsV2(r);
    if !ValidMount(r.target) {
      return false, "", v2;
    }
    var username, password := "", "";
    if r.verb == "SOURCE" {
      password := r.parts[1];
    } else {
      var credentials := ParseBasic(Header(r, "authorization"));
      if credentials.Err? {
        return false, "", v2;
      }
      username, password := credentials.value.0, credentials.value.1;
    }
    return Permits(policy, r.target, username, password, r.target == password), r.target, v2;
  }

  method WriteReply(conn: Beans.Connection, reply: Reply, date: string) returns (written: nat, ok: bool)
    modifies conn`calls, conn`wire
    ensures written <= |Response(reply, date)| && conn.wire == old(conn.wire) + Response(reply, date)[..written]
    ensures ok <==> Wrote(conn, old(conn.calls), conn.calls)
    ensures ok ==> written == |Response(reply, date)|
  {
    written, ok := conn.WriteAll(Response(reply, date));
  }

  /** The rest of auth for an authorised source. The registry gets the bean exactly when the
      mount is free and the welcome was written. */
  method PlaceSource(registry: SafeNtripMap, conn: Beans.Connection, key: string, mount: string, v2: bool, date: string)
    returns (bean: Beans.Bean?, ghost written: nat)
    requires registry.Valid() && key !in registry.data
    modifies registry, conn`calls, conn`wire
    ensures registry.Valid()
    ensures registry.data == if bean == null then old(registry.data) else old(registry.data)[key := bean]
    ensures var text := AnswerText(Placed(mount, v2, Mounts(old(registry.data))), date, []);
      && written <= |text| && conn.wire == old(conn.wire) + text[..written]
      && (bean != null ==> written == |text|)
    ensures bean != null <==> mount !in Mounts(old(registry.data)) && Wrote(conn, old(conn.calls), conn.calls)
    ensures bean != null ==> bean.mount == mount && bean.conn == conn
  {
    var ok;
    bean := new Beans.Bean(mount, conn);
    var won := registry.SetIfMountAbsent(key, bean);
    if !won {
      written, ok := WriteReply(conn, Conflict(v2), date);
      return null, written;
    }
    written, ok := WriteReply(conn, Welcome(v2), date);
    if !ok {
      var removed := registry.Delete(key);
      assert old(registry.data)[key := bean] - {key} == old(registry.data);
      return null, written;
    }
  }

  /** Nothing but a part of the answer goes on the wire, and the registry gets the bean exactly
      when the source is accepted and the welcome was written. */
  method AuthSource(registry: SafeNtripMap, conn: Beans.Connection, header: string, key: string, policy: Policy, date: string)
    returns (bean: Beans.Bean?, ghost written: nat)
    requires registry.Valid() && key !in registry.data
    modifies registry, conn`calls, conn`wire
    ensures registry.Valid()
    ensures registry.data == if bean == null then old(registry.data) else old(registry.data)[key := bean]
    ensures var text := AnswerText(SourceAnswer(header, policy, Mounts(old(registry.data))), date, []);
      && written <= |text| && conn.wire == old(conn.wire) + text[..written]
      && (bean != null ==> written == |text|)
    ensures var answer := SourceAnswer(header, policy, Mounts(old(registry.data)));
      && (bean != null <==> answer.Accept? && Wrote(conn, old(conn.calls), conn.calls))
      && (bean != null ==> bean.mount == answer.mount && bean.conn == conn)
    ensures bean != null ==> registry.data == AfterCall(old(registry.data), Auth(header, policy, key, bean, true))
    ensures ValidMounts(old(registry.data)) ==> ValidMounts(registry.data)
  {
    var ok, mount, v2 := CheckSource(header, policy);
    if ok {
      bean, written := PlaceSource(registry, conn, key, mount, v2, date);
    } else {
      bean := null;
      written, ok := WriteReply(conn, Unauthorized(v2), date);
    }
  }

  /** All calls of Write in this stretch took at least a byte without an error. */
  ghost predicate Wrote(conn: Beans.Connection, from: nat, to: nat)
    reads conn
  {
    forall i :: from <= i < to ==> conn.peer(i).err == SubscriberQueue.NoError && conn.peer(i).n > 0
  }

  // ---------- the sourcetable of a registry filled through auth ----------

  /** What happens to the registry of the source side: a request comes in, with the bean it gets
      if it is accepted, and whether its welcome could be written; a handler leaves; CloseAll. */
  datatype Call =
    | Auth(header: string, policy: Policy, key: string, bean: Beans.Bean, written: bool)
    | Left(key: string)
    | Stopped

  function AfterCall(data: Index, call: Call): Index {
    match call
    case Auth(header, policy, key, bean, written) =>
      var answer := SourceAnswer(header, policy, Mounts(data));
      if answer.Accept? && answer.mount == bean.mount && written then Effect(data, Claim(key, bean)) else data
    case Left(key) => Effect(data, Remove(key))
    case Stopped => Effect(data, Clear)
  }

  function AfterCalls(calls: seq<Call>): Index {
    if calls == [] then map[] else AfterCall(AfterCalls(calls[..|calls| - 1]), calls[|calls| - 1])
  }

  ghost predicate ValidMounts(data: Index) {
    forall m | m in Mounts(data) :: ValidMount(m)
  }

  ghost predicate OneEach(data: Index) {
    forall k, l | k in data && l in data && data[k].mount == data[l].mount :: k == l
  }

  /** After any sequence of calls every mount passes validateMount and has one entry. */
  lemma {:induction false} CallsKeepMounts(calls: seq<Call>)
    ensures ValidMounts(AfterCalls(calls)) && OneEach(AfterCalls(calls))
  {
    if calls != [] {
      CallsKeepMounts(calls[..|calls| - 1]);
      CallKeepsMounts(AfterCalls(calls[..|calls| - 1]), calls[|calls| - 1]);
    }
  }

  lemma CallKeepsMounts(data: Index, call: Call)
    requires ValidMounts(data) && OneEach(data)
    ensures ValidMounts(AfterCall(data, call)) && OneEach(AfterCall(data, call))
  {
    var after := AfterCall(data, call);
    forall m | m in Mounts(after) ensures ValidMount(m) {
      var k :| k in after && after[k].mount == m;
      assert k in data && data[k] == after[k] ==> m in Mounts(data);
    }
  }

  /** Call i was an accepted request that was told so, and files this bean under this key. */
  ghost predicate Files(calls: seq<Call>, i: nat, key: string, bean: Beans.Bean) {
    && i < |calls| && calls[i].Auth? && calls[i].key == key && calls[i].bean == bean && calls[i].written
    && var answer := SourceAnswer(calls[i].header, calls[i].policy, Mounts(AfterCalls(calls[..i])));
    answer.Accept? && answer.mount == bean.mount
  }

  /** Call j takes away what is filed under the key. */
  ghost predicate Evicts(calls: seq<Call>, j: nat, key: string) {
    j < |calls| && (calls[j].Stopped? || calls[j] == Left(key) || (calls[j].Auth? && Files(calls, j, key, calls[j].bean)))
  }

  ghost predicate Held(calls: seq<Call>, key: string, bean: Beans.Bean) {
    exists i :: 0 <= i < |calls| && Files(calls, i, key, bean) && forall j :: i < j < |calls| ==> !Evicts(calls, j, key)
  }

  lemma SameBefore(calls: seq<Call>, last: Call, i: nat, key: string, bean: Beans.Bean)
    requires i < |calls|
    ensures Files(calls + [last], i, key, bean) <==> Files(calls, i, key, bean)
    ensures Evicts(calls + [last], i, key) <==> Evicts(calls, i, key)
  {
    assert (calls + [last])[..i] == calls[..i];
  }

  lemma HeldOn(calls: seq<Call>, last: Call, key: string, bean: Beans.Bean)
    ensures var all := calls + [last];
      Held(all, key, bean) <==>
      Files(all, |calls|, key, bean) || (Held(calls, key, bean) && !Evicts(all, |calls|, key))
  {
    var all := calls + [last];
    forall i | 0 <= i < |calls|
      ensures Files(all, i, key, bean) <==> Files(calls, i, key, bean)
      ensures Evicts(all, i, key) <==> Evicts(calls, i, key)
    {
      SameBefore(calls, last, i, key, bean);
    }
  }

  /** After any sequence of calls the registry holds a bean under a key exactly when a request was
      accepted with them, its welcome was written, and since then its handler has not left, nor was
      there a CloseAll, nor was another source accepted under the same key. */
  lemma {:induction false} EntryExactly(calls: seq<Call>, key: string, bean: Beans.Bean)
    ensures key in AfterCalls(calls) && AfterCalls(calls)[key] == bean <==> Held(calls, key, bean)
  {
    if calls != [] {
      var before, last := calls[..|calls| - 1], calls[|calls| - 1];
      assert calls == before + [last];
      EntryExactly(before, key, bean);
      HeldOn(before, last, key, bean);
      assert calls[..|before|] == before;
    }
  }

  /** Whatever the source side has been through, its table lists exactly its mounts, in order,
      each once, none skipped. */
  method ServeSourcetable(registry: SafeNtripMap, v2: bool, ghost calls: seq<Call>)
    returns (response: string, mounts: seq<string>)
    requires registry.Valid() && registry.data == AfterCalls(calls)
    ensures response == Sourcetable(v2, mounts)
    ensures ReadRows(Lines(Body(mounts))) == mounts && Sorting.Ascending(mounts)
    ensures forall m :: m in mounts <==> m in Mounts(registry.data)
  {
    mounts := registry.GetMountList();
    CallsKeepMounts(calls);
    forall i | 0 <= i < |mounts| ensures Plain(mounts[i]) {
      assert ValidMount(mounts[i]);
      TargetOfMount(mounts[i]);
    }
    TableReadsBack(mounts);
    response := BuildSourcetable(v2, mounts);
  }

  // ---------- the subscriber side ----------

  datatype Settings = Settings(requireActiveSource: bool, requireSourcetableAuth: bool)

  /** authorize */
  predicate Authorized(r: Request, policy: Policy) {
    match ParseBasic(Header(r, "authorization"))
    case Err => false
    case Ok((username, password)) =>
      && !(r.target == "" && username == "" && password == "")
      && Permits(policy, r.target, username, password, r.target != "" && r.target == username && username == password)
  }

  /** NtripCasterClient.auth, when `sources` are the mounts of the source caster's registry;
      none if there is no source caster. */
  function SubscriberAnswer(header: string, policy: Policy, settings: Settings, sources: set<string>): (answer: Answer)
    ensures Proper(answer)
  {
    match Parse(header)
    case Err => Refuse(Unauthorized(false))
    case Ok(r) => if r.verb != "GET" then Refuse(Unauthorized(false)) else SubscriberJudged(r, policy, settings, sources)
  }

  function SubscriberJudged(r: Request, policy: Policy, settings: Settings, sources: set<string>): (answer: Answer)
    ensures Proper(answer)
  {
    if r.target == "" then
      if settings.requireSourcetableAuth && !Authorized(r, policy) then Refuse(Unauthorized(IsV2(r))) else Table(IsV2(r))
    else if !ValidMount(r.target) || !Authorized(r, policy) then Refuse(Unauthorized(IsV2(r)))
    else Served(r.target, IsV2(r), settings, sources)
  }

  /** What an authorised subscriber gets. */
  function Served(mount: string, v2: bool, settings: Settings, sources: set<string>): (answer: Answer)
    ensures Proper(answer)
  {
    if mount == "" then Table(v2)
    else if settings.requireActiveSource && mount !in sources then Refuse(NotFound(v2))
    else Accept(mount, v2)
  }

  function SourcesOf(registry: SafeNtripMap?): set<string>
    reads registry
  {
    if registry == null then {} else Mounts(registry.data)
  }

  /** The part of auth before the sources are asked. */
  method CheckSubscriber(header: string, policy: Policy, settings: Settings) returns (ok: bool, mount: string, v2: bool)
    ensures forall sources: set<string> ::
              SubscriberAnswer(header, policy, settings, sources) ==
              (if !ok then Refuse(Unauthorized(v2))
               else if mount == "" then Table(v2)
               else if settings.requireActiveSource && mount !in sources then Refuse(NotFound(v2))
               else Accept(mount, v2))
    ensures ok <==>
            match Parse(header)
            case Err => false
            case Ok(r) =>
              var credentials := ParseBasic(Header(r, "authorization"));
              && r.verb == "GET"
              && if r.target == "" then
                   settings.requireSourcetableAuth ==>
                     credentials.Ok? && credentials.value != ("", "")
                     && (match policy.onAuth
                         case Some(ask) => ask("", credentials.value.0, credentials.value.1)
                         case None => false)
                 else
                   ValidMount(r.target) && credentials.Ok?
                   && (match policy.onAuth
                       case Some(ask) => ask(r.target, credentials.value.0, credentials.value.1)
                       case None => !policy.requireAuth && r.target == credentials.value.0 == credentials.value.1)
    ensures ok ==> mount == Parse(header).value.target
    ensures v2 <==> Parse(header).Ok? && Parse(header).value.verb == "GET" && IsV2(Parse(header).value)
  {
    var request := ParseRequest(header);
    if request.Err? || request.value.verb != "GET" {
      return false, "", false;
    }
    var r := request.value;
    v2 := IsV2(r);
    if r.target == "" {
      if settings.requireSourcetableAuth && !Authorized(r, policy) {
        return false, "", v2;
      }
      return true, "", v2;
    }
    if !ValidMount(r.target) {
      return false, "", v2;
    }
    return Authorized(r, policy), r.target, v2;
  }

  /** The sourcetable for the sources of a caster that may not be there. */
  method WriteTable(conn: Beans.Connection, server: SafeNtripMap?, v2: bool)
    returns (ghost mounts: seq<string>, ghost written: nat)
    requires server != null ==> server.Valid()
    modifies conn`calls, conn`wire
    ensures forall m :: m in mounts <==> m in SourcesOf(server)
    ensures written <= |Sourcetable(v2, mounts)| && conn.wire == old(conn.wire) + Sourcetable(v2, mounts)[..written]
  {
    var list := [];
    if server != null {
      list := server.GetMountList();
    }
    mounts := list;
    var table := BuildSourcetable(v2, list);
    var ok;
    written, ok := conn.WriteAll(table);
  }

  method AuthSubscriber(conn: Beans.Connection, header: string, policy: Policy, settings: Settings,
                        server: SafeNtripMap?, date: string)
    returns (bean: Beans.Bean?, ghost mounts: seq<string>, ghost written: nat)
    requires server != null ==> server.Valid()
    modifies conn`calls, conn`wire
    ensures var answer := SubscriberAnswer(header, policy, settings, SourcesOf(server));
      var text := AnswerText(answer, date, mounts);
      && (answer.Table? ==> forall m :: m in mounts <==> m in SourcesOf(server))
      && written <= |text| && conn.wire == old(conn.wire) + text[..written]
      && (bean != null <==> answer.Accept? && Wrote(conn, old(conn.calls), conn.calls))
      && (bean != null ==> bean.mount == answer.mount && bean.conn == conn && written == |text|)
  {
    var ok, mount, v2 := CheckSubscriber(header, policy, settings);
    bean, mounts := null, [];
    if !ok {
      written, ok := WriteReply(conn, Unauthorized(v2), date);
      return;
    }
    if mount == "" {
      mounts, written := WriteTable(conn, server, v2);
      return;
    }
    if settings.requireActiveSource {
      var has := false;
      if server != null {
        has := server.HasMount(mount);
      }
      assert has <==> mount in SourcesOf(server);
      if !has {
        written, ok := WriteReply(conn, NotFound(v2), date);
        return;
      }
    }
    written, ok := WriteReply(conn, Welcome(v2), date);
    if ok {
      bean := new Beans.Bean(mount, conn);
    }
  }

  // ---------- what reaches the caster ----------

  /** The answer once enough was read: the header is too large or there is one. */
  function Answered(up: seq<string>, answer: string -> Answer): Option<Answer> {
    match FeedAll(up)
    case Collecting(_) => None
    case TooLarge(_) => Some(Refuse(HeaderTooLarge))
    case Streaming(header, _) => Some(answer(header))
  }

  /** Some read ended past the limit and before the message was complete. */
  predicate Overflows(up: seq<string>, lines: seq<string>) {
    PausedIn(up, MAX_HEADER, |Message(lines)|)
  }

  /** A built message and whatever follows it, in any division, is answered as the message, but
      with 431 if it is longer than the limit and a read ended in between. */
  lemma AnsweredMessage(up: seq<string>, lines: seq<string>, more: string, answer: string -> Answer)
    requires lines != [] && AllOneLine(lines) && Join(up) == Message(lines) + more
    ensures Answered(up, answer) == Some(if Overflows(up, lines) then Refuse(HeaderTooLarge) else answer(Message(lines)))
    ensures |Message(lines)| <= MAX_HEADER ==> !Overflows(up, lines)
  {
    MessageEnds(lines);
    AnyLength(up, Message(lines), more);
    if |Message(lines)| <= MAX_HEADER {
      NeverPaused(up, MAX_HEADER, |Message(lines)|);
    }
  }

  /** What the caster has written when the answer is out. */
  function Sent(answer: Option<Answer>, date: string, mounts: seq<string>): string {
    if answer.None? then "" else AnswerText(answer.value, date, mounts)
  }

  // ---------- agreement on the source side ----------

  /** Whatever the source sends and however both directions are divided into reads: the
      source never takes a start of the answer for the wrong verdict, and once it has read
      all of it, it is connected exactly when the caster accepted it and refused exactly when
      the caster refused it. */
  lemma {:induction false} SourceAgreement(up: seq<string>, down: seq<string>, policy: Policy, taken: set<string>, date: string)
    requires IsDate(date)
    requires Join(down) <= Sent(Answered(up, h => SourceAnswer(h, policy, taken)), date, [])
    ensures var answer := Answered(up, h => SourceAnswer(h, policy, taken));
      && (ListenAll(down, []).Connected? ==> answer.Some? && answer.value.Accept?)
      && (ListenAll(down, []).Refused? ==> answer.Some? && answer.value.Refuse?)
      && (Join(down) == Sent(answer, date, []) ==>
            && (ListenAll(down, []).Connected? <==> answer.Some? && answer.value.Accept?)
            && (ListenAll(down, []).Refused? <==> answer.Some? && answer.value.Refuse?))
  {
    var answer := Answered(up, h => SourceAnswer(h, policy, taken));
    match answer {
      case None => SilenceWaits(down, date, []);
      case Some(Accept(_, v2)) => WelcomeConnects(down, v2, date, []);
      case Some(Refuse(reply)) => RefusalRefuses(down, reply, date, []);
      case _ =>
    }
  }

  lemma SilenceWaits(down: seq<string>, date: string, phrases: seq<string>)
    requires IsDate(date) && ClientPhrases(phrases) && Join(down) == ""
    ensures ListenAll(down, phrases).Waiting?
  {
    ReplyIsProper(Welcome(true), date);
    WelcomeConnects(down, true, date, phrases);
  }

  // ---------- whom the casters accept ----------

  lemma TrimmedChars(s: string)
    ensures forall c :: c in TrimSlashes(s) ==> c in s
  {
    TrimLeftChars(s, IsSlash);
    TrimRightClean(TrimLeft(s, IsSlash), IsSlash);
  }

  lemma {:induction false} TrimLeftChars(s: string, drop: char -> bool)
    ensures forall c :: c in TrimLeft(s, drop) ==> c in s
  {
    if s != "" && drop(s[0]) {
      TrimLeftChars(s[1..], drop);
    }
  }

  /** What is left of a valid mount without its outer slashes is valid or empty. */
  lemma TrimmedIsValid(mount: string)
    requires ValidMount(mount)
    ensures ValidMount(TrimSlashes(mount)) <==> TrimSlashes(mount) != ""
  {
    var target := TrimSlashes(mount);
    TrimmedChars(mount);
    forall i | 0 <= i < |target| ensures target[i] != ';' && !IsSpace(target[i]) && !IsControl(target[i]) {
      assert target[i] in target;
      assert target[i] in mount;
    }
    TrimNothing(target, IsSpace);
  }

  lemma {:induction false} PostParsed(mount: string, username: string, password: string, host: string) returns (headers: map<string, string>)
    requires ValidMount(mount) && OneLine(host) && IsByteString(username) && IsByteString(password)
    ensures Parse(Message(PostLines(mount, username, password, host))) ==
            if TrimSlashes(mount) == "" then Err
            else Ok(Request("POST", TrimSlashes(mount), ["POST", "/" + mount, "HTTP/1.1"], headers))
    ensures "authorization" in headers && headers["authorization"] == "Basic " + Encode(username + ":" + password)
  {
    PostLinesOk(mount, username, password, host);
    ContentTypeIsOther();
    PostAuthorization(mount, username, password, host);
    PostFirst(mount, username, password, host);
    VerbAndVersion();
    headers := ParsedMessage(PostLines(mount, username, password, host), 4, "POST", mount, "HTTP/1.1", username, password);
  }

  /** The caster's answer to a source: for a mount that is nothing but slashes the request is
      malformed; any other is judged with its outer slashes removed. */
  function SourceVerdict(mount: string, username: string, password: string, v2: bool, policy: Policy, taken: set<string>)
    : Answer
  {
    if TrimSlashes(mount) == "" then Refuse(Unauthorized(false))
    else Judged(TrimSlashes(mount), username, password, v2, policy, taken)
  }

  lemma PostCase(header: string, r: Request, username: string, password: string, policy: Policy, taken: set<string>)
    requires Parse(header) == Ok(r) && r.verb == "POST" && ParseBasic(Header(r, "authorization")) == Ok((username, password))
    ensures SourceAnswer(header, policy, taken) ==
            if ValidMount(r.target) then Judged(r.target, username, password, IsV2(r), policy, taken)
            else Refuse(Unauthorized(IsV2(r)))
  {
    assert r.verb[0] == 'P';
  }

  lemma PostAnswer(mount: string, username: string, password: string, host: string, policy: Policy, taken: set<string>)
    requires ValidMount(mount) && OneLine(host) && IsByteString(username) && IsByteString(password)
    ensures var (user, pass) := Credentials(username, password);
      SourceAnswer(Message(PostLines(mount, username, password, host)), policy, taken)
      == SourceVerdict(mount, user, pass, true, policy, taken)
  {
    var headers := PostParsed(mount, username, password, host);
    if TrimSlashes(mount) != "" {
      var r := Request("POST", TrimSlashes(mount), ["POST", "/" + mount, "HTTP/1.1"], headers);
      var (user, pass) := Credentials(username, password);
      TrimmedIsValid(mount);
      CredentialsExactly(username, password);
      PostCase(Message(PostLines(mount, username, password, host)), r, user, pass, policy, taken);
    }
  }

  /** A source that sends POST is connected exactly when its request did not overflow, its mount
      is more than slashes, the policy permits the credentials that arrive, and the mount is
      free. The credentials are its own exactly when the username has no colon. */
  lemma {:induction false} PostHandshake(mount: string, username: string, password: string, host: string, more: string,
                                         up: seq<string>, down: seq<string>, policy: Policy, taken: set<string>, date: string)
    requires ValidMount(mount) && OneLine(host) && IsByteString(username) && IsByteString(password)
    requires Join(up) == Message(PostLines(mount, username, password, host)) + more
    requires IsDate(date) && Join(down) == Sent(Answered(up, h => SourceAnswer(h, policy, taken)), date, [])
    ensures var target := TrimSlashes(mount);
      var (user, pass) := Credentials(username, password);
      ListenAll(down, []).Connected? <==>
      && !Overflows(up, PostLines(mount, username, password, host))
      && target != "" && target !in taken
      && (match policy.onAuth
          case Some(ask) => ask(target, user, pass)
          case None => !policy.requireAuth && target == pass)
    ensures !ListenAll(down, []).Connected? ==> ListenAll(down, []).Refused?
    ensures Credentials(username, password) == (username, password) <==> Without(username, ':')
  {
    PostLinesOk(mount, username, password, host);
    AnsweredMessage(up, PostLines(mount, username, password, host), more, h => SourceAnswer(h, policy, taken));
    PostAnswer(mount, username, password, host, policy, taken);
    CredentialsExactly(username, password);
    SourceAgreement(up, down, policy, taken, date);
  }

  // ---------- the legacy SOURCE request ----------

  /** The fields after SOURCE on the first line: the caster takes the first for the password and
      the second for the mount. A password with LF ends the line. */
  function SourceFields(mount: string, password: string): seq<string> {
    var (start, _, found) := Cut(password, '\n');
    Fields(start) + if found then [] else ["/" + mount]
  }

  /** The caster's answer to a SOURCE request. */
  function SourceFieldsVerdict(fields: seq<string>, policy: Policy, taken: set<string>): Answer {
    if |fields| < 2 || NormalizeMount(fields[1]) == "" then Refuse(Unauthorized(false))
    else
      var target, v2 := NormalizeMount(fields[1]), EqualFold(fields[1], "HTTP/1.1");
      if ValidMount(target) then Judged(target, "", fields[0], v2, policy, taken) else Refuse(Unauthorized(v2))
  }

  lemma OneField(word: string)
    requires word != "" && SpaceFree(word)
    ensures Fields(word) == [word]
  {
    FieldsStep(word, "");
    assert word + "" == word;
  }

  lemma FieldsAfter(a: string, b: string)
    requires a != "" && SpaceFree(a)
    ensures Fields(a + " " + b) == [a] + Fields(b)
  {
    OneField(a);
    FieldsConcat(a, ' ', b);
    assert a + " " + b == a + [' '] + b;
  }

  lemma FieldsBefore(a: string, b: string)
    requires b != "" && SpaceFree(b)
    ensures Fields(a + " " + b) == Fields(a) + [b]
  {
    OneField(b);
    FieldsConcat(a, ' ', b);
    assert a + " " + b == a + [' '] + b;
  }

  lemma TrailingCr(s: string)
    ensures Fields(s + "\r") == Fields(s)
  {
    FieldsConcat(s, '\r', "");
    assert s + ['\r'] + "" == s + "\r";
  }

  /** The fields of the first line of a text. */
  lemma {:induction false} FirstLineFields(s: string)
    ensures Fields(Lines(s)[0]) == Fields(Cut(s, '\n').0)
  {
    FirstOfLines(s);
    TrailingCr(Lines(s)[0]);
  }

  lemma SourceWord()
    ensures "SOURCE" != "" && SpaceFree("SOURCE") && Without("SOURCE ", '\n')
  {
  }

  lemma SourceStart(password: string, mount: string, rest: string)
    ensures "SOURCE " + password + " /" + mount + "\r\n" + rest == "SOURCE" + " " + (password + " " + ("/" + mount) + "\r\n" + rest)
  {
    SourceFirst(mount, password);
  }

  /** What comes before the first LF of a SOURCE request. */
  lemma SourceFirstLine(mount: string, password: string, rest: string)
    requires ValidMount(mount)
    ensures var msg := "SOURCE " + password + " /" + mount + "\r\n" + rest;
      Cut(msg, '\n').2 && Fields(Cut(msg, '\n').0) == ["SOURCE"] + SourceFields(mount, password)
  {
    TargetOfMount(mount);
    SourceWord();
    SourceStart(password, mount, rest);
    var msg := "SOURCE " + password + " /" + mount + "\r\n" + rest;
    if Cut(password, '\n').2 {
      PasswordWithLf(mount, password, rest, msg);
    } else {
      PasswordOnLine(mount, password, rest, msg);
    }
  }

  lemma PasswordWithLf(mount: string, password: string, rest: string, msg: string)
    requires msg == "SOURCE" + " " + (password + " " + ("/" + mount) + "\r\n" + rest) && Cut(password, '\n').2
    requires "SOURCE" != "" && SpaceFree("SOURCE") && Without("SOURCE ", '\n')
    ensures Cut(msg, '\n').2 && Fields(Cut(msg, '\n').0) == ["SOURCE"] + Fields(Cut(password, '\n').0)
  {
    var (start, after, _) := Cut(password, '\n');
    CutParts(password, '\n');
    var line := "SOURCE" + " " + start;
    var tail := after + " " + ("/" + mount) + "\r\n" + rest;
    assert password == start + ['\n'] + after;
    assert msg == line + ['\n'] + tail;
    LineWithout("SOURCE" + " ", start, '\n');
    CutAt(line, '\n', tail);
    FieldsAfter("SOURCE", start);
  }

  lemma LineWithout(a: string, b: string, c: char)
    requires Without(a, c) && Without(b, c)
    ensures Without(a + b, c)
  {
  }

  lemma PasswordOnLine(mount: string, password: string, rest: string, msg: string)
    requires msg == "SOURCE" + " " + (password + " " + ("/" + mount) + "\r\n" + rest) && !Cut(password, '\n').2
    requires "SOURCE" != "" && SpaceFree("SOURCE") && Without("SOURCE ", '\n') && SpaceFree("/" + mount)
    ensures Cut(msg, '\n').2 && Fields(Cut(msg, '\n').0) == ["SOURCE"] + (Fields(password) + ["/" + mount])
  {
    CutNothing(password, '\n');
    var inner := password + " " + ("/" + mount);
    var line := "SOURCE" + " " + inner;
    assert msg == line + "\r" + ['\n'] + rest;
    LineWithout(password, " " + ("/" + mount), '\n');
    assert password + (" " + ("/" + mount)) == inner;
    LineWithout("SOURCE" + " ", inner, '\n');
    LineWithout(line, "\r", '\n');
    CutAt(line + "\r", '\n', rest);
    TrailingCr(line);
    FieldsAfter("SOURCE", inner);
    FieldsBefore(password, "/" + mount);
  }

  lemma SourceRequestLine(fields: seq<string>)
    ensures RequestLine(["SOURCE"] + fields) ==
            if |fields| < 2 || NormalizeMount(fields[1]) == "" then Err else Ok(("SOURCE", NormalizeMount(fields[1])))
  {
    VerbAndVersion();
    assert (["SOURCE"] + fields)[0] == "SOURCE";
  }

  lemma SourceCase(header: string, r: Request, fields: seq<string>, policy: Policy, taken: set<string>)
    requires Parse(header) == Ok(r) && r.verb == "SOURCE" && |fields| >= 2 && r.parts == ["SOURCE"] + fields
    ensures SourceAnswer(header, policy, taken) ==
            if ValidMount(r.target) then Judged(r.target, "", fields[0], EqualFold(fields[1], "HTTP/1.1"), policy, taken)
            else Refuse(Unauthorized(EqualFold(fields[1], "HTTP/1.1")))
  {
  }

  /** The answer depends on the first line alone. */
  lemma {:induction false} FieldsAnswer(header: string, fields: seq<string>, policy: Policy, taken: set<string>)
    requires Fields(Cut(header, '\n').0) == ["SOURCE"] + fields
    ensures SourceAnswer(header, policy, taken) == SourceFieldsVerdict(fields, policy, taken)
  {
    FirstLineFields(header);
    SourceRequestLine(fields);
    if |fields| >= 2 && NormalizeMount(fields[1]) != "" {
      var r := Request("SOURCE", NormalizeMount(fields[1]), ["SOURCE"] + fields, Headers(Lines(header)[1..]));
      SourceCase(header, r, fields, policy, taken);
    }
  }

  lemma SourceMessage(mount: string, password: string) returns (rest: string)
    ensures Message(SourceLines(mount, password)) == "SOURCE " + password + " /" + mount + "\r\n" + rest
    ensures |rest| >= 4 && rest[|rest| - 4..] == BLANK
  {
    var agent := "Source-Agent: NTRIP NtripServerCMD/1.0";
    rest := agent + "\r\n\r\n";
    var lines := SourceLines(mount, password) + [""];
    assert lines == ["SOURCE " + password + " /" + mount, agent, ""];
    assert lines[1..][1..][1..] == [];
    assert JoinLines(lines[1..][1..]) == "\r\n";
    assert JoinLines(lines[1..]) == agent + "\r\n" + "\r\n";
  }

  /** However a SOURCE request is read, its header is found unless it is given up as too large,
      and the header has its first line. */
  lemma {:induction false} SourceFramed(up: seq<string>, msg: string, more: string)
    requires Join(up) == msg + more && |msg| >= 4 && msg[|msg| - 4..] == BLANK && Cut(msg, '\n').2
    ensures !FeedAll(up).Collecting?
    ensures FeedAll(up).Streaming? ==> Cut(FeedAll(up).header, '\n').0 == Cut(msg, '\n').0
  {
    NothingLost(up);
    assert (msg + more)[|msg| - 4..|msg|] == BLANK;
    assert At(Join(up), |msg| - 4, BLANK);
    if FeedAll(up).Streaming? {
      var header := FeedAll(up).header;
      HasLf(header);
      CutOfStart(header, Join(up), '\n');
      CutOfStart(msg, Join(up), '\n');
    }
  }

  lemma SourceAnswered(mount: string, password: string, more: string, up: seq<string>, policy: Policy, taken: set<string>)
    requires ValidMount(mount) && Join(up) == Message(SourceLines(mount, password)) + more
    ensures Answered(up, h => SourceAnswer(h, policy, taken)) ==
            Some(if FeedAll(up).TooLarge? then Refuse(HeaderTooLarge)
                 else SourceFieldsVerdict(SourceFields(mount, password), policy, taken))
  {
    var rest := SourceMessage(mount, password);
    var msg := Message(SourceLines(mount, password));
    SourceFirstLine(mount, password, rest);
    assert msg[|msg| - 4..] == rest[|rest| - 4..];
    SourceFramed(up, msg, more);
    if FeedAll(up).Streaming? {
      FieldsAnswer(FeedAll(up).header, SourceFields(mount, password), policy, taken);
    }
  }

  lemma LastOff(words: seq<string>, word: string, last: string)
    ensures words + [last] == [word, last] <==> words == [word]
  {
    assert (words + [last])[..|words|] == words;
    assert [word, last][..1] == [word];
  }

  lemma FirstIsWord(words: seq<string>, word: string, last: string)
    requires forall i :: 0 <= i < |words| ==> SpaceFree(words[i])
    ensures words == [word, last] ==> SpaceFree(word)
  {
    assert words == [word, last] ==> words[0] == word;
  }

  /** The fields are the password and the mount exactly when the password is one word. */
  lemma OneWordPassword(mount: string, password: string)
    ensures SourceFields(mount, password) == [password, "/" + mount] <==> password != "" && SpaceFree(password)
  {
    var start := Cut(password, '\n').0;
    FieldsAreWords(start);
    CutParts(password, '\n');
    if Cut(password, '\n').2 {
      FirstIsWord(Fields(start), password, "/" + mount);
      assert password[|start|] == '\n';
      assert SourceFields(mount, password) == Fields(start);
    } else {
      CutNothing(password, '\n');
      LastOff(Fields(password), password, "/" + mount);
      assert Fields(password) == [password] ==> Fields(password)[0] == password;
      if password != "" && SpaceFree(password) {
        OneField(password);
      }
    }
  }

  /** A source that sends SOURCE, with any password, is connected exactly when its request was
      not given up as too large, the second field is a valid mount, the policy permits the first
      for it, and the mount is free. The fields are its password and mount exactly when the
      password is one word, and a one-line password is too large exactly by an overflow. */
  lemma {:induction false} SourceHandshake(mount: string, password: string, more: string,
                                           up: seq<string>, down: seq<string>, policy: Policy, taken: set<string>, date: string)
    requires ValidMount(mount) && Join(up) == Message(SourceLines(mount, password)) + more
    requires IsDate(date) && Join(down) == Sent(Answered(up, h => SourceAnswer(h, policy, taken)), date, [])
    ensures var fields := SourceFields(mount, password);
      ListenAll(down, []).Connected? <==>
      && !FeedAll(up).TooLarge? && |fields| >= 2
      && var target := NormalizeMount(fields[1]);
      && ValidMount(target) && target !in taken
      && (match policy.onAuth
          case Some(ask) => ask(target, "", fields[0])
          case None => !policy.requireAuth && target == fields[0])
    ensures !ListenAll(down, []).Connected? ==> ListenAll(down, []).Refused?
    ensures SourceFields(mount, password) == [password, "/" + mount] <==> password != "" && SpaceFree(password)
    ensures OneLine(password) ==> (FeedAll(up).TooLarge? <==> Overflows(up, SourceLines(mount, password)))
  {
    SourceAnswered(mount, password, more, up, policy, taken);
    SourceAgreement(up, down, policy, taken, date);
    OneWordPassword(mount, password);
    if OneLine(password) {
      SourceLinesOk(mount, password);
      MessageEnds(SourceLines(mount, password));
      AnyLength(up, Message(SourceLines(mount, password)), more);
    }
  }

  // ---------- agreement on the subscriber side ----------

  /** The header of a sourcetable is a proper header; the length of a body is a Go int, which
      has at most 19 digits. */
  lemma TableHeaderIsProper(v2: bool, length: nat)
    requires |Decimal(length)| <= 19
    ensures ProperHeader(Message(TableLines(v2, length)))
  {
    var lines := TableLines(v2, length);
    TableLinesOk(v2, length);
    TableLinesShort(v2, length);
    JoinLinesLength(lines + [""], 40);
    MessageIsProper(lines);
  }

  lemma TableLinesShort(v2: bool, length: nat)
    requires |Decimal(length)| <= 19
    ensures |TableLines(v2, length)| <= 6
    ensures forall i :: 0 <= i < |TableLines(v2, length)| ==> |TableLines(v2, length)[i]| <= 40
  {
    TableLinesParts(v2, length);
  }

  lemma TableFirstLine(v2: bool, length: nat)
    ensures FirstLine(Message(TableLines(v2, length))) == if v2 then "HTTP/1.1 200 OK" else "SOURCETABLE 200 OK"
    ensures Message(TableLines(v2, length)) != "" && Message(TableLines(v2, length))[0] != 'I'
  {
    var lines := TableLines(v2, length) + [""];
    FirstLineOfMessage(if v2 then "HTTP/1.1 200 OK" else "SOURCETABLE 200 OK", JoinLines(lines[1..]));
  }

  /** A subscriber takes the v2 sourcetable for success, and the v1 one not. */
  lemma TableIsSuccess(v2: bool, length: nat)
    ensures IsSuccess(Message(TableLines(v2, length))) <==> v2
  {
    TableFirstLine(v2, length);
    if v2 {
      StatusLineIsWelcome();
      OnlyWelcomeIsSuccess(Welcome(true));
    } else {
      assert Upper("SOURCETABLE 200 OK")[0] == 'S';
    }
  }

  lemma StatusLineIsWelcome()
    ensures StatusLine(Welcome(true)) == "HTTP/1.1 200 OK"
  {
  }

  /** The sourcetable, divided in any way: v1 is refused, and v2 is taken for a stream that
      starts with the table, unless what was buffered when its header was complete contains a
      phrase. */
  lemma TableVerdict(down: seq<string>, v2: bool, mounts: seq<string>)
    requires |Decimal(|Body(mounts)|)| <= 19 && Join(down) == Sourcetable(v2, mounts)
    ensures var header := Message(TableLines(v2, |Body(mounts)|));
      ListenAll(down, CLIENT_PHRASES) ==
      if v2 && NoPhrase(Covering(down, |header|), CLIENT_PHRASES) then Connected(Body(mounts)) else Refused
  {
    var header := Message(TableLines(v2, |Body(mounts)|));
    TableHeaderIsProper(v2, |Body(mounts)|);
    TableFirstLine(v2, |Body(mounts)|);
    TableIsSuccess(v2, |Body(mounts)|);
    PhraseFreeHasNone("", CLIENT_PHRASES);
    SplitVerdict(down, header, Body(mounts), CLIENT_PHRASES);
    assert (header + Body(mounts))[|header|..] == Body(mounts);
  }

  /** Nothing the subscriber had buffered when the header of the answer was complete contains
      one of its three phrases. */
  ghost predicate Clean(down: seq<string>, header: string) {
    NoPhrase(Covering(down, |header|), CLIENT_PHRASES)
  }

  /** What the subscriber makes of an answer and the payload that follows a welcome. */
  ghost predicate Understood(c: Client, answer: Answer, down: seq<string>, date: string, mounts: seq<string>, payload: string) {
    match answer
    case Accept(_, v2) =>
      c == if !v2 && Boundary(down, EARLY) then Connected(IcyRest(date) + payload)
           else if Clean(down, Response(Welcome(v2), date)) then Connected(payload) else Refused
    case Refuse(_) => c == Refused
    case Table(v2) =>
      c == if v2 && Clean(down, Message(TableLines(v2, |Body(mounts)|))) then Connected(Body(mounts)) else Refused
  }

  lemma SubscriberUnderstands(answer: Answer, down: seq<string>, date: string, mounts: seq<string>, payload: string)
    requires Proper(answer) && IsDate(date) && |Decimal(|Body(mounts)|)| <= 19
    requires answer.Accept? || payload == ""
    requires Join(down) == AnswerText(answer, date, mounts) + payload
    ensures Understood(ListenAll(down, CLIENT_PHRASES), answer, down, date, mounts, payload)
  {
    match answer {
      case Accept(_, v2) =>
        if v2 {
          V2Exactly(down, date, payload, CLIENT_PHRASES);
        } else {
          IcyExactly(down, date, payload, CLIENT_PHRASES);
        }
      case Refuse(reply) => RefusalRefuses(down, reply, date, CLIENT_PHRASES);
      case Table(v2) => TableVerdict(down, v2, mounts);
    }
  }

  // ---------- the GET request ----------

  /** No line sets the header. */
  lemma {:induction false} NoHeader(lines: seq<string>, name: string)
    requires AllOthers(lines, name)
    ensures Lower(name) !in Headers(lines)
  {
    if lines != [] {
      NoHeader(lines[..|lines| - 1], name);
    }
  }

  lemma HostIsOther(host: string)
    ensures NotHeader("Host: " + host, "Authorization")
  {
    assert "Host: " + host == "Host" + [':'] + (" " + host);
    OtherHeader("Host", " " + host, "Authorization");
  }

  lemma VersionIsOther()
    ensures NotHeader("Ntrip-Version: Ntrip/2.0", "Authorization")
  {
    assert "Ntrip-Version: Ntrip/2.0" == "Ntrip-Version" + [':'] + " Ntrip/2.0";
    CutAt("Ntrip-Version", ':', " Ntrip/2.0");
    TrimNothing("Ntrip-Version", IsSpace);
    assert Lower("Ntrip-Version")[0] == 'n' && Lower("Authorization")[0] == 'a';
  }

  lemma AgentIsOther(rest: string)
    ensures NotHeader("User-Agent: " + rest, "Authorization")
  {
    assert "User-Agent: " + rest == "User-Agent" + [':'] + (" " + rest);
    OtherHeader("User-Agent", " " + rest, "Authorization");
  }

  lemma AgentLines()
    ensures "User-Agent: NTRIP Client" == "User-Agent: " + "NTRIP Client"
    ensures "User-Agent: NTRIP nav-rtlogging-go-lib" == "User-Agent: " + "NTRIP nav-rtlogging-go-lib"
  {
  }

  ghost predicate AllOthers(lines: seq<string>, name: string) {
    forall i :: 0 <= i < |lines| ==> NotHeader(lines[i], name)
  }

  lemma OthersTogether(a: seq<string>, b: seq<string>, name: string)
    requires AllOthers(a, name) && AllOthers(b, name)
    ensures AllOthers(a + b, name)
  {
  }

  lemma OthersTail()
    ensures AllOthers(["Accept: */*", "", ""], "Authorization")
  {
    AcceptIsOther();
    BlankIsOther("Authorization");
  }

  lemma OthersBefore(host: string, v2: bool)
    ensures AllOthers(if v2 then ["Host: " + host, "Ntrip-Version: Ntrip/2.0"] else [], "Authorization")
  {
    HostIsOther(host);
    VersionIsOther();
  }

  lemma OthersAgent(v2: bool)
    ensures AllOthers([if v2 then "User-Agent: NTRIP nav-rtlogging-go-lib" else "User-Agent: NTRIP Client"], "Authorization")
  {
    AgentLines();
    AgentIsOther(if v2 then "NTRIP nav-rtlogging-go-lib" else "NTRIP Client");
  }

  /** The header lines of a GET without credentials. */
  lemma BareLines(mount: string, username: string, password: string, v2: bool, host: string)
    requires IsByteString(username) && IsByteString(password) && (username == "" || password == "")
    ensures GetLines(mount, username, password, v2, host)[1..] + ["", ""] ==
            (if v2 then ["Host: " + host, "Ntrip-Version: Ntrip/2.0"] else [])
            + [if v2 then "User-Agent: NTRIP nav-rtlogging-go-lib" else "User-Agent: NTRIP Client"]
            + ["Accept: */*", "", ""]
  {
  }

  lemma OthersOfGet(mount: string, username: string, password: string, v2: bool, host: string)
    requires IsByteString(username) && IsByteString(password) && (username == "" || password == "")
    ensures AllOthers(GetLines(mount, username, password, v2, host)[1..] + ["", ""], "Authorization")
  {
    BareLines(mount, username, password, v2, host);
    OthersBefore(host, v2);
    OthersAgent(v2);
    OthersTail();
    var before := if v2 then ["Host: " + host, "Ntrip-Version: Ntrip/2.0"] else [];
    var agent := [if v2 then "User-Agent: NTRIP nav-rtlogging-go-lib" else "User-Agent: NTRIP Client"];
    OthersTogether(before, agent, "Authorization");
    OthersTogether(before + agent, ["Accept: */*", "", ""], "Authorization");
  }

  function Version(v2: bool): string {
    if v2 then "HTTP/1.1" else "HTTP/1.0"
  }

  /** The credentials of a GET that arrive: none if either is empty. */
  function Carried(username: string, password: string): Result<(string, string)> {
    if username != "" && password != "" then Ok(Credentials(username, password)) else Err
  }

  lemma {:induction false} GetParsed(mount: string, username: string, password: string, v2: bool, host: string) returns (r: Request)
    requires ValidMount(mount) && OneLine(host) && IsByteString(username) && IsByteString(password)
    ensures Parse(Message(GetLines(mount, username, password, v2, host))) == Ok(r)
    ensures r.verb == "GET" && r.target == TrimSlashes(mount) && r.parts == ["GET", "/" + mount, Version(v2)]
    ensures ParseBasic(Header(r, "authorization")) == Carried(username, password)
  {
    var lines := GetLines(mount, username, password, v2, host);
    GetLinesOk(mount, username, password, v2, host);
    GetFirst(mount, username, password, v2, host);
    VerbAndVersion();
    if username != "" && password != "" {
      AcceptIsOther();
      var i := GetAuthorization(mount, username, password, v2, host);
      var headers := ParsedMessage(lines, i, "GET", mount, Version(v2), username, password);
      r := Request("GET", TrimSlashes(mount), ["GET", "/" + mount, Version(v2)], headers);
      CredentialsExactly(username, password);
    } else {
      r := BareGet(lines, mount, username, password, v2, host);
    }
  }

  lemma BareGet(lines: seq<string>, mount: string, username: string, password: string, v2: bool, host: string)
    returns (r: Request)
    requires ValidMount(mount) && IsByteString(username) && IsByteString(password) && (username == "" || password == "")
    requires lines == GetLines(mount, username, password, v2, host) && AllOneLine(lines) && lines != []
    requires lines[0] == "GET" + " " + ("/" + mount) + " " + Version(v2)
    ensures Parse(Message(lines)) == Ok(r)
    ensures r.verb == "GET" && r.target == TrimSlashes(mount) && r.parts == ["GET", "/" + mount, Version(v2)]
    ensures ParseBasic(Header(r, "authorization")).Err?
  {
    TargetOfMount(mount);
    VerbAndVersion();
    RequestLineOf("GET", mount, Version(v2));
    ParseThreeParts(lines, "GET", "/" + mount, Version(v2));
    OthersOfGet(mount, username, password, v2, host);
    NoHeader(lines[1..] + ["", ""], "Authorization");
    AuthorizationName();
    r := Request("GET", TrimSlashes(mount), ["GET", "/" + mount, Version(v2)], Headers(lines[1..] + ["", ""]));
    assert Header(r, "authorization") == "";
  }

  /** The caster's rule for the credentials of a GET. */
  predicate MayRead(target: string, username: string, password: string, policy: Policy) {
    && username != "" && password != ""
    && var (user, pass) := Credentials(username, password);
    Permits(policy, target, user, pass, target != "" && target == user && user == pass)
  }

  function GetVerdict(target: string, username: string, password: string, v2: bool, policy: Policy, settings: Settings,
                      sources: set<string>): Answer {
    if !MayRead(target, username, password, policy) && (target != "" || settings.requireSourcetableAuth)
    then Refuse(Unauthorized(v2))
    else Served(target, v2, settings, sources)
  }

  lemma GetAnswer(mount: string, username: string, password: string, v2: bool, host: string, policy: Policy, settings: Settings,
                  sources: set<string>)
    requires ValidMount(mount) && OneLine(host) && IsByteString(username) && IsByteString(password)
    ensures SubscriberAnswer(Message(GetLines(mount, username, password, v2, host)), policy, settings, sources)
         == GetVerdict(TrimSlashes(mount), username, password, v2, policy, settings, sources)
  {
    var r := GetParsed(mount, username, password, v2, host);
    TrimmedIsValid(mount);
    GetVersion(r, mount, v2);
    CredentialsExactly(username, password);
    GetJudged(r, username, password, policy, settings, sources);
  }

  lemma GetVersion(r: Request, mount: string, v2: bool)
    requires r.parts == ["GET", "/" + mount, Version(v2)]
    ensures IsV2(r) == v2
  {
    VerbAndVersion();
  }

  lemma GetJudged(r: Request, username: string, password: string, policy: Policy, settings: Settings, sources: set<string>)
    requires password != "" ==> Credentials(username, password).1 != ""
    requires ParseBasic(Header(r, "authorization")) == Carried(username, password)
    requires ValidMount(r.target) <==> r.target != ""
    ensures SubscriberJudged(r, policy, settings, sources)
         == GetVerdict(r.target, username, password, IsV2(r), policy, settings, sources)
  {
  }

  /** What a subscriber asks, and what the caster goes by. */
  datatype Query = Query(mount: string, username: string, password: string, v2: bool, host: string)
  datatype Site = Site(policy: Policy, settings: Settings, sources: set<string>, mounts: seq<string>, date: string)

  ghost predicate GoodQuery(q: Query) {
    ValidMount(q.mount) && OneLine(q.host) && IsByteString(q.username) && IsByteString(q.password)
  }

  function QueryLines(q: Query): seq<string>
    requires IsByteString(q.username) && IsByteString(q.password)
  {
    GetLines(q.mount, q.username, q.password, q.v2, q.host)
  }

  function Verdict(q: Query, site: Site, up: seq<string>): Answer
    requires IsByteString(q.username) && IsByteString(q.password)
  {
    if Overflows(up, QueryLines(q)) then Refuse(HeaderTooLarge)
    else GetVerdict(TrimSlashes(q.mount), q.username, q.password, q.v2, site.policy, site.settings, site.sources)
  }

  function CasterAnswer(up: seq<string>, site: Site): Option<Answer> {
    Answered(up, h => SubscriberAnswer(h, site.policy, site.settings, site.sources))
  }

  /** The query and perhaps more went up; the answer and, behind a welcome, the stream came down. */
  ghost predicate Exchange(q: Query, site: Site, up: seq<string>, down: seq<string>, payload: string)
    requires GoodQuery(q)
  {
    var answer := CasterAnswer(up, site);
    && Message(QueryLines(q)) <= Join(up)
    && IsDate(site.date) && |Decimal(|Body(site.mounts)|)| <= 19
    && Join(down) == Sent(answer, site.date, site.mounts) + payload
    && (payload == "" || (answer.Some? && answer.value.Accept?))
  }

  /** The caster's answer and what the subscriber makes of it, for every division of both
      directions, follow from the mount without its outer slashes, the credentials and the
      sources alone, but for a request that overflows, a read that ends early in an ICY response
      and a phrase in what was buffered. */
  lemma {:induction false} GetHandshake(q: Query, site: Site, up: seq<string>, down: seq<string>, payload: string)
    requires GoodQuery(q) && Exchange(q, site, up, down, payload)
    ensures CasterAnswer(up, site) == Some(Verdict(q, site, up))
    ensures Understood(ListenAll(down, CLIENT_PHRASES), Verdict(q, site, up), down, site.date, site.mounts, payload)
  {
    var lines := QueryLines(q);
    var more := Join(up)[|Message(lines)|..];
    assert Join(up) == Message(lines) + more;
    GetLinesOk(q.mount, q.username, q.password, q.v2, q.host);
    AnsweredMessage(up, lines, more, h => SubscriberAnswer(h, site.policy, site.settings, site.sources));
    GetAnswer(q.mount, q.username, q.password, q.v2, q.host, site.policy, site.settings, site.sources);
    SubscriberUnderstands(Verdict(q, site, up), down, site.date, site.mounts, payload);
  }

  /** A read ended early in the v1 welcome, or nothing buffered with a welcome had a phrase. */
  ghost predicate WelcomeUnderstood(down: seq<string>, v2: bool, date: string) {
    (!v2 && Boundary(down, EARLY)) || Clean(down, Response(Welcome(v2), date))
  }

  /** So a subscriber is connected exactly when the caster accepted it, except in exactly two
      cases: it was accepted, and what it had buffered with the welcome contains a phrase; or it
      asked in v2 for a mount of nothing but slashes, and the caster answered with the
      sourcetable, none of which it had buffered contains a phrase. */
  lemma {:induction false} GetAgreement(q: Query, site: Site, up: seq<string>, down: seq<string>, payload: string)
    requires GoodQuery(q) && Exchange(q, site, up, down, payload)
    ensures var verdict := Verdict(q, site, up);
      (ListenAll(down, CLIENT_PHRASES).Connected? <==> CasterAnswer(up, site).Some? && CasterAnswer(up, site).value.Accept?)
      <==>
      && (verdict.Accept? ==> WelcomeUnderstood(down, q.v2, site.date))
      && (verdict == Table(true) ==> !Clean(down, Message(TableLines(true, |Body(site.mounts)|))))
  {
    GetHandshake(q, site, up, down, payload);
    VerdictVersion(q, site, up);
  }

  /** The sourcetable answers exactly the requests for a mount of nothing but slashes that did
      not overflow and that the caster lets see it. */
  lemma VerdictVersion(q: Query, site: Site, up: seq<string>)
    requires GoodQuery(q)
    ensures var verdict := Verdict(q, site, up);
      && (verdict.Accept? ==> verdict == Accept(TrimSlashes(q.mount), q.v2))
      && (verdict == Table(q.v2) <==>
            && !Overflows(up, QueryLines(q)) && TrimSlashes(q.mount) == ""
            && (site.settings.requireSourcetableAuth ==>
                  && q.username != "" && q.password != "" && site.policy.onAuth.Some?
                  && site.policy.onAuth.value("", Credentials(q.username, q.password).0, Credentials(q.username, q.password).1)))
      && (verdict.Table? ==> verdict == Table(q.v2))
  {
  }

  /** And the caster accepts exactly those whose request did not overflow, who may read, and
      whose mount, when it insists on one, has a source. */
  lemma {:induction false} AcceptedExactly(q: Query, site: Site, up: seq<string>, down: seq<string>, payload: string)
    requires GoodQuery(q) && Exchange(q, site, up, down, payload)
    ensures var target := TrimSlashes(q.mount);
      CasterAnswer(up, site) == Some(Accept(target, q.v2)) <==>
      && !Overflows(up, QueryLines(q))
      && target != "" && q.username != "" && q.password != ""
      && (var (user, pass) := Credentials(q.username, q.password);
          match site.policy.onAuth
          case Some(ask) => ask(target, user, pass)
          case None => !site.policy.requireAuth && target == user == pass)
      && (site.settings.requireActiveSource ==> target in site.sources)
  {
    GetHandshake(q, site, up, down, payload);
  }

  // ---------- the sourcetable taken for a stream ----------

  lemma TableLinesPhraseFree(length: nat)
    ensures PhraseFree(Message(TableLines(true, length)))
  {
    FixedTablePhraseFree();
    DecimalPhraseFree(length);
    TableLinesParts(true, length);
    JoinedPhraseFree(TableLines(true, length) + [""]);
  }

  lemma FixedTablePhraseFree()
    ensures PhraseFree("HTTP/1.1 200 OK") && PhraseFree(V2_LINE) && PhraseFree(SERVER_LINE)
    ensures PhraseFree("Content-Type: gnss/sourcetable") && PhraseFree("Content-Length: ") && PhraseFree(CLOSE_LINE)
  {
  }

  lemma {:induction false} DecimalPhraseFree(n: nat)
    ensures PhraseFree(Decimal(n))
  {
    if n >= 10 {
      DecimalPhraseFree(n / 10);
    }
  }

  lemma JustASlash()
    ensures ValidMount("/") && TrimSlashes("/") == ""
  {
    TrimNothing("/", IsSpace);
    assert "/"[1..] == "";
  }

  /** The query for mount "/" is short. */
  lemma SlashQuery() returns (q: Query)
    ensures GoodQuery(q) && q.v2 && q.mount == "/" && |Message(QueryLines(q))| <= MAX_HEADER
  {
    JustASlash();
    q := Query("/", "", "", true, "");
    JoinLinesLength(QueryLines(q) + [""], 40);
  }

  /** A caster that serves its sourcetable to everyone: a subscriber that asks for "/" in v2 is
      connected, though it was not accepted. */
  lemma SlashIsTakenForAStream(site: Site) returns (q: Query, up: seq<string>, down: seq<string>)
    requires !site.settings.requireSourcetableAuth && IsDate(site.date) && |Decimal(|Body(site.mounts)|)| <= 19
    ensures GoodQuery(q) && Exchange(q, site, up, down, "") && CasterAnswer(up, site) == Some(Table(true))
    ensures ListenAll(down, CLIENT_PHRASES) == Connected(Body(site.mounts))
  {
    JustASlash();
    q := SlashQuery();
    var header := Message(TableLines(true, |Body(site.mounts)|));
    var msg := Message(QueryLines(q));
    up, down := [msg], [header] + [Body(site.mounts)];
    JoinOne(msg);
    JoinOne(header);
    JoinAppend([header], Body(site.mounts));
    AnsweredSlash(q, site, up);
    assert down[..|down| - 1] == [header] && [header][..0] == [];
    TableFirstLine(true, |Body(site.mounts)|);
    assert Covering([header], |header|) == header;
    TableLinesPhraseFree(|Body(site.mounts)|);
    PhraseFreeHasNone(header, CLIENT_PHRASES);
    TableVerdict(down, true, site.mounts);
  }

  lemma AnsweredSlash(q: Query, site: Site, up: seq<string>)
    requires GoodQuery(q) && q.v2 && q.mount == "/" && TrimSlashes("/") == "" && |Message(QueryLines(q))| <= MAX_HEADER
    requires Join(up) == Message(QueryLines(q)) && !site.settings.requireSourcetableAuth
    ensures CasterAnswer(up, site) == Some(Table(true))
  {
    GetLinesOk(q.mount, q.username, q.password, q.v2, q.host);
    assert Message(QueryLines(q)) + "" == Message(QueryLines(q));
    AnsweredMessage(up, QueryLines(q), "", h => SubscriberAnswer(h, site.policy, site.settings, site.sources));
    GetAnswer(q.mount, q.username, q.password, q.v2, q.host, site.policy, site.settings, site.sources);
  }

  /** The sourcetable depends on which mounts are in use and on nothing else: not on the sources
      that hold them, nor on the order in which the registry is walked. */
  lemma TableIsDetermined(v2: bool, data: Index, data': Index, mounts: seq<string>, mounts': seq<string>)
    requires Mounts(data) == Mounts(data') && Sorting.Ascending(mounts) && Sorting.Ascending(mounts')
    requires forall m :: m in mounts <==> m in Mounts(data)
    requires forall m :: m in mounts' <==> m in Mounts(data')
    ensures Sourcetable(v2, mounts) == Sourcetable(v2, mounts')
  {
    Sorting.AscendingUnique(mounts, mounts');
  }
}
