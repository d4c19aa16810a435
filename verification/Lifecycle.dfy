/** A listening server as a transition system: accept loops of current and stale listeners,
    the goroutine of each admitted connection, Start and Stop, all interleaved. It covers the
    source side and the subscriber side of the caster and the plain TCP server; they share
    the admission table and differ in how a handler registers and takes its leave.

    Connections are never reused, and live handlers have different keys, because a key is
    the remote address and Delete does not compare beans. */
module Lifecycle {
  import opened Common
  import opened Admission

  datatype Kind = SourceSide | SubscriberSide | TcpServer

  datatype Phase =
    | Begun                // no bean yet; for TCP, before the connect callback
    | Claimed              // source: the mount is taken, the response not yet written
    | Entered              // registered and answered
    | Active               // the connect callback was called
    | Leaving              // the deferred function is running
    | Released             // ... past the connection table
    | Deleted(found: bool) // ... past the registry
    | Done                 // ... past the disconnect callback
    | Gone                 // past wg.Done

  datatype Remover = ByHandler | ByCloseAll | ByFailedResponse

  /** A handler; all but key, mount and phase is history. */
  datatype Handler = Handler(
    key: string,
    mount: string,
    phase: Phase,
    inserted: bool,
    removals: seq<Remover>,
    connects: nat,
    disconnects: nat,
    owned: bool,     // it still had its place in the table when it left
    admitted: nat,   // how many Stops there had been when it was admitted
    released: nat    // ... and when it left the table
  )

  datatype Entry = Entry(conn: nat, mount: string)

  datatype State = State(
    kind: Kind,
    table: Table,
    registry: map<string, Entry>,
    handlers: map<nat, Handler>,
    live: set<nat>,
    loops: set<nat>,    // accept loops by listener
    speeds: set<nat>,   // speed loops by listener; source side only
    wg: nat,
    nextLn: nat,
    stops: nat
  )

  datatype Event =
    | Start
    | SetLimits(maxConns: nat, maxPerIP: nat)
    | Accept(ln: nat, conn: nat, ip: string, key: string)
    | LoopExit(ln: nat)
    | SpeedExit(ln: nat)
    | StopTables
    | CloseAll
    | Claim(conn: nat, mount: string)
    | Respond(conn: nat, ok: bool)
    | Enter(conn: nat, mount: string)
    | Announce(conn: nat)
    | Leave(conn: nat)
    | Release(conn: nat)
    | Delete(conn: nat)
    | Notify(conn: nat)
    | Finish(conn: nat)

  function Init(kind: Kind): State {
    State(kind, Table(None, map[], map[], 1024, 0), map[], map[], {}, {}, {}, 0, 0, 0)
  }

  predicate MountTaken(registry: map<string, Entry>, mount: string) {
    exists k :: k in registry && registry[k].mount == mount
  }

  predicate In(s: State, conn: nat, phase: Phase) {
    conn in s.live && conn in s.handlers && s.handlers[conn].phase == phase
  }

  predicate Enabled(s: State, e: Event) {
    match e
    case Start => s.table.ln == None
    case SetLimits(_, _) => s.table.ln == None
    case Accept(ln, conn, _, key) =>
      && ln in s.loops && conn !in s.handlers
      && (forall c | c in s.live && c in s.handlers :: s.handlers[c].key != key)
    case LoopExit(ln) => ln in s.loops
    case SpeedExit(ln) => ln in s.speeds
    case StopTables => true
    case CloseAll => s.stops > 0
    case Claim(c, _) => s.kind == SourceSide && In(s, c, Begun)
    case Respond(c, _) => s.kind == SourceSide && In(s, c, Claimed)
    case Enter(c, _) => s.kind == SubscriberSide && In(s, c, Begun)
    case Announce(c) => if s.kind == TcpServer then In(s, c, Begun) else In(s, c, Entered)
    case Leave(c) => In(s, c, Active) || (s.kind != TcpServer && In(s, c, Begun))
    case Release(c) => In(s, c, Leaving)
    case Delete(c) => In(s, c, Released)
    case Notify(c) => In(s, c, Deleted(true)) || In(s, c, Deleted(false))
    case Finish(c) => In(s, c, Done)
  }

  function At(h: Handler, phase: Phase): Handler {
    h.(phase := phase)
  }

  function Put(s: State, conn: nat, h: Handler): State {
    s.(handlers := s.handlers[conn := h])
  }

  /** Registers handler conn under its key; Set and SetIfMountAbsent both end like this. */
  function Insert(s: State, conn: nat, mount: string, phase: Phase): State
    requires conn in s.handlers
  {
    var h := s.handlers[conn].(mount := mount, inserted := true, phase := phase);
    Put(s, conn, h).(registry := s.registry[h.key := Entry(conn, mount)])
  }

  /** Takes key out of the registry and notes it with the handler that had put it there. */
  function Remove(s: State, key: string, who: Remover): State {
    if key !in s.registry then s
    else
      var conn := s.registry[key].conn;
      var t := s.(registry := s.registry - {key});
      if conn !in s.handlers then t
      else Put(t, conn, Noted(s.handlers[conn], who))
  }

  function Noted(h: Handler, who: Remover): Handler {
    h.(removals := h.removals + [who])
  }

  function SetPhase(s: State, conn: nat, phase: Phase): State {
    if conn in s.handlers then Put(s, conn, At(s.handlers[conn], phase)) else s
  }

  function Apply(s: State, e: Event): State
    requires Enabled(s, e)
  {
    match e
    case Start =>
      var speed := if s.kind == SourceSide then {s.nextLn} else {};
      s.(table := s.table.(ln := Some(s.nextLn)), loops := s.loops + {s.nextLn}, speeds := s.speeds + speed,
         wg := s.wg + 1 + |speed|, nextLn := s.nextLn + 1)
    case SetLimits(maxConns, maxPerIP) => s.(table := s.table.(maxConns := maxConns, maxPerIP := maxPerIP))
    case Accept(ln, conn, ip, key) =>
      if Judge(s.table, ln, ip) != Admitted then s
      else
        Put(s, conn, Handler(key, "", Begun, false, [], 0, 0, false, s.stops, 0)).(
          table := Admit(s.table, ln, conn, ip), live := s.live + {conn}, wg := s.wg + 1)
    case LoopExit(ln) => s.(loops := s.loops - {ln}, wg := Less(s.wg))
    case SpeedExit(ln) => s.(speeds := s.speeds - {ln}, wg := Less(s.wg))
    case StopTables => s.(table := StopTable(s.table), stops := s.stops + 1)
    case CloseAll =>
      s.(registry := map[],
         handlers := ClosedAll(s.registry, s.handlers))
    case Claim(c, mount) =>
      if MountTaken(s.registry, mount) then SetPhase(s, c, Leaving) else Insert(s, c, mount, Claimed)
    case Respond(c, ok) =>
      if ok then SetPhase(s, c, Entered)
      else SetPhase(Remove(s, s.handlers[c].key, ByFailedResponse), c, Leaving)
    case Enter(c, mount) => Insert(s, c, mount, Entered)
    case Announce(c) =>
      Put(s, c, s.handlers[c].(phase := Active, connects := s.handlers[c].connects + 1))
    case Leave(c) => SetPhase(s, c, Leaving)
    case Release(c) =>
      Put(s, c, s.handlers[c].(phase := Released, owned := c in s.table.conns, released := s.stops)).(
        table := Admission.Release(s.table, c))
    case Delete(c) =>
      if s.kind == TcpServer then SetPhase(s, c, Deleted(s.handlers[c].owned))
      else
        var found := s.handlers[c].key in s.registry;
        SetPhase(Remove(s, s.handlers[c].key, ByHandler), c, Deleted(found))
    case Notify(c) =>
      var h := s.handlers[c];
      Put(s, c, h.(phase := Done, disconnects := h.disconnects + if h.phase.found then 1 else 0))
    case Finish(c) =>
      SetPhase(s, c, Gone).(live := s.live - {c}, wg := Less(s.wg))
  }

  function Less(wg: nat): nat {
    if wg > 0 then wg - 1 else 0
  }

  ghost predicate Legal(s: State, es: seq<Event>)
    decreases |es|, 0
  {
    es == [] ||
    (Legal(s, es[..|es| - 1]) && Enabled(Run(s, es[..|es| - 1]), es[|es| - 1]))
  }

  ghost function Run(s: State, es: seq<Event>): State
    requires Legal(s, es)
    decreases |es|, 1
  {
    if es == [] then s else Apply(Run(s, es[..|es| - 1]), es[|es| - 1])
  }

  // ---------- invariants ----------

  type Handlers = map<nat, Handler>

  predicate OnTable(p: Phase) {
    p.Begun? || p.Claimed? || p.Entered? || p.Active? || p.Leaving?
  }

  predicate MayBeRegistered(p: Phase) {
    p.Claimed? || p.Entered? || p.Active? || p.Leaving? || p.Released?
  }

  predicate Finished(p: Phase) {
    p.Deleted? || p.Done? || p.Gone?
  }

  /** The connections of the table are those of the handlers that have not left it and were
      admitted since the last Stop. */
  ghost predicate TableOk(table: Table, handlers: Handlers, stops: nat) {
    Consistent(table) && Accounted(table.conns.Keys, handlers, stops)
  }

  ghost predicate Accounted(conns: set<nat>, handlers: Handlers, stops: nat) {
    && conns <= handlers.Keys
    && (forall c | c in handlers ::
          && handlers[c].admitted <= stops
          && (c in conns <==> OnTable(handlers[c].phase) && handlers[c].admitted == stops))
  }

  ghost predicate LiveOk(handlers: Handlers, live: set<nat>) {
    && live <= handlers.Keys
    && (forall c | c in handlers :: c in live <==> !handlers[c].phase.Gone?)
    && (forall c, d | c in live && d in live && handlers[c].key == handlers[d].key :: c == d)
  }

  ghost predicate Owns(registry: map<string, Entry>, handlers: Handlers, k: string)
    requires k in registry
  {
    var c := registry[k].conn;
    && c in handlers && handlers[c].key == k && handlers[c].mount == registry[k].mount
    && handlers[c].inserted && handlers[c].removals == [] && MayBeRegistered(handlers[c].phase)
  }

  /** Each key of the registry belongs to the live handler that put it there, and each
      handler whose entry nobody has removed is in the registry. */
  ghost predicate RegistryOk(registry: map<string, Entry>, handlers: Handlers) {
    && (forall k | k in registry :: Owns(registry, handlers, k))
    && (forall c | c in handlers && handlers[c].inserted && handlers[c].removals == [] ::
          handlers[c].key in registry && registry[handlers[c].key].conn == c)
  }

  ghost predicate KindOk(kind: Kind, registry: map<string, Entry>) {
    && (kind == TcpServer ==> registry == map[])
    && (kind == SourceSide ==>
          forall k, l | k in registry && l in registry && registry[k].mount == registry[l].mount :: k == l)
  }

  ghost predicate CounterOk(s: State) {
    s.wg == |s.loops| + |s.speeds| + |s.live| && forall l | l in s.loops || l in s.speeds :: l < s.nextLn
  }

  predicate CasterHandlerOk(h: Handler) {
    && (h.connects == 1 ==> h.inserted)
    && (ByHandler in h.removals ==> h.connects == 1 && Finished(h.phase))
    && (ByFailedResponse in h.removals ==> h.phase.Leaving? || h.phase.Released? || Finished(h.phase))
    && (h.inserted && h.connects == 0 && (h.phase.Leaving? || h.phase.Released?) ==> h.removals != [])
    && (Finished(h.phase) && h.inserted ==> h.removals != [])
    && (h.phase.Deleted? ==> (h.phase.found <==> ByHandler in h.removals))
    && (h.phase.Done? || h.phase.Gone? ==> h.disconnects == if ByHandler in h.removals then 1 else 0)
  }

  predicate TcpHandlerOk(h: Handler) {
    && !h.inserted
    && (!h.phase.Begun? ==> h.connects == 1)
    && (h.phase.Deleted? ==> (h.phase.found <==> h.owned))
    && (h.phase.Done? || h.phase.Gone? ==> h.disconnects == if h.owned then 1 else 0)
  }

  /** What a handler's history can be, given its phase. */
  predicate HandlerOk(kind: Kind, h: Handler) {
    && h.connects <= 1 && |h.removals| <= 1
    && (h.removals != [] ==> h.inserted)
    && (h.phase.Begun? ==> !h.inserted)
    && (h.phase.Claimed? || h.phase.Entered? ==> h.inserted)
    && (h.phase.Begun? || h.phase.Claimed? || h.phase.Entered? ==> h.connects == 0)
    && (h.phase.Active? ==> h.connects == 1)
    && (!h.phase.Done? && !h.phase.Gone? ==> h.disconnects == 0)
    && (!OnTable(h.phase) ==> (h.owned <==> h.admitted == h.released))
    && (if kind == TcpServer then TcpHandlerOk(h) else CasterHandlerOk(h))
  }

  ghost predicate HandlersOk(kind: Kind, handlers: Handlers) {
    forall c | c in handlers :: HandlerOk(kind, handlers[c])
  }

  ghost predicate Inv(s: State) {
    && TableOk(s.table, s.handlers, s.stops)
    && LiveOk(s.handlers, s.live)
    && RegistryOk(s.registry, s.handlers)
    && KindOk(s.kind, s.registry)
    && CounterOk(s)
    && HandlersOk(s.kind, s.handlers)
  }

  // ---------- updating one handler ----------

  lemma PutLive(hs: Handlers, live: set<nat>, conn: nat, h: Handler)
    requires LiveOk(hs, live) && conn in hs && h.key == hs[conn].key && h.phase.Gone? == hs[conn].phase.Gone?
    ensures LiveOk(hs[conn := h], live)
  {
  }

  lemma PutTable(table: Table, hs: Handlers, stops: nat, conn: nat, h: Handler)
    requires TableOk(table, hs, stops) && conn in hs
    requires h.admitted == hs[conn].admitted && OnTable(h.phase) == OnTable(hs[conn].phase)
    ensures TableOk(table, hs[conn := h], stops)
  {
  }

  lemma PutRegistry(registry: map<string, Entry>, hs: Handlers, conn: nat, h: Handler)
    requires RegistryOk(registry, hs) && conn in hs
    requires h.key == hs[conn].key && h.mount == hs[conn].mount
    requires h.inserted == hs[conn].inserted && h.removals == hs[conn].removals
    requires h.inserted && h.removals == [] ==> MayBeRegistered(h.phase)
    ensures RegistryOk(registry, hs[conn := h])
  {
    forall k | k in registry ensures Owns(registry, hs[conn := h], k) {
      assert Owns(registry, hs, k);
    }
  }

  lemma PutHandlers(kind: Kind, hs: Handlers, conn: nat, h: Handler)
    requires HandlersOk(kind, hs) && HandlerOk(kind, h)
    ensures HandlersOk(kind, hs[conn := h])
  {
  }

  /** h' is h further on, with its registry entry and its place in the table as they were. */
  predicate Further(h: Handler, h': Handler) {
    && h'.key == h.key && h'.mount == h.mount && h'.inserted == h.inserted && h'.removals == h.removals
    && h'.admitted == h.admitted
    && OnTable(h'.phase) == OnTable(h.phase) && !h.phase.Gone? && !h'.phase.Gone?
    && (h.inserted && h.removals == [] ==> MayBeRegistered(h'.phase))
  }

  lemma FurtherStep(s: State, conn: nat, h': Handler)
    requires Inv(s) && conn in s.handlers && Further(s.handlers[conn], h') && HandlerOk(s.kind, h')
    ensures Inv(Put(s, conn, h'))
  {
    PutLive(s.handlers, s.live, conn, h');
    PutTable(s.table, s.handlers, s.stops, conn, h');
    PutRegistry(s.registry, s.handlers, conn, h');
    PutHandlers(s.kind, s.handlers, conn, h');
  }

  // ---------- the registry ----------

  /** A key in use is that of the live handler which is asking. */
  lemma OwnKey(registry: map<string, Entry>, hs: Handlers, live: set<nat>, conn: nat)
    requires LiveOk(hs, live) && RegistryOk(registry, hs) && conn in live
    ensures hs[conn].key in registry ==> registry[hs[conn].key].conn == conn && Owns(registry, hs, hs[conn].key)
  {
    if hs[conn].key in registry {
      assert Owns(registry, hs, hs[conn].key);
    }
  }

  lemma InsertRegistry(registry: map<string, Entry>, hs: Handlers, live: set<nat>, conn: nat, h: Handler)
    requires LiveOk(hs, live) && RegistryOk(registry, hs) && conn in live && hs[conn].phase.Begun?
    requires h.key == hs[conn].key && h.inserted && h.removals == [] && MayBeRegistered(h.phase)
    ensures RegistryOk(registry[h.key := Entry(conn, h.mount)], hs[conn := h]) && h.key !in registry
  {
    OwnKey(registry, hs, live, conn);
    var registry' := registry[h.key := Entry(conn, h.mount)];
    forall k | k in registry' ensures Owns(registry', hs[conn := h], k) {
      assert k in registry ==> Owns(registry, hs, k);
    }
  }

  lemma InsertKind(kind: Kind, registry: map<string, Entry>, key: string, conn: nat, mount: string)
    requires KindOk(kind, registry) && kind != TcpServer && key !in registry
    requires kind == SourceSide ==> !MountTaken(registry, mount)
    ensures KindOk(kind, registry[key := Entry(conn, mount)])
  {
  }

  lemma InsertedHandler(kind: Kind, h: Handler, mount: string, phase: Phase)
    requires HandlerOk(kind, h) && kind != TcpServer && h.phase.Begun? && (phase.Claimed? || phase.Entered?)
    ensures HandlerOk(kind, h.(mount := mount, inserted := true, phase := phase)) && h.removals == []
  {
  }

  lemma InsertStep(s: State, conn: nat, mount: string, phase: Phase)
    requires Inv(s) && In(s, conn, Begun) && s.kind != TcpServer && (phase.Claimed? || phase.Entered?)
    requires s.kind == SourceSide ==> !MountTaken(s.registry, mount)
    ensures Inv(Insert(s, conn, mount, phase))
  {
    var h := s.handlers[conn].(mount := mount, inserted := true, phase := phase);
    InsertedHandler(s.kind, s.handlers[conn], mount, phase);
    InsertRegistry(s.registry, s.handlers, s.live, conn, h);
    InsertKind(s.kind, s.registry, h.key, conn, mount);
    PutLive(s.handlers, s.live, conn, h);
    PutTable(s.table, s.handlers, s.stops, conn, h);
    PutHandlers(s.kind, s.handlers, conn, h);
  }

  lemma DropRegistry(registry: map<string, Entry>, hs: Handlers, live: set<nat>, conn: nat, h: Handler)
    requires LiveOk(hs, live) && RegistryOk(registry, hs) && conn in live
    requires h.key == hs[conn].key && (h.inserted ==> h.removals != [])
    ensures RegistryOk(registry - {h.key}, hs[conn := h])
  {
    var registry', hs' := registry - {h.key}, hs[conn := h];
    forall k | k in registry' ensures Owns(registry', hs', k) {
      assert Owns(registry, hs, k);
    }
    forall c | c in hs' && hs'[c].inserted && hs'[c].removals == []
      ensures hs'[c].key in registry' && registry'[hs'[c].key].conn == c
    {
      OwnKey(registry, hs, live, conn);
    }
  }

  /** What Remove and the next phase do when the key is the handler's own or free. */
  function Dropped(s: State, conn: nat, who: Remover, phase: Phase): State
    requires conn in s.handlers
  {
    var h := s.handlers[conn];
    Put(s, conn, At(if h.key in s.registry then Noted(h, who) else h, phase)).(registry := s.registry - {h.key})
  }

  lemma RemoveIsDropped(s: State, conn: nat, who: Remover, phase: Phase)
    requires LiveOk(s.handlers, s.live) && RegistryOk(s.registry, s.handlers) && conn in s.live
    ensures SetPhase(Remove(s, s.handlers[conn].key, who), conn, phase) == Dropped(s, conn, who, phase)
  {
    var key := s.handlers[conn].key;
    OwnKey(s.registry, s.handlers, s.live, conn);
    if key in s.registry {
      var h := Noted(s.handlers[conn], who);
      assert s.handlers[conn := h][conn := At(h, phase)] == s.handlers[conn := At(h, phase)];
    } else {
      assert s.registry - {key} == s.registry;
    }
  }

  lemma DroppedStep(s: State, conn: nat, who: Remover, phase: Phase)
    requires Inv(s) && conn in s.live && s.kind != TcpServer
    requires (who.ByFailedResponse? && In(s, conn, Claimed) && phase.Leaving?)
          || (who.ByHandler? && In(s, conn, Released) && phase == Deleted(s.handlers[conn].key in s.registry))
    ensures Inv(Dropped(s, conn, who, phase))
  {
    var h0 := s.handlers[conn];
    var h := At(if h0.key in s.registry then Noted(h0, who) else h0, phase);
    OwnKey(s.registry, s.handlers, s.live, conn);
    assert HandlerOk(s.kind, h0);
    assert h0.inserted && h0.removals == [] <==> h0.key in s.registry;
    DropRegistry(s.registry, s.handlers, s.live, conn, h);
    PutLive(s.handlers, s.live, conn, h);
    PutTable(s.table, s.handlers, s.stops, conn, h);
    PutHandlers(s.kind, s.handlers, conn, h);
  }

  // ---------- CloseAll ----------

  function ClosedAll(registry: map<string, Entry>, hs: Handlers): Handlers {
    map c | c in hs ::
      if hs[c].key in registry && registry[hs[c].key].conn == c then Noted(hs[c], ByCloseAll) else hs[c]
  }

  lemma ClosedHandlers(kind: Kind, registry: map<string, Entry>, hs: Handlers)
    requires HandlersOk(kind, hs) && RegistryOk(registry, hs) && KindOk(kind, registry)
    ensures HandlersOk(kind, ClosedAll(registry, hs)) && RegistryOk(map[], ClosedAll(registry, hs))
  {
    forall c | c in hs
      ensures HandlerOk(kind, ClosedAll(registry, hs)[c])
      ensures ClosedAll(registry, hs)[c].inserted ==> ClosedAll(registry, hs)[c].removals != []
    {
      assert HandlerOk(kind, hs[c]);
      if hs[c].key in registry && registry[hs[c].key].conn == c {
        assert Owns(registry, hs, hs[c].key);
      }
    }
  }

  lemma ClosedFrame(table: Table, registry: map<string, Entry>, hs: Handlers, live: set<nat>, stops: nat)
    requires TableOk(table, hs, stops) && LiveOk(hs, live)
    ensures TableOk(table, ClosedAll(registry, hs), stops) && LiveOk(ClosedAll(registry, hs), live)
  {
  }

  lemma CloseAllStep(s: State)
    requires Inv(s) && Enabled(s, CloseAll)
    ensures Inv(Apply(s, CloseAll))
  {
    ClosedHandlers(s.kind, s.registry, s.handlers);
    ClosedFrame(s.table, s.registry, s.handlers, s.live, s.stops);
  }

  // ---------- the table ----------

  lemma ReleaseTable(table: Table, hs: Handlers, stops: nat, conn: nat, h: Handler)
    requires TableOk(table, hs, stops) && conn in hs && h.admitted == hs[conn].admitted && !OnTable(h.phase)
    ensures TableOk(Admission.Release(table, conn), hs[conn := h], stops)
  {
    ReleaseConsistent(table, conn);
    ReleaseAccounted(table.conns.Keys, hs, stops, conn, h);
    assert Admission.Release(table, conn).conns.Keys == table.conns.Keys - {conn};
  }

  lemma ReleaseAccounted(conns: set<nat>, hs: Handlers, stops: nat, conn: nat, h: Handler)
    requires Accounted(conns, hs, stops) && conn in hs && h.admitted == hs[conn].admitted && !OnTable(h.phase)
    ensures Accounted(conns - {conn}, hs[conn := h], stops)
  {
  }

  lemma ReleaseStep(s: State, conn: nat)
    requires Inv(s) && Enabled(s, Release(conn))
    ensures Inv(Apply(s, Release(conn)))
  {
    var h := Apply(s, Release(conn)).handlers[conn];
    assert HandlerOk(s.kind, s.handlers[conn]);
    ReleaseTable(s.table, s.handlers, s.stops, conn, h);
    PutLive(s.handlers, s.live, conn, h);
    PutRegistry(s.registry, s.handlers, conn, h);
    PutHandlers(s.kind, s.handlers, conn, h);
  }

  lemma AcceptRegistry(registry: map<string, Entry>, hs: Handlers, conn: nat, h: Handler)
    requires RegistryOk(registry, hs) && conn !in hs && !h.inserted
    ensures RegistryOk(registry, hs[conn := h])
  {
    forall k | k in registry ensures Owns(registry, hs[conn := h], k) {
      assert Owns(registry, hs, k);
    }
  }

  lemma AcceptTable(table: Table, hs: Handlers, stops: nat, ln: nat, conn: nat, ip: string, h: Handler)
    requires TableOk(table, hs, stops) && conn !in hs && OnTable(h.phase) && h.admitted == stops
    requires Judge(table, ln, ip) == Admitted
    ensures TableOk(Admit(table, ln, conn, ip), hs[conn := h], stops)
  {
    AdmitConsistent(table, ln, conn, ip);
  }

  lemma AcceptLive(hs: Handlers, live: set<nat>, conn: nat, h: Handler)
    requires LiveOk(hs, live) && conn !in hs && !h.phase.Gone?
    requires forall c | c in live :: hs[c].key != h.key
    ensures LiveOk(hs[conn := h], live + {conn}) && |live + {conn}| == |live| + 1
  {
  }

  lemma AcceptStep(s: State, e: Event)
    requires Inv(s) && e.Accept? && Enabled(s, e)
    ensures Inv(Apply(s, e))
  {
    if Judge(s.table, e.ln, e.ip) == Admitted {
      var h := Handler(e.key, "", Begun, false, [], 0, 0, false, s.stops, 0);
      AcceptTable(s.table, s.handlers, s.stops, e.ln, e.conn, e.ip, h);
      AcceptRegistry(s.registry, s.handlers, e.conn, h);
      PutHandlers(s.kind, s.handlers, e.conn, h);
      AcceptLive(s.handlers, s.live, e.conn, h);
    }
  }

  lemma StopStep(s: State)
    requires Inv(s)
    ensures Inv(Apply(s, StopTables))
  {
    StopConsistent(s.table);
  }

  // ---------- the wait group ----------

  lemma FinishLive(hs: Handlers, live: set<nat>, conn: nat, h: Handler)
    requires LiveOk(hs, live) && conn in live && h.phase.Gone?
    ensures LiveOk(hs[conn := h], live - {conn}) && |live - {conn}| == |live| - 1
  {
  }

  lemma FinishStep(s: State, conn: nat)
    requires Inv(s) && Enabled(s, Finish(conn))
    ensures Inv(Apply(s, Finish(conn)))
  {
    var h := At(s.handlers[conn], Gone);
    assert HandlerOk(s.kind, s.handlers[conn]);
    PutTable(s.table, s.handlers, s.stops, conn, h);
    PutRegistry(s.registry, s.handlers, conn, h);
    PutHandlers(s.kind, s.handlers, conn, h);
    FinishLive(s.handlers, s.live, conn, h);
  }

  lemma LoopStep(s: State, e: Event)
    requires Inv(s) && Enabled(s, e) && (e.Start? || e.SetLimits? || e.LoopExit? || e.SpeedExit?)
    ensures Inv(Apply(s, e))
  {
  }

  lemma MovedHandler(s: State, e: Event)
    requires Enabled(s, e) && (e.Announce? || e.Leave? || e.Notify?) && HandlerOk(s.kind, s.handlers[e.conn])
    ensures var h := Apply(s, e).handlers[e.conn];
      && Apply(s, e) == Put(s, e.conn, h) && Further(s.handlers[e.conn], h) && HandlerOk(s.kind, h)
  {
  }

  lemma HandlerStep(s: State, e: Event)
    requires Inv(s) && Enabled(s, e) && (e.Announce? || e.Leave? || e.Notify?)
    ensures Inv(Apply(s, e))
  {
    MovedHandler(s, e);
    FurtherStep(s, e.conn, Apply(s, e).handlers[e.conn]);
  }

  lemma ClaimStep(s: State, e: Event)
    requires Inv(s) && Enabled(s, e) && (e.Claim? || e.Respond?)
    ensures Inv(Apply(s, e))
  {
    assert HandlerOk(s.kind, s.handlers[e.conn]);
    if e.Claim? {
      if MountTaken(s.registry, e.mount) {
        FurtherStep(s, e.conn, At(s.handlers[e.conn], Leaving));
      } else {
        InsertStep(s, e.conn, e.mount, Claimed);
      }
    } else if e.ok {
      FurtherStep(s, e.conn, At(s.handlers[e.conn], Entered));
    } else {
      RemoveIsDropped(s, e.conn, ByFailedResponse, Leaving);
      DroppedStep(s, e.conn, ByFailedResponse, Leaving);
    }
  }

  lemma DeleteStep(s: State, conn: nat)
    requires Inv(s) && Enabled(s, Delete(conn))
    ensures Inv(Apply(s, Delete(conn)))
  {
    assert HandlerOk(s.kind, s.handlers[conn]);
    if s.kind == TcpServer {
      FurtherStep(s, conn, At(s.handlers[conn], Deleted(s.handlers[conn].owned)));
    } else {
      RemoveIsDropped(s, conn, ByHandler, Deleted(s.handlers[conn].key in s.registry));
      DroppedStep(s, conn, ByHandler, Deleted(s.handlers[conn].key in s.registry));
    }
  }

  lemma StepInv(s: State, e: Event)
    requires Inv(s) && Enabled(s, e)
    ensures Inv(Apply(s, e))
  {
    match e
    case Accept(_, _, _, _) => AcceptStep(s, e);
    case StopTables => StopStep(s);
    case CloseAll => CloseAllStep(s);
    case Claim(_, _) => ClaimStep(s, e);
    case Respond(_, _) => ClaimStep(s, e);
    case Enter(c, mount) => InsertStep(s, c, mount, Entered);
    case Announce(_) => HandlerStep(s, e);
    case Leave(_) => HandlerStep(s, e);
    case Notify(_) => HandlerStep(s, e);
    case Release(c) => ReleaseStep(s, c);
    case Delete(c) => DeleteStep(s, c);
    case Finish(c) => FinishStep(s, c);
    case _ => LoopStep(s, e);
  }

  lemma InitInv(kind: Kind)
    ensures Inv(Init(kind))
  {
    StopConsistent(Init(kind).table);
  }

  lemma {:induction false} RunInv(kind: Kind, es: seq<Event>)
    requires Legal(Init(kind), es)
    ensures Inv(Run(Init(kind), es))
  {
    if es == [] {
      InitInv(kind);
    } else {
      RunInv(kind, es[..|es| - 1]);
      StepInv(Run(Init(kind), es[..|es| - 1]), es[|es| - 1]);
    }
  }

  // ---------- main results ----------

  /** In every run, whatever accept loops of old listeners do and however Stop and Start
      overlap: the count of every address is the number of its connections, no count is zero,
      and no limit is exceeded. */
  lemma {:induction false} AdmissionHolds(kind: Kind, es: seq<Event>)
    requires Legal(Init(kind), es)
    ensures Consistent(Run(Init(kind), es).table)
  {
    RunInv(kind, es);
  }

  /** In every run the keys of the registry are keys of live handlers, also of a handler that
      registers after CloseAll; so when the wait group is at zero nothing is left anywhere. */
  lemma {:induction false} Teardown(kind: Kind, es: seq<Event>)
    requires Legal(Init(kind), es)
    ensures var s := Run(Init(kind), es);
      && (forall k | k in s.registry ::
            s.registry[k].conn in s.live && s.registry[k].conn in s.handlers && s.handlers[s.registry[k].conn].key == k)
      && (s.wg == 0 ==> s.loops == {} && s.speeds == {} && s.live == {}
                        && s.table.conns == map[] && s.table.byIP == map[] && s.registry == map[])
  {
    RunInv(kind, es);
    var s := Run(Init(kind), es);
    forall k | k in s.registry
      ensures s.registry[k].conn in s.live && s.handlers[s.registry[k].conn].key == k
    {
      assert Owns(s.registry, s.handlers, k);
    }
    if s.wg == 0 {
      forall ip ensures ip !in s.table.byIP {
        assert Lookup(s.table.byIP, ip) == |ConnsOf(s.table.conns, ip)|;
        assert ConnsOf(s.table.conns, ip) <= s.live;
      }
    }
  }

  /** How many Starts there were. */
  function Starts(es: seq<Event>): nat {
    if es == [] then 0 else Starts(es[..|es| - 1]) + if es[|es| - 1].Start? then 1 else 0
  }

  /** The current listener, read off the run: the number of the last Start, unless a Stop came
      since. */
  function CurrentListener(es: seq<Event>): Option<nat> {
    if es == [] then None
    else
      var before, last := es[..|es| - 1], es[|es| - 1];
      if last.Start? then Some(Starts(before)) else if last.StopTables? then None else CurrentListener(before)
  }

  /** The limits, on all connections and for each address: those set last, or the defaults. */
  function LimitsSet(es: seq<Event>): (nat, nat) {
    if es == [] then (1024, 0)
    else if es[|es| - 1].SetLimits? then (es[|es| - 1].maxConns, es[|es| - 1].maxPerIP)
    else LimitsSet(es[..|es| - 1])
  }

  lemma {:induction false} LimitsExactly(kind: Kind, es: seq<Event>)
    requires Legal(Init(kind), es)
    ensures var t := Run(Init(kind), es).table; (t.maxConns, t.maxPerIP) == LimitsSet(es)
  {
    if es != [] {
      LimitsExactly(kind, es[..|es| - 1]);
      StepLimits(Run(Init(kind), es[..|es| - 1]), es[|es| - 1]);
    }
  }

  lemma StepLimits(s: State, e: Event)
    requires Enabled(s, e)
    ensures Apply(s, e).table.maxConns == if e.SetLimits? then e.maxConns else s.table.maxConns
    ensures Apply(s, e).table.maxPerIP == if e.SetLimits? then e.maxPerIP else s.table.maxPerIP
  {
  }

  lemma {:induction false} ListenerExactly(kind: Kind, es: seq<Event>)
    requires Legal(Init(kind), es)
    ensures Run(Init(kind), es).table.ln == CurrentListener(es) && Run(Init(kind), es).nextLn == Starts(es)
  {
    if es != [] {
      ListenerExactly(kind, es[..|es| - 1]);
      StepListener(Run(Init(kind), es[..|es| - 1]), es[|es| - 1]);
    }
  }

  lemma StepListener(s: State, e: Event)
    requires Enabled(s, e)
    ensures Apply(s, e).table.ln == if e.Start? then Some(s.nextLn) else if e.StopTables? then None else s.table.ln
    ensures Apply(s, e).nextLn == s.nextLn + if e.Start? then 1 else 0
  {
  }

  /** From a Stop on, without another Start, no listener comes back and no handler or accept
      loop is added: what the wait group waits for only becomes less. */
  lemma {:induction false} NothingStartsAfterStop(kind: Kind, es: seq<Event>, after: seq<Event>)
    requires Legal(Init(kind), es) && Legal(Init(kind), es + after)
    requires es != [] && es[|es| - 1].StopTables? && forall e | e in after :: !e.Start?
    ensures var s, t := Run(Init(kind), es), Run(Init(kind), es + after);
      && t.table.ln == None && t.table.conns == map[] && t.table.byIP == map[]
      && t.live <= s.live && t.loops <= s.loops && t.speeds <= s.speeds
  {
    ListenerExactly(kind, es);
    StaysStopped(kind, es, after);
    AdmissionHolds(kind, es + after);
  }

  lemma {:induction false} StaysStopped(kind: Kind, es: seq<Event>, after: seq<Event>)
    requires Legal(Init(kind), es) && Legal(Init(kind), es + after)
    requires Run(Init(kind), es).table.ln == None && forall e | e in after :: !e.Start?
    ensures var s, t := Run(Init(kind), es), Run(Init(kind), es + after);
      t.table.ln == None && t.live <= s.live && t.loops <= s.loops && t.speeds <= s.speeds
  {
    if after == [] {
      assert es + after == es;
    } else {
      var all := es + after;
      assert all[..|all| - 1] == es + after[..|after| - 1];
      assert after[|after| - 1] in after && all[|all| - 1] == after[|after| - 1];
      StaysStopped(kind, es, after[..|after| - 1]);
      StepAfterStop(Run(Init(kind), all[..|all| - 1]), all[|all| - 1]);
    }
  }

  lemma StepAfterStop(s: State, e: Event)
    requires Enabled(s, e) && s.table.ln == None && !e.Start?
    ensures var t := Apply(s, e);
      t.table.ln == None && t.live <= s.live && t.loops <= s.loops && t.speeds <= s.speeds
  {
  }

  /** On the source side no mount ever has two entries. */
  lemma {:induction false} OneSourcePerMount(es: seq<Event>, k: string, l: string)
    requires Legal(Init(SourceSide), es)
    requires var r := Run(Init(SourceSide), es).registry; k in r && l in r && r[k].mount == r[l].mount
    ensures k == l
  {
    RunInv(SourceSide, es);
    KindKept(SourceSide, es);
  }

  /** Two runs, of any of the servers, that leave the same connections leave the same counts:
      nothing that came and went, or was stopped, is remembered. */
  lemma {:induction false} CountsForget(kind: Kind, es: seq<Event>, other: Kind, others: seq<Event>)
    requires Legal(Init(kind), es) && Legal(Init(other), others)
    requires Run(Init(kind), es).table.conns == Run(Init(other), others).table.conns
    ensures Run(Init(kind), es).table.byIP == Run(Init(other), others).table.byIP
  {
    AdmissionHolds(kind, es);
    AdmissionHolds(other, others);
    CountsDetermined(Run(Init(kind), es).table, Run(Init(other), others).table);
  }

  /** What becomes of a new connection: closed without a word exactly when its listener is not
      that of the last Start, or a Stop came since; else refused as too many in all, or as too
      many from its address, exactly when the connections whose handlers have not left the table
      and were admitted since the last Stop have reached that limit; else admitted. */
  lemma {:induction false} AdmittedExactly(kind: Kind, es: seq<Event>, ln: nat, ip: string)
    requires Legal(Init(kind), es)
    ensures var s := Run(Init(kind), es);
      var (most, mostPerIP) := LimitsSet(es);
      && s.table.conns.Keys == Current(s.handlers, s.stops)
      && Judge(s.table, ln, ip) ==
         if CurrentListener(es) != Some(ln) then Stale
         else if most > 0 && |Current(s.handlers, s.stops)| == most then Unavailable
         else if mostPerIP > 0 && |ConnsOf(s.table.conns, ip)| == mostPerIP then TooMany
         else Admitted
  {
    RunInv(kind, es);
    ListenerExactly(kind, es);
    LimitsExactly(kind, es);
    var s := Run(Init(kind), es);
    assert s.table.conns.Keys == Current(s.handlers, s.stops);
    assert |s.table.conns| == |s.table.conns.Keys|;
    assert Lookup(s.table.byIP, ip) == |ConnsOf(s.table.conns, ip)|;
  }

  /** A connection that an accept loop still hands over although its listener is no longer the
      current one leaves no trace. */
  lemma {:induction false} StaleLeavesNoTrace(kind: Kind, es: seq<Event>, ln: nat, conn: nat, ip: string, key: string)
    requires Legal(Init(kind), es)
    requires var s := Run(Init(kind), es);
      && ln in s.loops && conn !in s.handlers && CurrentListener(es) != Some(ln)
      && forall c | c in s.live && c in s.handlers :: s.handlers[c].key != key
    ensures Legal(Init(kind), es + [Accept(ln, conn, ip, key)])
    ensures Run(Init(kind), es + [Accept(ln, conn, ip, key)]) == Run(Init(kind), es)
  {
    ListenerExactly(kind, es);
    OneMoreEvent(Init(kind), es, Run(Init(kind), es), Accept(ln, conn, ip, key));
  }

  ghost function Current(hs: Handlers, stops: nat): set<nat> {
    set c | c in hs && OnTable(hs[c].phase) && hs[c].admitted == stops
  }

  /** Two sources are at work on one mount only if CloseAll took the entry of one of them. */
  lemma {:induction false} OverlapOnlyAfterCloseAll(es: seq<Event>, c: nat, d: nat)
    requires Legal(Init(SourceSide), es) && c != d
    requires var hs := Run(Init(SourceSide), es).handlers;
      c in hs && d in hs && hs[c].phase.Active? && hs[d].phase.Active? && hs[c].mount == hs[d].mount
    ensures var hs := Run(Init(SourceSide), es).handlers;
      hs[c].removals == [ByCloseAll] || hs[d].removals == [ByCloseAll]
  {
    RunInv(SourceSide, es);
    KindKept(SourceSide, es);
    var s := Run(Init(SourceSide), es);
    ActiveRemoval(s.handlers[c]);
    ActiveRemoval(s.handlers[d]);
    if s.handlers[c].removals == [] && s.handlers[d].removals == [] {
      SameMountSameHandler(s.registry, s.handlers, c, d);
    }
  }

  // ---------- an overlap ----------

  ghost predicate Reaches(init: State, es: seq<Event>, s: State) {
    Legal(init, es) && Run(init, es) == s
  }

  lemma OneMoreEvent(init: State, es: seq<Event>, s: State, e: Event)
    requires Reaches(init, es, s) && Enabled(s, e)
    ensures Reaches(init, es + [e], Apply(s, e))
  {
    assert (es + [e])[..|es|] == es;
  }

  lemma SourceAdmitted(es: seq<Event>, s: State, ln: nat, c: nat, key: string) returns (es': seq<Event>, s': State)
    requires Reaches(Init(SourceSide), es, s) && s.kind == SourceSide && ln in s.loops && c !in s.handlers
    requires s.table.ln == Some(ln) && s.table.conns == map[] && s.table.byIP == map[] && s.table.maxConns == 1024
    requires forall d | d in s.handlers :: s.handlers[d].key != key
    ensures Reaches(Init(SourceSide), es', s') && s'.kind == SourceSide && s'.registry == s.registry && In(s', c, Begun)
    ensures s'.handlers.Keys == s.handlers.Keys + {c} && forall d | d in s.handlers :: s'.handlers[d] == s.handlers[d]
    ensures s'.handlers[c].key == key && s'.table.maxConns == 1024 && s'.loops == s.loops && s'.nextLn == s.nextLn
  {
    var e := Accept(ln, c, "10.0.0.1", key);
    OneMoreEvent(Init(SourceSide), es, s, e);
    es', s' := es + [e], Apply(s, e);
  }

  lemma SourceClaims(es: seq<Event>, s: State, c: nat, mount: string) returns (es': seq<Event>, s': State)
    requires Reaches(Init(SourceSide), es, s) && s.kind == SourceSide && In(s, c, Begun) && s.registry == map[]
    ensures Reaches(Init(SourceSide), es', s') && s'.kind == SourceSide
    ensures s'.handlers.Keys == s.handlers.Keys && forall d | d in s.handlers && d != c :: s'.handlers[d] == s.handlers[d]
    ensures In(s', c, Active) && s'.handlers[c].mount == mount && s'.handlers[c].key == s.handlers[c].key
    ensures s'.table == s.table && s'.loops == s.loops && s'.nextLn == s.nextLn
  {
    es', s' := es, s;
    OneMoreEvent(Init(SourceSide), es', s', Claim(c, mount));
    es', s' := es' + [Claim(c, mount)], Apply(s', Claim(c, mount));
    OneMoreEvent(Init(SourceSide), es', s', Respond(c, true));
    es', s' := es' + [Respond(c, true)], Apply(s', Respond(c, true));
    OneMoreEvent(Init(SourceSide), es', s', Announce(c));
    es', s' := es' + [Announce(c)], Apply(s', Announce(c));
  }

  lemma Restarted(es: seq<Event>, s: State) returns (es': seq<Event>, s': State)
    requires Reaches(Init(SourceSide), es, s) && s.kind == SourceSide && s.table.maxConns == 1024
    ensures Reaches(Init(SourceSide), es', s') && s'.kind == SourceSide
    ensures s'.registry == map[] && s'.table.conns == map[] && s'.table.byIP == map[] && s'.table.maxConns == 1024
    ensures s'.table.ln == Some(s.nextLn) && s.nextLn in s'.loops && s'.handlers == ClosedAll(s.registry, s.handlers)
  {
    es', s' := es, s;
    OneMoreEvent(Init(SourceSide), es', s', StopTables);
    es', s' := es' + [StopTables], Apply(s', StopTables);
    OneMoreEvent(Init(SourceSide), es', s', CloseAll);
    es', s' := es' + [CloseAll], Apply(s', CloseAll);
    OneMoreEvent(Init(SourceSide), es', s', Start);
    es', s' := es' + [Start], Apply(s', Start);
  }

  lemma FirstStart() returns (es: seq<Event>, s: State)
    ensures Reaches(Init(SourceSide), es, s) && s == Apply(Init(SourceSide), Start)
  {
    OneMoreEvent(Init(SourceSide), [], Init(SourceSide), Start);
    es, s := [] + [Start], Apply(Init(SourceSide), Start);
  }

  /** And it does happen: a caster that is stopped and started again, before the handler of its
      source has noticed, lets a second source have the mount. */
  lemma {:induction false} OverlapAfterRestart(mount: string) returns (es: seq<Event>)
    ensures Legal(Init(SourceSide), es)
    ensures var s := Run(Init(SourceSide), es);
      In(s, 1, Active) && In(s, 2, Active) && s.handlers[1].mount == s.handlers[2].mount == mount
  {
    var s;
    es, s := FirstStart();
    es, s := SourceAdmitted(es, s, 0, 1, "a");
    es, s := SourceClaims(es, s, 1, mount);
    es, s := Restarted(es, s);
    assert s.handlers[1].key == "a" && s.handlers[1].phase.Active? && s.handlers[1].mount == mount;
    es, s := SourceAdmitted(es, s, 1, 2, "b");
    es, s := SourceClaims(es, s, 2, mount);
    RunInv(SourceSide, es);
    assert !s.handlers[1].phase.Gone?;
  }

  lemma SameMountSameHandler(registry: map<string, Entry>, hs: Handlers, c: nat, d: nat)
    requires RegistryOk(registry, hs) && KindOk(SourceSide, registry) && c in hs && d in hs
    requires hs[c].inserted && hs[d].inserted && hs[c].removals == hs[d].removals == [] && hs[c].mount == hs[d].mount
    ensures c == d
  {
    assert Owns(registry, hs, hs[c].key);
    assert Owns(registry, hs, hs[d].key);
  }

  lemma ActiveRemoval(h: Handler)
    requires HandlerOk(SourceSide, h) && h.phase.Active?
    ensures h.inserted && (h.removals == [] || h.removals == [ByCloseAll])
  {
    if h.removals != [] {
      var who := h.removals[0];
      assert h.removals == [who] && who in h.removals;
      assert CasterHandlerOk(h);
      assert who != ByHandler && who != ByFailedResponse;
    }
  }

  lemma {:induction false} KindKept(kind: Kind, es: seq<Event>)
    requires Legal(Init(kind), es)
    ensures Run(Init(kind), es).kind == kind
  {
    if es != [] {
      KindKept(kind, es[..|es| - 1]);
      StepKeepsKind(Run(Init(kind), es[..|es| - 1]), es[|es| - 1]);
    }
  }

  lemma StepKeepsKind(s: State, e: Event)
    requires Enabled(s, e)
    ensures Apply(s, e).kind == s.kind
  {
  }

  /** On either side of the caster, when a handler is gone its registry entry, if it made
      one, was removed exactly once. The disconnect callback was called exactly when the
      handler itself removed it, and then the connect callback had been called before. */
  lemma {:induction false} RemovedExactlyOnce(kind: Kind, es: seq<Event>, c: nat)
    requires Legal(Init(kind), es) && kind != TcpServer
    requires c in Run(Init(kind), es).handlers
    ensures var s := Run(Init(kind), es);
      var h := s.handlers[c];
      && |h.removals| <= 1 && h.disconnects <= h.connects <= 1
      && (h.inserted && h.removals == [] <==> h.key in s.registry && s.registry[h.key].conn == c)
      && (h.phase.Gone? && h.inserted ==> |h.removals| == 1)
      && (h.phase.Gone? ==> (h.disconnects == 1 <==> h.removals == [ByHandler]))
  {
    RunInv(kind, es);
    KindKept(kind, es);
    var s := Run(Init(kind), es);
    RemovedOnce(kind, s.registry, s.handlers, c);
  }

  lemma RemovedOnce(kind: Kind, registry: map<string, Entry>, hs: Handlers, c: nat)
    requires kind != TcpServer && HandlersOk(kind, hs) && RegistryOk(registry, hs) && c in hs
    ensures var h := hs[c];
      && |h.removals| <= 1 && h.disconnects <= h.connects <= 1
      && (h.inserted && h.removals == [] <==> h.key in registry && registry[h.key].conn == c)
      && (h.phase.Gone? && h.inserted ==> |h.removals| == 1)
      && (h.phase.Gone? ==> (h.disconnects == 1 <==> h.removals == [ByHandler]))
  {
    var h := hs[c];
    assert HandlerOk(kind, h);
    assert ByHandler in h.removals <==> h.removals == [ByHandler];
    if h.key in registry {
      assert Owns(registry, hs, h.key);
    }
  }

  /** On the TCP server a handler that is gone called the connect callback once, and the
      disconnect callback exactly when no Stop came between its admission and its leave. */
  lemma {:induction false} TcpDisconnectExactly(es: seq<Event>, c: nat)
    requires Legal(Init(TcpServer), es) && c in Run(Init(TcpServer), es).handlers
    requires Run(Init(TcpServer), es).handlers[c].phase.Gone?
    ensures var h := Run(Init(TcpServer), es).handlers[c];
      && h.connects == 1 && h.disconnects <= 1
      && (h.disconnects == 1 <==> h.owned)
      && (h.owned <==> h.admitted == h.released)
  {
    RunInv(TcpServer, es);
    KindKept(TcpServer, es);
    assert HandlerOk(TcpServer, Run(Init(TcpServer), es).handlers[c]);
  }

  // ---------- what each step does, in one place ----------

  predicate OfRegistry(e: Event) {
    e.Claim? || e.Enter? || e.Respond? || e.Delete? || e.CloseAll?
  }

  /** What a step does to the registry: a source's claim of a free mount and a subscriber's entry
      file the handler under its key; a failed response, a Delete of a caster's handler and
      CloseAll take entries out; ... */
  lemma {:induction false} RegistryAfter(s: State, e: Event)
    requires Inv(s) && Enabled(s, e) && OfRegistry(e)
    ensures Apply(s, e).registry ==
            match e
            case Claim(c, mount) =>
              if exists k :: k in s.registry && s.registry[k].mount == mount then s.registry
              else s.registry[s.handlers[c].key := Entry(c, mount)]
            case Enter(c, mount) => s.registry[s.handlers[c].key := Entry(c, mount)]
            case Respond(c, ok) => if ok then s.registry else s.registry - {s.handlers[c].key}
            case Delete(c) => if s.kind == TcpServer then s.registry else s.registry - {s.handlers[c].key}
            case _ => map[]
  {
    if e.Respond? || e.Delete? {
      RemovedKey(s, s.handlers[e.conn].key, if e.Respond? then ByFailedResponse else ByHandler);
    }
  }

  lemma RemovedKey(s: State, key: string, who: Remover)
    ensures Remove(s, key, who).registry == s.registry - {key}
  {
    assert key !in s.registry ==> s.registry - {key} == s.registry;
  }

  /** ... and nothing else touches it. */
  lemma RegistryUntouched(s: State, e: Event)
    requires Enabled(s, e) && !OfRegistry(e)
    ensures Apply(s, e).registry == s.registry
  {
  }

  /** How far a step takes the handler it is about. */
  function NextPhase(s: State, e: Event, h: Handler): Phase {
    match e
    case Claim(_, mount) => if exists k :: k in s.registry && s.registry[k].mount == mount then Leaving else Claimed
    case Respond(_, ok) => if ok then Entered else Leaving
    case Enter(_, _) => Entered
    case Announce(_) => Active
    case Leave(_) => Leaving
    case Release(_) => Released
    case Delete(c) => Deleted(if s.kind == TcpServer then h.owned else h.key in s.registry)
    case Notify(_) => Done
    case _ => Gone
  }

  predicate OfHandler(e: Event) {
    e.Claim? || e.Respond? || e.Enter? || e.Announce? || e.Leave? || e.Release? || e.Delete? || e.Notify? || e.Finish?
  }

  /** A handler goes through its phases in order; it calls the connect callback exactly when it is
      announced, and the disconnect callback exactly when its own Delete found its entry. */
  lemma HandlerAfter(s: State, e: Event)
    requires Inv(s) && Enabled(s, e) && OfHandler(e)
    ensures e.conn in Apply(s, e).handlers
    ensures var h, h' := s.handlers[e.conn], Apply(s, e).handlers[e.conn];
      && h'.phase == NextPhase(s, e, h)
      && h'.connects == h.connects + (if e.Announce? then 1 else 0)
      && h'.disconnects == h.disconnects + (if e.Notify? && h.phase == Deleted(true) then 1 else 0)
      && h'.key == h.key
  {
    if e.Respond? || e.Delete? {
      OwnKey(s.registry, s.handlers, s.live, e.conn);
    }
  }

  /** What the wait group counts: one for each accept loop, speed loop and handler, added by Start
      and by an admission, ... */
  lemma WaitGroupAfter(s: State, e: Event)
    requires Inv(s) && Enabled(s, e) && (e.Start? || e.Accept? || e.LoopExit? || e.SpeedExit? || e.Finish?)
    ensures Apply(s, e).wg == s.wg +
            (match e
             case Start => if s.kind == SourceSide then 2 else 1
             case Accept(ln, _, ip, _) => if Judge(s.table, ln, ip) == Admitted then 1 else 0
             case _ => -1)
  {
  }

  /** ... and nothing else changes it. */
  lemma WaitGroupUntouched(s: State, e: Event)
    requires Enabled(s, e) && !e.Start? && !e.Accept? && !e.LoopExit? && !e.SpeedExit? && !e.Finish?
    ensures Apply(s, e).wg == s.wg
  {
  }
}
