/** The one connection slot of an NTRIP client and everything that races for it: the reader
    of each connection, its idle monitor and GGA sender, Connect giving up, Stop, and the
    next Start. A connection's identity is never reused, and startMu keeps Start and Stop
    apart. The quit channel only decides when the goroutines may leave; here they may leave
    at any time. */
module ClientSlot {
  import opened Common

  // ---------- the slot ----------

  function Cleared(slot: Option<nat>, conn: nat): Option<nat> {
    if slot == Some(conn) then None else slot
  }

  class Slot {
    var conn: Option<nat>
    var closed: set<nat>   // the connections that Close was called on

    constructor ()
      ensures conn == None && closed == {}
    {
      conn, closed := None, {};
    }

    method ReplaceConn(next: nat) returns (old_: Option<nat>)
      modifies `conn
      ensures old_ == old(conn) && conn == Some(next)
    {
      old_ := conn;
      conn := Some(next);
    }

    method ClearConnIfCurrent(current: nat) returns (wasCurrent: bool)
      modifies `conn
      ensures wasCurrent <==> old(conn) == Some(current)
      ensures conn == Cleared(old(conn), current)
    {
      if conn == Some(current) {
        conn := None;
        return true;
      }
      return false;
    }

    method CloseConnIfCurrent(current: nat) returns (wasCurrent: bool)
      modifies `conn, `closed
      ensures wasCurrent <==> old(conn) == Some(current)
      ensures conn == Cleared(old(conn), current) && closed == old(closed) + {current}
    {
      wasCurrent := ClearConnIfCurrent(current);
      closed := closed + {current};
    }

    method CloseConn()
      modifies `conn, `closed
      ensures conn == None
      ensures closed == old(closed) + if old(conn).Some? then {old(conn).value} else {}
    {
      var old_ := conn;
      conn := None;
      if old_.Some? {
        closed := closed + {old_.value};
      }
    }
  }

  // ---------- one connection ----------

  datatype Remover = Superseded | ByStop | ByCancel | ByStartFailure | ByRefusal | ByReader | ByIdle | ByGga

  datatype Reader =
    | NotStarted
    | Reading             // no success header yet
    | Refusing            // a refusal was reported, the slot not yet cleared
    | Confirmed           // success header read and the connection found in the slot
    | Announcing          // connected is set
    | Announced           // ... and success reported
    | Streaming           // ... and the connect callback called
    | Told(removed: bool) // leaving: the slot was cleared, or was another's
    | Reporting           // ... past the disconnect callback
    | Ending              // only the deferred report is left
    | Ended

  datatype Monitor = Off | Watching | Noticed(removed: bool)

  datatype Report = Success | Failure

  datatype Conn = Conn(
    hasChan: bool,            // authResult is not nil
    removals: seq<Remover>,   // history: how it left the slot
    connected: bool,
    connects: nat,
    disconnects: nat,         // bounded by disconnectOnce
    reports: seq<Report>,     // what was put on authResult; bounded by authOnce
    reader: Reader,
    idle: Monitor,
    gga: Monitor
  )

  datatype State = State(slot: Option<nat>, starting: Option<nat>, conns: map<nat, Conn>)

  datatype Who = Idle | Gga

  datatype Event =
    | Place(c: nat, hasChan: bool)
    | StartFails
    | Spawn
    | Stop
    | Cancel(c: nat)
    | ReaderLeaves(c: nat)
    | ReaderNotifies(c: nat)
    | ReaderReports(c: nat)
    | Refuse(c: nat)
    | RefuseClears(c: nat)
    | Confirm(c: nat)
    | FindReplaced(c: nat)
    | SetConnected(c: nat)
    | ReportSuccess(c: nat)
    | Greet(c: nat, gga: bool)
    | End(c: nat)
    | MonitorClears(c: nat, who: Who)
    | MonitorNotifies(c: nat, who: Who)
    | MonitorLeaves(c: nat, who: Who)

  function Watch(k: Conn, who: Who): Monitor {
    if who.Idle? then k.idle else k.gga
  }

  function SetWatch(k: Conn, who: Who, m: Monitor): Conn {
    if who.Idle? then k.(idle := m) else k.(gga := m)
  }

  predicate Is(s: State, c: nat, r: Reader) {
    c in s.conns && s.conns[c].reader == r
  }

  predicate Enabled(s: State, e: Event) {
    match e
    case Place(c, _) => s.starting == None && c !in s.conns
    case StartFails => s.starting.Some? && Is(s, s.starting.value, NotStarted)
    case Spawn => s.starting.Some? && Is(s, s.starting.value, NotStarted)
    case Stop => s.starting == None
    case Cancel(c) => c in s.conns && !s.conns[c].reader.NotStarted?
    case ReaderLeaves(c) => Is(s, c, Reading) || Is(s, c, Streaming)
    case ReaderNotifies(c) => c in s.conns && s.conns[c].reader.Told?
    case ReaderReports(c) => Is(s, c, Reporting)
    case Refuse(c) => Is(s, c, Reading)
    case RefuseClears(c) => Is(s, c, Refusing)
    case Confirm(c) => Is(s, c, Reading) && s.slot == Some(c)
    case FindReplaced(c) => Is(s, c, Reading) && s.slot != Some(c)
    case SetConnected(c) => Is(s, c, Confirmed)
    case ReportSuccess(c) => Is(s, c, Announcing)
    case Greet(c, _) => Is(s, c, Announced)
    case End(c) => Is(s, c, Reporting) || Is(s, c, Ending)
    case MonitorClears(c, who) => c in s.conns && Watch(s.conns[c], who).Watching?
    case MonitorNotifies(c, who) => c in s.conns && Watch(s.conns[c], who).Noticed?
    case MonitorLeaves(c, who) => c in s.conns && Watch(s.conns[c], who).Watching?
  }

  /** reportAuth: the first value goes to the channel, if there is one. */
  function Reported(k: Conn, v: Report): Conn {
    if k.hasChan && k.reports == [] then k.(reports := [v]) else k
  }

  /** notifyDisconnect, called by a goroutine that cleared the slot. */
  function Notified(k: Conn, removed: bool): Conn {
    if removed && k.connected && k.disconnects == 0 then k.(disconnects := 1) else k
  }

  function Put(s: State, c: nat, k: Conn): State {
    s.(conns := s.conns[c := k])
  }

  /** clearConnIfCurrent by `who` for connection c, which goes on as k. */
  function Clear(s: State, c: nat, k: Conn, who: Remover): State {
    Put(s.(slot := Cleared(s.slot, c)), c,
        if s.slot == Some(c) then k.(removals := k.removals + [who]) else k)
  }

  function Evict(s: State, who: Remover): State {
    if s.slot.Some? && s.slot.value in s.conns then Clear(s, s.slot.value, s.conns[s.slot.value], who) else s
  }

  function Apply(s: State, e: Event): State
    requires Enabled(s, e)
  {
    match e
    case Place(c, hasChan) =>
      var t := Evict(s, Superseded);
      Put(t, c, Conn(hasChan, [], false, 0, 0, [], NotStarted, Off, Off)).(slot := Some(c), starting := Some(c))
    case StartFails =>
      var c := s.starting.value;
      Clear(s, c, s.conns[c], ByStartFailure).(starting := None)
    case Spawn =>
      var c := s.starting.value;
      Put(s, c, s.conns[c].(reader := Reading, idle := Watching)).(starting := None)
    case Stop => Evict(s, ByStop)
    case Cancel(c) => Clear(s, c, s.conns[c], ByCancel)
    case ReaderLeaves(c) => Clear(s, c, s.conns[c].(reader := Told(s.slot == Some(c))), ByReader)
    case RefuseClears(c) => Clear(s, c, s.conns[c].(reader := Ending), ByRefusal)
    case MonitorClears(c, who) =>
      Clear(s, c, SetWatch(s.conns[c], who, Noticed(s.slot == Some(c))), if who.Idle? then ByIdle else ByGga)
    case _ => Put(s, e.c, Local(s.conns[e.c], e))
  }

  /** The steps that leave the slot alone. */
  predicate IsLocal(e: Event) {
    OfReader(e) || OfMonitor(e)
  }

  predicate OfReader(e: Event) {
    e.ReaderNotifies? || e.ReaderReports? || e.Refuse? || e.Confirm? || e.FindReplaced?
    || e.SetConnected? || e.ReportSuccess? || e.Greet? || e.End?
  }

  predicate OfMonitor(e: Event) {
    e.MonitorNotifies? || e.MonitorLeaves?
  }

  function Local(k: Conn, e: Event): Conn
    requires IsLocal(e) && (e.ReaderNotifies? ==> k.reader.Told?)
    requires e.MonitorNotifies? ==> Watch(k, e.who).Noticed?
  {
    match e
    case ReaderNotifies(_) => Notified(k, k.reader.removed).(reader := Reporting)
    case ReaderReports(_) => Reported(k, Failure).(reader := Ending)
    case Refuse(_) => Reported(k, Failure).(reader := Refusing)
    case Confirm(_) => k.(reader := Confirmed)
    case FindReplaced(_) => Reported(k, Failure).(reader := Ending)
    case SetConnected(_) => k.(connected := true, reader := Announcing)
    case ReportSuccess(_) => Reported(k, Success).(reader := Announced)
    case Greet(_, gga) => k.(connects := k.connects + 1, gga := if gga then Watching else k.gga, reader := Streaming)
    case End(_) => Reported(k, Failure).(reader := Ended)
    case MonitorNotifies(_, who) => SetWatch(Notified(k, Watch(k, who).removed), who, Off)
    case MonitorLeaves(_, who) => SetWatch(k, who, Off)
  }

  ghost predicate Legal(s: State, es: seq<Event>)
    decreases |es|, 0
  {
    es == [] ||
    (Legal(s, es[..|es| - 1]) && Enabled(Run(s, es[..|es| - 1]), es[|es| - 1]))
  }

  ghost function Run(s: State, es: seq<Event>): State
    requires Legal(s, es)
    decreases |es|, 1
  {
    if es == [] then s else Apply(Run(s, es[..|es| - 1]), es[|es| - 1])
  }

  const NO_CONNECTION: State := State(None, None, map[])

  // ---------- invariants ----------

  predicate LeftBy(k: Conn, who: Remover) {
    |k.removals| > 0 && k.removals[0] == who
  }

  predicate LeftByItsOwn(k: Conn) {
    LeftBy(k, ByReader) || LeftBy(k, ByIdle) || LeftBy(k, ByGga)
  }

  predicate Early(r: Reader) {
    r.NotStarted? || r.Reading? || r.Refusing? || r.Confirmed?
  }

  predicate Late(r: Reader) {
    r.Announcing? || r.Announced? || r.Streaming?
  }

  predicate ReportsOk(k: Conn) {
    && (!k.hasChan ==> k.reports == [])
    && (Early(k.reader) ==> !k.connected) && (Late(k.reader) ==> k.connected)
    && (k.reader.NotStarted? || k.reader.Reading? || k.reader.Confirmed? || k.reader.Announcing? ==> k.reports == [])
    && (k.hasChan && k.connected && !k.reader.Announcing? ==> k.reports == [Success])
    && (!k.connected ==> k.reports == [] || k.reports == [Failure])
    && (k.hasChan && (k.reader.Refusing? || k.reader.Ending? || k.reader.Ended?) ==> k.reports != [])
  }

  predicate RemovalsOk(k: Conn) {
    && |k.removals| <= 1
    && (k.reader == Told(true) ==> LeftBy(k, ByReader))
    && (k.idle == Noticed(true) ==> LeftBy(k, ByIdle))
    && (k.gga == Noticed(true) ==> LeftBy(k, ByGga))
    && k.disconnects <= 1
    && (k.disconnects == 1 ==> k.connected && LeftByItsOwn(k))
    && (LeftBy(k, ByReader) ==> k.reader == Told(true) || k.reader.Reporting? || k.reader.Ending? || k.reader.Ended?)
    && (LeftBy(k, ByRefusal) ==> (k.reader.Ending? || k.reader.Ended?) && !k.connected)
    && (LeftBy(k, ByReader) && !k.reader.Told? ==> k.disconnects == if k.connected then 1 else 0)
  }

  /** The connect callback comes once, and the GGA sender runs only after it. */
  predicate GreetingOk(k: Conn) {
    && k.connects <= 1
    && (k.connects == 1 <==> k.connected && !k.reader.Announcing? && !k.reader.Announced?)
    && (k.connects == 0 ==> k.gga.Off? && !LeftBy(k, ByGga))
    && (LeftBy(k, ByGga) ==> k.gga == Noticed(true) || (k.gga.Off? && k.disconnects == 1))
  }

  ghost predicate SlotOk(slot: Option<nat>, conns: map<nat, Conn>) {
    && (slot.Some? ==> slot.value in conns)
    && (forall c | c in conns :: slot == Some(c) <==> conns[c].removals == [])
  }

  ghost predicate Inv(s: State) {
    && SlotOk(s.slot, s.conns)
    && (forall c | c in s.conns :: ReportsOk(s.conns[c]) && RemovalsOk(s.conns[c]) && GreetingOk(s.conns[c]))
  }

  lemma PutStep(s: State, c: nat, k: Conn)
    requires Inv(s) && c in s.conns && k.removals == s.conns[c].removals && ReportsOk(k) && RemovalsOk(k) && GreetingOk(k)
    ensures Inv(Put(s, c, k))
  {
  }

  lemma ClearStep(s: State, c: nat, k: Conn, who: Remover)
    requires Inv(s) && c in s.conns && k.removals == s.conns[c].removals && ReportsOk(k)
    requires var l := if s.slot == Some(c) then k.(removals := k.removals + [who]) else k; RemovalsOk(l) && GreetingOk(l)
    ensures Inv(Clear(s, c, k, who))
  {
  }

  /** A connection that is still in the slot has not been announced as gone by anyone. */
  lemma EvictStep(s: State, who: Remover)
    requires Inv(s) && (who.Superseded? || who.ByStop?)
    ensures Inv(Evict(s, who)) && (Evict(s, who).slot == None) && Evict(s, who).conns.Keys == s.conns.Keys
  {
    if s.slot.Some? {
      var c := s.slot.value;
      assert s.conns[c].removals == [];
      ClearStep(s, c, s.conns[c], who);
    }
  }

  lemma StarterStep(s: State, e: Event)
    requires Inv(s) && Enabled(s, e) && (e.Place? || e.StartFails? || e.Spawn? || e.Stop? || e.Cancel?)
    ensures Inv(Apply(s, e))
  {
    match e
    case Place(c, hasChan) =>
      EvictStep(s, Superseded);
    case StartFails =>
      ClearStep(s, s.starting.value, s.conns[s.starting.value], ByStartFailure);
    case Spawn =>
      PutStep(s, s.starting.value, s.conns[s.starting.value].(reader := Reading, idle := Watching));
    case Stop => EvictStep(s, ByStop);
    case Cancel(c) => ClearStep(s, c, s.conns[c], ByCancel);
  }

  lemma ReaderLeavesStep(s: State, c: nat)
    requires Inv(s) && Enabled(s, ReaderLeaves(c))
    ensures Inv(Apply(s, ReaderLeaves(c)))
  {
    ClearStep(s, c, s.conns[c].(reader := Told(s.slot == Some(c))), ByReader);
  }

  lemma RefuseClearsStep(s: State, c: nat)
    requires Inv(s) && Enabled(s, RefuseClears(c))
    ensures Inv(Apply(s, RefuseClears(c)))
  {
    ClearStep(s, c, s.conns[c].(reader := Ending), ByRefusal);
  }

  lemma MonitorClearsStep(s: State, c: nat, who: Who)
    requires Inv(s) && Enabled(s, MonitorClears(c, who))
    ensures Inv(Apply(s, MonitorClears(c, who)))
  {
    ClearStep(s, c, SetWatch(s.conns[c], who, Noticed(s.slot == Some(c))), if who.Idle? then ByIdle else ByGga);
  }

  lemma ClearingStep(s: State, e: Event)
    requires Inv(s) && Enabled(s, e) && (e.ReaderLeaves? || e.RefuseClears? || e.MonitorClears?)
    ensures Inv(Apply(s, e))
  {
    match e
    case ReaderLeaves(c) => ReaderLeavesStep(s, c);
    case RefuseClears(c) => RefuseClearsStep(s, c);
    case MonitorClears(c, who) => MonitorClearsStep(s, c, who);
  }

  lemma ReaderReports(k: Conn, e: Event, s: State)
    requires ReportsOk(k) && OfReader(e) && Enabled(s, e) && s.conns[e.c] == k
    ensures ReportsOk(Local(k, e)) && Local(k, e).removals == k.removals
  {
  }

  lemma ReaderRemovals(k: Conn, e: Event, s: State)
    requires ReportsOk(k) && RemovalsOk(k) && OfReader(e) && Enabled(s, e) && s.conns[e.c] == k
    ensures RemovalsOk(Local(k, e))
  {
  }

  lemma ReaderGreeting(k: Conn, e: Event, s: State)
    requires ReportsOk(k) && RemovalsOk(k) && GreetingOk(k) && OfReader(e) && Enabled(s, e) && s.conns[e.c] == k
    ensures GreetingOk(Local(k, e))
  {
  }

  lemma MonitorLocal(k: Conn, e: Event)
    requires ReportsOk(k) && RemovalsOk(k) && GreetingOk(k) && OfMonitor(e)
    requires if e.MonitorNotifies? then Watch(k, e.who).Noticed? else Watch(k, e.who).Watching?
    ensures ReportsOk(Local(k, e)) && RemovalsOk(Local(k, e)) && Local(k, e).removals == k.removals
    ensures GreetingOk(Local(k, e))
  {
  }

  lemma ReaderStep(s: State, e: Event)
    requires Inv(s) && Enabled(s, e) && OfReader(e)
    ensures Inv(Apply(s, e))
  {
    var k := s.conns[e.c];
    ReaderReports(k, e, s);
    ReaderRemovals(k, e, s);
    ReaderGreeting(k, e, s);
    PutStep(s, e.c, Local(k, e));
  }

  lemma MonitorStep(s: State, e: Event)
    requires Inv(s) && Enabled(s, e) && OfMonitor(e)
    ensures Inv(Apply(s, e))
  {
    MonitorLocal(s.conns[e.c], e);
    PutStep(s, e.c, Local(s.conns[e.c], e));
  }

  lemma {:induction false} RunInv(es: seq<Event>)
    requires Legal(NO_CONNECTION, es)
    ensures Inv(Run(NO_CONNECTION, es))
  {
    if es != [] {
      RunInv(es[..|es| - 1]);
      var s, e := Run(NO_CONNECTION, es[..|es| - 1]), es[|es| - 1];
      if e.Place? || e.StartFails? || e.Spawn? || e.Stop? || e.Cancel? {
        StarterStep(s, e);
      } else if e.ReaderLeaves? || e.RefuseClears? || e.MonitorClears? {
        ClearingStep(s, e);
      } else if OfReader(e) {
        ReaderStep(s, e);
      } else {
        MonitorStep(s, e);
      }
    }
  }

  // ---------- main results ----------

  /** The idle monitor reported the end of the connection after authentication had succeeded. */
  predicate ToldWhenConnected(es: seq<Event>, c: nat) {
    es != [] &&
    (ToldWhenConnected(es[..|es| - 1], c)
     || (es[|es| - 1] == MonitorNotifies(c, Idle) && SetConnected(c) in es[..|es| - 1]))
  }

  /** What the idle monitor of k has done, and whether authentication succeeded, read off the run. */
  ghost predicate IdleHistory(k: Conn, es: seq<Event>, c: nat) {
    && (k.connected <==> SetConnected(c) in es)
    && (!k.idle.Off? || k.reader.NotStarted? ==> MonitorNotifies(c, Idle) !in es && !ToldWhenConnected(es, c))
    && (LeftBy(k, ByIdle) ==> k.idle == Noticed(true) || k.idle.Off?)
    && (LeftBy(k, ByIdle) && k.idle.Off? ==> (k.disconnects == 1 <==> ToldWhenConnected(es, c)))
    && (LeftBy(k, ByIdle) && !k.idle.Off? ==> k.disconnects == 0)
    && (k.reader.NotStarted? ==> k.idle.Off? && !LeftBy(k, ByIdle))
  }

  ghost predicate NotYet(es: seq<Event>, c: nat) {
    SetConnected(c) !in es && MonitorNotifies(c, Idle) !in es && !ToldWhenConnected(es, c)
  }

  lemma OneMore(es: seq<Event>, e: Event, c: nat)
    ensures ToldWhenConnected(es + [e], c) <==>
            ToldWhenConnected(es, c) || (e == MonitorNotifies(c, Idle) && SetConnected(c) in es)
    ensures forall f :: f in es + [e] <==> f in es || f == e
  {
    assert (es + [e])[..|es|] == es;
  }

  /** A step changes nothing of a connection but the one it is about and, for Place and Stop, the
      one it takes out of the slot. */
  lemma StepOther(s: State, e: Event, c: nat)
    requires Inv(s) && Enabled(s, e) && c in s.conns && !About(s, e, c)
    ensures c in Apply(s, e).conns
    ensures var k, l := s.conns[c], Apply(s, e).conns[c];
      l == k || ((e.Place? || e.Stop?) && s.slot == Some(c)
                 && l == k.(removals := k.removals + [if e.Place? then Superseded else ByStop]))
  {
  }

  predicate About(s: State, e: Event, c: nat) {
    match e
    case Place(_, _) => false
    case Stop => false
    case StartFails => s.starting == Some(c)
    case Spawn => s.starting == Some(c)
    case _ => e.c == c
  }

  lemma OtherKeepsHistory(s: State, e: Event, es: seq<Event>, c: nat)
    requires Inv(s) && Enabled(s, e) && c in s.conns && !About(s, e, c) && IdleHistory(s.conns[c], es, c)
    ensures c in Apply(s, e).conns && IdleHistory(Apply(s, e).conns[c], es + [e], c)
  {
    StepOther(s, e, c);
    OneMore(es, e, c);
  }

  lemma StartKeepsHistory(s: State, e: Event, es: seq<Event>, c: nat)
    requires Inv(s) && Enabled(s, e) && c in s.conns && About(s, e, c) && IdleHistory(s.conns[c], es, c)
    requires e.StartFails? || e.Spawn? || e.Cancel?
    ensures c in Apply(s, e).conns && IdleHistory(Apply(s, e).conns[c], es + [e], c)
  {
    OneMore(es, e, c);
  }

  lemma ClearsKeepHistory(s: State, e: Event, es: seq<Event>, c: nat)
    requires Inv(s) && Enabled(s, e) && c in s.conns && About(s, e, c) && IdleHistory(s.conns[c], es, c)
    requires e.ReaderLeaves? || e.RefuseClears? || e.MonitorClears?
    ensures c in Apply(s, e).conns && IdleHistory(Apply(s, e).conns[c], es + [e], c)
  {
    OneMore(es, e, c);
  }

  lemma LocalKeepsHistory(k: Conn, e: Event, s: State, es: seq<Event>)
    requires OfReader(e) && ReportsOk(k) && RemovalsOk(k) && IdleHistory(k, es, e.c)
    requires Enabled(s, e) && s.conns[e.c] == k
    ensures IdleHistory(Local(k, e), es + [e], e.c)
  {
    OneMore(es, e, e.c);
  }

  lemma MonitorKeepsHistory(k: Conn, e: Event, es: seq<Event>)
    requires OfMonitor(e) && ReportsOk(k) && RemovalsOk(k) && IdleHistory(k, es, e.c)
    requires if e.MonitorNotifies? then Watch(k, e.who).Noticed? else Watch(k, e.who).Watching?
    ensures IdleHistory(Local(k, e), es + [e], e.c)
  {
    OneMore(es, e, e.c);
  }

  lemma {:induction false} HistoryRun(es: seq<Event>, c: nat)
    requires Legal(NO_CONNECTION, es)
    ensures var s := Run(NO_CONNECTION, es);
      if c in s.conns then IdleHistory(s.conns[c], es, c) else NotYet(es, c)
  {
    if es != [] {
      var before, e := es[..|es| - 1], es[|es| - 1];
      var s := Run(NO_CONNECTION, before);
      HistoryRun(before, c);
      RunInv(before);
      assert es == before + [e];
      HistoryStep(s, e, before, c);
    }
  }

  lemma HistoryStep(s: State, e: Event, es: seq<Event>, c: nat)
    requires Inv(s) && Enabled(s, e)
    requires if c in s.conns then IdleHistory(s.conns[c], es, c) else NotYet(es, c)
    ensures var t := Apply(s, e);
      if c in t.conns then IdleHistory(t.conns[c], es + [e], c) else NotYet(es + [e], c)
  {
    if c !in s.conns {
      NewKeepsHistory(s, e, es, c);
    } else if !About(s, e, c) {
      OtherKeepsHistory(s, e, es, c);
    } else if OfReader(e) {
      LocalKeepsHistory(s.conns[c], e, s, es);
    } else if OfMonitor(e) {
      MonitorKeepsHistory(s.conns[c], e, es);
    } else if e.StartFails? || e.Spawn? || e.Cancel? {
      StartKeepsHistory(s, e, es, c);
    } else {
      ClearsKeepHistory(s, e, es, c);
    }
  }

  lemma NewKeepsHistory(s: State, e: Event, es: seq<Event>, c: nat)
    requires Inv(s) && Enabled(s, e) && c !in s.conns && NotYet(es, c)
    ensures var t := Apply(s, e);
      if c in t.conns then IdleHistory(t.conns[c], es + [e], c) else NotYet(es + [e], c)
  {
    OneMore(es, e, c);
  }

  /** Who watches the connection, read off the run: the idle monitor from Spawn on, the GGA sender
      from a Greet that wants it, each until it clears the slot or leaves. */
  ghost predicate WatchHistory(k: Conn, es: seq<Event>, c: nat) {
    && (k.idle.Watching? <==> !k.reader.NotStarted? && !LeftOff(es, c, Idle))
    && (k.reader.NotStarted? ==> !LeftOff(es, c, Idle))
    && (k.gga.Watching? <==> Greet(c, true) in es && !LeftOff(es, c, Gga))
    && (Greet(c, true) in es ==> k.connects > 0)
    && (LeftOff(es, c, Gga) ==> Greet(c, true) in es)
  }

  ghost predicate LeftOff(es: seq<Event>, c: nat, who: Who) {
    MonitorClears(c, who) in es || MonitorLeaves(c, who) in es
  }

  ghost predicate NotWatched(es: seq<Event>, c: nat) {
    Greet(c, true) !in es && !LeftOff(es, c, Idle) && !LeftOff(es, c, Gga)
  }

  lemma WatchedOther(s: State, e: Event, es: seq<Event>, c: nat)
    requires Inv(s) && Enabled(s, e) && c in s.conns && !About(s, e, c) && WatchHistory(s.conns[c], es, c)
    ensures c in Apply(s, e).conns && WatchHistory(Apply(s, e).conns[c], es + [e], c)
  {
    StepOther(s, e, c);
  }

  lemma WatchedLocal(k: Conn, e: Event, s: State, es: seq<Event>)
    requires IsLocal(e) && GreetingOk(k) && WatchHistory(k, es, e.c) && Enabled(s, e) && s.conns[e.c] == k
    ensures WatchHistory(Local(k, e), es + [e], e.c)
  {
  }

  lemma WatchedClear(s: State, e: Event, es: seq<Event>, c: nat)
    requires Inv(s) && Enabled(s, e) && c in s.conns && About(s, e, c) && !IsLocal(e) && WatchHistory(s.conns[c], es, c)
    ensures c in Apply(s, e).conns && WatchHistory(Apply(s, e).conns[c], es + [e], c)
  {
  }

  lemma WatchedNew(s: State, e: Event, es: seq<Event>, c: nat)
    requires Inv(s) && Enabled(s, e) && c !in s.conns && NotWatched(es, c)
    ensures var t := Apply(s, e);
      if c in t.conns then WatchHistory(t.conns[c], es + [e], c) else NotWatched(es + [e], c)
  {
  }

  lemma WatchedStep(s: State, e: Event, es: seq<Event>, c: nat)
    requires Inv(s) && Enabled(s, e)
    requires if c in s.conns then WatchHistory(s.conns[c], es, c) else NotWatched(es, c)
    ensures var t := Apply(s, e);
      if c in t.conns then WatchHistory(t.conns[c], es + [e], c) else NotWatched(es + [e], c)
  {
    if c !in s.conns {
      WatchedNew(s, e, es, c);
    } else if !About(s, e, c) {
      WatchedOther(s, e, es, c);
    } else if IsLocal(e) {
      WatchedLocal(s.conns[c], e, s, es);
    } else {
      WatchedClear(s, e, es, c);
    }
  }

  lemma {:induction false} WatchedRun(es: seq<Event>, c: nat)
    requires Legal(NO_CONNECTION, es)
    ensures var s := Run(NO_CONNECTION, es);
      if c in s.conns then WatchHistory(s.conns[c], es, c) else NotWatched(es, c)
  {
    if es != [] {
      var before, e := es[..|es| - 1], es[|es| - 1];
      WatchedRun(before, c);
      RunInv(before);
      assert es == before + [e];
      WatchedStep(Run(NO_CONNECTION, before), e, before, c);
    }
  }

  /** In every run a connection whose reader was started is watched by the idle monitor, and one
      that was greeted with a position to send by the GGA sender too, until that goroutine cleared
      the slot or left. */
  lemma {:induction false} WatchedExactly(es: seq<Event>, c: nat)
    requires Legal(NO_CONNECTION, es) && c in Run(NO_CONNECTION, es).conns
    ensures var k := Run(NO_CONNECTION, es).conns[c];
      && (k.idle.Watching? <==>
            !k.reader.NotStarted? && MonitorClears(c, Idle) !in es && MonitorLeaves(c, Idle) !in es)
      && (k.gga.Watching? <==>
            Greet(c, true) in es && MonitorClears(c, Gga) !in es && MonitorLeaves(c, Gga) !in es)
  {
    WatchedRun(es, c);
  }

  /** In every run a connection is in the slot exactly until the one removal it ever sees.
      The disconnect callback is called at most once, and only if authentication succeeded
      and the connection's own reader, idle monitor or GGA sender was that remover: never for
      one that Start replaced, Stop closed or Connect gave up. When it was one of those and has
      gone on from there, it was called: by the reader exactly if authentication succeeded; by
      the GGA sender always, since it only runs then; by the idle monitor exactly if
      authentication had succeeded before it reported. */
  lemma {:induction false} LeavesOnce(es: seq<Event>, c: nat)
    requires Legal(NO_CONNECTION, es) && c in Run(NO_CONNECTION, es).conns
    ensures var s := Run(NO_CONNECTION, es);
      var k := s.conns[c];
      && |k.removals| <= 1
      && (s.slot == Some(c) <==> k.removals == [])
      && k.disconnects <= 1
      && (k.disconnects == 1 ==> k.connected && LeftByItsOwn(k))
      && (LeftBy(k, ByReader) && k.reader.Ended? ==> (k.disconnects == 1 <==> SetConnected(c) in es))
      && (LeftBy(k, ByGga) && k.gga.Off? ==> k.disconnects == 1)
      && (LeftBy(k, ByIdle) && k.idle.Off? ==> (k.disconnects == 1 <==> ToldWhenConnected(es, c)))
      && (k.reader.Ended? ==> k.connects == if SetConnected(c) in es then 1 else 0)
  {
    RunInv(es);
    HistoryRun(es, c);
  }

  /** A handler that has ended put exactly one value on its authResult, so with a buffer of
      one the send never blocked, and the value is success exactly when it was connected. A
      refusal is reported before the slot is cleared for it. */
  lemma {:induction false} OneReport(es: seq<Event>, c: nat)
    requires Legal(NO_CONNECTION, es) && c in Run(NO_CONNECTION, es).conns
    ensures var k := Run(NO_CONNECTION, es).conns[c];
      && |k.reports| <= 1
      && (k.hasChan && k.reader.Ended? ==> k.reports == [if k.connected then Success else Failure])
      && (k.hasChan && LeftBy(k, ByRefusal) ==> k.reports == [Failure])
  {
    RunInv(es);
  }

  /** Out of the slot before its success was confirmed. */
  predicate LeftEarly(k: Conn) {
    k.removals != [] && !k.connected && !k.reader.Confirmed?
  }

  lemma LocalLeftEarly(s: State, e: Event)
    requires Inv(s) && Enabled(s, e) && IsLocal(e) && LeftEarly(s.conns[e.c])
    ensures LeftEarly(Local(s.conns[e.c], e))
  {
  }

  lemma ClearLeftEarly(s: State, e: Event, c: nat)
    requires Inv(s) && Enabled(s, e) && c in s.conns && About(s, e, c) && !IsLocal(e) && LeftEarly(s.conns[c])
    ensures c in Apply(s, e).conns && LeftEarly(Apply(s, e).conns[c])
  {
  }

  lemma StepLeftEarly(s: State, e: Event, c: nat)
    requires Inv(s) && Enabled(s, e) && c in s.conns && LeftEarly(s.conns[c])
    ensures c in Apply(s, e).conns && LeftEarly(Apply(s, e).conns[c])
  {
    if !About(s, e, c) {
      StepOther(s, e, c);
    } else if IsLocal(e) {
      LocalLeftEarly(s, e);
    } else {
      ClearLeftEarly(s, e, c);
    }
  }

  /** A connection that was replaced, stopped or given up before its success was confirmed is never
      announced, whatever its reader still reads: no connect callback, no disconnect callback, no
      success. */
  lemma {:induction false} NeverAnnounced(es: seq<Event>, more: seq<Event>, c: nat)
    requires Legal(NO_CONNECTION, es) && Legal(NO_CONNECTION, es + more)
    requires c in Run(NO_CONNECTION, es).conns && LeftEarly(Run(NO_CONNECTION, es).conns[c])
    ensures c in Run(NO_CONNECTION, es + more).conns
    ensures var k := Run(NO_CONNECTION, es + more).conns[c];
      LeftEarly(k) && k.connects == 0 && k.disconnects == 0 && Success !in k.reports
  {
    if more == [] {
      assert es + more == es;
    } else {
      var all := es + more;
      assert all[..|all| - 1] == es + more[..|more| - 1];
      NeverAnnounced(es, more[..|more| - 1], c);
      RunInv(all[..|all| - 1]);
      StepLeftEarly(Run(NO_CONNECTION, all[..|all| - 1]), all[|all| - 1], c);
    }
    RunInv(es + more);
  }

  // ---------- nothing gets stuck ----------

  /** A step of connection c's own reader or monitors. */
  predicate OwnStep(e: Event, c: nat) {
    (e.ReaderLeaves? || e.RefuseClears? || e.MonitorLeaves? || IsLocal(e)) && e.c == c
  }

  ghost predicate Leads(s: State, es: seq<Event>, c: nat, t: State)
    decreases |es|
  {
    if es == [] then s == t else OwnStep(es[0], c) && Enabled(s, es[0]) && Leads(Apply(s, es[0]), es[1..], c, t)
  }

  lemma LeadsOne(s: State, e: Event, more: seq<Event>, c: nat, t: State)
    requires OwnStep(e, c) && Enabled(s, e) && Leads(Apply(s, e), more, c, t)
    ensures Leads(s, [e] + more, c, t)
  {
    assert ([e] + more)[1..] == more;
  }

  ghost predicate Reaches(es: seq<Event>, s: State) {
    Legal(NO_CONNECTION, es) && Run(NO_CONNECTION, es) == s
  }

  lemma OneMoreStep(es: seq<Event>, s: State, e: Event)
    requires Reaches(es, s) && Enabled(s, e)
    ensures Reaches(es + [e], Apply(s, e))
  {
    assert (es + [e])[..|es|] == es;
  }

  lemma SameSteps(es: seq<Event>, es': seq<Event>, s: State)
    requires Reaches(es, s) && es == es'
    ensures Reaches(es', s)
  {
  }

  lemma {:induction false} GoesOn(es: seq<Event>, s: State, more: seq<Event>, c: nat, t: State)
    requires Reaches(es, s) && Leads(s, more, c, t)
    ensures Reaches(es + more, t) && forall e | e in more :: OwnStep(e, c)
    decreases |more|
  {
    if more == [] {
      assert es + more == es;
    } else {
      OneMoreStep(es, s, more[0]);
      GoesOn(es + [more[0]], Apply(s, more[0]), more[1..], c, t);
      assert es + [more[0]] + more[1..] == es + more && more == [more[0]] + more[1..];
      SameSteps(es + [more[0]] + more[1..], es + more, t);
    }
  }

  /** How many steps the reader is from its end, at most. */
  function Steps(r: Reader): nat {
    match r
    case Confirmed => 8
    case Announcing => 7
    case Announced => 6
    case Streaming => 5
    case Reading => 5
    case Told(_) => 4
    case Reporting => 3
    case Refusing => 3
    case Ending => 2
    case _ => 1
  }

  /** What connection c's goroutines do next if nothing keeps them, the monitors last. */
  function NextStep(k: Conn, c: nat): Event {
    match k.reader
    case Confirmed => SetConnected(c)
    case Announcing => ReportSuccess(c)
    case Announced => Greet(c, false)
    case Streaming => ReaderLeaves(c)
    case Reading => ReaderLeaves(c)
    case Told(_) => ReaderNotifies(c)
    case Reporting => End(c)
    case Refusing => RefuseClears(c)
    case Ending => End(c)
    case _ =>
      if k.idle.Watching? then MonitorLeaves(c, Idle)
      else if k.idle.Noticed? then MonitorNotifies(c, Idle)
      else if k.gga.Watching? then MonitorLeaves(c, Gga)
      else MonitorNotifies(c, Gga)
  }

  predicate AllGone(k: Conn) {
    k.reader.Ended? && k.idle.Off? && k.gga.Off?
  }

  function Left(k: Conn): nat {
    Steps(k.reader) + (if k.idle.Off? then 0 else 1) + (if k.gga.Off? then 0 else 1)
  }

  /** The step takes the connection nearer to where all are gone. */
  ghost predicate Nearer(s: State, e: Event, c: nat)
    requires c in s.conns
  {
    && Enabled(s, e) && OwnStep(e, c) && c in Apply(s, e).conns
    && !Apply(s, e).conns[c].reader.NotStarted? && Left(Apply(s, e).conns[c]) < Left(s.conns[c])
  }

  lemma ReaderIsNearer(s: State, c: nat)
    requires c in s.conns && !s.conns[c].reader.NotStarted? && !s.conns[c].reader.Ended?
    ensures Nearer(s, NextStep(s.conns[c], c), c)
  {
  }

  lemma MonitorIsNearer(s: State, c: nat)
    requires c in s.conns && s.conns[c].reader.Ended? && !AllGone(s.conns[c])
    ensures Nearer(s, NextStep(s.conns[c], c), c)
  {
  }

  lemma {:induction false} Leaves(s: State, c: nat) returns (es: seq<Event>, t: State)
    requires c in s.conns && !s.conns[c].reader.NotStarted?
    ensures Leads(s, es, c, t) && c in t.conns && AllGone(t.conns[c])
    decreases Left(s.conns[c])
  {
    if AllGone(s.conns[c]) {
      es, t := [], s;
    } else {
      var e := NextStep(s.conns[c], c);
      if s.conns[c].reader.Ended? {
        MonitorIsNearer(s, c);
      } else {
        ReaderIsNearer(s, c);
      }
      es, t := Leaves(Apply(s, e), c);
      LeadsOne(s, e, es, c, t);
      es := [e] + es;
    }
  }

  /** A reader that is past its loop. */
  predicate PastLoop(r: Reader) {
    r.Told? || r.Reporting? || r.Ending? || r.Ended?
  }

  /** Its connection has been taken out of the slot, by itself or by another. */
  ghost predicate Out(s: State) {
    forall c | c in s.conns && PastLoop(s.conns[c].reader) :: s.conns[c].removals != []
  }

  lemma OutOther(s: State, e: Event)
    requires Inv(s) && Out(s) && Enabled(s, e) && (e.Place? || e.StartFails? || e.Spawn? || e.Stop? || e.Cancel?)
    ensures Out(Apply(s, e))
  {
  }

  lemma OutClearing(s: State, e: Event)
    requires Inv(s) && Out(s) && Enabled(s, e) && (e.ReaderLeaves? || e.RefuseClears? || e.MonitorClears?)
    ensures Out(Apply(s, e))
  {
  }

  lemma LocalIsPut(s: State, e: Event)
    requires Enabled(s, e) && IsLocal(e)
    ensures Apply(s, e) == Put(s, e.c, Local(s.conns[e.c], e))
  {
  }

  lemma OutPut(s: State, c: nat, k: Conn)
    requires Out(s) && c in s.conns && (PastLoop(k.reader) ==> k.removals != [])
    ensures Out(Put(s, c, k))
  {
  }

  lemma OutLocal(s: State, e: Event)
    requires Inv(s) && Out(s) && Enabled(s, e) && IsLocal(e)
    ensures Out(Apply(s, e))
  {
    LocalIsPut(s, e);
    LocalKeepsRemovals(s.conns[e.c], e, s);
    OutPut(s, e.c, Local(s.conns[e.c], e));
  }

  lemma LocalKeepsRemovals(k: Conn, e: Event, s: State)
    requires IsLocal(e) && Enabled(s, e) && s.conns[e.c] == k
    ensures Local(k, e).removals == k.removals
    ensures PastLoop(Local(k, e).reader) ==> PastLoop(k.reader) || e.FindReplaced?
  {
  }

  lemma {:induction false} OutRun(es: seq<Event>)
    requires Legal(NO_CONNECTION, es)
    ensures Out(Run(NO_CONNECTION, es))
  {
    if es != [] {
      OutRun(es[..|es| - 1]);
      RunInv(es[..|es| - 1]);
      var s, e := Run(NO_CONNECTION, es[..|es| - 1]), es[|es| - 1];
      if IsLocal(e) {
        OutLocal(s, e);
      } else if e.ReaderLeaves? || e.RefuseClears? || e.MonitorClears? {
        OutClearing(s, e);
      } else {
        OutOther(s, e);
      }
    }
  }

  /** From wherever a run has got to, the reader and the monitors of a started connection can all
      leave, by their own steps; and then it is no longer in the slot. */
  lemma {:induction false} GoroutinesCanLeave(es: seq<Event>, c: nat) returns (more: seq<Event>)
    requires Legal(NO_CONNECTION, es) && c in Run(NO_CONNECTION, es).conns
    requires !Run(NO_CONNECTION, es).conns[c].reader.NotStarted?
    ensures forall e | e in more :: OwnStep(e, c)
    ensures Legal(NO_CONNECTION, es + more)
    ensures var s := Run(NO_CONNECTION, es + more); c in s.conns && AllGone(s.conns[c]) && s.slot != Some(c)
  {
    var s := Run(NO_CONNECTION, es);
    var t;
    more, t := Leaves(s, c);
    GoesOn(es, s, more, c, t);
    OutRun(es + more);
    RunInv(es + more);
  }

  // ---------- the slot's methods take the steps ----------

  /** Which connection a step clears from the slot if it is there, and for whom. */
  function Clears(s: State, e: Event): Option<nat>
    requires Enabled(s, e)
  {
    match e
    case StartFails => s.starting
    case Cancel(c) => Some(c)
    case ReaderLeaves(c) => Some(c)
    case RefuseClears(c) => Some(c)
    case MonitorClears(c, _) => Some(c)
    case _ => None
  }

  lemma SlotAfter(s: State, e: Event)
    requires Inv(s) && Enabled(s, e)
    ensures Apply(s, e).slot ==
            if e.Place? then Some(e.c)
            else if e.Stop? then None
            else if Clears(s, e).Some? then Cleared(s.slot, Clears(s, e).value)
            else s.slot
  {
  }

  /** What the one who cleared the slot goes on with. */
  function Learned(s: State, e: Event): Option<bool>
    requires Enabled(s, e)
  {
    match e
    case ReaderLeaves(c) =>
      var r := Apply(s, e).conns[c].reader;
      if r.Told? then Some(r.removed) else None
    case MonitorClears(c, who) =>
      var m := Watch(Apply(s, e).conns[c], who);
      if m.Noticed? then Some(m.removed) else None
    case _ => None
  }

  /** Every step of a run does to the slot just what one call of a method does, or leaves it
      alone; what the method returns is what the reader or monitor goes on with; and a
      connection that leaves the slot has been closed. A reader whose connection is closed
      already only clears the slot; here it closes it again, which changes nothing. */
  method Perform(slot: Slot, ghost s: State, e: Event, current: nat) returns (wasCurrent: bool)
    requires Inv(s) && Enabled(s, e) && slot.conn == s.slot
    requires Clears(s, e).Some? ==> current == Clears(s, e).value
    modifies slot
    ensures slot.conn == Apply(s, e).slot
    ensures old(slot.conn).Some? && slot.conn != old(slot.conn) ==> old(slot.conn).value in slot.closed
    ensures Learned(s, e).Some? ==> Learned(s, e).value == wasCurrent
  {
    SlotAfter(s, e);
    wasCurrent := false;
    if e.Place? {
      var old_ := slot.ReplaceConn(e.c);
      if old_.Some? && old_.value != e.c {
        slot.closed := slot.closed + {old_.value};
      }
    } else if e.Stop? {
      slot.CloseConn();
    } else if e.StartFails? || e.Cancel? || e.ReaderLeaves? || e.RefuseClears? || e.MonitorClears? {
      wasCurrent := slot.CloseConnIfCurrent(current);
    }
  }
}
