/** The connection table that both casters and the plain TCP server keep under their mutex:
    the current listener, the admitted connections with their addresses, and the count for
    each address. A connection's identity is never reused. */
module Admission {
  import opened Common

  datatype Table = Table(
    ln: Option<nat>,
    conns: map<nat, string>,
    byIP: map<string, nat>,
    maxConns: nat,   // zero: no limit
    maxPerIP: nat    // zero: no limit
  )

  datatype Verdict = Stale | Unavailable | TooMany | Admitted

  function Lookup(byIP: map<string, nat>, ip: string): nat {
    if ip in byIP then byIP[ip] else 0
  }

  function Judge(t: Table, ln: nat, ip: string): Verdict {
    if t.ln != Some(ln) then Stale
    else if t.maxConns > 0 && |t.conns| >= t.maxConns then Unavailable
    else if t.maxPerIP > 0 && Lookup(t.byIP, ip) >= t.maxPerIP then TooMany
    else Admitted
  }

  function Admit(t: Table, ln: nat, conn: nat, ip: string): Table {
    if Judge(t, ln, ip) != Admitted then t
    else t.(conns := t.conns[conn := ip], byIP := t.byIP[ip := Lookup(t.byIP, ip) + 1])
  }

  function Release(t: Table, conn: nat): Table {
    if conn !in t.conns then t
    else
      var ip := t.conns[conn];
      var n := Lookup(t.byIP, ip);
      t.(conns := t.conns - {conn}, byIP := if n <= 1 then t.byIP - {ip} else t.byIP[ip := n - 1])
  }

  function StopTable(t: Table): Table {
    t.(ln := None, conns := map[], byIP := map[])
  }

  // ---------- consistency ----------

  function ConnsOf(conns: map<nat, string>, ip: string): set<nat> {
    set c | c in conns && conns[c] == ip
  }

  /** The counts are those of the connections, none is zero, none too large. */
  ghost predicate Counted(conns: map<nat, string>, byIP: map<string, nat>, maxPerIP: nat) {
    && (forall ip :: Lookup(byIP, ip) == |ConnsOf(conns, ip)|)
    && (forall ip | ip in byIP :: byIP[ip] > 0)
    && (maxPerIP > 0 ==> forall ip | ip in byIP :: byIP[ip] <= maxPerIP)
  }

  /** The count of an address is the number of its connections, addresses without any are
      absent, the limits hold, and nothing is admitted without a listener. */
  ghost predicate Consistent(t: Table) {
    && Counted(t.conns, t.byIP, t.maxPerIP)
    && (t.maxConns > 0 ==> |t.conns| <= t.maxConns)
    && (t.ln == None ==> t.conns == map[] && t.byIP == map[])
  }

  lemma ConnsOfInsert(conns: map<nat, string>, conn: nat, ip: string, at: string)
    requires conn !in conns
    ensures |ConnsOf(conns[conn := ip], at)| == |ConnsOf(conns, at)| + if at == ip then 1 else 0
  {
    assert ConnsOf(conns[conn := ip], at) == ConnsOf(conns, at) + if at == ip then {conn} else {};
  }

  lemma ConnsOfRemove(conns: map<nat, string>, conn: nat, at: string)
    requires conn in conns
    ensures |ConnsOf(conns - {conn}, at)| == |ConnsOf(conns, at)| - if at == conns[conn] then 1 else 0
  {
    assert ConnsOf(conns - {conn}, at) == ConnsOf(conns, at) - if at == conns[conn] then {conn} else {};
  }

  lemma OneMoreCounted(conns: map<nat, string>, byIP: map<string, nat>, maxPerIP: nat, conn: nat, ip: string)
    requires Counted(conns, byIP, maxPerIP) && conn !in conns && (maxPerIP > 0 ==> Lookup(byIP, ip) < maxPerIP)
    ensures Counted(conns[conn := ip], byIP[ip := Lookup(byIP, ip) + 1], maxPerIP)
  {
    var byIP' := byIP[ip := Lookup(byIP, ip) + 1];
    forall at ensures Lookup(byIP', at) == |ConnsOf(conns[conn := ip], at)| {
      ConnsOfInsert(conns, conn, ip, at);
    }
    assert forall at | at in byIP' && at != ip :: at in byIP;
  }

  lemma AdmitConsistent(t: Table, ln: nat, conn: nat, ip: string)
    requires Consistent(t) && conn !in t.conns
    ensures Consistent(Admit(t, ln, conn, ip))
  {
    if Judge(t, ln, ip) == Admitted {
      OneMoreCounted(t.conns, t.byIP, t.maxPerIP, conn, ip);
      assert |t.conns[conn := ip]| == |t.conns| + 1;
    }
  }

  lemma OneLessCounted(t: Table, conn: nat)
    requires Counted(t.conns, t.byIP, t.maxPerIP) && conn in t.conns
    ensures Counted(Release(t, conn).conns, Release(t, conn).byIP, t.maxPerIP)
  {
    var t' := Release(t, conn);
    forall at ensures Lookup(t'.byIP, at) == |ConnsOf(t'.conns, at)| {
      ConnsOfRemove(t.conns, conn, at);
    }
    assert ConnsOf(t.conns, t.conns[conn]) >= {conn};
    assert Lookup(t.byIP, t.conns[conn]) >= |{conn}|;
    assert forall at | at in t'.byIP :: at in t.byIP;
  }

  lemma ReleaseConsistent(t: Table, conn: nat)
    requires Consistent(t)
    ensures Consistent(Release(t, conn))
  {
    if conn in t.conns {
      OneLessCounted(t, conn);
      assert Release(t, conn).conns.Keys == t.conns.Keys - {conn};
    }
  }

  /** The counts are determined by the connections: in whatever order connections came and
      went, the same connections leave the same counts. */
  lemma CountsDetermined(t: Table, u: Table)
    requires Consistent(t) && Consistent(u) && t.conns == u.conns
    ensures t.byIP == u.byIP
  {
    forall ip ensures Lookup(t.byIP, ip) == Lookup(u.byIP, ip) {
      assert Lookup(t.byIP, ip) == |ConnsOf(t.conns, ip)|;
      assert Lookup(u.byIP, ip) == |ConnsOf(u.conns, ip)|;
    }
    forall ip ensures (ip in t.byIP <==> Lookup(t.byIP, ip) > 0) && (ip in u.byIP <==> Lookup(u.byIP, ip) > 0) {
    }
    assert t.byIP.Keys == u.byIP.Keys;
  }

  /** So a connection that comes and goes leaves the table as it was. */
  lemma ReleaseUndoesAdmit(t: Table, ln: nat, conn: nat, ip: string)
    requires Consistent(t) && conn !in t.conns
    ensures Release(Admit(t, ln, conn, ip), conn) == t
  {
    var u := Release(Admit(t, ln, conn, ip), conn);
    AdmitConsistent(t, ln, conn, ip);
    ReleaseConsistent(Admit(t, ln, conn, ip), conn);
    if Judge(t, ln, ip) == Admitted {
      assert t.conns[conn := ip] - {conn} == t.conns;
    }
    CountsDetermined(t, u);
  }

  /** The table as the fields that the critical sections update. */
  class ConnTable {
    var ln: Option<nat>
    var conns: map<nat, string>
    var connectionsByIP: map<string, nat>
    var maxConnections: nat
    var maxConnectionsPerIP: nat

    function View(): Table
      reads this
    {
      Table(ln, conns, connectionsByIP, maxConnections, maxConnectionsPerIP)
    }

    constructor ()
      ensures Consistent(View()) && ln == None && maxConnections == 1024 && maxConnectionsPerIP == 0
    {
      ln, conns, connectionsByIP := None, map[], map[];
      maxConnections, maxConnectionsPerIP := 1024, 0;
      new;
      forall ip ensures |ConnsOf(conns, ip)| == 0 {
        assert ConnsOf(conns, ip) == {};
      }
    }

    method AdmitConn(listener: nat, conn: nat, ip: string) returns (verdict: Verdict)
      requires Consistent(View()) && conn !in conns
      modifies `conns, `connectionsByIP
      ensures verdict == Judge(old(View()), listener, ip)
      ensures View() == Admit(old(View()), listener, conn, ip) && Consistent(View())
    {
      AdmitConsistent(View(), listener, conn, ip);
      if ln != Some(listener) {
        return Stale;
      }
      if maxConnections > 0 && |conns| >= maxConnections {
        return Unavailable;
      }
      var count := if ip in connectionsByIP then connectionsByIP[ip] else 0;
      if maxConnectionsPerIP > 0 && count >= maxConnectionsPerIP {
        return TooMany;
      }
      conns := conns[conn := ip];
      connectionsByIP := connectionsByIP[ip := count + 1];
      return Admitted;
    }

    method ReleaseConn(conn: nat) returns (wasActive: bool)
      requires Consistent(View())
      modifies `conns, `connectionsByIP
      ensures wasActive <==> conn in old(conns)
      ensures View() == Release(old(View()), conn) && Consistent(View())
    {
      ReleaseConsistent(View(), conn);
      wasActive := TakeOut(conn);
    }

    method TakeOut(conn: nat) returns (wasActive: bool)
      modifies `conns, `connectionsByIP
      ensures wasActive <==> conn in old(conns)
      ensures View() == Release(old(View()), conn)
    {
      wasActive := conn in conns;
      if wasActive {
        var ip := conns[conn];
        var count := if ip in connectionsByIP then connectionsByIP[ip] else 0;
        conns := conns - {conn};
        connectionsByIP := if count <= 1 then connectionsByIP - {ip} else connectionsByIP[ip := count - 1];
      }
    }

    /** The locked part of Stop; the connections to close are returned. */
    method StopLocked() returns (listener: Option<nat>, open: set<nat>)
      requires Consistent(View())
      modifies `ln, `conns, `connectionsByIP
      ensures listener == old(ln) && open == old(conns.Keys)
      ensures ln == None && conns == map[] && connectionsByIP == map[]
      ensures View() == StopTable(old(View())) && Consistent(View())
    {
      StopConsistent(View());
      listener, open := ln, conns.Keys;
      ln, conns, connectionsByIP := None, map[], map[];
    }
  }

  lemma StopConsistent(t: Table)
    ensures Consistent(StopTable(t))
  {
    forall ip ensures |ConnsOf(map[], ip)| == 0 {
      var none: map<nat, string> := map[];
      assert ConnsOf(none, ip) == {};
    }
  }
}
