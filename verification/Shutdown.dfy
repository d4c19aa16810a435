/** The wait at the end of Stop can always come to an end: from wherever a run has got to, the
    accept loops, speed loops and handlers that it waits for can all leave, each by its own
    steps. */
module Shutdown {
  import opened Lifecycle

  /** A source's claim is only ever made on the source side. */
  ghost predicate ClaimsOk(s: State) {
    forall c | c in s.handlers && s.handlers[c].phase.Claimed? :: s.kind == SourceSide
  }

  ghost predicate Good(s: State) {
    Inv(s) && ClaimsOk(s)
  }

  lemma ClaimsStep(s: State, e: Event)
    requires ClaimsOk(s) && Enabled(s, e)
    ensures ClaimsOk(Apply(s, e))
  {
    if OfHandler(e) {
      HandlerClaims(s, e);
    }
  }

  lemma HandlerClaims(s: State, e: Event)
    requires ClaimsOk(s) && Enabled(s, e) && OfHandler(e)
    ensures ClaimsOk(Apply(s, e))
  {
  }

  lemma GoodStep(s: State, e: Event)
    requires Good(s) && Enabled(s, e)
    ensures Good(Apply(s, e))
  {
    StepInv(s, e);
    ClaimsStep(s, e);
  }

  lemma {:induction false} GoodRun(kind: Kind, es: seq<Event>)
    requires Legal(Init(kind), es)
    ensures Good(Run(Init(kind), es))
  {
    if es == [] {
      InitInv(kind);
    } else {
      GoodRun(kind, es[..|es| - 1]);
      GoodStep(Run(Init(kind), es[..|es| - 1]), es[|es| - 1]);
    }
  }

  // ---------- going on ----------

  /** Steps that bring nothing new: loops end, and handlers go on towards their end. */
  predicate Ending(e: Event) {
    !e.Start? && !e.SetLimits? && !e.Accept? && !e.StopTables? && !e.CloseAll? && !e.Claim? && !e.Enter?
  }

  ghost predicate Leads(s: State, es: seq<Event>, t: State)
    decreases |es|
  {
    if es == [] then s == t else Ending(es[0]) && Enabled(s, es[0]) && Leads(Apply(s, es[0]), es[1..], t)
  }

  lemma LeadsOne(s: State, e: Event, more: seq<Event>, t: State)
    requires Ending(e) && Enabled(s, e) && Leads(Apply(s, e), more, t)
    ensures Leads(s, [e] + more, t)
  {
    assert ([e] + more)[1..] == more;
  }

  lemma {:induction false} LeadsBoth(s: State, es: seq<Event>, t: State, more: seq<Event>, u: State)
    requires Leads(s, es, t) && Leads(t, more, u)
    ensures Leads(s, es + more, u)
    decreases |es|
  {
    if es == [] {
      assert es + more == more;
    } else {
      LeadsBoth(Apply(s, es[0]), es[1..], t, more, u);
      assert (es + more)[1..] == es[1..] + more;
    }
  }

  lemma SameEvents(init: State, es: seq<Event>, es': seq<Event>, s: State)
    requires Reaches(init, es, s) && es == es'
    ensures Reaches(init, es', s)
  {
  }

  /** A run that has got to s can go on by such steps. */
  lemma {:induction false} GoesOn(init: State, es: seq<Event>, s: State, more: seq<Event>, t: State)
    requires Reaches(init, es, s) && Leads(s, more, t)
    ensures Reaches(init, es + more, t)
    ensures forall e | e in more :: Ending(e)
    decreases |more|
  {
    if more == [] {
      assert es + more == es;
    } else {
      OneMoreEvent(init, es, s, more[0]);
      GoesOn(init, es + [more[0]], Apply(s, more[0]), more[1..], t);
      Regrouped(es, more);
      SameEvents(init, es + [more[0]] + more[1..], es + more, t);
    }
  }

  lemma Regrouped(es: seq<Event>, more: seq<Event>)
    requires more != []
    ensures es + [more[0]] + more[1..] == es + more && more == [more[0]] + more[1..]
  {
  }

  // ---------- a handler ----------

  /** What a handler does next if nothing keeps it. */
  function Next(kind: Kind, c: nat, phase: Phase): Event {
    match phase
    case Begun => if kind == TcpServer then Announce(c) else Leave(c)
    case Claimed => Respond(c, true)
    case Entered => Announce(c)
    case Active => Leave(c)
    case Leaving => Release(c)
    case Released => Delete(c)
    case Deleted(_) => Notify(c)
    case _ => Finish(c)
  }

  /** How many steps a handler is from its end, at most. */
  function Steps(phase: Phase): nat {
    match phase
    case Begun => 7
    case Claimed => 8
    case Entered => 7
    case Active => 6
    case Leaving => 5
    case Released => 4
    case Deleted(_) => 3
    case Done => 2
    case Gone => 1
  }

  lemma NextStep(s: State, c: nat)
    requires Good(s) && c in s.live
    ensures c in s.handlers && !s.handlers[c].phase.Gone?
    ensures var e := Next(s.kind, c, s.handlers[c].phase);
      && Enabled(s, e) && Ending(e)
      && var t := Apply(s, e);
      t.loops == s.loops && t.speeds == s.speeds && t.live == if s.handlers[c].phase.Done? then s.live - {c} else s.live
  {
    assert HandlerOk(s.kind, s.handlers[c]);
  }

  lemma PhaseNearer(s: State, c: nat, h: Handler)
    requires !h.phase.Gone?
    ensures var e := Next(s.kind, c, h.phase);
      OfHandler(e) && e.conn == c && Steps(NextPhase(s, e, h)) < Steps(h.phase)
  {
  }

  lemma NextIsNearer(s: State, c: nat)
    requires Good(s) && c in s.handlers && !s.handlers[c].phase.Gone?
    requires Enabled(s, Next(s.kind, c, s.handlers[c].phase))
    ensures var t := Apply(s, Next(s.kind, c, s.handlers[c].phase));
      c in t.handlers && Steps(t.handlers[c].phase) < Steps(s.handlers[c].phase)
  {
    PhaseNearer(s, c, s.handlers[c]);
    HandlerAfter(s, Next(s.kind, c, s.handlers[c].phase));
  }

  /** A live handler can leave. */
  lemma {:induction false} HandlerFinishes(s: State, c: nat) returns (es: seq<Event>, t: State)
    requires Good(s) && c in s.live && c in s.handlers
    ensures Leads(s, es, t) && Good(t) && t.live == s.live - {c} && t.loops == s.loops && t.speeds == s.speeds
    decreases Steps(s.handlers[c].phase)
  {
    var e := Next(s.kind, c, s.handlers[c].phase);
    NextStep(s, c);
    NextIsNearer(s, c);
    GoodStep(s, e);
    var s1 := Apply(s, e);
    es, t := [], s1;
    if c in s1.live {
      es, t := HandlerFinishes(s1, c);
    }
    LeadsOne(s, e, es, t);
    es := [e] + es;
  }

  /** All of them can. */
  lemma {:induction false} HandlersFinish(s: State) returns (es: seq<Event>, t: State)
    requires Good(s)
    ensures Leads(s, es, t) && Good(t) && t.live == {} && t.loops == s.loops && t.speeds == s.speeds
    decreases |s.live|
  {
    es, t := [], s;
    if s.live != {} {
      var c :| c in s.live;
      NextStep(s, c);
      var first, s1 := HandlerFinishes(s, c);
      assert |s1.live| == |s.live| - 1;
      var rest;
      rest, t := HandlersFinish(s1);
      LeadsBoth(s, first, s1, rest, t);
      es := first + rest;
    }
  }

  /** And so can the loops. */
  lemma {:induction false} LoopsFinish(s: State) returns (es: seq<Event>, t: State)
    requires Good(s)
    ensures Leads(s, es, t) && Good(t) && t.live == s.live && t.loops == {} && t.speeds == {}
    decreases |s.loops| + |s.speeds|
  {
    es, t := [], s;
    if s.loops + s.speeds != {} {
      var ln :| ln in s.loops + s.speeds;
      var e := if ln in s.loops then LoopExit(ln) else SpeedExit(ln);
      GoodStep(s, e);
      var s1 := Apply(s, e);
      OneLoopLess(s, ln);
      var rest;
      rest, t := LoopsFinish(s1);
      LeadsOne(s, e, rest, t);
      es := [e] + rest;
    }
  }

  lemma OneLoopLess(s: State, ln: nat)
    ensures ln in s.loops ==> |s.loops - {ln}| == |s.loops| - 1
    ensures ln in s.speeds ==> |s.speeds - {ln}| == |s.speeds| - 1
  {
  }

  /** From wherever a run has got to it can go on, without anything new, until the wait group is
      at zero; and then, as Teardown says, nothing is left of it. */
  lemma {:induction false} StopCanFinish(kind: Kind, es: seq<Event>) returns (more: seq<Event>)
    requires Legal(Init(kind), es)
    ensures forall e | e in more :: Ending(e)
    ensures Legal(Init(kind), es + more) && Run(Init(kind), es + more).wg == 0
  {
    GoodRun(kind, es);
    var s := Run(Init(kind), es);
    var first, s1 := HandlersFinish(s);
    var rest, t := LoopsFinish(s1);
    LeadsBoth(s, first, s1, rest, t);
    more := first + rest;
    GoesOn(Init(kind), es, s, more, t);
    assert t.wg == |t.loops| + |t.speeds| + |t.live|;
  }
}
