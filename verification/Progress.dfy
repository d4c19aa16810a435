/** Slow subscribers do not hold up a broadcast: from wherever a run of the caster has got to, a
    source can finish the broadcast it is busy with by its own moves alone. */
module Progress {
  import opened FanOut
  import opened SubscriberQueue

  // ---------- what the runs keep ----------

  /** Every queue is within its capacity and has a place for each source, and nobody uses the
      waiting Send. */
  ghost predicate LossyAt(sub: Sub, sources: nat) {
    && |sub.st.ch.queue| <= QUEUE_SIZE && |sub.st.ch.producers| == sources
    && forall w :: 0 <= w < |sub.st.ch.producers| ==> sub.st.ch.producers[w].Idle? || InLoss(sub.st.ch.producers[w])
  }

  ghost predicate Lossy(s: System) {
    && (forall id | id in s.subs :: LossyAt(s.subs[id], |s.sources|))
    && forall e :: 0 <= e < |s.log| ==> s.log[e].chunk != ""
  }

  lemma AdvanceLossy(sub: Sub, e: Event, sources: nat)
    requires LossyAt(sub, sources) && SubscriberQueue.Enabled(sub.st, e) && (e.Producing? ==> !e.c.AcceptSend?)
    ensures LossyAt(Advance(sub, e), sources)
  {
  }

  lemma LossyStep(s: System, m: Move)
    requires Lossy(s) && FanOut.Enabled(s, m)
    ensures Lossy(FanOut.Apply(s, m))
  {
    if m.Inside? {
      AdvanceLossy(s.subs[m.id], m.e, |s.sources|);
    } else if m.Visit? {
      AdvanceLossy(s.subs[m.id], Offer(s, m.w), |s.sources|);
    }
  }

  ghost predicate Good(s: System) {
    FanOut.Inv(s) && HeldOnlyAt(s) && Lossy(s)
  }

  lemma GoodStep(s: System, m: Move)
    requires Good(s) && FanOut.Enabled(s, m)
    ensures Good(FanOut.Apply(s, m))
  {
    FanOut.StepInv(s, m);
    HeldStep(s, m);
    LossyStep(s, m);
  }

  lemma {:induction false} GoodRun(sources: nat, ms: seq<Move>)
    requires FanOut.Legal(Start(sources), ms)
    ensures Good(FanOut.Run(Start(sources), ms))
  {
    if ms != [] {
      GoodRun(sources, ms[..|ms| - 1]);
      GoodStep(FanOut.Run(Start(sources), ms[..|ms| - 1]), ms[|ms| - 1]);
    }
  }

  // ---------- going on by the moves of one source ----------

  /** A move of source w: in its broadcast, or one of its selects at a queue. */
  predicate OwnMove(m: Move, w: nat) {
    match m
    case Visit(v, _) => v == w
    case Skip(v, _) => v == w
    case Leave(v) => v == w
    case End(v) => v == w
    case Inside(_, e) => e.Producing? && SelectOf(e.c, w)
    case _ => false
  }

  /** These moves of source w lead from s to t. */
  ghost predicate Leads(s: System, ms: seq<Move>, w: nat, t: System)
    decreases |ms|
  {
    if ms == [] then s == t
    else OwnMove(ms[0], w) && FanOut.Enabled(s, ms[0]) && Leads(FanOut.Apply(s, ms[0]), ms[1..], w, t)
  }

  lemma {:induction false} LeadsBoth(s: System, ms: seq<Move>, w: nat, t: System, more: seq<Move>, u: System)
    requires Leads(s, ms, w, t) && Leads(t, more, w, u)
    ensures Leads(s, ms + more, w, u)
    decreases |ms|
  {
    if ms == [] {
      assert ms + more == more;
    } else {
      LeadsBoth(FanOut.Apply(s, ms[0]), ms[1..], w, t, more, u);
      assert (ms + more)[1..] == ms[1..] + more;
    }
  }

  lemma LeadsOne(s: System, m: Move, w: nat, more: seq<Move>, t: System)
    requires OwnMove(m, w) && FanOut.Enabled(s, m) && Leads(FanOut.Apply(s, m), more, w, t)
    ensures Leads(s, [m] + more, w, t)
  {
    assert ([m] + more)[1..] == more;
  }

  ghost predicate Reaches(start: System, ms: seq<Move>, s: System) {
    FanOut.Legal(start, ms) && FanOut.Run(start, ms) == s
  }

  lemma OneMoreMove(start: System, ms: seq<Move>, s: System, m: Move)
    requires Reaches(start, ms, s) && FanOut.Enabled(s, m)
    ensures Reaches(start, ms + [m], FanOut.Apply(s, m))
  {
    assert (ms + [m])[..|ms|] == ms;
  }

  lemma SameMoves(start: System, ms: seq<Move>, ms': seq<Move>, s: System)
    requires Reaches(start, ms, s) && ms == ms'
    ensures Reaches(start, ms', s)
  {
  }

  /** A run that has got to s can go on by such moves. */
  lemma {:induction false} GoesOn(start: System, ms: seq<Move>, s: System, more: seq<Move>, w: nat, t: System)
    requires Reaches(start, ms, s) && Leads(s, more, w, t)
    ensures Reaches(start, ms + more, t)
    decreases |more|
  {
    if more == [] {
      assert ms + more == ms;
    } else {
      OneMoreMove(start, ms, s, more[0]);
      GoesOn(start, ms + [more[0]], FanOut.Apply(s, more[0]), more[1..], w, t);
      Regrouped(ms, more);
      SameMoves(start, ms + [more[0]] + more[1..], ms + more, t);
    }
  }

  lemma Regrouped(ms: seq<Move>, more: seq<Move>)
    requires more != []
    ensures ms + [more[0]] + more[1..] == ms + more
  {
  }

  lemma {:induction false} LeadsOwn(s: System, ms: seq<Move>, w: nat, t: System)
    requires Leads(s, ms, w, t)
    ensures forall m | m in ms :: OwnMove(m, w)
    decreases |ms|
  {
    if ms != [] {
      LeadsOwn(FanOut.Apply(s, ms[0]), ms[1..], w, t);
      assert ms == [ms[0]] + ms[1..];
    }
  }

  // ---------- at one queue ----------

  /** The selects of a source as moves of the caster. */
  lemma {:induction false} SelectsInside(s: System, id: nat, w: nat, es: seq<ChannelEvent>, d: Channel)
    returns (ms: seq<Move>, t: System)
    requires Good(s) && id in s.subs && ProducesTo(s.subs[id].st.ch, es, d) && forall e | e in es :: SelectOf(e, w)
    ensures Leads(s, ms, w, t) && |ms| == |es| && Good(t)
    ensures t.sources == s.sources && t.log == s.log && t.registry == s.registry && id in t.subs && t.subs[id].st.ch == d
    decreases |es|
  {
    if es == [] {
      ms, t := [], s;
    } else {
      var m := Inside(id, Producing(es[0]));
      assert es[0] in es && forall e | e in es[1..] :: e in es;
      GoodStep(s, m);
      var rest;
      rest, t := SelectsInside(FanOut.Apply(s, m), id, w, es[1..], d);
      LeadsOne(s, m, w, rest, t);
      ms := [m] + rest;
    }
  }

  /** A source at a queue is done there by its own selects, four moves at most. */
  lemma {:induction false} QueueFinishes(s: System, w: nat) returns (ms: seq<Move>, t: System)
    requires Good(s) && w < |s.sources| && s.sources[w].AtQueue?
    ensures Leads(s, ms, w, t) && |ms| <= 4 && Good(t)
    ensures t.sources == s.sources[w := Offering(s.sources[w].entry, s.sources[w].remaining)]
    ensures t.log == s.log && t.registry == s.registry
  {
    var id := s.sources[w].at;
    assert SourceOk(s, w);
    assert LossyAt(s.subs[id], |s.sources|);
    var c := s.subs[id].st.ch;
    var es, d := [], c;
    if !c.producers[w].Idle? {
      es, d := LossyFinishes(c, w);
    }
    ms, t := SelectsInside(s, id, w, es, d);
    GoodStep(t, Leave(w));
    var u := FanOut.Apply(t, Leave(w));
    assert Leads(u, [], w, u);
    LeadsOne(t, Leave(w), w, [], u);
    LeadsBoth(s, ms, w, t, [Leave(w)] + [], u);
    ms, t := ms + ([Leave(w)] + []), u;
  }

  // ---------- the broadcast ----------

  /** Whom the source still has to see. */
  function Remaining(src: Source): set<nat> {
    if src.Resting? then {} else src.remaining
  }

  /** The next move of a source between two queues. */
  function NextMove(s: System, w: nat, id: nat): Move
    requires id in s.subs
  {
    if s.subs[id].st.ch.closed then Skip(w, id) else Visit(w, id)
  }

  lemma NextIsEnabled(s: System, w: nat, id: nat)
    requires Good(s) && w < |s.sources| && s.sources[w].Offering? && id in s.sources[w].remaining
    ensures id in s.subs && FanOut.Enabled(s, NextMove(s, w, id)) && OwnMove(NextMove(s, w, id), w)
    ensures var t := FanOut.Apply(s, NextMove(s, w, id));
      && t.registry == s.registry && t.log == s.log
      && (t.sources == s.sources[w := Offering(s.sources[w].entry, s.sources[w].remaining - {id})]
          || t.sources == s.sources[w := AtQueue(s.sources[w].entry, s.sources[w].remaining - {id}, id)])
  {
    assert SourceOk(s, w);
    assert LossyAt(s.subs[id], |s.sources|);
    assert HeldAt(s.sources, s.subs[id].st.ch.producers, id);
  }

  lemma NextIsOwn(s: System, w: nat, id: nat) returns (m: Move, t: System)
    requires Good(s) && w < |s.sources| && s.sources[w].Offering? && id in s.sources[w].remaining
    ensures Leads(s, [m], w, t) && Good(t) && t.registry == s.registry && t.log == s.log
    ensures t.sources == s.sources[w := Offering(s.sources[w].entry, s.sources[w].remaining - {id})]
         || t.sources == s.sources[w := AtQueue(s.sources[w].entry, s.sources[w].remaining - {id}, id)]
  {
    NextIsEnabled(s, w, id);
    m := NextMove(s, w, id);
    GoodStep(s, m);
    t := FanOut.Apply(s, m);
    assert Leads(t, [], w, t);
    LeadsOne(s, m, w, [], t);
    assert [m] + [] == [m];
  }

  /** One subscriber less. */
  lemma {:induction false} OneTarget(s: System, w: nat, id: nat) returns (ms: seq<Move>, t: System)
    requires Good(s) && w < |s.sources| && s.sources[w].Offering? && id in s.sources[w].remaining
    ensures Leads(s, ms, w, t) && |ms| <= 5 && Good(t)
    ensures t.sources == s.sources[w := Offering(s.sources[w].entry, s.sources[w].remaining - {id})]
    ensures t.registry == s.registry && t.log == s.log
  {
    var m, s1 := NextIsOwn(s, w, id);
    ms, t := [m], s1;
    if s1.sources[w].AtQueue? {
      var more;
      more, t := QueueFinishes(s1, w);
      LeadsBoth(s, [m], w, s1, more, t);
      ms := [m] + more;
    }
  }

  /** The rest of a broadcast takes at most five moves for each subscriber that is left, and
      touches no other source. */
  lemma {:induction false} BroadcastFinishes(s: System, w: nat) returns (ms: seq<Move>, t: System)
    requires Good(s) && w < |s.sources|
    ensures Leads(s, ms, w, t) && |ms| <= 5 * |Remaining(s.sources[w])| + 5
    ensures t.sources == s.sources[w := Resting] && t.registry == s.registry && t.log == s.log
    decreases |Remaining(s.sources[w])|, s.sources[w].AtQueue?
  {
    if s.sources[w].Resting? {
      ms, t := [], s;
    } else if s.sources[w].AtQueue? {
      var first, s1 := QueueFinishes(s, w);
      var rest;
      rest, t := OfferingFinishes(s1, w);
      LeadsBoth(s, first, w, s1, rest, t);
      ms := first + rest;
    } else {
      ms, t := OfferingFinishes(s, w);
    }
  }

  lemma {:induction false} OfferingFinishes(s: System, w: nat) returns (ms: seq<Move>, t: System)
    requires Good(s) && w < |s.sources| && s.sources[w].Offering?
    ensures Leads(s, ms, w, t) && |ms| <= 5 * |s.sources[w].remaining| + 1
    ensures t.sources == s.sources[w := Resting] && t.registry == s.registry && t.log == s.log
    decreases |s.sources[w].remaining|, false
  {
    if s.sources[w].remaining == {} {
      t := FanOut.Apply(s, End(w));
      assert Leads(t, [], w, t);
      LeadsOne(s, End(w), w, [], t);
      ms := [End(w)] + [];
    } else {
      var id :| id in s.sources[w].remaining;
      var first, s1 := OneTarget(s, w, id);
      assert |s1.sources[w].remaining| == |s.sources[w].remaining| - 1;
      var rest;
      rest, t := OfferingFinishes(s1, w);
      LeadsBoth(s, first, w, s1, rest, t);
      ms := first + rest;
    }
  }

  /** From wherever a run has got to, with queues full, writers dead and other sources halfway
      through their own broadcasts, source w can finish its broadcast by its own moves, at most
      five for each subscriber it has not yet seen and five more. */
  lemma {:induction false} BroadcastNeverWaits(sources: nat, ms: seq<Move>, w: nat) returns (more: seq<Move>)
    requires FanOut.Legal(Start(sources), ms) && w < |FanOut.Run(Start(sources), ms).sources|
    ensures forall m | m in more :: OwnMove(m, w)
    ensures |more| <= 5 * |Remaining(FanOut.Run(Start(sources), ms).sources[w])| + 5
    ensures FanOut.Legal(Start(sources), ms + more)
    ensures var s, t := FanOut.Run(Start(sources), ms), FanOut.Run(Start(sources), ms + more);
      t.sources == s.sources[w := Resting] && t.registry == s.registry && t.log == s.log
  {
    GoodRun(sources, ms);
    var s := FanOut.Run(Start(sources), ms);
    var t;
    more, t := BroadcastFinishes(s, w);
    GoesOn(Start(sources), ms, s, more, w, t);
    LeadsOwn(s, more, w, t);
  }
}
