/** The caster as a whole, seen from its subscribers: source handlers broadcast chunks under
    the read lock of the registry, subscribers come and go under its write lock, and every
    subscriber's queue and writer take their own steps in between. */
module FanOut {
  import opened SubscriberQueue

  /** A subscriber with its queue and writer; the trace of their steps is history. */
  datatype Sub = Sub(mount: string, key: string, response: string, st: State, trace: seq<Event>)

  /** Where a source handler stands: not broadcasting, between two queues, or at one. */
  datatype Source =
    | Resting
    | Offering(entry: nat, remaining: set<nat>)
    | AtQueue(entry: nat, remaining: set<nat>, at: nat)

  datatype Broadcast = Broadcast(mount: string, chunk: string, targets: set<nat>)

  /** The log of broadcasts is history. */
  datatype System = System(subs: map<nat, Sub>, registry: map<string, nat>, sources: seq<Source>, log: seq<Broadcast>)

  datatype Move =
    | Connect(id: nat, key: string, mount: string, response: string)
    | Register(id: nat)
    | Unregister(key: string)
    | Clear
    | Begin(w: nat, mount: string, chunk: string)
    | Visit(w: nat, id: nat)
    | Skip(w: nat, id: nat)
    | Leave(w: nat)
    | End(w: nat)
    | Inside(id: nat, e: Event)   // a step of one queue or its writer

  predicate Accepting(e: Event) {
    e.Producing? && (e.c.AcceptLoss? || e.c.AcceptSend?)
  }

  /** The write lock can be had. */
  predicate Unlocked(s: System) {
    forall w :: 0 <= w < |s.sources| ==> s.sources[w].Resting?
  }

  function RegisteredOn(s: System, mount: string): set<nat> {
    set k | k in s.registry && s.registry[k] in s.subs && s.subs[s.registry[k]].mount == mount :: s.registry[k]
  }

  predicate CanOffer(s: System, w: nat, id: nat) {
    && w < |s.sources| && s.sources[w].Offering? && id in s.sources[w].remaining
    && s.sources[w].entry < |s.log| && id in s.subs
  }

  predicate Enabled(s: System, m: Move) {
    match m
    case Connect(id, _, _, _) => id !in s.subs
    case Register(id) => id in s.subs && Unlocked(s)
    case Unregister(_) => Unlocked(s)
    case Clear => Unlocked(s)
    case Begin(w, _, chunk) => w < |s.sources| && s.sources[w].Resting? && chunk != ""
    case Visit(w, id) =>
      CanOffer(s, w, id) && SubscriberQueue.Enabled(s.subs[id].st, Offer(s, w))
    case Skip(w, id) => CanOffer(s, w, id) && s.subs[id].st.ch.closed
    case Leave(w) =>
      && w < |s.sources| && s.sources[w].AtQueue? && s.sources[w].at in s.subs
      && var ps := s.subs[s.sources[w].at].st.ch.producers;
      w < |ps| && ps[w].Idle?
    case End(w) => w < |s.sources| && s.sources[w].Offering? && s.sources[w].remaining == {}
    case Inside(id, e) => id in s.subs && !Accepting(e) && SubscriberQueue.Enabled(s.subs[id].st, e)
  }

  function Offer(s: System, w: nat): Event
    requires w < |s.sources| && !s.sources[w].Resting? && s.sources[w].entry < |s.log|
  {
    Producing(AcceptLoss(w, s.log[s.sources[w].entry].chunk, s.sources[w].entry))
  }

  function Advance(sub: Sub, e: Event): Sub
    requires SubscriberQueue.Enabled(sub.st, e)
  {
    sub.(st := SubscriberQueue.Apply(sub.st, e), trace := sub.trace + [e])
  }

  function Apply(s: System, m: Move): System
    requires Enabled(s, m)
  {
    match m
    case Connect(id, key, mount, response) =>
      s.(subs := s.subs[id := Sub(mount, key, response, SubscriberQueue.Init(|s.sources|, response), [])])
    case Register(id) => s.(registry := s.registry[s.subs[id].key := id])
    case Unregister(key) => s.(registry := s.registry - {key})
    case Clear => s.(registry := map[])
    case Begin(w, mount, chunk) =>
      var targets := RegisteredOn(s, mount);
      s.(sources := s.sources[w := Offering(|s.log|, targets)], log := s.log + [Broadcast(mount, chunk, targets)])
    case Visit(w, id) =>
      var Offering(entry, remaining) := s.sources[w];
      s.(sources := s.sources[w := AtQueue(entry, remaining - {id}, id)],
         subs := s.subs[id := Advance(s.subs[id], Offer(s, w))])
    case Skip(w, id) =>
      s.(sources := s.sources[w := Offering(s.sources[w].entry, s.sources[w].remaining - {id})])
    case Leave(w) => s.(sources := s.sources[w := Offering(s.sources[w].entry, s.sources[w].remaining)])
    case End(w) => s.(sources := s.sources[w := Resting])
    case Inside(id, e) => s.(subs := s.subs[id := Advance(s.subs[id], e)])
  }

  function Start(sources: nat): System {
    System(map[], map[], seq(sources, i => Resting), [])
  }

  ghost predicate Legal(s: System, ms: seq<Move>)
    decreases |ms|, 0
  {
    ms == [] ||
    (Legal(s, ms[..|ms| - 1]) && Enabled(Run(s, ms[..|ms| - 1]), ms[|ms| - 1]))
  }

  ghost function Run(s: System, ms: seq<Move>): System
    requires Legal(s, ms)
    decreases |ms|, 1
  {
    if ms == [] then s else Apply(Run(s, ms[..|ms| - 1]), ms[|ms| - 1])
  }

  // ---------- invariants ----------

  /** The queue and writer of a subscriber got where they are by a run of their own steps. */
  ghost predicate Tracked(sub: Sub, sources: nat) {
    var init := SubscriberQueue.Init(sources, sub.response);
    SubscriberQueue.Legal(init, sub.trace) && SubscriberQueue.Run(init, sub.trace) == sub.st
  }

  /** Each accepted packet is one broadcast on this mount to this subscriber, none twice. */
  ghost predicate Traceable(accepted: seq<Packet>, log: seq<Broadcast>, id: nat, mount: string) {
    && (forall i :: 0 <= i < |accepted| ==> Carries(accepted[i], log, id, mount))
    && (forall i, j :: 0 <= i < j < |accepted| ==> accepted[i].origin != accepted[j].origin)
  }

  predicate Carries(p: Packet, log: seq<Broadcast>, id: nat, mount: string) {
    p.origin < |log| && log[p.origin].mount == mount && log[p.origin].chunk == p.bytes && id in log[p.origin].targets
  }

  ghost predicate Untouched(accepted: seq<Packet>, entry: nat) {
    forall i :: 0 <= i < |accepted| ==> accepted[i].origin != entry
  }

  ghost predicate SubsOk(s: System) {
    forall id | id in s.subs ::
      Tracked(s.subs[id], |s.sources|) && Traceable(s.subs[id].st.ch.accepted, s.log, id, s.subs[id].mount)
  }

  /** A source that broadcasts holds the read lock, so the subscribers it set out to reach
      are still the registered ones; those still ahead have nothing of this broadcast. */
  ghost predicate SourceOk(s: System, w: nat)
    requires w < |s.sources|
  {
    var src := s.sources[w];
    !src.Resting? ==>
      && src.entry < |s.log|
      && s.log[src.entry].targets == RegisteredOn(s, s.log[src.entry].mount)
      && src.remaining <= s.log[src.entry].targets
      && (src.AtQueue? ==> src.at in s.log[src.entry].targets)
      && (forall id | id in src.remaining :: id in s.subs && Untouched(s.subs[id].st.ch.accepted, src.entry))
  }

  ghost predicate SourcesOk(s: System) {
    && (forall w :: 0 <= w < |s.sources| ==> SourceOk(s, w))
    && (forall v, w :: 0 <= v < w < |s.sources| && !s.sources[v].Resting? && !s.sources[w].Resting? ==>
          s.sources[v].entry != s.sources[w].entry)
  }

  ghost predicate Inv(s: System) {
    SubsOk(s) && SourcesOk(s) && (forall k | k in s.registry :: s.registry[k] in s.subs)
  }

  lemma AdvanceTracked(sub: Sub, sources: nat, e: Event)
    requires Tracked(sub, sources) && SubscriberQueue.Enabled(sub.st, e)
    ensures Tracked(Advance(sub, e), sources)
    ensures !Accepting(e) ==> Advance(sub, e).st.ch.accepted == sub.st.ch.accepted
  {
    assert (sub.trace + [e])[..|sub.trace|] == sub.trace;
  }

  lemma TraceableExtends(accepted: seq<Packet>, log: seq<Broadcast>, b: Broadcast, id: nat, mount: string)
    requires Traceable(accepted, log, id, mount)
    ensures Traceable(accepted, log + [b], id, mount) && Untouched(accepted, |log|)
  {
    forall i | 0 <= i < |accepted|
      ensures Carries(accepted[i], log + [b], id, mount) && accepted[i].origin < |log|
    {
      assert Carries(accepted[i], log, id, mount);
    }
  }

  /** Everything but the subscribers' insides and the registry is as before, so the sources
      see the same registered subscribers. */
  lemma SameRegistered(s: System, t: System, mount: string)
    requires s.registry == t.registry && s.subs.Keys == t.subs.Keys
    requires forall id | id in s.subs :: s.subs[id].mount == t.subs[id].mount
    ensures RegisteredOn(s, mount) == RegisteredOn(t, mount)
  {
  }

  lemma ConnectStep(s: System, m: Move)
    requires Inv(s) && m.Connect? && Enabled(s, m)
    ensures Inv(Apply(s, m))
  {
    var t := Apply(s, m);
    assert SubsOk(t);
    forall w | 0 <= w < |t.sources| ensures SourceOk(t, w) {
      assert SourceOk(s, w);
      forall mount ensures RegisteredOn(s, mount) == RegisteredOn(t, mount) {
      }
    }
  }

  lemma RegistryStep(s: System, m: Move)
    requires Inv(s) && (m.Register? || m.Unregister? || m.Clear?) && Enabled(s, m)
    ensures Inv(Apply(s, m))
  {
    var t := Apply(s, m);
    NobodyOffers(t);
    assert SubsOk(t);
  }

  lemma NobodyOffers(s: System)
    requires Unlocked(s)
    ensures SourcesOk(s)
  {
    forall w | 0 <= w < |s.sources| ensures SourceOk(s, w) {
      assert s.sources[w].Resting?;
    }
  }

  lemma BeginStep(s: System, m: Move)
    requires Inv(s) && m.Begin? && Enabled(s, m)
    ensures Inv(Apply(s, m))
  {
    var t := Apply(s, m);
    forall mount ensures RegisteredOn(s, mount) == RegisteredOn(t, mount) {
      SameRegistered(s, t, mount);
    }
    forall id | id in s.subs
      ensures Traceable(t.subs[id].st.ch.accepted, t.log, id, t.subs[id].mount)
      ensures Untouched(t.subs[id].st.ch.accepted, |s.log|)
    {
      TraceableExtends(s.subs[id].st.ch.accepted, s.log, t.log[|s.log|], id, s.subs[id].mount);
    }
    forall w | 0 <= w < |t.sources|
      ensures SourceOk(t, w)
      ensures w != m.w && !t.sources[w].Resting? ==> t.sources[w].entry < |s.log|
    {
      assert SourceOk(s, w);
    }
  }

  lemma SourceStep(s: System, m: Move)
    requires Inv(s) && (m.Skip? || m.Leave? || m.End?) && Enabled(s, m)
    ensures Inv(Apply(s, m))
  {
    var t := Apply(s, m);
    forall mount ensures RegisteredOn(s, mount) == RegisteredOn(t, mount) {
      SameRegistered(s, t, mount);
    }
    forall w | 0 <= w < |t.sources| ensures SourceOk(t, w) {
      assert SourceOk(s, w);
    }
  }

  lemma InsideStep(s: System, m: Move)
    requires Inv(s) && m.Inside? && Enabled(s, m)
    ensures Inv(Apply(s, m))
  {
    var t := Apply(s, m);
    AdvanceTracked(s.subs[m.id], |s.sources|, m.e);
    forall mount ensures RegisteredOn(s, mount) == RegisteredOn(t, mount) {
      SameRegistered(s, t, mount);
    }
    forall w | 0 <= w < |t.sources| ensures SourceOk(t, w) {
      assert SourceOk(s, w);
    }
  }

  /** What a visit adds to the subscriber's accepted packets. */
  lemma VisitAccepts(s: System, w: nat, id: nat)
    requires Inv(s) && Enabled(s, Visit(w, id))
    ensures var sub, sub' := s.subs[id], Apply(s, Visit(w, id)).subs[id];
      && Tracked(sub', |s.sources|) && sub'.mount == sub.mount
      && sub'.st.ch.accepted == sub.st.ch.accepted
           + [Packet(|sub.st.ch.accepted|, s.sources[w].entry, s.log[s.sources[w].entry].chunk)]
      && Traceable(sub'.st.ch.accepted, s.log, id, sub.mount)
  {
    AdvanceTracked(s.subs[id], |s.sources|, Offer(s, w));
    assert SourceOk(s, w);
    assert Carries(Packet(|s.subs[id].st.ch.accepted|, s.sources[w].entry, s.log[s.sources[w].entry].chunk),
                   s.log, id, s.subs[id].mount);
  }

  lemma VisitStep(s: System, m: Move)
    requires Inv(s) && m.Visit? && Enabled(s, m)
    ensures Inv(Apply(s, m))
  {
    var t := Apply(s, m);
    VisitAccepts(s, m.w, m.id);
    forall mount ensures RegisteredOn(s, mount) == RegisteredOn(t, mount) {
      SameRegistered(s, t, mount);
    }
    forall v | 0 <= v < |t.sources| ensures SourceOk(t, v) {
      VisitKeepsSource(s, m.w, m.id, v);
    }
  }

  lemma VisitKeepsSource(s: System, w: nat, id: nat, v: nat)
    requires Inv(s) && Enabled(s, Visit(w, id)) && v < |s.sources|
    ensures SourceOk(Apply(s, Visit(w, id)), v)
  {
    var t := Apply(s, Visit(w, id));
    VisitAccepts(s, w, id);
    assert SourceOk(s, v) && SourceOk(s, w);
    if !s.sources[v].Resting? {
      SameRegistered(s, t, s.log[s.sources[v].entry].mount);
      assert v != w ==> s.sources[v].entry != s.sources[w].entry;
    }
  }

  lemma StepInv(s: System, m: Move)
    requires Inv(s) && Enabled(s, m)
    ensures Inv(Apply(s, m))
  {
    match m
    case Connect(_, _, _, _) => ConnectStep(s, m);
    case Register(_) => RegistryStep(s, m);
    case Unregister(_) => RegistryStep(s, m);
    case Clear => RegistryStep(s, m);
    case Begin(_, _, _) => BeginStep(s, m);
    case Visit(_, _) => VisitStep(s, m);
    case Skip(_, _) => SourceStep(s, m);
    case Leave(_) => SourceStep(s, m);
    case End(_) => SourceStep(s, m);
    case Inside(_, _) => InsideStep(s, m);
  }

  lemma {:induction false} RunInv(sources: nat, ms: seq<Move>)
    requires Legal(Start(sources), ms)
    ensures Inv(Run(Start(sources), ms))
  {
    if ms != [] {
      RunInv(sources, ms[..|ms| - 1]);
      StepInv(Run(Start(sources), ms[..|ms| - 1]), ms[|ms| - 1]);
    }
  }

  // ---------- end to end ----------

  lemma {:induction false} CountConcat(ps: seq<Packet>, qs: seq<Packet>, p: Packet)
    ensures Count(ps + qs, p) == Count(ps, p) + Count(qs, p)
  {
    if qs == [] {
      assert ps + qs == ps;
    } else {
      assert (ps + qs)[..|ps + qs| - 1] == ps + qs[..|qs| - 1];
      CountConcat(ps, qs[..|qs| - 1], p);
    }
  }

  lemma CountTwice(ps: seq<Packet>, i: nat, j: nat)
    requires i < j < |ps| && ps[i] == ps[j]
    ensures Count(ps, ps[i]) >= 2
  {
    CountConcat(ps[..j], ps[j..], ps[i]);
    CountPositive(ps[..j], ps[i]);
    CountPositive(ps[j..], ps[i]);
    assert ps == ps[..j] + ps[j..];
    assert ps[..j][i] == ps[i] && ps[j..][0] == ps[j];
  }

  /** In every run, the bytes on a subscriber's connection are its success response, then
      whole packets back to back, then the start of at most one more. Every one of them is a
      chunk that was broadcast on the subscriber's own mount while it was registered, no
      chunk comes twice, and they come in the order in which they were queued. */
  lemma {:induction false} EndToEnd(sources: nat, ms: seq<Move>, id: nat)
    requires Legal(Start(sources), ms) && id in Run(Start(sources), ms).subs
    ensures var s := Run(Start(sources), ms);
      var sub := s.subs[id];
      var o := sub.st.out;
      var attempted := o.sent + InHand(o.writer);
      && o.wire == sub.response + Concat(o.sent) + Partial(o.writer)
      && (forall p | p in InHand(o.writer) :: Partial(o.writer) <= p.bytes)
      && InOrder(o.taken, attempted, sub.st.ch.pushed, Gone(sub.st.ch))
      && (forall i :: 0 <= i < |attempted| ==> Carries(attempted[i], s.log, id, sub.mount))
      && (forall i, j :: 0 <= i < j < |attempted| ==> attempted[i].origin != attempted[j].origin)
  {
    RunInv(sources, ms);
    SourcesStay(sources, ms);
    var s := Run(Start(sources), ms);
    var sub := s.subs[id];
    WireFraming(sources, sub.response, sub.trace);
    var attempted := sub.st.out.sent + InHand(sub.st.out.writer);
    forall i | 0 <= i < |attempted|
      ensures attempted[i] in sub.st.ch.accepted && Count(attempted, attempted[i]) <= 1
    {
      Conservation(sources, sub.response, sub.trace, attempted[i]);
      CountConcat(sub.st.out.sent, InHand(sub.st.out.writer), attempted[i]);
      CountPositive(attempted, attempted[i]);
    }
    forall i, j | 0 <= i < j < |attempted|
      ensures attempted[i].origin != attempted[j].origin
    {
      if attempted[i] == attempted[j] {
        CountTwice(attempted, i, j);
      }
    }
  }

  lemma {:induction false} SourcesStay(sources: nat, ms: seq<Move>)
    requires Legal(Start(sources), ms)
    ensures |Run(Start(sources), ms).sources| == sources
  {
    if ms != [] {
      SourcesStay(sources, ms[..|ms| - 1]);
    }
  }

  /** While a source is offering a chunk, the subscribers registered on the chunk's mount are
      still exactly those it set out to reach: the registry cannot change under it. */
  lemma {:induction false} BroadcastSeesOneRegistry(sources: nat, ms: seq<Move>, w: nat)
    requires Legal(Start(sources), ms) && w < |Run(Start(sources), ms).sources|
    requires !Run(Start(sources), ms).sources[w].Resting?
    ensures var s := Run(Start(sources), ms);
      && s.sources[w].entry < |s.log|
      && s.log[s.sources[w].entry].targets == RegisteredOn(s, s.log[s.sources[w].entry].mount)
  {
    RunInv(sources, ms);
    assert SourceOk(Run(Start(sources), ms), w);
  }

  // ---------- every broadcast is complete ----------

  /** The subscriber accepted the broadcast, or was closed. */
  ghost predicate Got(sub: Sub, entry: nat) {
    sub.st.ch.closed || exists i :: 0 <= i < |sub.st.ch.accepted| && sub.st.ch.accepted[i].origin == entry
  }

  /** A source still has the broadcast to offer to the subscriber. */
  ghost predicate Pending(s: System, entry: nat, id: nat) {
    exists w :: 0 <= w < |s.sources| && Ahead(s.sources[w], entry, id)
  }

  predicate Ahead(src: Source, entry: nat, id: nat) {
    !src.Resting? && src.entry == entry && id in src.remaining
  }

  ghost predicate Offered(s: System, entry: nat, id: nat) {
    id in s.subs && (Got(s.subs[id], entry) || Pending(s, entry, id))
  }

  lemma AdvanceKeepsGot(sub: Sub, e: Event, entry: nat)
    requires SubscriberQueue.Enabled(sub.st, e) && Got(sub, entry)
    ensures Got(Advance(sub, e), entry)
  {
    var accepted := sub.st.ch.accepted;
    var accepted' := Advance(sub, e).st.ch.accepted;
    assert accepted <= accepted';
    if !sub.st.ch.closed {
      var i :| 0 <= i < |accepted| && accepted[i].origin == entry;
      assert accepted'[i] == accepted[i];
    }
  }

  lemma VisitedGot(s: System, w: nat, id: nat)
    requires Enabled(s, Visit(w, id))
    ensures Got(Apply(s, Visit(w, id)).subs[id], s.sources[w].entry)
  {
    var accepted := Apply(s, Visit(w, id)).subs[id].st.ch.accepted;
    assert accepted[|accepted| - 1].origin == s.sources[w].entry;
  }

  /** A broadcast that a step starts is ahead of all its targets. */
  lemma BeginOffers(s: System, m: Move, id: nat)
    requires Inv(s) && m.Begin? && Enabled(s, m) && id in Apply(s, m).log[|s.log|].targets
    ensures Offered(Apply(s, m), |s.log|, id)
  {
    assert Ahead(Apply(s, m).sources[m.w], |s.log|, id);
  }

  lemma PendingStep(s: System, m: Move, entry: nat, id: nat)
    requires Enabled(s, m) && id in s.subs && Pending(s, entry, id)
    ensures Offered(Apply(s, m), entry, id)
  {
    var t := Apply(s, m);
    var w :| 0 <= w < |s.sources| && Ahead(s.sources[w], entry, id);
    if m.Visit? && m.w == w && m.id == id {
      VisitedGot(s, w, id);
    } else if m.Skip? && m.w == w && m.id == id {
      assert t.subs[id].st.ch.closed;
    } else {
      assert Ahead(t.sources[w], entry, id);
    }
  }

  lemma GotStep(s: System, m: Move, entry: nat, id: nat)
    requires Enabled(s, m) && id in s.subs && Got(s.subs[id], entry)
    ensures id in Apply(s, m).subs && Got(Apply(s, m).subs[id], entry)
  {
    if m.Visit? && m.id == id {
      AdvanceKeepsGot(s.subs[id], Offer(s, m.w), entry);
    } else if m.Inside? && m.id == id {
      AdvanceKeepsGot(s.subs[id], m.e, entry);
    }
  }

  lemma {:induction false} OfferedRun(sources: nat, ms: seq<Move>, entry: nat, id: nat)
    requires Legal(Start(sources), ms)
    requires var log := Run(Start(sources), ms).log; entry < |log| && id in log[entry].targets
    ensures Offered(Run(Start(sources), ms), entry, id)
  {
    if ms != [] {
      var before, m := ms[..|ms| - 1], ms[|ms| - 1];
      var s := Run(Start(sources), before);
      if entry == |s.log| {
        RunInv(sources, before);
        BeginOffers(s, m, id);
      } else {
        OfferedRun(sources, before, entry, id);
        if Got(s.subs[id], entry) {
          GotStep(s, m, entry, id);
        } else {
          PendingStep(s, m, entry, id);
        }
      }
    }
  }

  /** In every run, once no source is busy with a broadcast any more, each subscriber that was
      registered on its mount has accepted it or was closed. */
  lemma {:induction false} BroadcastIsComplete(sources: nat, ms: seq<Move>, entry: nat, id: nat)
    requires Legal(Start(sources), ms)
    requires var s := Run(Start(sources), ms);
      && entry < |s.log| && id in s.log[entry].targets
      && forall w :: 0 <= w < |s.sources| && !s.sources[w].Resting? ==> s.sources[w].entry != entry
    ensures id in Run(Start(sources), ms).subs && Got(Run(Start(sources), ms).subs[id], entry)
  {
    OfferedRun(sources, ms, entry, id);
  }

  // ---------- one broadcast at a time on each mount ----------

  predicate MountFree(s: System, mount: string) {
    forall v :: 0 <= v < |s.sources| && !s.sources[v].Resting? && s.sources[v].entry < |s.log| ==>
      s.log[s.sources[v].entry].mount != mount
  }

  /** No broadcast began while another on its mount was under way. */
  ghost predicate Exclusive(s: System, ms: seq<Move>)
    requires Legal(s, ms)
  {
    ms == [] ||
    (Exclusive(s, ms[..|ms| - 1])
     && (ms[|ms| - 1].Begin? ==> MountFree(Run(s, ms[..|ms| - 1]), ms[|ms| - 1].mount)))
  }

  ghost predicate Ascending(ps: seq<Packet>) {
    forall i, j :: 0 <= i < j < |ps| ==> ps[i].origin < ps[j].origin
  }

  /** The broadcast a source is busy with is the latest one on its mount. */
  ghost predicate Latest(s: System) {
    forall w :: 0 <= w < |s.sources| && !s.sources[w].Resting? ==>
      && s.sources[w].entry < |s.log|
      && forall k :: s.sources[w].entry < k < |s.log| ==> s.log[k].mount != s.log[s.sources[w].entry].mount
  }

  /** A source that holds a packet for a queue is at that queue. */
  ghost predicate HeldAt(sources: seq<Source>, ps: seq<Producer>, id: nat) {
    forall w :: 0 <= w < |ps| && !ps[w].Idle? ==> w < |sources| && sources[w].AtQueue? && sources[w].at == id
  }

  ghost predicate HeldOnlyAt(s: System) {
    forall id | id in s.subs :: HeldAt(s.sources, s.subs[id].st.ch.producers, id)
  }

  /** At most one source is at work at the queue, the packets came in the order in which they
      were broadcast, and none but older ones were dropped. */
  ghost predicate Ordered(c: Channel) {
    && Ascending(c.accepted) && c.pushed <= c.accepted && OnlyOlderDropped(c)
    && (|c.producers| > 0 ==> exists w: nat :: Fresh(c, w))
  }

  ghost predicate AllOrdered(s: System) {
    forall id | id in s.subs :: Ordered(s.subs[id].st.ch)
  }

  lemma LatestStep(s: System, m: Move)
    requires Latest(s) && Enabled(s, m) && (m.Begin? ==> MountFree(s, m.mount))
    ensures Latest(Apply(s, m))
  {
  }

  lemma InsideHolds(st: State, e: Event)
    requires SubscriberQueue.Enabled(st, e) && !Accepting(e)
    ensures var ps, ps' := st.ch.producers, SubscriberQueue.Apply(st, e).ch.producers;
      |ps'| == |ps| && forall w :: 0 <= w < |ps| && ps[w].Idle? ==> ps'[w].Idle?
  {
  }

  lemma VisitHolds(s: System, m: Move)
    requires m.Visit? && Enabled(s, m)
    ensures var ps, ps' := s.subs[m.id].st.ch.producers, Apply(s, m).subs[m.id].st.ch.producers;
      |ps'| == |ps| && forall w :: 0 <= w < |ps| && w != m.w ==> ps'[w] == ps[w]
  {
  }

  lemma HeldByVisit(s: System, m: Move)
    requires HeldOnlyAt(s) && m.Visit? && Enabled(s, m)
    ensures HeldOnlyAt(Apply(s, m))
  {
    var t := Apply(s, m);
    VisitHolds(s, m);
    forall id | id in t.subs ensures HeldAt(t.sources, t.subs[id].st.ch.producers, id) {
      assert HeldAt(s.sources, s.subs[id].st.ch.producers, id);
    }
  }

  lemma HeldByInside(s: System, m: Move)
    requires HeldOnlyAt(s) && m.Inside? && Enabled(s, m)
    ensures HeldOnlyAt(Apply(s, m))
  {
    var t := Apply(s, m);
    InsideHolds(s.subs[m.id].st, m.e);
    forall id | id in t.subs ensures HeldAt(t.sources, t.subs[id].st.ch.producers, id) {
      assert HeldAt(s.sources, s.subs[id].st.ch.producers, id);
    }
  }

  lemma HeldByOther(s: System, m: Move)
    requires HeldOnlyAt(s) && !m.Visit? && !m.Inside? && Enabled(s, m)
    ensures HeldOnlyAt(Apply(s, m))
  {
    var t := Apply(s, m);
    forall id | id in t.subs ensures HeldAt(t.sources, t.subs[id].st.ch.producers, id) {
      if id in s.subs {
        assert HeldAt(s.sources, s.subs[id].st.ch.producers, id);
      }
    }
  }

  lemma HeldStep(s: System, m: Move)
    requires HeldOnlyAt(s) && Enabled(s, m)
    ensures HeldOnlyAt(Apply(s, m))
  {
    if m.Inside? {
      HeldByInside(s, m);
    } else if m.Visit? {
      HeldByVisit(s, m);
    } else {
      HeldByOther(s, m);
    }
  }

  lemma FreshAny(c: Channel, w: nat, v: nat)
    requires Fresh(c, w) && c.producers[w].Idle? && v < |c.producers|
    ensures Fresh(c, v)
  {
  }

  /** Two sources with a broadcast for the same subscriber are the same. */
  lemma SameSubscriber(s: System, v: nat, w: nat, id: nat)
    requires Inv(s) && Latest(s) && v < |s.sources| && w < |s.sources|
    requires !s.sources[v].Resting? && !s.sources[w].Resting?
    requires id in s.log[s.sources[v].entry].targets && id in s.log[s.sources[w].entry].targets
    ensures v == w
  {
    assert SourceOk(s, v) && SourceOk(s, w);
    SameMount(s, id, s.log[s.sources[v].entry].mount);
    SameMount(s, id, s.log[s.sources[w].entry].mount);
  }

  /** A source about to offer to a queue finds nobody at work there. */
  lemma NobodyElseAt(s: System, v: nat, id: nat, w: nat)
    requires Inv(s) && Latest(s) && HeldOnlyAt(s) && CanOffer(s, v, id) && w < |s.subs[id].st.ch.producers|
    ensures s.subs[id].st.ch.producers[w].Idle?
  {
    if !s.subs[id].st.ch.producers[w].Idle? {
      HolderIsThere(s, id, w);
      assert SourceOk(s, v) && SourceOk(s, w);
      SameSubscriber(s, v, w, id);
    }
  }

  lemma HolderIsThere(s: System, id: nat, w: nat)
    requires HeldOnlyAt(s) && id in s.subs
    requires w < |s.subs[id].st.ch.producers| && !s.subs[id].st.ch.producers[w].Idle?
    ensures w < |s.sources| && s.sources[w].AtQueue? && s.sources[w].at == id
  {
    assert HeldAt(s.sources, s.subs[id].st.ch.producers, id);
  }

  lemma SameMount(s: System, id: nat, mount: string)
    requires id in RegisteredOn(s, mount)
    ensures id in s.subs && s.subs[id].mount == mount
  {
  }

  /** What the subscriber has already comes from earlier broadcasts. */
  lemma OlderThan(s: System, id: nat, v: nat)
    requires Inv(s) && Latest(s) && CanOffer(s, v, id)
    ensures forall i :: 0 <= i < |s.subs[id].st.ch.accepted| ==> s.subs[id].st.ch.accepted[i].origin < s.sources[v].entry
  {
    assert SourceOk(s, v);
    SameMount(s, id, s.log[s.sources[v].entry].mount);
    var accepted := s.subs[id].st.ch.accepted;
    forall i | 0 <= i < |accepted| ensures accepted[i].origin < s.sources[v].entry {
      assert Carries(accepted[i], s.log, id, s.subs[id].mount);
    }
  }

  lemma AcceptInOrder(st: State, e: Event, w: nat)
    requires Fresh(st.ch, w) && Ordered(st.ch) && |st.ch.queue| <= QUEUE_SIZE && SubscriberQueue.Enabled(st, e)
    requires e.Producing? && e.c.AcceptLoss? && e.c.who == w
    requires forall i :: 0 <= i < |st.ch.accepted| ==> st.ch.accepted[i].origin < e.c.origin
    ensures Ordered(SubscriberQueue.Apply(st, e).ch)
  {
    ProduceKeepsFresh(st.ch, e.c, w);
  }

  /** The source that is about to offer is the one at work at the queue. */
  lemma OffererIsFresh(s: System, v: nat, id: nat)
    requires Inv(s) && Latest(s) && HeldOnlyAt(s) && CanOffer(s, v, id)
    requires Ordered(s.subs[id].st.ch) && v < |s.subs[id].st.ch.producers|
    ensures Fresh(s.subs[id].st.ch, v)
  {
    var c := s.subs[id].st.ch;
    var w: nat :| Fresh(c, w);
    NobodyElseAt(s, v, id, w);
    FreshAny(c, w, v);
  }

  lemma VisitInOrder(s: System, m: Move)
    requires Inv(s) && Latest(s) && HeldOnlyAt(s) && AllOrdered(s) && m.Visit? && Enabled(s, m)
    ensures AllOrdered(Apply(s, m))
  {
    var sub := s.subs[m.id];
    assert Ordered(sub.st.ch);
    OffererIsFresh(s, m.w, m.id);
    TrackedBound(sub, |s.sources|);
    OlderThan(s, m.id, m.w);
    AcceptInOrder(sub.st, Offer(s, m.w), m.w);
  }

  lemma InsideInOrder(s: System, m: Move)
    requires Inv(s) && AllOrdered(s) && m.Inside? && Enabled(s, m)
    ensures AllOrdered(Apply(s, m))
  {
    TrackedBound(s.subs[m.id], |s.sources|);
    InsideKeepsOrder(s.subs[m.id].st, m.e);
  }

  lemma InsideKeepsOrder(st: State, e: Event)
    requires Ordered(st.ch) && |st.ch.queue| <= QUEUE_SIZE && QueueIsTail(st.ch) && Ticketed(st.ch)
    requires !Accepting(e) && SubscriberQueue.Enabled(st, e)
    ensures Ordered(SubscriberQueue.Apply(st, e).ch)
  {
    if e.Producing? && !e.c.MarkClosed? {
      var w: nat :| Fresh(st.ch, w);
      assert e.c.who == w;
      ProduceKeepsFresh(st.ch, e.c, w);
      ProduceDropsOlder(st.ch, e.c, w);
    } else {
      OthersKeepFresh(st, e);
    }
  }

  lemma OthersKeepFresh(st: State, e: Event)
    requires SubscriberQueue.Enabled(st, e) && (e.Producing? ==> e.c.MarkClosed?)
    ensures var c, c' := st.ch, SubscriberQueue.Apply(st, e).ch;
      && c'.producers == c.producers && c'.accepted == c.accepted && c'.pushed == c.pushed && c'.discarded == c.discarded
      && forall w: nat | Fresh(c, w) :: Fresh(c', w)
  {
  }

  lemma TrackedBound(sub: Sub, sources: nat)
    requires Tracked(sub, sources)
    ensures |sub.st.ch.queue| <= QUEUE_SIZE && QueueIsTail(sub.st.ch) && Ticketed(sub.st.ch)
  {
    SubscriberQueue.RunInv(sources, sub.response, sub.trace);
  }

  lemma ConnectOrdered(s: System, m: Move)
    requires AllOrdered(s) && m.Connect? && Enabled(s, m)
    ensures AllOrdered(Apply(s, m))
  {
    var c := SubscriberQueue.Init(|s.sources|, m.response).ch;
    if |c.producers| > 0 {
      assert Fresh(c, 0);
    }
  }

  lemma {:induction false} InOrderRun(sources: nat, ms: seq<Move>)
    requires Legal(Start(sources), ms) && Exclusive(Start(sources), ms)
    ensures var s := Run(Start(sources), ms); Latest(s) && HeldOnlyAt(s) && AllOrdered(s)
  {
    if ms != [] {
      var before, m := ms[..|ms| - 1], ms[|ms| - 1];
      InOrderRun(sources, before);
      RunInv(sources, before);
      InOrderStep(Run(Start(sources), before), m);
    }
  }

  lemma InOrderStep(s: System, m: Move)
    requires Inv(s) && Latest(s) && HeldOnlyAt(s) && AllOrdered(s) && Enabled(s, m)
    requires m.Begin? ==> MountFree(s, m.mount)
    ensures var t := Apply(s, m); Latest(t) && HeldOnlyAt(t) && AllOrdered(t)
  {
    LatestStep(s, m);
    HeldStep(s, m);
    if m.Visit? {
      VisitInOrder(s, m);
    } else if m.Inside? {
      InsideInOrder(s, m);
    } else if m.Connect? {
      ConnectOrdered(s, m);
    }
  }

  /** Sources that keep to different mounts never overlap. */
  lemma {:induction false} OwnMountsExclusive(sources: nat, ms: seq<Move>, owner: nat -> string)
    requires Legal(Start(sources), ms)
    requires forall v, w :: 0 <= v < w < sources ==> owner(v) != owner(w)
    requires forall m | m in ms && m.Begin? :: m.mount == owner(m.w)
    ensures Exclusive(Start(sources), ms)
    ensures var s := Run(Start(sources), ms);
      |s.sources| == sources && BusyOnOwn(s, owner)
  {
    if ms != [] {
      var before, m := ms[..|ms| - 1], ms[|ms| - 1];
      assert m in ms;
      OwnMountsExclusive(sources, before, owner);
      BusyOnOwnStep(Run(Start(sources), before), m, owner);
    }
  }

  ghost predicate BusyOnOwn(s: System, owner: nat -> string) {
    forall w :: 0 <= w < |s.sources| && !s.sources[w].Resting? ==>
      s.sources[w].entry < |s.log| && s.log[s.sources[w].entry].mount == owner(w)
  }

  lemma BusyOnOwnStep(s: System, m: Move, owner: nat -> string)
    requires BusyOnOwn(s, owner) && Enabled(s, m) && (m.Begin? ==> m.mount == owner(m.w))
    requires forall v, w :: 0 <= v < w < |s.sources| ==> owner(v) != owner(w)
    ensures BusyOnOwn(Apply(s, m), owner) && |Apply(s, m).sources| == |s.sources|
    ensures m.Begin? ==> MountFree(s, m.mount)
  {
    if m.Begin? {
      forall v | 0 <= v < |s.sources| && !s.sources[v].Resting?
        ensures s.log[s.sources[v].entry].mount != m.mount
      {
        assert v < m.w || m.w < v;
      }
    }
  }

  /** When no two broadcasts on one mount overlap, a subscriber gets its chunks in the order in
      which they were broadcast, the newest chunk offered to it is never dropped, and its queue
      is always a contiguous run of the newest chunks pushed. */
  lemma {:induction false} InSourceOrder(sources: nat, ms: seq<Move>, id: nat)
    requires Legal(Start(sources), ms) && Exclusive(Start(sources), ms) && id in Run(Start(sources), ms).subs
    ensures var st := Run(Start(sources), ms).subs[id].st;
      && Ascending(st.out.sent + InHand(st.out.writer))
      && Ascending(st.ch.accepted) && st.ch.pushed <= st.ch.accepted && NewestKept(st.ch)
      && |st.ch.queue| <= |st.ch.pushed| && st.ch.queue == st.ch.pushed[|st.ch.pushed| - |st.ch.queue|..]
  {
    InOrderRun(sources, ms);
    EndToEnd(sources, ms, id);
    RunInv(sources, ms);
    var s := Run(Start(sources), ms);
    assert Ordered(s.subs[id].st.ch);
    TrackedBound(s.subs[id], |s.sources|);
    OlderDroppedKeepsNewest(s.subs[id].st.ch);
    TakenInOrder(s.subs[id].st.out, s.subs[id].st.ch);
  }

  /** The writer takes packets in queue order. */
  lemma TakenInOrder(o: Outlet, c: Channel)
    requires InOrder(o.taken, o.sent + InHand(o.writer), c.pushed, Gone(c))
    requires Ascending(c.accepted) && c.pushed <= c.accepted
    ensures Ascending(o.sent + InHand(o.writer))
  {
    forall i, j | 0 <= i < j < |c.pushed| ensures c.pushed[i].origin < c.pushed[j].origin {
      assert c.pushed[i] == c.accepted[i] && c.pushed[j] == c.accepted[j];
    }
  }

  // ---------- who broadcast what ----------

  /** Which source made each entry of the log. */
  function Writers(ms: seq<Move>): seq<nat> {
    if ms == [] then []
    else
      var m := ms[|ms| - 1];
      Writers(ms[..|ms| - 1]) + if m.Begin? then [m.w] else []
  }

  /** The chunks that source w broadcast, in its order. */
  function ChunksOf(ms: seq<Move>, w: nat): seq<string> {
    if ms == [] then []
    else
      var m := ms[|ms| - 1];
      ChunksOf(ms[..|ms| - 1], w) + if m.Begin? && m.w == w then [m.chunk] else []
  }

  function Times(ws: seq<nat>, w: nat): nat {
    if ws == [] then 0 else Times(ws[..|ws| - 1], w) + if ws[|ws| - 1] == w then 1 else 0
  }

  /** Entry `entry` of the log is the chunk of its source with this number. */
  function Number(ms: seq<Move>, entry: nat): nat
    requires entry < |Writers(ms)|
  {
    Times(Writers(ms)[..entry], Writers(ms)[entry])
  }

  lemma {:induction false} LogIsWritten(sources: nat, ms: seq<Move>, w: nat)
    requires Legal(Start(sources), ms)
    ensures |Writers(ms)| == |Run(Start(sources), ms).log| && |ChunksOf(ms, w)| == Times(Writers(ms), w)
  {
    if ms != [] {
      LogIsWritten(sources, ms[..|ms| - 1], w);
      var before, m := Writers(ms[..|ms| - 1]), ms[|ms| - 1];
      if m.Begin? {
        assert (before + [m.w])[..|before|] == before;
      } else {
        assert before + [] == before;
      }
    }
  }

  /** What one more move does to the chunks, their sources and the log. */
  lemma OneMoreMove(sources: nat, ms: seq<Move>, w: nat)
    requires Legal(Start(sources), ms) && ms != []
    ensures var before, m := ms[..|ms| - 1], ms[|ms| - 1];
      && Writers(ms) == Writers(before) + (if m.Begin? then [m.w] else [])
      && ChunksOf(ms, w) == ChunksOf(before, w) + (if m.Begin? && m.w == w then [m.chunk] else [])
      && |Writers(before)| == |Run(Start(sources), before).log|
      && |ChunksOf(before, w)| == Times(Writers(before), w)
      && (m.Begin? ==> |Run(Start(sources), ms).log| == |Run(Start(sources), before).log| + 1
                       && Run(Start(sources), ms).log[|Writers(before)|].chunk == m.chunk)
      && Run(Start(sources), before).log <= Run(Start(sources), ms).log
      && (!m.Begin? ==> Run(Start(sources), ms).log == Run(Start(sources), before).log)
  {
    LogIsWritten(sources, ms[..|ms| - 1], w);
  }

  /** Each entry of the log is one chunk of the source that made it. */
  lemma {:induction false} EntryIsChunk(sources: nat, ms: seq<Move>, entry: nat)
    requires Legal(Start(sources), ms) && entry < |Run(Start(sources), ms).log|
    ensures entry < |Writers(ms)|
    ensures var chunks := ChunksOf(ms, Writers(ms)[entry]);
      Number(ms, entry) < |chunks| && chunks[Number(ms, entry)] == Run(Start(sources), ms).log[entry].chunk
  {
    var before := ms[..|ms| - 1];
    LogIsWritten(sources, ms, 0);
    OneMoreMove(sources, ms, Writers(ms)[entry]);
    assert Writers(ms)[..entry] == Writers(before)[..entry];
    if entry < |Writers(before)| {
      EntryIsChunk(sources, before, entry);
    }
  }

  /** The chunks of one source are numbered in the order of the log. */
  lemma {:induction false} NumbersAscend(ws: seq<nat>, i: nat, j: nat)
    requires i < j <= |ws|
    ensures Times(ws[..i], ws[i]) < Times(ws[..j], ws[i])
  {
    assert ws[..j][..j - 1] == ws[..j - 1];
    if i < j - 1 {
      NumbersAscend(ws, i, j - 1);
    }
  }

  // ---------- the order of each source ----------

  /** A source that broadcasts is busy with the last of its entries. */
  ghost predicate BusyIsLast(s: System, ws: seq<nat>) {
    && |ws| == |s.log|
    && forall w :: 0 <= w < |s.sources| && !s.sources[w].Resting? ==>
         && s.sources[w].entry < |ws| && ws[s.sources[w].entry] == w
         && forall k :: s.sources[w].entry < k < |ws| ==> ws[k] != w
  }

  /** The packets come in the order of their sources, source by source. */
  ghost predicate BySource(ps: seq<Packet>, ws: seq<nat>) {
    && (forall i :: 0 <= i < |ps| ==> ps[i].origin < |ws|)
    && (forall i, j :: 0 <= i < j < |ps| && ws[ps[i].origin] == ws[ps[j].origin] ==> ps[i].origin < ps[j].origin)
  }

  /** Packet p of source w is newer than all of that source in ps. */
  ghost predicate NewerThan(p: Packet, w: nat, ps: seq<Packet>, ws: seq<nat>) {
    && p.origin < |ws| && ws[p.origin] == w
    && forall i :: 0 <= i < |ps| && ps[i].origin < |ws| && ws[ps[i].origin] == w ==> ps[i].origin < p.origin
  }

  /** What entered the queue is in the order of its sources, and what a source holds for it is
      newer than all that this source has pushed. */
  ghost predicate PerSource(c: Channel, ws: seq<nat>) {
    && BySource(c.pushed, ws)
    && (forall i :: 0 <= i < |c.pushed| ==> c.pushed[i] in c.accepted)
    && forall w :: 0 <= w < |c.producers| && !c.producers[w].Idle? ==>
         c.producers[w].p in c.accepted && NewerThan(c.producers[w].p, w, c.pushed, ws)
  }

  ghost predicate AllPerSource(s: System, ws: seq<nat>) {
    forall id | id in s.subs :: PerSource(s.subs[id].st.ch, ws)
  }

  lemma PushedNext(ps: seq<Packet>, p: Packet, w: nat, v: nat, q: Packet, ws: seq<nat>)
    requires BySource(ps, ws) && NewerThan(p, w, ps, ws)
    ensures BySource(ps + [p], ws)
    ensures v != w && NewerThan(q, v, ps, ws) ==> NewerThan(q, v, ps + [p], ws)
  {
  }

  lemma EnqueueBySource(c: Channel, w: nat, ws: seq<nat>)
    requires PerSource(c, ws) && w < |c.producers| && !c.producers[w].Idle?
    ensures PerSource(Enqueue(c, w), ws)
  {
    var p := c.producers[w].p;
    var d := Enqueue(c, w);
    PushedNext(c.pushed, p, w, w, p, ws);
    forall v | 0 <= v < |d.producers| && !d.producers[v].Idle?
      ensures d.producers[v].p in d.accepted && NewerThan(d.producers[v].p, v, d.pushed, ws)
    {
      PushedNext(c.pushed, p, w, v, c.producers[v].p, ws);
    }
  }

  lemma InsideBySource(st: State, e: Event, ws: seq<nat>)
    requires PerSource(st.ch, ws) && SubscriberQueue.Enabled(st, e) && !Accepting(e)
    ensures PerSource(SubscriberQueue.Apply(st, e).ch, ws)
  {
    if e.Producing? && e.c.Push? {
      EnqueueBySource(st.ch, e.c.who, ws);
    }
  }

  lemma OneMoreWriter(c: Channel, ws: seq<nat>, w: nat)
    requires PerSource(c, ws)
    ensures PerSource(c, ws + [w])
  {
    forall v | 0 <= v < |c.producers| && !c.producers[v].Idle?
      ensures NewerThan(c.producers[v].p, v, c.pushed, ws + [w])
    {
      assert NewerThan(c.producers[v].p, v, c.pushed, ws);
    }
  }

  lemma AcceptBySource(c: Channel, w: nat, p: Producer, ws: seq<nat>)
    requires PerSource(c, ws) && w < |c.producers| && !p.Idle? && NewerThan(p.p, w, c.pushed, ws)
    ensures PerSource(Accept(c, w, p), ws)
  {
  }

  /** What a source is about to offer is newer than all that it has pushed there. */
  lemma OfferIsNewer(s: System, w: nat, id: nat, ws: seq<nat>)
    requires Inv(s) && BusyIsLast(s, ws) && AllPerSource(s, ws) && CanOffer(s, w, id)
    ensures forall p: Packet | p.origin == s.sources[w].entry :: NewerThan(p, w, s.subs[id].st.ch.pushed, ws)
  {
    var c := s.subs[id].st.ch;
    assert SourceOk(s, w) && PerSource(c, ws);
    forall i | 0 <= i < |c.pushed| && ws[c.pushed[i].origin] == w
      ensures c.pushed[i].origin < s.sources[w].entry
    {
      assert c.pushed[i] in c.accepted;
    }
  }

  lemma VisitBySource(s: System, m: Move, ws: seq<nat>)
    requires Inv(s) && BusyIsLast(s, ws) && AllPerSource(s, ws) && m.Visit? && Enabled(s, m)
    ensures AllPerSource(Apply(s, m), ws)
  {
    var c := s.subs[m.id].st.ch;
    var entry := s.sources[m.w].entry;
    OfferIsNewer(s, m.w, m.id, ws);
    assert PerSource(c, ws);
    AcceptBySource(c, m.w, LossTry(Packet(|c.accepted|, entry, s.log[entry].chunk)), ws);
  }

  lemma OtherBySource(s: System, m: Move, ws: seq<nat>)
    requires AllPerSource(s, ws) && Enabled(s, m) && !m.Visit? && !m.Begin?
    ensures AllPerSource(Apply(s, m), ws)
  {
    if m.Inside? {
      assert PerSource(s.subs[m.id].st.ch, ws);
      InsideBySource(s.subs[m.id].st, m.e, ws);
    }
  }

  lemma BeginBySource(s: System, m: Move, ws: seq<nat>)
    requires AllPerSource(s, ws) && m.Begin? && Enabled(s, m)
    ensures AllPerSource(Apply(s, m), ws + [m.w])
  {
    forall id | id in s.subs ensures PerSource(s.subs[id].st.ch, ws + [m.w]) {
      OneMoreWriter(s.subs[id].st.ch, ws, m.w);
    }
  }

  lemma BusyIsLastStep(s: System, m: Move, ws: seq<nat>)
    requires BusyIsLast(s, ws) && Enabled(s, m)
    ensures BusyIsLast(Apply(s, m), if m.Begin? then ws + [m.w] else ws)
  {
  }

  lemma {:induction false} BySourceRun(sources: nat, ms: seq<Move>)
    requires Legal(Start(sources), ms)
    ensures BusyIsLast(Run(Start(sources), ms), Writers(ms)) && AllPerSource(Run(Start(sources), ms), Writers(ms))
  {
    if ms != [] {
      var before, m := ms[..|ms| - 1], ms[|ms| - 1];
      BySourceRun(sources, before);
      RunInv(sources, before);
      BySourceStep(Run(Start(sources), before), m, Writers(before));
      assert Writers(before) + [] == Writers(before);
    }
  }

  lemma BySourceStep(s: System, m: Move, ws: seq<nat>)
    requires Inv(s) && BusyIsLast(s, ws) && AllPerSource(s, ws) && Enabled(s, m)
    ensures var ws' := if m.Begin? then ws + [m.w] else ws;
      BusyIsLast(Apply(s, m), ws') && AllPerSource(Apply(s, m), ws')
  {
    BusyIsLastStep(s, m, ws);
    if m.Visit? {
      VisitBySource(s, m, ws);
    } else if m.Begin? {
      BeginBySource(s, m, ws);
    } else {
      OtherBySource(s, m, ws);
    }
  }

  lemma TakenBySource(o: Outlet, c: Channel, ws: seq<nat>)
    requires InOrder(o.taken, o.sent + InHand(o.writer), c.pushed, Gone(c)) && BySource(c.pushed, ws)
    ensures BySource(o.sent + InHand(o.writer), ws)
  {
  }

  /** In every run, overlapping broadcasts included, a subscriber gets the chunks of each source
      in the order in which that source broadcast them. */
  lemma {:induction false} EachSourceInOrder(sources: nat, ms: seq<Move>, id: nat)
    requires Legal(Start(sources), ms) && id in Run(Start(sources), ms).subs
    ensures var o := Run(Start(sources), ms).subs[id].st.out; BySource(o.sent + InHand(o.writer), Writers(ms))
  {
    BySourceRun(sources, ms);
    EndToEnd(sources, ms, id);
    var s := Run(Start(sources), ms);
    assert PerSource(s.subs[id].st.ch, Writers(ms));
    TakenBySource(s.subs[id].st.out, s.subs[id].st.ch, Writers(ms));
  }

  // ---------- who is registered ----------

  /** The move takes subscriber id, who has this key, out of the registry. */
  predicate Displaces(m: Move, id: nat, key: string, subs: map<nat, Sub>) {
    || m.Clear?
    || (m.Unregister? && m.key == key)
    || (m.Register? && m.id != id && m.id in subs && subs[m.id].key == key)
  }

  /** Read off the moves: the subscriber registered, and nothing has displaced it since. */
  ghost predicate Registered(ms: seq<Move>, id: nat, key: string, subs: map<nat, Sub>) {
    exists i :: 0 <= i < |ms| && ms[i] == Register(id) && Undisplaced(ms[i + 1..], id, key, subs)
  }

  ghost predicate Undisplaced(ms: seq<Move>, id: nat, key: string, subs: map<nat, Sub>) {
    forall j :: 0 <= j < |ms| ==> !Displaces(ms[j], id, key, subs)
  }

  lemma RegisteredStep(ms: seq<Move>, m: Move, id: nat, key: string, subs: map<nat, Sub>)
    ensures Registered(ms + [m], id, key, subs)
       <==> m == Register(id) || (Registered(ms, id, key, subs) && !Displaces(m, id, key, subs))
  {
    var all := ms + [m];
    if m == Register(id) {
      assert all[|ms|] == m && all[|ms| + 1..] == [];
    }
    if Registered(ms, id, key, subs) && !Displaces(m, id, key, subs) {
      var i :| 0 <= i < |ms| && ms[i] == Register(id) && Undisplaced(ms[i + 1..], id, key, subs);
      assert all[i] == ms[i] && all[i + 1..] == ms[i + 1..] + [m];
    }
    if Registered(all, id, key, subs) && m != Register(id) {
      var i :| 0 <= i < |all| && all[i] == Register(id) && Undisplaced(all[i + 1..], id, key, subs);
      var rest := all[i + 1..];
      assert rest[|rest| - 1] == m && ms[i + 1..] == rest[..|rest| - 1];
      assert ms[i] == all[i];
    }
  }

  /** Only subscribers that are there register, and they keep their key, mount and response. */
  lemma SubsStay(s: System, m: Move)
    requires Enabled(s, m)
    ensures forall id | id in s.subs ::
              id in Apply(s, m).subs && SameSub(s.subs[id], Apply(s, m).subs[id])
    ensures forall id | id in Apply(s, m).subs && id !in s.subs ::
              m.Connect? && m.id == id && Apply(s, m).subs[id].key == m.key && Apply(s, m).subs[id].mount == m.mount
  {
  }

  predicate SameSub(a: Sub, b: Sub) {
    a.key == b.key && a.mount == b.mount && a.response == b.response
  }

  /** The subscribers that register in ms have the same keys in both. */
  ghost predicate SameKeys(ms: seq<Move>, subs: map<nat, Sub>, subs': map<nat, Sub>) {
    forall i :: 0 <= i < |ms| && ms[i].Register? ==>
      ms[i].id in subs && ms[i].id in subs' && subs[ms[i].id].key == subs'[ms[i].id].key
  }

  lemma UndisplacedBySame(ms: seq<Move>, i: nat, id: nat, key: string, subs: map<nat, Sub>, subs': map<nat, Sub>)
    requires SameKeys(ms, subs, subs') && i < |ms| && Undisplaced(ms[i + 1..], id, key, subs)
    ensures Undisplaced(ms[i + 1..], id, key, subs')
  {
    var rest := ms[i + 1..];
    forall j | 0 <= j < |rest| ensures !Displaces(rest[j], id, key, subs') {
      assert rest[j] == ms[i + 1 + j] && !Displaces(rest[j], id, key, subs);
    }
  }

  lemma DisplacedBySame(ms: seq<Move>, id: nat, key: string, subs: map<nat, Sub>, subs': map<nat, Sub>)
    requires SameKeys(ms, subs, subs')
    ensures Registered(ms, id, key, subs) ==> Registered(ms, id, key, subs')
  {
    if Registered(ms, id, key, subs) {
      var i :| 0 <= i < |ms| && ms[i] == Register(id) && Undisplaced(ms[i + 1..], id, key, subs);
      UndisplacedBySame(ms, i, id, key, subs, subs');
    }
  }

  lemma {:induction false} RegisterersAreThere(sources: nat, ms: seq<Move>)
    requires Legal(Start(sources), ms)
    ensures forall i :: 0 <= i < |ms| && ms[i].Register? ==> ms[i].id in Run(Start(sources), ms).subs
  {
    if ms != [] {
      RegisterersAreThere(sources, ms[..|ms| - 1]);
      SubsStay(Run(Start(sources), ms[..|ms| - 1]), ms[|ms| - 1]);
    }
  }

  /** The registry holds exactly the registered subscribers, each under its key. */
  ghost predicate Filed(s: System, ms: seq<Move>, id: nat) {
    id in s.subs ==>
      var key := s.subs[id].key;
      Registered(ms, id, key, s.subs) <==> key in s.registry && s.registry[key] == id
  }

  /** Whatever is filed is filed under its own key. */
  ghost predicate OwnKeys(s: System) {
    forall k | k in s.registry :: s.registry[k] in s.subs && s.subs[s.registry[k]].key == k
  }

  lemma RegistryMove(s: System, m: Move, id: nat)
    requires OwnKeys(s) && Enabled(s, m) && id in s.subs
    ensures OwnKeys(Apply(s, m))
    ensures var key := s.subs[id].key;
      (key in Apply(s, m).registry && Apply(s, m).registry[key] == id)
      <==> m == Register(id) || (key in s.registry && s.registry[key] == id && !Displaces(m, id, key, s.subs))
  {
    SubsStay(s, m);
  }

  lemma OwnKeysStep(s: System, m: Move)
    requires OwnKeys(s) && Enabled(s, m)
    ensures OwnKeys(Apply(s, m))
  {
    SubsStay(s, m);
  }

  lemma FiledStep(s: System, ms: seq<Move>, m: Move, id: nat)
    requires OwnKeys(s) && Filed(s, ms, id) && Enabled(s, m)
    requires forall i :: 0 <= i < |ms| && ms[i].Register? ==> ms[i].id in s.subs
    ensures Filed(Apply(s, m), ms + [m], id)
  {
    var t := Apply(s, m);
    SubsStay(s, m);
    if id in s.subs {
      var key := s.subs[id].key;
      RegistryMove(s, m, id);
      RegisteredStep(ms, m, id, key, t.subs);
      DisplacedBySame(ms, id, key, s.subs, t.subs);
      DisplacedBySame(ms, id, key, t.subs, s.subs);
      assert Displaces(m, id, key, s.subs) <==> Displaces(m, id, key, t.subs);
    } else if id in t.subs {
      NewIsNotFiled(s, ms, m, id);
    }
  }

  lemma NewIsNotFiled(s: System, ms: seq<Move>, m: Move, id: nat)
    requires OwnKeys(s) && Enabled(s, m) && id !in s.subs && id in Apply(s, m).subs
    requires forall i :: 0 <= i < |ms| && ms[i].Register? ==> ms[i].id in s.subs
    ensures Filed(Apply(s, m), ms + [m], id)
  {
    var t := Apply(s, m);
    SubsStay(s, m);
    assert forall i :: 0 <= i < |ms + [m]| ==> (ms + [m])[i] != Register(id);
  }

  lemma {:induction false} FiledRun(sources: nat, ms: seq<Move>, id: nat)
    requires Legal(Start(sources), ms)
    ensures Filed(Run(Start(sources), ms), ms, id) && OwnKeys(Run(Start(sources), ms))
  {
    if ms != [] {
      var before, m := ms[..|ms| - 1], ms[|ms| - 1];
      FiledRun(sources, before, id);
      RegisterersAreThere(sources, before);
      FiledStep(Run(Start(sources), before), before, m, id);
      OwnKeysStep(Run(Start(sources), before), m);
      assert ms == before + [m];
    }
  }

  /** In every run a subscriber is registered on its mount exactly when it registered and was
      not displaced since: by Clear, by a Delete of its key, or by another subscriber with its
      key. */
  lemma {:induction false} RegisteredExactly(sources: nat, ms: seq<Move>, id: nat, mount: string)
    requires Legal(Start(sources), ms)
    ensures var s := Run(Start(sources), ms);
      id in RegisteredOn(s, mount) <==>
      id in s.subs && s.subs[id].mount == mount && Registered(ms, id, s.subs[id].key, s.subs)
  {
    FiledRun(sources, ms, id);
  }

  /** A subscriber has the key, the mount and the response of the move that brought it. */
  lemma {:induction false} SubIsConnected(sources: nat, ms: seq<Move>, id: nat)
    requires Legal(Start(sources), ms) && id in Run(Start(sources), ms).subs
    ensures var sub := Run(Start(sources), ms).subs[id]; Connect(id, sub.key, sub.mount, sub.response) in ms
  {
    var before, m := ms[..|ms| - 1], ms[|ms| - 1];
    var s := Run(Start(sources), before);
    SubsStay(s, m);
    assert ms == before + [m];
    if id in s.subs {
      SubIsConnected(sources, before, id);
    }
  }

  lemma LogGrows(s: System, m: Move)
    requires Enabled(s, m)
    ensures Apply(s, m).log ==
            if m.Begin? then s.log + [Broadcast(m.mount, m.chunk, RegisteredOn(s, m.mount))] else s.log
  {
  }

  lemma {:induction false} PrefixIsLegal(sources: nat, ms: seq<Move>, i: nat)
    requires Legal(Start(sources), ms) && i <= |ms|
    ensures Legal(Start(sources), ms[..i]) && Run(Start(sources), ms[..i]).log <= Run(Start(sources), ms).log
  {
    if i == |ms| {
      assert ms[..i] == ms;
    } else {
      var before := ms[..|ms| - 1];
      assert before[..i] == ms[..i];
      PrefixIsLegal(sources, before, i);
      LogGrows(Run(Start(sources), before), ms[|ms| - 1]);
    }
  }

  /** Each Begin of a run logs its chunk and mount with the subscribers registered on the mount
      at that moment. */
  lemma {:induction false} BroadcastTargets(sources: nat, ms: seq<Move>, i: nat)
    requires Legal(Start(sources), ms) && i < |ms| && ms[i].Begin?
    ensures Legal(Start(sources), ms[..i])
    ensures var s, log := Run(Start(sources), ms[..i]), Run(Start(sources), ms).log;
      && |s.log| < |log| && log[|s.log|] == Broadcast(ms[i].mount, ms[i].chunk, RegisteredOn(s, ms[i].mount))
  {
    PrefixIsLegal(sources, ms, i);
    PrefixIsLegal(sources, ms, i + 1);
    assert ms[..i + 1][..i] == ms[..i] && ms[..i + 1][i] == ms[i];
    LogGrows(Run(Start(sources), ms[..i]), ms[i]);
  }
}
