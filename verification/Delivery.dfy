/** From the source's reads to what the subscriber's application gets: the source's side of
    RequestFraming, the caster's runs of FanOut and the subscriber's side of ResponseFraming put
    together. */
module Delivery {
  import opened Text
  import opened RequestFraming
  import opened Responses
  import opened ResponseFraming
  import opened Handshake
  import Queue = SubscriberQueue
  import FanOut

  /** What the application got is the start of whole chunks and at most one more, each of them
      broadcast once on the subscriber's mount while it was registered. */
  ghost predicate FromItsMount(delivered: string, s: FanOut.System, id: nat)
    requires id in s.subs
  {
    var sub := s.subs[id];
    var o := sub.st.out;
    var attempted := o.sent + Queue.InHand(o.writer);
    && delivered <= Queue.Concat(o.sent) + Queue.Partial(o.writer)
    && (forall p | p in Queue.InHand(o.writer) :: Queue.Partial(o.writer) <= p.bytes)
    && (forall i :: 0 <= i < |attempted| ==> FanOut.Carries(attempted[i], s.log, id, sub.mount))
    && (forall i, j :: 0 <= i < j < |attempted| ==> attempted[i].origin != attempted[j].origin)
    && Queue.InOrder(o.taken, attempted, sub.st.ch.pushed, Queue.Gone(sub.st.ch))
  }

  /** What a subscriber makes of what it has read so far: nothing yet, or connected by an early
      read, while the welcome is not complete; then connected with what follows the welcome,
      after an early read of an ICY response with the rest of the welcome before it, or refused
      because of a phrase in what it had buffered. */
  ghost predicate Outcome(c: Client, down: seq<string>, v2: bool, date: string) {
    var r, got := Response(Welcome(v2), date), Join(down);
    if |got| < |r| then !c.Refused? && (c.Connected? <==> !v2 && Boundary(down, EARLY))
    else
      c == if !v2 && Boundary(down, EARLY) then Connected(IcyRest(date) + got[|r|..])
           else if Clean(down, r) then Connected(got[|r|..]) else Refused
  }

  /** In every run of the caster and for every division into reads of what a subscriber has
      read of its connection so far: what it makes of it, and that the bytes behind the welcome
      are all from its own mount. */
  lemma {:induction false} ChunksArrive(sources: nat, ms: seq<FanOut.Move>, id: nat, v2: bool, date: string, down: seq<string>)
    requires FanOut.Legal(FanOut.Start(sources), ms) && id in FanOut.Run(FanOut.Start(sources), ms).subs
    requires IsDate(date)
    requires var sub := FanOut.Run(FanOut.Start(sources), ms).subs[id];
      sub.response == Response(Welcome(v2), date) && Join(down) <= sub.st.out.wire
    ensures Outcome(ListenAll(down, CLIENT_PHRASES), down, v2, date)
    ensures |Response(Welcome(v2), date)| <= |Join(down)| ==>
              FromItsMount(Join(down)[|Response(Welcome(v2), date)|..], FanOut.Run(FanOut.Start(sources), ms), id)
  {
    var r := Response(Welcome(v2), date);
    var stream := StreamOfItsMount(sources, ms, id);
    var wire := FanOut.Run(FanOut.Start(sources), ms).subs[id].st.out.wire;
    if |Join(down)| < |r| {
      BeforeWelcome(r, stream, Join(down), wire);
      WelcomeConnects(down, v2, date, CLIENT_PHRASES);
    } else {
      AfterWelcome(r, stream, Join(down), wire);
      PayloadArrives(down, v2, date, Join(down)[|r|..]);
      StartOfItsMount(Join(down)[|r|..], stream, FanOut.Run(FanOut.Start(sources), ms), id);
    }
  }

  lemma StreamOfItsMount(sources: nat, ms: seq<FanOut.Move>, id: nat) returns (stream: string)
    requires FanOut.Legal(FanOut.Start(sources), ms) && id in FanOut.Run(FanOut.Start(sources), ms).subs
    ensures var s := FanOut.Run(FanOut.Start(sources), ms);
      s.subs[id].st.out.wire == s.subs[id].response + stream && FromItsMount(stream, s, id)
  {
    FanOut.EndToEnd(sources, ms, id);
    var o := FanOut.Run(FanOut.Start(sources), ms).subs[id].st.out;
    stream := Queue.Concat(o.sent) + Queue.Partial(o.writer);
  }

  lemma StartOfItsMount(delivered: string, stream: string, s: FanOut.System, id: nat)
    requires id in s.subs && FromItsMount(stream, s, id) && delivered <= stream
    ensures FromItsMount(delivered, s, id)
  {
  }

  lemma PayloadArrives(down: seq<string>, v2: bool, date: string, payload: string)
    requires IsDate(date) && Join(down) == Response(Welcome(v2), date) + payload
    ensures ListenAll(down, CLIENT_PHRASES) ==
            if !v2 && Boundary(down, EARLY) then Connected(IcyRest(date) + payload)
            else if Clean(down, Response(Welcome(v2), date)) then Connected(payload) else Refused
  {
    if v2 {
      V2Exactly(down, date, payload, CLIENT_PHRASES);
    } else {
      IcyExactly(down, date, payload, CLIENT_PHRASES);
    }
  }

  lemma BeforeWelcome(r: string, stream: string, read: string, wire: string)
    requires wire == r + stream && read <= wire && |read| < |r|
    ensures read <= r && read != r
  {
    assert read == wire[..|read|];
  }

  lemma AfterWelcome(r: string, stream: string, read: string, wire: string)
    requires wire == r + stream && read <= wire && |r| <= |read|
    ensures read == r + read[|r|..] && read[|r|..] <= stream
  {
    assert read == wire[..|read|];
    assert stream == wire[|r|..];
  }

  // ---------- from the source's reads ----------

  /** The payloads that a source handler has cut out of its reads so far. */
  function PayloadsOf(up: seq<string>): seq<string> {
    var f := FeedAll(up);
    if f.Streaming? then f.payloads else []
  }

  function HeaderOf(up: seq<string>): string {
    var f := FeedAll(up);
    if f.Streaming? then f.header else ""
  }

  /** A read of source handler w; auth for it, when its header is complete; its Delete, when it
      leaves; CloseAll; or a move of the caster. */
  datatype Step =
    | Read(w: nat, data: string)
    | Ask(w: nat, policy: Policy, written: bool)
    | Leave(w: nat)
    | CloseAll
    | Other(m: FanOut.Move)

  /** What a source was accepted with. */
  datatype Grant = Grant(mount: string, v2: bool, policy: Policy, taken: set<string>)

  /** The source side: its registry by handler, the handlers whose request was answered, what
      those were accepted with that were, and those that have left. */
  datatype Side = Side(claims: map<nat, string>, asked: set<nat>, grants: map<nat, Grant>, left: set<nat>)

  function MovesOf(steps: seq<Step>): seq<FanOut.Move> {
    if steps == [] then []
    else
      var last := steps[|steps| - 1];
      MovesOf(steps[..|steps| - 1]) + if last.Other? then [last.m] else []
  }

  function ReadsOf(steps: seq<Step>, w: nat): seq<string> {
    if steps == [] then []
    else
      var last := steps[|steps| - 1];
      ReadsOf(steps[..|steps| - 1], w) + if last.Read? && last.w == w then [last.data] else []
  }

  function AfterStep(side: Side, header: string, step: Step): Side {
    match step
    case Ask(w, policy, written) =>
      var asked := side.(asked := side.asked + {w});
      var taken := side.claims.Values;
      var answer := SourceAnswer(header, policy, taken);
      if answer.Accept? && written then
        asked.(claims := side.claims[w := answer.mount],
               grants := side.grants[w := Grant(answer.mount, answer.v2, policy, taken)])
      else asked
    case Leave(w) => side.(claims := side.claims - {w}, left := side.left + {w})
    case CloseAll => side.(claims := map[])
    case _ => side
  }

  function SideAfter(steps: seq<Step>): Side {
    if steps == [] then Side(map[], {}, map[], {})
    else
      var before, last := steps[..|steps| - 1], steps[|steps| - 1];
      AfterStep(SideAfter(before), if last.Ask? then HeaderOf(ReadsOf(before, last.w)) else "", last)
  }

  /** The source is accepted and its handler has not left. */
  predicate Serving(side: Side, w: nat) {
    w in side.grants && w !in side.left
  }

  /** The loop of a source handler: it reads until its header is complete, has that answered,
      and if it is accepted broadcasts each payload on the mount it was accepted for before it
      reads on. Nothing else is asked of the interleaving. */
  predicate Follows(before: seq<Step>, step: Step, s: FanOut.System) {
    var side := SideAfter(before);
    match step
    case Read(w, data) =>
      && |data| <= READ_SIZE
      && (if w in side.asked then
            Serving(side, w) && FanOut.ChunksOf(MovesOf(before), w) == PayloadsOf(ReadsOf(before, w))
          else FeedAll(ReadsOf(before, w)).Collecting?)
    case Ask(w, _, _) => w !in side.asked && FeedAll(ReadsOf(before, w)).Streaming?
    case Leave(w) => w < |s.sources| ==> s.sources[w].Resting?
    case CloseAll => true
    case Other(m) =>
      m.Begin? ==>
        && Serving(side, m.w) && m.mount == side.grants[m.w].mount
        && var k, payloads := |FanOut.ChunksOf(MovesOf(before), m.w)|, PayloadsOf(ReadsOf(before, m.w));
        k < |payloads| && m.chunk == payloads[k]
  }

  ghost predicate Legal(sources: nat, steps: seq<Step>) {
    && FanOut.Legal(FanOut.Start(sources), MovesOf(steps))
    && (steps != [] ==>
          && Legal(sources, steps[..|steps| - 1])
          && Follows(steps[..|steps| - 1], steps[|steps| - 1], State(sources, steps[..|steps| - 1])))
  }

  ghost function State(sources: nat, steps: seq<Step>): FanOut.System
    requires FanOut.Legal(FanOut.Start(sources), MovesOf(steps))
  {
    FanOut.Run(FanOut.Start(sources), MovesOf(steps))
  }

  lemma PayloadsGrow(up: seq<string>, data: string)
    ensures PayloadsOf(up) <= PayloadsOf(up + [data])
    ensures FeedAll(up).Streaming? ==> FeedAll(up + [data]).Streaming? && HeaderOf(up + [data]) == HeaderOf(up)
  {
    assert (up + [data])[..|up|] == up;
  }

  /** Source w has broadcast its payloads in order, up to where it is. */
  ghost predicate UpToDate(steps: seq<Step>, w: nat) {
    && FanOut.ChunksOf(MovesOf(steps), w) <= PayloadsOf(ReadsOf(steps, w))
    && forall i :: 0 <= i < |ReadsOf(steps, w)| ==> |ReadsOf(steps, w)[i]| <= READ_SIZE
  }

  lemma OneMoreStep(before: seq<Step>, last: Step, w: nat)
    ensures MovesOf(before + [last]) == if last.Other? then MovesOf(before) + [last.m] else MovesOf(before)
    ensures ReadsOf(before + [last], w) ==
            if last.Read? && last.w == w then ReadsOf(before, w) + [last.data] else ReadsOf(before, w)
  {
    assert (before + [last])[..|before|] == before;
  }

  lemma OneMoreSide(before: seq<Step>, last: Step)
    ensures SideAfter(before + [last]) ==
            AfterStep(SideAfter(before), if last.Ask? then HeaderOf(ReadsOf(before, last.w)) else "", last)
  {
    assert (before + [last])[..|before|] == before;
  }

  lemma ReadKeepsUp(before: seq<Step>, last: Step, w: nat)
    requires UpToDate(before, w) && last.Read? && |last.data| <= READ_SIZE
    ensures UpToDate(before + [last], w)
  {
    OneMoreStep(before, last, w);
    PayloadsGrow(ReadsOf(before, w), last.data);
  }

  lemma UpToDateStep(before: seq<Step>, last: Step, s: FanOut.System, w: nat)
    requires UpToDate(before, w) && Follows(before, last, s)
    ensures UpToDate(before + [last], w)
  {
    if last.Read? {
      ReadKeepsUp(before, last, w);
    } else {
      OneMoreStep(before, last, w);
      if last.Other? {
        BroadcastNext(MovesOf(before), last.m, PayloadsOf(ReadsOf(before, w)), w);
      }
    }
  }

  lemma {:induction false} Ingested(sources: nat, steps: seq<Step>, w: nat)
    requires Legal(sources, steps)
    ensures UpToDate(steps, w)
  {
    if steps != [] {
      var before, last := steps[..|steps| - 1], steps[|steps| - 1];
      Ingested(sources, before, w);
      UpToDateStep(before, last, State(sources, before), w);
      assert steps == before + [last];
    }
  }

  lemma BroadcastNext(ms: seq<FanOut.Move>, m: FanOut.Move, payloads: seq<string>, w: nat)
    requires FanOut.ChunksOf(ms, w) <= payloads
    requires m.Begin? && m.w == w ==> |FanOut.ChunksOf(ms, w)| < |payloads| && m.chunk == payloads[|FanOut.ChunksOf(ms, w)|]
    ensures FanOut.ChunksOf(ms + [m], w) <= payloads
  {
    assert (ms + [m])[..|ms|] == ms;
  }

  /** The source is at most one payload ahead of its broadcasts, and has none before it is
      answered but the one behind its header. */
  ghost predicate AtMostOneAhead(steps: seq<Step>, w: nat) {
    && |PayloadsOf(ReadsOf(steps, w))| <= |FanOut.ChunksOf(MovesOf(steps), w)| + 1
    && FanOut.ChunksOf(MovesOf(steps), w) <= PayloadsOf(ReadsOf(steps, w))
  }

  lemma OneMorePayload(up: seq<string>, data: string)
    ensures |PayloadsOf(up + [data])| <= |PayloadsOf(up)| + 1
  {
    assert (up + [data])[..|up|] == up;
  }

  lemma AheadStep(before: seq<Step>, last: Step, s: FanOut.System, w: nat)
    requires AtMostOneAhead(before, w) && UpToDate(before + [last], w) && Follows(before, last, s)
    ensures AtMostOneAhead(before + [last], w)
  {
    OneMoreStep(before, last, w);
    if last.Read? && last.w == w {
      OneMorePayload(ReadsOf(before, w), last.data);
    } else if last.Other? {
      assert (MovesOf(before) + [last.m])[..|MovesOf(before)|] == MovesOf(before);
    }
  }

  /** In every run a source has broadcast all the payloads it has cut out of its reads but at most
      the last one: it reads on only when there is nothing left to broadcast. */
  lemma {:induction false} SourceKeepsUp(sources: nat, steps: seq<Step>, w: nat)
    requires Legal(sources, steps)
    ensures AtMostOneAhead(steps, w)
  {
    Ingested(sources, steps, w);
    if steps != [] {
      var before, last := steps[..|steps| - 1], steps[|steps| - 1];
      assert steps == before + [last];
      SourceKeepsUp(sources, before, w);
      AheadStep(before, last, State(sources, before), w);
    }
  }

  // ---------- who broadcasts where ----------

  /** What an accepted source was accepted with is auth's answer to its own header. */
  ghost predicate GrantOk(steps: seq<Step>, side: Side, w: nat) {
    w in side.grants ==>
      && w in side.asked && FeedAll(ReadsOf(steps, w)).Streaming?
      && var g := side.grants[w];
      SourceAnswer(HeaderOf(ReadsOf(steps, w)), g.policy, g.taken) == Accept(g.mount, g.v2)
  }

  lemma GrantStep(before: seq<Step>, last: Step, s: FanOut.System, w: nat)
    requires GrantOk(before, SideAfter(before), w) && Follows(before, last, s)
    ensures GrantOk(before + [last], SideAfter(before + [last]), w)
  {
    OneMoreStep(before, last, w);
    OneMoreSide(before, last);
    if last.Read? && last.w == w {
      PayloadsGrow(ReadsOf(before, w), last.data);
    }
  }

  lemma {:induction false} GrantRun(sources: nat, steps: seq<Step>, w: nat)
    requires Legal(sources, steps)
    ensures GrantOk(steps, SideAfter(steps), w)
  {
    if steps != [] {
      var before, last := steps[..|steps| - 1], steps[|steps| - 1];
      GrantRun(sources, before, w);
      GrantStep(before, last, State(sources, before), w);
      assert steps == before + [last];
    }
  }

  /** Every entry of the log is on the mount its source was accepted for, and whoever
      broadcasts has not left. */
  ghost predicate LogGranted(side: Side, s: FanOut.System, ws: seq<nat>) {
    && |ws| == |s.log|
    && (forall e :: 0 <= e < |ws| ==> ws[e] in side.grants && s.log[e].mount == side.grants[ws[e]].mount)
    && (forall w :: 0 <= w < |s.sources| && !s.sources[w].Resting? ==>
          Serving(side, w) && s.sources[w].entry < |s.log| && s.log[s.sources[w].entry].mount == side.grants[w].mount)
  }

  /** Grants are never changed, and only Leave takes a source out of service. */
  lemma GrantsStay(side: Side, header: string, step: Step)
    requires side.grants.Keys <= side.asked && (step.Ask? ==> step.w !in side.asked)
    ensures var t := AfterStep(side, header, step);
      && t.grants.Keys <= t.asked
      && (forall w | w in side.grants :: w in t.grants && t.grants[w] == side.grants[w])
      && t.left == if step.Leave? then side.left + {step.w} else side.left
  {
  }

  lemma MoveGranted(side: Side, s: FanOut.System, m: FanOut.Move, ws: seq<nat>)
    requires LogGranted(side, s, ws) && FanOut.Enabled(s, m)
    requires m.Begin? ==> Serving(side, m.w) && m.mount == side.grants[m.w].mount
    ensures LogGranted(side, FanOut.Apply(s, m), if m.Begin? then ws + [m.w] else ws)
  {
  }

  lemma SideGranted(side: Side, header: string, step: Step, s: FanOut.System, ws: seq<nat>)
    requires LogGranted(side, s, ws) && side.grants.Keys <= side.asked && (step.Ask? ==> step.w !in side.asked)
    requires step.Leave? && step.w < |s.sources| ==> s.sources[step.w].Resting?
    ensures LogGranted(AfterStep(side, header, step), s, ws)
  {
    GrantsStay(side, header, step);
  }

  /** One more move of a legal run. */
  lemma RunOneMore(sources: nat, ms: seq<FanOut.Move>, m: FanOut.Move)
    requires FanOut.Legal(FanOut.Start(sources), ms + [m])
    ensures FanOut.Legal(FanOut.Start(sources), ms) && FanOut.Enabled(FanOut.Run(FanOut.Start(sources), ms), m)
    ensures FanOut.Run(FanOut.Start(sources), ms + [m]) == FanOut.Apply(FanOut.Run(FanOut.Start(sources), ms), m)
    ensures FanOut.Writers(ms + [m]) == if m.Begin? then FanOut.Writers(ms) + [m.w] else FanOut.Writers(ms)
  {
    assert (ms + [m])[..|ms|] == ms;
    assert FanOut.Writers(ms) + [] == FanOut.Writers(ms);
  }

  ghost predicate Granted(sources: nat, steps: seq<Step>)
    requires FanOut.Legal(FanOut.Start(sources), MovesOf(steps))
  {
    LogGranted(SideAfter(steps), State(sources, steps), FanOut.Writers(MovesOf(steps)))
    && SideAfter(steps).grants.Keys <= SideAfter(steps).asked
  }

  lemma {:induction false} GrantedStep(sources: nat, before: seq<Step>, last: Step)
    requires FanOut.Legal(FanOut.Start(sources), MovesOf(before)) && Granted(sources, before)
    requires FanOut.Legal(FanOut.Start(sources), MovesOf(before + [last])) && Follows(before, last, State(sources, before))
    ensures Granted(sources, before + [last])
  {
    OneMoreStep(before, last, 0);
    OneMoreSide(before, last);
    var side, s, ws := SideAfter(before), State(sources, before), FanOut.Writers(MovesOf(before));
    if last.Other? {
      RunOneMore(sources, MovesOf(before), last.m);
      MoveGranted(side, s, last.m, ws);
    } else {
      var header := if last.Ask? then HeaderOf(ReadsOf(before, last.w)) else "";
      GrantsStay(side, header, last);
      SideGranted(side, header, last, s, ws);
    }
  }

  lemma {:induction false} GrantedRun(sources: nat, steps: seq<Step>)
    requires Legal(sources, steps)
    ensures Granted(sources, steps)
  {
    if steps != [] {
      var before, last := steps[..|steps| - 1], steps[|steps| - 1];
      GrantedRun(sources, before);
      assert steps == before + [last];
      GrantedStep(sources, before, last);
    }
  }

  /** A step that tells source w that it is accepted. */
  ghost predicate Welcomes(before: seq<Step>, step: Step, w: nat) {
    && step.Ask? && step.w == w && step.written
    && SourceAnswer(HeaderOf(ReadsOf(before, w)), step.policy, SideAfter(before).claims.Values).Accept?
  }

  ghost predicate GrantedAt(steps: seq<Step>, i: nat, w: nat) {
    i < |steps| && Welcomes(steps[..i], steps[i], w)
  }

  ghost predicate EverGranted(steps: seq<Step>, w: nat) {
    exists i :: 0 <= i < |steps| && GrantedAt(steps, i, w)
  }

  /** It was accepted, and it has held its mount since then. */
  ghost predicate ClaimedSince(steps: seq<Step>, w: nat) {
    exists i :: 0 <= i < |steps| && GrantedAt(steps, i, w) && Kept(steps[i + 1..], w)
  }

  ghost predicate Kept(steps: seq<Step>, w: nat) {
    forall step | step in steps :: step != Leave(w) && !step.CloseAll?
  }

  lemma KeptFurther(steps: seq<Step>, last: Step, i: nat, w: nat)
    requires i < |steps|
    ensures Kept((steps + [last])[i + 1..], w) <==> Kept(steps[i + 1..], w) && last != Leave(w) && !last.CloseAll?
  {
    var rest := steps[i + 1..];
    assert (steps + [last])[i + 1..] == rest + [last];
    assert last in rest + [last] && forall step | step in rest :: step in rest + [last];
  }

  lemma GrantedBefore(steps: seq<Step>, last: Step, i: nat, w: nat)
    requires i < |steps|
    ensures GrantedAt(steps + [last], i, w) <==> GrantedAt(steps, i, w)
  {
    assert (steps + [last])[..i] == steps[..i];
  }

  lemma GrantedNow(steps: seq<Step>, last: Step, w: nat)
    ensures GrantedAt(steps + [last], |steps|, w) <==> Welcomes(steps, last, w)
  {
    assert (steps + [last])[..|steps|] == steps;
  }

  lemma EverGrantedStep(steps: seq<Step>, last: Step, w: nat)
    ensures EverGranted(steps + [last], w) <==> EverGranted(steps, w) || Welcomes(steps, last, w)
  {
    forall i | 0 <= i < |steps| ensures GrantedAt(steps + [last], i, w) <==> GrantedAt(steps, i, w) {
      GrantedBefore(steps, last, i, w);
    }
    GrantedNow(steps, last, w);
  }

  lemma ClaimedSinceStep(steps: seq<Step>, last: Step, w: nat)
    ensures ClaimedSince(steps + [last], w) <==>
            Welcomes(steps, last, w) || (ClaimedSince(steps, w) && last != Leave(w) && !last.CloseAll?)
  {
    var all := steps + [last];
    forall i | 0 <= i < |steps|
      ensures GrantedAt(all, i, w) && Kept(all[i + 1..], w) <==>
              GrantedAt(steps, i, w) && Kept(steps[i + 1..], w) && last != Leave(w) && !last.CloseAll?
    {
      GrantedBefore(steps, last, i, w);
      KeptFurther(steps, last, i, w);
    }
    GrantedNow(steps, last, w);
    assert Kept(all[|steps| + 1..], w);
  }

  lemma SideStep(steps: seq<Step>, last: Step, w: nat)
    ensures var side, side' := SideAfter(steps), SideAfter(steps + [last]);
      && (w in side'.grants <==> w in side.grants || Welcomes(steps, last, w))
      && (w in side'.claims <==>
            Welcomes(steps, last, w) || (w in side.claims && last != Leave(w) && !last.CloseAll?))
      && (w in side'.left <==> w in side.left || last == Leave(w))
  {
    OneMoreSide(steps, last);
  }

  /** What the source side remembers, read off the run: a source has been granted its mount
      exactly when it was accepted and told so, and it has its claim exactly as long as neither it
      left nor CloseAll came. */
  lemma {:induction false} ClaimsExactly(steps: seq<Step>, w: nat)
    ensures w in SideAfter(steps).grants <==> EverGranted(steps, w)
    ensures w in SideAfter(steps).claims <==> ClaimedSince(steps, w)
    ensures w in SideAfter(steps).left <==> Leave(w) in steps
  {
    if steps != [] {
      var before, last := steps[..|steps| - 1], steps[|steps| - 1];
      assert steps == before + [last];
      ClaimsExactly(before, w);
      SideStep(before, last, w);
      EverGrantedStep(before, last, w);
      ClaimedSinceStep(before, last, w);
    }
  }

  // ---------- claims keep broadcasts apart ----------

  /** Every source in service holds the claim of its mount, and no mount is claimed twice. */
  ghost predicate Claimed(side: Side) {
    && (forall w | Serving(side, w) :: w in side.claims && side.claims[w] == side.grants[w].mount)
    && (forall v, w | v in side.claims && w in side.claims && side.claims[v] == side.claims[w] :: v == w)
  }

  lemma ClaimedStep(side: Side, header: string, step: Step)
    requires Claimed(side) && side.grants.Keys <= side.asked && (step.Ask? ==> step.w !in side.asked) && !step.CloseAll?
    ensures Claimed(AfterStep(side, header, step))
  {
    if step.Ask? && SourceAnswer(header, step.policy, side.claims.Values).Accept? {
      var mount := SourceAnswer(header, step.policy, side.claims.Values).mount;
      forall v | v in side.claims ensures side.claims[v] != mount {
        assert side.claims[v] in side.claims.Values;
      }
    }
  }

  lemma ServingIsFree(side: Side, s: FanOut.System, ws: seq<nat>, w: nat)
    requires Claimed(side) && LogGranted(side, s, ws) && Serving(side, w) && w < |s.sources| && s.sources[w].Resting?
    ensures FanOut.MountFree(s, side.grants[w].mount)
  {
    forall v | 0 <= v < |s.sources| && !s.sources[v].Resting? && s.sources[v].entry < |s.log|
      ensures s.log[s.sources[v].entry].mount != side.grants[w].mount
    {
      assert Serving(side, v);
      assert v in side.claims && w in side.claims;
    }
  }

  ghost predicate NoCloseAll(steps: seq<Step>) {
    forall step | step in steps :: !step.CloseAll?
  }

  lemma {:induction false} ClaimedRun(sources: nat, steps: seq<Step>)
    requires Legal(sources, steps) && NoCloseAll(steps)
    ensures Claimed(SideAfter(steps))
  {
    if steps != [] {
      var before, last := steps[..|steps| - 1], steps[|steps| - 1];
      assert steps == before + [last];
      ClaimedRun(sources, before);
      GrantedRun(sources, before);
      OneMoreSide(before, last);
      ClaimedStep(SideAfter(before), if last.Ask? then HeaderOf(ReadsOf(before, last.w)) else "", last);
    }
  }

  lemma ExclusiveExtends(s: FanOut.System, ms: seq<FanOut.Move>, m: FanOut.Move)
    requires FanOut.Legal(s, ms) && FanOut.Legal(s, ms + [m]) && FanOut.Exclusive(s, ms)
    requires m.Begin? ==> FanOut.MountFree(FanOut.Run(s, ms), m.mount)
    ensures FanOut.Exclusive(s, ms + [m])
  {
    assert (ms + [m])[..|ms|] == ms;
  }

  lemma NextIsFree(sources: nat, before: seq<Step>, m: FanOut.Move)
    requires FanOut.Legal(FanOut.Start(sources), MovesOf(before)) && Granted(sources, before) && Claimed(SideAfter(before))
    requires Follows(before, Other(m), State(sources, before)) && m.Begin? && FanOut.Enabled(State(sources, before), m)
    ensures FanOut.MountFree(State(sources, before), m.mount)
  {
    ServingIsFree(SideAfter(before), State(sources, before), FanOut.Writers(MovesOf(before)), m.w);
  }

  /** In every run without CloseAll no two broadcasts on one mount overlap, also when mounts
      change hands. */
  lemma {:induction false} ClaimsExclusive(sources: nat, steps: seq<Step>)
    requires Legal(sources, steps) && NoCloseAll(steps)
    ensures FanOut.Exclusive(FanOut.Start(sources), MovesOf(steps))
  {
    if steps != [] {
      var before, last := steps[..|steps| - 1], steps[|steps| - 1];
      assert steps == before + [last];
      ClaimsExclusive(sources, before);
      OneMoreStep(before, last, 0);
      if last.Other? {
        RunOneMore(sources, MovesOf(before), last.m);
        if last.m.Begin? {
          GrantedRun(sources, before);
          ClaimedRun(sources, before);
          NextIsFree(sources, before, last.m);
        }
        ExclusiveExtends(FanOut.Start(sources), MovesOf(before), last.m);
      }
    }
  }

  // ---------- what reaches a subscriber ----------

  /** The packet is one payload of a source that was accepted for this mount. */
  ghost predicate IsPayload(p: Queue.Packet, steps: seq<Step>, mount: string) {
    var ms := MovesOf(steps);
    && p.origin < |FanOut.Writers(ms)|
    && var w := FanOut.Writers(ms)[p.origin];
    var payloads := PayloadsOf(ReadsOf(steps, w));
    && FanOut.Number(ms, p.origin) < |payloads| && payloads[FanOut.Number(ms, p.origin)] == p.bytes
    && AcceptedFor(steps, w, mount)
  }

  ghost predicate AcceptedFor(steps: seq<Step>, w: nat, mount: string) {
    var grants := SideAfter(steps).grants;
    && w in grants && FeedAll(ReadsOf(steps, w)).Streaming?
    && SourceAnswer(HeaderOf(ReadsOf(steps, w)), grants[w].policy, grants[w].taken) == Accept(mount, grants[w].v2)
  }

  /** Two packets of one source come in the order of its payloads. */
  predicate InPayloadOrder(p: Queue.Packet, q: Queue.Packet, ms: seq<FanOut.Move>)
    requires p.origin < |FanOut.Writers(ms)| && q.origin < |FanOut.Writers(ms)|
  {
    FanOut.Writers(ms)[p.origin] == FanOut.Writers(ms)[q.origin] ==>
      FanOut.Number(ms, p.origin) < FanOut.Number(ms, q.origin)
  }

  lemma {:induction false} PacketIsPayload(sources: nat, steps: seq<Step>, p: Queue.Packet, id: nat, mount: string)
    requires Legal(sources, steps) && FanOut.Carries(p, State(sources, steps).log, id, mount)
    ensures IsPayload(p, steps, mount)
  {
    FanOut.EntryIsChunk(sources, MovesOf(steps), p.origin);
    var w := FanOut.Writers(MovesOf(steps))[p.origin];
    Ingested(sources, steps, w);
    GrantRun(sources, steps, w);
    GrantedRun(sources, steps);
  }

  lemma OrderIsPayloadOrder(p: Queue.Packet, q: Queue.Packet, ms: seq<FanOut.Move>)
    requires p.origin < |FanOut.Writers(ms)| && q.origin < |FanOut.Writers(ms)|
    requires FanOut.Writers(ms)[p.origin] == FanOut.Writers(ms)[q.origin] ==> p.origin < q.origin
    ensures InPayloadOrder(p, q, ms)
  {
    if FanOut.Writers(ms)[p.origin] == FanOut.Writers(ms)[q.origin] {
      FanOut.NumbersAscend(FanOut.Writers(ms), p.origin, q.origin);
    }
  }

  ghost predicate FromSources(ps: seq<Queue.Packet>, steps: seq<Step>, mount: string) {
    && (forall i :: 0 <= i < |ps| ==> IsPayload(ps[i], steps, mount))
    && (forall i, j :: 0 <= i < j < |ps| ==> InPayloadOrder(ps[i], ps[j], MovesOf(steps)))
  }

  lemma {:induction false} AllPayloads(sources: nat, steps: seq<Step>, ps: seq<Queue.Packet>, id: nat, mount: string)
    requires Legal(sources, steps) && FanOut.BySource(ps, FanOut.Writers(MovesOf(steps)))
    requires forall i :: 0 <= i < |ps| ==> FanOut.Carries(ps[i], State(sources, steps).log, id, mount)
    ensures FromSources(ps, steps, mount)
  {
    forall i | 0 <= i < |ps| ensures IsPayload(ps[i], steps, mount) {
      PacketIsPayload(sources, steps, ps[i], id, mount);
    }
    forall i, j | 0 <= i < j < |ps| ensures InPayloadOrder(ps[i], ps[j], MovesOf(steps)) {
      OrderIsPayloadOrder(ps[i], ps[j], MovesOf(steps));
    }
  }

  /** In every run of source handlers and caster, CloseAll and overlapping broadcasts included:
      each packet written to a subscriber is one payload of a source that was accepted for the
      subscriber's mount, those of one source come in the order in which it sent them, and a
      source's header and payloads together are the bytes it sent, none lost. */
  lemma {:induction false} SourceBytesArrive(sources: nat, steps: seq<Step>, id: nat, w: nat)
    requires Legal(sources, steps) && id in State(sources, steps).subs
    ensures var sub := State(sources, steps).subs[id];
      FromSources(sub.st.out.sent + Queue.InHand(sub.st.out.writer), steps, sub.mount)
    ensures var f := FeedAll(ReadsOf(steps, w));
      f.Streaming? ==> f.header + Join(PayloadsOf(ReadsOf(steps, w))) == Join(ReadsOf(steps, w))
  {
    Ingested(sources, steps, w);
    NothingLost(ReadsOf(steps, w));
    var sub := State(sources, steps).subs[id];
    FanOut.EndToEnd(sources, MovesOf(steps), id);
    FanOut.EachSourceInOrder(sources, MovesOf(steps), id);
    AllPayloads(sources, steps, sub.st.out.sent + Queue.InHand(sub.st.out.writer), id, sub.mount);
  }
}
