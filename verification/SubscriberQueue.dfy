/** The bounded queue between the broadcasters and one subscriber, and the goroutine that
    writes it to the subscriber's connection. Every select, every call of the connection's
    Write and every store to a shared flag is one step, so that any number of producers and
    the writer may interleave between any two of them.

    A char stands for one byte. */
module SubscriberQueue {

  const QUEUE_SIZE: nat := 256
  const MAX_RETRIES: nat := 3

  /** One value handed to Send or SendLoss. The ticket numbers the accepted values of this
      queue, so equal payloads stay distinct; the origin is the caller's own label. */
  datatype Packet = Packet(ticket: nat, origin: nat, bytes: string)

  /** Where a producer stands, with the packet it holds. */
  datatype Producer =
    | Idle
    | LossTry(p: Packet)    // before the first select of sendLossOwned
    | LossDrain(p: Packet)  // before the select that removes the oldest packet
    | LossRetry(p: Packet)  // before the last select
    | SendTry(p: Packet)    // before the first select of Send
    | SendWait(p: Packet)   // in the select against the 200 ms timer

  /** The producers' side. The last three fields are history: they record what happened and
      guide no step. */
  datatype Channel = Channel(
    producers: seq<Producer>,
    queue: seq<Packet>,
    closed: bool,
    dropped: nat,
    accepted: seq<Packet>,   // everything that passed the closed check
    pushed: seq<Packet>,     // everything that entered the queue
    discarded: seq<Packet>
  )

  datatype ChannelEvent =
    | AcceptLoss(who: nat, bytes: string, origin: nat)
    | AcceptSend(who: nat, bytes: string, origin: nat)
    | Push(who: nat)
    | Full(who: nat)
    | DrainOne(who: nat)
    | DrainNone(who: nat)
    | Timeout(who: nat)
    | MarkClosed

  datatype Writer =
    | Ready
    | Writing(msg: Packet, written: nat, attempt: nat)
    | Failed(msg: Packet, written: nat)
    | Exited

  /** The writer's side; `taken`, `sent` and `skipped` are history. */
  datatype Outlet = Outlet(
    writer: Writer,
    wire: string,
    bytesSent: nat,
    packets: nat,
    taken: seq<nat>,         // positions in pushed of the non-empty packets the writer took
    sent: seq<Packet>,
    skipped: seq<Packet>     // empty packets, which the writer passes over
  )

  datatype WriteError = NoError | TimedOut | Fatal

  datatype State = State(ch: Channel, out: Outlet, quit: bool)

  datatype Event =
    | Producing(c: ChannelEvent)
    | Take
    | Write(n: nat, err: WriteError)
    | Quit
    | CloseQuit

  // ---------- the producers ----------

  function Busy(p: Producer): seq<Packet> {
    if p.Idle? then [] else [p.p]
  }

  predicate CanProduce(c: Channel, e: ChannelEvent) {
    (e.MarkClosed? && !c.closed) ||
    (!e.MarkClosed? && e.who < |c.producers| &&
     var p := c.producers[e.who];
     match e
     case AcceptLoss(_, bytes, _) => p.Idle? && !c.closed && bytes != ""
     case AcceptSend(_, _, _) => p.Idle? && !c.closed
     case Push(_) => !p.Idle? && !p.LossDrain? && |c.queue| < QUEUE_SIZE
     case Full(_) => (p.LossTry? || p.LossRetry? || p.SendTry?) && |c.queue| >= QUEUE_SIZE
     case DrainOne(_) => p.LossDrain? && c.queue != []
     case DrainNone(_) => p.LossDrain? && c.queue == []
     case Timeout(_) => p.SendWait?
     case MarkClosed => false)
  }

  function Produce(c: Channel, e: ChannelEvent): Channel
    requires CanProduce(c, e)
  {
    match e
    case AcceptLoss(w, bytes, origin) => Accept(c, w, LossTry(Packet(|c.accepted|, origin, bytes)))
    case AcceptSend(w, bytes, origin) => Accept(c, w, SendTry(Packet(|c.accepted|, origin, bytes)))
    case Push(w) => Enqueue(c, w)
    case Full(w) =>
      var p := c.producers[w];
      if p.LossTry? then Move(c, w, LossDrain(p.p))
      else if p.SendTry? then Move(c, w, SendWait(p.p))
      else GiveUp(c, w)
    case DrainOne(w) => DropOldest(c, w)
    case DrainNone(w) => Move(c, w, LossRetry(c.producers[w].p))
    case Timeout(w) => GiveUp(c, w)
    case MarkClosed => c.(closed := true)
  }

  function Move(c: Channel, w: nat, p: Producer): Channel
    requires w < |c.producers|
  {
    c.(producers := c.producers[w := p])
  }

  function Accept(c: Channel, w: nat, p: Producer): Channel
    requires w < |c.producers| && !p.Idle?
  {
    Move(c, w, p).(accepted := c.accepted + [p.p])
  }

  function Enqueue(c: Channel, w: nat): Channel
    requires w < |c.producers| && !c.producers[w].Idle?
  {
    var p := c.producers[w].p;
    Move(c, w, Idle).(queue := c.queue + [p], pushed := c.pushed + [p])
  }

  function GiveUp(c: Channel, w: nat): Channel
    requires w < |c.producers| && !c.producers[w].Idle?
  {
    Move(c, w, Idle).(dropped := c.dropped + 1, discarded := c.discarded + [c.producers[w].p])
  }

  function DropOldest(c: Channel, w: nat): Channel
    requires w < |c.producers| && !c.producers[w].Idle? && c.queue != []
  {
    Move(c, w, LossRetry(c.producers[w].p)).(
      queue := c.queue[1..], dropped := c.dropped + 1, discarded := c.discarded + [c.queue[0]])
  }

  // ---------- the writer ----------

  /** What the writer loop does after one call of Write. */
  datatype Verdict =
    | Again(written: nat, attempt: nat)
    | Complete
    | Broken(written: nat)

  function Judge(length: nat, written: nat, attempt: nat, n: nat, err: WriteError): Verdict {
    if err == NoError then
      if n == 0 then Broken(written)
      else if written + n < length then Again(written + n, 0)
      else Complete
    else if err == TimedOut && attempt < MAX_RETRIES then
      if written + n < length then Again(written + n, attempt + 1)
      else Complete
    else
      Broken(written + n)
  }

  function Receive(o: Outlet, msg: Packet, position: nat): Outlet {
    if msg.bytes == "" then o.(skipped := o.skipped + [msg])
    else o.(writer := Writing(msg, 0, 0), taken := o.taken + [position])
  }

  predicate CanWrite(o: Outlet, n: nat) {
    o.writer.Writing? && o.writer.written + n <= |o.writer.msg.bytes|
  }

  function WriteOnce(o: Outlet, n: nat, err: WriteError): Outlet
    requires CanWrite(o, n)
  {
    var Writing(msg, written, attempt) := o.writer;
    var chunk := msg.bytes[written..written + n];
    match Judge(|msg.bytes|, written, attempt, n, err)
    case Again(written', attempt') => o.(writer := Writing(msg, written', attempt'), wire := o.wire + chunk)
    case Complete =>
      o.(writer := Ready, wire := o.wire + chunk, bytesSent := o.bytesSent + |msg.bytes|,
         packets := o.packets + 1, sent := o.sent + [msg])
    case Broken(written') => o.(writer := Failed(msg, written'), wire := o.wire + chunk)
  }

  // ---------- runs ----------

  function Init(producers: nat, preamble: string): State {
    State(Channel(seq(producers, i => Idle), [], false, 0, [], [], []),
          Outlet(Ready, preamble, 0, 0, [], [], []), false)
  }

  predicate Enabled(s: State, e: Event) {
    match e
    case Producing(c) => CanProduce(s.ch, c)
    case Take => s.out.writer.Ready? && s.ch.queue != []
    case Write(n, _) => CanWrite(s.out, n)
    case Quit => s.out.writer.Ready? && s.quit
    case CloseQuit => s.ch.closed && !s.quit
  }

  function Apply(s: State, e: Event): State
    requires Enabled(s, e)
  {
    match e
    case Producing(c) => s.(ch := Produce(s.ch, c))
    case Take =>
      State(s.ch.(queue := s.ch.queue[1..]), Receive(s.out, s.ch.queue[0], Gone(s.ch)), s.quit)
    case Write(n, err) => s.(out := WriteOnce(s.out, n, err))
    case Quit => s.(out := s.out.(writer := Exited))
    case CloseQuit => s.(quit := true)
  }

  /** A run is a list of events, each enabled when it happens. */
  ghost predicate Legal(s: State, es: seq<Event>)
    decreases |es|, 0
  {
    es == [] ||
    (Legal(s, es[..|es| - 1]) && Enabled(Run(s, es[..|es| - 1]), es[|es| - 1]))
  }

  ghost function Run(s: State, es: seq<Event>): State
    requires Legal(s, es)
    decreases |es|, 1
  {
    if es == [] then s else Apply(Run(s, es[..|es| - 1]), es[|es| - 1])
  }

  // ---------- reading the state ----------

  /** How many packets have left the queue, which is the position of its head in pushed. */
  function Gone(c: Channel): nat {
    if |c.queue| <= |c.pushed| then |c.pushed| - |c.queue| else 0
  }

  /** The packet the writer holds, whether it is at work on it or failed on it. */
  function InHand(w: Writer): seq<Packet> {
    if w.Writing? || w.Failed? then [w.msg] else []
  }

  /** The start of the packet that is not, or will never be, completed. */
  function Partial(w: Writer): string {
    if (w.Writing? || w.Failed?) && w.written <= |w.msg.bytes| then w.msg.bytes[..w.written] else ""
  }

  function Concat(ps: seq<Packet>): string {
    if ps == [] then "" else Concat(ps[..|ps| - 1]) + ps[|ps| - 1].bytes
  }

  // ---------- invariants ----------

  /** The queue is the newest end of what entered it. */
  ghost predicate QueueIsTail(c: Channel) {
    && |c.queue| <= QUEUE_SIZE
    && |c.queue| <= |c.pushed|
    && c.queue == c.pushed[|c.pushed| - |c.queue|..]
  }

  ghost predicate Ticketed(c: Channel) {
    && c.dropped == |c.discarded|
    && (forall i :: 0 <= i < |c.accepted| ==> c.accepted[i].ticket == i)
  }

  ghost predicate WireFramed(o: Outlet, preamble: string) {
    && (o.writer.Writing? ==> o.writer.written < |o.writer.msg.bytes| && o.writer.attempt <= MAX_RETRIES)
    && (o.writer.Failed? ==> o.writer.written <= |o.writer.msg.bytes|)
    && o.wire == preamble + Concat(o.sent) + Partial(o.writer)
    && o.bytesSent == |Concat(o.sent)|
    && o.packets == |o.sent|
    && (forall i :: 0 <= i < |o.skipped| ==> o.skipped[i].bytes == "")
  }

  /** The writer takes packets in queue order, each at most once. */
  ghost predicate InOrder(taken: seq<nat>, attempted: seq<Packet>, pushed: seq<Packet>, gone: nat) {
    && |taken| == |attempted|
    && gone <= |pushed|
    && (forall i, j :: 0 <= i < j < |taken| ==> taken[i] < taken[j])
    && (forall i :: 0 <= i < |taken| ==> taken[i] < gone)
    && (forall i :: 0 <= i < |taken| ==> pushed[taken[i]] == attempted[i])
  }

  ghost predicate Inv(s: State, preamble: string) {
    && QueueIsTail(s.ch)
    && Ticketed(s.ch)
    && WireFramed(s.out, preamble)
    && InOrder(s.out.taken, s.out.sent + InHand(s.out.writer), s.ch.pushed, Gone(s.ch))
  }

  lemma ProduceKeepsTail(c: Channel, e: ChannelEvent)
    requires QueueIsTail(c) && CanProduce(c, e)
    ensures QueueIsTail(Produce(c, e)) && Gone(c) <= Gone(Produce(c, e)) && c.pushed <= Produce(c, e).pushed
  {
  }

  lemma WriteExtends(o: Outlet, preamble: string, n: nat, err: WriteError)
    requires WireFramed(o, preamble) && CanWrite(o, n)
    ensures WriteOnce(o, n, err).wire == preamble + Concat(o.sent) + o.writer.msg.bytes[..o.writer.written + n]
  {
    var done := o.writer.msg.bytes[..o.writer.written];
    var chunk := o.writer.msg.bytes[o.writer.written..o.writer.written + n];
    assert done + chunk == o.writer.msg.bytes[..o.writer.written + n];
    assert (preamble + Concat(o.sent) + done) + chunk == preamble + Concat(o.sent) + (done + chunk);
  }

  lemma CompletionFrames(sent: seq<Packet>, msg: Packet, preamble: string)
    ensures preamble + Concat(sent) + msg.bytes == preamble + Concat(sent + [msg]) + ""
    ensures |Concat(sent + [msg])| == |Concat(sent)| + |msg.bytes|
  {
    assert (sent + [msg])[..|sent|] == sent;
  }

  lemma WriteKeepsFrame(o: Outlet, preamble: string, n: nat, err: WriteError)
    requires WireFramed(o, preamble) && CanWrite(o, n)
    ensures WireFramed(WriteOnce(o, n, err), preamble)
  {
    WriteExtends(o, preamble, n, err);
    CompletionFrames(o.sent, o.writer.msg, preamble);
    if WriteOnce(o, n, err).writer.Ready? {
      assert o.writer.msg.bytes[..o.writer.written + n] == o.writer.msg.bytes;
    }
  }

  lemma ReceiveKeepsFrame(o: Outlet, preamble: string, msg: Packet, position: nat)
    requires WireFramed(o, preamble) && o.writer.Ready?
    ensures WireFramed(Receive(o, msg, position), preamble)
  {
  }

  lemma TakeKeepsOrder(s: State, preamble: string)
    requires Inv(s, preamble) && Enabled(s, Take)
    ensures var t := Apply(s, Take);
      InOrder(t.out.taken, t.out.sent + InHand(t.out.writer), t.ch.pushed, Gone(t.ch))
  {
    assert s.ch.queue[0] == s.ch.pushed[Gone(s.ch)];
  }

  lemma StepInv(s: State, preamble: string, e: Event)
    requires Inv(s, preamble) && Enabled(s, e)
    ensures Inv(Apply(s, e), preamble)
  {
    match e
    case Producing(c) => ProduceKeepsTail(s.ch, c);
    case Take =>
      ReceiveKeepsFrame(s.out, preamble, s.ch.queue[0], Gone(s.ch));
      TakeKeepsOrder(s, preamble);
    case Write(n, err) =>
      WriteKeepsFrame(s.out, preamble, n, err);
      assert Apply(s, e).out.sent + InHand(Apply(s, e).out.writer) == s.out.sent + InHand(s.out.writer);
    case Quit =>
    case CloseQuit =>
  }

  lemma {:induction false} RunInv(producers: nat, preamble: string, es: seq<Event>)
    requires Legal(Init(producers, preamble), es)
    ensures Inv(Run(Init(producers, preamble), es), preamble)
  {
    if es != [] {
      RunInv(producers, preamble, es[..|es| - 1]);
      StepInv(Run(Init(producers, preamble), es[..|es| - 1]), preamble, es[|es| - 1]);
    }
  }

  // ---------- conservation ----------

  function Count(ps: seq<Packet>, p: Packet): nat {
    if ps == [] then 0 else Count(ps[..|ps| - 1], p) + if ps[|ps| - 1] == p then 1 else 0
  }

  function HeldCount(producers: seq<Producer>, p: Packet): nat {
    if producers == [] then 0
    else HeldCount(producers[..|producers| - 1], p) + Count(Busy(producers[|producers| - 1]), p)
  }

  /** How many places hold packet p: a producer, the queue, the discarded ones, ... */
  function PlacesBefore(c: Channel, p: Packet): nat {
    HeldCount(c.producers, p) + Count(c.queue, p) + Count(c.discarded, p)
  }

  /** ... or the writer's hand (at work, or lost to a fatal write), the completed and the
      skipped ones. */
  function PlacesAfter(o: Outlet, p: Packet): nat {
    Count(InHand(o.writer), p) + Count(o.sent, p) + Count(o.skipped, p)
  }

  lemma {:induction false} HeldUpdate(producers: seq<Producer>, w: nat, q: Producer, p: Packet)
    requires w < |producers|
    ensures HeldCount(producers[w := q], p) + Count(Busy(producers[w]), p)
         == HeldCount(producers, p) + Count(Busy(q), p)
  {
    var last := |producers| - 1;
    if w == last {
      assert producers[w := q][..last] == producers[..last];
    } else {
      assert producers[w := q][..last] == producers[..last][w := q];
      HeldUpdate(producers[..last], w, q, p);
    }
  }

  lemma {:induction false} NobodyHolds(n: nat, p: Packet)
    ensures HeldCount(seq(n, i => Idle), p) == 0
  {
    if n > 0 {
      assert seq(n, i => Idle)[..n - 1] == seq(n - 1, i => Idle);
      NobodyHolds(n - 1, p);
    }
  }

  lemma CountAppend(ps: seq<Packet>, x: Packet, p: Packet)
    ensures Count(ps + [x], p) == Count(ps, p) + if x == p then 1 else 0
  {
    assert (ps + [x])[..|ps|] == ps;
  }

  lemma {:induction false} CountHead(ps: seq<Packet>, p: Packet)
    requires ps != []
    ensures Count(ps, p) == Count(ps[1..], p) + if ps[0] == p then 1 else 0
  {
    var last := |ps| - 1;
    if last > 0 {
      assert ps[1..][..last - 1] == ps[..last][1..];
      CountHead(ps[..last], p);
    }
  }

  lemma {:induction false} CountPositive(ps: seq<Packet>, p: Packet)
    ensures Count(ps, p) > 0 <==> p in ps
  {
    if ps != [] {
      CountPositive(ps[..|ps| - 1], p);
      assert ps == ps[..|ps| - 1] + [ps[|ps| - 1]];
    }
  }

  lemma {:induction false} CountDistinct(ps: seq<Packet>, p: Packet)
    requires forall j :: 0 <= j < |ps| ==> ps[j].ticket == j
    ensures Count(ps, p) <= 1
  {
    if ps != [] {
      CountDistinct(ps[..|ps| - 1], p);
      CountPositive(ps[..|ps| - 1], p);
    }
  }

  lemma MoveKeepsPlaces(c: Channel, w: nat, q: Producer, p: Packet)
    requires w < |c.producers|
    ensures PlacesBefore(Move(c, w, q), p) + Count(Busy(c.producers[w]), p) == PlacesBefore(c, p) + Count(Busy(q), p)
  {
    HeldUpdate(c.producers, w, q, p);
  }

  lemma EnqueueKeepsPlaces(c: Channel, w: nat, p: Packet)
    requires w < |c.producers| && !c.producers[w].Idle?
    ensures PlacesBefore(Enqueue(c, w), p) == PlacesBefore(c, p) == PlacesBefore(GiveUp(c, w), p)
  {
    var mine := c.producers[w].p;
    MoveKeepsPlaces(c, w, Idle, p);
    CountOne(mine, p);
    CountAppend(c.queue, mine, p);
    CountAppend(c.discarded, mine, p);
  }

  lemma DropKeepsPlaces(c: Channel, w: nat, p: Packet)
    requires w < |c.producers| && !c.producers[w].Idle? && c.queue != []
    ensures PlacesBefore(DropOldest(c, w), p) == PlacesBefore(c, p)
  {
    MoveKeepsPlaces(c, w, LossRetry(c.producers[w].p), p);
    CountHead(c.queue, p);
    CountAppend(c.discarded, c.queue[0], p);
  }

  lemma ProduceMoves(c: Channel, e: ChannelEvent, p: Packet)
    requires CanProduce(c, e)
    ensures PlacesBefore(Produce(c, e), p) + Count(c.accepted, p) == PlacesBefore(c, p) + Count(Produce(c, e).accepted, p)
  {
    match e
    case AcceptLoss(w, bytes, origin) => AcceptMoves(c, w, LossTry(Packet(|c.accepted|, origin, bytes)), p);
    case AcceptSend(w, bytes, origin) => AcceptMoves(c, w, SendTry(Packet(|c.accepted|, origin, bytes)), p);
    case Push(w) => EnqueueKeepsPlaces(c, w, p);
    case Full(w) =>
      EnqueueKeepsPlaces(c, w, p);
      MoveKeepsPlaces(c, w, Produce(c, e).producers[w], p);
    case DrainOne(w) => DropKeepsPlaces(c, w, p);
    case DrainNone(w) => MoveKeepsPlaces(c, w, LossRetry(c.producers[w].p), p);
    case Timeout(w) => EnqueueKeepsPlaces(c, w, p);
    case MarkClosed =>
  }

  lemma AcceptMoves(c: Channel, w: nat, q: Producer, p: Packet)
    requires w < |c.producers| && c.producers[w].Idle? && !q.Idle?
    ensures PlacesBefore(Accept(c, w, q), p) + Count(c.accepted, p) == PlacesBefore(c, p) + Count(Accept(c, w, q).accepted, p)
  {
    MoveKeepsPlaces(c, w, q, p);
    CountOne(q.p, p);
    CountAppend(c.accepted, q.p, p);
  }

  lemma WriteMoves(o: Outlet, n: nat, err: WriteError, p: Packet)
    requires CanWrite(o, n)
    ensures PlacesAfter(WriteOnce(o, n, err), p) == PlacesAfter(o, p)
  {
    CountAppend(o.sent, o.writer.msg, p);
    CountOne(o.writer.msg, p);
  }

  lemma CountOne(x: Packet, p: Packet)
    ensures Count([x], p) == (if x == p then 1 else 0) && Count([], p) == 0
  {
    CountAppend([], x, p);
    assert [] + [x] == [x];
  }

  lemma ReceiveMoves(o: Outlet, msg: Packet, position: nat, p: Packet)
    requires o.writer.Ready?
    ensures PlacesAfter(Receive(o, msg, position), p) == PlacesAfter(o, p) + if msg == p then 1 else 0
  {
    CountAppend(o.skipped, msg, p);
    CountOne(msg, p);
  }

  lemma {:induction false} PlacesRun(producers: nat, preamble: string, es: seq<Event>, p: Packet)
    requires Legal(Init(producers, preamble), es)
    ensures var s := Run(Init(producers, preamble), es);
      PlacesBefore(s.ch, p) + PlacesAfter(s.out, p) == Count(s.ch.accepted, p)
  {
    if es == [] {
      NobodyHolds(producers, p);
    } else {
      PlacesRun(producers, preamble, es[..|es| - 1], p);
      var s := Run(Init(producers, preamble), es[..|es| - 1]);
      match es[|es| - 1]
      case Producing(c) => ProduceMoves(s.ch, c, p);
      case Take =>
        CountHead(s.ch.queue, p);
        ReceiveMoves(s.out, s.ch.queue[0], Gone(s.ch), p);
      case Write(n, err) => WriteMoves(s.out, n, err, p);
      case Quit =>
      case CloseQuit =>
    }
  }

  /** In every run, with any number of producers mixing Send and SendLoss, a packet that
      passed the closed check is in exactly one place and no other packet is anywhere; only
      empty packets are passed over, the counters count the completed and the discarded
      packets, and the queue never exceeds its capacity. */
  lemma {:induction false} Conservation(producers: nat, preamble: string, es: seq<Event>, p: Packet)
    requires Legal(Init(producers, preamble), es)
    ensures var s := Run(Init(producers, preamble), es);
      && PlacesBefore(s.ch, p) + PlacesAfter(s.out, p) == (if p in s.ch.accepted then 1 else 0)
      && (p.bytes != "" ==> Count(s.out.skipped, p) == 0)
      && s.out.packets == |s.out.sent| && s.ch.dropped == |s.ch.discarded|
      && |s.ch.queue| <= 256
  {
    RunInv(producers, preamble, es);
    PlacesRun(producers, preamble, es, p);
    var s := Run(Init(producers, preamble), es);
    CountPositive(s.ch.accepted, p);
    CountDistinct(s.ch.accepted, p);
    CountPositive(s.out.skipped, p);
  }

  // ---------- wire framing ----------

  /** In every run the connection carries the preamble, then the completed packets back to
      back, then the start of at most one more; the packets written are a subsequence, in
      order, of what entered the queue; and bytesSent counts the completed bytes. */
  lemma {:induction false} WireFraming(producers: nat, preamble: string, es: seq<Event>)
    requires Legal(Init(producers, preamble), es)
    ensures var s := Run(Init(producers, preamble), es);
      var attempted := s.out.sent + InHand(s.out.writer);
      && s.out.wire == preamble + Concat(s.out.sent) + Partial(s.out.writer)
      && s.out.bytesSent == |Concat(s.out.sent)|
      && (forall q | q in InHand(s.out.writer) :: Partial(s.out.writer) <= q.bytes)
      && InOrder(s.out.taken, attempted, s.ch.pushed, Gone(s.ch))
  {
    RunInv(producers, preamble, es);
  }

  /** Timeouts of the current packet since its last error-free write, read off the run alone. */
  function TimeoutsInARow(es: seq<Event>): nat {
    if es == [] then 0
    else
      var last := es[|es| - 1];
      if last.Take? || (last.Write? && last.err != TimedOut) then 0
      else TimeoutsInARow(es[..|es| - 1]) + if last.Write? then 1 else 0
  }

  /** While a packet is being written, at most three timeouts were retried since it was taken
      or since its last error-free write; and one more ends the writer exactly after three. */
  lemma {:induction false} RetryBudget(producers: nat, preamble: string, es: seq<Event>, n: nat)
    requires Legal(Init(producers, preamble), es)
    ensures var s := Run(Init(producers, preamble), es);
      s.out.writer.Writing? ==>
        && TimeoutsInARow(es) == s.out.writer.attempt <= 3
        && (CanWrite(s.out, n) ==> (WriteOnce(s.out, n, TimedOut).writer.Failed? <==> TimeoutsInARow(es) == 3))
  {
    RunInv(producers, preamble, es);
    if es != [] {
      RetryBudget(producers, preamble, es[..|es| - 1], n);
    }
  }

  // ---------- freshness ----------

  /** The events of a run in which only producer w is at work, and only by the lossy send. */
  predicate OneLossy(e: Event, w: nat) {
    e.Producing? ==> e.c.MarkClosed? || (e.c.who == w && !e.c.AcceptSend?)
  }

  ghost predicate Fresh(c: Channel, w: nat) {
    && w < |c.producers|
    && (forall v :: 0 <= v < |c.producers| && v != w ==> c.producers[v].Idle?)
    && !c.producers[w].SendTry? && !c.producers[w].SendWait?
    && c.accepted == c.pushed + Busy(c.producers[w])
    && (c.producers[w].LossRetry? ==> |c.queue| < QUEUE_SIZE)
  }

  lemma ProduceKeepsFresh(c: Channel, e: ChannelEvent, w: nat)
    requires Fresh(c, w) && CanProduce(c, e) && OneLossy(Producing(e), w) && |c.queue| <= QUEUE_SIZE
    ensures Fresh(Produce(c, e), w)
  {
  }

  lemma {:induction false} FreshRun(producers: nat, preamble: string, es: seq<Event>, w: nat)
    requires Legal(Init(producers, preamble), es) && w < producers
    requires forall e | e in es :: OneLossy(e, w)
    ensures Fresh(Run(Init(producers, preamble), es).ch, w)
  {
    if es != [] {
      var s := Run(Init(producers, preamble), es[..|es| - 1]);
      FreshRun(producers, preamble, es[..|es| - 1], w);
      RunInv(producers, preamble, es[..|es| - 1]);
      assert es[|es| - 1] in es;
      if es[|es| - 1].Producing? {
        ProduceKeepsFresh(s.ch, es[|es| - 1].c, w);
      }
    }
  }

  /** The newest accepted packet has not been dropped. */
  ghost predicate NewestKept(c: Channel) {
    c.accepted != [] ==> c.accepted[|c.accepted| - 1] !in c.discarded
  }

  /** Whatever was dropped is older than the newest accepted packet. */
  ghost predicate OnlyOlderDropped(c: Channel) {
    forall d | d in c.discarded :: d.ticket + 1 < |c.accepted|
  }

  lemma ProduceDropsOlder(c: Channel, e: ChannelEvent, w: nat)
    requires Fresh(c, w) && QueueIsTail(c) && Ticketed(c) && OnlyOlderDropped(c)
    requires CanProduce(c, e) && OneLossy(Producing(e), w) && |c.queue| <= QUEUE_SIZE
    ensures OnlyOlderDropped(Produce(c, e))
  {
    if e.DrainOne? {
      FreshTail(c, w);
      assert c.queue[0] == c.accepted[|c.pushed| - |c.queue|];
    }
  }

  lemma OlderDroppedKeepsNewest(c: Channel)
    requires OnlyOlderDropped(c) && Ticketed(c)
    ensures NewestKept(c)
  {
  }

  lemma {:induction false} OlderDroppedRun(producers: nat, preamble: string, es: seq<Event>, w: nat)
    requires Legal(Init(producers, preamble), es) && w < producers
    requires forall e | e in es :: OneLossy(e, w)
    ensures OnlyOlderDropped(Run(Init(producers, preamble), es).ch)
  {
    if es != [] {
      var before, e := es[..|es| - 1], es[|es| - 1];
      OlderDroppedRun(producers, preamble, before, w);
      FreshRun(producers, preamble, before, w);
      RunInv(producers, preamble, before);
      assert e in es;
      if e.Producing? {
        ProduceDropsOlder(Run(Init(producers, preamble), before).ch, e.c, w);
      }
    }
  }

  lemma FreshTail(c: Channel, w: nat)
    requires Fresh(c, w) && QueueIsTail(c) && Ticketed(c)
    ensures var newest := |c.accepted| - |Busy(c.producers[w])|;
      && |c.queue| <= newest
      && c.queue == c.accepted[newest - |c.queue|..newest]
      && (c.queue != [] ==> c.queue[0].ticket + QUEUE_SIZE >= |c.accepted| - 1)
  {
    assert c.accepted[..|c.pushed|] == c.pushed;
    if c.queue != [] {
      assert c.queue[0] == c.accepted[|c.pushed| - |c.queue|];
    }
  }

  /** The newest accepted packet is not dropped, the last select never finds the queue full, the
      queue is a contiguous run of the newest accepted packets, and the packet at its head,
      which is the one the writer takes, is at most 256 behind the newest accepted. */
  ghost predicate HoldsNewest(c: Channel, w: nat) {
    && w < |c.producers| && NewestKept(c)
    && (c.producers[w].LossRetry? ==> CanProduce(c, Push(w)) && !CanProduce(c, Full(w)))
    && var newest := |c.accepted| - |Busy(c.producers[w])|;
    && |c.queue| <= newest
    && c.queue == c.accepted[newest - |c.queue|..newest]
    && (c.queue != [] ==> c.queue[0].ticket + QUEUE_SIZE >= |c.accepted| - 1)
  }

  lemma FreshHoldsNewest(c: Channel, w: nat)
    requires Fresh(c, w) && QueueIsTail(c) && Ticketed(c) && OnlyOlderDropped(c) && |c.queue| <= QUEUE_SIZE
    ensures HoldsNewest(c, w)
  {
    FreshTail(c, w);
    OlderDroppedKeepsNewest(c);
  }

  /** With one lossy producer at work, whatever the writer does in between, the queue holds the
      newest packets. */
  lemma {:induction false} Freshness(producers: nat, preamble: string, es: seq<Event>, w: nat)
    requires Legal(Init(producers, preamble), es) && w < producers
    requires forall e | e in es :: OneLossy(e, w)
    ensures HoldsNewest(Run(Init(producers, preamble), es).ch, w)
  {
    FreshRun(producers, preamble, es, w);
    RunInv(producers, preamble, es);
    OlderDroppedRun(producers, preamble, es, w);
    FreshHoldsNewest(Run(Init(producers, preamble), es).ch, w);
  }

  // ---------- two producers ----------

  /** The producers' steps es lead from c to d. */
  ghost predicate ProducesTo(c: Channel, es: seq<ChannelEvent>, d: Channel)
    decreases |es|
  {
    if es == [] then c == d else CanProduce(c, es[0]) && ProducesTo(Produce(c, es[0]), es[1..], d)
  }

  lemma {:induction false} ProduceMore(c: Channel, es: seq<ChannelEvent>, d: Channel, e: ChannelEvent)
    returns (es': seq<ChannelEvent>, d': Channel)
    requires ProducesTo(c, es, d) && CanProduce(d, e)
    ensures es' == es + [e] && d' == Produce(d, e) && ProducesTo(c, es', d')
    decreases |es|
  {
    es', d' := es + [e], Produce(d, e);
    if es == [] {
      assert es'[1..] == [];
      assert ProducesTo(d', [], d');
    } else {
      var rest, last := ProduceMore(Produce(c, es[0]), es[1..], d, e);
      assert es'[1..] == rest;
    }
  }

  /** A step of SendLoss. */
  predicate Lossy(e: ChannelEvent) {
    !e.AcceptSend? && !e.Timeout? && !e.MarkClosed?
  }

  ghost predicate AllLossy(es: seq<ChannelEvent>) {
    forall e | e in es :: Lossy(e)
  }

  /** A run of producers' steps to channel d, all of SendLoss. */
  ghost predicate LossyRun(s: State, es: seq<Event>, d: Channel) {
    Legal(s, es) && Run(s, es).ch == d && forall e | e in es :: e.Producing? && Lossy(e.c)
  }

  lemma OneMore(s: State, es: seq<Event>, c: Channel, e: ChannelEvent)
    requires LossyRun(s, es, c) && CanProduce(c, e) && Lossy(e)
    ensures LossyRun(s, es + [Producing(e)], Produce(c, e))
  {
    assert (es + [Producing(e)])[..|es|] == es;
  }

  /** Producers' steps are a run when nothing else happens. */
  lemma {:induction false} RunOfProducers(s: State, es: seq<Event>, c: Channel, ps: seq<ChannelEvent>, d: Channel)
    returns (es': seq<Event>)
    requires LossyRun(s, es, c) && ProducesTo(c, ps, d) && AllLossy(ps)
    ensures LossyRun(s, es', d)
    decreases |ps|
  {
    if ps == [] {
      es' := es;
    } else {
      OneMore(s, es, c, ps[0]);
      assert AllLossy(ps[1..]);
      es' := RunOfProducers(s, es + [Producing(ps[0])], Produce(c, ps[0]), ps[1..], d);
    }
  }

  /** The first two producers are idle. */
  predicate TwoIdle(c: Channel) {
    |c.producers| >= 2 && c.producers[0].Idle? && c.producers[1].Idle?
  }

  /** The queue filled with k packets. */
  lemma {:induction false} Filled(c: Channel, k: nat) returns (es: seq<ChannelEvent>, d: Channel)
    requires k <= QUEUE_SIZE && TwoIdle(c) && c.queue == [] && !c.closed
    ensures ProducesTo(c, es, d) && AllLossy(es)
    ensures TwoIdle(d) && |d.queue| == k && !d.closed
  {
    es, d := [], c;
    if k > 0 {
      es, d := Filled(c, k - 1);
      es, d := ProduceMore(c, es, d, AcceptLoss(0, "x", 0));
      es, d := ProduceMore(c, es, d, Push(0));
    }
  }

  /** Producer 1 frees a slot. */
  lemma {:induction false} SlotFreed(c: Channel, es: seq<ChannelEvent>, d: Channel) returns (es': seq<ChannelEvent>, d': Channel)
    requires ProducesTo(c, es, d) && AllLossy(es)
    requires TwoIdle(d) && |d.queue| == QUEUE_SIZE && !d.closed
    ensures ProducesTo(c, es', d') && AllLossy(es')
    ensures |d'.producers| >= 2 && d'.producers[0].Idle? && d'.producers[1].LossRetry?
    ensures |d'.queue| == QUEUE_SIZE - 1 && !d'.closed
  {
    es', d' := ProduceMore(c, es, d, AcceptLoss(1, "x", 0));
    es', d' := ProduceMore(c, es', d', Full(1));
    es', d' := ProduceMore(c, es', d', DrainOne(1));
  }

  /** Producer 0 fills it with another packet. */
  lemma {:induction false} SlotTaken(c: Channel, es: seq<ChannelEvent>, d: Channel) returns (es': seq<ChannelEvent>, d': Channel)
    requires ProducesTo(c, es, d) && AllLossy(es)
    requires |d.producers| >= 2 && d.producers[0].Idle? && d.producers[1].LossRetry?
    requires |d.queue| == QUEUE_SIZE - 1 && !d.closed
    ensures ProducesTo(c, es', d') && AllLossy(es')
    ensures |d'.producers| >= 2 && d'.producers[0].Idle? && d'.producers[1].LossRetry?
    ensures |d'.queue| == QUEUE_SIZE && !d'.closed
  {
    es', d' := ProduceMore(c, es, d, AcceptLoss(0, "x", 0));
    es', d' := ProduceMore(c, es', d', Push(0));
  }

  /** Producer 0 frees a slot for the newest packet. */
  lemma {:induction false} NewestWaits(c: Channel, es: seq<ChannelEvent>, d: Channel) returns (es': seq<ChannelEvent>, d': Channel)
    requires ProducesTo(c, es, d) && AllLossy(es)
    requires |d.producers| >= 2 && d.producers[0].Idle? && d.producers[1].LossRetry?
    requires |d.queue| == QUEUE_SIZE && !d.closed
    ensures ProducesTo(c, es', d') && AllLossy(es')
    ensures |d'.producers| >= 2 && d'.producers[0].LossRetry? && d'.producers[1].LossRetry?
    ensures |d'.queue| == QUEUE_SIZE - 1 && d'.accepted != [] && d'.producers[0].p == d'.accepted[|d'.accepted| - 1]
  {
    es', d' := ProduceMore(c, es, d, AcceptLoss(0, "newest", 0));
    es', d' := ProduceMore(c, es', d', Full(0));
    es', d' := ProduceMore(c, es', d', DrainOne(0));
  }

  /** Producer 1 takes the slot. */
  lemma {:induction false} NewestGivenUp(c: Channel, es: seq<ChannelEvent>, d: Channel) returns (es': seq<ChannelEvent>, d': Channel)
    requires ProducesTo(c, es, d) && AllLossy(es)
    requires |d.producers| >= 2 && d.producers[0].LossRetry? && d.producers[1].LossRetry?
    requires |d.queue| == QUEUE_SIZE - 1 && d.accepted != [] && d.producers[0].p == d.accepted[|d.accepted| - 1]
    ensures ProducesTo(c, es', d') && AllLossy(es') && |d'.queue| == QUEUE_SIZE
    ensures d'.accepted != [] && d'.discarded != [] && d'.discarded[|d'.discarded| - 1] == d'.accepted[|d'.accepted| - 1]
  {
    es', d' := ProduceMore(c, es, d, Push(1));
    es', d' := ProduceMore(c, es', d', Full(0));
  }

  /** A packet that was discarded is not in the queue. */
  lemma {:induction false} DiscardedIsGone(producers: nat, preamble: string, es: seq<Event>, p: Packet)
    requires Legal(Init(producers, preamble), es) && p in Run(Init(producers, preamble), es).ch.discarded
    ensures p !in Run(Init(producers, preamble), es).ch.queue
  {
    var c := Run(Init(producers, preamble), es).ch;
    Conservation(producers, preamble, es, p);
    CountPositive(c.discarded, p);
    CountPositive(c.queue, p);
  }

  lemma {:induction false} DropTheNewest(c: Channel) returns (es: seq<ChannelEvent>, d: Channel)
    requires TwoIdle(c) && c.queue == [] && !c.closed
    ensures ProducesTo(c, es, d) && AllLossy(es) && |d.queue| == QUEUE_SIZE
    ensures d.accepted != [] && d.discarded != [] && d.discarded[|d.discarded| - 1] == d.accepted[|d.accepted| - 1]
  {
    es, d := Filled(c, QUEUE_SIZE);
    es, d := SlotFreed(c, es, d);
    es, d := SlotTaken(c, es, d);
    es, d := NewestWaits(c, es, d);
    es, d := NewestGivenUp(c, es, d);
  }

  /** With a second producer freshness fails: there is a run of lossy sends alone after which
      the newest of all accepted packets has been dropped and is not in the queue, which is
      full of older ones. */
  lemma TwoProducersCanDropTheNewest(producers: nat, preamble: string) returns (es: seq<Event>)
    requires producers >= 2
    ensures Legal(Init(producers, preamble), es) && forall e | e in es :: e.Producing? && Lossy(e.c)
    ensures var c := Run(Init(producers, preamble), es).ch;
      && |c.queue| == 256 && c.accepted != []
      && c.accepted[|c.accepted| - 1] in c.discarded && c.accepted[|c.accepted| - 1] !in c.queue
  {
    var c := Init(producers, preamble).ch;
    var ps, d := DropTheNewest(c);
    es := RunOfProducers(Init(producers, preamble), [], c, ps, d);
    DiscardedIsGone(producers, preamble, es, d.accepted[|d.accepted| - 1]);
  }

  // ---------- when the newest is kept ----------

  /** Producers only ever use the lossy send. */
  ghost predicate LossyOnly(es: seq<Event>) {
    forall e | e in es && e.Producing? :: e.c.MarkClosed? || Lossy(e.c)
  }

  lemma {:induction false} NobodyAccepts(preamble: string, es: seq<Event>)
    requires Legal(Init(0, preamble), es)
    ensures var c := Run(Init(0, preamble), es).ch; c.producers == [] && c.accepted == []
  {
    if es != [] {
      NobodyAccepts(preamble, es[..|es| - 1]);
    }
  }

  /** With one producer, every step of a run of lossy sends is that producer's. */
  lemma {:induction false} OnlyTheFirst(preamble: string, es: seq<Event>)
    requires Legal(Init(1, preamble), es) && LossyOnly(es)
    ensures |Run(Init(1, preamble), es).ch.producers| == 1 && forall e | e in es :: OneLossy(e, 0)
  {
    if es != [] {
      var before, last := es[..|es| - 1], es[|es| - 1];
      assert last in es && forall e | e in before :: e in es;
      OnlyTheFirst(preamble, before);
      assert es == before + [last];
    }
  }

  /** The newest packet is kept in every run of lossy sends exactly when there is at most one
      producer. */
  lemma NewestKeptExactly(producers: nat, preamble: string)
    ensures (forall es | Legal(Init(producers, preamble), es) && LossyOnly(es) ::
               NewestKept(Run(Init(producers, preamble), es).ch))
       <==> producers <= 1
  {
    if producers >= 2 {
      var es := TwoProducersCanDropTheNewest(producers, preamble);
      assert LossyOnly(es) && !NewestKept(Run(Init(producers, preamble), es).ch);
    } else {
      forall es | Legal(Init(producers, preamble), es) && LossyOnly(es)
        ensures NewestKept(Run(Init(producers, preamble), es).ch)
      {
        FewKeepTheNewest(producers, preamble, es);
      }
    }
  }

  lemma {:induction false} FewKeepTheNewest(producers: nat, preamble: string, es: seq<Event>)
    requires producers <= 1 && Legal(Init(producers, preamble), es) && LossyOnly(es)
    ensures NewestKept(Run(Init(producers, preamble), es).ch)
  {
    if producers == 0 {
      NobodyAccepts(preamble, es);
    } else {
      OnlyTheFirst(preamble, es);
      Freshness(1, preamble, es, 0);
    }
  }

  // ---------- the two ways to send ----------

  /** What producer w last brought, read off the run: a Send, a lossy send or nothing. */
  datatype Brought = Nothing | BySend(waits: bool) | ByLoss

  /** A Send waits once it has found the queue full. */
  function LastBrought(es: seq<Event>, w: nat): Brought {
    if es == [] then Nothing
    else
      var before, e := LastBrought(es[..|es| - 1], w), es[|es| - 1];
      if e.Producing? && !e.c.MarkClosed? && e.c.who == w then
        if e.c.AcceptSend? then BySend(false)
        else if e.c.AcceptLoss? then ByLoss
        else if e.c.Full? && before.BySend? then BySend(true)
        else before
      else before
  }

  predicate BroughtOk(p: Producer, b: Brought) {
    match p
    case Idle => true
    case SendTry(_) => b == BySend(false)
    case SendWait(_) => b == BySend(true)
    case _ => b == ByLoss
  }

  lemma {:induction false} BroughtRun(producers: nat, preamble: string, es: seq<Event>, w: nat)
    requires Legal(Init(producers, preamble), es)
    ensures var ps := Run(Init(producers, preamble), es).ch.producers;
      |ps| == producers && (w < |ps| ==> BroughtOk(ps[w], LastBrought(es, w)))
  {
    if es != [] {
      var s, e := Run(Init(producers, preamble), es[..|es| - 1]), es[|es| - 1];
      BroughtRun(producers, preamble, es[..|es| - 1], w);
      if e.Producing? {
        ProduceBrought(s.ch, e.c, w);
      }
    }
  }

  lemma ProduceBrought(c: Channel, e: ChannelEvent, w: nat)
    requires CanProduce(c, e)
    ensures var ps, ps' := c.producers, Produce(c, e).producers;
      && |ps'| == |ps|
      && (w < |ps| && (e.MarkClosed? || e.who != w) ==> ps'[w] == ps[w])
  {
  }

  /** What the last step gave up for good, read off the run: a Send is dropped exactly by its
      timer, after it found the queue full; a lossy send's own packet exactly by a second full
      queue; and the oldest packet exactly by a lossy send that found it full. */
  lemma {:induction false} DroppedExactly(producers: nat, preamble: string, es: seq<Event>, e: ChannelEvent)
    requires Legal(Init(producers, preamble), es) && CanProduce(Run(Init(producers, preamble), es).ch, e)
    ensures var c := Run(Init(producers, preamble), es).ch;
      var b := if e.MarkClosed? then Nothing else LastBrought(es, e.who);
      && (e.Timeout? ==> b == BySend(true))
      && (e.Full? ==> b != BySend(true))
      && Produce(c, e).discarded == c.discarded +
           (if e.Timeout? || (e.Full? && c.producers[e.who].LossRetry?) then [c.producers[e.who].p]
            else if e.DrainOne? then [c.queue[0]]
            else [])
      && (b.BySend? && Produce(c, e).discarded != c.discarded ==> e.Timeout?)
  {
    if !e.MarkClosed? {
      BroughtRun(producers, preamble, es, e.who);
    }
  }

  /** Once closed nothing more is accepted. */
  lemma {:induction false} ClosedAcceptsNothing(producers: nat, preamble: string, es: seq<Event>, more: seq<Event>)
    requires Legal(Init(producers, preamble), es + more) && Producing(MarkClosed) in es
    ensures Legal(Init(producers, preamble), es)
    ensures Run(Init(producers, preamble), es).ch.closed
    ensures Run(Init(producers, preamble), es + more).ch.accepted == Run(Init(producers, preamble), es).ch.accepted
    ensures Run(Init(producers, preamble), es + more).ch.closed
  {
    if more == [] {
      assert es + more == es;
      ClosedStays(producers, preamble, es);
    } else {
      assert (es + more)[..|es + more| - 1] == es + more[..|more| - 1];
      ClosedAcceptsNothing(producers, preamble, es, more[..|more| - 1]);
    }
  }

  lemma {:induction false} ClosedStays(producers: nat, preamble: string, es: seq<Event>)
    requires Legal(Init(producers, preamble), es) && Producing(MarkClosed) in es
    ensures Run(Init(producers, preamble), es).ch.closed
  {
    var before, last := es[..|es| - 1], es[|es| - 1];
    assert es == before + [last];
    if last != Producing(MarkClosed) {
      ClosedStays(producers, preamble, before);
    }
  }

  /** A lossy send never brings an empty packet, so the writer passes over none. */
  lemma {:induction false} LossyBringsBytes(producers: nat, preamble: string, es: seq<Event>)
    requires Legal(Init(producers, preamble), es) && LossyOnly(es)
    ensures forall p | p in Run(Init(producers, preamble), es).ch.accepted :: p.bytes != ""
  {
    if es != [] {
      var before, last := es[..|es| - 1], es[|es| - 1];
      assert es == before + [last] && last in es;
      assert LossyOnly(before);
      LossyBringsBytes(producers, preamble, before);
    }
  }

  /** A call of Write ends the writer exactly if it took nothing without an error, if its error
      was no timeout, or if it was the fourth timeout in a row; otherwise the packet is complete
      exactly if all of it was taken. */
  lemma {:induction false} WriteEndsExactly(producers: nat, preamble: string, es: seq<Event>, n: nat, err: WriteError)
    requires Legal(Init(producers, preamble), es) && CanWrite(Run(Init(producers, preamble), es).out, n)
    ensures var o := Run(Init(producers, preamble), es).out;
      var o' := WriteOnce(o, n, err);
      && (o'.writer.Failed? <==>
            (err == NoError && n == 0) || err == Fatal || (err == TimedOut && TimeoutsInARow(es) == 3))
      && (!o'.writer.Failed? ==>
            if o.writer.written + n == |o.writer.msg.bytes| then o'.writer == Ready && o'.sent == o.sent + [o.writer.msg]
            else o'.writer == Writing(o.writer.msg, o.writer.written + n, if err == NoError then 0 else TimeoutsInARow(es) + 1))
  {
    RunInv(producers, preamble, es);
    RetryBudget(producers, preamble, es, n);
  }

  // ---------- nothing gets stuck ----------

  /** The stages of a lossy send. */
  predicate InLoss(p: Producer) {
    p.LossTry? || p.LossDrain? || p.LossRetry?
  }

  /** A select of producer w. */
  predicate SelectOf(e: ChannelEvent, w: nat) {
    (e.Push? || e.Full? || e.DrainOne? || e.DrainNone?) && e.who == w
  }

  /** From each of its stages a lossy send is finished by its own selects alone, at most three of
      them, however full the queue is and whatever the writer and the other producers do or do
      not do. */
  lemma LossyFinishes(c: Channel, w: nat) returns (es: seq<ChannelEvent>, d: Channel)
    requires w < |c.producers| && InLoss(c.producers[w]) && |c.queue| <= QUEUE_SIZE
    ensures |es| <= 3 && forall e | e in es :: SelectOf(e, w)
    ensures ProducesTo(c, es, d)
    ensures d.producers == c.producers[w := Idle] && d.accepted == c.accepted && d.closed == c.closed
  {
    es, d := [], c;
    if c.producers[w].LossTry? && |c.queue| >= QUEUE_SIZE {
      es, d := ProduceMore(c, es, d, Full(w));
    }
    if d.producers[w].LossDrain? {
      es, d := ProduceMore(c, es, d, if d.queue == [] then DrainNone(w) else DrainOne(w));
    }
    es, d := ProduceMore(c, es, d, if |d.queue| < QUEUE_SIZE then Push(w) else Full(w));
    assert d.producers == c.producers[w := Idle];
  }

  /** A Send gets in when there is room, at once or while it waits; when there is none its timer
      ends it. */
  lemma SendFinishes(c: Channel, w: nat) returns (es: seq<ChannelEvent>, d: Channel)
    requires w < |c.producers| && (c.producers[w].SendTry? || c.producers[w].SendWait?)
    ensures |es| <= 2 && forall e | e in es :: e.Push? || e.Full? || e.Timeout?
    ensures ProducesTo(c, es, d) && d.producers == c.producers[w := Idle]
    ensures var p := c.producers[w].p;
      if |c.queue| < QUEUE_SIZE then d.queue == c.queue + [p] && d.discarded == c.discarded
      else d.queue == c.queue && d.discarded == c.discarded + [p]
  {
    es, d := [], c;
    if |c.queue| < QUEUE_SIZE {
      es, d := ProduceMore(c, es, d, Push(w));
    } else {
      if c.producers[w].SendTry? {
        es, d := ProduceMore(c, es, d, Full(w));
      }
      es, d := ProduceMore(c, es, d, Timeout(w));
    }
    assert d.producers == c.producers[w := Idle];
  }

  function NonEmpty(ps: seq<Packet>): seq<Packet> {
    if ps == [] then [] else (if ps[0].bytes == "" then [] else [ps[0]]) + NonEmpty(ps[1..])
  }

  /** The steps es lead from s to t. */
  ghost predicate Leads(s: State, es: seq<Event>, t: State)
    decreases |es|
  {
    if es == [] then s == t else Enabled(s, es[0]) && Leads(Apply(s, es[0]), es[1..], t)
  }

  lemma OneMoreEvent(init: State, es: seq<Event>, e: Event)
    requires Legal(init, es) && Enabled(Run(init, es), e)
    ensures Legal(init, es + [e]) && Run(init, es + [e]) == Apply(Run(init, es), e)
  {
    assert (es + [e])[..|es|] == es;
  }

  /** A run that has got to s can go on by such steps. */
  lemma {:induction false} GoesOn(init: State, es: seq<Event>, s: State, more: seq<Event>, t: State)
    requires Legal(init, es) && Run(init, es) == s && Leads(s, more, t)
    ensures Legal(init, es + more) && Run(init, es + more) == t
    decreases |more|
  {
    if more == [] {
      assert es + more == es;
    } else {
      OneMoreEvent(init, es, more[0]);
      GoesOn(init, es + [more[0]], Apply(s, more[0]), more[1..], t);
      assert es + [more[0]] + more[1..] == es + more;
    }
  }

  ghost predicate OfWriter(es: seq<Event>) {
    forall e | e in es :: e.Take? || e.Write?
  }

  /** The writer is alive and has something left of the packet it is at. */
  predicate AtWork(w: Writer) {
    w.Ready? || (w.Writing? && w.written < |w.msg.bytes|)
  }

  /** Nothing but the writer has moved from s to t, and it has written all that there was. */
  ghost predicate Drained(s: State, t: State) {
    && t.out.writer == Ready && t.ch == s.ch.(queue := [])
    && t.out.sent == s.out.sent + InHand(s.out.writer) + NonEmpty(s.ch.queue)
  }

  lemma TakeDrains(s: State, t: State)
    requires Enabled(s, Take) && Drained(Apply(s, Take), t)
    ensures Drained(s, t)
  {
    var q, rest := s.ch.queue, NonEmpty(s.ch.queue[1..]);
    assert NonEmpty(q) == (if q[0].bytes == "" then [] else [q[0]]) + rest;
    assert s.out.sent + [] + NonEmpty(q) == s.out.sent + NonEmpty(q);
    assert s.out.sent + [q[0]] + rest == s.out.sent + ([q[0]] + rest);
  }

  lemma {:induction false} Drains(s: State) returns (es: seq<Event>, t: State)
    requires AtWork(s.out.writer)
    ensures OfWriter(es) && Leads(s, es, t) && Drained(s, t)
    decreases |s.ch.queue|, s.out.writer.Writing?
  {
    if s.out.writer.Ready? && s.ch.queue == [] {
      es, t := [], s;
    } else {
      var e := if s.out.writer.Ready? then Take else Write(|s.out.writer.msg.bytes| - s.out.writer.written, NoError);
      var rest;
      rest, t := Drains(Apply(s, e));
      es := [e] + rest;
      assert es[1..] == rest;
      if e.Take? {
        TakeDrains(s, t);
      }
    }
  }

  /** So as long as the peer takes bytes the writer empties the queue: from wherever a run has
      got to, it can go on by steps of the writer alone until every packet that is in its hand
      or in the queue is written. */
  lemma {:induction false} WriterDrains(producers: nat, preamble: string, es: seq<Event>) returns (more: seq<Event>)
    requires Legal(Init(producers, preamble), es)
    requires var w := Run(Init(producers, preamble), es).out.writer; w.Ready? || w.Writing?
    ensures OfWriter(more) && Legal(Init(producers, preamble), es + more)
    ensures Drained(Run(Init(producers, preamble), es), Run(Init(producers, preamble), es + more))
  {
    RunInv(producers, preamble, es);
    var s := Run(Init(producers, preamble), es);
    var t;
    more, t := Drains(s);
    GoesOn(Init(producers, preamble), es, s, more, t);
  }

  /** The writer stops of itself only when the connection failed; it is told to only by Close. */
  lemma {:induction false} EndsByClose(producers: nat, preamble: string, es: seq<Event>)
    requires Legal(Init(producers, preamble), es)
    ensures var s := Run(Init(producers, preamble), es);
      && (s.ch.closed <==> Producing(MarkClosed) in es)
      && (s.quit ==> s.ch.closed) && (s.quit <==> CloseQuit in es)
      && (s.out.writer.Exited? <==> Quit in es) && (s.out.writer.Exited? ==> s.quit)
  {
    if es != [] {
      EndsByClose(producers, preamble, es[..|es| - 1]);
      assert es == es[..|es| - 1] + [es[|es| - 1]];
    }
  }
}
