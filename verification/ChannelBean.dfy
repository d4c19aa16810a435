/** A connection and the bean that feeds it, as the objects whose fields the source updates.
    Each method runs without interference; SubscriberQueue has the interleavings, and the
    lemmas at the end tie the two together. */
module ChannelBean {
  import opened SubscriberQueue

  /** What the peer does at one call of Write; n is cut to the bytes offered. */
  datatype Reply = Reply(n: nat, err: WriteError)

  function Taken(reply: Reply, offered: nat): nat {
    if reply.n <= offered then reply.n else offered
  }

  /** The outcome of the inner loop of the writer for one packet. */
  datatype Transmission = Transmission(written: nat, calls: nat, complete: bool)

  function Transmit(peer: nat -> Reply, calls: nat, length: nat, written: nat, attempt: nat): (t: Transmission)
    requires written < length && attempt <= MAX_RETRIES
    ensures written <= t.written <= length && (t.complete ==> t.written == length)
    decreases length - written, MAX_RETRIES - attempt
  {
    var n := Taken(peer(calls), length - written);
    match Judge(length, written, attempt, n, peer(calls).err)
    case Again(written', attempt') => Transmit(peer, calls + 1, length, written', attempt')
    case Complete => Transmission(length, calls + 1, true)
    case Broken(written') => Transmission(written', calls + 1, false)
  }

  lemma Extend(s: string, i: nat, n: nat)
    requires i + n <= |s|
    ensures s[..i] + s[i..][..n] == s[..i + n]
  {
  }

  class Connection {
    const peer: nat -> Reply
    var calls: nat
    var wire: string
    var open: bool

    constructor (peer: nat -> Reply)
      ensures this.peer == peer && calls == 0 && wire == "" && open
    {
      this.peer := peer;
      calls, wire, open := 0, "", true;
    }

    method Write(data: string) returns (n: nat, err: WriteError)
      modifies `calls, `wire
      ensures n == Taken(peer(old(calls)), |data|) && err == peer(old(calls)).err
      ensures calls == old(calls) + 1 && wire == old(wire) + data[..n]
    {
      var reply := peer(calls);
      n, err := Taken(reply, |data|), reply.err;
      calls, wire := calls + 1, wire + data[..n];
    }

    /** Writes a response: success means every byte went out, and whatever happens exactly
        the counted bytes did. */
    method WriteAll(data: string) returns (written: nat, ok: bool)
      modifies `calls, `wire
      ensures written <= |data| && wire == old(wire) + data[..written]
      ensures ok <==> forall i :: old(calls) <= i < calls ==> peer(i).err == NoError && peer(i).n > 0
      ensures ok ==> written == |data|
    {
      written := 0;
      while written < |data|
        invariant written <= |data| && old(calls) <= calls
        invariant wire == old(wire) + data[..written]
        invariant forall i :: old(calls) <= i < calls ==> peer(i).err == NoError && peer(i).n > 0
        decreases |data| - written
      {
        ghost var before := written;
        var n, err := Write(data[written..]);
        written := written + n;
        Extend(data, before, n);
        if err != NoError || n == 0 {
          assert peer(calls - 1).err != NoError || peer(calls - 1).n == 0;
          return written, false;
        }
      }
      return written, true;
    }

    /** The inner loop of the writer: short writes go on, up to three timeouts in a row are
        retried, anything else ends it. */
    method WriteRetrying(msg: string) returns (written: nat, complete: bool)
      requires msg != ""
      modifies `calls, `wire
      ensures Transmission(written, calls, complete) == Transmit(peer, old(calls), |msg|, 0, 0)
      ensures written <= |msg| && wire == old(wire) + msg[..written]
    {
      ghost var outcome := Transmit(peer, calls, |msg|, 0, 0);
      var attempt := 0;
      written := 0;
      while written < |msg|
        invariant 0 <= written <= |msg| && 0 <= attempt <= MAX_RETRIES
        invariant wire == old(wire) + msg[..written]
        invariant outcome == if written < |msg| then Transmit(peer, calls, |msg|, written, attempt)
                             else Transmission(|msg|, calls, true)
        decreases |msg| - written, MAX_RETRIES - attempt
      {
        ghost var before := written;
        var n, err := Write(msg[written..]);
        written := written + n;
        Extend(msg, before, n);
        if err == NoError {
          if n == 0 {
            return written, false;
          }
          attempt := 0;
        } else if err == TimedOut && attempt < MAX_RETRIES {
          attempt := attempt + 1;
        } else {
          return written, false;
        }
      }
      return written, true;
    }
  }

  /** A queue after a lossy send that nothing interrupts. */
  datatype Box = Box(queue: seq<string>, dropped: nat, closed: bool)

  function LossySend(b: Box, data: string): Box {
    if data == "" || b.closed then b
    else if |b.queue| < QUEUE_SIZE then b.(queue := b.queue + [data])
    else Box(b.queue[1..] + [data], b.dropped + 1, b.closed)
  }

  /** What a channel of this capacity can hold. */
  type Queue = q: seq<string> | |q| <= QUEUE_SIZE witness []

  class Bean {
    const mount: string
    const conn: Connection?
    var queue: Queue
    var closed: bool
    var quit: bool
    var bytesSent: nat
    var packets: nat
    var dropped: nat

    constructor (mount: string, conn: Connection?)
      ensures this.mount == mount && this.conn == conn
      ensures View() == Box([], 0, false) && !quit && bytesSent == packets == 0
    {
      this.mount, this.conn := mount, conn;
      queue, closed, quit := [], false, false;
      bytesSent, packets, dropped := 0, 0, 0;
    }

    function View(): Box
      reads this
    {
      Box(queue, dropped, closed)
    }

    /** With nobody else at the queue the drain finds a packet and the last select finds room;
        SubscriberQueue has the other outcomes. */
    method SendLossOwned(data: string)
      modifies `queue, `dropped
      ensures View() == LossySend(old(View()), data)
    {
      if data == "" || closed {
        return;
      }
      if |queue| < QUEUE_SIZE {
        queue := queue + [data];
      } else {
        queue := queue[1..];
        dropped := dropped + 1;
        queue := queue + [data];
      }
    }

    /** Close is idempotent: once guards the body, and the body sets closed. */
    method Close()
      modifies `closed, `quit, (if conn == null then {} else {conn})`open
      ensures closed
      ensures old(closed) ==> quit == old(quit) && (conn != null ==> conn.open == old(conn.open))
      ensures !old(closed) ==> quit && (conn != null ==> !conn.open)
    {
      if closed {
        return;
      }
      closed := true;
      quit := true;
      if conn != null {
        conn.open := false;
      }
    }

    /** One turn of the writer with a packet at hand; goOn says whether the writer lives. */
    method WriteHead() returns (goOn: bool)
      requires queue != [] && conn != null
      modifies `queue, `bytesSent, `packets, conn`calls, conn`wire
      ensures queue == old(queue)[1..]
      ensures old(queue)[0] == "" ==>
                goOn && conn.wire == old(conn.wire) && bytesSent == old(bytesSent) && packets == old(packets)
      ensures old(queue)[0] != "" ==>
                var msg := old(queue)[0];
                var t := Transmit(conn.peer, old(conn.calls), |msg|, 0, 0);
                && goOn == t.complete && conn.calls == t.calls && conn.wire == old(conn.wire) + msg[..t.written]
                && bytesSent == old(bytesSent) + (if goOn then |msg| else 0)
                && packets == old(packets) + (if goOn then 1 else 0)
    {
      var msg := queue[0];
      queue := queue[1..];
      if |msg| == 0 {
        return true;
      }
      var written;
      written, goOn := conn.WriteRetrying(msg);
      if goOn {
        bytesSent, packets := bytesSent + |msg|, packets + 1;
      }
    }
  }

  // ---------- the methods refine the interleaved steps ----------

  function Payloads(ps: seq<Packet>): seq<string> {
    seq(|ps|, i requires 0 <= i < |ps| => ps[i].bytes)
  }

  function BoxOf(c: Channel): Box {
    Box(Payloads(c.queue), c.dropped, c.closed)
  }

  /** The selects an uninterrupted lossy send goes through. */
  function LossySelects(c: Channel, w: nat, data: string, origin: nat): seq<ChannelEvent> {
    if data == "" || c.closed then []
    else if |c.queue| < QUEUE_SIZE then [AcceptLoss(w, data, origin), Push(w)]
    else [AcceptLoss(w, data, origin), Full(w), DrainOne(w), Push(w)]
  }

  /** Run alone, the three selects of sendLossOwned amount to LossySend. */
  lemma {:induction false} LossySendRefines(c: Channel, w: nat, data: string, origin: nat) returns (d: Channel)
    requires w < |c.producers| && c.producers[w].Idle? && |c.queue| <= QUEUE_SIZE
    ensures ProducesTo(c, LossySelects(c, w, data, origin), d)
    ensures BoxOf(d) == LossySend(BoxOf(c), data) && d.producers == c.producers
  {
    if data == "" || c.closed {
      d := c;
    } else if |c.queue| < QUEUE_SIZE {
      var c1 := Produce(c, AcceptLoss(w, data, origin));
      d := Produce(c1, Push(w));
      assert ProducesTo(c1, [Push(w)], d);
      assert LossySelects(c, w, data, origin)[1..] == [Push(w)];
      assert Payloads(d.queue) == Payloads(c.queue) + [data];
      assert d.producers == c.producers;
    } else {
      var c1 := Produce(c, AcceptLoss(w, data, origin));
      var c2 := Produce(c1, Full(w));
      var c3 := Produce(c2, DrainOne(w));
      d := Produce(c3, Push(w));
      assert ProducesTo(c3, [Push(w)], d);
      assert [DrainOne(w), Push(w)][1..] == [Push(w)];
      assert ProducesTo(c2, [DrainOne(w), Push(w)], d);
      assert [Full(w), DrainOne(w), Push(w)][1..] == [DrainOne(w), Push(w)];
      assert ProducesTo(c1, [Full(w), DrainOne(w), Push(w)], d);
      assert LossySelects(c, w, data, origin)[1..] == [Full(w), DrainOne(w), Push(w)];
      assert Payloads(d.queue) == Payloads(c.queue)[1..] + [data];
      assert d.producers == c.producers;
    }
  }

  ghost predicate WritesTo(o: Outlet, ws: seq<Reply>, o': Outlet)
    decreases |ws|
  {
    if ws == [] then o == o'
    else CanWrite(o, ws[0].n) && WritesTo(WriteOnce(o, ws[0].n, ws[0].err), ws[1..], o')
  }

  /** What Transmit's outcome t makes of an outlet that writes. */
  ghost predicate Transmitted(o: Outlet, t: Transmission, o': Outlet)
    requires o.writer.Writing? && o.writer.written <= t.written <= |o.writer.msg.bytes|
  {
    var Writing(msg, written, _) := o.writer;
    && o'.wire == o.wire + msg.bytes[written..t.written]
    && if t.complete then o'.writer == Ready && o'.sent == o.sent + [msg] && o'.packets == o.packets + 1
       else o'.writer == Failed(msg, t.written) && o'.sent == o.sent && o'.packets == o.packets
  }

  lemma SliceTwice(s: string, i: nat, j: nat, k: nat)
    requires i <= j <= k <= |s|
    ensures s[i..j] + s[j..k] == s[i..k]
  {
  }

  /** One call of Write and then the rest of the loop. */
  lemma TransmittedStep(o: Outlet, o1: Outlet, t: Transmission, o': Outlet)
    requires o.writer.Writing? && o1.writer.Writing? && o1.writer.msg == o.writer.msg
    requires o.writer.written <= o1.writer.written <= t.written <= |o.writer.msg.bytes|
    requires o1.wire == o.wire + o.writer.msg.bytes[o.writer.written..o1.writer.written]
    requires o1.sent == o.sent && o1.packets == o.packets && Transmitted(o1, t, o')
    ensures Transmitted(o, t, o')
  {
    SliceTwice(o.writer.msg.bytes, o.writer.written, o1.writer.written, t.written);
  }

  /** The writer loop is a run of Write steps that ends with the packet completed or failed
      just as Transmit says, with exactly its written bytes added to the wire. */
  lemma {:induction false} TransmitRefines(o: Outlet, peer: nat -> Reply, calls: nat) returns (ws: seq<Reply>, o': Outlet)
    requires o.writer.Writing? && o.writer.written < |o.writer.msg.bytes| && o.writer.attempt <= MAX_RETRIES
    ensures WritesTo(o, ws, o')
    ensures var t := Transmit(peer, calls, |o.writer.msg.bytes|, o.writer.written, o.writer.attempt);
      |ws| == t.calls - calls && Transmitted(o, t, o')
    decreases |o.writer.msg.bytes| - o.writer.written, MAX_RETRIES - o.writer.attempt
  {
    var Writing(msg, written, attempt) := o.writer;
    var reply := Reply(Taken(peer(calls), |msg.bytes| - written), peer(calls).err);
    var o1 := WriteOnce(o, reply.n, reply.err);
    if o1.writer.Writing? {
      var rest;
      rest, o' := TransmitRefines(o1, peer, calls + 1);
      ws := [reply] + rest;
      assert ws[1..] == rest;
      TransmittedStep(o, o1, Transmit(peer, calls, |msg.bytes|, written, attempt), o');
    } else {
      ws, o' := [reply], o1;
      assert WritesTo(o1, ws[1..], o1);
    }
  }
}
