/** How a caster cuts the bytes of a connection into the request header and the payload,
    read by read. */
module RequestFraming {
  import opened Text
  import opened Request

  const MAX_HEADER: nat := 8192
  const READ_SIZE: nat := 4096
  const BLANK: string := "\r\n\r\n"

  function HeaderEnd(data: string): (r: int)
    ensures r <= |data|
  {
    if Index(data, BLANK) >= 0 then Index(data, BLANK) + 4
    else if Index(data, "\n\n") >= 0 then Index(data, "\n\n") + 2
    else -1
  }

  /** The handler's buffer: still collecting the header, past it, or given up with 431. */
  datatype Framer =
    | Collecting(buf: string)
    | Streaming(header: string, payloads: seq<string>)
    | TooLarge(buf: string)

  function Found(all: string, end: nat): Framer
    requires end <= |all|
  {
    Streaming(all[..end], if end < |all| then [all[end..]] else [])
  }

  function Feed(f: Framer, data: string): Framer {
    match f
    case Collecting(buf) =>
      var all := buf + data;
      var end := HeaderEnd(all);
      if end >= 0 then Found(all, end)
      else if |all| > MAX_HEADER then TooLarge(all)
      else Collecting(all)
    case Streaming(header, payloads) => Streaming(header, if data == "" then payloads else payloads + [data])
    case TooLarge(_) => f
  }

  function FeedAll(chunks: seq<string>): Framer {
    if chunks == [] then Collecting("") else Feed(FeedAll(chunks[..|chunks| - 1]), chunks[|chunks| - 1])
  }

  function Join(parts: seq<string>): string {
    if parts == [] then "" else Join(parts[..|parts| - 1]) + parts[|parts| - 1]
  }

  /** The loop of handleConn over the chunks of a connection. */
  method Frame(chunks: seq<string>) returns (f: Framer)
    ensures f == FeedAll(chunks)
  {
    var authBuf, header, payloads := "", "", [];
    var haveHeader := false;
    for i := 0 to |chunks|
      invariant !haveHeader ==> payloads == []
      invariant FeedAll(chunks[..i]) == if haveHeader then Streaming(header, payloads) else Collecting(authBuf)
    {
      assert chunks[..i + 1][..i] == chunks[..i];
      var data := chunks[i];
      if !haveHeader {
        authBuf := authBuf + data;
        var end := HeaderEnd(authBuf);
        if end < 0 {
          if |authBuf| > MAX_HEADER {
            StaysTooLarge(chunks, i + 1);
            return TooLarge(authBuf);
          }
        } else {
          haveHeader, header := true, authBuf[..end];
          if end < |authBuf| {
            payloads := payloads + [authBuf[end..]];
          }
          authBuf := "";
        }
      } else if data != "" {
        payloads := payloads + [data];
      }
    }
    assert chunks[..|chunks|] == chunks;
    return if haveHeader then Streaming(header, payloads) else Collecting(authBuf);
  }

  lemma {:induction false} StaysTooLarge(chunks: seq<string>, i: nat)
    requires i <= |chunks| && FeedAll(chunks[..i]).TooLarge?
    ensures FeedAll(chunks) == FeedAll(chunks[..i])
  {
    if i == |chunks| {
      assert chunks[..i] == chunks;
    } else {
      assert chunks[..|chunks| - 1][..i] == chunks[..i];
      StaysTooLarge(chunks[..|chunks| - 1], i);
    }
  }

  // ---------- no byte lost ----------

  lemma JoinAppend(parts: seq<string>, part: string)
    ensures Join(parts + [part]) == Join(parts) + part
  {
    assert (parts + [part])[..|parts|] == parts;
  }

  ghost predicate Lossless(f: Framer, bytes: string) {
    match f
    case Collecting(buf) => buf == bytes && |buf| <= MAX_HEADER && HeaderEnd(buf) < 0
    case Streaming(header, payloads) => header + Join(payloads) == bytes && HeaderEnd(header) == |header|
    case TooLarge(buf) => buf <= bytes && MAX_HEADER < |buf|
  }

  lemma AtPrefix(data: string, pat: string, end: nat, i: nat)
    requires end <= |data|
    ensures At(data[..end], i, pat) <==> i + |pat| <= end && At(data, i, pat)
  {
    if i + |pat| <= end {
      assert data[..end][i..i + |pat|] == data[i..i + |pat|];
    }
  }

  lemma IndexOfPrefix(data: string, pat: string, end: nat)
    requires end <= |data|
    ensures Index(data[..end], pat) == if Contains(data, pat) && Index(data, pat) + |pat| <= end then Index(data, pat) else -1
  {
    forall i: nat {
      AtPrefix(data, pat, end, i);
    }
    var i := Index(data, pat);
    if Contains(data, pat) && i + |pat| <= end {
      IndexIs(data[..end], pat, i);
    }
  }

  /** Cutting at the header end gives something that ends where its header ends. */
  lemma HeaderIsComplete(data: string)
    requires HeaderEnd(data) >= 0
    ensures HeaderEnd(data[..HeaderEnd(data)]) == HeaderEnd(data)
  {
    var end := HeaderEnd(data);
    if Index(data, BLANK) >= 0 {
      IndexOfPrefix(data, BLANK, end);
    } else {
      IndexOfPrefix(data, BLANK, end);
      IndexOfPrefix(data, "\n\n", end);
    }
  }

  lemma CollectLossless(buf: string, data: string)
    requires Lossless(Collecting(buf), buf)
    ensures Lossless(Feed(Collecting(buf), data), buf + data)
  {
    var all := buf + data;
    var end := HeaderEnd(all);
    if end >= 0 {
      HeaderIsComplete(all);
      FoundAll(all, end);
    }
  }

  lemma JoinOne(part: string)
    ensures Join([part]) == part && Join([]) == ""
  {
    JoinAppend([], part);
    assert [] + [part] == [part];
  }

  lemma FeedLossless(f: Framer, bytes: string, data: string)
    requires Lossless(f, bytes)
    ensures Lossless(Feed(f, data), bytes + data)
  {
    match f
    case Collecting(buf) => CollectLossless(buf, data);
    case Streaming(header, payloads) =>
      JoinAppend(payloads, data);
      assert header + (Join(payloads) + data) == header + Join(payloads) + data;
    case TooLarge(buf) =>
  }

  /** Reads that fit the buffer the handler reads into. */
  ghost predicate Bounded(chunks: seq<string>) {
    forall i :: 0 <= i < |chunks| ==> |chunks[i]| <= READ_SIZE
  }

  /** Whatever the chunks, the header and the delivered payloads together are all the bytes
      read, the header ends where its own header end is, and the buffer never exceeds the
      header limit by more than one read. */
  lemma {:induction false} NothingLost(chunks: seq<string>)
    ensures Lossless(FeedAll(chunks), Join(chunks))
    ensures Bounded(chunks) && FeedAll(chunks).TooLarge? ==> |FeedAll(chunks).buf| <= MAX_HEADER + READ_SIZE
  {
    if chunks != [] {
      NothingLost(chunks[..|chunks| - 1]);
      FeedLossless(FeedAll(chunks[..|chunks| - 1]), Join(chunks[..|chunks| - 1]), chunks[|chunks| - 1]);
    }
  }

  /** A complete header has an LF. */
  lemma HasLf(header: string)
    requires HeaderEnd(header) >= 0
    ensures Cut(header, '\n').2
  {
    if Index(header, BLANK) >= 0 {
      CharAt(header, Index(header, BLANK), BLANK, 1);
      HasChar(header, Index(header, BLANK) + 1, '\n');
    } else {
      CharAt(header, Index(header, "\n\n"), "\n\n", 0);
      HasChar(header, Index(header, "\n\n"), '\n');
    }
  }

  // ---------- independence of the division into chunks ----------

  /** A header that ends at its first blank line, ... */
  predicate EndsAtBlank(h: string) {
    4 <= |h| && Index(h, BLANK) == |h| - 4
  }

  /** ... and is within the limit. */
  predicate ProperHeader(h: string) {
    |h| <= MAX_HEADER && EndsAtBlank(h)
  }

  lemma EndOfExtension(h: string, bytes: string)
    requires EndsAtBlank(h) && h <= bytes
    ensures HeaderEnd(bytes) == |h|
  {
    assert h == bytes[..|h|];
    IndexOfPrefix(bytes, BLANK, |h|);
    AtPrefix(bytes, BLANK, |h|, |h| - 4);
  }

  lemma NoEndBefore(h: string, bytes: string)
    requires EndsAtBlank(h) && !Contains(h, "\n\n") && bytes < h
    ensures HeaderEnd(bytes) < 0
  {
    assert bytes == h[..|bytes|];
    IndexOfPrefix(h, "\n\n", |bytes|);
    IndexOfPrefix(h, BLANK, |bytes|);
  }

  /** One more read while the header is not complete. */
  lemma CollectMore(h: string, payload: string, buf: string, data: string)
    requires EndsAtBlank(h) && !Contains(h, "\n\n") && buf + data <= h + payload && |buf| < |h|
    ensures var f := Feed(Collecting(buf), data);
      if |buf + data| < |h| then f == if |buf + data| > MAX_HEADER then TooLarge(buf + data) else Collecting(buf + data)
      else f.Streaming? && f.header == h && h + Join(f.payloads) == buf + data
  {
    var all := buf + data;
    EitherPrefix(h, payload, all);
    if |all| < |h| {
      NoEndBefore(h, all);
    } else {
      EndOfExtension(h, all);
      FoundAll(all, |h|);
    }
  }

  lemma EitherPrefix(h: string, payload: string, bytes: string)
    requires bytes <= h + payload
    ensures if |bytes| < |h| then bytes < h else h <= bytes && bytes[..|h|] == h
  {
  }

  lemma FoundAll(all: string, end: nat)
    requires end <= |all|
    ensures all[..end] + Join(Found(all, end).payloads) == all
  {
    JoinOne(all[end..]);
  }

  /** Some read ended when more than lo and fewer than hi bytes had been read. */
  predicate PausedIn(chunks: seq<string>, lo: nat, hi: nat) {
    lo < |Join(chunks)| < hi || (chunks != [] && PausedIn(chunks[..|chunks| - 1], lo, hi))
  }

  /** The reader has this header and what followed it, once the header is complete. */
  ghost predicate FramedAs(f: Framer, h: string, got: string) {
    if |got| < |h| then f == Collecting(got) else f.Streaming? && f.header == h && h + Join(f.payloads) == got
  }

  lemma StreamMore(f: Framer, h: string, got: string, data: string)
    requires FramedAs(f, h, got) && |h| <= |got|
    ensures FramedAs(Feed(f, data), h, got + data)
  {
    JoinAppend(f.payloads, data);
    assert h + (Join(f.payloads) + data) == h + Join(f.payloads) + data;
  }

  /** For a header of any length without LF LF that ends at its first blank line, every
      division of header and payload into chunks gives exactly this header and this payload,
      unless a read ended past the limit and before the header was complete: then the request
      is given up as too large. */
  lemma {:induction false} AnyLength(chunks: seq<string>, h: string, payload: string)
    requires EndsAtBlank(h) && !Contains(h, "\n\n")
    requires Join(chunks) <= h + payload
    ensures if PausedIn(chunks, MAX_HEADER, |h|) then FeedAll(chunks).TooLarge?
            else FramedAs(FeedAll(chunks), h, Join(chunks))
  {
    if chunks != [] {
      var before, data := chunks[..|chunks| - 1], chunks[|chunks| - 1];
      assert Join(before) <= Join(chunks);
      AnyLength(before, h, payload);
      if !PausedIn(before, MAX_HEADER, |h|) {
        if |Join(before)| < |h| {
          CollectMore(h, payload, Join(before), data);
        } else {
          StreamMore(FeedAll(before), h, Join(before), data);
        }
      }
    }
  }

  lemma {:induction false} NeverPaused(chunks: seq<string>, lo: nat, hi: nat)
    requires hi <= lo + 1
    ensures !PausedIn(chunks, lo, hi)
  {
    if chunks != [] {
      NeverPaused(chunks[..|chunks| - 1], lo, hi);
    }
  }

  /** So within the limit the division does not matter. */
  lemma {:induction false} SplitDoesNotMatter(chunks: seq<string>, h: string, payload: string)
    requires ProperHeader(h) && !Contains(h, "\n\n")
    requires Join(chunks) <= h + payload
    ensures if |Join(chunks)| < |h| then FeedAll(chunks) == Collecting(Join(chunks))
            else FeedAll(chunks).Streaming? && FeedAll(chunks).header == h
                 && h + Join(FeedAll(chunks).payloads) == Join(chunks)
  {
    AnyLength(chunks, h, payload);
    NeverPaused(chunks, MAX_HEADER, |h|);
  }

  function Singles(s: string): seq<string> {
    seq(|s|, i requires 0 <= i < |s| => [s[i]])
  }

  lemma {:induction false} JoinSingles(s: string)
    ensures Join(Singles(s)) == s
  {
    if s != "" {
      assert Singles(s)[..|s| - 1] == Singles(s[..|s| - 1]);
      JoinSingles(s[..|s| - 1]);
    }
  }

  /** The header end of a start of a header with LF LF is that of the LF LF. */
  lemma LfLfStart(h: string, k: nat)
    requires EndsAtBlank(h) && Contains(h, "\n\n") && k <= Index(h, "\n\n") + 2
    ensures HeaderEnd(h[..k]) == if k < Index(h, "\n\n") + 2 then -1 else k
  {
    LfLfComesFirst(h);
    IndexOfPrefix(h, BLANK, k);
    IndexOfPrefix(h, "\n\n", k);
    assert !Contains(h[..k], BLANK);
  }

  lemma OneMoreByte(h: string, k: nat)
    requires 0 < k <= |h|
    ensures FeedAll(Singles(h[..k])) == Feed(FeedAll(Singles(h[..k - 1])), [h[k - 1]])
    ensures h[..k - 1] + [h[k - 1]] == h[..k]
  {
    var chunks := Singles(h[..k]);
    assert chunks[..k - 1] == Singles(h[..k - 1]) && chunks[k - 1] == [h[k - 1]];
  }

  lemma CollectByte(h: string, k: nat)
    requires 0 < k <= |h| && h[..k - 1] + [h[k - 1]] == h[..k]
    requires HeaderEnd(h[..k]) == -1 || HeaderEnd(h[..k]) == k
    ensures Feed(Collecting(h[..k - 1]), [h[k - 1]]) ==
            if HeaderEnd(h[..k]) == k then Streaming(h[..k], [])
            else if k > MAX_HEADER then TooLarge(h[..k]) else Collecting(h[..k])
  {
  }

  /** With LF LF in the header, reading it byte by byte stops at the LF LF instead, or at the
      limit. */
  lemma {:induction false} ByteByByteStopsAtLfLf(h: string, k: nat)
    requires EndsAtBlank(h) && Contains(h, "\n\n") && k <= Index(h, "\n\n") + 2 && k <= MAX_HEADER + 1
    ensures FeedAll(Singles(h[..k])) ==
            if k == Index(h, "\n\n") + 2 then Streaming(h[..k], [])
            else if k > MAX_HEADER then TooLarge(h[..k]) else Collecting(h[..k])
  {
    LfLfComesFirst(h);
    if k > 0 {
      ByteByByteStopsAtLfLf(h, k - 1);
      OneMoreByte(h, k);
      LfLfStart(h, k);
      CollectByte(h, k);
    }
  }

  lemma LfLfComesFirst(h: string)
    requires EndsAtBlank(h) && Contains(h, "\n\n")
    ensures Index(h, "\n\n") + 2 < |h|
  {
    var i := Index(h, "\n\n");
    CharAt(h, i, "\n\n", 0);
    CharAt(h, i, "\n\n", 1);
    CharAt(h, |h| - 4, BLANK, 2);
  }

  /** A reader that has its header keeps it, and one that gave up stays that way. */
  lemma {:induction false} Settled(chunks: seq<string>, more: seq<string>)
    ensures FeedAll(chunks).Streaming? ==>
              FeedAll(chunks + more).Streaming? && FeedAll(chunks + more).header == FeedAll(chunks).header
    ensures FeedAll(chunks).TooLarge? ==> FeedAll(chunks + more).TooLarge?
  {
    if more == [] {
      assert chunks + more == chunks;
    } else {
      assert (chunks + more)[..|chunks + more| - 1] == chunks + more[..|more| - 1];
      Settled(chunks, more[..|more| - 1]);
    }
  }

  lemma SinglesOf(h: string, n: nat)
    requires n <= |h|
    ensures Singles(h) == Singles(h[..n]) + Singles(h[n..]) && Bounded(Singles(h))
  {
  }

  /** With LF LF, reading byte by byte does not give the header. */
  lemma SinglesStray(h: string)
    requires EndsAtBlank(h) && Contains(h, "\n\n")
    ensures FeedAll(Singles(h)) != Streaming(h, [])
  {
    LfLfComesFirst(h);
    var end := Index(h, "\n\n") + 2;
    var n := if end <= MAX_HEADER + 1 then end else MAX_HEADER + 1;
    ByteByByteStopsAtLfLf(h, n);
    SinglesOf(h, n);
    Settled(Singles(h[..n]), Singles(h[n..]));
    assert |h[..n]| < |h|;
  }

  lemma {:induction false} SinglesPaused(s: string, n: nat, lo: nat, hi: nat)
    requires n <= |s| && lo < n < hi
    ensures PausedIn(Singles(s), lo, hi)
  {
    JoinSingles(s);
    if n < |s| {
      assert Singles(s)[..|s| - 1] == Singles(s[..|s| - 1]);
      SinglesPaused(s[..|s| - 1], n, lo, hi);
    }
  }

  lemma {:induction false} ShortNotPaused(chunks: seq<string>, lo: nat, hi: nat)
    requires |Join(chunks)| <= lo
    ensures !PausedIn(chunks, lo, hi)
  {
    if chunks != [] {
      ShortNotPaused(chunks[..|chunks| - 1], lo, hi);
    }
  }

  lemma AgreesWithin(h: string, chunks: seq<string>)
    requires EndsAtBlank(h) && !Contains(h, "\n\n") && Join(chunks) == h && !PausedIn(chunks, MAX_HEADER, |h|)
    ensures FeedAll(chunks) == Streaming(h, [])
  {
    AnyLength(chunks, h, "");
    NoEmptyPayload(chunks);
    JoinNonEmpty(FeedAll(chunks).payloads);
  }

  /** The split point of a header is the same for every division into reads exactly when the
      header contains no LF LF and is at most one byte longer than the limit. */
  lemma SplitIndependentExactly(h: string)
    requires EndsAtBlank(h)
    ensures (forall chunks | Bounded(chunks) && Join(chunks) == h :: FeedAll(chunks) == Streaming(h, []))
       <==> !Contains(h, "\n\n") && |h| <= 8193
  {
    JoinSingles(h);
    SinglesOf(h, 0);
    if Contains(h, "\n\n") {
      SinglesStray(h);
    } else if |h| > MAX_HEADER + 1 {
      SinglesPaused(h, MAX_HEADER + 1, MAX_HEADER, |h|);
      AnyLength(Singles(h), h, "");
    } else {
      forall chunks | Join(chunks) == h ensures FeedAll(chunks) == Streaming(h, []) {
        NeverPaused(chunks, MAX_HEADER, |h|);
        AgreesWithin(h, chunks);
      }
    }
  }

  /** Reads of bounded size cannot skip the stretch behind the limit. */
  lemma {:induction false} MustPause(chunks: seq<string>, hi: nat)
    requires Bounded(chunks) && |Join(chunks)| > MAX_HEADER && hi > MAX_HEADER + READ_SIZE
    ensures PausedIn(chunks, MAX_HEADER, hi)
  {
    var before := chunks[..|chunks| - 1];
    if |Join(before)| > MAX_HEADER {
      MustPause(before, hi);
    }
  }

  /** n single bytes and the rest in one read. */
  lemma RestInOneRead(h: string, n: nat) returns (chunks: seq<string>)
    requires n <= |h| <= n + READ_SIZE && n <= MAX_HEADER
    ensures Bounded(chunks) && Join(chunks) == h && !PausedIn(chunks, MAX_HEADER, |h|)
  {
    var before := Singles(h[..n]);
    chunks := before + [h[n..]];
    JoinSingles(h[..n]);
    JoinAppend(before, h[n..]);
    assert chunks[..|chunks| - 1] == before;
    ShortNotPaused(before, MAX_HEADER, |h|);
  }

  lemma LastReadTakesTheRest(h: string) returns (chunks: seq<string>)
    requires EndsAtBlank(h) && !Contains(h, "\n\n") && |h| <= MAX_HEADER + READ_SIZE
    ensures Bounded(chunks) && Join(chunks) == h && FeedAll(chunks) == Streaming(h, [])
  {
    chunks := RestInOneRead(h, if |h| <= READ_SIZE then 0 else |h| - READ_SIZE);
    AgreesWithin(h, chunks);
  }

  /** A header without LF LF is too large for every division into reads exactly when it is more
      than one read longer than the limit; between these lengths the reads decide. */
  lemma TooLargeExactly(h: string)
    requires EndsAtBlank(h) && !Contains(h, "\n\n")
    ensures (forall chunks | Bounded(chunks) && Join(chunks) == h :: FeedAll(chunks).TooLarge?)
       <==> |h| > 8192 + 4096
  {
    if |h| > MAX_HEADER + READ_SIZE {
      forall chunks | Bounded(chunks) && Join(chunks) == h ensures FeedAll(chunks).TooLarge? {
        MustPause(chunks, |h|);
        AnyLength(chunks, h, "");
      }
    } else {
      var chunks := LastReadTakesTheRest(h);
      assert !FeedAll(chunks).TooLarge?;
    }
  }

  /** Between these lengths one division gives the header and another one gives up. */
  lemma ReadsDecide(h: string) returns (whole: seq<string>, singles: seq<string>)
    requires EndsAtBlank(h) && !Contains(h, "\n\n") && MAX_HEADER + 1 < |h| <= MAX_HEADER + READ_SIZE
    ensures Bounded(whole) && Join(whole) == h && FeedAll(whole) == Streaming(h, [])
    ensures Bounded(singles) && Join(singles) == h && FeedAll(singles).TooLarge?
  {
    whole := LastReadTakesTheRest(h);
    singles := Singles(h);
    JoinSingles(h);
    SinglesOf(h, 0);
    SinglesPaused(h, MAX_HEADER + 1, MAX_HEADER, |h|);
    AnyLength(singles, h, "");
  }

  lemma {:induction false} NoEmptyPayload(chunks: seq<string>)
    ensures FeedAll(chunks).Streaming? ==>
              forall i :: 0 <= i < |FeedAll(chunks).payloads| ==> FeedAll(chunks).payloads[i] != ""
  {
    if chunks != [] {
      NoEmptyPayload(chunks[..|chunks| - 1]);
    }
  }

  lemma JoinNonEmpty(parts: seq<string>)
    requires forall i :: 0 <= i < |parts| ==> parts[i] != ""
    ensures Join(parts) == "" ==> parts == []
  {
  }

  // ---------- the messages of the clients ----------

  lemma BlankChars(s: string, j: nat)
    ensures At(s, j, BLANK) ==> j + 2 < |s| && s[j] == '\r' && s[j + 2] == '\r'
    ensures At(s, j, "\n\n") ==> j + 1 < |s| && s[j] == '\n' && s[j + 1] == '\n'
  {
    if At(s, j, BLANK) {
      CharAt(s, j, BLANK, 0);
      CharAt(s, j, BLANK, 2);
    }
    if At(s, j, "\n\n") {
      CharAt(s, j, "\n\n", 0);
      CharAt(s, j, "\n\n", 1);
    }
  }

  lemma {:induction false} JoinedHasNoBlank(lines: seq<string>, rest: string)
    requires AllOneLine(lines)
    ensures forall j: nat :: j + 2 < |JoinLines(lines)| ==> !At(JoinLines(lines) + rest, j, BLANK)
    ensures forall j: nat :: j + 1 < |JoinLines(lines)| ==> !At(JoinLines(lines) + rest, j, "\n\n")
    ensures lines != [] ==> JoinLines(lines)[0] == lines[0][0]
  {
    if lines != [] {
      var line, tail := lines[0], JoinLines(lines[1..]);
      var s := JoinLines(lines) + rest;
      JoinedHasNoBlank(lines[1..], rest);
      assert s[|line| + 2..] == tail + rest;
      forall j: nat
        ensures j + 2 < |JoinLines(lines)| ==> !At(s, j, BLANK)
        ensures j + 1 < |JoinLines(lines)| ==> !At(s, j, "\n\n")
      {
        BlankChars(s, j);
        if j >= |line| + 2 {
          AtRest(s, |line| + 2, j, BLANK);
          AtRest(s, |line| + 2, j, "\n\n");
        }
      }
    }
  }

  lemma {:induction false} JoinLinesAppend(lines: seq<string>, line: string)
    ensures JoinLines(lines + [line]) == JoinLines(lines) + line + "\r\n"
  {
    if lines != [] {
      assert (lines + [line])[1..] == lines[1..] + [line];
      JoinLinesAppend(lines[1..], line);
    } else {
      assert lines + [line] == [line] && [line][1..] == [];
    }
  }

  /** A built message ends at its first blank line and has no LF LF. */
  lemma MessageEnds(lines: seq<string>)
    requires lines != [] && AllOneLine(lines)
    ensures EndsAtBlank(Message(lines)) && !Contains(Message(lines), "\n\n")
  {
    JoinLinesAppend(lines, "");
    var body, msg := JoinLines(lines), Message(lines);
    assert msg == body + "\r\n";
    JoinedHasNoBlank(lines, "\r\n");
    EndsWithCrLf(lines);
    assert msg[|msg| - 4..|msg| - 4 + 4] == BLANK;
    IndexIs(msg, BLANK, |msg| - 4);
    forall i: nat ensures !At(msg, i, "\n\n") {
      NoLfLfAtEnd(body, i);
    }
  }

  /** So within the limit its framing does not depend on the chunks. */
  lemma MessageIsProper(lines: seq<string>)
    requires lines != [] && AllOneLine(lines) && |Message(lines)| <= MAX_HEADER
    ensures ProperHeader(Message(lines)) && !Contains(Message(lines), "\n\n")
  {
    MessageEnds(lines);
  }

  /** A message of one long line, which the reads decide. */
  lemma LongMessage() returns (h: string, whole: seq<string>, singles: seq<string>)
    ensures Bounded(whole) && Join(whole) == h && FeedAll(whole) == Streaming(h, [])
    ensures Bounded(singles) && Join(singles) == h && FeedAll(singles).TooLarge?
  {
    var line := seq(9000, i => 'a');
    h := Message([line]);
    assert [line][1..] == [] && [line, ""][1..] == [""] && [""][1..] == [];
    assert [line] + [""] == [line, ""];
    assert JoinLines([""]) == "\r\n";
    assert JoinLines([line, ""]) == line + "\r\n" + "\r\n";
    MessageEnds([line]);
    whole, singles := ReadsDecide(h);
  }

  lemma NoLfLfAtEnd(body: string, i: nat)
    ensures At(body + "\r\n", i, "\n\n") ==> i + 1 < |body|
  {
    BlankChars(body + "\r\n", i);
  }

  lemma {:induction false} EndsWithCrLf(lines: seq<string>)
    requires lines != [] && AllOneLine(lines)
    ensures |JoinLines(lines)| >= 3 && JoinLines(lines)[|JoinLines(lines)| - 2..] == "\r\n"
  {
    if |lines| > 1 {
      EndsWithCrLf(lines[1..]);
    }
  }
}
