# A verified model of the embedded NTRIP caster

An NTRIP caster takes correction streams from *sources*, each under a *mount*, and hands the
bytes of a mount to every *subscriber* of it. This project models the Go packages `ntrip` and
`tcp` in Dafny and proves what holds over all their runs and all their inputs.

`dafny verify dfyconfig.toml` checks everything.

## The parts

| File | What it models |
|---|---|
| `SubscriberQueue.dfy` | a subscriber's 256-slot queue: each select of `Send` and `sendLossOwned` and each call of `Write` is one step, and any number of producers and the writer interleave |
| `ChannelBean.dfy` | the connection and the bean as classes, with the writer's loop; tied to the steps of `SubscriberQueue` |
| `Registry.dfy`, `Sorting.dfy` | `SafeNtripMap` as a class with its two indexes |
| `FanOut.dfy` | the caster as a whole: sources broadcast under the registry's read lock, subscribers register and leave under its write lock, queues and writers move in between |
| `Admission.dfy`, `Lifecycle.dfy` | the connection table and limits; accept loops, handlers, `Start` and `Stop` of both casters and of the TCP server, stale listeners and handlers included |
| `Subscribers.dfy` | that the registry of `FanOut`'s runs is the one of `Registry` |
| `Progress.dfy`, `Shutdown.dfy` | that a broadcast and the wait at the end of Stop can always be brought to their end |
| `ClientSlot.dfy` | the client's connection slot and the goroutines that race for it |
| `Text.dfy`, `Base64.dfy`, `Request.dfy` | byte strings, base64, the request parser and the message builders |
| `RequestFraming.dfy`, `Responses.dfy`, `ResponseFraming.dfy` | the read loops at both ends and what the casters answer |
| `Wording.dfy` | what readers of these messages find in them, header by header |
| `Handshake.dfy` | `auth` of both casters, and that both ends agree on it |
| `Delivery.dfy` | the sources' read loops, the caster's runs and the subscriber's read loop put together |
| `Gga.dfy` | the GGA sentence over the real numbers |

Runs are sequences of steps, each enabled when it happens; a state predicate is proved for
every step and so for every run. Fields called history record what happened and guide no step.

## Assumptions

- `conn.Write` returns a count between 0 and the length of what it was given. A connection is
  the list of what was written to it; its answers (short writes, timeouts, errors) are arbitrary.
- A connection's identity is never reused, and live handlers have different keys. The key is
  the remote address, and `Delete(key)` does not compare beans.
- User code does not edit the registry through `GetNtripMap` and does not write on a
  subscriber's connection.
- A subscriber caster has one source caster. (`SetNtripCasterClient` lets several share one; then
  two of them may have a source for the same mount, and `FanOut` covers that, but the claims of
  `Delivery` are those of one registry.)
- `OnAuth` is a function of its arguments during one request. Dates, and everything a timer
  decides, are arbitrary.
- The clock that stamps a GGA sentence shows hours below 24 and minutes and seconds below 60.
- A char stands for one byte. White space and letter case are those of ASCII.

## What does not hold

- The comment on `SendLoss` (ntrip/ntrip_map.go:121) promises that the newest data is kept.
  `NewestKeptExactly` proves this for every run of lossy sends exactly when the queue has at
  most one producer; `TwoProducersCanDropTheNewest` is the run for two or more, in which one
  producer takes the slot that the other had freed. In the caster it is enough that no two
  broadcasts on one mount overlap (`FanOut.InSourceOrder`). With one source caster they overlap
  only when a handler outlives CloseAll (`Delivery.ClaimsExclusive`,
  `Lifecycle.OverlapOnlyAfterCloseAll`), as one does when a caster is stopped and started again
  at once (`Lifecycle.OverlapAfterRestart`). Each source's own order holds in any case.
- The split point of a request depends on the reads exactly when the header contains LF LF or
  has more than 8193 bytes (`SplitIndependentExactly`, `LongMessage`): the reads decide whether
  LF LF or a later CR LF CR LF ends it, and whether it is found before the limit is checked.
  Above 8192 + 4096 bytes it is always answered with 431 (`TooLargeExactly`).
- The v1 success response is cut short, and the rest of it delivered as data, exactly when a
  read ends between the CR and the LF of its Server line (`IcyExactly`, `EarlyReadLeaks`).
- A subscriber that asks in version 2 for a mount of nothing but slashes is answered with the
  sourcetable and takes this for a stream (`SlashIsTakenForAStream`). `GetAgreement` shows that
  this, and an error phrase in what was buffered with a welcome, are the only ways for the two
  ends to disagree.
- A SOURCE request with an empty password, or one with white space, is read as another
  password and mount (`SourceHandshake` says which).
- A request built for a mount with a slash at an end, or a username with a colon, is parsed as
  something else: the round trips are equivalences with exactly these conditions.

## Model

| member | source | states |
|---|---|---|
| SubscriberQueue.Conservation | ntrip/ntrip_map.go:51-147 | in every run with any number of producers mixing Send and SendLoss, each packet that passed the closed check is in exactly one place (a producer's hand, the queue, discarded, in flight or lost to a fatal write, completed, or passed over because it is empty), others are nowhere, the two counters count the completed and the discarded ones, and the queue never exceeds 256 |
| SubscriberQueue.WireFraming | ntrip/ntrip_map.go:63-91 | in every run the connection carries the response, then whole packets, then the start of at most one more; the packets are a subsequence in order of what entered the queue, and bytesSent is the sum of the completed lengths |
| SubscriberQueue.RetryBudget | ntrip/ntrip_map.go:66-88 | in every run at most three timeouts are retried since the packet was taken or since its last error-free write, counted from the run alone, and a further one ends the writer exactly after three |
| SubscriberQueue.Freshness | ntrip/ntrip_map.go:128-147 | with one lossy producer, the writer interleaving anywhere: the newest accepted packet is never dropped, the last select always finds room, the queue is a contiguous run of the newest accepted packets, and the packet the writer takes is at most 256 behind the newest |
| SubscriberQueue.NewestKeptExactly | ntrip/ntrip_map.go:121-147 | the newest accepted packet is kept in every run of lossy sends, closes and writer steps exactly when the queue has at most one producer |
| SubscriberQueue.TwoProducersCanDropTheNewest | ntrip/ntrip_map.go:132-146 | for any number of producers from two on there is a run of lossy sends after which the newest accepted packet has been dropped and the queue is full of older ones |
| SubscriberQueue.RunInv | ntrip/ntrip_map.go:51-147 | what every step of producers and writer keeps |
| SubscriberQueue.DroppedExactly | ntrip/ntrip_map.go:96-147 | what each step gives up for good, read off the run: a Send only by its timer, and only after it had found the queue full; a lossy packet only by a full queue on its last select; the oldest packet only by a lossy send that had found it full |
| SubscriberQueue.SendFinishes | ntrip/ntrip_map.go:96-119 | a Send gets in when there is room, at once or while it waits, and is given up by its timer when there is none |
| SubscriberQueue.LossyFinishes | ntrip/ntrip_map.go:128-147 | a lossy send in any stage ends by at most three selects of its own, however full the queue is and whatever the writer and the other producers do |
| SubscriberQueue.WriterDrains | ntrip/ntrip_map.go:51-95 | from wherever a run has got to, a live writer whose peer takes what it is given can empty the queue by its own steps, and then every packet that was in its hand or in the queue is written, in order |
| SubscriberQueue.WriteEndsExactly | ntrip/ntrip_map.go:66-88 | a call of Write ends the writer exactly if it took nothing without an error, if its error was no timeout, or if three timeouts came in a row before it; otherwise the packet is complete exactly if all of it was taken |
| SubscriberQueue.EndsByClose | ntrip/ntrip_map.go:157-168 | in every run the writer is told to stop only after Close has marked the queue closed |
| SubscriberQueue.ClosedAcceptsNothing | ntrip/ntrip_map.go:96-131 | once closed, a queue accepts nothing more |
| SubscriberQueue.LossyBringsBytes | ntrip/ntrip_map.go:128-131 | lossy sends never bring an empty packet |
| ChannelBean.Connection.WriteAll | ntrip/ntrip.go:377-390 | a counted prefix goes out; success exactly when no call failed or took nothing, and then all of it went out |
| ChannelBean.Connection.WriteRetrying | ntrip/ntrip_map.go:66-88 | the inner loop ends, with exactly the written prefix on the connection and the outcome that the peer's answers determine |
| ChannelBean.Bean.SendLossOwned | ntrip/ntrip_map.go:128-147 | run alone: appended if there is room, otherwise the oldest packet makes room and is counted |
| ChannelBean.Bean.WriteHead | ntrip/ntrip_map.go:57-91 | one turn of the writer: the head leaves the queue, its written bytes go out, and the counters grow exactly if it was completed |
| ChannelBean.Bean.Close | ntrip/ntrip_map.go:157-168 | closes once; a second call changes nothing |
| ChannelBean.LossySendRefines | ntrip/ntrip_map.go:128-147 | the three selects, uninterrupted, are a legal sequence of steps that amounts to the method's effect |
| ChannelBean.TransmitRefines | ntrip/ntrip_map.go:66-91 | the writer's loop is a sequence of Write steps with the same bytes, counters and outcome |
| Registry.SafeNtripMap.Set | ntrip/ntrip_map.go:208-226 | stores, replaces or removes an entry, and the second index stays the grouping by mount |
| Registry.SafeNtripMap.SetIfMountAbsent | ntrip/ntrip_map.go:228-244 | succeeds exactly when no entry has the mount; otherwise nothing changes |
| Registry.SafeNtripMap.Delete | ntrip/ntrip_map.go:255-264 | removes the entry and returns it, and leaves no empty group |
| Registry.SafeNtripMap.Get | ntrip/ntrip_map.go:198-206 | the bean of a key, or none |
| Registry.SafeNtripMap.DeleteMountIndex | ntrip/ntrip_map.go:266-275 | takes one entry out of its group and the group away with its last entry |
| Registry.SafeNtripMap.HasMount | ntrip/ntrip_map.go:288-292 | true exactly when some entry has the mount |
| Registry.SafeNtripMap.GetByMount | ntrip/ntrip_map.go:277-286 | exactly the beans of the entries with this mount, one for each key |
| Registry.SafeNtripMap.GetMountList | ntrip/ntrip_map.go:326-335 | exactly the mounts in use, sorted, each once |
| Registry.SafeNtripMap.QueryMountList | ntrip/ntrip_map.go:337-348 | exactly the mounts in use that contain the text, sorted, each once |
| Registry.SafeNtripMap.BroadcastLossByMount | ntrip/ntrip_map.go:309-324 | every connected bean of the mount gets one lossy send per key, every other queue stays as it was, and the count is the number reached |
| Registry.SafeNtripMap.CloseAll | ntrip/ntrip_map.go:350-367 | the registry is empty, every bean that was in it is closed, and so is the connection of each that was not closed before |
| Registry.InsertAgrees | ntrip/ntrip_map.go:208-244 | adding to a group keeps the second index the grouping of the first |
| Registry.RemoveAgrees | ntrip/ntrip_map.go:255-275 | removing from a group does too, and an emptied group disappears |
| Registry.ReachedOnce | ntrip/ntrip_map.go:309-324 | when no bean is under two keys, a broadcast reaches each connected bean of the mount once and no other |
| Registry.OneSourcePerMount | ntrip/ntrip_map.go:228-264 | after any sequence of claims, deletes and CloseAll no mount has two entries |
| Registry.Perform | ntrip/ntrip_map.go:228-264 | the methods have just the effects of that sequence |
| Sorting.SortCorrect | ntrip/ntrip_map.go:326-335 | the list is ascending with the same elements |
| Sorting.AscendingIsByteOrder | ntrip/ntrip_map.go:326-335 | ascending is the byte-wise order: the first difference decides, and a start comes before the whole |
| FanOut.EndToEnd | ntrip/ntrip_caster_server.go:424-430 | in every run a subscriber's connection carries its response, then whole chunks, then the start of at most one more; each was broadcast on its own mount while it was registered, none twice, in the order queued |
| FanOut.BroadcastSeesOneRegistry | ntrip/ntrip_map.go:309-324 | while a chunk is being offered, the subscribers of its mount are those at its beginning |
| FanOut.BroadcastIsComplete | ntrip/ntrip_map.go:309-324 | in every run, once no source is busy with a broadcast any more, each subscriber that was registered on its mount when it began has accepted it or was closed, whatever interleaved |
| FanOut.RegisteredExactly | ntrip/ntrip_map.go:208-226 | in every run a subscriber is registered on its mount exactly when it registered and since then there was no CloseAll, no Delete of its key and no other subscriber registered under its key |
| FanOut.SubIsConnected | ntrip/ntrip_caster_client.go:395-399 | its key, mount and response are those it connected with |
| FanOut.BroadcastTargets | ntrip/ntrip_map.go:309-324 | so each broadcast of a run sets out to reach exactly the subscribers registered on its mount when it begins |
| Subscribers.PerformMove | ntrip/ntrip_map.go:208-264 | the registry moves of these runs are calls of Set, Delete and CloseAll, which keep the two registries the same |
| Subscribers.ReachedAreRegistered | ntrip/ntrip_map.go:309-324 | and whom BroadcastLossByMount reaches are the registered subscribers of the mount |
| Progress.BroadcastNeverWaits | ntrip/ntrip_map.go:309-324 | from wherever a run of the caster has got to, with queues full and writers dead, a source can finish its broadcast by its own moves alone, at most five for each subscriber it has not yet seen and five more, and nothing of the other sources or the registry changes |
| FanOut.InSourceOrder | ntrip/ntrip_caster_server.go:424-430 | when no two broadcasts on one mount overlap, a subscriber gets its chunks in the order in which they were broadcast, also when the mount changes hands; the newest one offered is never dropped, and the queue is a contiguous run of the newest pushed |
| FanOut.EachSourceInOrder | ntrip/ntrip_map.go:128-147 | in every run, overlapping broadcasts included, a subscriber gets the chunks of each source in the order in which that source broadcast them |
| FanOut.OwnMountsExclusive | ntrip/ntrip_caster_server.go:515-518 | sources that keep to different mounts never overlap |
| FanOut.RunInv | ntrip/ntrip_map.go:208-324 | what every step of sources, subscribers, queues and writers keeps |
| Delivery.ChunksArrive | ntrip/ntrip_client.go:635-687 | for every run of the caster and every division into reads of what a subscriber has read so far, what it makes of it: nothing yet; exactly the bytes behind the welcome; those with the rest of the welcome before them, after an early ICY read; or refused, because a phrase was buffered; and the bytes behind the welcome are all from chunks of its own mount |
| Delivery.SourceBytesArrive | ntrip/ntrip_caster_server.go:379-430 | in every run of source handlers and caster, CloseAll and overlapping broadcasts included: each packet written to a subscriber is one payload that the read loop of a source cut out which auth had accepted for the subscriber's mount by its own header; those of one source come in the order in which it sent them; and a source's header and payloads are exactly the bytes read from it |
| Delivery.SourceKeepsUp | ntrip/ntrip_caster_server.go:379-430 | in every run a source has broadcast all the payloads it has cut out of its reads but at most the last: it reads on only when nothing is left to broadcast |
| Delivery.ClaimsExclusive | ntrip/ntrip_caster_server.go:515-522 | in every run of source handlers and caster without CloseAll no two broadcasts on one mount overlap, also when mounts change hands |
| Delivery.ClaimsExactly | ntrip/ntrip_caster_server.go:350-377 | read off the run: a source has been granted its mount exactly when it was accepted and its welcome written, and it holds its claim exactly until its handler leaves or CloseAll comes |
| Admission.AdmitConsistent | ntrip/ntrip_caster_server.go:275-304 | an accepted connection keeps each address's count equal to its connections, non-zero and within both limits |
| Admission.ReleaseConsistent | ntrip/ntrip_caster_server.go:354-364 | so does a handler's exit, also of a connection that Stop has already taken out |
| Admission.CountsDetermined | ntrip/ntrip_caster_server.go:299-304 | consistent tables with the same connections have the same counts |
| Admission.ConnTable.AdmitConn | tcp/tcps.go:207-237 | the critical section of the accept loop, as a method on the fields |
| Admission.ConnTable.ReleaseConn | tcp/tcps.go:292-304 | the handler's critical section, and whether it still owned its place |
| Admission.ConnTable.StopLocked | tcp/tcps.go:240-263 | Stop's critical section: afterwards there is no listener, no connection and no count, and what it returns is the listener and the connections there were |
| Lifecycle.AdmissionHolds | ntrip/ntrip_caster_server.go:245-321 | in every run with stale accept loops, Stop and restart the counts are exact and the limits hold |
| Lifecycle.CountsForget | ntrip/ntrip_caster_server.go:245-364 | two runs that leave the same connections leave the same counts, whatever came and went or was stopped in between |
| Lifecycle.AdmittedExactly | ntrip/ntrip_caster_server.go:275-304 | in every run what becomes of a new connection: closed without a word exactly when its listener is not that of the last Start or a Stop came since; else refused as too many in all, or from its address, exactly when the limit set last is reached by the connections whose handlers have not left the table since the last Stop; else admitted |
| Lifecycle.ListenerExactly | ntrip/ntrip_caster_server.go:305-321 | in every run the current listener is that of the last Start unless a Stop came since |
| Lifecycle.LimitsExactly | ntrip/ntrip_caster_server.go:275-296 | the limits are those set last, or the defaults |
| Lifecycle.StaleLeavesNoTrace | ntrip/ntrip_caster_server.go:275-279 | a connection that the accept loop of an older listener hands over leaves no trace |
| Lifecycle.Teardown | ntrip/ntrip_caster_client.go:241-367 | in every run the registry's keys belong to live handlers, also for one that registers after CloseAll; when the wait group is at zero no loop, handler, connection, count or registry entry is left |
| Lifecycle.NothingStartsAfterStop | ntrip/ntrip_caster_client.go:302-328 | in every run from a Stop on, without another Start, there is no listener, connection or count, and loops and handlers only become fewer |
| Shutdown.StopCanFinish | ntrip/ntrip_caster_server.go:335-345 | from wherever a run has got to, what the wait group waits for can end by steps that bring nothing new, until it is at zero |
| Lifecycle.RegistryAfter | ntrip/ntrip_caster_server.go:350-377 | what each step of a handler and CloseAll does to the registry, under the handler's own key |
| Lifecycle.HandlerAfter | ntrip/ntrip_caster_server.go:347-377 | the order of a handler's phases; connect is called when it is announced, disconnect when its own Delete found its entry |
| Lifecycle.WaitGroupAfter | ntrip/ntrip_caster_server.go:245-304 | what the wait group counts |
| Lifecycle.OneSourcePerMount | ntrip/ntrip_caster_server.go:515-522 | in every run of the source side no mount has two entries |
| Lifecycle.OverlapOnlyAfterCloseAll | ntrip/ntrip_caster_server.go:323-326 | in every run two sources are at work on one mount only if CloseAll took the registry entry of one of them |
| Lifecycle.OverlapAfterRestart | ntrip/ntrip_caster_server.go:305-328 | a run in which it happens: the caster is stopped and started again before the handler of its source has noticed, and a second source gets the mount |
| Lifecycle.RemovedExactlyOnce | ntrip/ntrip_caster_server.go:350-377 | in every run each registry entry is removed exactly once; the disconnect callback comes exactly when its handler removed it, and after the connect callback |
| Lifecycle.TcpDisconnectExactly | tcp/tcps.go:292-312 | a TCP handler calls disconnect exactly when it still owned its entry, that is when no Stop came in between |
| ClientSlot.Slot.ReplaceConn | ntrip/ntrip_client.go:105-111 | the slot takes the new connection and gives the old one back |
| ClientSlot.Slot.ClearConnIfCurrent | ntrip/ntrip_client.go:113-121 | empties the slot exactly when it holds this connection |
| ClientSlot.Slot.CloseConnIfCurrent | ntrip/ntrip_client.go:123-129 | the same, and the connection is closed in either case |
| ClientSlot.Slot.CloseConn | ntrip/ntrip_client.go:131-140 | empties the slot and closes the connection that was in it |
| ClientSlot.Perform | ntrip/ntrip_client.go:105-140 | every step of the runs below changes the slot as one call of these methods does, the caller goes on with what the method returned, and a connection that leaves the slot has been closed |
| ClientSlot.LeavesOnce | ntrip/ntrip_client.go:105-140 | in every run of reader, monitor, GGA sender, Connect, Stop and the next Start each connection leaves the slot at most once; OnDisconnect comes at most once, only after authentication and only if one of its own goroutines removed it; and when one of those did and went on, it came: for the reader exactly if authentication succeeded, for the GGA sender always, for the idle monitor exactly if authentication had succeeded before it reported; OnConnect comes once exactly after authentication |
| ClientSlot.OneReport | ntrip/ntrip_client.go:491-498 | a handler that has ended put exactly one value on its authResult, success exactly when it was connected; a refusal is reported before the slot is cleared for it |
| ClientSlot.WatchedExactly | ntrip/ntrip_client.go:552-582 | in every run the idle monitor is at work from the reader's start on, and the GGA sender from the connect callback on if it is wanted, each until it cleared the slot or left |
| ClientSlot.NeverAnnounced | ntrip/ntrip_client.go:670-676 | a connection that was replaced, stopped or given up before its success was confirmed is never announced: no connect callback, no disconnect callback, no success |
| ClientSlot.GoroutinesCanLeave | ntrip/ntrip_client.go:589-687 | from wherever a run has got to, the reader and the monitors of a started connection can all leave by their own steps, and then the slot does not hold it |
| Base64.DecodeOfEncode | ntrip/ntrip_client.go:715-718 | decoding undoes encoding (section 4 of RFC 4648) for all byte strings |
| Base64.DecodeAccepts | ntrip/ntrip_protocol.go:76-79 | decoding accepts exactly groups of four digits, the last one padded or not, and gives three bytes for each group less the padding |
| Base64.DecodeSkips | ntrip/ntrip_protocol.go:76-79 | line breaks make no difference to it, and nothing else is passed over |
| Base64.DigitsAreTheTable | ntrip/ntrip_protocol.go:76 | the digits are those of table 1 of RFC 4648 |
| Base64.GroupIsPositional | ntrip/ntrip_protocol.go:76 | a group is one number of 24 bits in four digits of six |
| Request.ParseRequest | ntrip/ntrip_protocol.go:29-64 | the parser's loop computes the request that the lemmas below are about, or an error |
| Request.BasicRoundTrip | ntrip/ntrip_protocol.go:71-85 | credentials come back (section 2 of RFC 7617) exactly when the username has no colon |
| Request.CredentialsExactly | ntrip/ntrip_protocol.go:71-85 | for all credentials, what the parser splits out, and that it is what was joined exactly when the username has no colon |
| Request.SchemeExactly | ntrip/ntrip_protocol.go:71-75 | the scheme is Basic in any case of its letters and no other |
| Request.ValidMountExactly | ntrip/ntrip.go:297-307 | a mount passes exactly when it is not empty and of printable bytes, none of them a blank or a semicolon |
| Request.GetRoundTrip | ntrip/ntrip_client.go:712-735 | a built GET parses to its mount, credentials and version exactly when the mount has no slash at an end and the username no colon |
| Request.PostRoundTrip | ntrip/ntrip_server.go:336-344 | the same for POST, empty credentials included |
| Request.SourceRoundTrip | ntrip/ntrip_server.go:332-334 | a built SOURCE parses to its mount and password exactly when the mount has no slash at an end and the password is non-empty and free of white space |
| Request.LastHeaderWins | ntrip/ntrip_protocol.go:56-62 | a header has the value of the last line that sets it |
| Request.TargetOfMount | ntrip/ntrip_protocol.go:66-69 | a valid mount is recovered from its path exactly when it has no slash at an end |
| Text.TrimExactly | ntrip/ntrip_protocol.go:66-69 | trimming takes off all that is to be dropped at both ends and nothing else |
| Text.FoldExactly | ntrip/ntrip_protocol.go:148-150 | texts are equal up to case exactly when they agree byte by byte up to the case of letters |
| Wording.GetReadsAs | ntrip/ntrip_client.go:712-735 | the whole of what a caster parses out of a built GET: target, version and every header |
| Wording.PostReadsAs | ntrip/ntrip_server.go:336-344 | the same for a built POST |
| Wording.SourceReadsAs | ntrip/ntrip_server.go:332-334 | and for a built SOURCE with a password of one word |
| RequestFraming.Frame | ntrip/ntrip_caster_server.go:379-421 | the read loop as a method, against its specification on the list of reads |
| RequestFraming.NothingLost | ntrip/ntrip_caster_client.go:369-410 | for every list of reads of at most 4096 bytes the header and the delivered payloads together are all the bytes, and the buffer never exceeds 8192 + 4096 bytes |
| RequestFraming.AnyLength | ntrip/ntrip_caster_server.go:395-403 | for a header of any length that ends at its first CR LF CR LF and has no LF LF, every division gives this header and this payload, except exactly that a read which ends past 8192 bytes and before the header's end makes it too large |
| RequestFraming.SplitDoesNotMatter | ntrip/ntrip_protocol.go:19-27 | so within the limit every division into reads gives this header and this payload |
| RequestFraming.SplitIndependentExactly | ntrip/ntrip_protocol.go:19-27 | over the divisions into reads of at most 4096 bytes, a header that ends at its first CR LF CR LF is always the one found exactly when it has no LF LF and at most 8193 bytes |
| RequestFraming.TooLargeExactly | ntrip/ntrip_caster_client.go:389-395 | and without LF LF it is given up for all of them exactly when it has more than 8192 + 4096 bytes |
| RequestFraming.LongMessage | ntrip/ntrip_caster_client.go:389-395 | a message that one division finds and another one gives up |
| RequestFraming.ByteByByteStopsAtLfLf | ntrip/ntrip_protocol.go:23-25 | with LF LF, reading byte by byte stops there, or at the limit if that comes first |
| RequestFraming.MessageEnds | ntrip/ntrip_client.go:712-735 | every built message ends at its first CR LF CR LF and has no LF LF |
| Responses.BuildSourcetable | ntrip/ntrip_protocol.go:118-146 | the loop writes the response that the lemmas below are about |
| Responses.TableReadsBack | ntrip/ntrip_protocol.go:118-132 | splitting the body into lines and fields gives back all the mounts exactly when none was passed over |
| Responses.KeptExactly | ntrip/ntrip_protocol.go:120-125 | passed over are exactly the empty mounts and those with a semicolon or a line break |
| Responses.ContentLengthIsBodyLength | ntrip/ntrip_protocol.go:141-145 | for every list of mounts, who cuts at the header end and parses the headers finds in Content-Length (section 8.6 of RFC 9110) the length of the body |
| Wording.TableReadsAs | ntrip/ntrip_protocol.go:133-146 | the status line, the headers and the body that a reader finds in the sourcetable of either version |
| Wording.RowReadsAs | ntrip/ntrip_protocol.go:125-129 | the 19 fields of a row |
| Wording.ResponseReadsAs | ntrip/ntrip_protocol.go:87-116 | the lines that a reader finds in each fixed response, and that its header ends with them |
| Text.DecimalReadsBack | ntrip/ntrip_protocol.go:142 | a printed number reads back |
| ResponseFraming.Await | ntrip/ntrip_client.go:635-687 | the client's read loop as a method, against its specification on the list of reads; with no phrases it is the source's |
| ResponseFraming.SplitVerdict | ntrip/ntrip_server.go:284-321 | for every response but ICY and every division into reads: no verdict before the response is complete except by a phrase, and then the one that its first line and the buffered bytes determine |
| ResponseFraming.OnlyEarlyFails | ntrip/ntrip_client.go:767-804 | of all starts of the ICY response's headers only the one between CR and LF of the Server line does not look like a header |
| ResponseFraming.IcyExactly | ntrip/ntrip_client.go:749-765 | the v1 response followed by any payload delivers exactly the payload for exactly the divisions without a read that ends there and without a phrase in the covering buffer |
| ResponseFraming.EarlyReadLeaks | ntrip/ntrip_client.go:758-764 | for every date and payload a division that delivers the rest of the welcome as data |
| ResponseFraming.V2Exactly | ntrip/ntrip_protocol.go:101 | the v2 response followed by any payload delivers exactly the payload for every division without a phrase in the covering buffer |
| ResponseFraming.WelcomePhraseFree | ntrip/ntrip_client.go:637 | no success response contains any letter that every phrase needs, whatever the date |
| ResponseFraming.SuccessExactly | ntrip/ntrip_client.go:694-709 | of the casters' fixed replies exactly the two welcomes are a success; the sourcetables are in Handshake.TableVerdict |
| ResponseFraming.SuccessIsOk | ntrip/ntrip_client.go:694-699 | any status line is a success exactly when its code is 200 and its protocol ICY, HTTP/1.0 or HTTP/1.1, in any case of letters |
| ResponseFraming.PhrasesExactly | ntrip/ntrip_client.go:637 | the phrases are these three |
| ResponseFraming.BareIcyDelivers | ntrip/ntrip_client.go:749-765 | from a caster that sends nothing but the ICY line, binary data is delivered from its first byte for every division |
| ResponseFraming.NameStartContinues | ntrip/ntrip_client.go:794-803 | which starts of a name are still waited for |
| ResponseFraming.EndlessIsRefused | ntrip/ntrip_client.go:646-656 | a response without an end is refused exactly when a read ends past 8192 bytes or a phrase occurs |
| ResponseFraming.RefusalRefuses | ntrip/ntrip_protocol.go:87-116 | every 401, 404, 409, 429, 431 and 503, divided in any way, is refused, and no start of it connects |
| ResponseFraming.WelcomeConnects | ntrip/ntrip_protocol.go:91-101 | no start of a welcome is refused, and exactly the whole of it, or an early ICY read, connects |
| Handshake.CheckSource | ntrip/ntrip_caster_server.go:479-514 | a source is authorised exactly when its request parses as SOURCE or POST with a valid mount and credentials which OnAuth grants for this mount, or, without OnAuth and unless it is required, whose password is the mount; and that determines the answer for every set of taken mounts |
| Handshake.PlaceSource | ntrip/ntrip_caster_server.go:514-524 | the registry gets the bean exactly when the mount is free and the welcome was written; otherwise it is as before |
| Handshake.AuthSource | ntrip/ntrip_caster_server.go:479-524 | only a prefix of the specified answer goes on the wire, the registry changes exactly when the source is accepted and the welcome was written, and valid mounts stay valid |
| Handshake.CallsKeepMounts | ntrip/ntrip_caster_server.go:479-524 | after any sequence of requests to auth, handler exits and CloseAll every mount of the registry passes validateMount and has one entry |
| Handshake.EntryExactly | ntrip/ntrip_caster_server.go:514-524 | and it holds a bean under a key exactly when a request was accepted with them, its welcome was written, and since then neither did its handler leave nor CloseAll come nor another source get the key |
| Handshake.ServeSourcetable | ntrip/ntrip_caster_client.go:440-445 | for the registry after any such sequence the table lists exactly its mounts, sorted, each once, none skipped |
| Handshake.TableIsDetermined | ntrip/ntrip_map.go:326-335 | the sourcetable depends on the set of mounts in use alone |
| Handshake.CheckSubscriber | ntrip/ntrip_caster_client.go:426-455 | a subscriber is authorised exactly when its request parses as GET with a valid mount and credentials which OnAuth grants, or, without OnAuth and unless it is required, which both are the mount; what the sourcetable asks for; and that determines the answer for every set of sources |
| Handshake.AuthSubscriber | ntrip/ntrip_caster_client.go:426-464 | only a prefix of the specified answer goes on the wire, and there is a bean exactly when the subscriber is accepted and the welcome was written |
| Handshake.SourceAgreement | ntrip/ntrip_server.go:284-311 | whatever a source sends, in every division of both directions: it is never wrong about the verdict, and with the whole answer read it is connected exactly when the caster accepted it and refused exactly when refused |
| Handshake.PostHandshake | ntrip/ntrip_server.go:336-344 | for all credentials and lengths: a source that sends POST is connected exactly when no read ended between byte 8192 and the end of its request, its mount is more than slashes, OnAuth grants the credentials that arrive, or without it the password is the mount and OnAuth is not required, and the mount is free |
| Handshake.SourceHandshake | ntrip/ntrip_server.go:332-334 | for all passwords, with line breaks too: a source that sends SOURCE is connected exactly when its request was not given up as too large, the second field after SOURCE on the first line is a valid mount, OnAuth grants the first for it, or without it they are the same and OnAuth is not required, and the mount is free; the fields are password and mount exactly when the password is one word |
| Handshake.GetHandshake | ntrip/ntrip_caster_client.go:426-482 | for every division of both directions, all credentials and lengths: the caster's answer and what the subscriber makes of it follow from mount, credentials, settings and sources, up to an overflow, phrases and early reads |
| Handshake.GetAgreement | ntrip/ntrip_caster_client.go:426-464 | subscriber and caster agree except in exactly two cases: accepted, with a phrase in what was buffered with the welcome; or answered with the v2 sourcetable, with no phrase in what was buffered |
| Handshake.VerdictVersion | ntrip/ntrip_caster_client.go:432-447 | the sourcetable answers exactly the requests for a mount of slashes that the caster lets see it |
| Handshake.SlashIsTakenForAStream | ntrip/ntrip_caster_client.go:433-447 | a query for mount "/" and a division of the sourcetable with which a subscriber is connected that was not accepted |
| Handshake.AcceptedExactly | ntrip/ntrip_caster_client.go:466-482 | a subscriber is accepted exactly when its request did not overflow, it has both credentials, those that arrive are granted by OnAuth, or without it both are the mount and OnAuth is not required, the mount is more than slashes and, where required, has a source |
| Handshake.TableVerdict | ntrip/ntrip_protocol.go:118-146 | the client refuses the v1 sourcetable and takes the v2 one for a stream |
| Handshake.TrimmedIsValid | ntrip/ntrip.go:297-307 | a valid mount without its outer slashes is valid unless nothing is left |
| Gga.CoordsWidth | ntrip/ntrip.go:393-410 | a coordinate field has its 8 or 9 characters exactly when the degrees fit their digits |
| Gga.CoordsReadBack | ntrip/ntrip.go:393-410 | and then reads back to within 1/120000 degree, sign included, also when the minutes are printed as 60.000 |
| Gga.ChecksumOf | ntrip/ntrip.go:446-449 | the loop computes the one byte whose bits are the parities of the text: bit k is set exactly when an odd number of bytes have it set |
| Gga.ParitiesDecide | ntrip/ntrip.go:446-449 | and there is no other such byte |
| Gga.ChecksumProtects | ntrip/ntrip.go:446-450 | the emitted line verifies, and with one body byte replaced it verifies exactly if the byte is the same |
| Gga.GgaReadsBack | ntrip/ntrip.go:439-451 | from the sentence for a validated position a receiver that checks the parities, the time, the hemisphere letters and the fixed fields reads back the time, the position to within 1/120000 degree and the altitude to within 1/20 |
| Gga.GenerateChecked | ntrip/ntrip.go:419-437 | the sentence for exactly the validated positions, an error for all others |

## Left out

- Sockets, TLS, dialling, keep-alive and logging: I/O. A connection is a trace of reads and writes, and timers are steps that may happen at any time.
- SubscriberQueue.Conservation: counters are unbounded, the source's wrap at 64 bits; a counter changes in the same step as the queue operation next to it, so it does not say what a reader between the two sees.
- ChannelBean.Bean.SendLossOwned: states the call when nobody interferes; the interleavings are in SubscriberQueue.
- ChannelBean.Bean.WriteHead: takes the head at hand; waiting on an empty queue and the quit signal are steps of SubscriberQueue.
- Registry.SafeNtripMap.GetByMount: the order in which Go walks a map is left open.
- Registry.SafeNtripMap.GetMountList: sorts by insertion where the source calls sort.Strings; only the sorted result is stated.
- Registry.SafeNtripMap.BroadcastLossByMount: runs alone; broadcasts that interleave with queues, writers and other broadcasts are in FanOut.
- ForEachByMount: calls user code on the beans that GetByMount returns.
- FanOut.EndToEnd: a subscriber's response is on its connection before its queue exists, as in the source; what the response is, and that it may not be written at all, is in Handshake.
- FanOut.InSourceOrder: the order across sources is for runs in which broadcasts on one mount do not overlap; for all others there is FanOut.EachSourceInOrder.
- Delivery.SourceBytesArrive: takes the caster client as attached while a source is connected; without it the chunks go nowhere (ntrip/ntrip_caster_server.go:428-430).
- Lifecycle.Teardown: a handler's reads, and when they fail, are arbitrary; Shutdown's waiting on a context is a caller's wait for the wait group.
- Lifecycle.TcpDisconnectExactly: reading and the data callbacks of the TCP server are left out.
- ClientSlot.LeavesOnce: the quit channel decides only when the goroutines leave, and here they may leave at any time; so it does not say that Stop makes them leave. Nor is Stop final: a retry goroutine past its timer starts another run (ntrip/ntrip_client.go:443-446).
- Progress.BroadcastNeverWaits: says that the source can go on to the end without waiting for anyone; that it is scheduled is not modelled.
- Shutdown.StopCanFinish: likewise says that the loops and handlers can end, not that reads fail in time.
- ClientSlot.GoroutinesCanLeave: likewise.
- Retry, its backoff and jitter, and the accept backoff: arithmetic on delays.
- The slots of ntrip/ntrip_server.go and tcp/tcpc.go: the same slot with fewer goroutines.
- Request.GetRoundTrip: white space, control characters and letter case are those of ASCII, not of Unicode, and the builder's check for empty credentials counts bytes, not runes.
- Handshake.ServeSourcetable: the bean that an accepted request gets is part of the sequence of calls, since it is made when the request is accepted.
- createNtripAuthMsgLib, authNtripServer1 to authNtripServer3 and authLegacySource: not called by the casters or clients.
- Speed statistics, bytesByMount, callback getters and setters, range checks of setters, maskSecret and package-level start and stop: they would only add easy members.
- Gga.GgaReadsBack: real numbers stand for float64, so rounding of the inputs and of intermediate results is not modelled, nor are NaN and infinities.
