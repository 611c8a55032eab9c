# Verification of the wazuh-slack delivery pipeline

`wazuh-slack` pulls Slack logs from several sources, pushes them through one bounded
channel and a rule filter, and hands them to a Wazuh sink that retries, spools to disk
and replays. This project models the protocols between the network calls and proves
what they keep: over every run, every failure and every interleaving.

The outside world (Slack, analysisd, the disk, the clock, the channel's receiver) is
never assumed to be friendly. It appears in two ways:

* in the **step systems** (`Spool`, `AuditPolls`, `AuditRuns`, `AccessRuns`, `Pipeline`,
  `Crashes`) as steps that
  may happen at any time; a run is any finite sequence of enabled steps;
* in the **methods and classes** that follow the code (`Sink`, `Audit`, `AccessLogs`,
  `EventsSocket`, `Dedup`, `JsonFile`, `Supervisor`, `Dispatcher`, `Interpolate`) as a
  script of answers, quantified over. Each method is proved against a specification
  function, or logs the steps of a step system as it goes, and the theorems are about
  those.

| module | what it models |
|---|---|
| `Framing`, `Disk` | spool segments as lines, the spool directory in file-name order |
| `Spool` | emitters, replay task, spool lock and directory listing as one step system |
| `Duplicates` | what replay sends more than once, over the runs of `Spool` |
| `Sink` | the analysisd socket sink: retry, reconnect once, spool, replay |
| `Json`, `Event`, `Wire` | JSON text, the normalized event, dotted lookup, the datagram |
| `Filter` | severity map, drop rules, allow-lists per source, and how they are built |
| `Dedup` | the bounded cache of event ids |
| `StateStore` | the cursor store and the decimal text of 64-bit integers |
| `Audit`, `AuditPolls`, `AuditRuns` | the audit poller; its runs against a server that may answer anything, and against one that lists a growing log |
| `ColdStart` | what audit polls ask for before a date is stored, and a first poll that is resumed |
| `ClosedChannel` | what polling the audit log on after the channel has closed comes to |
| `AccessLogs`, `AccessRuns` | the access-log poller; its runs against a list that shifts |
| `EventsSocket` | the Socket Mode source: acknowledge, deduplicate, forward, reconnect |
| `Supervisor` | restarting a source with exponential backoff |
| `Pipeline`, `Dispatcher` | sources, channel, dispatcher, sink and shutdown composed |
| `Crashes` | the audit poller in front of the pipeline, over any number of processes |
| `JsonFile` | the NDJSON file sink and its rotation by size |
| `Interpolate` | one-pass `${NAME}` expansion of the configuration text |

## Where the code and its comments differ

The model follows the code.

* `crates/slack-sources/src/state.rs:8` says that a cursor moves only after the sink has
  emitted. The pollers move it after hand-off to the channel
  (`crates/slack-sources/src/audit.rs:118`), and that is what "handed over" means here. A
  process that ends with an event in the channel drops it, although the cursor has passed
  its entry (`Crashes.PassedAndDropped`); nothing is dropped exactly if every process ends
  with the channel and the dispatcher's hand empty (`Crashes.NothingDroppedIff`). All other
  entries that the cursor has passed are on their way, filtered, lost with an error, with
  analysisd or on disk, over any number of processes (`Crashes.PassedIsArrived`).
* `crates/slack-sources/src/dedup.rs:41` speaks of an id that is touched by a lookup.
  `contains` does not touch recency, so the cache is a first-in first-out window.
* `crates/wazuh-sinks/src/unix_socket.rs:153` says that nothing is lost or duplicated
  across retries. Nothing is lost exactly if no payload is spooled into a line that was cut
  off and no line that ends with a carriage return is written back
  (`Spool.NothingLostIff`), which can only happen over an inherited segment that lacks its
  last line feed or holds such a line (`Spool.TidyIsWhole`). A failed write-back, a failed
  removal or an abort can leave a partly sent segment as it was; some payload is then sent
  more often than it was spooled exactly if replay sends one of those sent before
  (`Duplicates.SentTooOftenIff`, for payloads that can be told apart and any clock;
  `Duplicates.NothingSentTwiceIff`, for all payloads and a clock that does not run
  backwards).

## Properties that do not hold as one might expect

* An audit id is remembered before its event is offered to the channel, so a poll on a
  closed channel takes a refused entry for a duplicate (`AuditRuns.PollingOnLoses`). While
  polls start on an open channel only, the date cursor passes nothing
  (`AuditRuns.NoLoss`); from any idle state on a closed one, polling on can pass every
  entry that was not handed over (`ClosedChannel.ClosedChannelPasses`).
* A first audit poll asks for a day and, if it is interrupted, leaves a page cursor but no
  date. A later one goes on with that listing and then stores the date that it would have
  asked for itself, so that what arrived in between is passed
  (`ColdStart.ResumedColdStartPasses`, exact condition in `ColdStart.PassedAtColdStart`).
* Login dates have a resolution of one second and are compared strictly, so a login that
  turns up in the second of the last one forwarded is never forwarded
  (`AccessRuns.TieIsLost`). Nothing is passed if each login that arrives is newer than the
  cursor and, while a poll is past its first page, newer than all other logins
  (`AccessRuns.NoLoss`); any other arrival can be passed (`AccessRuns.UnguardedIsPassed`).
* Two rotations of the JSON file within one second take the same name, and the second
  overwrites the first (`JsonFile.SameSecondLoses`, exact condition in
  `JsonFile.NothingLostIff`).
* A rotation that moves the JSON file away and then cannot open a new one leaves the sink
  failing for good, because every later rotation misses the file it wants to move
  (`JsonFile.MissingIff`, `JsonFile.WritableIff`, `JsonFile.FailedReopenIsFinal`).
* A payload that is spooled into an inherited segment without a last line feed is glued to
  its unfinished line (`Framing.AppendLineIff`, `Spool.AppendStoredIff`,
  `Spool.GluedAppendLoses`).
* Splitting a segment takes a carriage return in front of a line feed for part of the line
  break, so an inherited line that ends with two loses one each time it is written back
  (`Framing.WriteBackIff`, `Spool.ReturnWrittenLoses`). The sink writes no such line.
* A Socket Mode event is acknowledged and remembered before it is offered to the channel.
  If the channel has closed, the event is lost and its redelivery suppressed
  (`EventsSocket.AcknowledgedAndDropped`).

## Model

A run of the spool is *whole* if no payload of it is spooled into a line that was cut off and
no line that ends with a carriage return is written back.

| member | source | states |
|---|---|---|
| Spool.NothingLost | crates/wazuh-sinks/src/unix_socket.rs:110-188 | For every interleaving of emitters and replay, any clock and any failures: payloads taken off the disk plus payloads on disk are exactly the spooled ones, and all that replay sent is accounted for, as long as the run is whole |
| Spool.NothingLostIff | crates/wazuh-sinks/src/unix_socket.rs:110-188 | That condition is exact: the count is right in all states of a run if and only if the run is whole |
| Spool.TidyIsWhole | crates/wazuh-sinks/src/unix_socket.rs:110-188 | A sink that starts over segments that end with a line feed and have no line ending with a carriage return, as a sink leaves them, has whole runs only |
| Spool.SendsAccounted | crates/wazuh-sinks/src/unix_socket.rs:110-188 | In every run without exception, what replay sent is what it took off the disk, has in flight, or will have to repeat |
| Spool.FirstInFirstOut | crates/wazuh-sinks/src/unix_socket.rs:110-188 | If hour stamps never go back, what replay took off followed by the segments in file-name order is the spooled sequence, in order, in every reachable state (whole runs) |
| Spool.StepConserves | crates/wazuh-sinks/src/unix_socket.rs:110-188 | Conservation is kept by each single step, including appends to a listed segment and the recreation of a deleted one, other than an append to a line that was cut off or the write-back of a line that ends with a carriage return |
| Spool.AppendStoredIff | crates/wazuh-sinks/src/unix_socket.rs:119-126 | An append keeps the count if and only if the segment is new, empty or ends with a line feed |
| Spool.WriteBackStoredIff | crates/wazuh-sinks/src/unix_socket.rs:172-183 | A write-back keeps the count if and only if none of the unsent lines ends with a carriage return |
| Spool.GluedAppendLoses | crates/wazuh-sinks/src/unix_socket.rs:119-126 | Over any segment without its last line feed, the first payload spooled into its hour breaks the count |
| Spool.ReturnWrittenLoses | crates/wazuh-sinks/src/unix_socket.rs:172-183 | Over any segment with a line that ends with a carriage return, a replay that fails at the first line breaks the count |
| Spool.StepInOrder | crates/wazuh-sinks/src/unix_socket.rs:110-188 | First-in first-out order, and the listing being the oldest segments, are kept by each single step (whole runs) |
| Spool.AtLeastOnce | crates/wazuh-sinks/src/unix_socket.rs:67-73 | Abort, restart and failures at any point, and any clock: every spooled payload has been sent or is still on disk, at least as often as it was spooled (whole runs) |
| Spool.OnlySentPrefixRepeats | crates/wazuh-sinks/src/unix_socket.rs:172-187 | The only payloads that will be sent again are the part already sent of the one segment being drained, which the segment still holds in front, whatever the clock says |
| Spool.SentPrefixInFront | crates/wazuh-sinks/src/unix_socket.rs:172-187 | On a clock that does not run backwards they are still at the front of the disk |
| Spool.ResentIff | crates/wazuh-sinks/src/unix_socket.rs:172-187 | The history of payloads sent but left on the disk is empty exactly for the clean runs |
| Spool.SentIsCommittedIff | crates/wazuh-sinks/src/unix_socket.rs:152-187 | What replay sent is what it took off the disk plus what is in flight, exactly for the clean runs: those in which no failed write-back, failed removal or abort leaves a partly sent segment as it was |
| Spool.CleanRunIsExact | crates/wazuh-sinks/src/unix_socket.rs:152-187 | In a clean run on a steady clock, sent payloads followed by those on disk spell out the spooled sequence (whole runs) |
| Duplicates.SentWithinSpooled | crates/wazuh-sinks/src/unix_socket.rs:152-187 | No payload is sent more often than it was spooled, but for those sent and left on the disk; in a clean run there are none, whatever the clock does (whole runs) |
| Duplicates.SendsAre | crates/wazuh-sinks/src/unix_socket.rs:172-183 | On a clock that does not run backwards each send is of the payload spooled at the place next to the committed and in-flight ones (whole runs) |
| Duplicates.NothingSentTwiceIff | crates/wazuh-sinks/src/unix_socket.rs:152-187 | On a clock that does not run backwards each send is of a place of the spooled sequence, and no place is sent twice exactly if replay sends nothing after a failed write-back, failed removal or abort has left a partly sent segment as it was (whole runs) |
| Duplicates.SentTooOftenIff | crates/wazuh-sinks/src/unix_socket.rs:152-187 | For payloads that can be told apart and any clock, some payload is sent more often than it was spooled exactly if replay sends one that it has sent before and left on the disk (whole runs) |
| Duplicates.ResentIsSentTwice | crates/wazuh-sinks/src/unix_socket.rs:172-187 | In every run without exception, a payload sent again after it was left on the disk has been sent at least twice |
| Duplicates.EqualPayloadsHide | crates/wazuh-sinks/src/unix_socket.rs:172-187 | With equal payloads a repeated send need not show in the counts |
| Spool.FinishedWalkDrains | crates/wazuh-sinks/src/unix_socket.rs:172-187 | A replay that gets to the end of its listing has sent all that was spooled before the listing, each payload as often as it was spooled, whatever was appended meanwhile and whatever the clock said (whole runs) |
| Spool.FreshHolds | crates/wazuh-sinks/src/unix_socket.rs:42-58 | A sink opened over whatever segments an earlier process left starts with nothing lost and everything in order |
| Disk.SortListing | crates/wazuh-sinks/src/unix_socket.rs:170 | Sorting a listing gives all of its names, oldest first |
| Disk.ContentsAppend | crates/wazuh-sinks/src/unix_socket.rs:110-126 | Appending to the newest segment, new or not, appends to the directory's payload sequence |
| Disk.WriteBackDisk | crates/wazuh-sinks/src/unix_socket.rs:177-181 | The sent prefix of the oldest segment followed by the directory after the write-back is the directory before it |
| Disk.RemoveDisk | crates/wazuh-sinks/src/unix_socket.rs:184 | Removing the oldest listed segment takes exactly its payloads off the front of the directory |
| Framing.SegmentRoundTrip | crates/wazuh-sinks/src/unix_socket.rs:174-175 | Splitting a segment built by appends gives back exactly the appended payloads |
| Framing.SegmentReads | crates/wazuh-sinks/src/unix_socket.rs:174-175 | Splitting the text of lines that are not blank gives them back, each less one carriage return at its end |
| Framing.BlankIsSkipped | crates/wazuh-sinks/src/unix_socket.rs:174-175 | A line of nothing but white space, beyond ASCII too, is no payload |
| Framing.VisibleIsKept | crates/wazuh-sinks/src/unix_socket.rs:174-175 | A line with a visible character is kept whole, but for a carriage return at its end |
| Framing.AppendLine | crates/wazuh-sinks/src/unix_socket.rs:125-126 | One append adds exactly one payload to what a segment that ends with a line feed reads as |
| Framing.AppendLineIff | crates/wazuh-sinks/src/unix_socket.rs:119-126 | An append adds exactly its payload, in order or only counted, if and only if the segment was empty or ended with a line feed |
| Framing.WriteBackIff | crates/wazuh-sinks/src/unix_socket.rs:179-180 | The remainder written back reads as the unsent lines, in order or only counted, if and only if none of them ends with a carriage return |
| Framing.JoinIsSegment | crates/wazuh-sinks/src/unix_socket.rs:179 | Joining lines with line feeds and a final one is the text that appending them would have left |
| Sink.UnixSocketSink.constructor | crates/wazuh-sinks/src/unix_socket.rs:42-58 | The sink takes over whatever segments are there and counts their payloads as spooled |
| Sink.UnixSocketSink.SendReconnecting | crates/wazuh-sinks/src/unix_socket.rs:98-108 | In the answers of the socket: delivered exactly if the first send succeeds or it fails and both a reconnect and the second send succeed; two sends exactly after a reconnect; a full queue, wherever it is reported, is passed on |
| Sink.UnixSocketSink.SpoolEvent | crates/wazuh-sinks/src/unix_socket.rs:110-135 | The payload is spooled once or, without a spool or on a failed write, nothing changes and an error is reported |
| Sink.UnixSocketSink.SendWithBackoff | crates/wazuh-sinks/src/unix_socket.rs:194-210 | At most ten sends and 775 ms of pauses; delivered once exactly when the retries end in success |
| Sink.UnixSocketSink.Emit | crates/wazuh-sinks/src/unix_socket.rs:192-214 | The event is delivered once, or spooled once, or reported as lost, never two of these; which one, for every sequence of answers |
| Sink.EmitOutcome | crates/wazuh-sinks/src/unix_socket.rs:192-214 | In the answers of the socket: delivered exactly when some attempt of the five gets through after nothing but full queues; otherwise spooled exactly when that is possible |
| Sink.PauseNext | crates/wazuh-sinks/src/unix_socket.rs:202 | The k-th pause is 25 ms times a power of two, at most 1000 ms |
| Sink.PausesBound | crates/wazuh-sinks/src/unix_socket.rs:194-203 | All pauses of one emit sum up to at most 775 ms, and to that if every queue is full |
| Sink.UnixSocketSink.SendLines | crates/wazuh-sinks/src/unix_socket.rs:176-183 | A prefix of the lines reaches analysisd in order, up to the first one that does not get through |
| Sink.UnixSocketSink.DrainSegment | crates/wazuh-sinks/src/unix_socket.rs:173-185 | All lines reach analysisd and the segment goes, or a prefix does and the segment keeps exactly the rest |
| Sink.UnixSocketSink.VisitSegment | crates/wazuh-sinks/src/unix_socket.rs:172-186 | Appends of others before the lock is taken do not disturb the draining of the segment |
| Sink.UnixSocketSink.TakeListing | crates/wazuh-sinks/src/unix_socket.rs:156-170 | The walk covers every segment that is there, oldest first |
| Sink.UnixSocketSink.ReplayOnce | crates/wazuh-sinks/src/unix_socket.rs:154-188 | A successful replay has delivered all that was spooled before it, each payload as often as it was spooled, on any clock and despite appends in between (whole runs); it succeeds if nothing fails |
| Sink.AllReceived | crates/wazuh-sinks/src/unix_socket.rs:154-188 | At the end of a walk all payloads spooled before its listing are with analysisd, as often as they were spooled (whole runs) |
| Json.RenderPrintable | crates/wazuh-sinks/src/unix_socket.rs:62 | JSON text has no control character, so no raw line break |
| Json.EscapeInverse | crates/wazuh-sinks/src/unix_socket.rs:62 | Every string escape reads back, by the rules of RFC 8259, as the character it stands for, whatever follows |
| Json.ReadRender | crates/wazuh-sinks/src/unix_socket.rs:62 | JSON text read by the grammar of RFC 8259 gives the value back and ends where the value's text ends |
| Json.RenderUnique | crates/wazuh-sinks/src/unix_socket.rs:62 | So two values with the same text, followed by a delimiter or the end, are equal |
| Json.SameReflexive | crates/slack-connector-core/src/filter.rs:41 | A value whose objects have different keys is equal to itself |
| Json.SameSymmetric | crates/slack-connector-core/src/filter.rs:41-42 | Equality of such values is symmetric |
| Json.ReorderedIsSame | crates/slack-connector-core/src/filter.rs:41 | The order of an object's keys does not count |
| Wire.DecodeWire | crates/wazuh-sinks/src/unix_socket.rs:60-64 | Splitting a datagram at the first colons gives back its location and its JSON text |
| Wire.WireSays | crates/wazuh-sinks/src/unix_socket.rs:60-64 | A datagram is the queue number 1, the location of the event's source in so many letters, and JSON that reads as the event |
| Wire.WireUnique | crates/wazuh-sinks/src/unix_socket.rs:60-64 | Equal datagrams come from equal events |
| Event.ToValueUnique | crates/slack-connector-core/src/event.rs:7-90 | The JSON value determines the event, absent optional fields included, because each field can be looked up |
| Event.NamesFound | crates/slack-connector-core/src/event.rs:29-90 | Severity and source are found under their paths as lower-case names |
| Event.FieldsFound | crates/slack-connector-core/src/event.rs:7-28 | Time stamp, action, event id and raw payload are found under their paths |
| Event.RawFound | crates/slack-connector-core/src/event.rs:95-111 | A path below `raw` is looked up in the payload as Slack sent it |
| Event.ActorPaths | crates/slack-connector-core/src/event.rs:48-59 | Each field of the actor is found under its path exactly if it is there |
| Event.EntityPaths | crates/slack-connector-core/src/event.rs:61-69 | Each field of the entity is found under its path exactly if it is there |
| Event.ContextPaths | crates/slack-connector-core/src/event.rs:71-79 | Each field of the context is found under its path exactly if it is there |
| Wire.WireFrameable | crates/wazuh-sinks/src/unix_socket.rs:60-64 | A datagram is one non-blank line, which is what the spool's framing needs |
| Wire.TagUnique | crates/slack-connector-core/src/event.rs:38-46 | Different sources have different location tags |
| Event.LookupDotted | crates/slack-connector-core/src/event.rs:105-111 | The loop finds what following the keys of the path one by one finds, or nothing |
| Event.LookupComposes | crates/slack-connector-core/src/event.rs:105-111 | Looking up a joined path is looking up its second half in what the first half finds |
| Event.SplitJoined | crates/slack-connector-core/src/event.rs:107 | The parts of a joined path are the parts of its halves |
| Filter.BuildFilter | crates/slack-connector-cli/src/supervisor.rs:163-180 | The engine holds the drop rules and severity map, and each source's allow-list under that source's own key, an empty one under none, which is all that the configuration's promise asks of it |
| Filter.EvaluateMeetsConfig | crates/slack-connector-core/src/filter.rs:65-88 | An event passes exactly when no drop rule matches and its source's configured allow-list is empty or has a match; only severity changes, and only by the map |
| Filter.EvaluateIdempotent | crates/slack-connector-core/src/filter.rs:65-88 | An event that passed passes again unchanged |
| Filter.EvaluateMonotone | crates/slack-connector-core/src/filter.rs:74-85 | Fewer drop rules and more rules in a non-empty allow-list only let more through; order and repetition of rules do not matter |
| Filter.MatchesMore | crates/slack-connector-core/src/filter.rs:75 | A match by some rule of a list is a match by every list that holds its rules |
| Filter.ExistsMatches | crates/slack-connector-core/src/filter.rs:37-39 | `exists: true` matches exactly if the path leads somewhere, `exists: false` exactly if not |
| Filter.AbsentNeverMatches | crates/slack-connector-core/src/filter.rs:40 | The other operators never match where it leads nowhere |
| Filter.EqMatches | crates/slack-connector-core/src/filter.rs:41 | `eq` with a text, number, truth value or null matches exactly that; with an array or object it matches only its kind, and always the value found |
| Filter.InMatches | crates/slack-connector-core/src/filter.rs:42 | `in` matches exactly if `eq` does for one of the choices |
| Filter.RegexMatches | crates/slack-connector-core/src/filter.rs:43-51 | A pattern is tried on a text as it is and on the JSON text of anything else |
| Filter.DropByAction | crates/slack-connector-core/src/filter.rs:65-76 | A drop rule for the event's action drops it, whatever other rules there are |
| Filter.DropByEmail | crates/slack-connector-core/src/filter.rs:65-88 | A single drop rule for an actor's address drops exactly that actor's events |
| Filter.DropBySeverity | crates/slack-connector-core/src/filter.rs:65-76 | Rules see the mapped severity: a drop rule for high ones drops exactly the events that are high after mapping |
| Filter.AllowByAction | crates/slack-connector-core/src/filter.rs:78-85 | An allow-list of the audit source lets exactly the listed action of that source through and leaves the others alone |
| Dedup.DedupCache.constructor | crates/slack-sources/src/dedup.rs:13-16 | The cache starts empty and holds at least one id |
| Dedup.DedupCache.Record | crates/slack-sources/src/dedup.rs:19-26 | True exactly when the id is not among the last accepted ones that fit the capacity, and then it is accepted; never more than the capacity is kept |
| Dedup.AcceptSeparated | crates/slack-sources/src/dedup.rs:19-26 | Each call keeps equal acceptances at least the capacity apart |
| Dedup.AcceptAllSeparated | crates/slack-sources/src/dedup.rs:19-26 | Over any sequence of calls two acceptances of an id have at least as many others between them as the cache holds |
| Dedup.AcceptDistinct | crates/slack-sources/src/dedup.rs:19-26 | While no more different ids turn up than the cache holds, each is accepted exactly once |
| StateStore.ParsePrint | crates/slack-sources/src/audit.rs:46-50 | A 64-bit integer printed in decimal parses back to itself |
| StateStore.DecimalText | crates/slack-sources/src/audit.rs:46-50 | The text is decimal with an optional sign; an empty one or one with other characters is unreadable |
| StateStore.SetThenGet | crates/slack-sources/src/state.rs:32-51 | A date cursor reads back as the number that was stored, whatever the store held before |
| Audit.AuditPoller.constructor | crates/slack-sources/src/audit.rs:32-43 | A new process starts with the persisted store and an empty dedup cache |
| Audit.AuditPoller.TakeEntry | crates/slack-sources/src/audit.rs:101-125 | One entry is skipped, handed over or refused, with the id remembered before the channel is asked |
| Audit.AuditPoller.TakePage | crates/slack-sources/src/audit.rs:101-125 | A page ends at the first refusal; otherwise the newest date covers the whole page |
| Audit.AuditPoller.PollOnce | crates/slack-sources/src/audit.rs:45-153 | A poll does what the reply-by-reply specification says, for every script of pages, rate limits, errors and failed writes |
| AuditRuns.EntryCovers | crates/slack-sources/src/audit.rs:110-125 | On an open channel an entry that is not refused has been handed over, now or earlier, or has no id |
| AuditRuns.PageCovers | crates/slack-sources/src/audit.rs:101-125 | On an open channel a page that is not refused leaves all its entries handed over and the stored cursors alone |
| AuditRuns.ReadingAllIsSafe | crates/slack-sources/src/audit.rs:136-140 | A listing read to its end allows the date cursor to move to its newest date without passing anything |
| AuditRuns.StepKeeps | crates/slack-sources/src/audit.rs:45-153 | Every page, failure, resume, restart and growth of the log keeps the invariant behind no-loss, as does a poll that starts on an open channel; one on a closed channel does not |
| AuditRuns.NoLoss | crates/slack-sources/src/audit.rs:45-153 | Over every run whose polls start on an open channel, the date cursor never passes an entry that was not handed over and is dated at or after what the first polls asked for (`ColdStart.FirstIs`) |
| AuditRuns.CompletedPollHands | crates/slack-sources/src/audit.rs:45-153 | A completed poll has handed over, now or earlier, every entry with an id that was in the log when its listing was made and is dated at or after the date the listing was asked for |
| AuditRuns.SentIsLogged | crates/slack-sources/src/audit.rs:122-130 | In every run each event handed over carries the id, the date (0 if there is none) and the JSON of an entry of the log |
| AuditRuns.PassedIsCarried | crates/slack-sources/src/audit.rs:45-153 | If ids are not used twice, each entry that the date cursor has passed was handed over as the event that carries exactly its id, date and JSON |
| ColdStart.PollAsks | crates/slack-sources/src/audit.rs:46-63 | Every request asks for what is dated from the stored date on or, if none was stored when the poll started, from 86,400 seconds before that |
| ColdStart.ListingAsks | crates/slack-sources/src/audit.rs:46-66 | The listing that a stored page cursor goes on with was asked for so by the poll that began it |
| ColdStart.FirstIs | crates/slack-sources/src/audit.rs:46-51 | Without a stored date, the promise starts a day before the first poll that completes or a day before the one whose listing it read, whichever is later; they are the same unless it went on with a stored page cursor |
| ColdStart.PassedAtColdStart | crates/slack-sources/src/audit.rs:51-140 | When a date is first stored, an entry dated from what the listing was asked for on is passed only if it arrived after the listing and is dated before what the completing poll would have asked for |
| ColdStart.ResumedColdStartPasses | crates/slack-sources/src/audit.rs:51-140 | And such an entry is passed: from every state in which a first poll is to go on with an earlier listing, a day after all that the log holds, there is a run that passes it |
| AuditRuns.RunSteady | crates/slack-sources/src/audit.rs:45-52 | In every run the persisted page cursor is one that the server issued, and a poll starts from the stored date |
| AuditRuns.IsPolls | crates/slack-sources/src/audit.rs:45-153 | A run against a server that lists the log is one against a server that may answer anything, so the next three hold of it |
| AuditPolls.CursorMonotone | crates/slack-sources/src/audit.rs:46-52 | Whatever the server answers and whatever the channel does, the stored date never goes back or disappears, and only a completed poll moves it |
| AuditPolls.NoReemission | crates/slack-sources/src/audit.rs:108-115 | Whatever the server answers, a process that has been shown no more ids than the cache holds hands each over at most once, over any number of polls |
| AuditPolls.NoRepeatInWindow | crates/slack-sources/src/audit.rs:108-115 | Whatever the server answers, two hand-overs of one id in one process have at least as many others between them as the cache holds |
| AuditPolls.LimitsChangeNothing | crates/slack-sources/src/audit.rs:71-80 | A poll comes to the same without the answers that were rate limits |
| AuditPolls.RejectionEnds | crates/slack-sources/src/audit.rs:81-91 | A rejected request ends the poll and changes nothing |
| AuditRuns.RefusalLosesIff | crates/slack-sources/src/audit.rs:110-119 | An entry breaks "suppressed means handed over" exactly when it is new, was never handed over, and the channel does not take it |
| AuditRuns.PollingOnLoses | crates/slack-sources/src/audit.rs:117-119 | A run that polls again on a closed channel moves the date cursor past an entry that was never handed over |
| ClosedChannel.ReadTo | crates/slack-sources/src/audit.rs:110-140 | On a closed channel any part of a listing can be read past, entry by entry, with nothing handed over |
| ClosedChannel.CursorRunsAway | crates/slack-sources/src/audit.rs:110-140 | From any idle state on a closed channel polling on can move the date cursor to any date without handing over anything |
| ClosedChannel.ClosedChannelPasses | crates/slack-sources/src/audit.rs:110-140 | The converse of no-loss: from any idle state of any run on a closed channel, each entry not handed over and dated at or after the first cursor can be passed by polling on |
| AccessLogs.AccessLogsPoller.constructor | crates/slack-sources/src/access_logs.rs:34-47 | A new poller starts from the persisted store |
| AccessLogs.AccessLogsPoller.TakePage | crates/slack-sources/src/access_logs.rs:83-97 | A page forwards exactly its newer logins, notes whether there were any, and ends at a refusal |
| AccessLogs.AccessLogsPoller.PollOnce | crates/slack-sources/src/access_logs.rs:49-112 | A poll does what the reply-by-reply specification says, with floor clamp, early stop and all-or-nothing cursor |
| AccessRuns.NothingBelow | crates/slack-sources/src/access_logs.rs:79-104 | A poll stops only where nothing newer than its cursor is left below, for each of its three ways to stop |
| AccessRuns.CoverHanded | crates/slack-sources/src/access_logs.rs:62-106 | The ranges of consecutive pages leave no gap, however far the list has shifted between them |
| AccessRuns.PageTaken | crates/slack-sources/src/access_logs.rs:83-97 | After a page the covered range has no unforwarded newer login, and the newest date seen lies inside it |
| AccessRuns.CompletedPollForwards | crates/slack-sources/src/access_logs.rs:51-110 | In every run a completed poll has forwarded every login present at its first request and newer than both the floor it was started with and the stored cursor it met, despite page shifting, the early stop and logins of one second |
| AccessRuns.HandsOverDue | crates/slack-sources/src/access_logs.rs:83-97 | A page hands over, in its order and once each, the logins newer than both that floor and that cursor: all of them unless one is refused, and no other |
| AccessRuns.HandedIsNewer | crates/slack-sources/src/access_logs.rs:51-88 | Over every run each login handed over is dated after both the floor and the cursor of its poll; without a date it counts as dated 0 |
| AccessRuns.GoesOnIff | crates/slack-sources/src/access_logs.rs:99-106 | The next page is requested exactly if this one had such logins, all were taken, and the server counts more pages |
| AccessRuns.PagingBlock | crates/slack-sources/src/access_logs.rs:99-104 | A page without paging block is taken for the only one, one that does not say which it is for the first |
| AccessRuns.FailureEnds | crates/slack-sources/src/access_logs.rs:62-76 | A failed request ends the poll and changes nothing |
| AccessRuns.CompletedPollMarks | crates/slack-sources/src/access_logs.rs:90-110 | A completed poll that stores its date has handed over nothing newer than the cursor it leaves |
| AccessRuns.StepKeeps | crates/slack-sources/src/access_logs.rs:49-112 | Every page, failure, restart and arrival keeps the invariant of the poller, logins of one second included |
| AccessRuns.StepKeepsSafe | crates/slack-sources/src/access_logs.rs:49-112 | No step passes a login, as long as arrivals are newer than the cursor and, past the first page of a poll, newer than all other logins |
| AccessRuns.NoLoss | crates/slack-sources/src/access_logs.rs:49-112 | Over every run with such arrivals the cursor never passes a login, newer than the first cursor and all backfill floors, that was not handed over |
| AccessRuns.UnguardedIsPassed | crates/slack-sources/src/access_logs.rs:86-110 | The converse: from every state of every run, any other arrival that is new to the list and not to be skipped can be passed by the cursor without being handed over, and without any entry turning up twice |
| AccessRuns.PassedForGood | crates/slack-sources/src/access_logs.rs:86-88 | A login that the cursor has passed is never handed over any more |
| AccessRuns.CursorMonotone | crates/slack-sources/src/access_logs.rs:108-110 | Over every run the stored date never goes back, and only a completed poll moves it |
| AccessRuns.TieIsLost | crates/slack-sources/src/access_logs.rs:86-88 | A run in which a login in the second of the last one forwarded is never forwarded |
| EventsSocket.ForwardPayload | crates/slack-sources/src/events_socket.rs:56-76 | A payload is handed on exactly when its id, or the made-up one, is new to the cache; then the id is remembered |
| EventsSocket.ReceiveOne | crates/slack-sources/src/events_socket.rs:136-181 | What one frame does: acknowledgement first, then the event, and which frames end the connection |
| EventsSocket.PumpMessages | crates/slack-sources/src/events_socket.rs:128-183 | The message loop handles frames up to the first that ends the connection and no further |
| EventsSocket.Run | crates/slack-sources/src/events_socket.rs:84-189 | The whole source, with pauses of 2^j seconds up to 30 after j failures in a row and one second after a connection, and one cache for all connections |
| EventsSocket.RunKeeps | crates/slack-sources/src/events_socket.rs:84-189 | Whatever single frames and pauses keep holds at every point of every run, over any number of connections |
| EventsSocket.RunRefinesDedup | crates/slack-sources/src/events_socket.rs:84-189 | The ids let through over all connections are those that one dedup cache accepts of the ids that the frames read bring, in order |
| EventsSocket.NoRepeatInWindow | crates/slack-sources/src/events_socket.rs:63-66 | No id is let through twice within the dedup window, across reconnects |
| EventsSocket.OfferedIffBrought | crates/slack-sources/src/events_socket.rs:148-168 | An id is offered to the channel exactly when some frame read brings an event with it whose acknowledgement was sent, or that came without envelope; a failed acknowledgement does not spoil the redelivery |
| EventsSocket.ExactlyOnce | crates/slack-sources/src/events_socket.rs:84-189 | On an open channel, and while the frames read bring no more different ids than the cache holds: each id that an events frame brings, its own or the made-up one, is put into the channel exactly once, with the payload of such a frame, and nothing else is |
| EventsSocket.OfferedOnce | crates/slack-sources/src/events_socket.rs:84-189 | The same without the open channel: each such id is offered to it exactly once, and no other |
| EventsSocket.OffersAreFrames | crates/slack-sources/src/events_socket.rs:56-76 | At every point of every run the offers to the channel are of frames read, in order and one each, with the frame's envelope, id and payload; taken exactly if the channel was open then |
| EventsSocket.RepliesToAll | crates/slack-sources/src/events_socket.rs:134-177 | Every envelope read is acknowledged, every ping answered and shutdown closes the connection, once each and in order, and nothing else is written |
| EventsSocket.ReadUntilClosed | crates/slack-sources/src/events_socket.rs:128-183 | Of a connection the frames are read up to the first that closes it: shutdown, a read error, the end, a close frame, a disconnect request, a failed acknowledgement or a failed pong |
| EventsSocket.EndsOnlyByShutdown | crates/slack-sources/src/events_socket.rs:95-189 | The source goes on to a further connection exactly until it meets the shutdown signal |
| EventsSocket.PausesDouble | crates/slack-sources/src/events_socket.rs:86-126 | The pause is one second after a connection and a first failure, and doubles from failure to failure up to thirty |
| EventsSocket.PausesAfterRounds | crates/slack-sources/src/events_socket.rs:99-189 | There is such a pause after every round but one that shutdown ends first |
| EventsSocket.InChannelIff | crates/slack-sources/src/events_socket.rs:63-72 | The channel gets all ids that the cache lets through exactly if every frame read whose id is new to the cache by then meets an open channel |
| EventsSocket.AcknowledgedAndDropped | crates/slack-sources/src/events_socket.rs:63-72 | An event offered to a closed channel is acknowledged, lost, and suppressed when it is delivered again |
| EventsSocket.AckBeforeForward | crates/slack-sources/src/events_socket.rs:148-168 | At every point of every run each enveloped event offered to the channel directly follows its acknowledgement |
| EventsSocket.FailedAckIsHarmless | crates/slack-sources/src/events_socket.rs:152-155 | A failed acknowledgement leaves the cache alone, forwards nothing and ends the connection |
| EventsSocket.OpenChannelTakesAll | crates/slack-sources/src/events_socket.rs:70-72 | While the channel is open no event that passed the cache is dropped |
| Supervisor.DelayClosedForm | crates/slack-connector-cli/src/supervisor.rs:194-221 | The pause is 2^j seconds, j runs after the last stable one, at most 300 |
| Supervisor.PausePays | crates/slack-connector-cli/src/supervisor.rs:212-220 | A minute per restart is paid by its pause and the credit it uses up |
| Supervisor.RestartRate | crates/slack-connector-cli/src/supervisor.rs:189-222 | At any time of any history, sixty seconds times the restarts is at most the elapsed time plus 297 seconds |
| Supervisor.RestartRateIsTight | crates/slack-connector-cli/src/supervisor.rs:194-196 | Six instant failures meet that bound |
| Supervisor.RunSourceSupervised | crates/slack-connector-cli/src/supervisor.rs:189-222 | The loop pauses as specified, stops at the first shutdown it sees, and keeps to the restart bound |
| Pipeline.StepAccounted | crates/slack-connector-cli/src/supervisor.rs:77-104 | Every step of a source, the dispatcher, replay or shutdown keeps each accepted event in exactly one place |
| Pipeline.EndToEnd | crates/slack-connector-cli/src/supervisor.rs:58-104 | In every reachable state each accepted event is queued, among ten thousand at most, in hand, filtered, delivered, spooled or lost with an error; the sink is called for the events that pass the filter, in order; spooled ones are on disk or were sent (whole runs) |
| Pipeline.CountsAddUp | crates/slack-connector-cli/src/supervisor.rs:78-102 | The four counts of finished events add up to the events received |
| Pipeline.StepWatched | crates/slack-connector-cli/src/supervisor.rs:199-221 | No step consumes a shutdown notification before its task stops |
| Pipeline.ShutdownDescends | crates/slack-connector-cli/src/supervisor.rs:106-112 | After the signal every step of a source or the dispatcher brings the end nearer |
| Pipeline.ShutdownNeverStuck | crates/slack-connector-cli/src/supervisor.rs:205-219 | After the signal some such step is possible until the dispatcher has ended, without waiting for a pause to run out: the signal interrupts every pausing source, so no wake-up is lost |
| Pipeline.EmitNeverStuck | crates/wazuh-sinks/src/unix_socket.rs:110-114 | An emit that has to spool its event can do so at once, or replay holds the lock and can make a step towards its release |
| Pipeline.LockIsReleased | crates/wazuh-sinks/src/unix_socket.rs:172-186 | Every step of replay while it holds the spool lock brings its release nearer |
| Pipeline.GracefulEnd | crates/slack-connector-cli/src/supervisor.rs:72-112 | The dispatcher ends only when all sources have stopped and the channel is drained; after the signal no source is started more than once |
| Pipeline.FlushComesLast | crates/slack-connector-cli/src/supervisor.rs:78-103 | The sink is flushed exactly once, after the last emit |
| Pipeline.ConnectorPayloads | crates/slack-connector-cli/src/supervisor.rs:81-83 | In the configured connector the payloads are the wire format of the filter's result and fit the spool's framing |
| Crashes.PollerRun | crates/slack-sources/src/audit.rs:45-153 | What the audit poller does in all processes together is one run against the growing log, with a restart where a process ends |
| Crashes.StepPlaced | crates/slack-connector-cli/src/supervisor.rs:58-104 | Every poll, every step of the pipeline and every end of a process leaves each event that a source sent in exactly one place |
| Crashes.EverythingPlaced | crates/slack-connector-cli/src/supervisor.rs:58-104 | Over any number of processes that end anyhow, the events sent by all sources are, counted, those dealt with, those dropped with a process, and those in the present channel |
| Crashes.EverythingKept | crates/wazuh-sinks/src/unix_socket.rs:42-58 | What the processes have spooled is, counted, what they took off the disk after sending it and what is still there, if the first one starts over segments as a sink leaves them |
| Crashes.PassedIsPlaced | crates/slack-sources/src/state.rs:6-8 | An entry that the date cursor has passed was handed over, and its event was dealt with by a dispatcher, dropped with a process, or is on its way |
| Crashes.PassedIsArrived | crates/slack-sources/src/state.rs:6-8 | Dealt with means filtered, lost with an error, received by analysisd or on disk, over any number of processes |
| Crashes.NothingDroppedIff | crates/slack-connector-cli/src/supervisor.rs:58-104 | Nothing is dropped exactly if every process ends with nothing in the channel and nothing in the dispatcher's hand |
| Crashes.PassedAndDropped | crates/slack-sources/src/state.rs:6-8 | A cursor does not move only after the sink has emitted: a process ends with an event in the channel whose entry the cursor has passed, and nothing of it is left |
| Dispatcher.DispatchOne | crates/slack-connector-cli/src/supervisor.rs:78-101 | One received event is filtered, delivered, spooled or lost, and exactly one counter and at most one history of the sink say so |
| Dispatcher.Dispatch | crates/slack-connector-cli/src/supervisor.rs:77-104 | Over a whole batch the counters and the sink's own history agree about the fate of every event, in order |
| Dispatcher.DispatchConnector | crates/slack-connector-cli/src/supervisor.rs:77-104 | The same for the configured connector, with the rule engine as filter and the wire format as payload |
| JsonFile.LineIsOne | crates/wazuh-sinks/src/json_file.rs:56-57 | The encoded event is one line: a line feed at its end and none before it, in UTF-8 |
| JsonFile.DecodeEncode | crates/wazuh-sinks/src/json_file.rs:56-57 | A UTF-8 decoder after RFC 3629 gives back every text that is encoded |
| JsonFile.LineSays | crates/wazuh-sinks/src/json_file.rs:56-57 | Up to its line feed a line is UTF-8 for JSON that reads as the event |
| JsonFile.JsonFileSink.constructor | crates/wazuh-sinks/src/json_file.rs:20-33 | An existing file is continued and counts towards the limit, which is the configured mebibytes in bytes, saturating |
| JsonFile.JsonFileSink.MaybeRotate | crates/wazuh-sinks/src/json_file.rs:35-50 | Rotation happens exactly when due and nothing before the rename fails; the byte counter stays the length of the file |
| JsonFile.JsonFileSink.Emit | crates/wazuh-sinks/src/json_file.rs:55-63 | Which files there are after an emission, for every combination of failures, and success exactly when the line was appended |
| JsonFile.EmissionBytes | crates/wazuh-sinks/src/json_file.rs:35-63 | One emission adds the bytes of its line if it succeeds and loses exactly those of a file that the rename overwrites |
| JsonFile.Balance | crates/wazuh-sinks/src/json_file.rs:35-63 | Over every run the bytes on disk and those of overwritten files are together what was there at first and what was emitted |
| JsonFile.Conservation | crates/wazuh-sinks/src/json_file.rs:35-63 | With a later stamp for every rotation, rotated files in file-name order and then the active file are what was there followed by all emitted lines |
| JsonFile.ConservationInTurn | crates/wazuh-sinks/src/json_file.rs:35-63 | With a new stamp for every rotation, in whatever order: the files in order of rotation and then the active file are what the active file held followed by all emitted lines, and files rotated before are untouched |
| JsonFile.NothingLostIff | crates/wazuh-sinks/src/json_file.rs:39-42 | For any clock and any failures, the bytes on disk are those there at first and those emitted exactly when no rotation takes the name of a non-empty rotated file |
| JsonFile.SameSecondLoses | crates/wazuh-sinks/src/json_file.rs:39-42 | Three lines that fill a file each within one second: the first one is gone |
| JsonFile.RotationBounds | crates/wazuh-sinks/src/json_file.rs:35-63 | No line is split, and every rotated file holds at least the limit and less than the limit plus its last line, for a sink started on an empty or well-formed short file |
| JsonFile.InheritedRotationBounds | crates/wazuh-sinks/src/json_file.rs:20-63 | The same over any inherited file, too long or unterminated, for all rotated files but the inherited one itself |
| JsonFile.MissingIff | crates/wazuh-sinks/src/json_file.rs:42-47 | The active file goes missing exactly by a rotation that renames it and cannot open a new one |
| JsonFile.WritableIff | crates/wazuh-sinks/src/json_file.rs:55-63 | A line can still be written, if every call succeeds, exactly while the active file is there |
| JsonFile.ZeroNeverRotates | crates/wazuh-sinks/src/json_file.rs:36-38 | A limit of zero switches rotation off and keeps every line |
| JsonFile.FailedReopenIsFinal | crates/wazuh-sinks/src/json_file.rs:42-47 | After a rotation that could not open a new file every later emission fails and changes nothing |
| Interpolate.FindLeftmost | crates/slack-connector-core/src/config.rs:245-248 | The scanner finds the leftmost match of the pattern and its one possible end |
| Interpolate.OnePlaceholder | crates/slack-connector-core/src/config.rs:245 | What stands between the braces is expanded exactly if it is made of capital letters, digits and underscores and does not begin with a digit |
| Interpolate.InterpolateEnv | crates/slack-connector-core/src/config.rs:244-259 | The loop with its output buffer computes the left-to-right replacement |
| Interpolate.ParseShows | crates/slack-connector-core/src/config.rs:248-257 | Literal pieces and placeholders join up to the input, and no literal hides a placeholder |
| Interpolate.ParseUnique | crates/slack-connector-core/src/config.rs:248-257 | A text is made of such pieces in one way only |
| Interpolate.ExpansionIsSubstitution | crates/slack-connector-core/src/config.rs:244-259 | Expanding a text is substituting into its one template, so values are never scanned again |
| Interpolate.FailsIffMissing | crates/slack-connector-core/src/config.rs:251-252 | The call fails exactly when some placeholder of the input names a variable that is not set |

## Left out

- HTTP, TLS, WebSocket, SQLite, metrics, tracing, CLI, tier probe, health endpoint and
  Docker: foreign calls or display; their results appear as answers in scripts or steps.
- `web_inventory.rs`, `probe.rs`, `health.rs` and the stdout sink: counting or single
  branches, which would only add easy members.
- A failing `StateStore::get`, which ends a poll before it starts and changes nothing.
- The spool size cap: the code only logs a warning, so there is no bound to prove.
- Disk and socket internals: an append, whole-file write, rename or removal either happens
  completely or not at all, a directory listing is a snapshot, a datagram is delivered
  exactly when its send succeeds. Buffered writes and power loss are not modelled.
- Time stamps in file names are ordered numbers and their fixed-width text is not modelled;
  the nanosecond clock behind a made-up event id is its decimal text.
- Files in the spool directory with other names than segments, and segments that are not
  UTF-8, which replay cannot read (`Open(false)` covers the failed read).
- Regular expressions in filter rules are an uninterpreted predicate, false for a pattern
  that does not compile; the text of a matched object has its fields in the event's order,
  while the code's map may sort them.
- JSON numbers are kept as numeral text. The readers of JSON and UTF-8 are reference decoders
  for what the sinks write; the code's own parsing of YAML and JSON is not modelled.
- How long a rate-limited audit request waits; only that it is repeated
  (`AuditPolls.LimitsChangeNothing`).
- Poll intervals and the loops around `poll_once`: a start of a poll is a step that may
  come at any time.
- `u32` wrap-around of the access-log page number, which takes four billion pages.
- How the fields of an access-log or events payload map to a normalized event; the pollers'
  theorems are about the entries themselves.
- Threads inside one method: the sink's methods interleave with other emitters where they
  do not hold the spool lock (`Interleave`); arbitrary interleaving is in `Spool`.
- AuditRuns.NoLoss: takes the log to be append-only with dates that do not go back (entries
  without a date are allowed), a request without a cursor to list what is dated from
  `oldest` on, and a cursor to continue the listing that it came with, which may be the same
  or another one each time a page is requested; a page of which something is read does not
  come with the cursor that it was requested by. This is Slack's side of the contract.
- Crashes.PassedIsPlaced: takes polls to start on an open channel, which closes after all
  sources have stopped.
- Crashes.PassedIsArrived: takes in addition the first process to start over segments as a
  sink leaves them; over others, `Spool.NothingLostIff` says when the spool keeps what it is
  given.
- AccessRuns.UnguardedIsPassed: speaks about a login that is new to the list, as two equal
  entries cannot be told apart.
- Pipeline.ShutdownDescends: takes running sources to return after finitely many more
  events, as the number of those events is part of the state of a running source.
