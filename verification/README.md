# Verification of mooproxy

mooproxy sits between a MUD or MOO server and the one client that is logged in to it. Bytes from
the server become lines, lines move through a chain of queues, and they leave as bytes to the
client and to a log file, whether or not a client is attached. This project models that chain, the
login of clients, the recall of history, the MCP session and the reconnect timer, and proves what
they are for.

Queues, buffers and parallel arrays are updated in place, as in the program: a class per group of
fields, methods with the loops of the C functions, each proved against a function on values. What
holds of whole runs is proved about these functions. Sockets, files, `crypt`, the clock and what
people type are inputs or nondeterministic choices: a write takes any part of what it is given or
fails, a read brings any chunk that fits, and events come in any order, or, where it matters, in
the order of the passes of the main loop.

| files | about |
|---|---|
| `Lines.dfy` | the doubly linked line queues |
| `Codec.dfy`, `Flush.dfy`, `RoundTrip.dfy` | bytes to lines, lines to bytes, and both |
| `Text.dfy`, `Sequences.dfy` | C strings and copying filters; facts about sequences |
| `Logger.dfy`, `LogProgress.dfy`, `LogBook.dfy` | the log router on values; that it gets things done; its fields |
| `Pipeline.dfy`, `PipelineInvariant.dfy`, `PipelineRun.dfy`, `PipelineTheorems.dfy`, `PipelineLog.dfy`, `PipelineClient.dfy` | the path of a line: steps, what they keep, passes and runs, theorems, what the log gets, what a client gets |
| `World.dfy`, `MainLoop.dfy` | the fields of a world; the main loop on them |
| `Matcher.dfy`, `Regex.dfy`, `Recall.dfy` | the search matcher, what it means, and what /recall shows |
| `Auth.dfy`, `AuthTheorems.dfy`, `AuthEvents.dfy`, `AuthTurns.dfy`, `AuthLogin.dfy`, `SlotTable.dfy`, `Door.dfy`, `Privileged.dfy` | the login of clients: steps, theorems, single events, passes of the main loop, who is let in, the parallel arrays, the fields, the address list |
| `McpText.dfy`, `McpRoundTrip.dfy`, `Mcp.dfy`, `McpStreams.dfy`, `McpTracker.dfy` | the key of an MCP message, the session, what is sent when, its fields |
| `Reconnect.dfy` | the back-off of reconnects |

A byte is a `char`; nothing depends on its upper bound. Line identities, histories (`past`, `got`,
`submitted` and the like) and the byte string that a file descriptor has accepted are not in the
program; they are there to say which line or byte went where.

## Results that differ from what one may expect

- A line that `flush_buffer` sends comes back from `buffer_to_lines` exactly if it has no newline,
  does not start with a carriage return and is at most NET_BBUFFER_LEN - 2 long
  (`RoundTrip.LineRoundTrip`); queues of lines come back exactly if all their lines do
  (`RoundTrip.EndToEnd`).
- The search matcher stops at the first empty piece. It decides the expression on all lines exactly
  for the search texts in which nothing follows an empty piece (`Regex.MatcherExact`); without a
  leading or doubled `.*` that is always so (`Regex.PlainTextAgrees`), and for all other texts there
  is a line on which it is wrong (`Regex.UntidyDisagrees`).
- `extract_mcpkey` ends a quoted value at its first space and keeps its escapes. A key comes back
  exactly if it needs neither (`McpRoundTrip.KeyRoundTrip`, with an example in
  `McpRoundTrip.SpaceIsLost`).
- A logged line is whole in its file exactly if it fits in NET_BBUFFER_LEN with its timestamp
  (`Logger.LoggedWhole`); what does not fit is cut off and not counted. A server line that fills the
  receive buffer loses eleven characters to the timestamp (`Logger.LongLineCut`).
- The copy of a possibly new line that a new client gets is exact, whatever was in memory, exactly
  if the line has no NUL but perhaps as its last character (`Pipeline.DuplicateExact`).
- Once a login has been let in, others are compared with its text and not with the hash, until the
  hash is set anew (`AuthLogin.LoginDecided`). If two texts match the same hash, the second is turned
  away (`AuthLogin.CollisionRefused`); if no two do, a login is let in exactly if it matches
  (`AuthLogin.WelcomeIfMatches`).

## Model

| member | source | states |
|---|---|---|
| `Lines.Line.constructor` | line.c:33-47 | a new line has its text and time, no flags, and is in no queue |
| `Lines.Linequeue.Append` | line.c:123-147 | the line becomes the last one; links, count and size stay right |
| `Lines.Linequeue.Remove` | line.c:165-186 | a line anywhere in the queue goes, the others keep their order; links, count and size stay right |
| `Lines.Linequeue.Pop` | line.c:151-154 | the first line or nothing |
| `Lines.Linequeue.PopEnd` | line.c:158-161 | the last line or nothing |
| `Lines.Linequeue.Merge` | line.c:190-217 | all lines of one queue go behind those of another, which takes them over; the first is empty |
| `Lines.Linequeue.Clear` | line.c:105-119 | the queue is empty and its lines are in no queue |
| `Lines.QueuesDisjoint` | line.c:96-217 | distinct well-formed queues share no line |
| `Lines.MoveHead` | log.c:149-152 | moving heads from queue to queue keeps both well formed and the order of the lines |
| `Lines.TotalCostRemove` | line.c:165-186 | the size of a queue falls by the cost of the line that is removed |
| `Codec.ChunkIndependence` | misc.c:445-512 | for any stream and any reads, lines and leftover are those of a splitter that gets one byte at a time |
| `Codec.RestIsPending` | misc.c:456-503 | the leftover has no newline and leaves room, so that resuming the scan at the offset is sound |
| `Codec.ChopExact` | misc.c:481-496 | a line loses no more than one \r at either end |
| `Codec.LinesFit` | misc.c:447-504 | no line is longer than the buffer |
| `Codec.Scan` | misc.c:447-504 | the lines found in the buffer are those of the byte-at-a-time splitter, and what is left from `start` has no newline and is not a full buffer |
| `Codec.BufferToLines` | misc.c:445-512 | the queue gets exactly the lines that the byte-at-a-time splitter makes of pending and new bytes; the leftover is at the front and its length is returned |
| `Codec.ReceiveLines` | network.c:1013-1039 | a read into the rest of a receive buffer adds exactly the lines that it completes to the queue, and what is pending afterwards has no newline |
| `Codec.TakeLine` | misc.c:481-496 | a line loses one \r at its start and one at its end, in this order |
| `Flush.PackLine` | misc.c:529-561 | the buffer gets prepend-string, line (cut at NET_BBUFFER_LEN), newline and append-string; with strings that fit in the slack it never overflows |
| `Flush.Pack` | misc.c:526-568 | the lines that fit leave the queue in order, their encoding goes behind the buffered bytes, lines without LINE_NOHIST go to the history queue, and with an empty buffer at least one line is taken |
| `Flush.WriteOut` | misc.c:570-592 | what is written goes to the peer and the rest moves to the front: accepted bytes and buffer together do not change |
| `Flush.FlushBuffer` | misc.c:516-597 | for every write behaviour: accepted bytes and buffer are the old ones and the encoding of the lines taken; the history queue gets exactly those it should, in order; success means nothing is left, and anything else that the last write, of exactly what is left, returned 0 or -1, while the next line did not fit; it is a failure rather than congestion exactly if that write returned -1 and not because of EAGAIN; it terminates |
| `RoundTrip.LineRoundTrip` | misc.c:445-597 | a line sent with network newlines is received as itself if and only if it is safe |
| `RoundTrip.WireRoundTrip` | misc.c:445-597 | lines received in any chunks are the lines sent if and only if all are safe |
| `RoundTrip.FlushMore` | misc.c:516-597 | a call of `flush_buffer` is a step of the runs below |
| `RoundTrip.FlushRunConserves` | misc.c:524-596 | over any run of flushes under any write schedule: accepted bytes, buffer and encoding of the queue are together the encoding of all lines ever queued |
| `RoundTrip.EndToEnd` | misc.c:445-597 | queues drained under any write schedule and read in any chunks give exactly the lines queued, in order, if and only if all are safe |
| `RoundTrip.FramedReceived` | misc.c:529-561 | a client for which strings are put around lines reads each line with the one string before it and the other at the start of what follows |
| `Text.StrcpyNobell` | misc.c:732-747 | the copy is the C string without BEL |
| `Text.NoBellExact` | misc.c:736-741 | no BEL is left and every other character is kept, as often as it was there |
| `Text.StrcpyNoansi` | misc.c:692-728 | the copy is the C string without escape sequences and control characters |
| `Text.NoAnsiPrintable` | misc.c:696-724 | the copy is printable, is not longer, and printable text is copied as it is |
| `Text.StrippedIsVisible` | misc.c:696-724 | from a text made of visible and control characters and escape sequences, the last of which may be unfinished, exactly the visible characters are left, in order |
| `Text.MadeOfParts` | misc.c:696-724 | every text is made of these |
| `Text.LowerSame` | recall.c:899-901 | lowering makes two characters equal if and only if they are the same or the same letter in either case, by their codes |
| `LogBooks.LogBook.LogLine` | log.c:44-85 | the line is queued for the log, stripped and with its timestamp |
| `LogBooks.LogBook.Deinit` | log.c:362-379 | a file is closed only if nothing is left in the buffer |
| `LogBooks.LogBook.Init` | log.c:285-358 | a file is opened for the day of the first line that waits, or an error is noted |
| `LogBooks.LogBook.WriteOutLog` | log.c:383-400 | the bytes the file takes are those buffered and those of the lines that left `log_current`, in order; the rest stays |
| `LogBooks.LogBook.FlushClientLogqueue` | log.c:89-160 | refines the router: which day is written, when a file is closed, the day is switched, a file is opened; if nothing waits for the open file afterwards, it has taken all it was offered |
| `LogBooks.LogBook.TrimLogQueues` | world.c:493-511 | refines the trimming of the log queues |
| `Logger.FlushLogKeeps` | log.c:89-160 | buffer and `log_current` hold lines of the current day only, an open file is that of the current day, files and buffer hold the encoding of the lines handed over, no line is lost uncounted |
| `Logger.TrimLogExact` | world.c:493-511 | the shortest newest part of `log_queue` goes, then, only if it is empty, of `log_current`; each is counted; the budget holds |
| `Logger.TrimLogKeeps` | world.c:493-511 | trimming keeps the router's invariant |
| `Logger.LogRouting` | log.c:44-160 | over any run: each day's file, with what is buffered for it, is the encoding of lines of that day in the order of their submission, and no part of a line is missing once its day is over; these lines are as they were logged if and only if none is longer than NET_BBUFFER_LEN, where `flush_buffer` cuts it; submitted lines are written, waiting or counted as dropped |
| `LogProgress.FlushBrings` | log.c:120-159 | a flush whose file takes all it is offered leaves nothing for the open file and loses no line; less waits than before, or, if the day was over, its file is closed and it is the turn of the day of the next line |
| `LogProgress.NextFlushBrings` | log.c:128-159 | the flush after the end of a day hands lines over |
| `LogProgress.LogDrains` | log.c:89-160 | after any run, when files take all they are offered, 2n + 2 flushes empty the queues and the buffer, n being the lines in `log_queue`; then the file of each day is the encoding of all lines of that day that were submitted and not dropped, in order |
| `LogProgress.FailureNoted` | log.c:154-159 | an error is noted exactly if the file could not be opened or has not taken everything |
| `LogProgress.IdleCloses` | log.c:91-119 | with nothing to log, the file is closed exactly if logging is off or its day is not today, and an error is over |
| `Logger.AllWhole` | misc.c:533-538 | lines are written as they were logged if and only if none is longer than NET_BBUFFER_LEN |
| `Logger.LoggedWhole` | log.c:49-75 | a server line is whole in its file if and only if its stripped text fits in NET_BBUFFER_LEN with its timestamp, so always if there is none; otherwise just the end that does not fit is lost |
| `Logger.FullLineCut` | log.c:62-67 | a printable line that fills the receive buffer loses its last eleven characters to the timestamp |
| `Logger.LongLineCut` | log.c:62-67 | the server can send such a line: one of NET_BBUFFER_LEN times the same letter |
| `PipelineRun.TrimExact` | world.c:465-488 | the shortest oldest part of history goes, then of the inactive lines only if history is empty, then of the buffered lines only if both are empty; the drop counters rise by exactly that; the budget holds |
| `PipelineRun.PassKeeps` | mooproxy.c:209-316 | a pass of the main loop keeps what holds between passes, and without /forget it loses no server line unless the budget is exceeded |
| `PipelineRun.RecallAndPassKeeps` | world.c:516-628 | passing lines to a new client neither loses nor reorders a server line, and nothing is buffered afterwards |
| `PipelineClient.PromotionShows` | world.c:516-628 | the lines queued for a new client, apart from what mooproxy says then, are: the last context_lines lines of the history without BEL, then a copy of each inactive line with its text up to a NUL and its time, both flagged as recalled, then the buffered lines themselves; each kind and each loss is announced |
| `PipelineClient.LoginsShown` | mooproxy.c:226-311 | in every such pass of every run, these lines follow what was queued before, and all of it has gone to the client or waits in `client_txqueue`, in order |
| `Pipeline.DuplicateExact` | line.c:60-77 | a copy made by `line_dup` is the text whatever was in memory if and only if no NUL is in the text before its last character |
| `PipelineRun.RunKeeps` | mooproxy.c:209-316 | so does every run |
| `PipelineTheorems.ServerLinesInOrder` | mooproxy.c:235-309 | between the passes of any run, history, inactive, tx, buffered, to and rx queue hold a contiguous suffix of the regular lines the server sent, in order, each once; the tx queue or the buffered lines are empty |
| `PipelineTheorems.NothingLost` | mooproxy.c:209-316 | after any run whose passes neither forget the history nor exceed the budget, these queues hold all regular lines that the server sent, in order, each once |
| `PipelineTheorems.EachLineOnce` | mooproxy.c:235-309 | no line but a copy is in two places; copies and lines flagged LINE_NOHIST are never in the history |
| `PipelineClient.ArriveOrder` | mooproxy.c:226-272 | what is queued for the client in a pass: what the network brought about, the messages of the clock, all lines of the server with their texts and times, MCP lines flagged as such, and the answers to the client, in this order |
| `PipelineClient.TrafficSays` | mooproxy.c:226-233 | messages about connections are queued, all and in order; a lost client is gone |
| `PipelineClient.ReadGives` | misc.c:481-502 | lines that are read have their text, the time of the read and no flags |
| `PipelineClient.SendGives` | mooproxy.c:274-309 | all lines queued for the client but those for the log only: with a client, as many as it takes go to it, those without LINE_NOHIST become inactive lines, and the others stay queued; without one, those without LINE_DONTBUF are buffered; in order, and no other queue changes |
| `PipelineClient.QueuesExact` | misc.c:562-567 | no line that should be kept for the history or buffered is left out, and no other is taken |
| `PipelineClient.LateMessages` | mooproxy.c:303-311 | what the log and the flags give rise to is queued for the next pass |
| `PipelineRun.FlagsExact` | mooproxy.c:322-350 | activation, and nothing else, makes inactive lines history, behind the lines that are there; a client that should quit is gone |
| `PipelineRun.ForgetExact` | command.c:989-999 | exactly the lines in the history and the inactive lines are forgotten |
| `PipelineClient.RecallShows` | command.c:787-828 | the client is shown the last lines of history and inactive lines, as many as it wants, without BEL |
| `PipelineClient.SearchShows` | recall.c:138-192 | the client is shown what is found in history and inactive lines, between two messages, or told that there is nothing |
| `PipelineClient.SetExact` | accessor.c:217-250 | the options are what they were set to |
| `PipelineTheorems.LoggedOnce` | mooproxy.c:274-301 | over any run, whenever a line first leaves `client_toqueue`: it is logged exactly once if the option logging was on and the line not flagged LINE_DONTLOG then, and never otherwise; regular server lines are not flagged then, and copies always are |
| `PipelineLog.EveryLineLogged` | mooproxy.c:274-287 | over any run in which logging stays on, the log has been given, between passes, every regular line that the server sent, stripped, once each and in order, whatever happened to the clients |
| `PipelineTheorems.LogOfRun` | log.c:89-160 | the log invariants hold in the middle of the main loop, too |
| `Worlds.World.MsgClient` | world.c:397-452 | a message of mooproxy is queued for the client |
| `Worlds.World.HandleServerFd` | network.c:1007-1040 | the lines that a read from the server completes are queued; the rest is pending |
| `Worlds.World.DispatchServerLines` | mooproxy.c:235-249 | all server lines go to `client_toqueue`, MCP lines with their flags |
| `Worlds.World.ProcessToqueue` | mooproxy.c:274-290 | each line is logged if it should be, marked as not to be logged again, and passed on unless it is for the log only |
| `Worlds.World.MoveToBuffer` | mooproxy.c:292-301 | without a client, lines wait in `buffered_lines` unless they are flagged LINE_DONTBUF |
| `Worlds.World.FlushClientTxbuf` | network.c:1044-1054 | lines taken by `flush_buffer` become inactive lines unless they are flagged LINE_NOHIST; what the client has got is, with what is in the buffer, what it was before and the encoding of the lines taken |
| `Worlds.World.RecallAndPassLines` | world.c:516-628 | context, possibly new and certainly new lines go to the client, in this order; what that means is `PipelineClient.PromotionShows` |
| `Worlds.World.PromoteClient` | network.c:883-950 | a new client gets them, but not if there is a client |
| `Worlds.World.DisconnectClient` | network.c:571-592 | nothing is pending for the client any more; the queues stay |
| `Worlds.World.InactiveToHistory` | world.c:669-672 | inactive lines go behind the history |
| `Worlds.World.CommandForget` | command.c:989-999 | history and inactive lines are forgotten, buffered lines are not |
| `Worlds.World.CommandRecall` | command.c:769-828 | inactive lines become history, and its last lines go to the client as copies |
| `Worlds.World.CommandSearch` | command.c:787-806 | inactive lines become history; if there are any lines, the times are put in order (recall.c:156-161) and the lines found go to the client as copies, between a header and a footer |
| `Worlds.World.ShowFound` | recall.c:163-186 | the lines found go to the client as copies, between a header and a footer |
| `Worlds.World.TrimDynamicQueues` | world.c:458-512 | refines the trimming |
| `Worlds.World.DoFlags` | mooproxy.c:322-350 | activation moves inactive lines to history; a client that should quit is disconnected |
| `Worlds.World.FinishPass` | mooproxy.c:274-311 | the second half of a pass refines the run model |
| `MainLoop.OnePass` | mooproxy.c:226-311 | a pass on the fields of a world is a pass of the run model, on exactly the lines in the bytes that the server sent; if a client attaches, the fields show that it gets the context, copies and buffered lines |
| `MainLoop.WaitForNetwork` | network.c:883-963 | on the fields: `client_toqueue` gets, apart from new messages, context, copies and buffered lines for a new client |
| `MainLoop.NewConnection` | network.c:1007-1040 | what is read from a new server connection does not continue what was pending from the old one |
| `MainLoop.Loop` | mooproxy.c:209-316 | any number of passes, from raw bytes to the fields of a world: the regular lines in the queues are the last ones of all lines in the bytes of the server, whole, in order, each once; they are all of them if no pass forgets or exceeds the budget; the log was given all of them if logging stays on; every client that attached was shown what there was to show |
| `Matcher.PrepareSearch` | recall.c:769-788 | the in-place rewriting leaves the lower-case pieces between the `.*`, each with its NUL, and an empty one |
| `Matcher.CutInPlace` | recall.c:776-787 | each `.*` becomes a NUL, and the rest moves up |
| `Matcher.RecallMatch` | recall.c:889-913 | the greedy matcher says yes exactly if the pieces up to the first empty one occur in the line in order, without overlap and with letters in either case |
| `Matcher.GreedyTake` | recall.c:900-908 | taking the first place where a piece matches is as good as any other |
| `Regex.SearchIsFinds` | recall.c:766-788 | an expression matches somewhere in a line exactly if its pieces occur in order |
| `Regex.MatcherExact` | recall.c:766-913 | the matcher decides the expression on all lines if and only if no text follows an empty piece |
| `Regex.UntidyDisagrees` | recall.c:895-912 | for every other search text there is a line that the matcher takes and the expression does not |
| `Regex.PlainTextAgrees` | recall.c:766-913 | without leading or doubled `.*` the matcher is sound and complete |
| `Regex.CaseIgnored` | recall.c:774-901 | changing the case of any letters in the search text or in the line changes no answer, neither of the matcher nor of the expression |
| `Recall.WorldRecallHistory` | world.c:676-720 | copies of the last `count` lines, or of all, without BEL and flagged as recalled |
| `Recall.MatchOneLine` | recall.c:857-883 | the line is shown, stripped, exactly if it matches |
| `Recall.SearchPeriod` | recall.c:790-804 | exactly the lines of the period are inspected |
| `Recall.SearchAfter` | recall.c:806-820 | exactly the first N lines that are new enough are inspected, whatever the order of times |
| `Recall.SeekBack` | recall.c:827-833 | how far back the walk goes and how many lines it has seen that are old enough |
| `Recall.WalkForward` | recall.c:839-849 | from there, exactly the lines that are old enough are inspected |
| `Recall.SeekBackExact` | recall.c:827-837 | where the walk back stops, the last N lines that are old enough begin |
| `Recall.SearchBefore` | recall.c:822-850 | the walk back and forward inspects exactly the last N lines that are old enough, in order |
| `Recall.SearchAndRecall` | recall.c:756-851 | what is shown, and the numbers of lines inspected and matched |
| `Recall.InspectedExact` | recall.c:790-850 | exactly the lines of the period, or the first N not before a time, or the last N not after it, in order, each as often as it is there |
| `Recall.ResultsExact` | recall.c:857-883 | each line that matches is shown once, stripped, with its time, in order |
| `Recall.MatchingExact` | recall.c:866-873 | these are exactly the lines inspected that match |
| `Recall.ShownExact` | recall.c:870-873 | a line matches without a search text, or, for a tidy one, if and only if the expression is found in its stripped text |
| `Recall.OrderedExact` | recall.c:155-161 | of the two times, the earlier one comes first |
| `PrivilegedList.PrivilegedAdd` | network.c:1090-1104 | on the linked list: any other entry of the address goes, the oldest goes if the list is full, the address comes last |
| `PrivilegedList.PrivilegedDel` | network.c:1109-1120 | on the linked list: the entry of the address goes |
| `PrivilegedList.IsPrivileged` | network.c:1125-1134 | whether the address is in the list |
| `PrivilegedList.DeleteExact` | network.c:1109-1120 | the address goes and nothing else, and the order stays |
| `PrivilegedList.MostRecent` | network.c:1090-1104 | after any additions the list is the eight addresses added last, each once, in the order of their last addition |
| `SlotTables.SlotTable.Remove` | network.c:731-780 | the other slots keep their order and their fields stay together; no two slots share a buffer |
| `SlotTables.SlotTable.BuffersPermuted` | network.c:758-776 | whenever the arrays are well formed, the slots, taken or free, have the same eight buffers, each in one place |
| `SlotTables.SlotTable.ChooseVictim` | network.c:640-655 | the loops over the slots find the slot to evict |
| `SlotTables.SlotTable.Evict` | network.c:637-659 | if all slots are taken, that one goes |
| `SlotTables.SlotTable.Append` | network.c:661-674 | a new slot comes last, with a buffer of zeros |
| `SlotTables.SlotTable.Read` | network.c:686-725 | what is read goes behind what was read; a newline or a full buffer asks for verification; a lost connection goes |
| `SlotTables.SlotTable.FindLogin` | network.c:805-816 | the scan finds the first newline that was read, if there is one, although it looks past what was read |
| `SlotTables.SlotTable.ExtractLogin` | network.c:805-832 | the C string that is checked is the first line without its \r, up to a NUL |
| `SlotTables.SlotTable.KeepRest` | network.c:840-850 | what follows the first line is kept |
| `Doors.Door.HandleListenFd` | network.c:598-679 | refines the acceptance of a connection |
| `Doors.Door.HandleAuthFd` | network.c:686-725 | refines a read from a connection that is not logged in |
| `Doors.Door.VerifyAuthentication` | network.c:788-876 | refines verification: token, login, denial, takeover |
| `Doors.Door.MatchAuthentication` | crypt.c:197-210 | a cached literal is compared, otherwise the hash; a match is cached; what this means for logins is `AuthLogin.LoginDecided` |
| `Doors.Door.PromoteAuthConnection` | network.c:883-921 | refines promotion: the client gets what is left in the slot's buffer, its address is privileged, the slot goes; with a client present it only asks for its disconnection |
| `Doors.Door.HandleClientFd` | network.c:969-1001 | later reads go on where the login left off |
| `Doors.Door.DisconnectClient` | network.c:571-592 | there is no client and nothing is pending from it |
| `Doors.Door.HandleFlags` | mooproxy.c:346-350 | the client is disconnected if it should be, once |
| `Doors.Door.SetAuthHash` | accessor.c:123-126 | the new hash is set and the cached literal is forgotten |
| `Doors.Door.LookAtConnections` | network.c:78-96 | the first slot that is due is seen to |
| `Doors.Door.AddToBucket` | network.c:1079-1084 | the bucket gains a token up to its size |
| `Doors.Serve` | network.c:72-962 | any events on the fields of a world are a run of the model |
| `Doors.WaitForNetwork` | network.c:72-96 | nothing is selected while a slot is due: the first one that is is seen to |
| `Doors.OneTurn` | mooproxy.c:226-311 | refines a pass of the main loop, as far as it concerns connections |
| `Doors.ServeTurns` | mooproxy.c:209-316 | any passes on the fields of a world are a run of passes of the model |
| `Auth.StepKeeps` | network.c:598-963 | every event keeps the invariant of slots, tokens, addresses, cached literal and client |
| `Auth.LoginFixed` | network.c:810-813 | what is read later changes neither the login nor that it is complete |
| `AuthEvents.SlotHeard` | network.c:686-725 | a connection adds exactly what fits to what it has sent, is to be verified once it has sent a newline or filled its buffer, and is gone when it is lost; nothing else changes |
| `AuthEvents.ClientHeard` | network.c:969-1001 | so it is for the client |
| `AuthEvents.SlotsArrived` | network.c:598-679 | at any point of any run a slot is that of a connection that was accepted, and is privileged if and only if its address was when it was accepted |
| `AuthEvents.PrivilegesChange` | network.c:788-907 | addresses are privileged by becoming the client, and lose it by a failed login while a hash is set; nothing else changes the list |
| `AuthEvents.TokenTaken` | network.c:801-803 | every verification takes a token if there is one, and nothing else does |
| `AuthEvents.Refilled` | network.c:1079-1084 | n seconds bring n tokens, up to five |
| `AuthEvents.QuitGoes` | mooproxy.c:346-350 | a client that should quit is disconnected, once |
| `AuthTheorems.EvictionChoice` | network.c:637-659 | there is always a slot to evict: the oldest of all if more than two are privileged, otherwise the oldest that is not |
| `AuthTheorems.ArrivalsKeepPrivileged` | network.c:637-669 | arrivals alone never take the number of privileged slots below two, or below what it was |
| `AuthTheorems.DenialRevokes` | network.c:815-838 | a privileged connection that fails to log in takes the privilege of its address with it, and nothing else changes for other addresses |
| `AuthTheorems.PromotionGrants` | network.c:906-907 | the address of a new client becomes the most recent privileged one; only the least recent other one may have to go |
| `AuthTheorems.ArrivalOrder` | network.c:661-780 | over any run the slots are in the order in which their connections arrived |
| `AuthTheorems.RateBound` | network.c:80-96 | over any stretch of any run, login attempts of connections that are not privileged are at most the tokens at its start and the seconds that pass |
| `AuthTheorems.AttemptsOfRun` | network.c:801-803 | hence at most five and the seconds that pass, at any point of any run |
| `AuthTheorems.SlotsOfRun` | network.c:598-780 | over any run: at most eight slots, five tokens and eight addresses; an unverified slot holds all its connection sent, without a newline unless it is to be verified |
| `AuthTheorems.HandOver` | network.c:831-918 | whoever is the client has had its login verified at some point of the run, by a first line that matches the hash that was in force then; its lines and leftover are the byte-at-a-time split of everything after that line, however it was read |
| `AuthTheorems.HashIs` | accessor.c:123-126 | the hash in force at any point of any run is the one that was set last |
| `AuthTurns.VerifiedLoginServed` | network.c:78-96 | over the passes of the main loop, whatever connects in the meantime, the slot of a verified login is never evicted and after at most 22 passes it becomes the client, with all that it sent after its first line |
| `AuthTurns.TurnBrings` | network.c:78-96 | a pass that does not promote a verified login keeps its slot and brings it nearer to its turn |
| `AuthTurns.QuietTurn` | network.c:98-148 | when no slot is due, all that select reports is seen to |
| `AuthLogin.LoginDecided` | network.c:805-862 | at any point of any run, the first due slot that is to be verified is let in if and only if a hash is set, it has sent a whole line, and this line is that of the login let in last since the hash was set or, if there was none, matches the hash; otherwise it is turned away |
| `AuthLogin.WelcomeIfMatches` | crypt.c:197-210 | if no two texts match the same hash: if and only if its line matches the hash |
| `AuthLogin.CollisionRefused` | crypt.c:200-201 | otherwise another text that matches may be turned away |
| `AuthLogin.LoginOf` | network.c:810-832 | the login is the text before the \r\n or \n that ends the first line |
| `AuthLogin.Takeover` | network.c:852-862 | a client that is attached has to go when another login is let in |
| `AuthLogin.WelcomeIsServed` | network.c:78-96 | over the passes of the main loop, a connection that is the first due and is to be let in is the client after at most 23 passes, with all that it sent after its first line, whatever happens in the meantime |
| `McpText.ExtractMcpkey` | mcp.c:240-302 | the cursor loops find what the scanner function finds |
| `McpText.StartsUpToCase` | mcp.c:217-234 | messages are recognised by their beginnings, in either case |
| `McpText.SkipMcpValue` | mcp.c:306-337 | past a simple or a quoted value, or an error |
| `McpText.CopyKey` | mcp.c:291-301 | the value up to a space, without enclosing quotes |
| `McpText.RemoveEnclosingQuotes` | misc.c:365-390 | in place: two equal quotes at the ends go, and nothing else changes |
| `McpRoundTrip.KeyOfMessage` | mcp.c:240-337 | from any well-formed message the value of the first authentication-key is read, whatever comes before and after it |
| `McpRoundTrip.ValueRoundTrip` | mcp.c:291-301 | the values that are read as they were written are exactly those in quotes without space, quote and backslash, and those without quotes that are not in single quotes |
| `McpRoundTrip.KeyRoundTrip` | mcp.c:240-302 | the key read is the key written if and only if it needs no quotes for its spaces or escapes, and is not in single quotes |
| `McpRoundTrip.SpaceIsLost` | mcp.c:292-301 | a quoted key with a space is cut |
| `McpTrackers.McpTracker.WorldDoMcpClient` | mcp.c:47-89 | refines: a line of the client goes to the server, its key is captured, the package is negotiated |
| `McpTrackers.McpTracker.WorldDoMcpServer` | mcp.c:93-103 | refines: a line of the server goes to the client, the first handshake is kept |
| `McpTrackers.McpTracker.WorldMcpServerConnect` | mcp.c:107-151 | refines: the client is told to reset, and everything is forgotten |
| `McpTrackers.McpTracker.WorldMcpClientConnect` | mcp.c:155-213 | refines: the server is told to reset, or the client gets the handshake; what is sent when is `McpStreams.ClientUpStreams` |
| `McpTrackers.Track` | mcp.c:47-213 | any events on the fields of a world are a run of the model |
| `Mcp.ResetSafety` | mcp.c:47-213 | over any run: negotiated means there is a key; every reset told to the server carries the key of an mcp message that the client sent in the same server session, was preceded by the announcement of the package with that key, at a time when the client had given no later one, and by no other reset since; what the client sent and what the server got are exactly what the history says |
| `Mcp.OneResetPerKey` | mcp.c:193-211 | between two resets the client sent an mcp message with the key of the second |
| `McpStreams.ClientUpStreams` | mcp.c:155-213 | after any run, a client that attaches while there is a server connection: if an earlier client gave a key in this session, the server is sent exactly the reset with the last key given before it negotiated, after the offer of the package and the end of negotiation unless the package was offered before, and the client nothing; otherwise the client is sent exactly the first handshake of the server, if any, and the server nothing |
| `McpStreams.ServerUpStreams` | mcp.c:107-151 | likewise for the client when a server connection is made |
| `McpStreams.ClientLineStreams` | mcp.c:47-89 | a line of the client goes to the server, and exactly when it first negotiates with a key given, both sides are offered the package with that key |
| `McpStreams.ServerLineStreams` | mcp.c:93-103 | a line of the server goes to the client, and nothing else is sent |
| `Reconnect.Reconnector.ScheduleReconnect` | world.c:788-830 | a reconnect is scheduled only when disconnected and enabled, after the delay to the nearest second, at most half an hour; the delay grows |
| `Reconnect.Reconnector.DoReconnect` | world.c:834-847 | a reconnect starts only when one is waited for |
| `Reconnect.Reconnector.DecreaseReconnectDelay` | world.c:851-857 | the delay is more than halved, never below zero |
| `Reconnect.Reconnector.TickSecond` | timer.c:102-104 | a wait that is over ends, and no other |
| `Reconnect.DelayBounded` | world.c:822-825 | after any failures and minutes the delay is within half an hour |
| `Reconnect.BackoffFromZero` | world.c:822-825 | after n failures from no delay it is at least 5999 * (1.5^n - 1), or at its maximum |
| `Reconnect.BackoffAtMost` | world.c:822-825 | n failures make the delay plus 14000 at most 1.5^n times as large |
| `Reconnect.CapWithinFifteen` | world.c:822-825 | fifteen failures in a row reach the maximum |
| `Reconnect.EasedWithinTwenty` | world.c:851-857 | twenty minutes of being connected undo any delay |
| `Reconnect.MinutesAtLeast` | world.c:851-857 | n minutes leave at least (delay + 3) / 2^n - 3 |

## Left out

- Doors.Door.VerifyAuthentication: the refusal message to the peer and the counting of failed logins are not modelled.
- Doors.Door.PromoteAuthConnection: greeting, the report on failed logins, recall and the MCP reset that follow are not part of it; the last two are `Worlds.World.PromoteClient` and `McpTrackers.McpTracker.WorldMcpClientConnect`.
- LogBooks.LogBook.LogLine: the timestamp is a parameter; its caching is not modelled.
- LogBooks.LogBook.Init: the file is named by the day of the first line that waits, where the path is made of the time of that line; creating directories is not modelled.
- Worlds.World.CommandSearch: parsing of the arguments and the wording of the messages are left out.
- The queues of a world, of its log and of MCP lines are sequences; that the linked queues of line.c implement the operations on sequences is the subject of `Lines`. Only the address list is a linked queue in its place.
- A file of the log is named by its day; its path, the symbolic links, syncing and the wording of complaints are left out. A file that is opened for a day is taken to continue where it was left.
- Sockets, select, name resolution, connecting to the server, ports, locks, signals, forking and allocation are not modelled; the server connection appears as an event.
- The order of events within a pass is freer than in the program: whatever select could report may happen in any order. What connections can do between the passes of the main loop is the subject of `AuthTurns`.
- Commands are modelled where they touch the lines for the client (/recall, /forget, messages, the options logging and context_lines); parsing of commands, options and times is left out, so that /recall starts from its parameters. The buffer sizes do not change during a run.
- Lines for the server are modelled as far as MCP goes; that they are dropped without a server connection is not modelled. The auto-login line, the easter egg and /ace are left out; /ace strings appear as any strings that fit in the slack of the buffer.
- Texts that a client searches for are C strings.
- A pointer takes 8 bytes, so that a line costs 80 bytes more than its text; queue sizes and counters do not wrap around. `RAND_MAX` is 2147483647.
- MD5 is any function that says whether a text matches a hash.
