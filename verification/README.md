# A verified model of the grunt chat server

grunt is a small chat server in Go with a web front end driven by htmx. This project models
the parts of it that are protocols, parsers or state kept in two places, and proves what
they keep over every run, every input and every interleaving. `dafny verify dfyconfig.toml`
checks all of it.

| file | what it models |
|---|---|
| `HubProtocol.dfy`, `Hub.dfy` | the SSE hub: `Run`, its bounded queues, register and unregister, the write pumps; first as a step system, then as the classes that change in place, each method proved to be one step |
| `HubLoop.dfy` | the same loop channel operation by channel operation, with senders and pumps running in between, and the proof that its arms may be taken for single steps |
| `EventStream.dfy`, `Delivery.dfy` | the event-stream text the pumps write, the pump loop, the Go client's reader, the parser of sections 9.2.5 and 9.2.6 of the WHATWG HTML Living Standard, and what either reads of a subscriber's stream |
| `MessageStore.dfy`, `Catchup.dfy`, `Sending.dfy` | the messages table, a receiving client that connects, listens and then syncs, and the send endpoint |
| `Rendering.dfy` | which avatars, names, time stamps and day dividers show, on the page and live |
| `Registration.dfy` | the invite transaction, and any interleaving of handlers that register, count and grant |
| `Emotes.dfy` | escaping and replacing emotes, and rescanning the emote directory |
| `RequestLock.dfy` | htmx's request lock and wait queue, re-entrant through aborts |
| `TriggerTokens.dfy`, `TriggerParser.dfy`, `TriggerPrinter.dfy` | the `hx-trigger` tokenizer, parser and cache, and canonical texts that parse back |
| `TriggerReading.dfy`, `TriggerFilters.dfy` | what the pieces of that parser take from the text and report, told by written-out characters and words; the source a filter is rewritten to |
| `TriggerAlone.dfy` | the selector-less `from:next` and `from:previous` |
| `HistoryCache.dfy` | htmx's history cache in session storage |
| `Indicators.dfy` | htmx's request counts, indicator classes and disabled elements |
| `Prelude.dfy` | optional values and concatenation |

Protocols are runs: any list of step labels is a run, a step that is not enabled changes
nothing, and theorems speak of the state after every run. Code that works in place is a
class whose methods are proved equal to the steps and functions those theorems are about.

## Where the code falls short of what it is for

Each of these is proved, with the exact condition under which the code is right.

- The Go client cuts CR from line ends, so a message comes back unaltered if and only if none
  of its lines ends in CR (`RoundTrip`). A browser also ends lines at a lone CR, so it
  recovers the packets if and only if no payload has a CR (`StandardRoundTrip`).
- An exception between taking the request lock and sending leaves the lock taken
  (`EveryTakingEnds`). Unless the request can be aborted, no request ever takes the lock
  again (`StuckExactly`, `StuckByThrow`, `LeakedRun`).
- A queued request whose element has left the document returns before it takes the lock and
  nothing starts the next one. All along a run at most one request is live and a free lock
  has nobody waiting if and only if no step strands requests in this way (`OneLiveExactly`,
  `StrandedExactly`); a stranded queue can put two requests in flight (`TwoLiveRequests`), and
  then the end of one frees the lock under the other (`FreedUnderway`).
- Two registrations that both commit before either counts the users leave the system without
  an administrator for good (`NoAdminRun`, `AdminPossibleExactly`). The two invites they need
  exist when the server is started twice within ten minutes on an empty users table, since
  each such start makes one (`server/server.go`, lines 35 to 55).
- A comment in `server/emotes.go` says that a rescan makes removed files disappear. An image
  under a built-in name stays (`ScansExactly`, `RescanForgets`, `StaleBuiltIn`). The model
  follows the code.
- When storage cannot be reached or every attempt to write the history cache fails, the old
  page stays and is served as if it were the latest (`SaveReadBackExactly`,
  `HistoryCache.RightExactly`).
- An element that is an indicator of one request and disabled by an overlapping one can keep
  the request class after both have ended (`Indicators.RightExactly`, `MixedRolesStick`).
- The selector-less `from:next` drops whatever token follows it and takes the next word for
  its selector: `click from:next once` loses `once`, and `click from:next, keyup` loses the
  second trigger. It means what it says only at the very end of the text
  (`SelectorlessOnlyAtEnd`), or when later modifiers cover up the loss
  (`SelectorlessExactly`).
- An empty place between two commas of `hx-trigger` ends the parse: in `click,,keyup` the
  second comma is reported and `keyup` is lost, while a third comma would bring the rest back
  (`EmptyPlace`). A filter whose bracket never closes swallows the rest of the text without
  an error (`UnclosedFilter`).
- A line that is the bare word `data` is an empty data field to the standard and nothing to
  the Go client. On text without CR, whoever wrote it, the two agree if and only if no event
  that ends has such a line (`ReadersAgree`, `BareDataDiffers`).
- The hub compares a message's time with the time of rendering, so a row rendered late shows
  a time stamp that the page leaves out (`LiveMatchesPage`, `LateRowShowsTime`).

One disagreement between code and documentation is not about a modelled property: the
repository's README says that invite codes are generated by admins, while the endpoint in
`server/impl.go` asks only for a login. The model lets an invite appear at any time.

## Model

| member | source | states |
|---|---|---|
| HubProtocol.SplitsExactly | server/hub.go:203-225 | in every run the messages popped while a subscriber was registered are exactly those offered to it, in pop order, a JSON subscriber being offered the message itself and an HTML subscriber its fragment, and what was kept is what its pump wrote, then holds, then has queued |
| HubProtocol.JoinsAndLeaves | server/hub.go:102-130 | a connection is in the map from the step that registered it, at the log's length of then, to the step that removed it |
| HubProtocol.DropsExactlyWhenFull | server/hub.go:218-223 | every offer came from one broadcast step, and was dropped if and only if the send queue held 256 frames just then |
| HubProtocol.NeverFullLosesNothing | server/hub.go:203-225 | a JSON subscriber whose queue is never full at a pop gets every decodable message popped while registered, an HTML subscriber every fragment, in order |
| HubProtocol.PumpCatchesUp | server/hub.go:259-314 | from any reachable state a pump can write what is queued for it, in order, changing nothing else |
| HubProtocol.DepartureRemoves | server/hub.go:252-257 | with `Run` at its select a pump can leave in four steps, whatever the queues hold: out of the map, channel closed, the leave announced if there is room |
| HubProtocol.AcceptedGrows | server/hub.go:84-93 | messages are popped in the order they were accepted and no accepted message is ever lost or changed inside the hub |
| HubProtocol.PoppedInTurn | server/hub.go:132 | a message at position p of the queue is popped by exactly the (p+1)-st broadcast step |
| HubProtocol.PoppedFromQueue | server/hub.go:132 | every entry of the log was made by one broadcast step from the head of the queue, at that step's time, rendered if and only if an HTML subscriber was registered then |
| HubProtocol.FragmentsTell | server/hub.go:151-200 | in every run an entry was rendered if and only if some HTML subscriber was in the map at its pop, and then its fragment is a row of that very message or names the event's kind and user |
| HubLoop.RunNeverWaits | server/hub.go:102-229 | with senders and pumps running between its channel operations, `Run` inside an arm always has an operation it can do at once, however full the queues are; its own operations lead back to the select, after at most two of them or one more than the subscribers still to come, whatever others do |
| HubLoop.ArmsAreSteps | server/hub.go:102-229 | whenever that loop is at its select, the hub is in a state some run of single steps reaches, so what holds of all runs of steps holds of the loop |
| HubLoop.NeverSendsOnClosed | server/hub.go:203-225 | in the middle of a broadcast no subscriber still to come has a channel that is closed or handed over for closing |
| HubLoop.BlockingEventExactly | server/hub.go:242-249 | a blocking join or leave send would ever come back if and only if the hub's own queue has room |
| HubLoop.DeadlockRun | server/hub.go:242-249 | without the default case a join into a full queue stops the hub for good |
| HubLoop.FullSubscriberDeadlock | server/hub.go:218-223 | without the default case a broadcast never gets past a full subscriber whose pump wants to leave |
| HubProtocol.ClosedOnlyWhileRemoving | server/hub.go:252-257 | the hub never sends to a subscriber whose channel is closed or about to be |
| HubProtocol.EventsTellMembers | server/hub.go:231-250 | replaying all join and leave events gives the current subscribers if none was dropped; in any case one join, then at most one leave, per client, each under its user's name |
| HubProtocol.RowsAreFold | server/hub.go:151-200 | the rows rendered in a run are the fold over the chat messages popped while an HTML subscriber was there |
| HubProtocol.LiveRowsMatchPage | server/hub.go:173-196 | with an HTML subscriber throughout, live rows group messages as the page does |
| Hub.Subscriber.TrySend | server/hub.go:218-223 | keeps a frame when there is room and drops it otherwise |
| Hub.Subscriber.Receive | server/hub.go:263-297 | takes the head of the send queue, skipping what cannot be decoded |
| Hub.Server.BroadcastMessage | server/hub.go:91-93 | a sender's post is the step Post, and waits while the queue is full |
| Hub.Server.BroadcastEvent | server/hub.go:231-250 | appends an event to the hub's own queue, or drops it, without waiting |
| Hub.Server.RegisterArm | server/hub.go:105-113 | the register arm is the step Register |
| Hub.Server.UnregisterReceive | server/hub.go:115 | receiving a leaving subscriber is the step Unregister |
| Hub.Server.UnregisterRemove | server/hub.go:116-126 | the rest of the unregister arm is the step Remove |
| Hub.Server.BroadcastArm | server/hub.go:132-227 | counting, rendering and fanning out in any map order is the step Broadcast |
| Hub.Server.CountHtml | server/hub.go:137-147 | whether any current subscriber wants HTML |
| EventStream.ResponseBody.WriteHtml | server/hub.go:274-287 | writing field by field appends one event-stream frame with one data field per line |
| EventStream.ResponseBody.WriteJson | server/hub.go:304-308 | appends the frame of an unsplit payload |
| EventStream.JsonFrameIsFrame | server/hub.go:308 | for a payload without LF the unsplit frame is the split one |
| EventStream.ReadPump | client/client.go:319-372 | the reader loop delivers exactly the messages the line-by-line reading of its bytes defines |
| EventStream.RoundTrip | client/client.go:336-370 | the client gets every message back in order with one LF added, if and only if no line ends in CR, whatever else the messages contain |
| EventStream.ReadPrefix | client/client.go:336-370 | any byte prefix of any stream reads as a prefix of the messages |
| EventStream.TrailingCRIsLost | client/client.go:343 | a line that ends in CR comes back without it |
| EventStream.StandardRoundTrip | server/hub.go:268-287 | a parser that follows sections 9.2.5 and 9.2.6 recovers kinds and payloads if and only if no payload has a CR |
| EventStream.StandardReadPrefix | client/client.go:336-370 | any prefix of any stream reads as a prefix to the standard's parser too |
| EventStream.ReadersAgree | client/client.go:319-372 | on any stream without CR the client delivers what the standard's parser dispatches, each with one LF, if and only if no event that ends has a bare `data` line |
| EventStream.BareDataDiffers | client/client.go:361 | a bare `data` line is where they differ |
| Delivery.WriteFrame | server/hub.go:268-312 | writing the frame in hand in the subscriber's format keeps the stream equal to the frames written so far |
| Delivery.WritePump | server/hub.go:259-314 | for any number of turns the pump takes frames from the head of its queue in order, skips only what it cannot decode, and the stream is exactly the frames written |
| Delivery.ClientReads | client/client.go:319-372 | whatever bytes of its stream a JSON client has received, a part of the frame in hand included, it has delivered a prefix of the messages kept for it; if its queue never filled, a prefix of all decodable messages popped while it was connected, each with one LF, and all of them once it has caught up |
| Delivery.BrowserReads | server/hub.go:268-312 | the standard's parser sees of a JSON stream the decodable messages, join and leave under the kind `event` and the rest as `message`, and of an HTML stream the fragments as `message`: a prefix at any time, all once caught up, for payloads without CR |
| MessageStore.Store.Save | server/storage/sqlite.go:326-335 | appends a row under the next id |
| MessageStore.Store.Find | server/storage/sqlite.go:341-347 | walking back from the newest row up to the limit finds the rows of the query, newest first |
| MessageStore.Store.Sync | server/storage/sqlite.go:355-364 | appending the rows found oldest first gives the result of the query |
| MessageStore.UnlimitedIsAll | server/storage/sqlite.go:345 | an unlimited sync is every row after the id, strictly ascending |
| MessageStore.LimitedIsNewest | server/storage/sqlite.go:341-343 | a limited sync is the last min(k, n) rows of the unlimited one, strictly ascending |
| MessageStore.CatchUpComposes | server/storage/sqlite.go:337-366 | a sync and a later one from its highest id concatenate to the later full sync, for any saves between |
| Catchup.NothingMissed | cmd/grunt/recv.go:60-83 | under any interleaving of senders, hub and client, what was saved before the sync is in its result within the limit of ten, and every later message is with its sender, queued, or popped once behind the client's registration and itself offered to it while connected |
| Sending.SendMessage | server/impl.go:258-324 | a request that passes the checks is the moves Save and Send of that world, waiting with the message saved while the hub's queue is full, and any other changes nothing |
| Sending.CheckedExactly | server/impl.go:258-300 | exactly which requests get 413, 400 and 401 before anything is stored, and which pass |
| Rendering.RenderPage | server/html.go:124-168 | the message loop gives each row the flags of comparing it with the one before |
| Rendering.AvatarsStartRuns | server/html.go:127-140 | avatars show exactly at the start of maximal runs of messages by one user |
| Rendering.DividersStartDays | server/html.go:124-168 | dividers show exactly at the start of maximal runs of messages of one day |
| Rendering.LiveMatchesPage | server/hub.go:171-196 | live rows continuing a page get the avatar, name and divider flags the page would give, except for a first message by the empty user or dated zero; for messages not from the future a hidden time stamp is hidden on the page too; and exactly when one shown live is hidden on the page |
| Rendering.LiveListMatchesPage | server/hub.go:171-196 | over whole lists the three flags agree if and only if the first message is not by the empty user nor dated zero |
| Rendering.LateRowShowsTime | server/hub.go:181-183 | a row rendered a minute late shows a time stamp the page hides |
| Registration.Store.RegisterWithInvite | server/storage/sqlite.go:109-179 | the transaction on working copies has the outcome of the atomic action: error and rollback, or both tables changed |
| Registration.RegisteredExactly | server/storage/sqlite.go:109-179 | for each error and for success the exact condition on the old tables; a failure changes nothing, success adds the user and consumes that one invite |
| Registration.Store.CreateInvite | server/storage/sqlite.go:282-288 | adds an invite under an unused code, its expiry cut to the second |
| Registration.Store.CreateUserNoPassword | server/storage/sqlite.go:181-187 | adds a user under a new name |
| Registration.Store.RegisterUser | server/impl.go:36-68 | run alone, the endpoint answers 409 if and only if the request is complete, the invite valid, hashing works and the name taken, 201 if and only if it registers, 400 for an incomplete request and 401 for each other refusal; the first user alone becomes an administrator |
| Registration.Linearizes | server/storage/sqlite.go:109-179 | every interleaving equals running its committed writes one after the other, each succeeding at its commit; every committed handler has one entry and refused or unfinished ones have none |
| Registration.AloneExactly | server/storage/sqlite.go:109-179 | undisturbed, the steps of a handler commit if and only if the invite is valid and the name free, and otherwise end refused with the tables unchanged |
| Registration.InvitesSingleUse | server/storage/sqlite.go:137-153 | in every interleaving an invite is consumed by at most one user, consumed invites are as many as users created through invites, names are unique, and each check came before expiry |
| Registration.AdminIsFirst | server/impl.go:60-65 | in every interleaving nobody but the first user ever committed is an administrator |
| Registration.UndisturbedFirstIsAdmin | server/html.go:339-347 | if nothing comes between the first commit, its count and its grant, that user is the one administrator |
| Registration.AdminPossibleExactly | server/html.go:339-347 | once there are users, some continuation has an administrator if and only if the system is not locked out |
| Registration.NoAdminRun | server/impl.go:60-65 | two commits before the first count lock the system out |
| Emotes.TokenExactly | server/emotes.go:27 | exactly which tokens stand at the head of a text: a colon, one or more of the 64 characters written out, and a colon |
| Emotes.PiecesExactly | server/emotes.go:242-251 | the scan is the only way to cut a text into tokens and single characters at which no token starts |
| Emotes.EscapeThenMatch | server/emotes.go:238-251 | escaping and then replacing equals scanning the raw text for tokens, escaping only the gaps and substituting known names |
| Emotes.EscapingKeepsTokens | server/emotes.go:27 | escaping neither creates, destroys nor splits a token |
| Emotes.RenderedIsSafeAndLossless | server/emotes.go:235-251 | the output is table entries and markup-free text, from which the message can be restored if and only if it has no NUL |
| Emotes.EmoteTable.ScanImageEmotes | server/emotes.go:76-127 | a rescan keeps the built-in names, drops the rest and inserts what the listing defines |
| Emotes.EmoteFilesExact | server/emotes.go:87-108 | a file defines an emote if and only if its name is one or more of those characters and `.svg`, `.png`, `.gif` or `.webp` in lower case |
| Emotes.LoadedExactly | server/emotes.go:85-110 | a listing defines exactly the names of its emote files |
| Emotes.LastFileWins | server/emotes.go:106-108 | the last file of a name gives the `img` element, with its path and the name |
| Emotes.ScansExactly | server/emotes.go:86-127 | after any run of scans a built-in name shows the image of the latest scan that found a file for it, or its text if none did, and any other name is there exactly when the latest scan found it |
| Emotes.RescanForgets | server/emotes.go:110-120 | after any scans, one more gives what a first scan of the new listing would if and only if every built-in name that ever had a file still has one |
| Emotes.StaleBuiltIn | server/emotes.go:113-117 | removing `smile.png` leaves its image in place |
| RequestLock.SyncElement.IssueAjaxRequest | server/static/htmx.js:4330-4411 | dropping, aborting, queueing or taking the lock in place, nested aborts, late exits and exceptions included, is the function Issue |
| RequestLock.SyncElement.EndRequestLock | server/static/htmx.js:4403-4411 | frees the lock and starts the next waiting request inside the same call |
| RequestLock.SyncElement.TriggerAbort | server/static/htmx.js:5124-5130 | aborting the holder releases its lock before the call returns |
| RequestLock.EveryTakingEnds | server/static/htmx.js:4400-4540 | in every run each taking of the lock is in flight, or released exactly once, or was left by an exception; all are live or released if and only if none threw, and a held lock's holder is in flight unless it threw |
| RequestLock.OneLiveExactly | server/static/htmx.js:4330-4411 | after every step of a run at most one request is live, it holds the lock, and a free lock has nobody waiting, if and only if no step strands requests, a `replace` that aborts the holder included |
| RequestLock.StuckExactly | server/static/htmx.js:4363-4398 | some continuation takes the lock if and only if it is free, abortable, or some request is in flight |
| RequestLock.StuckByThrow | server/static/htmx.js:4400-4540 | in runs that strand nobody the lock is stuck if and only if its holder threw and cannot be aborted |
| RequestLock.LeakedRun | server/static/htmx.js:4432-4447 | after a request that throws the next one waits for ever |
| RequestLock.EndLockOrder | server/static/htmx.js:4403-4411 | when the lock is given back waiting requests have their turns in queue order and none is lost |
| RequestLock.DrainStartsWaiting | server/static/htmx.js:4613-4619 | when a live request ends the next turn is that of the head of the queue |
| RequestLock.QueueAllExactly | server/static/htmx.js:4385-4388 | under `all`, requests have their turns in trigger order and none is lost, all along a run, if and only if none overtakes requests left waiting at a free lock |
| RequestLock.NeverOvertaken | server/static/htmx.js:4403-4411 | a run that strands nobody has no overtaking |
| RequestLock.QueueLastRun | server/static/htmx.js:4389-4393 | under `last`, whatever elements leave or requests throw, the one waiting is the most recent since the latest turn, and nobody is stranded |
| RequestLock.QueueFirstRun | server/static/htmx.js:4381-4384 | under `first`, whatever elements leave or requests throw, the one waiting is the first since the latest turn, and nobody is stranded |
| RequestLock.NeverInQueue | server/static/htmx.js:4344-4398 | in no run does a `drop` or `abort` request wait, nor one with an unknown word for its queue |
| RequestLock.RefusingRun | server/static/htmx.js:4345-4354 | with `drop` requests only, and with `abort` requests only, exactly those of attached elements that find the lock free take it, in trigger order, and the others are discarded |
| RequestLock.AbortableGivesWay | server/static/htmx.js:4363-4366 | while an `abort` request holds the lock, any other takes it at once and aborts the one in flight, `drop` requests included |
| RequestLock.ReplaceRun | server/static/htmx.js:4355-4356 | with `replace` requests only, each takes the lock as it comes, until one leaves it by an exception and the later ones wait for ever |
| RequestLock.StrandedExactly | server/static/htmx.js:4285-4289 | exactly which queues leave a freed lock with requests still waiting |
| RequestLock.StrandedRun | server/static/htmx.js:4285-4289 | a run that leaves a free lock and a waiting request |
| RequestLock.TwoLiveRequests | server/static/htmx.js:4363-4366 | a run of seven steps with two requests in flight on one element |
| RequestLock.FreedUnderway | server/static/htmx.js:4403-4405 | then the end of one frees the lock while the other is in flight |
| TriggerTokens.TokenizeString | server/static/htmx.js:2103-2132 | for every text, unterminated quotes and trailing backslashes included, the tokens are non-empty and make it up |
| TriggerTokens.LexedExactly | server/static/htmx.js:2103-2132 | the tokens of a text are the only list that makes it up in which every token is a longest symbol, a quoted run up to its first unescaped quote or the end of the text, or a single other character |
| TriggerTokens.TokensAppend | server/static/htmx.js:2107-2130 | tokens do not run from a text with closed quotes into the next, so texts can be tokenized piece by piece |
| TriggerParser.TokenList.ConsumeUntil | server/static/htmx.js:2202-2208 | takes the tokens before the first that matches, in place |
| TriggerParser.TokenList.ConsumeCSSSelector | server/static/htmx.js:2214-2224 | reads a wrapped or a bare selector |
| TriggerParser.TokenList.MaybeGenerateConditional | server/static/htmx.js:2155-2195 | builds the filter source up to the matching bracket |
| TriggerParser.TokenList.ParseModifiers | server/static/htmx.js:2262-2309 | reads modifiers to the next comma or the end |
| TriggerParser.TokenList.ParseAll | server/static/htmx.js:2238-2316 | for every token list the loop halts, as the tokens strictly shrink, with the specifications and errors of the grammar |
| TriggerParser.TriggerSpecs.GetTriggerSpecs | server/static/htmx.js:2327-2346 | whatever was cached before, the answer is that of a fresh parse, or the element's default |
| TriggerParser.DefaultExactly | server/static/htmx.js:2337-2345 | which elements submit, change and are clicked by default, with nothing else set |
| TriggerPrinter.ParseIntervalText | server/static/htmx.js:373-390 | a printed interval parses to its milliseconds in every unit |
| TriggerReading.ParseDecimalText | server/static/htmx.js:373-390 | any decimal with sign, fraction, exponent and unit parses to its exact value in milliseconds |
| TriggerPrinter.FilterParses | server/static/htmx.js:2155-2195 | a filter with balanced brackets is read exactly up to its own bracket; its source has one part per token, a name not behind a dot looked up on the event and then the window, all else verbatim; one that does not compile is reported |
| TriggerPrinter.UnclosedFilter | server/static/htmx.js:2161-2195 | a filter whose bracket never closes swallows the rest without an error |
| TriggerFilters.SourceTellsFilter | server/static/htmx.js:2184-2188 | two filters have the same source if and only if they are the same text, or are `[]` and `[true]` |
| TriggerPrinter.PrintedParsesBack | server/static/htmx.js:2234-2321 | parsing the canonical text of any list of triggers, filters and all modifiers included, gives their meanings back without an error |
| TriggerPrinter.SpecsParseBack | server/static/htmx.js:2234-2321 | every list of specifications without filters and with whole-millisecond intervals is printed to a text that parses to that list |
| TriggerReading.UntilExactly | server/static/htmx.js:2202-2208 | tokens are taken up to the first that has, anywhere in it, a character of the written-out separators |
| TriggerReading.TrimExactly | server/static/htmx.js:2218 | trimming takes all white space of ECMAScript from both ends and nothing else |
| TriggerReading.SelectorBrackets | server/static/htmx.js:2214-2224 | a wrapped selector is the trimmed text between a brace or parenthesis and the next closing one of either kind |
| TriggerReading.KeywordsExactly | server/static/htmx.js:2264-2304 | no word but its own is taken for a modifier |
| TriggerReading.StrayWord | server/static/htmx.js:2305-2307 | a token that is no modifier or lacks its colon is dropped with the token behind it, which is reported, and the rest is read as if neither was there |
| TriggerReading.EmptyPlace | server/static/htmx.js:2312-2316 | an empty place between two commas is reported and loses all triggers behind it, unless a third comma follows |
| TriggerReading.TrailingComma | server/static/htmx.js:2312-2316 | a comma at the end is reported and does no harm |
| TriggerAlone.SelectorlessExactly | server/static/htmx.js:2277-2288 | a trigger with a selector-less `from`, modifiers before and behind it and further triggers is read as meant and without an error at the very end of the text, and otherwise if and only if the origin and what the swallowed modifier sets are set again |
| TriggerAlone.SelectorlessOnlyAtEnd | server/static/htmx.js:2277-2288 | with an origin that is not set again, if and only if no modifier and no trigger follows |
| TriggerAlone.ParseCount | server/static/htmx.js:2238-2316 | a text gives at most one specification more than it has separate commas |
| TriggerAlone.OnceIsLost | server/static/htmx.js:2281-2286 | `click from:next once` loses its modifier |
| TriggerAlone.KeyupIsLost | server/static/htmx.js:2280-2281 | `click from:next, keyup` loses its second trigger, with an error |
| TriggerAlone.CoveredUp | server/static/htmx.js:2277-2288 | a following trigger whose wrapped selector holds commas can cover up the loss |
| HistoryCache.SessionStorage.SaveToHistoryCache | server/static/htmx.js:3157-3203 | splicing, pushing, trimming and retrying in place have the outcome of one save |
| HistoryCache.SessionStorage.GetCachedHistory | server/static/htmx.js:3217-3231 | finds the first entry with the normalized URL |
| HistoryCache.RecencyIsLatest | server/static/htmx.js:3174-3187 | the ideal list holds exactly the latest item of every URL since the last purge |
| HistoryCache.RecencyInOrder | server/static/htmx.js:3174-3187 | it is ordered by the latest saves, each URL once |
| HistoryCache.RightExactly | server/static/htmx.js:3194-3202 | all along a run, saves out of reach of storage included, the cache is that list with only oldest entries missing, if and only if every save is written, meets an empty cache, or repeats the last entry |
| HistoryCache.HitsAreLatest | server/static/htmx.js:3224-3229 | then stored URLs are distinct and every hit is the latest saved item |
| HistoryCache.EvictsOldest | server/static/htmx.js:3189-3202 | then whatever was saved after a cached page is cached too |
| HistoryCache.SizeKept | server/static/htmx.js:3189-3191 | a written save leaves at most `historyCacheSize` entries, its own among them |
| HistoryCache.HoldsNewest | server/static/htmx.js:3189-3191 | without failing writes the cache is the newest `historyCacheSize` URLs, or all |
| HistoryCache.SaveReadBackExactly | server/static/htmx.js:3193-3202 | a save can be read back if and only if storage is reached and some attempt succeeds, or the same item is there already |
| Indicators.Document.AddRequestIndicatorClasses | server/static/htmx.js:3371-3382 | counts every listed element and gives it the class |
| Indicators.Document.DisableElements | server/static/htmx.js:3388-3402 | counts every listed element and disables and marks those not disabled yet |
| Indicators.Document.RemoveRequestIndicators | server/static/htmx.js:3408-3426 | uncounts all, then frees those that reach zero |
| Indicators.CountIsMentions | server/static/htmx.js:3375-3412 | in every interleaving an element's count is the number of its live mentions |
| Indicators.AlwaysShown | server/static/htmx.js:3413-3425 | in every interleaving elements show and stay disabled while a live request uses them so, and an element the page disabled is never enabled |
| Indicators.RightExactly | server/static/htmx.js:3413-3425 | class and attribute are on exactly the elements live requests want them on, all along a run, if and only if every request ends cleanly |
| Indicators.UnmixedIsRight | server/static/htmx.js:3408-3426 | that is so while no two overlapping requests use an element in different roles |
| Indicators.MixedRolesStick | server/static/htmx.js:3413-3417 | mixed roles can leave the class behind |

## Left out

- HTTP routing, cookies, sessions, JSON, the generated API code, logging and command lines: plumbing around the cores.
- The SQLite engine, bcrypt, SHA-256 and generated identifiers: tables are sequences and maps with atomic statements and one writer, hashing may fail, and new identifiers are fresh.
- Avatar images, colours, HTML templates and the DOM part of htmx: presentation.
- Watching the emote directory: a listing is an input, and one rendering sees one table, while the code takes its lock per token.
- After Stop: `writePump` then waits on `unregister` for ever, so the runs claim nothing about pumps once `Run` has returned.
- NothingMissed: says where every message is, not that a pump writes it in the end; no fairness between goroutines is modelled. The time stamps of rows are not compared.
- SplitsExactly: a frame in hand when a connection ends counts as held, since the write may have failed half way. Bytes that decode as an envelope but not as a full message are not modelled.
- The order of live messages by database id: saving and broadcasting are two steps, and the code promises none.
- WritePump: write errors end a pump in the code; in the runs a connection may end at any time instead. Marshalled JSON is taken to have no LF.
- ReadPump: the whole stream is given at once; the client's channel, its back-pressure and its connection flags are not modelled.
- SendMessage: failing saves and request bodies that do not parse are not modelled.
- RegisterUser: the form handler in `server/html.go` also refuses an empty invite code and answers with pages; the steps are the same.
- Linearizes: any step may fail, so lock waits and busy errors of the database are among the runs. `MarkInviteUsed` and `CreateUser` have no callers and are not modelled.
- LiveMatchesPage: `day` stands for the local midnight both sides compute; the divider's label, which the hub makes from the full time stamp, is not compared.
- RunNeverWaits: says what `Run` can do, not that the scheduler lets it; the hub's mutex, which only `Run` takes, is not modelled.
- QueueAllExactly: every trigger is taken to make a request of its own.
- IssueAjaxRequest: the guards before the lock other than a detached element are taken to let a request through, locks of other elements are independent, and page listeners start no request inside an abort.
- Words of `hx-sync` that name no strategy behave as the plain default; how the attribute is split into words is not modelled.
- ParseDecimalText: arithmetic is exact; rounding and the text `Infinity` of `parseFloat` are not modelled.
- PrintedParsesBack: quotes in names and selectors are closed, bare words have no space or comma, and the selector-less relative form is treated on its own in `SelectorlessExactly`.
- SelectorlessExactly: a modifier right behind the form is one word, since what a text with spaces leaves behind is read as further modifiers; and triggers right behind it hold no commas of their own, since commas can cover up the loss (`CoveredUp`).
- SpecsParseBack: filters are printed in `PrintedParsesBack`; a specification holds only their rewritten source. Fractions of a millisecond are not printed.
- GetTriggerSpecs: the cache is a map; keys that are properties of every JavaScript object, such as `constructor`, are not modelled, nor is what a filter does when it runs.
- SaveToHistoryCache: listeners of `htmx:historyItemCreated` that change the item, and stored text that is not valid JSON, are not modelled; URL normalization is a function of the URL.
- RemoveRequestIndicators: responses that set `keepIndicators` never call it, and pages that change the class or the attribute themselves during a run are not modelled.
- The rest of htmx and its SSE extension: swapping, settling, scrolling and the reconnect delay depend on the browser.
