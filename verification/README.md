# Verification of the imapgw gateway

`imapgw` shows an AgentMail inbox, which knows labels, mutable drafts and lagging listings, as IMAP
mailboxes whose messages have permanent UIDs. This project models its state and its algorithms in Dafny
and proves what the rest of the system relies on. Octets are modelled as characters; the wall clock, every
upstream listing and the interleaving of callers and tasks are arbitrary.

`dafny verify dfyconfig.toml` checks everything. The files, in reading order:

- `Types`, `Sorting`, `Decimal`: the values passed around, Python's stable sort, `str`/`int` of numbers.
- `UidStore`, `Mailbox`, `Session`: the UID store, the mailbox service and one session. Each is a class
  with the source's fields whose methods are proved equal to functions of the old state; what the source
  promises is proved about those functions. `Reconciling` proves what one reconcile does, `Listings` that the
  order of an upstream listing does not matter.
- `Gateway`: the whole server as a state machine. An action is what the source runs between two `await`s:
  the pieces of `sync` and `_join`, taking in one listed element, a reconcile, an allocation with its pin,
  a label hold, a counted mutation, a flush, a failing CLOSE, a restart with or without loss of the
  database. History records the published snapshots and every UID ever bound. Commands such as
  EXPUNGE, MOVE and APPEND are sequences of these actions. `GatewayStore`, `GatewayNaming`, `GatewayViews`,
  `GatewayBarrier`, `GatewayPins`, `GatewayCallers` (how calls of `sync` end) and `GatewayContents` (what a published
  snapshot shows) prove properties of every run; `GatewayExamples` holds the runs in which a promise ends.
- `Tokenizer`, `Parser`: the incremental command parser; `Responses`, `Wire`, `Framing`: the printer and
  the proof that parsing undoes printing; `TokenGrammar`: the tokenizer accepts exactly the grammar; `ParserErrors`:
  what is refused, echoed and delivered.
- `Glob`, `SequenceSets`, `SetGrammar`: the LIST matcher, sequence sets and their grammar. `Search`, `SearchMeaning`,
  `SearchKeys`, `SearchRefusals`: SEARCH, what each of its key words asks, and which commands are refused.
- `StoreFlags`: STORE as one command. `StoreSteps`: STORE step by step, which uninterrupted is that command.
  `StoreMessages`, `StoreRuns`, `StoreExamples`: its steps interleaved with the steps of other commands and of
  listings, as far as one message is concerned; the runs that keep its flags, and those that do not.
- `ByteCache`, `Sizes`: the byte cache, and the stability of RFC822.SIZE.

Eight promises hold only under a condition. Each has its condition proved and an input that breaks it:

- names stay permanent exactly while no reconcile creates a mailbox row with a UIDVALIDITY issued for that mailbox
  before (`NewRowKeepsNamesIff`; `CeilingReusesNames`, `LostSidecarReusesNames`);
- a client survives a failing CLOSE exactly when nothing was dropped (`SilentDropIff`;
  `SilentCloseBreaksMirror`);
- every chunking of a stream is accepted exactly when its raw lines fit (`EveryChunkingAgreesIff`;
  `CutBeforeLfMatters`);
- a sequence set is read as written exactly when no element names 2^32 and lies above the last message, or it
  contains the last message anyway (`SelectMeansIff`; `SentinelIsMisread`);
- the byte counter of the cache is exact while nothing leaked, and a value is kept exactly when it fits beside
  the leak (`CounterIsHeldPlusLeak`, `PutIsKeptIff`; `OversizeWriteLeaks`);
- a reported size is fixed exactly while the body or the size is cached (`SizeIsFixedIff`;
  `ForgottenSizeChanges`, `ForgottenWhileWaiting`);
- STORE on a stale snapshot leaves a flag upstream as wanted exactly when the snapshot shows it otherwise or upstream
  had it so already (`StaleStoreIff`; `StaleStoreSkips`, and `OverlapMixes` for two commands that overlap);
- a listing that ends leaves a message's flags alone exactly when the entry it took in, or the pin that survives it,
  still has them (`ListingKeepsFlagsIff`). An entry has them when it was taken in under our held label write or
  showed the same flags (`ListedFlagsIff`), and no STORE has come back since (`GuardedRunsKeepFlags`). A hold does
  not cover the time between: from every state with a message in view there is a run in which a listing takes a
  STORE back while its hold stands (`OvertakenListingFlaps`). Since `set_flag` counts no mutation
  (imapgw/mailbox.py:666-691), even a forced sync may join such a listing. A pinned message that is not listed yet
  shows the pinned flags (`PinIgnoresStore`).

imapgw/mailbox.py:174-176 promises that holds keep flags from flapping; the last item says how far that is true.

DESIGN.md:241 says that no UIDVALIDITY watermark is kept outside the database. The code keeps one
(imapgw/uidstore.py:199-220), and so does the model.

## Model

| member | source | states |
|---|---|---|
| UidStores.FreshValidityIff | imapgw/uidstore.py:216-220 | a new UIDVALIDITY exceeds the recorded watermark if and only if the watermark is still below 2^32-1, whatever the clock says |
| UidStores.UidStore.NextValidity | imapgw/uidstore.py:199-220 | the value fits 32 bits, is not behind the clock unless it is the ceiling, exceeds the watermark if and only if the watermark is below the ceiling, and is the smallest such value; the watermark learns it if the sidecar write succeeds |
| UidStores.UidStore.MailboxInfo | imapgw/uidstore.py:166-197 | a mailbox row is created once, with a new UIDVALIDITY and UIDNEXT 1; an existing row is returned unchanged |
| UidStores.UidStore.Ensure | imapgw/uidstore.py:230-263 | the loop allocates as the specification does and returns the complete live map |
| UidStores.AllocateAllExact | imapgw/uidstore.py:230-263 | known keys keep their UIDs; the unseen keys, each once, are numbered consecutively in list order from the frontier; the frontier moves by their number |
| UidStores.UidStore.Tombstone | imapgw/uidstore.py:265-288 | exactly the absent keys become tombstones, exactly their marks go, and their UIDs are returned in ascending order |
| UidStores.UidStore.Mark | imapgw/uidstore.py:301-321 | marks of the given UIDs of this mailbox are set or cleared and no others |
| Mailboxes.MailboxService.Effective | imapgw/mailbox.py:184-194 | our own label write stands over the listing until the listing agrees or the hold expires, and is then dropped |
| Mailboxes.MailboxService.TakeElement | imapgw/mailbox.py:349-444 | one listed element, whatever other tasks did to the holds before it: skipped if its id was seen, hidden by its effective labels, or made an entry |
| Mailboxes.MailboxService.Collect | imapgw/mailbox.py:349-444 | a listing that no other task interrupts yields one entry per first occurrence that is not hidden; it is refused exactly when some element has no id |
| Mailboxes.MailboxService.ApplyPins | imapgw/mailbox.py:321-336 | exactly the pins the listing does not show and that have not expired survive and are appended |
| Mailboxes.MailboxService.AssignUids | imapgw/mailbox.py:303-317 | allocation, tombstoning and the sorted snapshot of a reconcile |
| Mailboxes.MailboxService.Reconcile | imapgw/mailbox.py:298-319 | a reconcile is one step to the specified tables, pins, version and published snapshot |
| Mailboxes.MailboxService.AppendCreated | imapgw/mailbox.py:558-590 | allocation, pin and generation change as specified, and the answered UIDVALIDITY and UID are those of the key's live row |
| Mailboxes.MailboxService.Unpin | imapgw/mailbox.py:338-343 | exactly the slot of the key goes, if it has one; all other pins keep their place in the order, and everything else stays |
| Mailboxes.MailboxService.Replace | imapgw/mailbox.py:698-712 | the updated item takes the place of the item with its UID in the latest snapshot; nothing else changes |
| Reconciling.OrderedIs | imapgw/mailbox.py:298-305 | a reconcile works on exactly the listing and the surviving pins, each key once, in (timestamp, id) order |
| Reconciling.ReconcileExact | imapgw/mailbox.py:298-319 | afterwards live map and snapshot agree key by key, UIDs ascend strictly below UIDNEXT, old keys keep their UIDs, new keys are numbered consecutively in (timestamp, id) order, vanished UIDs are tombstones without marks, other mailboxes are untouched |
| Reconciling.EntryPublished | imapgw/mailbox.py:306-317 | every entry is published, built with its key's live UID |
| Reconciling.PageOrderIrrelevant | imapgw/mailbox.py:298-319 | for collected entries without duplicate ids, tables, snapshot and service state do not depend on their order |
| Listings.ConsumeAllIs | imapgw/mailbox.py:349-444 | a listing that names each id once collects each element as if it were alone, and ends exactly the holds that its elements end |
| Listings.ListingOrderIrrelevant | imapgw/mailbox.py:349-444 | permuting such a listing permutes the collected entries and leaves the same holds, at whatever times the elements are taken in, as long as each hold is expired in both orders or in neither |
| Listings.PagesReconcileAlike | imapgw/mailbox.py:290-319 | so the whole sync, from the listing to the tables and the service state, does not depend on page order |
| Sorting.SortIgnoresOrder | imapgw/mailbox.py:303-305 | the stable sort gives one result for all orders of distinguishable elements, also before a tail that may tie with them |
| Sorting.StrLeqIs | imapgw/mailbox.py:304 | ids compare as Python strings do: one is a beginning of the other, or the first character that differs is smaller |
| GatewayStore.BasicAlways | imapgw/uidstore.py:177-288 | in every state of every run: one row per UID below the frontier, listings in progress name each key once, pins are distinct and live |
| GatewayStore.RestartForgets | imapgw/uidstore.py:86-130 | a restart forgets snapshots, pins, holds, syncs and sessions; the tables stay unless the database was lost, and then only the watermark stays |
| GatewayStore.MarksAre | imapgw/uidstore.py:301-321 | a change of marks sets or clears exactly those of the given UIDs in their mailbox |
| GatewayNaming.PermanentNaming | imapgw/uidstore.py:177-288 | over every run in which no new row repeats a UIDVALIDITY issued for its mailbox, database losses, clock jumps and lost sidecar writes included, two snapshots never show different keys under one (mailbox, UIDVALIDITY, UID) |
| GatewayNaming.OnlyListingsCreateRows | imapgw/mailbox.py:545-556 | on every run a mailbox row is created by a reconcile of that mailbox and never by APPEND or COPY |
| GatewayNaming.NewRowKeepsNamesIff | imapgw/uidstore.py:177-220 | in a state reached so, for every mailbox and every listing about to end that will create its row, names stay permanent whatever element is still listed if and only if the UIDVALIDITY was not issued for the mailbox before |
| GatewayNaming.AboveIff | imapgw/uidstore.py:216-220 | a new value exceeds `h` if and only if `h` is below 2^32-1 and the clock has passed `h` or the sidecar knows it |
| GatewayNaming.GuardedRunsAreFresh | imapgw/uidstore.py:216-220 | if every row creation meets that guard for the largest value issued for its mailbox, the run repeats no value, sidecar writes failing or not |
| GatewayNaming.DurableRunsAreFresh | imapgw/uidstore.py:191-220 | in particular, a run whose sidecar survives and whose sidecar writes succeed below the ceiling repeats no value |
| GatewayNaming.AnsweredUidNamesItsKey | imapgw/mailbox.py:558-590 | on the same runs, the UID answered to APPEND or COPY names that key in every snapshot ever published, before or after |
| GatewayNaming.RowsAreForever | imapgw/uidstore.py:230-321 | while the database lives a row is never rewritten, so a mark kept by UID never moves to another message |
| GatewayExamples.CeilingReusesNames | imapgw/uidstore.py:216-220 | a run from the empty server, for every mailbox: listed at the ceiling, database lost, listed again; two published snapshots give UID 1 of one UIDVALIDITY two keys |
| GatewayExamples.LostSidecarReusesNames | imapgw/uidstore.py:208-220 | the same run below the ceiling, with the sidecar write lost and the clock standing still, for every clock |
| GatewayViews.SnapshotOrder | imapgw/mailbox.py:290-319 | of two snapshots of a mailbox from one database, the later has only UIDs of the earlier and UIDs at or above its UIDNEXT, under one UIDVALIDITY |
| GatewayViews.DepartedStaysAway | imapgw/session.py:342-347 | a UID that left never returns |
| GatewayViews.ClientMirror | imapgw/session.py:325-365 | in every state of every run `seq_of` is the inverse of the session's list, and a client that obeys the responses holds a list aligned with it position by position, unless a failing CLOSE dropped UIDs unannounced |
| GatewayViews.FlushCatchesUp | imapgw/session.py:325-365 | after a flush the session's list is the latest snapshot's and `seq_of` is its inverse, on every run |
| GatewayViews.SelectShows | imapgw/session.py:308-313 | SELECT opens a view of exactly the snapshot its sync returned, read-only as requested |
| GatewayViews.IntactIff | imapgw/commands.py:626-636 | on every run a view is intact from its SELECT exactly until a failing CLOSE drops a UID that is no longer listed |
| GatewayViews.LearnsUid | imapgw/session.py:342-365 | a response that names a position and a UID teaches the client of an intact view exactly that |
| Sessions.FlushKeepsMirror | imapgw/session.py:325-365 | every EXPUNGE, EXISTS and FETCH of one flush is acceptable to an aligned client, and obeying them leaves it aligned with the new list |
| Sessions.RenumberedIs | imapgw/session.py:342-347 | under the UID order of the store the sort after `extend` moves nothing and the list becomes the snapshot's |
| Sessions.RenumberedSorts | imapgw/session.py:342-347 | for any lists, the new list holds what is left and what arrived, sorted if anything arrived |
| Sessions.FlushTellsFlags | imapgw/session.py:350-365 | a client that knew the recorded flags knows the current flags of every message it was told about, and the record holds all current flags |
| Sessions.RecordIsOfView | imapgw/session.py:335-365 | after a flush the record is about exactly the messages of the view |
| Sessions.SilentDropIff | imapgw/commands.py:626-636 | a client stays aligned through a silent CLOSE drop if and only if nothing was dropped |
| GatewayExamples.SilentCloseBreaksMirror | imapgw/commands.py:626-755 | a run from the empty server: the client marks its only message, CLOSE fails to remove it because it has just vanished, drops it silently, and leaves the client with a longer list than the session |
| Sessions.Session.ApplySnapshot | imapgw/session.py:308-313 | the view lists the snapshot's UIDs under the requested read-only state and the snapshot's version, its index is their inverse, and its record holds the flags of every item with the persisted marks |
| Sessions.Session.FlushPending | imapgw/session.py:325-365 | the three loops produce exactly the specified responses and the specified view |
| Sessions.Session.DropVanished | imapgw/session.py:335-341 | the first loop deletes, from the last position down, exactly the vanished UIDs and announces each |
| GatewayBarrier.GenerationBarrier | imapgw/mailbox.py:233-288 | a forced sync that returned gives the snapshot of a listing begun after every mutation of the mailbox that was over at the call, stale waits and foreign AuthErrors included |
| GatewayCallers.RaisedOnlyByOwnFailure | imapgw/mailbox.py:270-288 | in every step of every run a caller comes back with an error only if the sync it waited for, not a stale one, ended in a failure of the service, or in an authentication failure of a sync that was its own or owned by its own client |
| GatewayCallers.OwnFailureRaises | imapgw/mailbox.py:247-288 | waking up, a caller comes back with an error if and only if that is so |
| GatewayCallers.ForeignFailureRetries | imapgw/mailbox.py:282-288 | a caller that joined a sync which failed with another session's credentials goes on waiting, for a fresh sync of its mailbox with its own credentials that is not offered to others |
| GatewayCallers.ReturnedIffPublished | imapgw/mailbox.py:270-288 | waking up, a caller comes back with a snapshot if and only if the sync it waited for published that snapshot, which is one of the caller's mailbox |
| GatewayCallers.CallsShare | imapgw/mailbox.py:233-268 | a call is answered from the cache if and only if it is not forced and the snapshot is fresh; otherwise it starts a sync of its own if none is in flight for the mailbox, and waits for that one if there is one |
| GatewayCallers.OfferedUntilOver | imapgw/mailbox.py:247-268 | the sync in flight for a mailbox stays the one on offer until it is over, or until a caller that waited for it as stale starts another |
| GatewayCallers.SyncEnds | imapgw/mailbox.py:270-319 | when a sync ends and how: it publishes when its listing is complete, fails with its request or its credentials, and is refused when it lists an element without an id |
| GatewayCallers.NoCallIsStuck | imapgw/mailbox.py:247-288 | in every state of every run the server can go on so that a waiting caller comes back |
| GatewayBarrier.TrashedMeansGone | imapgw/mailbox.py:741-753 | after EXPUNGE or MOVE labelled a message "trash" or "spam", the next forced sync of INBOX or Sent returns a snapshot without it however stale the listing, while the hold is not expired, dropped by another listing or replaced |
| GatewayBarrier.TrashLabelHides | imapgw/mailbox.py:370-374 | the labels held after a removal are PATCH's answer if it names "trash", else the own labels with "trash", and they hide the message from INBOX and Sent |
| GatewayBarrier.HeldForAMinute | imapgw/mailbox.py:180-182 | a label write is held for sixty seconds, and no other hold changes |
| GatewayContents.TakenInIff | imapgw/mailbox.py:349-444 | the first listed element with an id becomes an entry if and only if the view shows it: in INBOX and Sent its labels, held or listed, contain neither "trash" nor "spam"; in Trash and Spam always; in Drafts if it can be rendered. The entry has its key, date, labels and flags, and the hold ends if and only if the listing agrees or it has expired |
| GatewayContents.ShowsExactly | imapgw/mailbox.py:290-444 | on every run, whatever other tasks do during the listing, the snapshot a completed listing publishes shows exactly the visible elements it took first under their ids, each as taken, and the pins that are not listed and not expired |
| GatewayContents.HiddenStaysHidden | imapgw/mailbox.py:50-53 | no snapshot of INBOX or Sent published on any run shows a message labelled "trash" or "spam" |
| GatewayPins.PinAnchors | imapgw/mailbox.py:567-590 | the step after APPEND or COPY leaves the key of a Drafts or Trash item pinned for 120 seconds under its live UID |
| GatewayPins.PinsHold | imapgw/mailbox.py:321-347 | until a listing shows the key, the pin expires at a reconcile, an unpin or a restart, every reconcile publishes the item under the answered UID |
| GatewayPins.PinsHoldTwoMinutes | imapgw/mailbox.py:321-347 | on every run, for 120 seconds after APPEND or COPY every snapshot of the mailbox shows the item under the answered UID, until a listing shows the key, it is unpinned, pinned anew by a clock that was put back, or the server restarts |
| GatewayPins.UnpinReleases | imapgw/mailbox.py:338-343 | on every run an unpin releases exactly the pin of its key |
| Tokenizer.ReadQuotedAt | imapgw/parser.py:282-302 | the loop reads the same value and end, or fails the same way, as the recursive reader |
| Tokenizer.SkipBracketAt | imapgw/parser.py:324-342 | the position after the bracket that closes the section, quoted strings skipped, or the error |
| Tokenizer.ReadAtomAt | imapgw/parser.py:304-322 | the end of a non-empty atom with its bracketed sections, or the error |
| Tokenizer.TokenizeLineInto | imapgw/parser.py:251-280 | a line's tokens are pushed on the list stack; unbalanced, misplaced-literal and control-character errors |
| Tokenizer.TokenizePieces | imapgw/parser.py:238-249 | lines and literals become one balanced token list |
| Parser.CommandParser.Drain | imapgw/parser.py:140-168 | the event loop gives exactly the specified events and state and keeps the bounds; the source's assertion cannot fail |
| Parser.CommandParser.Consume | imapgw/parser.py:170-209 | one complete line gives one event and the specified pending command and awaited literal |
| Parser.ChunkIndependence | imapgw/parser.py:126-168 | if feeding a stream in some chunking raises no fatal error, its events and final state are those of feeding it whole |
| Parser.EveryChunkingAgreesIff | imapgw/parser.py:140-168 | every chunking avoids the fatal error if and only if the raw lines fit, and then all chunkings agree |
| Parser.CutBeforeLfMatters | imapgw/parser.py:153-167 | a line of exactly the permitted length is refused when cut between CR and LF and accepted whole |
| Parser.FeedingKeepsBounds | imapgw/parser.py:140-209 | in every reachable state stored bytes plus the announced literal, each literal and the literal count are within the limits, and an awaited literal has a pending command |
| Parser.DrainedBufferIsSmall | imapgw/parser.py:140-168 | after draining, the buffer is shorter than the awaited literal, or an unfinished line within the line limit |
| ParserErrors.TagIff | imapgw/parser.py:212-218 | a line's tag is its text before the first space, if that is one to 64 printable characters without spaces, and otherwise it has none |
| ParserErrors.ErrorsEchoTheTag | imapgw/parser.py:170-235 | every error over a line echoes the tag of the command the line begins or continues, except the two that name no command; none is fatal, and a continued command keeps its tag |
| ParserErrors.LiteralTailIff | imapgw/parser.py:90 | a line announces a literal if and only if it ends in `{n}` with one to twelve digits, at its start or after a space or `(` |
| ParserErrors.LineErrorsIff | imapgw/parser.py:170-209 | exactly when a line is refused for NUL, for its literal's length, or for the size of the command, and exactly when the client is told to continue |
| ParserErrors.CommandIff | imapgw/parser.py:221-235 | a command is delivered if and only if its tokens are two atoms and its arguments, the tag has no `+` or `*`, and the name is the second atom in upper case |
| ParserErrors.RefusalsAre | imapgw/parser.py:221-235 | for every complaint about a complete command, exactly when it is made |
| ParserErrors.FaultsAre | imapgw/parser.py:251-342 | which complaint a character that cannot stand in its place draws |
| ParserErrors.RunIsSafe | imapgw/parser.py:140-235 | over every stream in every chunking: only printable tags of at most 64 characters are echoed, commands carry printable ASCII outside their literals, no continuation invites more than the limit, and the fatal error is the overlong line |
| Responses.TwoPassesEscape | imapgw/responses.py:62-68 | replacing backslashes, then quotes, escapes each such character exactly once |
| Responses.QuotedReadsBack | imapgw/responses.py:54-68 | a printed quoted string is read back exactly, up to its closing quote |
| Responses.QuotedIff | imapgw/responses.py:54-68 | a string goes out as a literal if and only if it contains a line end, NUL or a non-ASCII octet, and between quotes no such octet ever goes out |
| Wire.AtomReadsBack | imapgw/parser.py:304-342 | a printed atom with nested sections is read back to its end and no further |
| Wire.TokenizeUndoesPrint | imapgw/parser.py:238-280 | tokenizing the lines and literals of a printed command gives exactly its tree |
| TokenGrammar.QuotedIffRead | imapgw/parser.py:282-302 | a quoted string is read if and only if what stands there is printable text, escaped in the one way there is, up to a closing quote |
| TokenGrammar.AtomIffRead | imapgw/parser.py:304-342 | an atom is read if and only if what stands there is characters and sections with balanced brackets, up to the end or a character that ends atoms |
| TokenGrammar.TokensIff | imapgw/parser.py:238-280 | lines and literals are tokenized to a list of tokens if and only if they are a way to write it, spaces anywhere between tokens and parentheses balanced across lines; so everything else is refused |
| Framing.FramesParse | imapgw/parser.py:140-209 | the framed octets of a command give one request per literal, in order, then the command, then whatever follows |
| Framing.ParseUndoesPrint | imapgw/parser.py:170-342 | for every tag, name and tree within the limits, parsing the printed form yields one continuation per literal and then exactly that command |
| Glob.WildcardMatch | imapgw/commands.py:153-186 | with or without case folding, the matcher that remembers one wildcard decides what the pattern means: the name is the pattern with each run of `*` and `%` replaced by some text |
| Glob.MatchCollapsed | imapgw/commands.py:168-186 | the backtracking loop terminates and agrees with the recursive definition |
| Glob.CollapseKeepsMeaning | imapgw/commands.py:159-167 | collapsing adjacent wildcards changes no match |
| Glob.MatchesDenotes | imapgw/commands.py:153-186 | the recursive definition is that meaning, given without recursion |
| Glob.WildcardMeans | imapgw/commands.py:159-167 | a pattern that begins with `*`, or with `%`, matches if and only if the rest of the pattern matches some rest of the name |
| Glob.LiteralMeans | imapgw/commands.py:168-186 | a pattern that begins with any other character matches if and only if the name begins with it and the rests match |
| SequenceSets.Parse | imapgw/fetch.py:37-65 | the loop computes the specified ranges or refuses the text |
| SequenceSets.SelectNumbers | imapgw/fetch.py:68-84 | the loop keeps, in order, the candidates in some range |
| SequenceSets.SelectMeans | imapgw/fetch.py:37-84 | for every written set that does not write out 2^32 and for any candidates, selection gives in order exactly the candidates it denotes, `*` as the last candidate, bounds in either order |
| SetGrammar.AcceptedIff | imapgw/fetch.py:37-65 | a text is accepted if and only if it is one or more elements separated by commas, each `*` or digits not coming to zero, or two such with a colon |
| SetGrammar.WrittenSetSelects | imapgw/fetch.py:37-84 | every accepted text, leading zeros included, selects what its elements denote, unless it names 2^32 |
| SequenceSets.SelectMeansIff | imapgw/fetch.py:37-84 | for every written set, 2^32 included, and ascending candidates below it, selection gives exactly what the set denotes if and only if no element is misread or the set contains the last candidate |
| SequenceSets.SentinelIsMisread | imapgw/fetch.py:57-84 | the smallest misreading: 2^32 written alone selects the last message, which it does not name |
| SequenceSets.UidSet | imapgw/commands.py:658-672 | for UIDs below 2^32, parsing the text and selecting from any candidates recovers exactly the original set |
| Search.KeyParser.ReadKey | imapgw/search.py:103-149 | the cursor reads the specified criterion and stops where the specification stops |
| Search.KeyParser.ReadAll | imapgw/search.py:83-112 | the loop reads all keys to the end of the list |
| SearchMeaning.ParseUndoesPrint | imapgw/search.py:103-149 | every canonical criterion tree is recovered from its prefix form, and the tokens after it are left |
| SearchMeaning.SearchUndoesPrint | imapgw/search.py:69-85 | a whole command of such keys is recovered as their conjunction, every token consumed |
| SearchMeaning.EvaluateMeans | imapgw/search.py:204-271 | an answer of the short-circuit evaluation is the tree's Boolean meaning, with dates compared as numbers of days, also when it skipped a lookup that would fail; without failing lookups there is always an answer |
| SearchKeys.PlainKeysMean | imapgw/search.py:116-126 | the words ALL and OLD select every item, NEW and RECENT none |
| SearchKeys.FlagKeysMean | imapgw/search.py:118-120 | each of the ten flag words asks whether its flag, persisted mark included, is set or not |
| SearchKeys.DateKeysMean | imapgw/search.py:235-248 | BEFORE, ON and SINCE ask whether the internal date is `<`, `==` or `>=` the day written |
| SearchKeys.SentKeysMean | imapgw/search.py:235-248 | SENTBEFORE, SENTON and SENTSINCE ask the same of the sent date, and answer no when there is none |
| SearchKeys.SizeKeysMean | imapgw/search.py:231-234 | LARGER and SMALLER exclude the size itself, and have no answer when the size cannot be had |
| SearchKeys.KeywordKeysMean | imapgw/search.py:224-226 | KEYWORD and UNKEYWORD ask for a label |
| SearchKeys.TextKeysMean | imapgw/search.py:249-262 | FROM, TO and SUBJECT are answered from the listing alone, the other text words from the content, for the case-folded needle |
| SearchKeys.HeaderKeyMeans | imapgw/search.py:263-270 | HEADER looks for the case-folded text in the fields of one name, and without a text for a field of that name |
| SearchKeys.SetKeysMean | imapgw/search.py:227-230 | UID asks for the UID, and a set alone for the position, each as the set denotes among those of the session |
| SearchRefusals.UnknownIff | imapgw/search.py:114-149 | a word is refused as unknown if and only if in upper case it is none of the thirty-five key words and does not look like a set |
| SearchRefusals.ArgumentIff | imapgw/search.py:127-189 | a key with one argument is accepted if and only if the argument is there and fits: a set, a number, a date, or text that decodes |
| SearchRefusals.KeysAreAtoms | imapgw/search.py:103-114 | a quoted string or literal in the place of a key, an empty group and a missing key are refused |
| SearchRefusals.CommandIff | imapgw/search.py:69-85 | a command is accepted as the conjunction of its keys if and only if it has keys that can all be read, after CHARSET with UTF-8 or US-ASCII if it says so |
| StoreFlags.PatchedFlags | imapgw/mailbox.py:95-98 | the labels of a flag set or clear that flag (read and unread for Seen, starred for Flagged), no other flag, and no other label |
| StoreFlags.PermanentIs | imapgw/mailbox.py:55-91 | which flags a client may change: Seen and Flagged except in Drafts, Deleted in INBOX, Sent and Drafts, no other |
| StoreFlags.WantedIsPrescribed | imapgw/commands.py:565-571 | flag by flag, the set the loop aims at: FLAGS sets what the command names and clears what else can be changed, +FLAGS sets, -FLAGS clears what it names |
| StoreFlags.StoreCommand.SetFlag | imapgw/mailbox.py:666-712 | label change, hold and replaced item as specified |
| StoreFlags.StoreCommand.StoreMessage | imapgw/commands.py:572-586 | the flag loop over one message, with the local copy of the marks kept in step |
| StoreFlags.StoreCommand.Run | imapgw/commands.py:545-590 | the command over all targets, or its refusal without effect |
| StoreFlags.ReconcileSyncs | imapgw/mailbox.py:370-396 | a reconcile whose entries carry the labels upstream holds leaves a snapshot in step with upstream, which is what STORE starts from |
| StoreFlags.StoreOneExact | imapgw/commands.py:572-586 | one message ends with exactly the flags prescribed flag by flag, other labels and messages unchanged |
| StoreFlags.StoreRefines | imapgw/commands.py:545-590 | FLAGS, +FLAGS and -FLAGS do to every message what section 6.4.6 of RFC 3501 says, flag by flag over the flags that can be changed; one report with the new flags per existing target; refused exactly when read-only or naming a flag that cannot be changed |
| StoreFlags.StoresRefine | imapgw/commands.py:560-590 | every sequence of such commands, with no reconcile between them, leaves the flags the commands mean |
| StoreExamples.OverlapMixes | imapgw/commands.py:545-586 | two FLAGS commands of two sessions that overlap on one message leave both flags upstream, which neither order of them means |
| StoreSteps.StepsMakeStore | imapgw/commands.py:560-586 | the command step by step, its captured snapshot and marks included, does what the whole command does when nothing comes between |
| StoreRuns.HeldEntry | imapgw/mailbox.py:180-194 | while a hold stands, a listed message is taken in with the held labels and their flags, whatever the listing says |
| StoreRuns.ListedFlagsIff | imapgw/mailbox.py:184-194 | a message is taken in with the flags of our last label write if and only if the write is held over the listing or the listing shows the same flags |
| StoreMessages.PublishedFlagsIff | imapgw/mailbox.py:298-317 | a reconcile publishes a message with given flags if and only if the entry taken in, or the pin that survives, has them |
| StoreRuns.ListingKeepsFlagsIff | imapgw/mailbox.py:290-319 | with any commands and listings in flight, a listing that ends shows upstream's flags, and leaves a message's flags as shown, if and only if its entry or pin still has them |
| StoreRuns.EventKeeps | imapgw/commands.py:572-586 | every step of every command and listing keeps what a command waiting for, or at, a message relies on; only the answer to a label change of the message changes its label flags |
| StoreRuns.StoresRefineAmidListings | imapgw/mailbox.py:174-194 | over every interleaving of STORE commands at their awaits with listings of any mailbox at theirs, in which commands on the message do not overlap and listings that end still have its flags, it ends with exactly the flags the commands mean, in the snapshot and upstream |
| StoreRuns.GuardedRunsKeepFlags | imapgw/mailbox.py:174-194 | the same when listings take the message in under a hold or with its flags, and no label write of ours to it comes back before they end |
| StoreExamples.OvertakenListingFlaps | imapgw/mailbox.py:290-319 | from every state with a message in view and nothing in flight, a run guarded but for its last event, in which a listing that took the message in before a STORE undoes it although the hold stands |
| StoreExamples.FirstListingUpholds | imapgw/mailbox.py:290-319 | the state after the first listing of a mailbox is one to which these theorems apply |
| StoreRuns.PinIgnoresStore | imapgw/mailbox.py:649-661 | a pinned message that the listing does not show yet is published with the pinned flags, whatever STORE changed since |
| StoreFlags.OtherFlagsStay | imapgw/commands.py:551-590 | no sequence of them changes a non-permanent flag of any message |
| StoreFlags.StaleStoreIff | imapgw/commands.py:565-586 | whatever upstream holds, after STORE on one message upstream has a label flag as wanted if and only if the item captured before the command shows it otherwise or upstream had it so already |
| StoreFlags.StaleStoreSkips | imapgw/commands.py:572-586 | a stale item for which +FLAGS \Seen is answered with OK and upstream stays unread |
| ByteCaches.ByteCache.Lookup | imapgw/bytecache.py:24-28 | a hit moves the entry to the end and returns its data |
| ByteCaches.ByteCache.Store | imapgw/bytecache.py:30-44 | the eviction loop evicts from the front as specified; an oversize value only drops the old entry |
| ByteCaches.ByteCache.Drop | imapgw/bytecache.py:46-49 | the entry and its bytes are removed |
| ByteCaches.CounterIsHeldPlusLeak | imapgw/bytecache.py:24-53 | after every run the counter is the bytes held plus the bytes leaked by oversize writes, at most the budget; it is exact if and only if nothing leaked |
| ByteCaches.OversizeWriteLeaks | imapgw/bytecache.py:34-36 | an oversize write over an existing key leaves the counter above the bytes held |
| ByteCaches.PutIsKeptIff | imapgw/bytecache.py:30-44 | a value just put is held if and only if it fits beside the leaked bytes |
| ByteCaches.HitIsLastPut | imapgw/bytecache.py:24-44 | a hit returns the last value put under the key |
| ByteCaches.OrderIsLastUse | imapgw/bytecache.py:24-44 | after every run the entries lie in the order of their last use |
| ByteCaches.EvictsLeastRecent | imapgw/bytecache.py:42-44 | a write evicts only entries used less recently than all it keeps, and no more than the budget demands |
| Sizes.SizeService.Raw | imapgw/mailbox.py:463-508 | the body of a received message is served from the cache, or only if announced, remembered and downloaded lengths agree; other users of the cache act during both waits |
| Sizes.SizeService.Size | imapgw/mailbox.py:510-535 | the size comes from the cached body, else from the remembered size, else from upstream, with other users of the cache acting during the wait |
| Sizes.RepliesAre | imapgw/mailbox.py:463-535 | every reply, from what the cache holds at the call, during the wait, and what upstream answers: when a body is served, a size reported, or the call refused |
| Sizes.RememberedIsAnswered | imapgw/mailbox.py:463-535 | a remembered size is reported again whatever upstream would say, and a download of that length is served |
| Sizes.AnswerIsRemembered | imapgw/mailbox.py:498-535 | the size reported by upstream, or that of a download, is remembered afterwards if and only if it fits the budget beside the leak |
| Sizes.BodyIsRemembered | imapgw/mailbox.py:498-508 | a downloaded body is remembered with its size if both fit |
| Sizes.SizesAreStable | imapgw/mailbox.py:463-535 | over every sequence of calls, with any upstream answers and any other use of the cache between the calls and while they wait, all sizes reported and bodies served have one length while the message is not forgotten |
| Sizes.SizeIsFixedIff | imapgw/mailbox.py:463-535 | no upstream answer to a call can change a reported size if and only if the body or the size is still cached |
| Sizes.ForgottenSizeChanges | imapgw/mailbox.py:510-535 | once both entries are evicted, a second report may differ |
| Sizes.ForgottenWhileWaiting | imapgw/mailbox.py:476-508 | an eviction while a download waits for the announced size is enough |

## Left out

- HTTP, TCP, threads, retries, timeouts and the asyncio loop: a listing is a sequence of elements or a failure, and each `await` is a point where any other action may come between.
- `sync` and `_join` as a class: they suspend in the middle, so they are steps of the state machine in `Gateway`, not methods.
- SQLite: each transaction is atomic and durable, and one process owns the store; recovery from corruption is the step that loses the database and keeps the sidecar.
- Columns of `uid_map` that nothing reads back, and mailbox definitions other than the built-in ones.
- The lazy generator of parser events: events are collected until the buffer runs dry.
- Draft rendering, MIME decoding, HTML flattening and date parsing: a rendering is an opaque digest, and SEARCH takes decoding, case folding and date reading as parameters.
- Letters and digits outside ASCII in `upper`, `lower` and `isdigit`, except where case folding is a parameter.
- LOGIN, credentials, redaction, settings, LIST and STATUS responses, FETCH attributes: thin or bound to libraries.
- "At most one sync in flight" and "the latest snapshot never comes from an older listing": the code does not guarantee them.
- A mark set on a UID that was tombstoned meanwhile stays in the table; what is proved is that it never moves to another message.
- Pairing inside COPYUID: both sets are sorted independently, so only the sets are recovered.
- The failure of a PATCH in the middle of STORE, `.SILENT`, and the FETCH sequence number of its reports.
- Flags over whole runs: `FlushTellsFlags` is about one flush, because `.SILENT` makes the record run ahead of what the client was sent.
- Overlapping calls of `raw_bytes` and `size_of`, and the body of a draft, whose key fixes its content.
- Mailboxes.MailboxService.Collect: no other task touches the holds between two elements; the form with interleaving is `TakeElement`, which is what the `Take` action of `Gateway` does.
- StoreFlags.StoresRefine: no reconcile between the commands, and each command whole; interleaved with listings and with each other it is `StoresRefineAmidListings`.
- StoreRuns.StoresRefineAmidListings: two commands that overlap on one message, and a message that leaves the view and comes back, are not included; overlapping commands mix (`OverlapMixes`), because each decides by what it captured (`StaleStoreIff`).
- STORE on the same message through another mailbox's view, whose change this view shows only after its next listing.
- Label changes by other clients of upstream between two STORE commands: they are flag changes, not flapping.
