# Verified model of the BadSMTP server

BadSMTP is a fault-injecting SMTP server. This project models one connection of it (command loop, pipelined reply
queue, mail transactions, chunked bodies, errors simulated on request of an address), the tables and languages that
drive it, and three parts around it: graceful shutdown, port validation and maildir delivery. To check the proofs, use
Dafny 4.11: `dafny verify dfyconfig.toml`.

## How the model is built

- `SessionModel` is a machine on values that answers every command at once. One step takes a command line and what the
  outside world contributes (the bytes the command reads, how storing, authenticating and the TLS handshake turn out)
  and gives the next session, the replies, what was stored and whether the session goes on. It has no reply queue.
- `Server` (`Session.dfy`) is the session as an object: it reads its connection, probes for pipelining, queues and
  flushes replies, and updates its state handler by handler. It is proved to refine `SessionModel` for every probe.
  Writes may fail, and once one has failed all later ones do.
- `Pipelining` says what is withheld for which probe. `Framing` reads the byte stream; what a line brings along
  depends on the session, so reading and stepping interleave.
- `Moves` shows that each step is one of thirteen moves that can be told from the outside. `History`, `Transactions`,
  `Dialogue`, `Terms` and `Chunks` prove claims over whole runs, wherever possible against a reading of the log of
  exchanges (lines, replies, chunks taken, bodies read, messages stored). `Answers` says command by command what is
  answered and changed. `Guarantees` puts claims on the byte stream, and `Surprises` holds runs that do not go as one
  would expect.
- `ErrorPattern`, `Replies`, `Commands`, `Ehlo` and `Domain` are the languages: error addresses, reply texts, command
  lines, EHLO labels, domain names. `Strings` holds the text operations.
- `Shutdown`, `Ports` and `Maildir` stand alone; `Deliveries` interleaves several deliveries into one maildir.

## Where the code does not do what one would expect

Each line names the lemma that gives the run or the exact condition.

- A BDAT LAST that the store refuses in RCPT state leaves its bytes in the buffer; RSET, MAIL and even a stored DATA
  message do not clear them, and the next BDAT message starts with them (`Surprises.BytesOutliveTheirTransaction`).
  Content is a transaction's own exactly when nothing was left over at its MAIL
  (`Transactions.ContentIsOwnUnlessLeftover`).
- A chunk size that overflows the machine integers together with waiting bytes passes the length check and makes the
  allocation panic (`Surprises.OverflowCrashes`, exact condition `Transactions.CrashExactly`).
- An AUTH can be answered with nothing but a "334 ..." line, when the sender asked for that simulated error
  (`Surprises.PromptIsTheAnswer`, exact condition `Dialogue.StepAnswered`).
- After STARTTLS a second EHLO without a size announces 10485760 bytes while an earlier size stays enforced
  (`Surprises.StaleSizeIsEnforced`, exact condition `Terms.AnnouncedIsEnforced`; without STARTTLS it cannot happen,
  `Terms.AdvertisedIsEnforced`).
- Shutdown can return nil while a session is active that was accepted before the listeners were closed and registered
  too late (`Shutdown.NilWithALiveSession`), or while a listener opened too late goes on accepting
  (`Shutdown.NilWithAnOpenListener`); `Shutdown.NilIsTrueExactly` says when a nil return can be trusted.
- After STARTTLS a session can withhold replies though its last EHLO reply announced no PIPELINING
  (`Surprises.QueuedThoughOff`); without STARTTLS it cannot (`Pipelining.QueueingIsAnnounced`), and what is withheld
  is said exactly by `Pipelining.WithheldExactly`.
- The chunk of a refused BDAT is read as commands (`Surprises.ChunkIsReadAsCommands`); a BDAT without simulated error
  has its chunk read exactly if it fits (`Transactions.ChunkCheckIsExact`).
- A process that restarts with its predecessor's pid, host and clock reading overwrites a delivered file
  (`Maildir.RestartCanOverwrite`, exact condition in `Maildir.Mailbox.SaveMessage`).
- After a refused store the split of a message shows in the state (`Chunks.RefusedSplitShows`).
- An empty port range can be reported as overlapping (`Ports.EmptyRangesCanMislead`, exact condition
  `Ports.ChecksDecideSharing`); the server builds none.
- Simulated codes below 100 are sent with fewer than three digits (`Replies.ErrorStart`).

Where code and documentation differ the model follows the code: RSET keeps the remembered errors and the chunk buffer
and is refused in DATA and BDAT states; DATA needs no recipient; queued replies are flushed only by a breaking
command, a 421 or a failing handler, not when input drains as section 3.2 of RFC 2920 asks
(`Pipelining.WithheldExactly`); a refused BDAT does not consume its payload, unlike section 2 of RFC 3030, so framing
is claimed for accepted chunks; drop ports send no greeting and stay in GREETING state; the transition table of
smtp/state.go is not used by the session and is not modelled.

## Model

| member | source | states |
|---|---|---|
| `Server.PipeliningIsTransparent` | server/session.go:203-219 | Two servings of one byte stream that differ only in what the pipelining probe answers give the same ordered replies (written, then queued), the same final session, the same stored messages and the same end; if the peer of one goes away, its replies are a beginning of the other's, and if both go away, both have seen the same |
| `Server.Serve` | server/session.go:145-221 | A served session, queue and probe included, gives exactly the replies, final session and stored messages of the machine without queue and probe, and has withheld exactly what the rules of pipelining withhold for this probe; if a write fails, what was written is a proper beginning of those replies, as long as the writes allowed |
| `Guarantees.ServeToTheEnd` | server/session.go:1142-1186 | A 421 on the wire is the last reply on it, nothing stays queued behind it, no queued reply is a 421, and the session ends with EOF; a peer that goes away has seen no 421; replies stay queued only in a session that goes on and whose probe has seen input waiting |
| `Guarantees.AnyStreamIsAnswered` | server/session.go:169-221 | For every byte stream: every command but a failed last one gets one answer after any prompts, the answer itself no prompt unless the sender asked for a simulated 334; a 421 only as the very last reply, greeting included; EOF only by a 421 or QUIT |
| `Guarantees.AnyStreamKeepsEnvelopes` | server/session.go:660-728 | For every byte stream the history invariant holds: envelopes, remembered errors and chunk buffer agree with the log |
| `Guarantees.AnyStreamIsWithheldOnlyIfProbed` | server/session.go:203-211 | For every byte stream and probe: replies are withheld only in a session that goes on (not after EOF, a failed read or a crash), only if the probe has seen input waiting, and without a successful STARTTLS only while PIPELINING is in force |
| `Pipelining.WithheldExactly` | server/session.go:203-288 | In every run that goes on, for every probe: the session queues exactly if, since the last admitted breaking command, input was waiting behind a line read while PIPELINING was in force, and what it withholds is exactly the replies from the first such line on |
| `Pipelining.NothingWithheldAtTheEnd` | server/session.go:263-287 | Once a run has ended, for whatever reason, nothing is withheld |
| `Pipelining.QueuesOnlyInForce` | server/session.go:203-211 | In every run without a successful STARTTLS the session queues only while PIPELINING is in force |
| `Pipelining.QueueingIsAnnounced` | server/session.go:551-554 | In every run without a successful STARTTLS a session that queues has sent an EHLO reply, and every EHLO reply in its log announces PIPELINING |
| `Server.SmtpSession.WriteResponse` | server/session.go:1142-1186 | One more reply is given, in order: queued, or written at once, or (421) written after everything queued; what is queued afterwards is said exactly; the result is EOF exactly for a 421 |
| `Server.SmtpSession.FlushResponses` | server/session.go:1267-1282 | Everything queued is written in order and the queue emptied; a failed write leaves a proper beginning on the wire and the queue as it was |
| `Server.SmtpSession.FlushAndReturn` | server/session.go:421-426 | Flushing after a handler keeps the ordered list of replies and the handler's result, or reports the failed write |
| `Server.SmtpSession.HandleCommand` | server/session.go:249-288 | Parsing, the flush before a breaking command, the handler and the flush after it together have the effect of one step of the queue-free machine; queueing ends exactly with an admitted breaking command |
| `Server.SmtpSession.ParseAndLogCommand` | server/session.go:336-400 | Refuses with exactly the reply the dispatch rules give, or changes nothing and yields the command |
| `Server.SmtpSession.RunHandler` | server/session.go:403-418 | Every handler, on the command it is registered for, has the effect of the machine's handler and reads exactly the bytes the command needs |
| `Server.SmtpSession.HandleLine` | server/session.go:185-219 | A line of any length has the effect of one step; mode and queue afterwards are those the rules give for the probe, the line and the session it met |
| `Server.SmtpSession.OneLine` | server/session.go:170-220 | One turn of the loop: the rest of the run from the new state is the rest of the run from the old one |
| `Server.SmtpSession.RunCommandLoop` | server/session.go:169-221 | The loop arrives at the run of the byte stream, its mode and queue at those the rules of pipelining give, or the peer is gone on the way |
| `Server.SmtpSession.HandleSession` | server/session.go:145-166 | The same for the whole session from greeting to end |
| `Server.SmtpSession.Greet` | server/session.go:965-995 | A greeting and HELO state, or on drop ports neither |
| `Server.SmtpSession.HandleHelo` | server/session.go:428-449 | HELO and EHLO as in the machine, simulated errors included |
| `Server.SmtpSession.HandleEhlo` | server/session.go:451-487 | EHLO as in the machine: rejection, delays, negotiated terms, reply |
| `Server.SmtpSession.BuildEhloResponse` | server/session.go:492-514 | The lines appended one by one are the announced offers ended by 250 OK, and the fields are the negotiated terms |
| `Server.SmtpSession.EarlyCapabilities` | server/session.go:524-548 | AUTH, 8BITMIME and SIZE: lines and fields, the size limit overwritten only when a size is asked for and SIZE is on |
| `Server.SmtpSession.LaterCapabilities` | server/session.go:550-579 | PIPELINING, STARTTLS, CHUNKING, SMTPUTF8, ENHANCEDSTATUSCODES: lines and fields |
| `Server.SmtpSession.HandleAuth` | server/session.go:618-633 | AUTH as in the machine |
| `Server.SmtpSession.Converse` | server/session.go:635-658 | The mechanism's direct writes come after everything given before and before the result |
| `Server.SmtpSession.HandleMail` | server/session.go:660-698 | MAIL as in the machine, all remembered errors replaced |
| `Server.SmtpSession.HandleRcpt` | server/session.go:700-728 | RCPT as in the machine |
| `Server.SmtpSession.HandleVrfy` | server/session.go:731-786 | VRFY as in the machine: one reply, nothing changed |
| `Server.SmtpSession.HandleData` | server/session.go:788-825 | DATA as in the machine, consuming exactly the body |
| `Server.SmtpSession.StoreBody` | server/session.go:810-825 | The half of DATA after the 354: read failure, size limit, store, reset |
| `Server.SmtpSession.HandleRset` | server/session.go:939-952 | RSET as in the machine |
| `Server.SmtpSession.HandleNoop` | server/session.go:954-962 | NOOP as in the machine |
| `Server.SmtpSession.HandleStartTls` | server/session.go:1060-1096 | STARTTLS as in the machine, at command level |
| `Server.SmtpSession.HandleQuit` | server/session.go:1098-1115 | QUIT as in the machine; a 421 in its place leaves the state |
| `Server.SmtpSession.HandleBdat` | server/session.go:1377-1435 | BDAT as in the machine, consuming exactly the chunk and an optional line end, and nothing when refused |
| `Server.SmtpSession.StoreChunk` | server/session.go:1418-1435 | The chunk is appended; the last one stores the whole buffer and resets, or keeps it on a failed store |
| `Server.SmtpSession.ReadBdatChunk` | server/session.go:1438-1458 | Exactly n bytes, then an optional line end |
| `Framing.FramingRoundTrip` | server/session.go:172-195 | Every stream made of lines, accepted chunks of arbitrary bytes, bodies, and blank lines after any of them is read back as exactly those lines with exactly those bytes |
| `Framing.LineEndsDoNotMatter` | server/session.go:1447-1456 | A stream stays well sent and means the same run when CRLF is exchanged for LF after lines, and an empty line is added or left out after chunks, lines or bodies |
| `Framing.BytesAreEvents` | server/session.go:169-221 | The run over any byte stream is a run over some sequence of events |
| `Moves.StepMoves` | server/session.go:249-288 | Every step of every session makes one of thirteen moves, and it is the move that a function of the exchange alone (line, replies, chunk taken, message stored) and of how it ended gives |
| `History.InvAlways` | server/session.go:660-952 | After every sequence of events: session fields and stored messages agree with the log of exchanges, the delay lies in 0..605 and the size limit in its bounds |
| `Transactions.EnvelopeFidelity` | server/session.go:862-910 | Every stored message carries the address of the last accepted MAIL and exactly the recipients accepted since, in order, and is the first stored for that MAIL |
| `Transactions.OneStorePerMail` | server/session.go:923-937 | Between two stored messages there is an accepted MAIL |
| `Transactions.RememberedErrorsAgree` | server/session.go:685-694 | In every run the six remembered errors are what the six literal prefixes extract from the last accepted MAIL address not yet stored, RSET notwithstanding, and none without one; at most one is set; no message is stored whose sender asks for a DATA error |
| `Transactions.AtMostOneError` | smtp/errors.go:117-142 | No address requests errors for two commands |
| `Transactions.ContentIsOwnUnlessLeftover` | server/session.go:1418-1430 | BDAT content is leftover plus own chunks; it is the transaction's own exactly when nothing was left over at its MAIL |
| `Transactions.BodyIsContent` | server/session.go:803-815 | In every run a message stored by DATA holds exactly the body that command read |
| `Transactions.BufferOnlyInBdat` | server/session.go:1418-1435 | Without a failed BDAT LAST the buffer is non-empty only in BDAT state (or after QUIT), fits the limit, and nothing is ever left over |
| `Transactions.StoredFits` | server/session.go:1311-1318 | In every run the limit stays in 1000..10485760 and whatever is stored next fits the limit in force |
| `Transactions.ChunkCheckIsExact` | server/session.go:1399-1409 | In every reachable state a chunk is read exactly if it fits, and the session crashes exactly if the sum of the lengths exceeds the machine integers, for which bytes must be waiting |
| `Transactions.CrashExactly` | server/session.go:1399-1419 | In every run the next command crashes the session exactly if it is an admitted BDAT whose size overflows together with the chunks the log shows waiting, and no simulated error stops it before |
| `Surprises.BytesOutliveTheirTransaction` | server/session.go:1421-1430 | For every mailbox library and every MAIL argument that names an address asking for no error: a refused BDAT LAST followed by RSET puts its bytes into the next message |
| `Surprises.LeakAsSent` | server/session.go:1421-1430 | The same for `MAIL FROM:<a@b.test>`, whatever else the library does |
| `Surprises.OverflowCrashes` | server/session.go:1399-1419 | A run that crashes: MAIL, BDAT 1, BDAT with the largest machine integer |
| `Surprises.ChunkIsReadAsCommands` | server/session.go:1399-1409 | Over bytes, for every size above the limit: the chunk of a refused BDAT is read as commands, and a QUIT line in it ends the session |
| `Surprises.PromptIsTheAnswer` | server/session.go:618-633 | A run in which AUTH has one reply and it starts with "334 ": the sender asked for that error |
| `Dialogue.StepAnswered` | server/session.go:249-288 | Every session answers every command it does not break off with exactly the prompts due (354 for an admitted DATA without DATA error, the mechanism's for an AUTH it takes up, none otherwise) and one answer; that answer is itself a prompt exactly for an admitted AUTH with a simulated 334 |
| `Answers.SimulatedAnswers` | server/session.go:939-962 | In every run RSET, NOOP, QUIT and STARTTLS are answered with the error that the last accepted MAIL address not yet stored requests under the literal name of the command, and with their own reply exactly if it requests none |
| `Answers.ErrorsAreRequested` | server/session.go:685-694 | In every run the session knows exactly the errors requested, each under its literal name |
| `Answers.ResetEffect` | server/session.go:939-952 | A RSET answered with an error changes nothing; one that is accepted clears the envelope and goes to MAIL |
| `Answers.AuthAnswer` | server/session.go:618-658 | In every run AUTH is answered with the requested error, with 504 unless the mechanism is one of the five in any letter case, or after its prompts with 235 exactly if authentication succeeded and else 535; only success changes the session |
| `Answers.MailAnswer` | server/session.go:660-698 | MAIL is accepted exactly if it names a valid mailbox that requests no MAIL error; the errors remembered are those requested, each under its literal name |
| `Answers.RcptAnswer` | server/session.go:700-728 | RCPT is accepted exactly if it names a valid mailbox that requests no RCPT error, and then adds that address |
| `Answers.DataAnswer` | server/session.go:788-825 | In every run an admitted DATA is answered with the requested error or prompts; a body that fits is stored under the envelope the log shows exactly if the store takes it, and the answer is the acceptance or tells the reason |
| `Answers.BdatPlanned` | server/session.go:1377-1409 | In every run what BDAT decides before reading, by the line, the requested error, the chunks the log shows waiting and the limit |
| `Answers.BdatAnswer` | server/session.go:1411-1435 | In every run a chunk so admitted is kept, or with the last one all waiting chunks are stored under the envelope the log shows exactly if the store takes them, and the answer is the acceptance or tells the reason |
| `Answers.AcceptedExactlyIfStored` | server/session.go:810-825 | For every command of every run the last reply is the acceptance of a message exactly if a message was stored |
| `Answers.StorageReplyTells` | server/session.go:912-921 | A refused store is answered with 550, 452 or 450, exactly as the reason contains "not active", else "quota", else neither |
| `Answers.HelloAnswer` | server/session.go:428-487 | HELO and EHLO: 503 in MAIL state; the error the name requests; 502 exactly if a part of its label contains "reject" or "noehl"; else the greeting or the list |
| `Answers.VrfyAnswer` | server/session.go:731-786 | VRFY: 501 for no valid mailbox; else 250, 551, 553 or 550 exactly by how the local part starts, in any letter case; nothing changes |
| `Answers.RefusedAnswer` | server/session.go:336-400 | Which lines are not admitted, with the reply each gets; none of them changes the session |
| `Chunks.SplitDoesNotMatter` | server/session.go:1377-1435 | Any two splits of the same content, zero-length chunks and NOOP or VRFY between them allowed, store the same message and reach the same session |
| `Chunks.TransmissionRun` | server/session.go:1377-1435 | A transmission stores the concatenation of its chunks under the session's envelope; if the store refuses, buffer and state are as stated |
| `Chunks.RefusedSplitShows` | server/session.go:1422-1434 | After a refused store two splits reach the same session exactly when both or neither had a chunk before the last |
| `Chunks.OpeningRun` | server/session.go:1432-1434 | Before the last chunk everything sent is in the buffer and nothing is stored |
| `Dialogue.OneReplyEach` | server/session.go:169-221 | In every run each command but a failed last one has one answer after any prompts, itself no prompt unless the log shows that the sender asked for a 334; a 421 is the last reply; EOF only by a 421 or QUIT |
| `Dialogue.TwoRepliesForData` | server/session.go:788-825 | In every run a DATA that was not broken off has exactly [354, answer] if it was accepted, the answer no prompt, and one reply otherwise |
| `Dialogue.NothingAfterTheEnd` | server/session.go:213-219 | Once a run has ended no later command is processed |
| `Dialogue.OnlyEdges` | smtp/commands.go:213-246 | Every state change of every run is one of the listed edges, and AUTH state is never reached |
| `Dialogue.GuardsAreDead` | smtp/commands.go:213-246 | After the table admits a command, the state check its handler branches on fails exactly for HELO and EHLO in MAIL state, and there the handler only answers 503 |
| `Dialogue.DataIsTheEndOfStoring` | server/session.go:802-819 | From a session left in DATA state, every run stores nothing more and leaves that state only by ending |
| `Terms.EhloTellsTheTerms` | server/session.go:523-579 | For every host name the reply is 250- lines ended by one 250 OK, recovered by splitting at line ends; its extension lines are exactly the flags, and a SIZE or AUTH line is there exactly for the announced size and the offered mechanisms and for no others |
| `Terms.OffersExactly` | server/session.go:523-579 | For every host name that is welcomed, by literal pairs: an extension line (8BITMIME, PIPELINING, SMTPUTF8, ENHANCEDSTATUSCODES, CHUNKING, STARTTLS, SIZE, AUTH) is there exactly if no part of the first label, delays apart, contains the pattern that leaves it out (and, for STARTTLS, TLS is off) |
| `Terms.DelayAsAsked` | server/session.go:462-483 | After an EHLO the last positive delay of its label is in force, up to 605 |
| `Terms.SizeAsAsked` | server/session.go:539-548 | An EHLO with SIZE on announces and enforces the first size its label asks for, clamped to 1000..10485760 |
| `Terms.MechanismsAsAsked` | server/session.go:1286-1309 | For every host name that is welcomed and leaves AUTH in, by literals: the AUTH line offers what the last label part naming a mechanism asks for (authplain, authlogin, authcram, authoauth), and all mechanisms if none does |
| `Terms.AdvertisedIsEnforced` | server/session.go:539-548 | In every run without a successful STARTTLS, the EHLO reply anywhere in the log shows exactly the flags of every later session, and its only SIZE line the size that session enforces (for PIPELINING, what the flag gates: Pipelining.QueueingIsAnnounced) |
| `Terms.NothingNegotiatedYet` | server/session.go:428-442 | In every run without a successful STARTTLS nothing is in force, no size and no extension, before a HELO or EHLO is accepted |
| `Terms.NewTermsAreAnnounced` | server/session.go:451-487 | The flags change only by an EHLO that is answered with a list |
| `Terms.AnnouncedIsEnforced` | server/session.go:539-548 | For one EHLO in any session, so also after STARTTLS: the announced size is enforced exactly when this EHLO names one or none was in force before |
| `Surprises.StaleSizeIsEnforced` | server/session.go:539-548 | EHLO with a size, STARTTLS, EHLO without: the full size is announced and the old one enforced |
| `Surprises.QueuedThoughOff` | server/session.go:203-211 | EHLO, STARTTLS, EHLO nopipelining with input waiting: the reply, which announces no PIPELINING, is withheld |
| `Terms.TermsLast` | server/session.go:428-442 | Past HELO no term changes and HELO state is not reached again, except through a STARTTLS that succeeds |
| `Ehlo.HasCapability` | server/session.go:48-56 | True exactly when some part contains the pattern |
| `Ehlo.TakeOut` | server/session.go:462-483 | The in-place removal loop terminates, keeps exactly the other elements in order, and yields the last positive value |
| `Ehlo.TakeDelays` | server/session.go:462-483 | The same for delay parts: what is kept, and the delay in force afterwards |
| `Ehlo.DropConcat` | server/session.go:462-483 | Removal treats every stretch of the list on its own, so order and multiplicity survive |
| `Ehlo.LastPositiveMeaning` | server/session.go:467-474 | The value is that of the last positive request, or unchanged when there is none |
| `Ehlo.DelayBounded` | server/session.go:1462-1486 | An EHLO keeps the delay within 0..605 (over whole runs: History.InvAlways) |
| `Ehlo.LabelRoundTrip` | server/session.go:31-45 | Parts joined by dashes come back, whatever follows the first dot and however the letters are capitalised |
| `Ehlo.LabelInAnyCase` | server/session.go:31-45 | Host names that differ only in letter case have the same parts |
| `Ehlo.DelayAsWritten` | server/session.go:1462-1486 | A written delay of any machine size is read as written, up to 605 |
| `Ehlo.LastDelayCounts` | server/session.go:462-483 | The last delay part that asks for more than zero decides |
| `Ehlo.SizeAsWritten` | server/session.go:599-604 | A written positive size is read as written |
| `Ehlo.SizeAnywhere` | server/session.go:599-604 | The number after the first "size" of a part is the size it asks for, wherever that stands |
| `Ehlo.FirstSizeCounts` | server/session.go:596-616 | The first part that asks for a size decides |
| `Ehlo.Clamp` | server/session.go:605-611 | The closest allowed size |
| `Ehlo.ParseAndClampSize` | server/session.go:596-616 | The first positive machine integer after "size", clamped |
| `Ehlo.GetAuthMechanisms` | server/session.go:1286-1309 | The choice of the last part that makes one, otherwise all mechanisms |
| `Ehlo.LastChoiceCounts` | server/session.go:1286-1309 | The last part that names a mechanism decides |
| `Ehlo.LinesRecovered` | server/session.go:485-486 | Splitting a joined reply gives back its lines |
| `Replies.SimulatedErrorIs421` | server/session.go:1119-1140 | For every code 000 to 999, with or without enhanced code, the formatted reply is taken for a 421 exactly when the code is 421 |
| `Replies.CodeDecides` | server/session.go:1119-1133 | A reply that starts with three digits is a 421 exactly when those digits are |
| `Replies.ErrorStart` | server/session.go:1362-1373 | A simulated error starts with its code and a space, in three digits exactly from 100 on |
| `Replies.EnhancedShown` | server/session.go:1362-1373 | The enhanced code stands in the reply exactly if it was negotiated and requested |
| `Replies.ErrorLooksLikePrompt` | server/session.go:1362-1373 | A simulated error starts like an AUTH prompt exactly when its code is 334 |
| `Replies.ErrorIsNoFixedReply` | server/session.go:1362-1373 | No simulated error is equal to the replies 354, 220, 235 and 250 that prompt for a body, start TLS, log in and accept a message, whatever its code and enhanced code |
| `ErrorPattern.ParsesBack` | smtp/errors.go:90-115 | A printed request, with any text after the @ and its letters capitalised in any way, is parsed back for its verb and for no other |
| `ErrorPattern.OnlySentences` | smtp/errors.go:90-115 | Every error found was written as such a request, in some letter case |
| `ErrorPattern.UniqueReading` | smtp/errors.go:11-13 | No address reads as two requests; the basic and enhanced forms are disjoint |
| `ErrorPattern.OnlyLocalPartMatters` | smtp/errors.go:90-115 | Nothing after the first @ matters |
| `ErrorPattern.AtMostOneVerb` | smtp/errors.go:117-142 | Two verbs never both find an error in one address |
| `ErrorPattern.CodeRange` | smtp/errors.go:97-109 | Codes lie in 0..999 |
| `ErrorPattern.HeloLanguage` | smtp/errors.go:144-153 | A greeting name requests an error exactly if it starts with helo or ehlo, in any letter case, three digits and a dot |
| `Commands.ParseSpelled` | smtp/commands.go:32-43 | A command written out is parsed back |
| `Commands.ParsesInAnyCase` | smtp/commands.go:32-43 | A command written out with its command word in any letter case is parsed back |
| `Commands.CommandLines` | smtp/commands.go:32-63 | A line is the command that its first word names, by the literal words and in any letter case, with the words after it |
| `Commands.ArgsDemanded` | smtp/commands.go:66-121 | Arguments are valid exactly if FROM: or TO: starts the first one of MAIL and RCPT and LAST is the second one of BDAT, in any letter case, and HELO, EHLO, AUTH and VRFY have one |
| `Commands.AdmittedExactly` | smtp/commands.go:213-246 | The table of states per command admits just the commands listed per state |
| `Strings.FoldCompares` | server/session.go:1387-1391 | Folding compares texts exactly up to letter case, by the ranges of the letters |
| `Strings.TrimAround` | server/session.go:178-183 | White space around a line is trimmed, and nothing else |
| `Strings.FieldsSpaced` | smtp/commands.go:32-43 | Words are separated by any amount of white space |
| `Strings.ContainsMeans` | server/session.go:48-56 | A text contains another exactly if it is that one with something before and after it |
| `Commands.VerbOf` | smtp/commands.go:45-63 | The verb whose name it is, or none if no verb has that name |
| `Domain.RegexIsLabelList` | smtp/commands.go:157-168 | The nested pattern accepts exactly the dot-joined lists of labels of 1 to 63 characters that start and end with a letter, number or mark and otherwise may hold hyphens |
| `Domain.ValidatedByLabels` | smtp/commands.go:170-184 | A domain is valid exactly when it has at most 255 bytes and the labels between its dots are good |
| `Shutdown.InvAlways` | server/server.go:410-517 | The protocol invariant holds in every interleaving |
| `Shutdown.WaitGroupCountsSessions` | server/server.go:410-427 | The wait group always counts exactly the registered sessions |
| `Shutdown.OnlyOneNotifies` | server/server.go:464-468 | Of any two calls one returns at once without notifying anybody |
| `Shutdown.EachListedOnce` | server/server.go:492-501 | Every listed session is scheduled exactly one 421 close, no other session any, and none is closed more often than scheduled |
| `Shutdown.NeverScheduledTwice` | server/server.go:492-501 | At no time is a session scheduled twice |
| `Shutdown.NilMeansListedAreGone` | server/server.go:503-516 | A nil return through the wait path means every listed session, and every one registered before zero was seen, has unregistered for good |
| `Shutdown.NilIsTrueExactly` | server/server.go:464-517 | At the moment a call has closed the listeners it listed: in every continuation in which it returns nil nobody is active, exactly when every listener has been opened and closed and every accepted connection has registered its session |
| `Shutdown.LeftBehind` | server/server.go:464-517 | A session active after a nil return was not seen by the call; it was accepted before the listeners were closed, or came in through a listener not among those closed |
| `Shutdown.ClosedAcceptsNothing` | server/server.go:448-460 | A closed listener stays closed and accepts nothing more |
| `Shutdown.NobodyLaterExactly` | server/server.go:464-517 | In every reachable state: no session is active in any continuation, exactly when every listener has been opened and closed and every accepted connection has had its session and ended it |
| `Shutdown.NilWithALiveSession` | server/server.go:473-477 | A connection accepted before the close and registered after the count: nil is returned, and a session is active that nobody will notify |
| `Shutdown.NilWithAnOpenListener` | server/server.go:391-396 | A listener recorded after the list was copied: nil is returned, and the listener goes on accepting |
| `Shutdown.Registry.RegisterSession` | server/server.go:411-419 | The session joins the set and the count keeps step, as the protocol's step has it |
| `Shutdown.Registry.UnregisterSession` | server/server.go:422-427 | The session leaves the set and the count keeps step, as the protocol's step has it |
| `Shutdown.Registry.ActiveSessionSnapshot` | server/server.go:430-438 | A list of exactly the active sessions, each once, with which the protocol's snapshot can be taken |
| `Ports.PortValidator.ValidateAll` | server/config.go:171-182 | For any number of ranges and ports: success exactly when no port number is claimed twice and no empty range is reported; with non-empty ranges, exactly when no port number is claimed twice |
| `Ports.PortValidator.ValidateRangeOverlaps` | server/config.go:123-132 | Finds a real overlap, or there is none |
| `Ports.PortValidator.ValidatePortRangeConflicts` | server/config.go:135-144 | Finds a port inside a range, or there is none |
| `Ports.PortValidator.ValidatePortConflicts` | server/config.go:147-168 | Finds two names for one port, or there are none |
| `Ports.ChecksDecideSharing` | server/config.go:76-84 | The three pairwise checks pass exactly when no number is shared and no pair with an empty range overlaps formally |
| `Ports.EmptyRangesCanMislead` | server/config.go:82-84 | With an empty range the overlap check can report a conflict that is none |
| `Ports.ValidatePortConfiguration` | server/config.go:453-495 | Success exactly when the 23 opened ports differ and the normal port does not look like a mistyped delay port |
| `Ports.OneBehaviourPerPort` | server/config.go:409-450 | From zero base delays a port gets at most one delay unless the windows overlap on it, which a validated configuration rules out |
| `Ports.EachPortItsDelay` | server/config.go:409-429 | Each of the ten ports of a window has its configured delay in seconds, only the first drop port drops at once, and any other port is normal |
| `Ports.DescriptionAgrees` | server/config.go:432-450 | The description of a port is true of its delays, and of all of them, exactly where the windows do not overlap |
| `Maildir.Mailbox.SaveMessage` | storage/mailbox.go:124-193 | For every mailbox and every combination of failures: nil exactly when nothing that matters failed, and then the complete file, which reads back as the message, is in new/, overwriting one exactly if an earlier process left that name, which it has not if the clock has moved on; otherwise new/ unchanged; the temporary file is gone unless removing it failed |
| `Maildir.Mailbox.SaveAll` | storage/mailbox.go:124-193 | Over any number of deliveries exactly those without failure are in new/, each complete and under its own name, nothing else changed; if the clock has moved on since an earlier process, new/ grows by exactly their number |
| `Maildir.WriteMessage` | storage/mailbox.go:214-241 | The file is complete exactly when no write failed, and then reads back as the message |
| `Maildir.FileReadsBack` | storage/mailbox.go:214-241 | A complete file, read header by header up to the first empty line, gives back sender, recipients in order and content, for addresses that fit into headers |
| `Maildir.NameTells` | storage/mailbox.go:196-200 | The file name spells the times, process, counter and host it was made with |
| `Maildir.NamesNeverCollide` | storage/mailbox.go:196-200 | Names are equal only if all they were made from is equal |
| `Maildir.RestartCanOverwrite` | storage/mailbox.go:178-200 | A process restarted with the same pid and host at the same clock reading overwrites the file of its predecessor |
| `Deliveries.NewHoldsExactlyTheDelivered` | storage/mailbox.go:124-200 | For several deliveries at once, in every interleaving of their file operations and counter increments, at every moment: each delivery that returned nil has its complete message in new/ under a name of its own, and everything else there is as the process found it |
| `Deliveries.NewGrowsByTheDelivered` | storage/mailbox.go:124-200 | In every interleaving, if the clock has moved on since an earlier process, nothing in new/ is overwritten and it grows by exactly the number of deliveries that returned nil |
| `Deliveries.PiecesAreTheFile` | storage/mailbox.go:214-241 | The texts written one by one make the complete file |

## Left out

- TLS handshake, certificates and the bytes after STARTTLS: STARTTLS is modelled at command level, with the outcome of
  the handshake as an input.
- The bytes an AUTH mechanism reads and its base64: the prompts it sends and its result are inputs; the modelled input
  is what the session's own reader delivers.
- Dot-unstuffing of DATA bodies and header parsing: the reader of a body is a function parameter.
- Mailbox syntax: extracting, validating and normalising a mailbox, and the domain check inside VRFY, are function
  parameters of the session; the domain check itself is in `Domain`, with the class of letters, numbers and marks as a
  parameter.
- Unicode white space, and letters outside ASCII whose lower or upper case is an ASCII letter: the session's characters
  are bytes.
- SMTP extensions, custom capability parsers, observers, authorizers and rate limiting: an empty extension list and the
  pass-through parser are assumed.
- The `Message` field of an error result, logging, sleeps, deadlines and configuration loading.
- The session's protocol fields are one record-valued field of the object, so updates of single fields are updates of
  that record; the object has no aliases.
- `CloseWith421` running beside its own session: in the shutdown protocol it is one step.
- That `Start` returns: nothing in the source ever closes the channel it waits for.
- Machine-integer overflow of port numbers and of the message counter.
- Listeners that cannot be opened (port in use): every port may still be opened at any time.
- Path checks of a delivery are one possible failure.
