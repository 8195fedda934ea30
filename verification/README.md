# Deadlocker, modelled and proved

Deadlocker plays scripted MySQL scenarios step by step, shows who waits for whom, and decodes the
traffic between its sessions and the server. This project models the algorithms that carry that
work and proves what they promise. `dafny verify dfyconfig.toml` checks all of it.

| file | what it models |
|---|---|
| `Options`, `Bytes`, `WireReader`, `BinaryRow` | optional values and bytes; the bounds-checked packet cursor, length-encoded values, text and binary rows |
| `Decoder`, `Frames`, `Dialogue`, `Exchanges`, `Statements` | the response state machine, a server that speaks the protocol, how far the decoder stays in step with it, and the statement map against the server's statements |
| `RunMachine`, `RunProperties`, `RunOutcomes`, `RunObject` | one run: steps, console statements, settle windows, sessions, setup and close as freely interleaving critical sections |
| `WaitGraph`, `Lint`, `LintRun` | the wait-graph cycle check, and the ordering linter tied to the run machine |
| `Shrink` | the scenario shrinker against an oracle that may answer anything |
| `EventBus`, `Pool` | the two small concurrent protocols: event replay and single-flight container starts |
| `Text`, `LockText`, `LockDrawing` | reading LOCK_DATA and drawing locks onto rows and gaps |
| `TableRow`, `Markup`, `MarkdownTable`, `Markdown` | the Markdown block renderer and its tables |
| `VersionKeys`, `VersionLog` | the append-only history over byte-ordered keys |

Code that changes state is a class with the source's fields, one method for each operation or
critical section, and every method's postcondition equates the new state with a specification
function of the old one; the theorems are about those functions. For the concurrent parts a run is
any sequence of actions: an action whose goroutine does not exist changes nothing, so no order is
assumed. Packets the server sends are laid out as the MySQL client/server protocol documentation
does ("Protocol::LengthEncodedInteger", "Text Resultset", "Binary Protocol Resultset Row",
"COM_STMT_PREPARE_OK", "OK_Packet", "EOF_Packet", "ERR_Packet").

## What the proofs found

Where a property one would expect does not hold, the code is kept as it is, a lemma gives the
input, and another says when it does hold.

- The decoder is right about a whole exchange exactly when the exchange is `Trackable`: no LOAD
  DATA LOCAL INFILE that runs to its OK (which is reported as unsolicited), with DEPRECATE_EOF every
  result set's terminator under nine bytes (a longer one is read as a row), and without it no result
  after a result set. An exchange that is not does not disturb the next one.
- A granted COM_RESET_CONNECTION drops the server's statements, and the decoder keeps them, so an
  execute can be shown with SQL the server no longer has. The map is what the server has exactly when
  no statement prepared before a reset has been left alone since.
- `Setup` ending after `Close` puts the status back from closed to ready; the closed flag stays. A
  closed status is final exactly when setup has ended.
- A run whose last step ends while a console statement holds an actor is never called finished;
  it is finished exactly when the last completion leaves no actor busy.
- The cap on console sessions counts open sessions only, so opens that overlap can exceed it; it is
  safe exactly when those being opened are counted as well.
- The refusal of a busy actor names a step that has already ended, if it names one, exactly when a
  console statement holds the connection.
- Overlapping publishes can reach a subscriber out of order; only publishes that do not overlap
  cannot.
- `Publish` says a slow subscriber can recover the full sequence from `History`: that is so exactly
  until the limit of 20000 events is exceeded, and a lost event can be fetched exactly while it is
  retained.
- An image whose own name is another's with `#deadlock-detect=off` after it shares a pool key with a
  different server.
- A string key that contains "supremum" is drawn as a lock above the highest key, and a string that
  looks like hex can be drawn on an earlier row.
- A line that continues a list item is written after the item, inside the list, where the comment in
  `Render` says it continues the item: only the text of item lines stands in items. A numbered item
  at the indent of an open bullet list becomes a bullet.
- The shrinker reports that every step is necessary whenever it removed none, even if every attempt
  erred; it has shown so exactly when it made as many attempts as there are steps and none erred.
- `Save` stores an empty API key as it is, where its comment says an empty key means unchanged: the
  settings page's handler puts the previous key in before it calls. By itself `Save` keeps the
  comment's promise exactly when the key is not empty or there was none to keep.

## Model

| member | source | states |
|---|---|---|
| `Bytes.LittleEndianRoundTrip` | internal/wire/packet.go:100-114 | reading little-endian undoes writing it, for every value that fits the width |
| `Bytes.LowestFirst` | internal/wire/packet.go:100-114 | byte i of an encoding is the one worth 256 to the power i |
| `Bytes.TwosComplement` | internal/wire/decode.go:827-853 | a signed reading is the value or the value less 256 to the width, in the range of that width; writing is its inverse |
| `Bytes.TrimBlanksAround` | internal/wire/decode.go:643-679 | a blank on either side of an info text goes, in any of its encodings, and the text stays |
| `WireReader.LenEncIntRoundTrip` | internal/wire/packet.go:118-140 | `lenEncInt` gives back every 64-bit value from its encoding, wherever in the payload it stands, and moves just past it |
| `WireReader.LenEncStringRoundTrip` | internal/wire/packet.go:143-154 | `lenEncString` gives back every byte string |
| `WireReader.AccessorsStayInside` | internal/wire/packet.go:56-154 | on arbitrary bytes every accessor moves the cursor forward only and never past the payload, the first error sticks, and a string read before the end makes progress |
| `WireReader.ShortReadIsReported` | internal/wire/packet.go:79-154 | a read past the end records how much was wanted and where, or how much was there for a string, returns nothing and leaves the cursor at the end |
| `WireReader.TextRowRoundTrip` | internal/wire/decode.go:610-624 | the text-row loop returns exactly the encoded columns, NULLs included, and stops at the end without error |
| `WireReader.Reader.Byte` | internal/wire/packet.go:79-87 | one byte and one step forward, or 0, an error and no move at the end |
| `WireReader.Reader.Fixed` | internal/wire/packet.go:89-98 | n bytes and n steps forward, or none, an error and the cursor at the end |
| `WireReader.Reader.Uint` | internal/wire/packet.go:100-114 | the little-endian value of n bytes, or 0 when they are not there |
| `WireReader.Reader.ReadLenEncInt` | internal/wire/packet.go:118-140 | the value in the width its first byte announces, or NULL for 0xFB |
| `WireReader.Reader.ReadLenEncString` | internal/wire/packet.go:143-154 | the announced number of bytes, NULL, or an error with the cursor at the end when fewer are left |
| `WireReader.Reader.RestOfPacket` | internal/wire/packet.go:176-183 | returns what is left and nothing when nothing is |
| `WireReader.Reader.ReadTextRow` | internal/wire/decode.go:610-624 | the loop terminates and returns what the specification of the row says |
| `BinaryRow.BitmapRoundTrip` | internal/wire/decode.go:802-823 | the NULL bitmap, offset by two bits, flags exactly the NULL cells |
| `BinaryRow.BitmapLengthIs` | internal/wire/decode.go:804 | the bitmap has room for two bits and one for each column, and no byte more |
| `BinaryRow.ReadsTheProtocol` | internal/wire/decode.go:708-767 | the layout read for each column type, and the bit read as unsigned, are those of the protocol by number: 1 for one byte, 2 and 13 for two, 3 and 9 for four, 8 for eight, 4 and 5 for floats, 6 for NULL, 7, 10 and 12 for dates, 11 for times, strings otherwise |
| `BinaryRow.MomentsByLength` | internal/wire/decode.go:891-950 | a date of 4, 7 or 11 bytes and a time of 8 or 12 is taken, of another length only passed over |
| `BinaryRow.RowStopsAtError` | internal/wire/decode.go:810-822 | a row has a value for every column, or ends in the first that could not be read, with that error |
| `BinaryRow.ValueRoundTrip` | internal/wire/decode.go:825-891 | one typed value, laid out by the type codes of the protocol, is given back, signed or unsigned, for every type and value, and the cursor ends just past it |
| `BinaryRow.BinaryRowRoundTrip` | internal/wire/decode.go:802-891 | a row is given back for every column list and every pattern of NULLs, and the payload is consumed exactly |
| `BinaryRow.DecodeBinaryValue` | internal/wire/decode.go:825-891 | the switch over column types reads what the specification says and indexes nothing out of range |
| `BinaryRow.DecodeBinaryRow` | internal/wire/decode.go:802-823 | the loop never indexes past the bitmap and returns what the specification says, stopping at the first error |
| `Decoder.ConnDecoder.DecodeCommand` | internal/wire/decode.go:352-424 | what one client packet does to the connection's state and which event it becomes, with the SQL, statement or database it names |
| `Decoder.ConnDecoder.DecodeResponse` | internal/wire/decode.go:426-452 | what one server packet does in each phase, with ERR in every phase |
| `Decoder.ConnDecoder.DecodeFirstResponse` | internal/wire/decode.go:454-510 | the five ways a first response packet can be read |
| `Decoder.ConnDecoder.DecodePrepareOk` | internal/wire/decode.go:456-482 | the statement is stored under its id with the SQL that asked for it, the event has its id and both counts, and the counts decide which block follows |
| `Decoder.ConnDecoder.DecodeDefinition` | internal/wire/decode.go:514-536 | a short EOF ends the block, anything else is a column definition |
| `Decoder.ConnDecoder.CountDefinition` | internal/wire/decode.go:538-559 | the counters and the end of a block when EOF packets are deprecated |
| `Decoder.ConnDecoder.AdvanceAfterDefinitionEOF` | internal/wire/decode.go:563-579 | which phase follows the end of a metadata block |
| `Decoder.ConnDecoder.DecodeRow` | internal/wire/decode.go:581-629 | a short EOF packet ends the rows with their total, anything else is the next row |
| `Decoder.ConnDecoder.DecodeOKPacket` | internal/wire/decode.go:643-679 | the fields of an OK packet, its trimmed info text included, and another result expected exactly when the status says so |
| `Decoder.ConnDecoder.DoResetResult` | internal/wire/decode.go:699-704 | the state between responses |
| `Decoder.DecodeErrPacket` | internal/wire/decode.go:681-697 | code, SQL state and message of an ERR packet |
| `Decoder.DecodeColumnDef` | internal/wire/decode.go:770-794 | name, table, type and flags of a column definition |
| `Frames.OkRoundTrip` | internal/wire/decode.go:643-679 | every OK packet is read back, its info text trimmed, under either header |
| `Frames.EofRoundTrip` | internal/wire/decode.go:587-592 | every plain EOF packet is read back |
| `Frames.ErrRoundTrip` | internal/wire/decode.go:681-697 | every ERR packet is read back |
| `Frames.ColumnRoundTrip` | internal/wire/decode.go:770-794 | what the decoder keeps of every column definition is what was sent |
| `Dialogue.ErrAlwaysEnds` | internal/wire/decode.go:426-452 | an ERR packet is read as one in every state and ends the response |
| `Dialogue.CutByErr` | internal/wire/decode.go:426-452 | a response cut short by an ERR at any point is read right just up to where the uncut one would be misread, and afterwards nothing is awaited |
| `Dialogue.ResultSetRead` | internal/wire/decode.go:454-629 | every packet of a result set is read as what it is, text or binary, with or without EOF packets and whatever warnings and status they carry, rows numbered and counted; a terminator of nine bytes or more is the one packet that is not |
| `Dialogue.ChainRead` | internal/wire/decode.go:454-679 | the exact position of the first misread packet of a chain of results |
| `Dialogue.ChainSafeIff` | internal/wire/decode.go:582-595 | a chain is read to its end exactly when every terminator is short, or, without DEPRECATE_EOF, only the last result is a result set |
| `Dialogue.PrepareRead` | internal/wire/decode.go:456-579 | every packet of a prepare response is read as what it is, whatever the numbers of parameters and columns and whatever its EOF packets carry, and nothing is awaited afterwards |
| `Exchanges.RequestRead` | internal/wire/decode.go:352-424 | every command is labelled with its code and SQL, and an execute with the SQL of its statement |
| `Exchanges.ReplyRead` | internal/wire/decode.go:426-679 | how many packets of a response are read right, and that a response read to its end leaves nothing awaited |
| `Exchanges.ExchangeTracked` | internal/wire/decode.go:352-704 | from any state, with an error allowed at any point, all packets of an exchange become the events they truly are if and only if it is trackable; then nothing is awaited |
| `Exchanges.InfileOkIsUnsolicited` | internal/wire/decode.go:491-494 | the OK after a LOAD DATA LOCAL INFILE is reported as unsolicited |
| `Exchanges.LongEndIsReadAsARow` | internal/wire/decode.go:582-595 | an exchange whose nine-byte terminator is read as a row |
| `Exchanges.ResultAfterRowsIsUnsolicited` | internal/wire/decode.go:586-592 | without DEPRECATE_EOF, an exchange whose result after a result set is reported as unsolicited |
| `Exchanges.DialogueTracked` | internal/wire/decode.go:352-704 | in a dialogue each exchange is read right exactly when it is trackable, whatever came before it |
| `Exchanges.ExchangeStatements` | internal/wire/decode.go:383-465 | what one exchange does to the statement map, trackable or not |
| `Exchanges.StatementsAreTheOpenOnes` | internal/wire/decode.go:383-402 | through any dialogue the map holds exactly the statements prepared and not closed since, with their SQL, whether or not a reset has made the server drop them |
| `Exchanges.ExecuteShowsItsSql` | internal/wire/decode.go:383-402 | every execute of an open statement is shown with the SQL that prepared it |
| `Statements.MapIsRightIff` | internal/wire/decode.go:383-422 | through any dialogue the map is what the server has, for every id and SQL, exactly when no statement prepared before a granted COM_RESET_CONNECTION has been left alone since |
| `Statements.StaleIsShown` | internal/wire/decode.go:389-398 | an execute of such a statement is shown with SQL the server has dropped |
| `Statements.ResetIsNotNoticed` | internal/wire/decode.go:417-419 | prepare, reset, execute: the input |
| `Exchanges.Follow` | internal/wire/decode.go:190-218 | the decoder object fed with an exchange reports exactly the true events when, and only when, the exchange is trackable |
| `RunMachine.EvaluateMeaning` | internal/engine/run.go:1282-1335 | the verdict of a blocked or ended step is the one its author would give from expectation, status, error kind and whether it was seen waiting; `blocks` matches exactly when it was |
| `RunMachine.NobodyBusyAllEnded` | internal/engine/run.go:1018-1025 | with every step submitted, no busy actor means every other step has ended |
| `RunMachine.ActionsKeep` | internal/engine/run.go:875-1040 | every critical section keeps the invariant of the run |
| `RunMachine.ReachableInv` | internal/engine/run.go:875-1040 | every state any interleaving reaches satisfies it |
| `RunProperties.OneStatementPerSession` | internal/engine/run.go:897-919 | a session is busy exactly while a statement is in flight on it, and never two |
| `RunProperties.StepsFollowTheCursor` | internal/engine/run.go:875-954 | steps before the cursor are submitted and the rest pending; a running or blocked step has its goroutine and is its actor's latest |
| `RunProperties.FinishedMeansEnded` | internal/engine/run.go:1018-1025 | a finished run has only ended steps |
| `RunProperties.VerdictIsOfTheFacts` | internal/engine/run.go:1282-1335 | two ended steps with the same four facts have the same verdict, in any two runs |
| `RunProperties.NothingIsTakenBack` | internal/engine/run.go:937-1027 | from any reachable state on, done and error keep their whole record, an observed wait and a `blocks` match are never withdrawn, and the closed flag stays |
| `RunProperties.ClosedStatusCanBeOverwritten` | internal/engine/run.go:425-454 | setup that ends after close sets the status to ready while the run stays closed: the input |
| `RunProperties.ClosedIsFinalIff` | internal/engine/run.go:425-454 | a closed status stays closed in every continuation exactly when setup had ended |
| `RunProperties.QuietRunMayNeverFinish` | internal/engine/console.go:273-311 | a fully played, quiet run that is never called finished |
| `RunProperties.FinishedIff` | internal/engine/run.go:1018-1025 | a fully played run that is not closed is called finished exactly when the completion of its last step left no actor busy |
| `RunProperties.FullyPlayedIsFinished` | internal/engine/run.go:1018-1025 | without statements typed at actors' own connections a fully played run is finished or closed |
| `RunProperties.SessionCapCanBeOverrun` | internal/engine/console.go:86-123 | opens that overlap reach any number of sessions |
| `RunProperties.CapKeptIff` | internal/engine/console.go:86-123 | no matter which of the sessions being opened connect, and when, there are never more than eight, exactly when every open that was let in would have passed a check that counts those being opened as well |
| `RunProperties.OverfullIsReached` | internal/engine/console.go:86-123 | too many sessions can come about by connecting alone exactly when open and opening ones together exceed the cap |
| `RunProperties.FailedOpenFreesItsSeat` | internal/engine/console.go:110-112 | an open whose connection fails gives its place back and leaves no session |
| `RunProperties.BusyRefusal` | internal/engine/run.go:897-902 | a refusal that names a step names one of that actor, which is in flight or has ended, the latter exactly when a console statement holds the connection; it names none exactly when the actor has been given none |
| `RunProperties.RefusalBlamesAnEndedStep` | internal/engine/run.go:897-902 | a run in which the refusal names a step that is done |
| `RunOutcomes.StepOutcomeIsRecorded` | internal/engine/run.go:1002-1027 | in any run, when a statement in flight comes back, its step records that very error or none, is failed or done accordingly, gets the verdict that goes with them and the observed wait, its actor is idle and no other step changes |
| `RunOutcomes.SettledIsBlocked` | internal/engine/run.go:937-949 | after the settle window a step still running is blocked, with the verdict of a blocked step; one that ended is left alone |
| `RunOutcomes.ConsoleOutcomeIsRecorded` | internal/engine/console.go:280-301 | the same for a console statement: the entry is exactly the outcome that came back, and the session is idle |
| `RunOutcomes.SettledEntryIsBlocked` | internal/engine/console.go:255-265 | after the settle window a console statement still running is blocked and marked so; one that ended is left alone |
| `RunOutcomes.StepIsAcceptedIff` | internal/engine/run.go:875-919 | exactly when each answer of `Step` is given; a refusal changes nothing |
| `RunOutcomes.ConsoleIsAcceptedIff` | internal/engine/console.go:200-239 | exactly when each answer of `Console` is given; a refusal changes nothing and an accepted statement is the newest entry |
| `RunOutcomes.OpenedSessionIsUsable` | internal/engine/console.go:114-118 | a session whose connection is up is listed last and takes statements exactly if the run does |
| `RunOutcomes.SetupEndsAsItWent` | internal/engine/run.go:425-454 | setup ends in ready or failed as it went |
| `RunOutcomes.ClosingIs` | internal/engine/run.go:1389-1400 | closing sets the flag and the status and nothing else |
| `RunOutcomes.ClosedRefusesAll` | internal/engine/run.go:875-880 | a closed run accepts no step, no console statement and no session, however it goes on |
| `RunOutcomes.ClosedSessionIsGone` | internal/engine/console.go:133-171 | a closed session is never listed again and takes no statement, however the run goes on; the others stay |
| `RunObject.Run.constructor` | internal/engine/run.go:375-413 | a new run is an initial state of the machine, with its steps pending |
| `RunObject.Run.StepSubmit` | internal/engine/run.go:875-919 | the first critical section of `Step`, with each of its refusals |
| `RunObject.Run.StepSettle` | internal/engine/run.go:937-949 | its second section: still running means blocked, judged at once |
| `RunObject.Run.Execute` | internal/engine/run.go:1002-1027 | the section that records the outcome that came back and may finish the run |
| `RunObject.Run.AnyBusyLocked` | internal/engine/run.go:1115-1122 | true exactly when some actor is busy |
| `RunObject.Run.ConsoleSubmit` | internal/engine/console.go:200-239 | the first critical section of `Console`, with each of its refusals |
| `RunObject.Run.ConsoleSettle` | internal/engine/console.go:255-265 | its second section: a statement still running is marked blocked |
| `RunObject.Run.ExecuteConsole` | internal/engine/console.go:280-301 | the section that records a console statement's outcome |
| `RunObject.Run.OpenSessionBegin` | internal/engine/console.go:87-108 | the section that checks the cap and takes a number |
| `RunObject.Run.OpenSessionRegister` | internal/engine/console.go:114-118 | the section that registers a connected session |
| `RunObject.Run.CloseOne` | internal/engine/console.go:133-171 | the session leaves the order, and the others keep theirs |
| `RunObject.Run.Close` | internal/engine/run.go:1389-1400 | the flag part of `Close`; a second call changes nothing |
| `RunObject.Run.EndSetup` | internal/engine/run.go:425-454 | the section that ends setup |
| `WaitGraph.BuildEdges` | internal/agentapi/api.go:910-932 | there is an edge exactly for each wait between two named actors |
| `WaitGraph.Search.Visit` | internal/agentapi/api.go:934-965 | a visit ends, and either a cycle is known or everything reachable from the actor is ranked below it |
| `WaitGraph.HasCycle` | internal/agentapi/api.go:934-965 | the search ends on every finite graph and is true exactly when some actor reaches itself along one or more edges |
| `WaitGraph.RankedIsAcyclic` | internal/agentapi/api.go:934-965 | a finished search rules out every cycle |
| `WaitGraph.BackEdgeIsACycle` | internal/agentapi/api.go:934-965 | an edge back into the current path is a cycle |
| `WaitGraph.LockViewCycle` | internal/agentapi/api.go:910-932 | the flag of a lock view is set exactly when there is a closed chain of named waits |
| `Lint.LintOrdering` | internal/agentapi/api.go:217-240 | the warnings are exactly the colliding pairs with the actor they collide on, in step order, one per step; there is none exactly when the scenario is ordered |
| `Lint.NearestCollision` | internal/agentapi/api.go:217-240 | any unordered pair of steps of one actor leads to a warning about the same blocked step |
| `Lint.QuietIffOrdered` | internal/agentapi/api.go:217-240 | no warning exactly when a release lies between every blocking step and each later step of its actor |
| `LintRun.NextReply` | internal/engine/run.go:897-902 | the busy check refuses the next step exactly when an earlier blocked statement of its actor is still waiting |
| `LintRun.OrderedRunsThrough` | internal/engine/run.go:875-954 | if blocked statements return at the next release, `Step` never refuses a step exactly when the linter is quiet |
| `Shrink.RunShrink` | internal/agentapi/jobs.go:623-715 | for any oracle and any cancellation: the result is a subsequence given by increasing `kept`, nonempty; if anything was dropped, an attempt played exactly that result and saw it reproduce; each attempt sets out from what the ones before leave, and the result is what all of them leave; kept and removed together are the original; at most 80 attempts, each a valid candidate with the answer it got; marks and note right; it reports itself aborted exactly if its last look at the context, one of a bounded number, found it cancelled, so never if it was not; below the cap and uncancelled, every single further removal was played from the result and did not reproduce, or leaves no valid case |
| `Shrink.DropKeepsReduction` | internal/agentapi/jobs.go:636-665 | playing a candidate that reproduces and taking it keeps all of that |
| `Shrink.OneMinimal` | internal/agentapi/jobs.go:628-690 | with a deterministic oracle that never errs, a job below the cap and uncancelled is 1-minimal |
| `Shrink.UncancelledIsMinimal` | internal/agentapi/jobs.go:641-709 | a job that is never cancelled, with a deterministic oracle that never errs, is 1-minimal or made 80 attempts |
| `Shrink.NothingLost` | internal/agentapi/jobs.go:628-690 | kept and removed add up; nothing removed means nothing changed, order included, and that is when the note says every step is necessary |
| `Shrink.ErrorsReadAsNecessary` | internal/agentapi/jobs.go:660-706 | an oracle that always errs leaves the original, with the note that every step is necessary and no step shown to be |
| `Shrink.NoteIsRightIff` | internal/agentapi/jobs.go:641-706 | when a job says every step is necessary, attempts have shown so exactly if there were as many as steps and none erred; below the cap and uncancelled, exactly if every removal leaves a case that can be played and no attempt erred |
| `Shrink.ErringJob` | internal/agentapi/jobs.go:585-706 | a job whose note is given and not shown |
| `EventBus.ReachableInv` | internal/engine/bus.go:82-171 | every state any interleaving of stamps, offers, reads, subscriptions and closes reaches satisfies the bus's invariant |
| `EventBus.LogIsWhatWasPublished` | internal/engine/bus.go:82-103 | the events stamped are those published before the bus was closed, in order, numbered from one |
| `EventBus.RetainedIsPublished` | internal/engine/bus.go:147-157 | every retained event is the one published under its number |
| `EventBus.DeliveredIsPublished` | internal/engine/bus.go:82-144 | so is every event of a backlog and every event a subscriber is offered or reads |
| `EventBus.ReplayIsExact` | internal/engine/bus.go:82-144 | a registered subscriber gets every retained event after `since` in exactly one way: backlog, offered, or about to be offered |
| `EventBus.NothingUnasked` | internal/engine/bus.go:82-144 | no event is offered twice, and none it asked to be spared |
| `EventBus.ChannelConserves` | internal/engine/bus.go:105-110 | everything offered was read, is waiting, or found the channel full |
| `EventBus.OfferIsKeptIffRoom` | internal/engine/bus.go:105-110 | an offer reaches the channel exactly if fewer than 512 events wait in it, is lost otherwise, and touches no other channel |
| `EventBus.LostCanBeFetched` | internal/engine/bus.go:79-157 | an event lost to a full channel is in what `History` returns after the number subscribed from exactly as long as it is retained and later than that number |
| `EventBus.CompleteIffWithinLimit` | internal/engine/bus.go:79-157 | `History` from the start is the full sequence exactly while no more than 20000 events have been published |
| `EventBus.RecoveryCanFail` | internal/engine/bus.go:79-111 | a run in which a lost event is not retained any more |
| `EventBus.ReceivedAsOffered` | internal/engine/bus.go:105-110 | what a subscriber has read or can read is what it was offered without what it lost, in the order of the offers |
| `EventBus.SerialIsReceivedInOrder` | internal/engine/bus.go:82-111 | so with publishes that do not overlap it receives events in order |
| `EventBus.HistoryIsGapFree` | internal/engine/bus.go:88-98 | history is a gap-free run of numbers ending at the latest, complete exactly until the limit is exceeded, and over three quarters of the limit ever after |
| `EventBus.HistoryLengthIs` | internal/engine/bus.go:93-98 | how many of n events are retained: n up to 20000, and then from 15001 to 20000 and round again |
| `EventBus.DeliveryCanBeOutOfOrder` | internal/engine/bus.go:82-111 | two overlapping publishes that arrive in the wrong order |
| `EventBus.SerialIffOrderIsSafe` | internal/engine/bus.go:82-111 | publishes do not overlap exactly when, however the deliveries under way at any point of the run go on, no registered subscriber is offered events out of order |
| `EventBus.Bus.PublishLocked` | internal/engine/bus.go:83-103 | the locked half of `Publish`, trimming included: the event stamped is the last of the history |
| `EventBus.Bus.OfferTo` | internal/engine/bus.go:105-110 | one send of the unlocked half: kept if there is room, dropped otherwise |
| `EventBus.Bus.SubscribeSince` | internal/engine/bus.go:115-144 | registration and backlog under one lock |
| `EventBus.Bus.HistorySince` | internal/engine/bus.go:147-157 | exactly the retained events after `since`: an end of the history, in order |
| `EventBus.Bus.CancelSub` | internal/engine/bus.go:136-143 | the subscription goes and nothing else |
| `EventBus.Bus.CloseBus` | internal/engine/bus.go:160-171 | all subscriptions go, once |
| `EventBus.CancelledIsGone` | internal/engine/bus.go:136-143 | a cancelled subscription never comes back, and the others are untouched |
| `EventBus.ClosedIsQuiet` | internal/engine/bus.go:160-171 | after a close nothing is stamped and nobody is subscribed, however the run goes on |
| `Pool.ApplyKeeps` | internal/mysqlbox/box.go:288-329 | every locked section, wake-up, boot outcome and channel close keeps the pool's invariant |
| `Pool.SingleFlight` | internal/mysqlbox/box.go:288-329 | in every interleaving at most one boot per key is running, and never for a key that has its box |
| `Pool.BootedOrStarting` | internal/mysqlbox/box.go:288-329 | no key is both booted and starting |
| `Pool.BoxesStay` | internal/mysqlbox/box.go:288-329 | an installed box is never replaced |
| `Pool.OneBoxPerKey` | internal/mysqlbox/box.go:288-329 | every success for a key, at any time of a run, returns the same box |
| `Pool.NoOrphanWaiter` | internal/mysqlbox/box.go:297-327 | a waiter's channel is closed already, or its maker is still there and able to go on to close it |
| `Pool.WaiterIsServed` | internal/mysqlbox/box.go:297-327 | when the boot it waits for succeeds a waiter returns that very box; when it fails it looks again and boots for itself |
| `Pool.LookTells` | internal/mysqlbox/box.go:292-316 | a caller that looks returns the box if there is one, waits for the boot if there is one, and boots otherwise |
| `Pool.BooterIsTold` | internal/mysqlbox/box.go:318-327 | the caller that boots returns the box it booted, which is installed, exactly if the boot succeeded, and the error otherwise |
| `Pool.WaiterGivesUp` | internal/mysqlbox/box.go:309-314 | a waiter may give up, and nothing else changes |
| `Pool.GaveUpForAReason` | internal/mysqlbox/box.go:288-329 | a caller comes back without a box only if it gave up waiting or its own boot failed |
| `Pool.BoxesWereBooted` | internal/mysqlbox/box.go:320-325 | every installed box was booted for its key |
| `Pool.BoxPool.LookUp` | internal/mysqlbox/box.go:292-316 | the first locked section of `Acquire` |
| `Pool.BoxPool.InstallOutcome` | internal/mysqlbox/box.go:320-325 | the second locked section |
| `Pool.DefaultKey` | internal/mysqlbox/box.go:93-111 | the key of a spec that names no image |
| `Pool.FlagsAre` | internal/mysqlbox/box.go:63-75 | the flags a server gets beside the fixed ones |
| `Pool.SameKeyIff` | internal/mysqlbox/box.go:93-105 | two specs share a key exactly when image and detection setting agree, or the image of one is that of the other with the suffix in its own name and only the other turns detection off |
| `Pool.StartedAlikeIff` | internal/mysqlbox/box.go:63-75 | specs that share a key are started alike exactly when they are not such a pair |
| `Pool.SuffixedImageCollides` | internal/mysqlbox/box.go:93-98 | such a pair, for every image |
| `LockText.SplitLockData` | internal/engine/data.go:546-582 | the scanning loop returns what the specification of the format reads |
| `LockText.SplitUndoesPrint` | internal/engine/data.go:546-591 | splitting undoes printing, for bare tokens and quoted strings with commas, quotes and edge spaces, if and only if the text does not contain "supremum" |
| `LockText.SupremumValueIsLost` | internal/engine/data.go:548-550 | a string value that is the word is lost |
| `LockText.UnquoteToken` | internal/engine/data.go:584-591 | one printed component is read back, with or without the blank before it |
| `LockText.MatchKey` | internal/engine/data.go:509-523 | true exactly when both keys have components and all those they share match |
| `LockText.PrintedKeyMatches` | internal/engine/data.go:509-539 | a lock printed from a row's key matches that row, however each component was printed, also when the data goes on with another key's columns or stops short |
| `LockText.MatchesUnlessToldApart` | internal/engine/data.go:509-523 | printed data matches a key exactly when no component both have differs, and the key has one |
| `LockText.HexIsBare` | internal/engine/data.go:529-539 | the hex spelling of any value is a well-formed component |
| `LockText.Utf8Reads` | internal/engine/data.go:529-539 | the octets whose hex spelling is compared are the UTF-8 form of section 3 of RFC 3629 |
| `LockText.HexReads` | internal/engine/data.go:529-539 | the hex spelling has two digits for each octet, the high one first |
| `LockText.MatchIgnoresPadding` | internal/engine/data.go:529-539 | hex apart, two components match exactly when they are the same up to trailing spaces |
| `LockDrawing.FindRow` | internal/engine/data.go:488-502 | the first row whose key matches, or none |
| `LockDrawing.PartitionOfTable` | internal/engine/data.go:446-455 | a partition belongs to the table its name starts with, any other name to its own table |
| `LockDrawing.ModesAreRead` | internal/engine/data.go:457-474 | every mode InnoDB prints for a record lock is read as the kind it is |
| `LockDrawing.TableView.Annotate` | internal/engine/data.go:390-444 | after drawing, every list of the view holds exactly its locks and nothing else of the view has changed; no snapshot, no change |
| `LockDrawing.OnePlace` | internal/engine/data.go:408-443 | a lock of another table or on a whole table is drawn nowhere; every other is in exactly one of other index, supremum, unmatched or one row |
| `LockDrawing.DrawnIff` | internal/engine/data.go:408-425 | a lock is drawn somewhere exactly when it is of the table or a partition of it and its type is not TABLE, in any case of letters; that type is a whole-table lock whatever the mode says |
| `LockDrawing.PlaceIs` | internal/engine/data.go:426-443 | which place that is: another index exactly when both indexes are named and differ beyond case, the supremum when the data names it, the first row whose key matches, or unmatched |
| `LockDrawing.RowLists` | internal/engine/data.go:476-481 | on its row a lock is in the record list just when it covers the record and in the gap list just when it covers the gap |
| `LockDrawing.DrawingConserves` | internal/engine/data.go:390-444 | the number of entries drawn is what the locks call for: two for a next-key lock on a row, one for every other lock of this table |
| `LockDrawing.ListKeepsOrder` | internal/engine/data.go:408-443 | each list is the snapshot with the locks that do not belong left out, in order; an entry has the lock's actor, mode, status, index, data and explanation, its kind, and its table's name exactly if that is not the view's |
| `LockDrawing.RedrawForgets` | internal/engine/data.go:394-402 | a later drawing leaves nothing of an earlier one; drawing twice changes nothing |
| `LockDrawing.PrintedKeyIsDrawn` | internal/engine/data.go:488-502 | a lock whose data prints a row's key, and perhaps more, is drawn above the highest key exactly when the data names the supremum; otherwise on that row or an earlier one, never left unmatched, and on that row exactly when each earlier key differs from the data in a component both have |
| `LockDrawing.LookalikeGoesFirst` | internal/engine/data.go:529-539 | the string '0x61' is drawn on the row whose key is a |
| `TableRow.SplitRow` | internal/markdown/markdown.go:215-243 | the scanning loop and the removal of the frame return what the specification reads |
| `TableRow.SplitUndoesPrint` | internal/markdown/markdown.go:215-243 | splitting a printed row gives the cells back, trimmed, for every nonempty list of cells: pipes, backslashes at the end, empty cells |
| `TableRow.RoundTripIffTrimmed` | internal/markdown/markdown.go:215-243 | and gives them back unchanged exactly when none has blanks at its ends |
| `TableRow.BareRowIsRead` | internal/markdown/markdown.go:215-243 | a row printed without outer pipes is read the same, for cells without blanks at their ends of which the first and the last are not empty |
| `MarkdownTable.TableAt` | internal/markdown/markdown.go:186-211 | the length of a table, never past the last line |
| `MarkdownTable.TableIsUpTo` | internal/markdown/markdown.go:186-211 | there is a table exactly for a header with a pipe and a delimiter row with a pipe and as many cells, and it goes on up to the first line that is all blanks or has no pipe |
| `MarkdownTable.AlignIsRead` | internal/markdown/markdown.go:246-258 | colons on both ends of the dashes centre a column, one on the right aligns it right, anything else does not |
| `MarkdownTable.WriteTable` | internal/markdown/markdown.go:260-290 | the tags are those of a table with one aligned cell per column in every row |
| `MarkdownTable.TableNeutral` | internal/markdown/markdown.go:260-290 | a table closes everything it opens |
| `MarkdownTable.TableSpoken` | internal/markdown/markdown.go:260-290 | it opens its tags in order, says the header's cells and then every row cut or padded to the header's width, each cell within its tags and in the alignment its column asks for |
| `MarkdownTable.RowSaidAt` | internal/markdown/markdown.go:273-287 | cell j of a row is opened with the alignment of cell j of the delimiter row and holds the row's own cell j, or nothing if it has no such cell |
| `Markdown.Render` | internal/markdown/markdown.go:37-178 | for every sequence of lines the tags are well nested and all closed, and the output is what the lines call for, in order: every piece of text once, inside exactly the tags its line calls for; every tag opened, with its attribute (the language of a fence, the alignment of a cell), where a paragraph, list or quote begins and not where it goes on; and a rule for every rule line |
| `Markdown.Renderer.CloseLists` | internal/markdown/markdown.go:47-56 | closes the lists indented that far, innermost first, and only those |
| `Markdown.Renderer.FlushPara` | internal/markdown/markdown.go:57-65 | the pending paragraph is written and nothing said is lost |
| `Markdown.Renderer.CloseQuote` | internal/markdown/markdown.go:66-71 | the quote is closed if it is open |
| `Markdown.Renderer.OpenListItem` | internal/markdown/markdown.go:297-315 | the item stands in the list of its own indent, in a list item tag, and a list is opened exactly if none of that indent is open |
| `Markdown.Renderer.RenderBlock` | internal/markdown/markdown.go:73-171 | one round of the loop keeps indents strictly increasing and lists apart from quotes and pending paragraphs, takes the block's lines and says what they call for |
| `Markdown.HeadingsStepDown` | internal/markdown/markdown.go:127-134 | a heading of level 1 to 5 is one level deeper, and of level 6 stays |
| `Markdown.ItemsJoinByIndent` | internal/markdown/markdown.go:297-315 | an item stands in a list of its own kind exactly when no list of its indent and the other kind is open; outer lists stay open |
| `Markdown.NumberAfterBullet` | internal/markdown/markdown.go:297-315 | a numbered item that stays in a bullet list |
| `Markdown.ContinuationIsOutsideTheItem` | internal/markdown/markdown.go:163-167 | in the output of `Render`, an indented line right under any item follows the item's text, in the item's list and outside the item: the input |
| `Markdown.RenderContinuation` | internal/markdown/markdown.go:163-167 | `Render` itself on such a line |
| `Markdown.OnlyItemLinesAreInItems` | internal/markdown/markdown.go:37-178 | in the output of `Render`, the text of any line, fence or table stands inside a list item exactly when it is that of an item line |
| `Markdown.RenderItems` | internal/markdown/markdown.go:37-178 | `Render` itself, on any lines |
| `VersionKeys.BigEndianRoundTrip` | internal/store/store.go:251-255 | a version number is read back from its key |
| `VersionKeys.ByteOrderIsNumeric` | internal/store/store.go:251-255 | on keys of one width the order of bytes is the order of numbers |
| `VersionKeys.HoldsAppend` | internal/store/store.go:257-266 | a write under the next key extends the log and overwrites nothing |
| `VersionKeys.LastIsNewest` | internal/store/scenarios.go:56-69 | the last key in byte order is the newest version |
| `VersionLog.Store.Open` | internal/store/store.go:184-213 | a store without revisions gets the defaults as version 1, any other is left alone |
| `VersionLog.NormalisedIs` | internal/store/store.go:122-126 | normalising fills in a missing base URL with http://localhost:11434/v1 and keeps the key and everything else |
| `VersionLog.Store.Save` | internal/store/store.go:302-317 | appends one normalised revision with the note and time given, numbered next, and points at it; the 2^64-th would be written under number 0 |
| `VersionLog.Store.Restore` | internal/store/store.go:351-376 | appends the named revision's configuration, or fails and changes nothing exactly when there is no such version; the number wraps as for a save |
| `VersionLog.Store.Current` | internal/store/store.go:269-295 | the newest configuration and its number, or the default |
| `VersionLog.HistoryGrows` | internal/store/store.go:302-376 | after any saves and restores no earlier revision has changed, numbers run from one, and every restored revision has the configuration it names |
| `VersionLog.PromiseKeptIff` | internal/store/store.go:297-317 | the stored key is the one given, or the previous one if that is empty, exactly when the given key is not empty or there was none to keep |
| `VersionLog.KeyIsLost` | internal/store/store.go:297-317 | a new store, a key saved, then anything saved with an empty one: the key is gone |
| `VersionLog.Store.RecordScenario` | internal/store/scenarios.go:77-116 | appends a revision with exactly what was given unless the newest has the same source, fails exactly for an empty id, and touches no other scenario; the 2^64-th revision would be written under number 0 |
| `VersionLog.RecordingKeeps` | internal/store/scenarios.go:77-116 | however often a scenario is recorded, earlier revisions stay, neighbours differ in source, and the newest has the source recorded last |
| `VersionLog.LatestIn` | internal/store/scenarios.go:56-69 | the entry under the last key is the newest revision |
| `VersionLog.Store.ScenarioVersions` | internal/store/scenarios.go:121-155 | lists what the specification of a listing says, by visiting keys in byte order, sorting, marking and cutting |
| `VersionLog.ListingIs` | internal/store/scenarios.go:121-155 | the newest revisions, newest first and as stored; the one marked is the newest of all with the current source, if within the limit |
| `VersionLog.OneCurrent` | internal/store/scenarios.go:138-150 | at most one revision is marked current |

## Left out

- Sockets, proxying, HTTP, event streams, Docker, database/sql, bbolt files and locks, YAML and JSON: the server, a container start and a shrinker's attempt are outcomes that may be anything, and buckets hold entries rather than their JSON.
- The handshake, hex dumps, one-line summaries, the session state of OK packets, and the formatting of numbers, floats, dates and times: cells keep the value or the raw bytes, and NULL and the text NULL stay apart here where the source shows both as a string.
- Payloads of 0xFFFFFF bytes and more, result sets of 2^63 columns and more, the packets a client sends during LOAD DATA LOCAL INFILE, and commands without a case of their own in `decodeCommand`.
- The order in which the two directions of a proxied connection are decoded: packets are fed in protocol order.
- Step durations, row data, query plans, lock snapshots, the deadlock report, explanatory sentences, transaction tracking and wire tags of a run.
- An actor whose id has the form of a console session's id: actors and console sessions are kept apart by type here.
- Publishing the run's state and the panics of sending on a channel that a cancelled subscription closed.
- `Pool.Close` racing a start, progress messages, and how a version is read off an image name, which is a parameter here.
- The shrinker's choice of a target when none is given, its labels, notes and YAML; an explicit target is never observed on the original, so an untouched result says nothing about it.
- The refusal of an empty console statement, and the trimming of its text.
- The linter's other warnings, and how COMMIT and ROLLBACK are recognised, which is a flag of a step here.
- Letter case beyond ASCII, and text that is not valid UTF-8: text is a sequence of characters, and only ASCII letters are folded.
- Inline Markdown, HTML escaping and the line patterns: a run of text is one token, and the patterns are parameters, so the results hold for any.
- Histories after version numbers have wrapped at 2^64, and histories with unreadable entries.
- VersionLog.Store.Save: what it writes as the 2^64-th revision is stated, but the store's invariant is not promised from then on.
- VersionLog.Store.Restore: the same.
- VersionLog.Store.RecordScenario: the same, for each scenario.
- `Versions`, `ScenarioVersion`, counts, tags, prompts, history and diff views, the jobs registry, the web and MCP layers, the hub and the scripts of the user interface: plumbing, or twins of what is modelled.
