# Verification of the RB4107 kitchen-safety controller

A Dafny 4.11 model of the stateful parts of the firmware and of the Django code that rebuilds a controller's history
from an unreliable stream of messages, with proofs of what they promise. `dafny verify dfyconfig.toml` checks all of
it.

Each component is modelled twice. Code that changes things step by step is a class or a method with the same
variables, branches, order and constants, proved to compute a function of the old state. That function is what the
theorems are about, and they relate it to something defined without it: a parser to a scanner and a printer, a live
fold to a batch cut of the trace, a record updated by three tasks to a statement about the history of events, a
closed formula to a calendar that is counted through.

| module | what it models |
|---|---|
| `Bytes`, `Options`, `Seqs`, `Numbers`, `Clock` | bytes, an option type, joining sequences, quotients, the 32-bit millisecond clock |
| `C4002Proto` | the radar's frame parser and the frame builder |
| `JsonText`, `JsonWriter`, `JsonCalls` | JSON text with a reader for it, the streaming writer without heap, and which calls of it make a document |
| `CtrlText`, `CtrlCmd` | the scanner and the one-pass parser of dashboard commands |
| `TuningWire`, `TuningRelay`, `TuningNode`, `Tuning` | remote radar tuning: settings and messages, the controller's relay, the presence node, and both over a channel that loses, repeats and reorders |
| `Layering` | the safety configuration as layers, requested through slots and put in force by the safety task |
| `Calendar` | the clock chip's day arithmetic and registers |
| `LogCapture` | the controller's log lines: assembling buffer and ring |
| `Merge`, `DottedNames`, `Persist`, `Incidents` | a controller's latest values, the order of its messages, its incident history and period summary |
| `LogPaging` | the Logs tab with its inputs and timer, and the reads of its view |
| `Retention` | one run of the pruning job |

Histories are sequences of events, each one a locked section, a packet, a database read or a message, in any order
that the tasks' own program order allows; the theorems hold for all of them. Clocks are real milliseconds seen through
a 32-bit counter; where a statement is about real time it says how far apart the two times may be.

## Where the code does less than its texts say

Each of these is a theorem that says exactly when the expected property holds, with a concrete case where it fails.

- An automatic read can go out while a command is pending: the decision looks, the send is outside the lock
  (`TuningRelay.ReadMeetsPending`, `TuningRelay.ReadSentWhilePending`).
- An answer that arrives between the send of a command and its note is not counted, and can be overwritten by
  no_reply before anyone sees it (`TuningRelay.NoReplyDespiteAnswer`, `TuningRelay.AnswerBeforeNoteIsLost`).
- The saved flag is to say that the settings survive a reboot. A reset whose push the radar refuses has already erased
  them and leaves the flag set; a read that brings other thresholds replaces those in use, keeps the flag and saves
  nothing (`TuningNode.HonestyLost`, `TuningNode.SavedSurvivesInUse`, `TuningNode.HalfResetLies`,
  `TuningNode.DriftingReadLies`).
- Thresholds above 99 that the radar hands back are taken over unchecked (`TuningNode.SettingsStayValid`,
  `TuningNode.ReadTakesAnything`).
- A late message of a boot that was already left is logged as another restart (`Persist.RestartsAreReal`,
  `Persist.LateMessageLooksLikeRestart`).
- A retained message with an object where a value stands destroys the value, although the comment says that retained
  replay never overwrites one (`Merge.ReplayKeepsValues`, `Merge.ReplayDestroysValue`).
- The stamp of an object is that of the last live message to name it, not of the newest (`Merge.ObjectStampIsLast`,
  `Merge.ObjectStampsConverge`, `Merge.ObjectStampsDoNotConverge`).
- A nested value shares its stamp with a key that is spelt with a dot, and an empty first key drops out of the name
  (`DottedNames.SameName`, `DottedNames.HasTwin`, `DottedNames.EmptyKeyDropsOut`).
- A recorded maximum temperature of 0.0 counts as unset (`Incidents.RecordedIsHottest`, `Incidents.ColderAfterZero`).
- An incident that steps down from the shut-off before it ends is in no row of the recovery table
  (`Incidents.TraceAddsUp`, `Incidents.SteppedDownIsUncounted`).
- The summary of an empty period divides by zero, and the period of today asked for at midnight sharp is empty
  (`Incidents.PeriodSummary`, `Incidents.EmptyPeriod`, `Incidents.TodayAtMidnight`).
- The writer's finish accepts two documents in a row and mismatched brackets; what it accepts and what is a document
  are two exact conditions (`JsonWriter.FinishOfCalls`, `JsonCalls.WellFormedIsDocument`,
  `JsonCalls.FinishIsNotValidation`).
- The Logs tab asks with what its inputs hold, but starts over only later or not at all: text is asked for up to
  300 ms before the restart that it causes, and a tag select that is set back to all tags causes none. Lines that the
  filter excludes then come in, or lines that it wants are passed over for good (`LogPaging.AsFilteredExactly`,
  `LogPaging.OneLineAway`, `LogPaging.AskedTooEarly`, `LogPaging.TagIsDropped`, `LogPaging.OtherTagShown`).
- 191 characters without a newline become a line of their own, so the newline that follows in the next piece makes
  an empty one (`LogCapture.FeedIsCutting`, `LogCapture.CutBeforeNewline`).
- A built frame with more than 64 bytes of data cannot be received, whatever its 16-bit length field wraps to
  (`C4002Proto.BuiltFrameReadBack`).

## Model

| member | source | states |
|---|---|---|
| C4002Proto.ParserIsScanner | firmware/components/c4002/src/c4002_proto.c:31-76 | fed any bytes from reset, the byte-at-a-time parser reports exactly what a scan of the whole recording for the leftmost header, length field and sum reports, at the same bytes; its restart rule therefore misses no header |
| C4002Proto.ParserIsJustified | firmware/components/c4002/src/c4002_proto.c:31-76 | a frame is reported only on the last byte of a stretch with the header, its own length field and a matching 16-bit sum; a length or checksum error only where that rule is broken; no byte serves two reports |
| C4002Proto.VerdictWithinFrame | firmware/components/c4002/src/c4002_proto.c:46-61 | after a completed header a verdict follows within 74 further bytes, whatever they are |
| C4002Proto.EncodedByBytes | firmware/components/c4002/src/c4002_proto.c:78-105 | every byte of a built frame: header FA F5 AA A5, total length, 0, frame type, command, response code 0, payload length, data, and the 16-bit sum of all that, low bytes first |
| Bytes.SumMeans | firmware/components/c4002/src/c4002_proto.c:16-23 | that sum counts every byte once |
| C4002Proto.BuiltFrameReadBack | firmware/components/c4002/src/c4002_proto.c:78-105 | a built frame is read back as it was built when its data is at most 64 bytes, and refused on its sixth byte when it is longer, also when the 16-bit length field wrapped |
| C4002Proto.FramesSurviveNoise | firmware/components/c4002/src/c4002_proto.c:31-105 | built frames with header-free noise before, between and after them come out in order, each on its last byte, and nothing else is reported |
| C4002Proto.Checksum | firmware/components/c4002/src/c4002_proto.c:16-23 | the running 16-bit sum is the sum of the bytes modulo 2^16 |
| C4002Proto.Parser.Feed | firmware/components/c4002/src/c4002_proto.c:31-76 | one byte fed to the buffer, length and expected-length fields does what one step of the specified parser does; every index stays within 78 bytes |
| C4002Proto.Parser.Check | firmware/components/c4002/src/c4002_proto.c:59-75 | the verdict on a complete frame, from its sum and its payload length |
| C4002Proto.BuildFrame | firmware/components/c4002/src/c4002_proto.c:78-105 | writes exactly the encoded frame at the front of the output and returns its length, or writes nothing and returns 0 when it does not fit or the data is missing |
| JsonText.ReadEscaped | firmware/components/rb_json/src/rb_json_writer.c:59-81 | unescaping the escaped text (section 7 of RFC 8259) gives the string back, whatever follows it |
| JsonText.Base64Length | firmware/components/rb_json/src/rb_json_writer.c:150-169 | base64 text has 4 characters for every 3 bytes begun (section 4 of RFC 4648) |
| JsonText.Base64ReadBack | firmware/components/rb_json/src/rb_json_writer.c:150-169 | decoding the base64 text gives the bytes back |
| JsonText.ReadText | firmware/components/rb_json/src/rb_json_writer.c:23-57 | the compact text of a document reads back as that document, with everything that follows left over |
| JsonText.TextIsUnambiguous | firmware/components/rb_json/src/rb_json_writer.c:23-57 | two documents with the same text are the same document as seen on the wire |
| JsonWriter.WriteValue | firmware/components/rb_json/src/rb_json_writer.c:23-57 | the calls for a value, made at any place where it may stand, add exactly its compact text with the comma it needs and leave the place as a finished value does, or are refused because it nests too deep |
| JsonWriter.DocumentWritten | firmware/components/rb_json/src/rb_json_writer.c:23-57 | finish returns the length of the compact text exactly if the document nests at most 8 deep and its text and the NUL fit, and 0 otherwise |
| JsonWriter.FinishOfCalls | firmware/components/rb_json/src/rb_json_writer.c:38-57 | for any sequence of calls at all: finish returns the whole length exactly if no container went beyond depth 8 or was closed unopened, all are closed, no key waits for its value and the text fits |
| JsonCalls.WellFormedIsDocument | firmware/components/rb_json/src/rb_json_writer.c:83-148 | the calls of a document are exactly those that a reader with a stack accepts: one value, keys only in objects and each with its value, every container closed by its own bracket |
| JsonCalls.FinishOfDocument | firmware/components/rb_json/src/rb_json_writer.c:171-174 | for such calls finish returns the length of the document's text unless it nests too deep or does not fit |
| JsonCalls.FinishIsNotValidation | firmware/components/rb_json/src/rb_json_writer.c:171-174 | what finish does not notice and that reader does: two documents in a row, and an object closed as an array |
| JsonWriter.Writer.PutRaw | firmware/components/rb_json/src/rb_json_writer.c:7-16 | a piece is appended whole with the NUL behind it; when it does not fit, or one before it did not, the writer has overflowed for good and neither length nor buffer changes; no byte at or past the capacity is written |
| JsonWriter.Writer.Separator | firmware/components/rb_json/src/rb_json_writer.c:24-36 | the comma that the open container needs, once |
| JsonWriter.Writer.Open | firmware/components/rb_json/src/rb_json_writer.c:38-47 | opens a container as specified, refusing the ninth level |
| JsonWriter.Writer.Close | firmware/components/rb_json/src/rb_json_writer.c:49-57 | closes one as specified, refusing when none is open |
| JsonWriter.Writer.PutEscaped | firmware/components/rb_json/src/rb_json_writer.c:59-81 | the loop appends the quoted, escaped string |
| JsonWriter.Writer.WriteKey | firmware/components/rb_json/src/rb_json_writer.c:100-106 | a key call is the specified key call as far as the buffer reaches |
| JsonWriter.Writer.WriteStr | firmware/components/rb_json/src/rb_json_writer.c:108-116 | a string call, null for a missing string, likewise |
| JsonWriter.Writer.WriteInt | firmware/components/rb_json/src/rb_json_writer.c:118-124 | an integer call, likewise |
| JsonWriter.Writer.WriteBase64 | firmware/components/rb_json/src/rb_json_writer.c:150-169 | a base64 call, likewise, group by group |
| JsonWriter.Writer.Finish | firmware/components/rb_json/src/rb_json_writer.c:171-174 | the length, or 0 after an overflow, with open containers or with a waiting key |
| JsonWriter.WriteDocument | firmware/components/rb_json/src/rb_json_writer.c:83-174 | driving the writer over a document leaves its compact text and a NUL in the buffer and returns its length, exactly when that is possible |
| JsonWriter.DecimalFits | firmware/components/rb_json/src/rb_json_writer.c:118-124 | every 64-bit integer fits the 24-character scratch buffer |
| CtrlText.LexWritten | firmware/components/rb_ctrl_cmd/src/rb_ctrl_cmd.c:16-67 | members written down with any whitespace between the tokens are scanned as those members |
| CtrlText.LexIsWritten | firmware/components/rb_ctrl_cmd/src/rb_ctrl_cmd.c:16-67 | and whatever is scanned was written in that way |
| CtrlText.Scanner.SkipSpace | firmware/components/rb_ctrl_cmd/src/rb_ctrl_cmd.c:16-21 | the cursor passes the whitespace ahead of it and nothing else |
| CtrlText.Scanner.Take | firmware/components/rb_ctrl_cmd/src/rb_ctrl_cmd.c:23-31 | the character is taken if it comes next after whitespace |
| CtrlText.Scanner.TakeString | firmware/components/rb_ctrl_cmd/src/rb_ctrl_cmd.c:34-48 | a string without escapes that fits its buffer is taken, everything else refused |
| CtrlText.Scanner.TakeUint | firmware/components/rb_ctrl_cmd/src/rb_ctrl_cmd.c:51-67 | a non-negative integer is taken with its value unless it could leave a 32-bit long or goes on as a fraction or exponent |
| CtrlText.NumberOfDigits | firmware/components/rb_ctrl_cmd/src/rb_ctrl_cmd.c:51-67 | the decimal digits of any number are taken as that number |
| CtrlText.DigitsOfNumber | firmware/components/rb_ctrl_cmd/src/rb_ctrl_cmd.c:51-67 | and whatever digits are taken are those of their number, with zeros in front at most |
| CtrlText.WritableNumbers | firmware/components/rb_ctrl_cmd/src/rb_ctrl_cmd.c:51-67 | the numbers whose digits are taken are those up to 1,000,000,009 |
| CtrlCmd.LookupKey | firmware/components/rb_ctrl_cmd/src/rb_ctrl_cmd.c:113-127 | every member's key, the twelve tier keys included, is found as that member and no other |
| CtrlCmd.MasksCompleteMeans | firmware/components/rb_ctrl_cmd/src/rb_ctrl_cmd.c:444-483 | the bit-mask tests after the scan hold exactly if every header key and exactly the action's own keys were seen |
| CtrlCmd.PrintedIsParsed | firmware/components/rb_ctrl_cmd/src/rb_ctrl_cmd.c:166-485 | a command with its values in range, printed with its members in any order and any whitespace, parses as that command |
| CtrlCmd.ParsedIsPrinted | firmware/components/rb_ctrl_cmd/src/rb_ctrl_cmd.c:166-485 | whatever parses is such a print of the command it parses as: every header key once, exactly the action's keys, every value in range |
| CtrlCmd.ParsedExactlyWhenPrinted | firmware/components/rb_ctrl_cmd/src/rb_ctrl_cmd.c:166-485 | a text is accepted as a command exactly when the command is valid and the text is some print of it |
| CtrlCmd.DecimalIsParsed | firmware/components/rb_ctrl_cmd/src/rb_ctrl_cmd.c:166-485 | a command written with its numbers in decimal, request id and every range included, its members in any order and with any whitespace, parses as that command |
| CtrlCmd.ParsedNumbers | firmware/components/rb_ctrl_cmd/src/rb_ctrl_cmd.c:166-485 | and in any text that is accepted every number stands in decimal, but for zeros in front |
| CtrlCmd.NumberRanges | firmware/components/rb_ctrl_cmd/src/rb_ctrl_cmd.c:268-417 | for every key that takes a number, the numbers it takes, written in decimal |
| CtrlCmd.WordChoices | firmware/components/rb_ctrl_cmd/src/rb_ctrl_cmd.c:315-388 | for every key that takes a word of a list, the words it takes |
| CtrlCmd.LogTagMeans | firmware/components/rb_ctrl_cmd/src/rb_ctrl_cmd.c:132-147 | a log tag is a star, or 1 to 15 letters, digits, underscores, dashes and dots, by their codes |
| CtrlCmd.TakeMember | firmware/components/rb_ctrl_cmd/src/rb_ctrl_cmd.c:182-194 | one key and value are taken from the text as the reader of one member reads them |
| CtrlCmd.Parse | firmware/components/rb_ctrl_cmd/src/rb_ctrl_cmd.c:166-485 | the one pass with the bit masks accepts exactly the texts whose members make a command, and returns that command |
| Clock.ReachedAgrees | firmware/components/rb_c4002_relay/src/rb_c4002_relay.c:217 | the signed 32-bit comparison with a deadline agrees with real time while the two are less than half a turn apart |
| Clock.ReachedTurnsOver | firmware/components/rb_c4002_relay/src/rb_c4002_relay.c:217 | half a turn after a deadline it calls the deadline unreached |
| Clock.SinceNeverMore | firmware/components/rb_c4002_remote/src/rb_c4002_remote.c:163 | the unsigned difference never overstates the time gone by, and is exact until the clock is back |
| Clock.PlusIsLater | firmware/components/rb_c4002_relay/src/rb_c4002_relay.c:149 | a deadline computed from a clock reading is the reading at the later time |
| TuningRelay.PendingMeansWaiting | firmware/components/rb_c4002_relay/src/rb_c4002_relay.c:142-151 | over every interleaving: a record is pending exactly while some command was noted as sent and since then there was no newer one, no ACK with its id and no publishing turn at or after its deadline |
| TuningRelay.SaidExactly | firmware/components/rb_c4002_relay/src/rb_c4002_relay.c:73-82 | over every interleaving: the five kinds of reply, when each is left, and which id, action and text, cut at 63 characters, it carries |
| TuningRelay.CommandGoesOut | firmware/components/rb_c4002_relay/src/rb_c4002_relay.c:111-126 | a command goes out exactly if the parser took it and the node was heard, to the address of the last packet |
| TuningRelay.NoReplyIsDue | firmware/components/rb_c4002_relay/src/rb_c4002_relay.c:231-235 | a no_reply is published exactly when a command waits and its deadline has come, with that command's id and action |
| TuningRelay.NoReplyNotEarly | firmware/components/rb_c4002_relay/src/rb_c4002_relay.c:231-235 | in real time: exactly when at least 8 s have passed since the command was noted |
| TuningRelay.NoReplyDespiteAnswer | firmware/components/rb_c4002_relay/src/rb_c4002_relay.c:128-151 | for every no_reply: the node had answered since the command went out exactly when its answer came in between the send and the note of the command |
| TuningRelay.AnswerBeforeNoteIsLost | firmware/components/rb_c4002_relay/src/rb_c4002_relay.c:141-151 | and there is such a run, in which the no_reply is the only reply ever published |
| TuningRelay.PublishedIsNewest | firmware/components/rb_c4002_relay/src/rb_c4002_relay.c:73-82 | what is published is the newest reply left for the node, and only if nothing was published since |
| TuningRelay.RepliesConserved | firmware/components/rb_c4002_relay/src/rb_c4002_relay.c:236-250 | replies left = published + overwritten before publication + the one still waiting |
| TuningRelay.AddressKnown | firmware/components/rb_c4002_relay/src/rb_c4002_relay.c:165-170 | the address is that of the last packet; whoever waits, sends or wants to read has one |
| TuningRelay.WantsReadUntilAck | firmware/components/rb_c4002_relay/src/rb_c4002_relay.c:165-179 | an automatic read is wanted exactly from a new address until the node has answered anything |
| TuningRelay.DecisionIsJustified | firmware/components/rb_c4002_relay/src/rb_c4002_relay.c:217-221 | a read is decided exactly when it is wanted, its time has come and no command waits |
| TuningRelay.ReadsAreSpaced | firmware/components/rb_c4002_relay/src/rb_c4002_relay.c:217-221 | two reads of one address are decided at least 30 s apart |
| TuningRelay.ReadMeetsPending | firmware/components/rb_c4002_relay/src/rb_c4002_relay.c:216-228 | the decision never meets a pending command; the send after it meets one exactly when that command was noted in between and still waits |
| TuningRelay.ReadSentWhilePending | firmware/components/rb_c4002_relay/src/rb_c4002_relay.c:216-228 | and there is a run in which it does, although the decision had looked |
| TuningRelay.Record.OnCommand | firmware/components/rb_c4002_relay/src/rb_c4002_relay.c:111-126 | the first locked section of a command |
| TuningRelay.Record.OnCommandGone | firmware/components/rb_c4002_relay/src/rb_c4002_relay.c:142-151 | the second, after the radio |
| TuningRelay.Record.OnPacket | firmware/components/rb_c4002_relay/src/rb_c4002_relay.c:163-186 | a packet's effect on the fields is the specified step |
| TuningRelay.Record.AskForSettings | firmware/components/rb_c4002_relay/src/rb_c4002_relay.c:216-223 | the telemetry task's first locked section |
| TuningRelay.Record.NextReply | firmware/components/rb_c4002_relay/src/rb_c4002_relay.c:230-251 | its second, and what it publishes |
| TuningRelay.Table.Find | firmware/components/rb_c4002_relay/src/rb_c4002_relay.c:52-60 | the first record with the id, or none |
| TuningRelay.Table.Dispatch | firmware/components/rb_c4002_relay/src/rb_c4002_relay.c:156-187 | a packet of a presence node with an address changes the record of its sender and no other; all others are dropped |
| TuningRelay.Table.Poll | firmware/components/rb_c4002_relay/src/rb_c4002_relay.c:210-257 | an undisturbed poll publishes the reply of the first record that has one, has given up and asked for settings in the records up to it, and has not touched the later ones |
| TuningWire.MergeTakesFields | firmware/components/rb_protocol/src/rb_protocol.c:598-620 | the merged settings are the only ones that field by field are those sent where the bit is set and those before elsewhere; thresholds become known and make their sensitivity custom |
| TuningWire.LimitsMean | firmware/components/rb_protocol/src/rb_protocol.c:543-584 | the settings that pass the check, limit by limit in numbers |
| TuningWire.MergeInTwoSteps | firmware/components/rb_protocol/src/rb_protocol.c:598-620 | settings sent in two commands leave what one command would, sensitivities aside, and those too exactly unless the second sets a sensitivity over thresholds that came with the first |
| TuningNode.SuppressedExactly | firmware/components/rb_c4002_remote/src/rb_c4002_remote.c:162-166 | a command is suppressed exactly when it has an id, the last executed one had the same id and the clock moved less than 10 s since; it changes nothing and gets the answer of that execution again |
| TuningNode.ExecutedTwice | firmware/components/rb_c4002_remote/src/rb_c4002_remote.c:162-184 | under loss, repetition and reordering: the same nonzero id is executed twice only with another command executed in between or at least 10 s later |
| TuningNode.AckTellsState | firmware/components/rb_c4002_remote/src/rb_c4002_remote.c:55-65 | the answer to an executed command names it and tells the settings, the saved flag and the countdown that it left |
| TuningNode.ApplyDoes | firmware/components/rb_c4002_remote/src/rb_c4002_remote.c:67-96 | apply: the settings sent, field by field over those in use, are refused if invalid; pushed; on refusal by the radar the old ones are pushed back and nothing changes; otherwise saved and in use, saved or not |
| TuningNode.CalibrateDoes | firmware/components/rb_c4002_remote/src/rb_c4002_remote.c:98-113 | calibrate: delay 0 to 600 s and duration 1 to 600 s are asked of the radar, anything else is refused; id and end are noted if the radar takes it |
| TuningNode.ReadDoes | firmware/components/rb_c4002_remote/src/rb_c4002_remote.c:115-134 | read: the gates there are at this resolution take the radar's thresholds, the others keep theirs; nothing is saved and the flag stays |
| TuningNode.ResetDoes | firmware/components/rb_c4002_remote/src/rb_c4002_remote.c:136-148 | reset: the flash is told to forget before the push and whatever comes of it; the defaults are in use, unsaved, if the radar takes them |
| TuningNode.OthersDoNothing | firmware/components/rb_c4002_remote/src/rb_c4002_remote.c:168-184 | any other action is answered as invalid and changes nothing |
| TuningNode.FinishDoes | firmware/components/rb_c4002_remote/src/rb_c4002_remote.c:187-205 | a finished calibration makes the thresholds read back the custom sensitivity, saves them and reports, or reports a sensor error and changes nothing |
| TuningNode.SettingsChangeOnlyJustified | firmware/components/rb_c4002_remote/src/rb_c4002_remote.c:67-148 | the settings in use change only right after a push that the radar took or thresholds read back from it, and to exactly those |
| TuningNode.RadarRunsCurrent | firmware/components/rb_c4002_remote/src/rb_c4002_remote.c:68-84 | whenever the radar took the last push, it runs the settings in use, thresholds and sensitivity aside |
| TuningNode.HonestyLost | firmware/components/rb_c4002_remote/src/rb_c4002_remote.c:67-148 | one event keeps the saved flag true, that is the flash holding the settings in use with every threshold, exactly when it is neither a reset that erased the flash and was then refused by the radar, nor a read that took other thresholds over under a set flag |
| TuningNode.SavedIsHonest | firmware/components/rb_c4002_remote/src/rb_c4002_remote.c:67-148 | without either the flag is true in every run |
| TuningNode.SavedSurvivesInUse | firmware/components/rb_c4002_remote/src/rb_c4002_remote.c:67-148 | and what survives a reboot is the same as far as the radar uses it, in every run without such a reset and without a read that changes thresholds under custom sensitivity; one event loses that exactly by being one of the two |
| TuningNode.HalfResetLies | firmware/components/rb_c4002_remote/src/rb_c4002_remote.c:136-148 | such a reset answers that the settings are saved while nothing is |
| TuningNode.DriftingReadLies | firmware/components/rb_c4002_remote/src/rb_c4002_remote.c:125-134 | such a read, for any custom thresholds and any other reading, answers saved with thresholds in use that the flash does not hold |
| TuningNode.SettingsStayValid | firmware/components/rb_c4002_remote/src/rb_c4002_remote.c:116-134 | the settings in use stay within the sensor's limits exactly as long as no threshold above 99 is read back |
| TuningNode.ReadTakesAnything | firmware/components/rb_c4002_remote/src/rb_c4002_remote.c:125-134 | a read that brings a threshold of 100 leaves settings outside the limits |
| TuningNode.CalibrationWasStarted | firmware/components/rb_c4002_remote/src/rb_c4002_remote.c:98-113 | a calibration runs only since an executed command started one; the newest such command set its id and its end |
| TuningNode.CalibrationRuns | firmware/components/rb_c4002_remote/src/rb_c4002_remote.c:98-113 | and conversely until a turn finishes it |
| TuningNode.CalibrationNotCutShort | firmware/components/rb_c4002_remote/src/rb_c4002_remote.c:188-205 | it is finished no sooner than delay, duration and 3 s after its start, and reported under the id that started it |
| TuningNode.CalibrationFinishes | firmware/components/rb_c4002_remote/src/rb_c4002_remote.c:187-205 | it is finished exactly by a turn at or after that end that finds the radar's countdown at 0 |
| TuningNode.Remote.ApplyAndSave | firmware/components/rb_c4002_remote/src/rb_c4002_remote.c:68-84 | a push, then the save and the change, or the attempt to restore |
| TuningNode.Remote.DoApply | firmware/components/rb_c4002_remote/src/rb_c4002_remote.c:86-96 | merging, checking and pushing do what is specified of an apply command |
| TuningNode.Remote.DoCalibrate | firmware/components/rb_c4002_remote/src/rb_c4002_remote.c:98-113 | likewise for calibrate |
| TuningNode.Remote.DoRead | firmware/components/rb_c4002_remote/src/rb_c4002_remote.c:125-134 | likewise for read |
| TuningNode.Remote.DoReset | firmware/components/rb_c4002_remote/src/rb_c4002_remote.c:136-148 | likewise for reset |
| TuningNode.Remote.HandleCommand | firmware/components/rb_c4002_remote/src/rb_c4002_remote.c:150-185 | one packet's effect on all variables and the log of what was done is the specified step |
| TuningNode.Remote.EndOfTurn | firmware/components/rb_c4002_remote/src/rb_c4002_remote.c:188-205 | likewise for the end of a turn, which may finish a calibration |
| Tuning.AnswerHasACommand | firmware/components/rb_c4002_remote/src/rb_c4002_remote.c:150-185 | relay, lossy channel and node together: a published answer of the node comes from a command that the node executed, and that one from the dashboard, or it is a read with id 0, the relay's own |
| Tuning.AppliedMeansApplied | firmware/components/rb_c4002_remote/src/rb_c4002_remote.c:86-96 | an apply that the dashboard sees succeed was asked for by it, the settings answered are field by field those sent over those in use before, they are valid and the radar took them, and they were saved if the answer says so |
| Merge.Merge | django/ingest/storage.py:23-38 | the loop over the members computes the specified merge of values and stamps |
| Merge.NamesDiffer | django/ingest/storage.py:25 | dotted names tell paths apart when no key holds a dot and no first key is empty |
| DottedNames.SameName | django/ingest/storage.py:25 | two paths of any keys have the same name exactly when, leading empty keys aside, their keys cut at the dots are the same |
| DottedNames.EmptyKeyDropsOut | django/ingest/storage.py:25 | an empty first key leaves no trace in the name |
| DottedNames.HasTwin | django/ingest/storage.py:25 | among paths whose first key is not empty, exactly those share their name with another whose name holds a dot behind its first character |
| Merge.MergedAt | django/ingest/storage.py:23-38 | a merge does at every path what the patch says there, by the two stamps, and nothing anywhere else |
| Merge.LastWriterWins | django/ingest/storage.py:33-38 | whatever order live messages arrive in, and whatever is replayed in between, a leaf ends with the value and the stamp of its newest live message |
| Merge.LeavesConverge | django/ingest/storage.py:23-38 | two histories with the same live messages, in any order and number and with any replays, agree on every leaf that a live message names |
| Merge.LiveMessagesConverge | django/ingest/storage.py:23-38 | live messages in any order and number leave the same tree of latest values |
| Merge.ObjectStampIsLast | django/ingest/storage.py:37-38 | in every history the stamp of an object is that of the last live message that names it, newest or not |
| Merge.ObjectStampsConverge | django/ingest/storage.py:37-38 | two histories agree on an object's stamp exactly when the messages that name it last have the same stamp |
| Merge.ObjectStampsDoNotConverge | django/ingest/storage.py:37-38 | two orders of the same messages that leave different stamps |
| Merge.ReplayOnlyFills | django/ingest/storage.py:31-38 | with agreeing shapes a retained message keeps every value and stamp that is there and fills in the others |
| Merge.ReplayKeepsValues | django/ingest/storage.py:27-30 | a retained message, whatever its keys, keeps all values exactly when it has no object where a value is |
| Merge.ReplayDestroysValue | django/ingest/storage.py:27-30 | a retained message that destroys a live value |
| Persist.JudgedByTop | django/ingest/storage.py:50-56 | within a boot a message is in order, a duplicate or historical by its sequence number against the highest before it |
| Persist.OrderIsAbove | django/ingest/storage.py:50-65 | over any boots: a message is in order exactly if its number is above all those of its boot since that began, or it begins one, or has no place in the order |
| Persist.OrderedExactly | django/ingest/storage.py:47-56 | only live messages with boot id and sequence number take part in the order, any other is let through and moves nothing |
| Persist.MaximaRise | django/ingest/storage.py:52-56 | the messages that count have strictly rising sequence numbers |
| Persist.OnlyMaximaCount | django/ingest/storage.py:108-125 | while a boot lasts the outcome is that of the strict running maxima alone |
| Persist.RedeliveryChangesNothing | django/ingest/storage.py:52-56 | a sequence number seen before changes nothing at any later point, so redelivery is harmless |
| Persist.RestartsAreReal | django/ingest/storage.py:57-65 | at least as many restarts are logged as there were, one less than the boots seen; exactly as many if and only if no ordered message comes from a boot that had already been left |
| Persist.LateMessageLooksLikeRestart | django/ingest/storage.py:57-65 | so a late message of the old boot counts as two more restarts and is taken in order |
| Persist.StampIsEarlier | django/ingest/storage.py:113 | a live stamp is the earlier of the message's own time and the time of receipt |
| Persist.StoredStream | django/ingest/storage.py:57-125 | what any stream of messages leaves: the incidents are the batch reading of the changes of boot and of the live telemetry states that are in order and not older than the snapshot, each at its time of receipt; the latest values are the merge of the fields of the messages that count, with their stamps |
| Persist.Row.Track | django/ingest/storage.py:41-65 | the ordering decision and its effect on the stored controller |
| Persist.Row.Persist | django/ingest/storage.py:108-125 | storing one message does to values, stamps, snapshot time and incidents what is specified |
| Incidents.LiveIsBatch | django/ingest/incidents.py:70-106 | folding the live rule over any trace stores exactly the summaries of the episodes that a batch cut of the trace finds, in order |
| Incidents.StoredIncident | django/ingest/incidents.py:70-100 | every stored incident is one episode; it has a buzzer time exactly if its peak was the buzzer or more and a shut-off time exactly if it was the shut-off; only the newest can be open; and its times are in order where those of the trace are |
| Incidents.RowsOfTrace | django/ingest/incidents.py:70-106 | by the events alone: there are as many rows as states that begin an incident while none is open, and the newest is open exactly if nothing has ended it since |
| Incidents.SummaryTells | django/ingest/incidents.py:73-100 | what a row says: its start and end, the first states at the buzzer and at the shut-off, its last level, and whether the pan was ever losing heat |
| Incidents.FirstReachingMeans | django/ingest/incidents.py:80-83 | the buzzer and shut-off times are those of the first state that high |
| Incidents.PeakMeans | django/ingest/incidents.py:78-79 | the peak is a state of the episode and none is higher |
| Incidents.TierIsHighest | django/ingest/incidents.py:86-87 | the tier kept is the highest that was reported |
| Incidents.EndReasons | django/ingest/incidents.py:93-100 | how an incident ended is settled by the event that ended it and the last active state: operator_reset exactly after a shut-off that went to monitoring or idle |
| Incidents.RecordedIsHottest | django/ingest/incidents.py:84-85 | the recorded maximum is the true one exactly unless that is 0.0 and something colder came after it |
| Incidents.RecordedAfterZero | django/ingest/incidents.py:84-85 | and then it is the hottest of what came after the last 0.0 |
| Incidents.ColderAfterZero | django/ingest/incidents.py:84 | 0.0 and then -1.0 is recorded as -1.0 |
| Incidents.RecoveryAddsUp | django/ingest/incidents.py:125-130 | recovery rows plus ongoing add up to all incidents that reached the buzzer exactly when none was left by stepping down from the shut-off |
| Incidents.RowOfEpisode | django/ingest/incidents.py:125-130 | which row an episode is counted in: by the event that ended it, its last level, and whether buzzer and shut-off were ever reached |
| Incidents.TraceAddsUp | django/ingest/incidents.py:70-130 | in terms of the events alone: for every trace the live fold's incidents are all in the table exactly when no shut-off, lower active state and end that is no restart follow one another within an incident, the lower state the last before the end |
| Incidents.ShutdownIsLast | django/ingest/incidents.py:70-130 | in particular when a shut-off is never followed by a lower active state before an end |
| Incidents.SteppedDownIsUncounted | django/ingest/incidents.py:125-130 | a trace that does step down and whose one incident is in no row: shut off, back to the countdown, person returned |
| Incidents.PeriodSummary | django/ingest/incidents.py:176-217 | the loops count the incidents of each row and of each week, with and without a shut-off, and the days of each week, have a week for every Monday of the period, find a week for every incident, and fail exactly for an empty period |
| Incidents.EmptyPeriod | django/ingest/incidents.py:144-159 | a period that is let through is never turned round, and is empty exactly when it starts today and is asked for at midnight sharp |
| Incidents.PeriodLetThrough | django/ingest/incidents.py:144-159 | what is let through: 1 to 366 days back from now, or 1 to 366 whole days none of which lies in the future |
| Incidents.PeriodHolds | django/ingest/incidents.py:144-159 | and the times it holds are those of the days asked for, as far as they have passed |
| Incidents.TodayAtMidnight | django/ingest/incidents.py:155-159 | and that request is let through, on any day |
| Incidents.WeeksPartition | django/ingest/incidents.py:139-141 | every day of the period is in one of its weeks and in no other |
| Incidents.DaysAddUp | django/ingest/incidents.py:185-192 | days_in_period sums to the days of the period |
| Incidents.StartsAddUp | django/ingest/incidents.py:193-194 | every incident is counted in exactly one week |
| Incidents.History.OpenIncident | django/ingest/incidents.py:45-46 | an open row than which no open row started later, or none when all are closed |
| Incidents.History.RecordState | django/ingest/incidents.py:70-100 | one state's effect on the stored rows is the specified step |
| Incidents.History.Restarted | django/ingest/incidents.py:103-106 | likewise for a controller restart |
| Layering.LayerByField | firmware/components/rb_controller/src/rb_controller.c:275-313 | the layering is the one configuration that field by field takes each value from the one setting that writes it, and all others from what the parameters write to the base, or without parameters from the base |
| Layering.AlwaysLayered | firmware/components/rb_controller/src/rb_controller.c:231-385 | in every run of setter calls and turns, whatever was asked and refused, the configuration in force is the one layering of the accepted base and settings and is valid, and a base in its slot is valid |
| Layering.InForceByField | firmware/components/rb_controller/src/rb_controller.c:231-385 | in every such run the configuration in force is so decided; health limits and verify period are what the parameters write, or as configured; every setting in force passed its range check and the parameters' target its own |
| Layering.AcceptedExactly | firmware/components/rb_controller/src/rb_controller.c:274-314 | a batch is accepted exactly when the configuration it asks for is valid and so is the parameters' target |
| Layering.RunIsOneBatch | firmware/components/rb_controller/src/rb_controller.c:231-385 | what is in force after any such run is what one accepted batch would have put in force that holds, of each kind, the newest request a turn took: refused batches leave no trace but their radar rules, and it does not matter how requests are spread over turns |
| Layering.SlotIsNewestAsk | firmware/components/rb_controller/src/rb_controller.c:600-691 | a slot is taken exactly when a request of its kind was admitted since the last turn, and holds the newest |
| Layering.LastWriterWins | firmware/components/rb_controller/src/rb_controller.c:231-385 | of each kind, what is in force is the newest request that was admitted before the last turn that took one |
| Layering.OrderDoesNotMatter | firmware/components/rb_controller/src/rb_controller.c:274-385 | batches of different kinds, each accepted, give the same whichever goes first, a new base included |
| Layering.BatchIsSequence | firmware/components/rb_controller/src/rb_controller.c:274-385 | a batch is accepted if and only if its second half is once its first half was, with the same outcome |
| Layering.ClearingRestoresBase | firmware/components/rb_controller/src/rb_controller.c:274-385 | after any run of calls and turns, clearing every setting is accepted and puts the base back exactly |
| Layering.CookingKeepsGap | firmware/components/rb_controller/src/rb_controller.c:186-191 | the gap below the cooking temperature is that of the configuration under it, cut off at 0 |
| Layering.NewCookingTempIsFresh | firmware/components/rb_controller/src/rb_controller.c:286-290 | a new cooking temperature is set on the configuration, so an earlier one leaves no trace |
| Layering.Controller.SetSafetyConfig | firmware/components/rb_controller/src/rb_controller.c:600-609 | a valid base goes into its slot, the newest wins, and an invalid one is refused at once; the configuration stays layered and valid |
| Layering.Controller.SetCookingTemp | firmware/components/rb_controller/src/rb_controller.c:611-620 | likewise for the cooking temperature and its range |
| Layering.Controller.SetCookware | firmware/components/rb_controller/src/rb_controller.c:622-630 | likewise for the cookware profile |
| Layering.Controller.TakeRequests | firmware/components/rb_controller/src/rb_controller.c:231-385 | one turn empties the slots and puts the whole batch in force, or refuses it, as specified |
| Layering.Controller.Compose | firmware/components/rb_controller/src/rb_controller.c:275-313 | the statements in their order compute the layering |
| Calendar.NextDayAddsOne | firmware/components/pcf85063/src/pcf85063.c:24-32 | each next civil day adds exactly one, across month ends, leap years and centuries, and 1970-01-01 is 0 |
| Calendar.DaysCountCalendar | firmware/components/pcf85063/src/pcf85063.c:24-32 | the closed formula counts the calendar day by day, backwards too |
| Calendar.CalendarInvertsDays | firmware/components/pcf85063/src/pcf85063.c:24-32 | the day number gives the date back, so no two dates share one |
| Calendar.BcdReadBack | firmware/components/pcf85063/src/pcf85063.c:13-21 | two decimal digits survive the BCD byte and the register masks |
| Calendar.WrittenIsRead | firmware/components/pcf85063/src/pcf85063.c:44-81 | every second that can be written is read back from the registers as that second |
| Calendar.WritableYears | firmware/components/pcf85063/src/pcf85063.c:64-69 | and those are exactly the seconds of 2000 to 2099 |
| Calendar.RegistersHold | firmware/components/pcf85063/src/pcf85063.c:64-81 | the registers hold second, minute, hour, day, weekday, month and year of the century, each as two decimal digits |
| Calendar.HeldIsRead | firmware/components/pcf85063/src/pcf85063.c:44-62 | whatever wrote them: registers that hold a date and time of 2000 to 2099 are read as its second, and as nothing once the oscillator stopped |
| Calendar.ReadRefuses | firmware/components/pcf85063/src/pcf85063.c:50-58 | nothing is read exactly then, or when month or day are out of range |
| Calendar.WeekdaysRun | firmware/components/pcf85063/src/pcf85063.c:67-77 | 1970-01-01 was a Thursday, and each midnight begins the next weekday, Saturday before Sunday as 0 |
| Calendar.Rtc.Write | firmware/components/pcf85063/src/pcf85063.c:64-81 | the register bytes for a time, or a refusal that leaves the chip alone |
| Calendar.Rtc.Read | firmware/components/pcf85063/src/pcf85063.c:44-62 | the time the registers tell, or none after an oscillator stop or with an impossible date |
| LogCapture.CutAndJoined | firmware/components/rb_log_capture/src/rb_log_capture.c:75-81 | cutting at newlines loses nothing: lines and rest join to the text |
| LogCapture.CutIsUnique | firmware/components/rb_log_capture/src/rb_log_capture.c:75-81 | and it is the only way to cut it |
| LogCapture.FeedIsCutting | firmware/components/rb_log_capture/src/rb_log_capture.c:68-89 | a piece is cut as if the buffer had no end exactly if pending text and piece come to at most 190 characters, or 191 with a newline, or 191 and the newline that ends them |
| LogCapture.FeedLoses | firmware/components/rb_log_capture/src/rb_log_capture.c:68-89 | otherwise the text beyond 191 characters is lost, and 191 without a newline are a line |
| LogCapture.PiecesDoNotMatter | firmware/components/rb_log_capture/src/rb_log_capture.c:68-89 | while each piece fits, the lines are those of the whole text however it was cut into pieces |
| LogCapture.LogIsStored | firmware/components/rb_log_capture/src/rb_log_capture.c:51-89 | and what goes into the ring are the lines of the whole log that parse, in order, however it was cut |
| LogCapture.CutBeforeNewline | firmware/components/rb_log_capture/src/rb_log_capture.c:82-84 | 191 characters cut off from their newline become a line and an empty line after it |
| LogCapture.FeedLeavesRoom | firmware/components/rb_log_capture/src/rb_log_capture.c:81-88 | what stays pending is shorter than 191 characters and holds no newline |
| LogCapture.LinesConserved | firmware/components/rb_log_capture/src/rb_log_capture.c:52-65 | lines put in = taken + held + overwritten; the ring holds the newest, in order |
| LogCapture.PutIsHeld | firmware/components/rb_log_capture/src/rb_log_capture.c:58-64 | a line put in is the newest held, and another is overwritten only when there is no room |
| LogCapture.AllParsedStored | firmware/components/rb_log_capture/src/rb_log_capture.c:52-65 | every text that parses is put in, in order, and none that does not |
| LogCapture.TakenInOrder | firmware/components/rb_log_capture/src/rb_log_capture.c:124-137 | a take hands out the next lines in the order they were put in, skipping only those overwritten |
| LogCapture.Capture.Store | firmware/components/rb_log_capture/src/rb_log_capture.c:52-65 | a line's place in the circular array, and the drop count, are those of the specified ring |
| LogCapture.Capture.Collect | firmware/components/rb_log_capture/src/rb_log_capture.c:68-89 | appending, scanning for newlines and moving the rest down in place do what is specified of one piece |
| LogCapture.Capture.StoreLines | firmware/components/rb_log_capture/src/rb_log_capture.c:75-80 | every finished line of the buffer is stored, once and in order |
| LogCapture.Capture.TakeLines | firmware/components/rb_log_capture/src/rb_log_capture.c:124-137 | up to so many lines, oldest first |
| LogPaging.EachLineOnce | frontend/js/logs.js:59-70 | over every interleaving of storing, pruning, typing, choosing, restarting and the view's reads: after the first answer every stored line between the cursors that matches what was asked for when the cursor passed it is added exactly once and in id order, unless it was pruned; the page shows the last 1500 of all that was added, the newest line last |
| LogPaging.AsFilteredExactly | frontend/js/logs.js:29-62 | those are the lines that match the filter of the last restart exactly when no line tells that filter from the one it was asked for with |
| LogPaging.UnchangedInputs | frontend/js/logs.js:29-62 | so they are while the inputs hold what they held at the restart |
| LogPaging.OneLineAway | frontend/js/logs.js:29-62 | and from any state that is up to date and whose inputs no longer mean the same, one new line that tells them apart and one poll break it |
| LogPaging.AskedTooEarly | frontend/js/logs.js:208-212 | a run of 13 events in which text is typed and a poll asks with it before its timer restarts the page |
| LogPaging.TagIsDropped | frontend/js/logs.js:167-175 | when the chosen tag has left the newest 2000 lines, a poll sets the select back to all tags and restarts nothing |
| LogPaging.TagIsKept | frontend/js/logs.js:167-175 | a poll leaves the inputs alone exactly if no tag is chosen or the chosen one is among the newest 2000 lines, and the select offers the tags of those |
| LogPaging.NothingRestarts | frontend/js/logs.js:207-212 | and the page goes on so until someone types or chooses |
| LogPaging.OtherTagShown | frontend/js/logs.js:167-175 | a run of 24 events in which that puts a line of another tag on the page |
| LogPaging.FirstAnswerIsNewest | django/ingest/views.py:356-359 | the first answer holds the newest matching lines: an older one is left out only when the page is full |
| LogPaging.SecondReadOk | django/ingest/views.py:347-359 | what the view returns for a cursor is complete up to the cursor that the page will move to, and unless it is a full page that cursor is past every line there was when the view began |
| LogPaging.MatchesMeans | django/ingest/views.py:349-354 | a line matches if its level is the chosen one or more severe, its tag the chosen one, and the text stands in message or tag, capital letters or not |
| LogPaging.KnownTagsMean | django/ingest/views.py:365 | the known tags are those of the newest lines that are not pruned, as many as asked for |
| LogPaging.NewestIdMeans | django/ingest/views.py:348 | the first read gives the highest id that is not pruned, or 0 |
| LogPaging.Tab.Restart | frontend/js/logs.js:39-45 | a restart forgets lines and cursor and starts a new generation |
| LogPaging.Tab.BeginPoll | frontend/js/logs.js:52-62 | at most one request is out; it asks from the cursor on with what the inputs hold now |
| LogPaging.Tab.EndPoll | frontend/js/logs.js:62-82 | taking an answer over does what is specified: nothing for an older generation, otherwise lines, cursor and tags |
| LogPaging.Tab.TakeLines | frontend/js/logs.js:64-70 | lines are appended and trimmed to 1500, the cursor moves |
| LogPaging.Tab.DrawTags | frontend/js/logs.js:167-175 | the tag select gets the known tags and keeps the chosen one if it is among them |
| Retention.SuffixesDisjoint | django/ingest/retention.py:32-33 | no topic falls under both suffix lists |
| Retention.RulesDisjoint | django/ingest/retention.py:68-97 | no message falls under two rules |
| Retention.EventsStay | django/ingest/retention.py:72 | a message that carries a safety event is never removed |
| Retention.StaysExactly | django/ingest/retention.py:68-97 | a message stays exactly if it carries an event, or is younger than the limit of its topic; telemetry between its two limits only as the earliest of its bucket |
| Retention.SuffixesMean | django/ingest/retention.py:32-33 | which topics are which, suffix by suffix |
| Retention.EarliestStays | django/ingest/retention.py:84-93 | of the thinning window exactly the earliest message of each bucket stays, whatever order the database gives messages of one instant |
| Retention.BucketHasEarliest | django/ingest/retention.py:84-93 | and every bucket that has a message has such a one |
| Retention.BucketSpan | django/ingest/retention.py:88 | messages of one bucket are of one controller and less than the thinning interval apart |
| Retention.BucketMeans | django/ingest/retention.py:88 | a bucket is one controller and one interval of the thinning seconds, one second at least |
| Retention.PruningIsIdempotent | django/ingest/retention.py:68-97 | a second run at the same time removes nothing |
| Retention.EveryRowCounted | django/ingest/retention.py:60-97 | every message is kept or counted under exactly one rule |
| Retention.CountsMean | django/ingest/retention.py:68-97 | what each count counts |
| Retention.KeptLinesMean | django/ingest/retention.py:99-100 | a log line is kept, as often as it is there, exactly if it is not from before the cut-off |
| Retention.CountUndisturbed | django/ingest/retention.py:60-65 | a rule counts the same whether or not the rules before it have deleted theirs |
| Retention.Database.DeleteIds | django/ingest/retention.py:60-65 | batches of 2000 delete exactly the rows with the ids; a dry run only counts them |
| Retention.Database.ThinIds | django/ingest/retention.py:84-93 | the loop with the set of seen buckets picks exactly the rows to thin out |
| Retention.Database.Prune | django/ingest/retention.py:68-104 | one run leaves exactly the rows no rule takes; its counts are those of the whole table, dry or not |

## Left out

- The safety state machine, its trend fit, holds and tiers, the sensor-node health logic and the ESP-NOW packet
  encoding are not part of this model; `Layering` takes the validity checks, the parameter table and the cookware table
  as given functions.
- `c4002_decode_result`, `rb_json_num` (printf of floats), `rb_log_line_parse` and the skipped-tag list, the raw live
  results that the relay passes on, and the relay's own command parser: further members of kinds already modelled, or
  text formatting.
- Error texts of the command parser and log output; the parser's out-structure on refusal.
- CtrlCmd.Parse: the bit masks are sets of bit positions and the out-structure is a map from member to value; C's fixed
  widths matter only where a value could leave them, and those tests are modelled.
- CtrlText.Scanner.TakeString: a string is a sequence of characters, so encodings are not modelled.
- JsonWriter.WriteDocument: byte strings and texts are passed as sequences; the buffer is an array.
- TuningRelay.Table.Poll: one undisturbed call; the interleaved sections are the events of the history theorems, for one
  record, since no section touches two.
- TuningRelay.NoReplyNotEarly: requires poll time and deadline less than half a turn of the clock (24 days) apart.
- Tuning.AnswerHasACommand: one physical node per node id; packets that others send under that id are not modelled.
- TuningNode.SavedIsHonest: a failed save or erase is taken to leave the flash as it was; the loading at boot is not
  modelled, only what the flash holds.
- TuningNode.RadarRunsCurrent: what a calibration does inside the radar is unknown, so its thresholds and custom
  sensitivity are left open.
- Layering: temperatures are real numbers, so rounding of the gap is not captured; the shared lock is modelled by
  taking all slots in one step.
- Calendar.WrittenIsRead: the chip does not tick between write and read; `gmtime_r` is the day-by-day calendar.
- LogCapture.Capture.Collect: the printed piece is given; a piece that finds the mutex taken is lost and counted, which
  is a counter only.
- Merge.Merge: nested dictionaries are values that the recursion hands back, so aliasing between them is not captured;
  a stamp is a number, not an ISO text; anything that is not an object is an atom.
- Merge.LastWriterWins: a path is always an object or always a value, and keys hold no dots; the module says what
  happens otherwise.
- Persist.Row.Persist: the MQTT DUP suppression by fingerprint, online flags, stored readings and outcome labels.
- Incidents.History.RecordState: one controller's rows in the order they were opened; reading a tier's number from its
  text is left to the caller.
- Incidents.PeriodSummary: medians, rates and rounding, cooking days and the filter for unclear incidents; a time
  zone maps times to local days, each with a midnight that is its first time.
- LogPaging.EachLineOnce: lines become visible in the order of their ids; one controller is selected; text is compared
  with ASCII letters alike; the order of the known tags, drawing and log levels.
- Retention.Database.Prune: removing what hangs on a message is not modelled; the order of messages received at one
  instant is any fixed one.
- HTTP, MQTT, NVS, I2C, UART, SQL, FreeRTOS scheduling and priorities; channel following, buzzer, fault manager, heat
  maps, alerts, demo data and all rendering.
