# WPF Antenna Switch: a verified model of the switching core

The antenna switch watches the radio's state. A contest logger broadcasts that state as
N1MM-style XML over UDP. The switch works out which amateur band the radio is on and
selects an antenna port for the band. It does this by driving a KC868 relay board with
text commands over UDP. It also emulates a Kenwood TS-590SG CAT interface over TCP, so
other programs can query the same radio state.

This project models that core in Dafny and proves properties of the model:

- the frequency-to-band decoder (`BandDecoding`);
- the UDP request/reply transport with exponential backoff (`Transport`);
- the message-sender interface the relay managers use, as a scripted stand-in (`SenderOracle`);
- the relay-board protocol and the state both relay managers share (`RelayProtocol`);
- the relay manager the application uses (`RelaySelector`), including:
  - command validation and retry;
  - reading the board's relay mask;
  - "all others off, this one on";
  - the per-band record of the last relay;
  - the band-to-ports cache;
- the older relay manager, which has no reply validation and can toggle a relay (`LegacyRelays`);
- the N1MM broadcast listener, with its regular-expression field extraction (`BroadcastListener`);
- the TS-590SG CAT emulator, with its command table, `IF;` sentence and client session loop (`CatEmulator`);
- the decisions in the main window (`MainWindowLogic`):
  - band names;
  - band-button colours and enabling;
  - the rebuilt port-configuration list;
  - port choice on a band change;
- the configuration and radio-state records (`Records`) and the .NET text functions they rely on (`Text`).

Where the source changes state in place, the model is a `class` with the same fields.
Every state-changing method is proved equal to a pure function of the state before the
call, for example `ensures Model() == SetForAntennaEffect(old(Model()), …)`. What the
source promises about the operation is then proved as lemmas about that function.

The relay board and the network are oracles:

- `SenderOracle.ScriptedSender` answers each call with the next scripted reply, or with an exception.
  An exhausted script times out.
- `Transport.Network` gives each attempt a scripted outcome.
- Every message sent and every `Task.Delay` is logged, so the lemmas can state exactly what reached the board and how long was waited.

## Model

| member | source | states |
|---|---|---|
| Records.BandSupportMatchesFlags | AntennaSwitchWPF/RelayController/RelayManager.cs:174-188 | bands 1..10 are, in order, the flags 160 m ... 6 m |
| Records.NoBandOutsideTable | AntennaSwitchWPF/RelayController/RelayManager.cs:187 | no band number outside 1..10 is ever supported |
| Records.ConfigsForBandSelects | AntennaSwitchWPF/RelayController/RelayManager.cs:42-43 | the selected configurations are exactly the given ones that support the band |
| Records.SelectPortsParsesSelected | AntennaSwitchWPF/RelayController/RelayManager.cs:42-45 | whatever the parser, a failure comes from some selecting configuration whose port does not parse; on success entry k is the parsed port of the k-th selecting configuration |
| Records.PortsForBandParsesSelected | AntennaSwitchWPF/RelayController/RelayManager.cs:42-45 | the port list exists iff every selecting configuration's port parses as a 32-bit integer; entry k is the parsed port of the k-th selecting configuration |
| Records.NoPortsOutsideBands | AntennaSwitchWPF/RelayController/RelayManager.cs:174-188 | a band number outside 1..10 yields an empty port list |
| Records.PortsForBandExample | AntennaSwitchWPF/Tests/RelayManagerTests.cs:72-84 | ports "1" and "3" select 160 m and "2" does not, so the list for band 1 is [1, 3] |
| Text.ParseInt32Formatted | AntennaSwitchWPF/RelayController/RelayManager.cs:44 | int.Parse reads the decimal text of every 32-bit integer back as that integer |
| Text.ParseInt32Overflow | AntennaSwitchWPF/RelayController/RelayManager.cs:44 | the decimal text of an integer outside 32 bits raises OverflowException, not FormatException |
| Text.ParseInt32NoDigits | AntennaSwitchWPF/RelayController/RelayManager.cs:44 | text without a digit has no integer syntax and raises FormatException |
| Text.TryParseBoolText | AntennaSwitchWPF/UdpListener.cs:130 | bool.TryParse reads back the text of bool.ToString |
| BandDecoding.BandOf | AntennaSwitchWPF/BandDecoder.cs:15-28 | the band lies in 0..10; a non-zero band contains the frequency, and 0 means no band contains it |
| BandDecoding.DecodeFrequency | AntennaSwitchWPF/BandDecoder.cs:7-13 | the stored band is in 0..10, and text that long.TryParse rejects gives 0 |
| BandDecoding.EdgesIncrease | AntennaSwitchWPF/BandDecoder.cs:17-26 | each band ends below the start of every higher band |
| BandDecoding.BandOfMonotone | AntennaSwitchWPF/BandDecoder.cs:15-28 | a higher in-band frequency never gives a lower band number |
| BandDecoding.BandsDisjoint | AntennaSwitchWPF/BandDecoder.cs:17-26 | no frequency lies in two bands |
| BandDecoding.BoundaryExamples | AntennaSwitchWPF/BandDecoder.cs:17-27 | the 160 m and 6 m edges are inclusive, and one hertz outside them is band 0 |
| BandDecoding.UnparsableExamples | AntennaSwitchWPF/BandDecoder.cs:9-13 | null, empty and "14.195" all decode to band 0 |
| BandDecoding.DecodeFormattedFrequency | AntennaSwitchWPF/BandDecoder.cs:9-28 | the decimal text of any 64-bit frequency decodes to that frequency's band |
| BandDecoding.BandDecoder.constructor | AntennaSwitchWPF/BandDecoder.cs:5 | a new decoder reports band 0 |
| BandDecoding.BandDecoder.DecodeBand | AntennaSwitchWPF/BandDecoder.cs:7-29 | the stored band number is the decoded band of the latest argument |
| Transport.ExchangeSettlesAtFirst | AntennaSwitchWPF/UdpMessageSender.cs:35-59 | the call ends at the first attempt that is not a socket error; it returns that attempt's reply or exception, after k+1 datagrams and the delays 100·2^j for the attempts in between |
| Transport.ExchangeExhausted | AntennaSwitchWPF/UdpMessageSender.cs:55-58 | three socket errors rethrow the third, after exactly 3 datagrams and waits of 100 ms and 200 ms |
| Transport.ExchangeBounds | AntennaSwitchWPF/UdpMessageSender.cs:35-62 | at most 3 datagrams; one delay between consecutive attempts, each the doubled backoff; only timeout, cancellation or a socket error are raised; "Max retries reached" never escapes |
| Transport.TimeoutNotRetried | AntennaSwitchWPF/UdpMessageSender.cs:51-54 | a receive timeout raises TimeoutException after one datagram and no delay |
| Transport.ThirdAttemptSucceeds | AntennaSwitchWPF/UdpMessageSender.cs:55-58 | two socket errors and then a reply return the reply, after 3 datagrams and waits of 100 ms and 200 ms |
| Transport.Network.constructor | AntennaSwitchWPF/UdpMessageSender.cs:18-25 | the network starts with its script and has sent nothing |
| Transport.Network.Transmit | AntennaSwitchWPF/UdpMessageSender.cs:39-48 | one datagram is logged, and the attempt's outcome is the next scripted one |
| Transport.UdpMessageSender.constructor | AntennaSwitchWPF/UdpMessageSender.cs:18-25 | the sender is bound to its network and has waited for nothing |
| Transport.ResumeAfterSocketError | AntennaSwitchWPF/UdpMessageSender.cs:55-58 | a socket error before the last attempt hands the rest of the call to the next attempt, after one more backoff delay |
| Transport.ResumeEnds | AntennaSwitchWPF/UdpMessageSender.cs:41-58 | any other outcome of attempt k ends the call with k+1 datagrams, the earlier delays, and that attempt's reply or exception |
| Transport.UdpMessageSender.SendMessageAndReceiveResponse | AntennaSwitchWPF/UdpMessageSender.cs:30-68 | the result, the datagrams sent (the message, once per attempt) and the delays waited are those of the reference exchange |
| Transport.UdpMessageSender.SendCommandAndValidateResponse | AntennaSwitchWPF/UdpMessageSender.cs:70-74 | the result is whether the reference exchange's reply contains the pattern; its exceptions propagate |
| SenderOracle.TransportReplies | AntennaSwitchWPF/IUdpMessageSender.cs:5 | the transport, seen through the interface, only answers, times out, is cancelled or fails at the socket |
| SenderOracle.ScriptedSender.constructor | AntennaSwitchWPF/IUdpMessageSender.cs:3-9 | the stand-in starts with its script and an empty log |
| SenderOracle.ScriptedSender.SendMessageAndReceiveResponse | AntennaSwitchWPF/IUdpMessageSender.cs:5 | each call consumes one scripted reply, logs the message and returns the reply or its exception |
| SenderOracle.ScriptedSender.SendCommandAndValidateResponse | AntennaSwitchWPF/IUdpMessageSender.cs:7-8 | each call consumes one scripted reply, logs the command and returns whether the reply contains the expected text |
| RelayProtocol.SetReplyValidates | AntennaSwitchWPF/RelayController/RelayManager.cs:130-131 | the board's acknowledgement of a set command validates against the expected reply |
| RelayProtocol.SetCommandInjective | AntennaSwitchWPF/RelayController/RelayManager.cs:130 | set commands for different relays or states are different texts |
| RelayProtocol.NothingRecorded | AntennaSwitchWPF/RelayController/RelayManager.cs:32-95 | a manager with empty records reports every relay off, relay 0 for every band, and no band as correctly set |
| RelayProtocol.AllRelaysOff | AntennaSwitchWPF/RelayManager.cs:16-19 | the initial relay map holds exactly relays 1..16, all off |
| RelayProtocol.RelaysForBandOutcome | AntennaSwitchWPF/RelayController/RelayManager.cs:36-50 | on a cache miss the call succeeds exactly when every configuration selecting the band has a 32-bit port; entry k is the port of the k-th such configuration, and that list is cached; a failure caches nothing |
| RelayProtocol.RelaysForBandIsCached | AntennaSwitchWPF/RelayController/RelayManager.cs:40 | after a successful lookup, later lookups for the band return the same list whatever the configurations, and only the cache changed |
| RelaySelector.RetryOutcome | AntennaSwitchWPF/RelayController/RelayManager.cs:190-211 | the result is true iff one of the first two replies validates; it is an exception iff the first does not validate and the second raises; the messages, replies consumed and delays (50 ms, then 100 ms) are stated for each case |
| RelaySelector.RetryAcknowledgedAtOnce | AntennaSwitchWPF/RelayController/RelayManager.cs:199-200 | an acknowledgement on the first try succeeds with one message and no delay |
| RelaySelector.SetRelayOutcome | AntennaSwitchWPF/RelayController/RelayManager.cs:124-143 | success sets the relay's state and selects it; failure changes neither the relay states nor the selection; nothing is sent exactly when the relay already has the state and is selected; band records never change |
| RelaySelector.SetRelayUnacknowledged | AntennaSwitchWPF/RelayController/RelayManager.cs:132-142 | two unacknowledged replies raise "Failed to set relay …" after waits of 50 ms and 100 ms, with the states unchanged |
| RelaySelector.TurnOffAllOutcome | AntennaSwitchWPF/RelayController/RelayManager.cs:110-122 | success, which happens iff one of the first two replies acknowledges, switches every known relay off and deselects; failure changes no relay |
| RelaySelector.MaskStates | AntennaSwitchWPF/RelayController/RelayManager.cs:228-232 | the decoded map has exactly the keys 1..16 |
| RelaySelector.DecodeStateReply | AntennaSwitchWPF/RelayController/RelayManager.cs:217-232 | a reply is decoded only when it splits into RELAY-STATE-255, two 32-bit integers and OK, and then to the relay map of those two values with exactly relays 1..16; every other reply raises InvalidOperationException |
| RelaySelector.StateReplyRoundTrip | AntennaSwitchWPF/RelayController/RelayManager.cs:217-232 | the board's answer for any two 32-bit values decodes to the relay map of those values |
| RelaySelector.DecodeStateWith | AntennaSwitchWPF/RelayController/RelayManager.cs:217-232 | whatever reads the two values, a reply is decoded only when it has the four-part shape and both values are read, and then to their relay map over relays 1..16; every other reply raises InvalidOperationException |
| RelaySelector.DecodeWellFormed | AntennaSwitchWPF/RelayController/RelayManager.cs:217-228 | any reply of the four-part shape whose two values read as integers decodes to their relay map |
| RelaySelector.StateReplySplits | AntennaSwitchWPF/RelayController/RelayManager.cs:217-218 | a reply built from comma-free values splits into the four expected parts |
| RelaySelector.StateMaskLowExample | AntennaSwitchWPF/RelayController/RelayManager.cs:228-232 | low value 16 means exactly relay 5 is on |
| RelaySelector.StateMaskHighExample | AntennaSwitchWPF/RelayController/RelayManager.cs:228-232 | high value 1 means exactly relay 9 is on |
| RelaySelector.StateMaskAllButOneExample | AntennaSwitchWPF/RelayController/RelayManager.cs:228-232 | values 255 and 239 mean every relay except relay 5 is on |
| RelaySelector.StateMaskNegativeExample | AntennaSwitchWPF/RelayController/RelayManager.cs:228-232 | a negative low value (-1) switches all 16 relays on, because the OR sign-extends it |
| RelaySelector.QueryOutcome | AntennaSwitchWPF/RelayController/RelayManager.cs:213-236 | one state command is sent; on success the relay map is replaced by the board's report for 1..16; on failure it is unchanged; nothing else but the link changes |
| RelaySelector.SwitchOffOthersKeepsBands | AntennaSwitchWPF/RelayController/RelayManager.cs:74-77 | the loop never changes the band cache or the bands' last-selected relays |
| RelaySelector.SwitchOffOthersOutcome | AntennaSwitchWPF/RelayController/RelayManager.cs:74-77 | when the loop completes, relays 1..16 are still known, every relay from the loop's position on other than the kept one is off, and every other relay has its earlier state |
| RelaySelector.KeepOnOutcome | AntennaSwitchWPF/RelayController/RelayManager.cs:79-84 | with the others off, success leaves exactly the kept relay on and selected; a relay outside 1..16 raises KeyNotFoundException |
| RelaySelector.TurnOffExceptOutcome | AntennaSwitchWPF/RelayController/RelayManager.cs:68-86 | success means the board reported its state and the relay is in 1..16, and leaves exactly that relay on and selected; the band records never change |
| RelaySelector.SetForAntennaOutcome | AntennaSwitchWPF/RelayController/RelayManager.cs:52-66 | an already active relay changes nothing; the band record changes only to the relay, and only when exactly that relay is on, selected and reported correct for the band; the cache never changes |
| RelaySelector.SelectionSucceeds | AntennaSwitchWPF/RelayController/RelayManager.cs:151-162 | when the switch succeeds the band records the relay, IsCorrectRelaySet holds, and repeating the request for any band and cooldown changes nothing |
| RelaySelector.StatesFromMask | AntennaSwitchWPF/RelayController/RelayManager.cs:230-232 | the loop's map reports relay i on exactly when bit i-1 of (high << 8) or low is set |
| RelaySelector.RelayManager.constructor | AntennaSwitchWPF/RelayController/RelayManager.cs:3-12 | a new manager knows no relay, selects none and has empty band records; it reports every relay off, relay 0 for every band and no band as correctly set |
| RelaySelector.RelayManager.GetRelayState | AntennaSwitchWPF/RelayController/RelayManager.cs:32 | a recorded relay is reported as recorded, and an unrecorded one as off |
| RelaySelector.RelayManager.GetLastSelectedRelayForBand | AntennaSwitchWPF/RelayController/RelayManager.cs:88-89 | a band's recorded relay, or 0 for a band without a record |
| RelaySelector.RelayManager.IsCorrectRelaySet | AntennaSwitchWPF/RelayController/RelayManager.cs:91-95 | holds exactly when the band has a record, the record is not 0, and it is the relay selected now |
| RelaySelector.RelayManager.SendCommandWithRetry | AntennaSwitchWPF/RelayController/RelayManager.cs:190-211 | result and new state are those of the retry reference |
| RelaySelector.RelayManager.SetRelay | AntennaSwitchWPF/RelayController/RelayManager.cs:124-143 | result and new state are those of the single-relay effect |
| RelaySelector.RelayManager.TurnOffAllRelays | AntennaSwitchWPF/RelayController/RelayManager.cs:110-122 | result and new state are those of the all-off effect |
| RelaySelector.RelayManager.GetCurrentRelayStates | AntennaSwitchWPF/RelayController/RelayManager.cs:213-236 | result and new state are those of the state query |
| RelaySelector.RelayManager.TurnOffAllRelaysExcept | AntennaSwitchWPF/RelayController/RelayManager.cs:68-86 | result and new state are those of the query, the switch-off loop and the final keep-on |
| RelaySelector.RelayManager.SwitchOffOthersLoop | AntennaSwitchWPF/RelayController/RelayManager.cs:74-77 | the foreach over keys 1..16 matches the recursive loop reference |
| RelaySelector.RelayManager.KeepOn | AntennaSwitchWPF/RelayController/RelayManager.cs:79-84 | the lines after the loop match the keep-on reference |
| RelaySelector.RelayManager.ExecuteRelayChange | AntennaSwitchWPF/RelayController/RelayManager.cs:151-172 | exceptions are absorbed, and the band record is set only when the relay ended up on |
| RelaySelector.RelayManager.SetRelayForAntenna | AntennaSwitchWPF/RelayController/RelayManager.cs:52-66 | the new state is that of the antenna-selection effect, including the cooldown wait |
| RelaySelector.RelayManager.GetRelaysForBand | AntennaSwitchWPF/RelayController/RelayManager.cs:36-50 | result and new cache are those of the cached lookup |
| LegacyRelays.RetryOutcome | AntennaSwitchWPF/RelayManager.cs:145-167 | success iff one of the first two calls answers, whatever the answer; otherwise the second exception propagates after a 50 ms wait |
| LegacyRelays.TurnOffAllOutcome | AntennaSwitchWPF/RelayManager.cs:24-41 | RELAY-SET_ALL-255,0,0 is sent; unless both calls raise, every known relay is off and none is selected; failure changes no relay |
| LegacyRelays.SetRelayOutcome | AntennaSwitchWPF/RelayManager.cs:43-63 | an already-set selected relay sends nothing; otherwise the set command is sent, and success records the state and selection while failure records nothing |
| LegacyRelays.ToggleOutcome | AntennaSwitchWPF/RelayManager.cs:65-79 | the key command is sent first; success flips exactly that relay and selects it; an unknown relay raises KeyNotFoundException |
| LegacyRelays.ToggleTwice | AntennaSwitchWPF/RelayManager.cs:72 | two successful toggles restore every relay |
| LegacyRelays.SetForAntennaOutcome | AntennaSwitchWPF/RelayManager.cs:103-122 | an already selected relay changes nothing; success switches every known relay off but that one, which is on, selected and recorded for the band (exactly the relay on, when the manager knows relays 1..16 only); failure records nothing |
| LegacyRelays.RelaysStayKnown | AntennaSwitchWPF/RelayManager.cs:13-20 | relays 1..16 stay known through every operation |
| LegacyRelays.RelayManager.constructor | AntennaSwitchWPF/RelayManager.cs:13-20 | a new manager knows relays 1..16, all off, and selects none; it reports every relay off and relay 0 for every band |
| LegacyRelays.RelayManager.GetRelayState | AntennaSwitchWPF/RelayManager.cs:81 | a recorded relay is reported as recorded, and an unrecorded one as off |
| LegacyRelays.RelayManager.GetLastSelectedRelayForBand | AntennaSwitchWPF/RelayManager.cs:124-125 | a band's recorded relay, or 0 for a band without a record |
| LegacyRelays.RelayManager.SendCommandWithRetry | AntennaSwitchWPF/RelayManager.cs:145-167 | result and new state are those of the retry reference |
| LegacyRelays.RelayManager.TurnOffAllRelays | AntennaSwitchWPF/RelayManager.cs:24-41 | result and new state are those of the all-off effect |
| LegacyRelays.RelayManager.SetRelay | AntennaSwitchWPF/RelayManager.cs:43-63 | result and new state are those of the single-relay effect |
| LegacyRelays.RelayManager.ToggleRelay | AntennaSwitchWPF/RelayManager.cs:65-79 | result and new state are those of the toggle effect |
| LegacyRelays.RelayManager.SetRelayForAntenna | AntennaSwitchWPF/RelayManager.cs:103-122 | result and new state are those of the antenna-selection effect |
| LegacyRelays.RelayManager.GetRelaysForBand | AntennaSwitchWPF/RelayManager.cs:83-101 | result and new cache are those of the cached lookup |
| BroadcastListener.MatchStartMeaning | AntennaSwitchWPF/UdpListener.cs:145 | a match at the start captures v iff the text begins with the opening tag, v without '<' and the closing tag |
| BroadcastListener.ExtractValue | AntennaSwitchWPF/UdpListener.cs:143-147 | an extracted value never contains '<' |
| BroadcastListener.ExtractValueLeftmost | AntennaSwitchWPF/UdpListener.cs:145-146 | null iff no position starts a match; otherwise the value is the leftmost match's |
| BroadcastListener.SkipElement | AntennaSwitchWPF/UdpListener.cs:145 | a whole element of another name is skipped |
| BroadcastListener.FindElement | AntennaSwitchWPF/UdpListener.cs:145 | an element of the name is found, whatever follows it |
| BroadcastListener.FreqIsNotTxFreq | AntennaSwitchWPF/UdpListener.cs:127-128 | looking up Freq never yields a TXFreq value |
| BroadcastListener.ParseOptionalInt32 | AntennaSwitchWPF/UdpListener.cs:131 | a radio number is only read from present text, and lies in the 32-bit range |
| BroadcastListener.ReadRadioNumber | AntennaSwitchWPF/UdpListener.cs:131 | a 32-bit radio number written as text reads back as itself, and an absent one stays absent |
| BroadcastListener.Shown | AntennaSwitchWPF/UdpListener.cs:149-157 | the properties copy the record, except that TX shows RX unless the radio is split |
| BroadcastListener.ShownIsIdempotent | AntennaSwitchWPF/UdpListener.cs:152 | showing a shown record changes nothing; when not split, TX equals RX |
| BroadcastListener.ExtractBroadcastField | AntennaSwitchWPF/UdpListener.cs:127-132 | each element of a broadcast is extracted exactly as carried, absent ones as null |
| BroadcastListener.ParseCarried | AntennaSwitchWPF/UdpListener.cs:124-132 | a message whose six elements carry a record's fields parses to that record |
| BroadcastListener.ParseBroadcast | AntennaSwitchWPF/UdpListener.cs:120-135 | parsing a broadcast gives back the record it carries |
| BroadcastListener.MissingFieldDefaults | AntennaSwitchWPF/UdpListener.cs:127-131 | a missing Freq or ActiveRadioNr element leaves only that field null |
| BroadcastListener.FlagReadsPaddedLowerCase | AntennaSwitchWPF/UdpListener.cs:130 | " true " reads as set, because bool.TryParse ignores padding and case |
| BroadcastListener.FlagRejectsOtherText | AntennaSwitchWPF/UdpListener.cs:130-132 | "yes", "False" and a missing element read as not set |
| BroadcastListener.UdpListener.constructor | AntennaSwitchWPF/UdpListener.cs:18-23 | a new listener shows an empty record and has raised nothing |
| BroadcastListener.UdpListener.UpdateFields | AntennaSwitchWPF/UdpListener.cs:149-157 | the properties show the record as Shown gives it |
| BroadcastListener.UdpListener.ParseMessage | AntennaSwitchWPF/UdpListener.cs:120-141 | the properties show the parsed record, and the event carries it without the TX substitution |
| CatEmulator.FrequencyField | AntennaSwitchWPF/FakeTS590SG.cs:113-114 | 11 zeros when absent; otherwise the value left-padded with zeros to 11 characters and never truncated |
| CatEmulator.ModeCode | AntennaSwitchWPF/FakeTS590SG.cs:147-158 | one digit in 0..5, non-zero exactly for a known mode name in any case |
| CatEmulator.ModeCodeRoundTrip | AntennaSwitchWPF/FakeTS590SG.cs:147-158 | a known mode maps to its digit and back to its upper-case name; an unknown one maps to "0", which names no mode |
| CatEmulator.ModeCodeIgnoresCase | AntennaSwitchWPF/FakeTS590SG.cs:149 | the mode digit does not depend on letter case |
| CatEmulator.IfResponse | AntennaSwitchWPF/FakeTS590SG.cs:127-145 | "IF", then the frequency field, 27 more characters, ending in ';' |
| CatEmulator.ProcessCommand | AntennaSwitchWPF/FakeTS590SG.cs:104-125 | every reply ends in ';'; the reply is "?;" exactly for a command outside the table |
| CatEmulator.FixedReplies | AntennaSwitchWPF/FakeTS590SG.cs:108-122 | identification, power and the other fixed queries answer the same whatever the snapshot |
| CatEmulator.IfTail | AntennaSwitchWPF/FakeTS590SG.cs:130-144 | the fields after the frequency always take 25 characters |
| CatEmulator.IfTailLayout | AntennaSwitchWPF/FakeTS590SG.cs:130-144 | the 25 characters after the frequency: five spaces, zeros at the fixed columns, the TX flag, the mode digit, the split flag and the closing ';' |
| CatEmulator.IfLayout | AntennaSwitchWPF/FakeTS590SG.cs:127-145 | for frequencies up to 11 digits the sentence is 38 characters, each fixed field at its column, with TX at 28, mode at 29 and split at 32 |
| CatEmulator.QueryReplies | AntennaSwitchWPF/FakeTS590SG.cs:113-120 | FA, FB, MD, TX, SP and IF each answer from their own snapshot field |
| CatEmulator.IfAgreesWithQueries | AntennaSwitchWPF/FakeTS590SG.cs:113-117 | the IF sentence's frequency, TX, mode and split fields agree with the FA, TX, MD and SP replies |
| CatEmulator.FrequencyReplyValue | AntennaSwitchWPF/FakeTS590SG.cs:113 | an FA reply's digits denote the snapshot's frequency |
| CatEmulator.AbsentFrequencyReply | AntennaSwitchWPF/FakeTS590SG.cs:113 | with no frequency the FA reply is 11 zeros |
| CatEmulator.FrequencyReplyExample | AntennaSwitchWPF/Tests/FakeTs590SgTests.cs:36-45 | 14195000 is answered "FA00014195000;" |
| CatEmulator.UnknownCommandExamples | AntennaSwitchWPF/FakeTS590SG.cs:106-123 | two commands in one read, a lower-case command and a command without ';' are all answered "?;" |
| CatEmulator.SessionReplies | AntennaSwitchWPF/FakeTS590SG.cs:74-99 | a session writes at most one reply per event |
| CatEmulator.SessionRepliesTerminated | AntennaSwitchWPF/FakeTS590SG.cs:84-85 | every reply written ends in ';' |
| CatEmulator.RepliesToReads | AntennaSwitchWPF/FakeTS590SG.cs:78-85 | without new snapshots, the k-th non-empty read is answered with the reply to its end-trimmed text |
| CatEmulator.EmptyReadEndsSession | AntennaSwitchWPF/FakeTS590SG.cs:80-81 | nothing after an empty read is answered |
| CatEmulator.EmptyReadFreezesSnapshot | AntennaSwitchWPF/FakeTS590SG.cs:80-81 | snapshots that arrive after an empty read are not taken in by the session |
| CatEmulator.LastSnapshotKept | AntennaSwitchWPF/FakeTS590SG.cs:23-28 | after non-empty reads and then a snapshot, the session holds that snapshot |
| CatEmulator.SnapshotReplaces | AntennaSwitchWPF/FakeTS590SG.cs:23-28 | a new snapshot replaces the old outright, so later replies do not depend on earlier snapshots |
| CatEmulator.FakeTs590Sg.constructor | AntennaSwitchWPF/FakeTS590SG.cs:21 | the emulator starts with an empty snapshot |
| CatEmulator.FakeTs590Sg.OnRadioInfoReceived | AntennaSwitchWPF/FakeTS590SG.cs:23-28 | the snapshot becomes the received record |
| CatEmulator.FakeTs590Sg.HandleClient | AntennaSwitchWPF/FakeTS590SG.cs:63-102 | the replies written are those of the session reference from the snapshot at the start, and the snapshot left behind is the session reference's: the last one received before the first empty read |
| MainWindowLogic.GetBandName | AntennaSwitchWPF/MainWindow.xaml.cs:438-455 | a label exists exactly for 0..10; any other number raises ArgumentOutOfRangeException |
| MainWindowLogic.BandNameRoundTrip | AntennaSwitchWPF/MainWindow.xaml.cs:438-455 | a band's label names exactly that band, in both directions |
| MainWindowLogic.ButtonEnabledIffPorts | AntennaSwitchWPF/MainWindow.xaml.cs:426-434 | a band button is enabled iff some configuration selects the band, and so iff the relay manager offers a port for it |
| MainWindowLogic.ChoosePort | AntennaSwitchWPF/MainWindow.xaml.cs:371 | the band's last relay when it is offered, else the first offered port, else 0 |
| MainWindowLogic.ShouldSetIffNotCorrect | AntennaSwitchWPF/MainWindow.xaml.cs:373-380 | for a real port a switch is requested exactly when the manager does not report the band as correctly set |
| MainWindowLogic.SelectionWithoutSwitch | AntennaSwitchWPF/MainWindow.xaml.cs:366-392 | when no switch is due, a band update only fills the band's cache entry and sends nothing to the board |
| MainWindowLogic.SelectionIsStable | AntennaSwitchWPF/MainWindow.xaml.cs:373-386 | once an update switched to the recorded port, repeating it changes nothing, whatever the configurations and cooldown |
| MainWindowLogic.FirstRunSwitches | AntennaSwitchWPF/MainWindow.xaml.cs:379-383 | on the first run the board switches to the chosen offered port |
| MainWindowLogic.PortCount | AntennaSwitchWPF/MainWindow.xaml.cs:620 | the rebuilt list always has at least one port |
| MainWindowLogic.FirstWithPort | AntennaSwitchWPF/MainWindow.xaml.cs:624 | the found configuration is loaded and has the port; none is found only when no loaded configuration has it |
| MainWindowLogic.FirstWithPortIsLeftmost | AntennaSwitchWPF/MainWindow.xaml.cs:624 | the configuration taken is the first one with the port |
| MainWindowLogic.EntryFor | AntennaSwitchWPF/MainWindow.xaml.cs:624-625 | entry i's port text is i |
| MainWindowLogic.RebuiltConfigs | AntennaSwitchWPF/MainWindow.xaml.cs:618-626 | the rebuilt list has exactly the configured number of ports |
| MainWindowLogic.RebuiltEntries | AntennaSwitchWPF/MainWindow.xaml.cs:622-626 | entry k is port k+1: a loaded configuration for it when there is one, else one selecting no band |
| MainWindowLogic.RebuiltPortParses | AntennaSwitchWPF/MainWindow.xaml.cs:618-626 | every entry of the rebuilt list has a port text that parses to a number in 1..N |
| MainWindowLogic.RebuiltPortsParse | AntennaSwitchWPF/MainWindow.xaml.cs:618-626 | the rebuilt list never makes the manager's port parsing fail, and offers only ports 1..N |
| MainWindowLogic.MainWindow.constructor | AntennaSwitchWPF/MainWindow.xaml.cs:42-64 | the window starts with one configuration per port 1..N, none selecting a band, and port 0 |
| MainWindowLogic.MainWindow.UpdateAntennaConfigs | AntennaSwitchWPF/MainWindow.xaml.cs:610-629 | a missing list changes nothing; otherwise the list becomes the rebuilt ports 1..N |
| MainWindowLogic.MainWindow.UpdateBandButtons | AntennaSwitchWPF/MainWindow.xaml.cs:415-436 | ten looks, button i is the look of band i+1 |
| MainWindowLogic.MainWindow.UpdateAntennaSelection | AntennaSwitchWPF/MainWindow.xaml.cs:353-399 | the manager's new state and the shown port are those of the selection reference; configurations are untouched |

## Left out

- Sockets are left out because they are I/O. This covers UDP client setup, hostname resolution, TCP listeners, the listener's receive loop and its 1 s error delay, stream readers and writers, and Dispose. Received datagrams and read chunks become parameters.
- Concurrency is left out. The model has no SemaphoreSlim and no `Task.Run`, and each operation runs to completion. It therefore cannot show that the older manager's SetRelayForAntennaAsync releases its semaphore one extra time (RelayManager.cs:111 and 120).
- Cancellation tokens are left out. A cancelled `Task.Delay` is not modelled. The transport models the caller's cancellation as a scripted outcome.
- The clock is left out. The cooldown check ShouldDelay (RelayController/RelayManager.cs:145-149) is a boolean parameter, so the model does not capture that the check reads `DateTime.Now` while the time is stored as `DateTime.UtcNow` (line 161).
- Regular expressions are modelled as literal containment. The expected replies the managers pass contain no metacharacters. The listener's pattern `<name>([^<]*)</name>` is modelled by its meaning (MatchStartMeaning, ExtractValueLeftmost).
- Text is ASCII only. Culture-sensitive behaviour is not modelled: ToUpper is ASCII upper-casing, white space is ASCII white space, and bool.TryParse's trimming of null characters is left out.
- Dictionary enumeration order is fixed. The state dictionary is enumerated as keys 1..16 in insertion order, which is how GetCurrentRelayStatesAsync builds it. Overwriting an existing key does not invalidate the enumerator in current .NET, so the foreach at RelayController/RelayManager.cs:74-77 is modelled as a walk over 1..16 that reads each relay's current state.
- GetAllRelayStates (RelayController/RelayManager.cs:34) is not a method of the model. It returns a copy of the map, and with value maps that copy is just `relayStates`.
- Null values are not modelled. A null port text and null replies cannot occur in the model. Absent radio fields and a missing configuration list are `Option`s.
- The main window is not modelled when `_relayManager` is null (MainWindow.xaml.cs:359-364). Labels, combo boxes, colours of the text, console logging and settings and MQTT/JSON handling are also left out.
- MainWindowLogic.SelectionEffect assumes the band label exists, so an out-of-range band always raises inside the try block.
- MainWindowLogic.MainWindow.UpdateAntennaSelection passes its `bandNumber` parameter to the switch, where SetAntennaAsync passes `_bandDecoder.BandNumber` (MainWindow.xaml.cs:302). The two are equal when each update runs to completion, because every caller passes `_bandDecoder.BandNumber` (lines 200, 206 and 261); the model does not capture a band change that arrives while an update is running.
- MainWindowLogic.MainWindow.constructor starts the shown port at 0, where `_selectedPort` is an `int?` that starts null (MainWindow.xaml.cs:27). Port 0 is never a relay, and the model does not distinguish "no port chosen yet" from "no port offered".
- CatEmulator.HandleClient ends the session at the first empty read, as the source does. It does not model an I/O error ending the session early.
- CatEmulator.IfResponse follows GenerateIfResponse. The IF strings in Tests/FakeTs590SgTests.cs:96-97 and 120-121 have a different layout from the one the code produces.
- Two behaviours a reader might not expect, both as the code has them:
  - the sender does not retry a timeout (UdpMessageSender.cs:51-54);
  - when TurnOffAllRelaysExceptAsync fails after the state query, the manager keeps the state the board reported, with the relays switched off so far (RelayController/RelayManager.cs:234 and 74-77).
- Transport.Attempt.SocketError stands for every exception of an attempt other than a cancellation, not only socket failures. That includes the FormatException of `IPAddress.Parse` (UdpMessageSender.cs:39) when the configured address is a host name. Such an attempt fails before its datagram is sent, but Transport.Network.Transmit logs a datagram for every attempt, and the exception rethrown after the third attempt is reported as SocketFailure rather than as FormatException.
