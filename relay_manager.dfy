/**
  RelayController/RelayManager.cs: the relay manager the application uses.
  Every command is validated against the board's acknowledgement and retried
  once; selecting an antenna reads the board's real relay state, switches off
  every other relay and leaves exactly the chosen one on.

  Each state-changing method of the class is proved equal to a function on
  `World` below; the properties of the manager are lemmas about those.
*/
module RelaySelector {
  import opened Base
  import opened Text
  import opened Records
  import opened SenderOracle
  import opened RelayProtocol
  import Transport

  const CooldownPeriodMs: int := 100
  const MaxRetries: nat := 2
  const RetryDelayMs: int := 50
  const AllOffCommand: string := "RELAY-AOF-255,1,1"
  const AllOffReply: string := "RELAY-AOF-255,1,1,OK"
  const StateCommand: string := "RELAY-STATE-255"

  // ----- SendCommandWithRetry -----

  /** The reply validated the command. */
  predicate Validates(r: Reply, pattern: string)
  {
    r.Answer? && Transport.Matches(r.text, pattern)
  }

  /** Attempts `attempt`.. of SendCommandWithRetry: true on the first validated reply; an
      exception on the last attempt propagates; otherwise wait 50 * (attempt + 1) ms. */
  function RetryFrom(w: World, command: string, pattern: string, attempt: nat): Step<bool>
    requires attempt <= MaxRetries
    decreases MaxRetries - attempt
  {
    if attempt == MaxRetries then Step(Ok(false), w)
    else
      var r := ReplyAt(w.replies, 0);
      var w1 := Sent(w, command);
      if Validates(r, pattern) then Step(Ok(true), w1)
      else if r.Raise? && attempt == MaxRetries - 1 then Step(Err(r.error), w1)
      else RetryFrom(Waited(w1, RetryDelayMs * (attempt + 1)), command, pattern, attempt + 1)
  }

  /** The complete behaviour of SendCommandWithRetry in terms of the first two replies. */
  lemma RetryOutcome(w: World, command: string, pattern: string)
    ensures var st := RetryFrom(w, command, pattern, 0);
      var r0, r1 := ReplyAt(w.replies, 0), ReplyAt(w.replies, 1);
      LinkOnly(w, st.world) &&
      (st.result == Ok(true) <==> Validates(r0, pattern) || Validates(r1, pattern)) &&
      (st.result.Err? <==> !Validates(r0, pattern) && r1.Raise?) &&
      (st.result.Err? ==> st.result.error == r1.error) &&
      (Validates(r0, pattern) ==> st.world == Sent(w, command)) &&
      (!Validates(r0, pattern) ==>
        st.world.sent == w.sent + [command, command] &&
        st.world.replies == Transport.Drop(w.replies, 2) &&
        st.world.delays == w.delays + (if st.result == Ok(false) then [50, 100] else [50]))
  {
    var r0 := ReplyAt(w.replies, 0);
    if !Validates(r0, pattern) {
      var w1 := Waited(Sent(w, command), 50);
      ReplyAtDrop(w.replies, 0);
      ReplyAtDrop(w.replies, 1);
      assert ReplyAt(w1.replies, 0) == ReplyAt(w.replies, 1);
      assert Transport.Drop(w1.replies, 1) == Transport.Drop(w.replies, 2);
      var st1 := RetryFrom(w1, command, pattern, 1);
      assert RetryFrom(w, command, pattern, 0) == st1;
      assert st1.world.sent == w.sent + [command] + [command];
    }
  }

  /** The relay board's acknowledgement on the first try settles the command with one message. */
  lemma RetryAcknowledgedAtOnce(w: World, relayId: int, state: bool)
    requires ReplyAt(w.replies, 0) == Answer(SetReply(relayId, state))
    ensures RetryFrom(w, SetCommand(relayId, state), SetReply(relayId, state), 0)
      == Step(Ok(true), Sent(w, SetCommand(relayId, state)))
  {
    SetReplyValidates(relayId, state);
  }

  // ----- SetRelayAsyncInternal -----

  /** "Failed to set relay {relayId} to {state}". */
  function SetFailure(relayId: int, state: bool): Error
  {
    InvalidOperation("Failed to set relay " + IntToString(relayId) + " to " + BoolText(state))
  }

  /** Nothing is sent when the relay already has the state and is the selected one. */
  predicate AlreadySet(w: World, relayId: int, state: bool)
  {
    relayId in w.relayStates && w.relayStates[relayId] == state && w.selected == relayId
  }

  function SetRelayEffect(w: World, relayId: int, state: bool): Step<()>
  {
    if AlreadySet(w, relayId, state) then Step(Ok(()), w)
    else
      var st := RetryFrom(w, SetCommand(relayId, state), SetReply(relayId, state), 0);
      match st.result
      case Err(e) => Step(Err(e), st.world)
      case Ok(success) =>
        if success then
          Step(Ok(()), st.world.(selected := relayId, relayStates := st.world.relayStates[relayId := state]))
        else Step(Err(SetFailure(relayId, state)), st.world)
  }

  /** On success the relay has the state and is selected; on failure the relay state and
      selection are untouched; the bands' records never change. */
  lemma SetRelayOutcome(w: World, relayId: int, state: bool)
    ensures var st := SetRelayEffect(w, relayId, state);
      st.world.bandCache == w.bandCache && st.world.lastSelected == w.lastSelected &&
      (st.result.Ok? ==> st.world.relayStates == w.relayStates[relayId := state] && st.world.selected == relayId) &&
      (st.result.Err? ==> st.world.relayStates == w.relayStates && st.world.selected == w.selected) &&
      (AlreadySet(w, relayId, state) <==> st.world.sent == w.sent)
  {
    RetryOutcome(w, SetCommand(relayId, state), SetReply(relayId, state));
    if AlreadySet(w, relayId, state) {
      assert w.relayStates[relayId := state] == w.relayStates;
    }
  }

  /** A command that is not acknowledged in two tries fails with the manager's message. */
  lemma SetRelayUnacknowledged(w: World, relayId: int, state: bool, t0: string, t1: string)
    requires !AlreadySet(w, relayId, state)
    requires ReplyAt(w.replies, 0) == Answer(t0) && ReplyAt(w.replies, 1) == Answer(t1)
    requires !Transport.Matches(t0, SetReply(relayId, state)) && !Transport.Matches(t1, SetReply(relayId, state))
    ensures var st := SetRelayEffect(w, relayId, state);
      st.result == Err(SetFailure(relayId, state)) && st.world.delays == w.delays + [50, 100] &&
      st.world.relayStates == w.relayStates
  {
    RetryOutcome(w, SetCommand(relayId, state), SetReply(relayId, state));
  }

  // ----- TurnOffAllRelaysInternal -----

  function TurnOffAllEffect(w: World): Step<()>
  {
    var st := RetryFrom(w, AllOffCommand, AllOffReply, 0);
    match st.result
    case Err(e) => Step(Err(e), st.world)
    case Ok(success) =>
      if success then Step(Ok(()), st.world.(relayStates := AllOff(st.world.relayStates), selected := 0))
      else Step(Err(InvalidOperation("Failed to turn off all relays")), st.world)
  }

  /** Success switches every known relay off and deselects; failure changes no relay. */
  lemma TurnOffAllOutcome(w: World)
    ensures var st := TurnOffAllEffect(w);
      st.world.relayStates.Keys == w.relayStates.Keys &&
      (st.result.Ok? <==> Validates(ReplyAt(w.replies, 0), AllOffReply) || Validates(ReplyAt(w.replies, 1), AllOffReply)) &&
      (st.result.Ok? ==> st.world.selected == 0 && forall i :: !RelayOn(st.world.relayStates, i)) &&
      (st.result.Err? ==> st.world.relayStates == w.relayStates && st.world.selected == w.selected)
  {
    RetryOutcome(w, AllOffCommand, AllOffReply);
  }

  // ----- GetCurrentRelayStatesAsync -----

  /** 1 << (k - 1) for k in 1..16, the weight of relay k's bit. */
  function RelayWeight(k: int): int
    requires IsRelayId(k)
  {
    match k
    case 1 => 0x1 case 2 => 0x2 case 3 => 0x4 case 4 => 0x8
    case 5 => 0x10 case 6 => 0x20 case 7 => 0x40 case 8 => 0x80
    case 9 => 0x100 case 10 => 0x200 case 11 => 0x400 case 12 => 0x800
    case 13 => 0x1000 case 14 => 0x2000 case 15 => 0x4000 case _ => 0x8000
  }

  /** Bit k - 1 of a 32-bit two's-complement integer: floor division is an arithmetic shift. */
  predicate BitSet(x: int, k: int)
    requires IsRelayId(k)
  {
    (x / RelayWeight(k)) % 2 == 1
  }

  /** Bit i - 1 of (stateHigh << 8) | stateLow, i.e. whether relay i is on: the low value supplies
      every bit, the high value the bits from 8 up. */
  predicate RelayBit(stateHigh: int, stateLow: int, i: int)
    requires IsRelayId(i)
  {
    BitSet(stateLow, i) || (i > 8 && BitSet(stateHigh, i - 8))
  }

  function MaskStates(stateHigh: int, stateLow: int): (m: map<int, bool>)
    ensures m.Keys == RelayIds()
  {
    map i | 1 <= i <= RelayCount && IsRelayId(i) :: RelayBit(stateHigh, stateLow, i)
  }

  /** The board's answer: exactly "RELAY-STATE-255,<high>,<low>,OK" with two 32-bit integers. */
  function DecodeStateReply(response: string): (r: Result<map<int, bool>>)
    ensures r.Ok? ==> r.value.Keys == RelayIds()
    ensures r.Ok? ==> var parts := Split(response, ',');
      |parts| == 4 && parts[0] == StateCommand && parts[3] == "OK" &&
      TryParseInt32(parts[1]).Some? && TryParseInt32(parts[2]).Some? &&
      r.value == MaskStates(TryParseInt32(parts[1]).value, TryParseInt32(parts[2]).value)
    ensures r.Err? ==> r.error.InvalidOperation?
  {
    DecodeStateWith(response, TryParseInt32)
  }

  /** The same decoding with the reader of the two values as a parameter. */
  function DecodeStateWith(response: string, parse: string -> Option<int>): (r: Result<map<int, bool>>)
    ensures r.Ok? ==> r.value.Keys == RelayIds()
    ensures r.Ok? ==> var parts := Split(response, ',');
      |parts| == 4 && parts[0] == StateCommand && parts[3] == "OK" &&
      parse(parts[1]).Some? && parse(parts[2]).Some? &&
      r.value == MaskStates(parse(parts[1]).value, parse(parts[2]).value)
    ensures r.Err? ==> r.error.InvalidOperation?
  {
    var parts := Split(response, ',');
    if !(|parts| == 4 && parts[0] == StateCommand && parts[3] == "OK") then
      Err(InvalidOperation("Unexpected response format: " + response))
    else
      match (parse(parts[1]), parse(parts[2]))
      case (Some(high), Some(low)) => Ok(MaskStates(high, low))
      case _ => Err(InvalidOperation("Invalid state values in response: " + response))
  }

  /** The answer the board gives for a high and a low state byte. */
  function StateReply(stateHigh: int, stateLow: int): string
  {
    StateCommand + "," + IntToString(stateHigh) + "," + IntToString(stateLow) + ",OK"
  }

  /** Every well-formed answer is decoded to the relay map of its two values. */
  lemma StateReplyRoundTrip(stateHigh: int, stateLow: int)
    requires Int32Min <= stateHigh <= Int32Max && Int32Min <= stateLow <= Int32Max
    ensures DecodeStateReply(StateReply(stateHigh, stateLow)) == Ok(MaskStates(stateHigh, stateLow))
  {
    var h, l := IntToString(stateHigh), IntToString(stateLow);
    IntToStringNoComma(stateHigh);
    IntToStringNoComma(stateLow);
    StateReplySplits(h, l);
    var parts := Split(StateReply(stateHigh, stateLow), ',');
    ParseIntToString(stateHigh, Int32Min, Int32Max);
    ParseIntToString(stateLow, Int32Min, Int32Max);
    DecodeWellFormed(StateReply(stateHigh, stateLow), h, l, stateHigh, stateLow, TryParseInt32);
  }

  lemma DecodeWellFormed(response: string, h: string, l: string, high: int, low: int, parse: string -> Option<int>)
    requires Split(response, ',') == [StateCommand, h, l, "OK"]
    requires parse(h) == Some(high) && parse(l) == Some(low)
    ensures DecodeStateWith(response, parse) == Ok(MaskStates(high, low))
  {
  }

  lemma StateReplySplits(h: string, l: string)
    requires ',' !in h && ',' !in l
    ensures Split(StateCommand + "," + h + "," + l + ",OK", ',') == [StateCommand, h, l, "OK"]
  {
    assert ',' !in StateCommand;
    assert ',' !in "OK";
    SplitNoSeparator("OK", ',');
    SplitAfterPiece(l, "OK", ',');
    SplitAfterPiece(h, l + [','] + "OK", ',');
    SplitAfterPiece(StateCommand, h + [','] + (l + [','] + "OK"), ',');
    assert StateCommand + "," + h + "," + l + ",OK" == StateCommand + [','] + (h + [','] + (l + [','] + "OK"));
  }

  lemma IntToStringNoComma(i: int)
    ensures ',' !in IntToString(i)
  {
    var s := IntToString(i);
    forall k | 0 <= k < |s| ensures s[k] != ',' {
      assert IsDigit(s[k]) || s[k] == '-';
    }
  }

  lemma RelayIdCases(i: int)
    requires IsRelayId(i)
    ensures i == 1 || i == 2 || i == 3 || i == 4 || i == 5 || i == 6 || i == 7 || i == 8 ||
            i == 9 || i == 10 || i == 11 || i == 12 || i == 13 || i == 14 || i == 15 || i == 16
  {
  }

  /** The low value's bits are relays 1..8, the high value's relays 9..16. */
  lemma StateMaskLowExample()
    ensures MaskStates(0, 16) == OnlyOn(5)
  {
    forall i | IsRelayId(i) ensures RelayBit(0, 16, i) == (i == 5) {
      RelayIdCases(i);
    }
  }

  lemma StateMaskHighExample()
    ensures MaskStates(1, 0) == OnlyOn(9)
  {
    assert RelayBit(1, 0, 1) == false;
    assert RelayBit(1, 0, 2) == false;
    assert RelayBit(1, 0, 3) == false;
    assert RelayBit(1, 0, 4) == false;
    assert RelayBit(1, 0, 5) == false;
    assert RelayBit(1, 0, 6) == false;
    assert RelayBit(1, 0, 7) == false;
    assert RelayBit(1, 0, 8) == false;
    assert RelayBit(1, 0, 9) == true;
    assert RelayBit(1, 0, 10) == false;
    assert RelayBit(1, 0, 11) == false;
    assert RelayBit(1, 0, 12) == false;
    assert RelayBit(1, 0, 13) == false;
    assert RelayBit(1, 0, 14) == false;
    assert RelayBit(1, 0, 15) == false;
    assert RelayBit(1, 0, 16) == false;
    forall i | IsRelayId(i) ensures RelayBit(1, 0, i) == (i == 9) {
      RelayIdCases(i);
    }
  }

  /** 255 and 239 report every relay on except relay 5. */
  lemma StateMaskAllButOneExample()
    ensures forall i :: IsRelayId(i) ==> (RelayOn(MaskStates(255, 239), i) <==> i != 5)
  {
    assert RelayBit(255, 239, 1) == true;
    assert RelayBit(255, 239, 2) == true;
    assert RelayBit(255, 239, 3) == true;
    assert RelayBit(255, 239, 4) == true;
    assert RelayBit(255, 239, 5) == false;
    assert RelayBit(255, 239, 6) == true;
    assert RelayBit(255, 239, 7) == true;
    assert RelayBit(255, 239, 8) == true;
    assert RelayBit(255, 239, 9) == true;
    assert RelayBit(255, 239, 10) == true;
    assert RelayBit(255, 239, 11) == true;
    assert RelayBit(255, 239, 12) == true;
    assert RelayBit(255, 239, 13) == true;
    assert RelayBit(255, 239, 14) == true;
    assert RelayBit(255, 239, 15) == true;
    assert RelayBit(255, 239, 16) == true;
    forall i | IsRelayId(i) ensures RelayBit(255, 239, i) == (i != 5) {
      RelayIdCases(i);
    }
  }

  /** A negative low value sets all 32 bits, so it switches every relay on. */
  lemma StateMaskNegativeExample()
    ensures forall i :: IsRelayId(i) ==> RelayOn(MaskStates(0, -1), i)
  {
    forall i | IsRelayId(i) ensures RelayBit(0, -1, i) {
    }
  }

  function QueryEffect(w: World): Step<map<int, bool>>
  {
    var w1 := Sent(w, StateCommand);
    match ResponseOf(ReplyAt(w.replies, 0))
    case Err(e) => Step(Err(e), w1)
    case Ok(response) =>
      match DecodeStateReply(response)
      case Err(e) => Step(Err(e), w1)
      case Ok(states) => Step(Ok(states), w1.(relayStates := states))
  }

  /** One state query: on success the relay map is replaced by the board's report of relays 1..16;
      on failure nothing but the link changes. */
  lemma QueryOutcome(w: World)
    ensures var q := QueryEffect(w);
      q.world.sent == w.sent + [StateCommand] && q.world.replies == Transport.Drop(w.replies, 1) &&
      LinkOnly(w, q.world.(relayStates := w.relayStates)) && q.world.delays == w.delays &&
      (q.result.Ok? ==> q.world.relayStates == q.result.value && q.result.value.Keys == RelayIds()) &&
      (q.result.Err? ==> q.world.relayStates == w.relayStates)
  {
    var r := ResponseOf(ReplyAt(w.replies, 0));
    if r.Ok? {
      var d := DecodeStateReply(r.value);
      assert d.Ok? ==> d.value.Keys == RelayIds();
    }
  }

  // ----- TurnOffAllRelaysExceptAsync -----

  /** The foreach over the freshly read states (keys 1..16 in insertion order), from key i on:
      each relay other than t that is on is switched off; the first failure propagates. */
  function SwitchOffOthers(w: World, t: int, i: int): Step<()>
    requires 1 <= i <= RelayCount + 1
    decreases RelayCount + 1 - i
  {
    if i == RelayCount + 1 then Step(Ok(()), w)
    else if i != t && RelayOn(w.relayStates, i) then
      var st := SetRelayEffect(w, i, false);
      if st.result.Err? then st else SwitchOffOthers(st.world, t, i + 1)
    else SwitchOffOthers(w, t, i + 1)
  }

  /** The loop never touches the bands' records. */
  lemma {:induction false} SwitchOffOthersKeepsBands(w: World, t: int, i: int)
    requires 1 <= i <= RelayCount + 1
    ensures var st := SwitchOffOthers(w, t, i);
      st.world.bandCache == w.bandCache && st.world.lastSelected == w.lastSelected
    decreases RelayCount + 1 - i
  {
    if i <= RelayCount {
      if i != t && RelayOn(w.relayStates, i) {
        var st := SetRelayEffect(w, i, false);
        SetRelayOutcome(w, i, false);
        if st.result.Ok? {
          SwitchOffOthersKeepsBands(st.world, t, i + 1);
        }
      } else {
        SwitchOffOthersKeepsBands(w, t, i + 1);
      }
    }
  }

  /** When the loop completes, the relays from i on other than t are off and every other relay
      kept its state. */
  lemma {:induction false} SwitchOffOthersOutcome(w: World, t: int, i: int)
    requires 1 <= i <= RelayCount + 1
    requires w.relayStates.Keys == RelayIds()
    ensures var st := SwitchOffOthers(w, t, i);
      st.result.Ok? ==>
        st.world.relayStates.Keys == RelayIds() &&
        forall j :: 1 <= j <= RelayCount ==>
          st.world.relayStates[j] == (if i <= j && j != t then false else w.relayStates[j])
    decreases RelayCount + 1 - i
  {
    if i <= RelayCount {
      if i != t && RelayOn(w.relayStates, i) {
        var st := SetRelayEffect(w, i, false);
        SetRelayOutcome(w, i, false);
        if st.result.Ok? {
          var m := w.relayStates[i := false];
          assert st.world.relayStates == m;
          assert m.Keys == RelayIds();
          SwitchOffOthersOutcome(st.world, t, i + 1);
        }
      } else {
        SwitchOffOthersOutcome(w, t, i + 1);
      }
    }
  }

  /** After the loop: the kept relay is looked up (KeyNotFoundException when it was not read),
      switched on if it is off, and selected. */
  function KeepOnEffect(w: World, relayToKeepOn: int): Step<()>
  {
    if relayToKeepOn !in w.relayStates then Step(Err(KeyNotFound), w)
    else if w.relayStates[relayToKeepOn] then Step(Ok(()), w.(selected := relayToKeepOn))
    else
      var on := SetRelayEffect(w, relayToKeepOn, true);
      if on.result.Err? then on else Step(Ok(()), on.world.(selected := relayToKeepOn))
  }

  function TurnOffExceptEffect(w: World, relayToKeepOn: int): Step<()>
  {
    var q := QueryEffect(w);
    if q.result.Err? then Step(Err(q.result.error), q.world)
    else
      var off := SwitchOffOthers(q.world, relayToKeepOn, 1);
      if off.result.Err? then off else KeepOnEffect(off.world, relayToKeepOn)
  }

  lemma KeepOnOutcome(w: World, t: int)
    requires w.relayStates.Keys == RelayIds()
    requires forall j :: IsRelayId(j) && j != t ==> !w.relayStates[j]
    ensures var st := KeepOnEffect(w, t);
      st.world.bandCache == w.bandCache && st.world.lastSelected == w.lastSelected &&
      (st.result.Ok? ==> IsRelayId(t) && st.world.relayStates == OnlyOn(t) && st.world.selected == t) &&
      (!IsRelayId(t) ==> st.result == Err(KeyNotFound))
  {
    if IsRelayId(t) {
      if w.relayStates[t] {
        assert w.relayStates == OnlyOn(t);
      } else {
        SetRelayOutcome(w, t, true);
        assert w.relayStates[t := true] == OnlyOn(t);
      }
    }
  }

  /** Success leaves exactly the chosen relay on, selected, and the bands' records as they were;
      it is only possible for a relay 1..16 and after the board reported its state. */
  lemma TurnOffExceptOutcome(w: World, t: int)
    ensures var st := TurnOffExceptEffect(w, t);
      st.world.bandCache == w.bandCache && st.world.lastSelected == w.lastSelected &&
      (st.result.Ok? ==> IsRelayId(t) && st.world.relayStates == OnlyOn(t) && st.world.selected == t) &&
      (st.result.Ok? ==> QueryEffect(w).result.Ok?)
  {
    var q := QueryEffect(w);
    QueryOutcome(w);
    if q.result.Ok? {
      var off := SwitchOffOthers(q.world, t, 1);
      SwitchOffOthersKeepsBands(q.world, t, 1);
      SwitchOffOthersOutcome(q.world, t, 1);
      if off.result.Ok? {
        KeepOnOutcome(off.world, t);
      }
    }
  }

  // ----- ExecuteRelayChangeAsync and SetRelayForAntennaAsync -----

  /** Exceptions are caught; the band's record is updated only when the relay ended up on. */
  function ExecuteRelayChangeEffect(w: World, relayId: int, bandNumber: int): World
  {
    var st := TurnOffExceptEffect(w, relayId);
    if st.result.Ok? && RelayOn(st.world.relayStates, relayId) then
      st.world.(lastSelected := st.world.lastSelected[bandNumber := relayId])
    else st.world
  }

  /** `shouldDelay` stands for the cooldown check against the time of the last change. */
  function SetForAntennaEffect(w: World, relayId: int, bandNumber: int, shouldDelay: bool): World
  {
    if w.selected == relayId && RelayOn(w.relayStates, relayId) then w
    else ExecuteRelayChangeEffect(if shouldDelay then Waited(w, CooldownPeriodMs) else w, relayId, bandNumber)
  }

  /** After a successful change exactly the relay is on, selected, and recorded for the band,
      so the band's selection is reported correct; after a failed one no band record changes. */
  lemma SetForAntennaOutcome(w: World, relayId: int, bandNumber: int, shouldDelay: bool)
    ensures var w' := SetForAntennaEffect(w, relayId, bandNumber, shouldDelay);
      w'.bandCache == w.bandCache &&
      (w.selected == relayId && RelayOn(w.relayStates, relayId) ==> w' == w) &&
      (w'.lastSelected == w.lastSelected || w'.lastSelected == w.lastSelected[bandNumber := relayId]) &&
      (w'.lastSelected != w.lastSelected ==>
        IsRelayId(relayId) && w'.relayStates == OnlyOn(relayId) && w'.selected == relayId &&
        IsCorrectSelection(w'.lastSelected, w'.selected, bandNumber))
  {
    if !(w.selected == relayId && RelayOn(w.relayStates, relayId)) {
      var w1 := if shouldDelay then Waited(w, CooldownPeriodMs) else w;
      TurnOffExceptOutcome(w1, relayId);
      var st := TurnOffExceptEffect(w1, relayId);
      if st.result.Ok? {
        assert RelayOn(OnlyOn(relayId), relayId);
      }
    }
  }

  /** When the board acknowledges, the selection is recorded for the band, and a repeated
      request for the relay sends nothing and changes nothing. */
  lemma SelectionSucceeds(w: World, relayId: int, bandNumber: int, shouldDelay: bool)
    requires !(w.selected == relayId && RelayOn(w.relayStates, relayId))
    requires TurnOffExceptEffect(if shouldDelay then Waited(w, CooldownPeriodMs) else w, relayId).result.Ok?
    ensures var w' := SetForAntennaEffect(w, relayId, bandNumber, shouldDelay);
      LastSelectedFor(w'.lastSelected, bandNumber) == relayId &&
      IsCorrectSelection(w'.lastSelected, w'.selected, bandNumber) &&
      forall b, d :: SetForAntennaEffect(w', relayId, b, d) == w'
  {
    var w1 := if shouldDelay then Waited(w, CooldownPeriodMs) else w;
    TurnOffExceptOutcome(w1, relayId);
    assert RelayOn(OnlyOn(relayId), relayId);
  }

  // ----- The class -----

  class RelayManager {
    const sender: ScriptedSender
    var relayStates: map<int, bool>
    var currentlySelectedRelay: int
    var bandToRelaysCache: map<int, seq<int>>
    var lastSelectedRelayForBand: map<int, int>
    ghost var delays: seq<int>

    ghost function Model(): World
      reads this, sender
    {
      World(relayStates, currentlySelectedRelay, bandToRelaysCache, lastSelectedRelayForBand,
            sender.replies, sender.log, delays)
    }

    constructor (sender: ScriptedSender)
      ensures this.sender == sender
      ensures Model() == World(map[], 0, map[], map[], sender.replies, sender.log, [])
      ensures forall i :: !GetRelayState(i)
      ensures forall b :: GetLastSelectedRelayForBand(b) == 0 && !IsCorrectRelaySet(b)
    {
      this.sender := sender;
      relayStates := map[];
      currentlySelectedRelay := 0;
      bandToRelaysCache := map[];
      lastSelectedRelayForBand := map[];
      delays := [];
    }

    /** A relay the manager has not recorded is reported off. */
    function GetRelayState(relayId: int): (on: bool)
      reads this
      ensures relayId !in relayStates ==> !on
      ensures relayId in relayStates ==> (on <==> relayStates[relayId])
    {
      RelayOn(relayStates, relayId)
    }

    /** A band without a record reports relay 0. */
    function GetLastSelectedRelayForBand(bandNumber: int): (relayId: int)
      reads this
      ensures bandNumber !in lastSelectedRelayForBand ==> relayId == 0
      ensures bandNumber in lastSelectedRelayForBand ==> relayId == lastSelectedRelayForBand[bandNumber]
    {
      LastSelectedFor(lastSelectedRelayForBand, bandNumber)
    }

    /** The band's recorded relay is a real one and the one selected now. */
    predicate IsCorrectRelaySet(bandNumber: int)
      reads this
      ensures IsCorrectRelaySet(bandNumber) ==>
        currentlySelectedRelay != 0 && currentlySelectedRelay == GetLastSelectedRelayForBand(bandNumber)
      ensures (currentlySelectedRelay != 0 && bandNumber in lastSelectedRelayForBand &&
               lastSelectedRelayForBand[bandNumber] == currentlySelectedRelay) ==> IsCorrectRelaySet(bandNumber)
    {
      IsCorrectSelection(lastSelectedRelayForBand, currentlySelectedRelay, bandNumber)
    }

    method SendCommandWithRetry(command: string, expectedResponsePattern: string) returns (r: Result<bool>)
      modifies this, sender
      ensures Step(r, Model()) == RetryFrom(old(Model()), command, expectedResponsePattern, 0)
    {
      var attempt: nat := 0;
      while attempt < MaxRetries
        invariant attempt <= MaxRetries
        invariant RetryFrom(Model(), command, expectedResponsePattern, attempt)
               == RetryFrom(old(Model()), command, expectedResponsePattern, 0)
      {
        ghost var before := Model();
        var success := sender.SendCommandAndValidateResponse(command, expectedResponsePattern);
        assert Model() == Sent(before, command);
        if success == Ok(true) {
          return Ok(true);
        }
        if success.Err? && attempt == MaxRetries - 1 {
          return Err(success.error);
        }
        delays := delays + [RetryDelayMs * (attempt + 1)];
        attempt := attempt + 1;
      }
      return Ok(false);
    }

    method SetRelay(relayId: int, state: bool) returns (r: Result<()>)
      modifies this, sender
      ensures Step(r, Model()) == SetRelayEffect(old(Model()), relayId, state)
    {
      if relayId in relayStates && relayStates[relayId] == state && currentlySelectedRelay == relayId {
        return Ok(());
      }
      var command := SetCommand(relayId, state);
      var expectedResponse := SetReply(relayId, state);
      var success := SendCommandWithRetry(command, expectedResponse);
      if success.Err? {
        return Err(success.error);
      }
      if success.value {
        currentlySelectedRelay := relayId;
        relayStates := relayStates[relayId := state];
        return Ok(());
      }
      return Err(SetFailure(relayId, state));
    }

    method TurnOffAllRelays() returns (r: Result<()>)
      modifies this, sender
      ensures Step(r, Model()) == TurnOffAllEffect(old(Model()))
    {
      var success := SendCommandWithRetry(AllOffCommand, AllOffReply);
      if success.Err? {
        return Err(success.error);
      }
      if success.value {
        relayStates := AllOff(relayStates);
        currentlySelectedRelay := 0;
        return Ok(());
      }
      return Err(InvalidOperation("Failed to turn off all relays"));
    }

    method GetCurrentRelayStates() returns (r: Result<map<int, bool>>)
      modifies this, sender
      ensures Step(r, Model()) == QueryEffect(old(Model()))
    {
      var response := sender.SendMessageAndReceiveResponse(StateCommand);
      if response.Err? {
        return Err(response.error);
      }
      var decoded := DecodeStateReply(response.value);
      if decoded.Err? {
        return Err(decoded.error);
      }
      var parts := Split(response.value, ',');
      var high := TryParseInt32(parts[1]);
      var low := TryParseInt32(parts[2]);
      var states := StatesFromMask(high.value, low.value);
      relayStates := states;
      return Ok(states);
    }

    method TurnOffAllRelaysExcept(relayToKeepOn: int) returns (r: Result<()>)
      modifies this, sender
      ensures Step(r, Model()) == TurnOffExceptEffect(old(Model()), relayToKeepOn)
    {
      ghost var start := Model();
      var currentStates := GetCurrentRelayStates();
      if currentStates.Err? {
        return Err(currentStates.error);
      }
      ghost var read := Model();
      assert read == QueryEffect(start).world;
      var off := SwitchOffOthersLoop(relayToKeepOn);
      if off.Err? {
        return off;
      }
      r := KeepOn(relayToKeepOn);
    }

    /** The foreach of TurnOffAllRelaysExceptAsync, over the keys 1..16 in insertion order. */
    method SwitchOffOthersLoop(relayToKeepOn: int) returns (r: Result<()>)
      modifies this, sender
      ensures Step(r, Model()) == SwitchOffOthers(old(Model()), relayToKeepOn, 1)
    {
      var key := 1;
      while key <= RelayCount
        invariant 1 <= key <= RelayCount + 1
        invariant SwitchOffOthers(Model(), relayToKeepOn, key) == SwitchOffOthers(old(Model()), relayToKeepOn, 1)
      {
        if key != relayToKeepOn && RelayOn(relayStates, key) {
          var off := SetRelay(key, false);
          if off.Err? {
            return off;
          }
        }
        key := key + 1;
      }
      return Ok(());
    }

    /** Lines after the loop of TurnOffAllRelaysExceptAsync. */
    method KeepOn(relayToKeepOn: int) returns (r: Result<()>)
      modifies this, sender
      ensures Step(r, Model()) == KeepOnEffect(old(Model()), relayToKeepOn)
    {
      if relayToKeepOn !in relayStates {
        return Err(KeyNotFound);
      }
      if !relayStates[relayToKeepOn] {
        var on := SetRelay(relayToKeepOn, true);
        if on.Err? {
          return on;
        }
      }
      currentlySelectedRelay := relayToKeepOn;
      return Ok(());
    }

    method ExecuteRelayChange(relayId: int, bandNumber: int)
      modifies this, sender
      ensures Model() == ExecuteRelayChangeEffect(old(Model()), relayId, bandNumber)
    {
      var outcome := TurnOffAllRelaysExcept(relayId);
      if outcome.Ok? && relayId in relayStates && relayStates[relayId] {
        lastSelectedRelayForBand := lastSelectedRelayForBand[bandNumber := relayId];
      }
    }

    /** `shouldDelay` is the outcome of the cooldown check (ShouldDelay). */
    method SetRelayForAntenna(relayId: int, bandNumber: int, shouldDelay: bool)
      modifies this, sender
      ensures Model() == SetForAntennaEffect(old(Model()), relayId, bandNumber, shouldDelay)
    {
      if currentlySelectedRelay == relayId && relayId in relayStates && relayStates[relayId] {
        return;
      }
      if shouldDelay {
        delays := delays + [CooldownPeriodMs];
      }
      ExecuteRelayChange(relayId, bandNumber);
    }

    method GetRelaysForBand(bandNumber: int, antennaConfigs: seq<AntennaConfig>) returns (r: Result<seq<int>>)
      modifies this
      ensures Step(r, Model()) == RelaysForBandEffect(old(Model()), bandNumber, antennaConfigs)
    {
      if bandNumber in bandToRelaysCache {
        return Ok(bandToRelaysCache[bandNumber]);
      }
      var relayIds := PortsForBand(antennaConfigs, bandNumber);
      if relayIds.Ok? {
        bandToRelaysCache := bandToRelaysCache[bandNumber := relayIds.value];
      }
      return relayIds;
    }
  }

  /** The loop that fills the relay map, bit i - 1 of the combined state for relay i. */
  method StatesFromMask(stateHigh: int, stateLow: int) returns (states: map<int, bool>)
    ensures states == MaskStates(stateHigh, stateLow)
    ensures forall i :: IsRelayId(i) ==> (RelayOn(states, i) <==> RelayBit(stateHigh, stateLow, i))
  {
    states := map[];
    var i := 1;
    while i <= RelayCount
      invariant 1 <= i <= RelayCount + 1
      invariant forall j :: j in states <==> 1 <= j < i
      invariant forall j :: 1 <= j < i ==> states[j] == RelayBit(stateHigh, stateLow, j)
    {
      states := states[i := RelayBit(stateHigh, stateLow, i)];
      i := i + 1;
    }
  }
}
