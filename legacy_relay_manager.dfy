/**
  RelayManager.cs: the superseded relay manager. It starts with relays 1..16
  known and off, does not look at the board's replies (only a raised exception
  counts as a failure), switches everything off with RELAY-SET_ALL-255,0,0 and
  can toggle a relay.
*/
module LegacyRelays {
  import opened Base
  import opened Text
  import opened Records
  import opened SenderOracle
  import opened RelayProtocol
  import Transport

  const MaxRetries: nat := 2
  const RetryDelayMs: int := 50
  const TurnOffAllCommand: string := "RELAY-SET_ALL-255,0,0"

  /** `RELAY-KEY-255,<id>,1`: flip one relay. */
  function ToggleCommand(relayId: int): string
  {
    "RELAY-KEY-255," + IntToString(relayId) + ",1"
  }

  /** Attempts `attempt`.. of SendCommandWithRetry: any reply is success; an exception is
      retried after 50 * (attempt + 1) ms, and rethrown on the last attempt. */
  function RetryFrom(w: World, command: string, attempt: nat): Step<()>
    requires attempt <= MaxRetries
    decreases MaxRetries - attempt
  {
    if attempt == MaxRetries then Step(Ok(()), w)
    else
      var r := ReplyAt(w.replies, 0);
      var w1 := Sent(w, command);
      if r.Answer? then Step(Ok(()), w1)
      else if attempt == MaxRetries - 1 then Step(Err(r.error), w1)
      else RetryFrom(Waited(w1, RetryDelayMs * (attempt + 1)), command, attempt + 1)
  }

  /** The complete behaviour of the retry in terms of the first two replies. */
  lemma RetryOutcome(w: World, command: string)
    ensures var st := RetryFrom(w, command, 0);
      var r0, r1 := ReplyAt(w.replies, 0), ReplyAt(w.replies, 1);
      LinkOnly(w, st.world) &&
      (st.result.Ok? <==> r0.Answer? || r1.Answer?) &&
      (st.result.Err? ==> r0.Raise? && st.result.error == r1.error) &&
      (r0.Answer? ==> st.world == Sent(w, command)) &&
      (r0.Raise? ==>
        st.world.sent == w.sent + [command, command] &&
        st.world.replies == Transport.Drop(w.replies, 2) &&
        st.world.delays == w.delays + [50])
  {
    var r0 := ReplyAt(w.replies, 0);
    if r0.Raise? {
      var w1 := Waited(Sent(w, command), 50);
      ReplyAtDrop(w.replies, 0);
      ReplyAtDrop(w.replies, 1);
      assert ReplyAt(w1.replies, 0) == ReplyAt(w.replies, 1);
      assert Transport.Drop(w1.replies, 1) == Transport.Drop(w.replies, 2);
      assert RetryFrom(w1, command, 1).world.sent == w.sent + [command] + [command];
    }
  }

  function TurnOffAllEffect(w: World): Step<()>
  {
    var st := RetryFrom(w, TurnOffAllCommand, 0);
    if st.result.Err? then st
    else Step(Ok(()), st.world.(relayStates := AllOff(st.world.relayStates), selected := 0))
  }

  /** Unless the command raised twice, every known relay is off and none is selected. */
  lemma TurnOffAllOutcome(w: World)
    ensures var st := TurnOffAllEffect(w);
      st.world.relayStates.Keys == w.relayStates.Keys &&
      st.world.lastSelected == w.lastSelected && st.world.bandCache == w.bandCache &&
      st.world.sent[|w.sent|] == TurnOffAllCommand &&
      (st.result.Ok? <==> ReplyAt(w.replies, 0).Answer? || ReplyAt(w.replies, 1).Answer?) &&
      (st.result.Ok? ==> st.world.selected == 0 && forall i :: !RelayOn(st.world.relayStates, i)) &&
      (st.result.Err? ==> st.world.relayStates == w.relayStates && st.world.selected == w.selected)
  {
    RetryOutcome(w, TurnOffAllCommand);
  }

  /** Nothing is sent when the relay already has the state and is the selected one. */
  predicate AlreadySet(w: World, relayId: int, state: bool)
  {
    relayId in w.relayStates && w.relayStates[relayId] == state && w.selected == relayId
  }

  function SetRelayEffect(w: World, relayId: int, state: bool): Step<()>
  {
    if AlreadySet(w, relayId, state) then Step(Ok(()), w)
    else
      var st := RetryFrom(w, SetCommand(relayId, state), 0);
      if st.result.Err? then st
      else Step(Ok(()), st.world.(selected := relayId, relayStates := st.world.relayStates[relayId := state]))
  }

  lemma SetRelayOutcome(w: World, relayId: int, state: bool)
    ensures var st := SetRelayEffect(w, relayId, state);
      st.world.lastSelected == w.lastSelected && st.world.bandCache == w.bandCache &&
      (AlreadySet(w, relayId, state) ==> st == Step(Ok(()), w)) &&
      (!AlreadySet(w, relayId, state) ==> st.world.sent[|w.sent|] == SetCommand(relayId, state)) &&
      (st.result.Ok? ==> st.world.relayStates == w.relayStates[relayId := state] && st.world.selected == relayId) &&
      (st.result.Err? ==> st.world.relayStates == w.relayStates && st.world.selected == w.selected)
  {
    RetryOutcome(w, SetCommand(relayId, state));
    if AlreadySet(w, relayId, state) {
      assert w.relayStates[relayId := state] == w.relayStates;
    }
  }

  /** The command is sent first; the cached state is then flipped (KeyNotFoundException for an unknown relay). */
  function ToggleEffect(w: World, relayId: int): Step<()>
  {
    var st := RetryFrom(w, ToggleCommand(relayId), 0);
    if st.result.Err? then st
    else if relayId !in st.world.relayStates then Step(Err(KeyNotFound), st.world)
    else Step(Ok(()), st.world.(relayStates := st.world.relayStates[relayId := !st.world.relayStates[relayId]],
                                selected := relayId))
  }

  lemma ToggleOutcome(w: World, relayId: int)
    ensures var st := ToggleEffect(w, relayId);
      st.world.sent[|w.sent|] == ToggleCommand(relayId) &&
      st.world.relayStates.Keys == w.relayStates.Keys &&
      (relayId !in w.relayStates ==> st.result.Err? && st.world.relayStates == w.relayStates) &&
      (st.result.Ok? ==> st.world.relayStates == w.relayStates[relayId := !w.relayStates[relayId]] && st.world.selected == relayId)
  {
    RetryOutcome(w, ToggleCommand(relayId));
  }

  /** Toggling twice restores every relay. */
  lemma ToggleTwice(w: World, relayId: int)
    requires ToggleEffect(w, relayId).result.Ok?
    requires ToggleEffect(ToggleEffect(w, relayId).world, relayId).result.Ok?
    ensures ToggleEffect(ToggleEffect(w, relayId).world, relayId).world.relayStates == w.relayStates
  {
    var st := ToggleEffect(w, relayId);
    ToggleOutcome(w, relayId);
    ToggleOutcome(st.world, relayId);
    assert w.relayStates[relayId := !w.relayStates[relayId]][relayId := w.relayStates[relayId]] == w.relayStates;
  }

  /** Nothing happens when the relay is already the selected one; otherwise all relays are switched off,
      the relay on, and then the band's record set. Exceptions propagate. */
  function SetForAntennaEffect(w: World, relayId: int, bandNumber: int): Step<()>
  {
    if w.selected == relayId then Step(Ok(()), w)
    else
      var off := TurnOffAllEffect(w);
      if off.result.Err? then off
      else
        var on := SetRelayEffect(off.world, relayId, true);
        if on.result.Err? then on
        else Step(Ok(()), on.world.(lastSelected := on.world.lastSelected[bandNumber := relayId]))
  }

  /** Success leaves only that relay on among the known ones, selected and recorded for the band
      (only relay 1..16 on, for a manager that knows exactly those); a failure records nothing. */
  lemma SetForAntennaOutcome(w: World, relayId: int, bandNumber: int)
    ensures var st := SetForAntennaEffect(w, relayId, bandNumber);
      st.world.bandCache == w.bandCache &&
      (w.selected == relayId ==> st == Step(Ok(()), w)) &&
      (st.result.Err? ==> st.world.lastSelected == w.lastSelected) &&
      (st.result.Ok? && w.selected != relayId ==>
        st.world.selected == relayId && LastSelectedFor(st.world.lastSelected, bandNumber) == relayId &&
        st.world.relayStates == AllOff(w.relayStates)[relayId := true] &&
        (IsRelayId(relayId) && w.relayStates.Keys == RelayIds() ==> st.world.relayStates == OnlyOn(relayId)))
  {
    if w.selected != relayId {
      var off := TurnOffAllEffect(w);
      TurnOffAllOutcome(w);
      if off.result.Ok? {
        var on := SetRelayEffect(off.world, relayId, true);
        SetRelayOutcome(off.world, relayId, true);
        assert off.world.relayStates == AllOff(w.relayStates);
        if IsRelayId(relayId) && w.relayStates.Keys == RelayIds() {
          assert AllOff(w.relayStates)[relayId := true] == OnlyOn(relayId);
        }
      }
    }
  }

  /** The relays 1..16 stay known through every operation. */
  lemma RelaysStayKnown(w: World, relayId: int, state: bool, bandNumber: int)
    requires RelayIds() <= w.relayStates.Keys
    ensures RelayIds() <= TurnOffAllEffect(w).world.relayStates.Keys
    ensures RelayIds() <= SetRelayEffect(w, relayId, state).world.relayStates.Keys
    ensures RelayIds() <= ToggleEffect(w, relayId).world.relayStates.Keys
    ensures RelayIds() <= SetForAntennaEffect(w, relayId, bandNumber).world.relayStates.Keys
  {
    TurnOffAllOutcome(w);
    SetRelayOutcome(w, relayId, state);
    ToggleOutcome(w, relayId);
    var off := TurnOffAllEffect(w);
    SetRelayOutcome(off.world, relayId, true);
  }

  class RelayManager {
    const sender: ScriptedSender
    var relayStates: map<int, bool>
    var currentlySelectedRelay: int
    var bandToRelaysCache: map<int, seq<int>>
    var lastSelectedRelayForBand: map<int, int>
    ghost var delays: seq<int>

    ghost function Model(): World
      reads this, sender
    {
      World(relayStates, currentlySelectedRelay, bandToRelaysCache, lastSelectedRelayForBand,
            sender.replies, sender.log, delays)
    }

    /** Relays 1..16 are known. */
    ghost predicate Valid()
      reads this
    {
      RelayIds() <= relayStates.Keys
    }

    constructor (sender: ScriptedSender)
      ensures this.sender == sender && Valid()
      ensures Model() == World(AllRelaysOff(), 0, map[], map[], sender.replies, sender.log, [])
      ensures forall i :: !GetRelayState(i)
      ensures forall b :: GetLastSelectedRelayForBand(b) == 0
    {
      var states := map[];
      for i := 1 to RelayCount + 1
        invariant forall j :: j in states <==> 1 <= j < i
        invariant forall j :: j in states ==> !states[j]
      {
        states := states[i := false];
      }
      assert states == AllRelaysOff();
      this.sender := sender;
      relayStates := states;
      currentlySelectedRelay := 0;
      bandToRelaysCache := map[];
      lastSelectedRelayForBand := map[];
      delays := [];
    }

    /** A relay the manager has not recorded is reported off. */
    function GetRelayState(relayId: int): (on: bool)
      reads this
      ensures relayId !in relayStates ==> !on
      ensures relayId in relayStates ==> (on <==> relayStates[relayId])
    {
      RelayOn(relayStates, relayId)
    }

    /** A band without a record reports relay 0. */
    function GetLastSelectedRelayForBand(bandNumber: int): (relayId: int)
      reads this
      ensures bandNumber !in lastSelectedRelayForBand ==> relayId == 0
      ensures bandNumber in lastSelectedRelayForBand ==> relayId == lastSelectedRelayForBand[bandNumber]
    {
      LastSelectedFor(lastSelectedRelayForBand, bandNumber)
    }

    method SendCommandWithRetry(command: string) returns (r: Result<()>)
      modifies this, sender
      ensures Step(r, Model()) == RetryFrom(old(Model()), command, 0)
    {
      var attempt: nat := 0;
      while attempt < MaxRetries
        invariant attempt <= MaxRetries
        invariant RetryFrom(Model(), command, attempt) == RetryFrom(old(Model()), command, 0)
      {
        ghost var before := Model();
        var response := sender.SendMessageAndReceiveResponse(command);
        assert Model() == Sent(before, command);
        if response.Ok? {
          return Ok(());
        }
        if attempt == MaxRetries - 1 {
          return Err(response.error);
        }
        delays := delays + [RetryDelayMs * (attempt + 1)];
        attempt := attempt + 1;
      }
      return Ok(());
    }

    method TurnOffAllRelays() returns (r: Result<()>)
      requires Valid()
      modifies this, sender
      ensures Valid() && Step(r, Model()) == TurnOffAllEffect(old(Model()))
    {
      r := SendCommandWithRetry(TurnOffAllCommand);
      if r.Err? {
        return;
      }
      relayStates := AllOff(relayStates);
      currentlySelectedRelay := 0;
    }

    method SetRelay(relayId: int, state: bool) returns (r: Result<()>)
      requires Valid()
      modifies this, sender
      ensures Valid() && Step(r, Model()) == SetRelayEffect(old(Model()), relayId, state)
    {
      if relayId in relayStates && relayStates[relayId] == state && currentlySelectedRelay == relayId {
        return Ok(());
      }
      r := SendCommandWithRetry(SetCommand(relayId, state));
      if r.Err? {
        return;
      }
      currentlySelectedRelay := relayId;
      relayStates := relayStates[relayId := state];
    }

    method ToggleRelay(relayId: int) returns (r: Result<()>)
      requires Valid()
      modifies this, sender
      ensures Valid() && Step(r, Model()) == ToggleEffect(old(Model()), relayId)
    {
      r := SendCommandWithRetry(ToggleCommand(relayId));
      if r.Err? {
        return;
      }
      if relayId !in relayStates {
        return Err(KeyNotFound);
      }
      relayStates := relayStates[relayId := !relayStates[relayId]];
      currentlySelectedRelay := relayId;
    }

    method SetRelayForAntenna(relayId: int, bandNumber: int) returns (r: Result<()>)
      requires Valid()
      modifies this, sender
      ensures Valid() && Step(r, Model()) == SetForAntennaEffect(old(Model()), relayId, bandNumber)
    {
      if currentlySelectedRelay == relayId {
        return Ok(());
      }
      r := TurnOffAllRelays();
      if r.Err? {
        return;
      }
      r := SetRelay(relayId, true);
      if r.Err? {
        return;
      }
      lastSelectedRelayForBand := lastSelectedRelayForBand[bandNumber := relayId];
    }

    method GetRelaysForBand(bandNumber: int, antennaConfigs: seq<AntennaConfig>) returns (r: Result<seq<int>>)
      modifies this
      ensures Step(r, Model()) == RelaysForBandEffect(old(Model()), bandNumber, antennaConfigs)
    {
      if bandNumber in bandToRelaysCache {
        return Ok(bandToRelaysCache[bandNumber]);
      }
      var relayIds := PortsForBand(antennaConfigs, bandNumber);
      if relayIds.Ok? {
        bandToRelaysCache := bandToRelaysCache[bandNumber := relayIds.value];
      }
      return relayIds;
    }
  }
}
