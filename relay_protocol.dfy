/**
  What both relay-manager revisions share: the KC868 relay-board text
  commands, the relay state they keep, and the world they act on (their state
  plus the scripted sender and the delays they wait).
*/
module RelayProtocol {
  import opened Base
  import opened Text
  import opened SenderOracle
  import opened Records
  import Transport

  const RelayCount: int := 16

  /** The board's relays are numbered 1..16. */
  predicate IsRelayId(i: int) { 1 <= i <= RelayCount }

  /** The ids the relay state dictionary is initialised with. */
  function RelayIds(): set<int> { set i | 1 <= i <= RelayCount && IsRelayId(i) }

  /** `RELAY-SET-255,<id>,<1|0>`: switch one relay. */
  function SetCommand(relayId: int, state: bool): string
  {
    "RELAY-SET-255," + IntToString(relayId) + "," + (if state then "1" else "0")
  }

  /** The acknowledgement the board sends for a set command. */
  function SetReply(relayId: int, state: bool): string
  {
    SetCommand(relayId, state) + ",OK"
  }

  /** The acknowledgement repeats the command, so its own answer always validates. */
  lemma SetReplyValidates(relayId: int, state: bool)
    ensures Transport.Matches(SetReply(relayId, state), SetReply(relayId, state))
    ensures Transport.Matches(SetReply(relayId, state), SetCommand(relayId, state))
  {
    ContainsItself(SetReply(relayId, state), "");
    ContainsItself(SetCommand(relayId, state), ",OK");
    assert SetReply(relayId, state) + "" == SetReply(relayId, state);
  }

  /** Set commands for different relays or states are different texts. */
  lemma SetCommandInjective(id1: int, s1: bool, id2: int, s2: bool)
    requires SetCommand(id1, s1) == SetCommand(id2, s2)
    ensures id1 == id2 && s1 == s2
  {
    var c1, c2 := SetCommand(id1, s1), SetCommand(id2, s2);
    var p := "RELAY-SET-255,";
    var t1, t2 := IntToString(id1), IntToString(id2);
    assert |c1| == |p| + |t1| + 2 && |c2| == |p| + |t2| + 2;
    assert c1[|p|..|c1| - 2] == t1 && c2[|p|..|c2| - 2] == t2;
    IntToStringInjective(id1, id2);
    assert c1[|c1| - 1] == (if s1 then '1' else '0');
  }

  /** Dictionary.GetValueOrDefault(band, 0). */
  function LastSelectedFor(lastSelected: map<int, int>, bandNumber: int): int
  {
    if bandNumber in lastSelected then lastSelected[bandNumber] else 0
  }

  /** GetRelayState: a relay absent from the map is reported off. */
  predicate RelayOn(relayStates: map<int, bool>, relayId: int)
  {
    relayId in relayStates && relayStates[relayId]
  }

  /** IsCorrectRelaySet: the band's last-selected relay is non-zero and is the selected one. */
  predicate IsCorrectSelection(lastSelected: map<int, int>, selected: int, bandNumber: int)
  {
    var last := LastSelectedFor(lastSelected, bandNumber);
    selected == last && last != 0
  }

  /** A manager that has recorded nothing reports every relay off, relay 0 for every band,
      and no band as correctly set. */
  lemma NothingRecorded(selected: int)
    ensures forall i :: !RelayOn(map[], i)
    ensures forall b :: LastSelectedFor(map[], b) == 0 && !IsCorrectSelection(map[], selected, b)
  {
  }

  /** Relays 1..16 with exactly relay t on (none when t is outside 1..16). */
  function OnlyOn(t: int): (m: map<int, bool>)
    ensures m.Keys == RelayIds()
    ensures forall i :: IsRelayId(i) ==> (RelayOn(m, i) <==> i == t)
  {
    map i | 1 <= i <= RelayCount && IsRelayId(i) :: i == t
  }

  /** Everything a relay manager's operation reads and changes. */
  datatype World = World(
    relayStates: map<int, bool>,
    selected: int,                     // CurrentlySelectedRelay
    bandCache: map<int, seq<int>>,     // band -> eligible relay ids
    lastSelected: map<int, int>,       // band -> last relay selected for it
    replies: seq<Reply>,               // the sender's scripted replies still to come
    sent: seq<string>,                 // every message handed to the sender so far
    delays: seq<int>)                  // every Task.Delay waited so far, in ms

  /** An operation's outcome: its result (or exception) and the world afterwards. */
  datatype Step<T> = Step(result: Result<T>, world: World)

  /** One call of the sender: it consumes a reply and logs the message. */
  function Sent(w: World, message: string): (w': World)
    ensures w' == w.(replies := Transport.Drop(w.replies, 1), sent := w.sent + [message])
  {
    w.(replies := Transport.Drop(w.replies, 1), sent := w.sent + [message])
  }

  function Waited(w: World, ms: int): World
  {
    w.(delays := w.delays + [ms])
  }

  /** All known relays off. */
  function AllOff(relayStates: map<int, bool>): (m: map<int, bool>)
    ensures m.Keys == relayStates.Keys && forall i :: !RelayOn(m, i)
  {
    map i | i in relayStates :: false
  }

  lemma ReplyAtDrop(replies: seq<Reply>, k: nat)
    ensures ReplyAt(Transport.Drop(replies, 1), k) == ReplyAt(replies, k + 1)
  {
  }
  /** Only the sender's script, its log and the delays differ. */
  predicate LinkOnly(w: World, w': World)
  {
    w' == w.(replies := w'.replies, sent := w'.sent, delays := w'.delays)
  }

  /** A fresh manager of the older revision: relays 1..16, all off. */
  function AllRelaysOff(): (m: map<int, bool>)
    ensures m.Keys == RelayIds() && forall i :: !RelayOn(m, i)
  {
    map i | 1 <= i <= RelayCount && IsRelayId(i) :: false
  }

  // ----- GetRelaysForBandAsync, the same in both revisions -----

  /** The cached list when there is one; otherwise the configured ports, cached once parsed. */
  function RelaysForBandEffect(w: World, bandNumber: int, configs: seq<AntennaConfig>): Step<seq<int>>
  {
    if bandNumber in w.bandCache then Step(Ok(w.bandCache[bandNumber]), w)
    else
      match PortsForBand(configs, bandNumber)
      case Err(e) => Step(Err(e), w)
      case Ok(ids) => Step(Ok(ids), w.(bandCache := w.bandCache[bandNumber := ids]))
  }

  /**
    A miss returns one port per configuration that selects the band, in list
    order, and caches that list; it fails, caching nothing, exactly when some
    selecting configuration's port is not a 32-bit integer.
  */
  lemma RelaysForBandOutcome(w: World, bandNumber: int, configs: seq<AntennaConfig>)
    requires bandNumber !in w.bandCache
    ensures var st := RelaysForBandEffect(w, bandNumber, configs);
      var sel := ConfigsForBand(configs, bandNumber);
      (st.result.Ok? <==> forall k :: 0 <= k < |sel| ==> ParseInt32(sel[k].port).Ok?) &&
      (st.result.Ok? ==>
         |st.result.value| == |sel| &&
         (forall k :: 0 <= k < |sel| ==> ParseInt32(sel[k].port) == Ok(st.result.value[k])) &&
         st.world == w.(bandCache := w.bandCache[bandNumber := st.result.value])) &&
      (st.result.Err? ==> st.world == w)
  {
    PortsForBandParsesSelected(configs, bandNumber);
  }

  /** The first successful answer for a band is kept: later calls return it whatever the configurations are. */
  lemma RelaysForBandIsCached(w: World, bandNumber: int, configs: seq<AntennaConfig>, later: seq<AntennaConfig>)
    requires RelaysForBandEffect(w, bandNumber, configs).result.Ok?
    ensures var st := RelaysForBandEffect(w, bandNumber, configs);
      RelaysForBandEffect(st.world, bandNumber, later) == Step(st.result, st.world) &&
      (bandNumber !in w.bandCache ==> st.result == PortsForBand(configs, bandNumber)) &&
      LinkOnly(w, st.world.(bandCache := w.bandCache))
  {
  }
}
