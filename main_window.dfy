/**
  The decision code of MainWindow.xaml.cs: band names, the band buttons, the
  rebuilt list of port configurations, and the port chosen when the band
  changes together with whether the relay board is asked to switch.
*/
module MainWindowLogic {
  import opened Base
  import opened Text
  import opened Records
  import opened RelayProtocol
  import opened RelaySelector

  // ----- GetBandName -----

  /** The band's label; any number outside 0..10 is an ArgumentOutOfRangeException. */
  function GetBandName(bandNumber: int): (r: Result<string>)
    ensures r.Ok? <==> 0 <= bandNumber <= 10
    ensures r.Err? ==> r.error == ArgumentOutOfRange
  {
    match bandNumber
    case 0 => Ok("None")
    case 1 => Ok("160m")
    case 2 => Ok("80m")
    case 3 => Ok("40m")
    case 4 => Ok("30m")
    case 5 => Ok("20m")
    case 6 => Ok("17m")
    case 7 => Ok("15m")
    case 8 => Ok("12m")
    case 9 => Ok("10m")
    case 10 => Ok("6m")
    case _ => Err(ArgumentOutOfRange)
  }

  /** The band a label names: the reverse of the table. */
  function BandNumberOfName(name: string): Option<int>
  {
    if name == "None" then Some(0)
    else if name == "160m" then Some(1)
    else if name == "80m" then Some(2)
    else if name == "40m" then Some(3)
    else if name == "30m" then Some(4)
    else if name == "20m" then Some(5)
    else if name == "17m" then Some(6)
    else if name == "15m" then Some(7)
    else if name == "12m" then Some(8)
    else if name == "10m" then Some(9)
    else if name == "6m" then Some(10)
    else None
  }

  /** Each band has its own label, and each label names exactly one band. */
  lemma BandNameRoundTrip(bandNumber: int, name: string)
    ensures GetBandName(bandNumber) == Ok(name) <==> BandNumberOfName(name) == Some(bandNumber)
  {
  }

  // ----- The band buttons -----

  datatype Brush = Red | Green | DodgerBlue | DimGray

  datatype ButtonLook = ButtonLook(background: Brush, isEnabled: bool)

  /** `_antennaConfigs.Any(a => IsBandSelectedByConfig(a, bandNumber))`. */
  predicate IsConfigured(configs: seq<AntennaConfig>, bandNumber: int)
  {
    exists c :: c in configs && IsBandSupportedByConfig(c, bandNumber)
  }

  /** A band button: red or green for the current band (transmitting or not), blue when configured, else grey. */
  function ButtonFor(configs: seq<AntennaConfig>, bandNumber: int, selectedBandNumber: int, isTransmitting: bool): ButtonLook
  {
    var configured := IsConfigured(configs, bandNumber);
    var background :=
      if bandNumber == selectedBandNumber then (if isTransmitting then Red else Green)
      else if configured then DodgerBlue else DimGray;
    ButtonLook(background, configured)
  }

  /** A button is enabled exactly when the relay manager would offer a port for its band. */
  lemma ButtonEnabledIffPorts(configs: seq<AntennaConfig>, bandNumber: int, selectedBandNumber: int, isTransmitting: bool)
    ensures ButtonFor(configs, bandNumber, selectedBandNumber, isTransmitting).isEnabled <==>
      ConfigsForBand(configs, bandNumber) != []
    ensures PortsForBand(configs, bandNumber).Ok? ==>
      (ButtonFor(configs, bandNumber, selectedBandNumber, isTransmitting).isEnabled <==>
       PortsForBand(configs, bandNumber).value != [])
  {
    PortsForBandParsesSelected(configs, bandNumber);
    ConfigsForBandSelects(configs, bandNumber);
    var sel := ConfigsForBand(configs, bandNumber);
    if sel != [] {
      assert sel[0] in sel;
    }
  }

  // ----- The port choice in UpdateAntennaSelectionAsync -----

  /** The band's last relay when it is offered, else the first offered port, else 0. */
  function ChoosePort(available: seq<int>, lastSelected: int): (p: int)
    ensures lastSelected in available ==> p == lastSelected
    ensures lastSelected !in available && available != [] ==> p == available[0]
    ensures available == [] ==> p == 0
  {
    if lastSelected in available then lastSelected
    else if available != [] then available[0]
    else 0
  }

  /** The board is asked to switch only for a real port, on the first run or when the band's last relay is not the active one. */
  predicate ShouldSetAntenna(selectedPort: int, lastSelected: int, currentlySelected: int)
  {
    selectedPort != 0 && (currentlySelected == 0 || lastSelected != currentlySelected)
  }

  /** For a real port, a switch is due exactly when the manager does not report the band as correctly set. */
  lemma ShouldSetIffNotCorrect(selectedPort: int, lastSelected: map<int, int>, currentlySelected: int, bandNumber: int)
    ensures ShouldSetAntenna(selectedPort, LastSelectedFor(lastSelected, bandNumber), currentlySelected)
        <==> selectedPort != 0 && !IsCorrectSelection(lastSelected, currentlySelected, bandNumber)
  {
  }

  /** The manager's state after a band update, and the port the window shows. */
  datatype Selection = Selection(world: World, selectedPort: int)

  /**
    UpdateAntennaSelectionAsync with a relay manager present. An unknown band
    number or a port list that cannot be built raises inside the try block,
    which leaves the shown port as it was. Failures of the switch itself are
    absorbed by the relay manager.
  */
  function SelectionEffect(w: World, configs: seq<AntennaConfig>, bandNumber: int, shouldDelay: bool, selectedPort: int): Selection
  {
    if GetBandName(bandNumber).Err? then Selection(w, selectedPort)
    else
      var st := RelaysForBandEffect(w, bandNumber, configs);
      if st.result.Err? then Selection(st.world, selectedPort)
      else
        var last := LastSelectedFor(st.world.lastSelected, bandNumber);
        var p := ChoosePort(st.result.value, last);
        if ShouldSetAntenna(p, last, st.world.selected) then
          Selection(SetForAntennaEffect(st.world, p, bandNumber, shouldDelay), p)
        else Selection(st.world, p)
  }

  /** Without a switch, a band update only fills the band's cache entry: no command reaches the board. */
  lemma SelectionWithoutSwitch(w: World, configs: seq<AntennaConfig>, bandNumber: int, shouldDelay: bool, selectedPort: int)
    requires 0 <= bandNumber <= 10
    requires var st := RelaysForBandEffect(w, bandNumber, configs);
      st.result.Ok? &&
      !ShouldSetAntenna(ChoosePort(st.result.value, LastSelectedFor(st.world.lastSelected, bandNumber)),
                        LastSelectedFor(st.world.lastSelected, bandNumber), st.world.selected)
    ensures var s := SelectionEffect(w, configs, bandNumber, shouldDelay, selectedPort);
      s.world == w.(bandCache := s.world.bandCache)
  {
  }

  /** Once a band update has switched the board and recorded the port, repeating it changes nothing, whatever the configurations and the cooldown. */
  lemma SelectionIsStable(w: World, configs: seq<AntennaConfig>, bandNumber: int, shouldDelay: bool, selectedPort: int,
                          later: seq<AntennaConfig>, laterDelay: bool)
    requires 0 <= bandNumber <= 10 && RelaysForBandEffect(w, bandNumber, configs).result.Ok?
    requires var s := SelectionEffect(w, configs, bandNumber, shouldDelay, selectedPort);
      s.selectedPort != 0 && s.world.selected == s.selectedPort &&
      LastSelectedFor(s.world.lastSelected, bandNumber) == s.selectedPort
    ensures var s := SelectionEffect(w, configs, bandNumber, shouldDelay, selectedPort);
      SelectionEffect(s.world, later, bandNumber, laterDelay, s.selectedPort) == s
  {
    var s := SelectionEffect(w, configs, bandNumber, shouldDelay, selectedPort);
    var st := RelaysForBandEffect(w, bandNumber, configs);
    assert GetBandName(bandNumber).Ok? && st.result.Ok?;
    RelaysForBandIsCached(w, bandNumber, configs, later);
    var last := LastSelectedFor(st.world.lastSelected, bandNumber);
    var p := ChoosePort(st.result.value, last);
    assert p == s.selectedPort;
    assert p in st.result.value by {
      if last !in st.result.value { assert st.result.value != []; }
    }
    if ShouldSetAntenna(p, last, st.world.selected) {
      SetForAntennaOutcome(st.world, p, bandNumber, shouldDelay);
    }
    assert s.world.bandCache == st.world.bandCache;
    assert RelaysForBandEffect(s.world, bandNumber, later) == Step(Ok(st.result.value), s.world);
  }

  /** On the first run the board is switched to the chosen port whenever the band offers one. */
  lemma FirstRunSwitches(w: World, configs: seq<AntennaConfig>, bandNumber: int, shouldDelay: bool, selectedPort: int)
    requires w.selected == 0 && 0 <= bandNumber <= 10
    requires var st := RelaysForBandEffect(w, bandNumber, configs);
      st.result.Ok? && st.result.value != [] && 0 !in st.result.value
    ensures var st := RelaysForBandEffect(w, bandNumber, configs);
      var s := SelectionEffect(w, configs, bandNumber, shouldDelay, selectedPort);
      s.selectedPort in st.result.value &&
      s.world == SetForAntennaEffect(st.world, s.selectedPort, bandNumber, shouldDelay)
  {
    var st := RelaysForBandEffect(w, bandNumber, configs);
    assert st.world.selected == 0;
    assert st.result.value[0] in st.result.value;
  }

  // ----- UpdateAntennaConfigs -----

  /** `AntennaPortCount > 0 ? AntennaPortCount : 6`. */
  function PortCount(antennaPortCount: int): (n: nat)
    ensures n > 0
  {
    if antennaPortCount > 0 then antennaPortCount else 6
  }

  /** `FirstOrDefault(ac => ac.Port == port)`. */
  function FirstWithPort(loaded: seq<AntennaConfig>, port: string): (r: Option<AntennaConfig>)
    ensures r.Some? ==> r.value in loaded && r.value.port == port
    ensures r.None? ==> forall c :: c in loaded ==> c.port != port
    decreases |loaded|
  {
    if loaded == [] then None
    else if loaded[0].port == port then Some(loaded[0])
    else FirstWithPort(loaded[1..], port)
  }

  /** The leftmost loaded configuration with the port is the one taken. */
  lemma {:induction false} FirstWithPortIsLeftmost(loaded: seq<AntennaConfig>, port: string)
    requires FirstWithPort(loaded, port).Some?
    ensures exists k :: 0 <= k < |loaded| && loaded[k] == FirstWithPort(loaded, port).value &&
              (forall j :: 0 <= j < k ==> loaded[j].port != port)
    decreases |loaded|
  {
    if loaded[0].port != port {
      FirstWithPortIsLeftmost(loaded[1..], port);
      var k :| 0 <= k < |loaded[1..]| && loaded[1..][k] == FirstWithPort(loaded, port).value &&
        forall j :: 0 <= j < k ==> loaded[1..][j].port != port;
      assert loaded[k + 1] == loaded[1..][k];
      forall j | 0 <= j < k + 1 ensures loaded[j].port != port {
        if j > 0 { assert loaded[j] == loaded[1..][j - 1]; }
      }
    }
  }

  /** The entry for port i: the loaded configuration with that port, else a fresh one. */
  function EntryFor(loaded: seq<AntennaConfig>, i: int): (c: AntennaConfig)
    ensures c.port == IntToString(i)
  {
    match FirstWithPort(loaded, IntToString(i))
    case Some(c) => c
    case None => FreshConfig(IntToString(i))
  }

  /** The rebuilt list: ports "1".."N" in order. */
  function RebuiltConfigs(loaded: seq<AntennaConfig>, antennaPortCount: int): (r: seq<AntennaConfig>)
    ensures |r| == PortCount(antennaPortCount)
  {
    seq(PortCount(antennaPortCount), k requires 0 <= k < PortCount(antennaPortCount) => EntryFor(loaded, k + 1))
  }

  /** Entry k is port k + 1: the loaded configuration for it when there is one, else one selecting no band. */
  lemma RebuiltEntries(loaded: seq<AntennaConfig>, antennaPortCount: int, k: int)
    requires 0 <= k < PortCount(antennaPortCount)
    ensures var c := RebuiltConfigs(loaded, antennaPortCount)[k];
      c.port == IntToString(k + 1) &&
      (c in loaded || c == FreshConfig(IntToString(k + 1))) &&
      ((exists d :: d in loaded && d.port == IntToString(k + 1)) ==> c in loaded)
  {
  }

  /** The rebuilt list never makes the relay manager's port parsing fail, and offers only ports 1..N. */
  lemma RebuiltPortsParse(loaded: seq<AntennaConfig>, antennaPortCount: int, bandNumber: int)
    requires PortCount(antennaPortCount) <= Int32Max
    ensures var r := RebuiltConfigs(loaded, antennaPortCount);
      PortsForBand(r, bandNumber).Ok? &&
      forall p :: p in PortsForBand(r, bandNumber).value ==> 1 <= p <= PortCount(antennaPortCount)
  {
    var r := RebuiltConfigs(loaded, antennaPortCount);
    var n := PortCount(antennaPortCount);
    var sel := ConfigsForBand(r, bandNumber);
    ConfigsForBandSelects(r, bandNumber);
    PortsForBandParsesSelected(r, bandNumber);
    forall k | 0 <= k < |sel| ensures ParseInt32(sel[k].port).Ok? && 1 <= ParseInt32(sel[k].port).value <= n {
      assert sel[k] in sel;
      RebuiltPortParses(loaded, antennaPortCount, sel[k]);
    }
    var ps := PortsForBand(r, bandNumber).value;
    forall p | p in ps ensures 1 <= p <= n {
      var k :| 0 <= k < |ps| && ps[k] == p;
      assert ParseInt32(sel[k].port) == Ok(p);
    }
  }

  /** Every entry of the rebuilt list has a port 1..N that parses. */
  lemma RebuiltPortParses(loaded: seq<AntennaConfig>, antennaPortCount: int, c: AntennaConfig)
    requires PortCount(antennaPortCount) <= Int32Max
    requires c in RebuiltConfigs(loaded, antennaPortCount)
    ensures ParseInt32(c.port).Ok? && 1 <= ParseInt32(c.port).value <= PortCount(antennaPortCount)
  {
    var r := RebuiltConfigs(loaded, antennaPortCount);
    var j :| 0 <= j < |r| && r[j] == c;
    assert c.port == IntToString(j + 1);
    ParseIntToString(j + 1, Int32Min, Int32Max);
  }

  // ----- The window -----

  /** MainWindow: the port configurations, the configured port count and the port shown for the band. */
  class MainWindow {
    const relayManager: RelayManager
    var antennaConfigs: seq<AntennaConfig>
    var antennaPortCount: int
    var selectedPort: int

    /** The window starts with one configuration per port, none selecting a band. */
    constructor (relayManager: RelayManager, antennaPortCount: int)
      ensures this.relayManager == relayManager && this.antennaPortCount == antennaPortCount
      ensures antennaConfigs == RebuiltConfigs([], antennaPortCount) && selectedPort == 0
    {
      var configs := [];
      var portCount := if antennaPortCount > 0 then antennaPortCount else 6;
      for i := 1 to portCount + 1
        invariant |configs| == i - 1
        invariant forall k :: 0 <= k < i - 1 ==> configs[k] == FreshConfig(IntToString(k + 1))
      {
        configs := configs + [FreshConfig(IntToString(i))];
      }
      this.relayManager := relayManager;
      this.antennaPortCount := antennaPortCount;
      antennaConfigs := configs;
      selectedPort := 0;
      assert configs == RebuiltConfigs([], antennaPortCount);
    }

    /** A missing list changes nothing; otherwise the list is rebuilt as ports 1..N. */
    method UpdateAntennaConfigs(loadedConfigs: Option<seq<AntennaConfig>>)
      modifies this
      ensures loadedConfigs.None? ==> antennaConfigs == old(antennaConfigs)
      ensures loadedConfigs.Some? ==> antennaConfigs == RebuiltConfigs(loadedConfigs.value, antennaPortCount)
      ensures antennaPortCount == old(antennaPortCount) && selectedPort == old(selectedPort)
    {
      if loadedConfigs.None? {
        return;
      }
      var loaded := loadedConfigs.value;
      antennaConfigs := [];
      var portCount := if antennaPortCount > 0 then antennaPortCount else 6;
      var i := 1;
      while i <= portCount
        invariant 1 <= i <= portCount + 1
        invariant |antennaConfigs| == i - 1
        invariant forall k :: 0 <= k < i - 1 ==> antennaConfigs[k] == EntryFor(loaded, k + 1)
        invariant antennaPortCount == old(antennaPortCount) && selectedPort == old(selectedPort)
      {
        var existingConfig := FirstWithPort(loaded, IntToString(i));
        var entry := if existingConfig.Some? then existingConfig.value else FreshConfig(IntToString(i));
        antennaConfigs := antennaConfigs + [entry];
        i := i + 1;
      }
      assert antennaConfigs == RebuiltConfigs(loaded, antennaPortCount);
    }

    /** UpdateBandButtons: one look per band button, 160 m to 6 m. */
    method UpdateBandButtons(selectedBandNumber: int, isTransmitting: bool) returns (buttons: seq<ButtonLook>)
      ensures |buttons| == 10
      ensures forall i :: 0 <= i < 10 ==> buttons[i] == ButtonFor(antennaConfigs, i + 1, selectedBandNumber, isTransmitting)
    {
      buttons := [];
      for i := 0 to 10
        invariant |buttons| == i
        invariant forall k :: 0 <= k < i ==> buttons[k] == ButtonFor(antennaConfigs, k + 1, selectedBandNumber, isTransmitting)
      {
        var bandNumber := i + 1;
        var isSelected := bandNumber == selectedBandNumber;
        var isConfigured := exists a :: a in antennaConfigs && IsBandSupportedByConfig(a, bandNumber);
        var background :=
          if isSelected then (if isTransmitting then Red else Green)
          else if isConfigured then DodgerBlue else DimGray;
        buttons := buttons + [ButtonLook(background, isConfigured)];
      }
    }

    /** UpdateAntennaSelectionAsync: choose the port for the band and switch the board when needed. */
    method UpdateAntennaSelection(bandNumber: int, shouldDelay: bool)
      modifies this, relayManager, relayManager.sender
      ensures Selection(relayManager.Model(), selectedPort)
           == SelectionEffect(old(relayManager.Model()), old(antennaConfigs), bandNumber, shouldDelay, old(selectedPort))
      ensures antennaConfigs == old(antennaConfigs) && antennaPortCount == old(antennaPortCount)
    {
      if GetBandName(bandNumber).Err? {
        return;
      }
      var availableAntennas := relayManager.GetRelaysForBand(bandNumber, antennaConfigs);
      if availableAntennas.Err? {
        return;
      }
      var lastSelectedRelay := relayManager.GetLastSelectedRelayForBand(bandNumber);
      selectedPort := if lastSelectedRelay in availableAntennas.value then lastSelectedRelay
        else if availableAntennas.value != [] then availableAntennas.value[0] else 0;
      if selectedPort != 0 {
        if relayManager.currentlySelectedRelay == 0 || lastSelectedRelay != relayManager.currentlySelectedRelay {
          relayManager.SetRelayForAntenna(selectedPort, bandNumber, shouldDelay);
        }
      }
    }
  }
}
