/**
  The two records the core reads: a relay port's band-capability configuration
  and the radio-state snapshot, plus the band table both relay managers and the
  main window share.
*/
module Records {
  import opened Base
  import opened Text

  /** One relay port: its number as text and one flag per band, 160 m to 6 m. */
  datatype AntennaConfig = AntennaConfig(
    port: string,
    is160M: bool, is80M: bool, is40M: bool, is30M: bool, is20M: bool,
    is17M: bool, is15M: bool, is12M: bool, is10M: bool, is6M: bool)

  /** `new AntennaConfig { Port = port }`: no band selected. */
  function FreshConfig(port: string): AntennaConfig
  {
    AntennaConfig(port, false, false, false, false, false, false, false, false, false, false)
  }

  /** The latest radio state: every field may be absent. */
  datatype RadioInfo = RadioInfo(
    rxFrequency: Option<string>,
    txFrequency: Option<string>,
    mode: Option<string>,
    activeRadio: Option<int>,
    isSplit: bool,
    isTransmitting: bool)

  /** `new RadioInfo()`. */
  const EmptyRadioInfo: RadioInfo := RadioInfo(None, None, None, None, false, false)

  /** The ten band flags in band order: entry n - 1 belongs to band n. */
  function BandFlags(c: AntennaConfig): (flags: seq<bool>)
    ensures |flags| == 10
  {
    [c.is160M, c.is80M, c.is40M, c.is30M, c.is20M, c.is17M, c.is15M, c.is12M, c.is10M, c.is6M]
  }

  /** Band n (1 = 160 m ... 10 = 6 m) is selected in the configuration. */
  predicate IsBandSupportedByConfig(c: AntennaConfig, bandNumber: int)
  {
    match bandNumber
    case 1 => c.is160M
    case 2 => c.is80M
    case 3 => c.is40M
    case 4 => c.is30M
    case 5 => c.is20M
    case 6 => c.is17M
    case 7 => c.is15M
    case 8 => c.is12M
    case 9 => c.is10M
    case 10 => c.is6M
    case _ => false
  }

  /** The switch agrees with the flag table: band n is the n-th flag. */
  lemma BandSupportMatchesFlags(c: AntennaConfig)
    ensures BandFlags(c) == [
      IsBandSupportedByConfig(c, 1), IsBandSupportedByConfig(c, 2), IsBandSupportedByConfig(c, 3),
      IsBandSupportedByConfig(c, 4), IsBandSupportedByConfig(c, 5), IsBandSupportedByConfig(c, 6),
      IsBandSupportedByConfig(c, 7), IsBandSupportedByConfig(c, 8), IsBandSupportedByConfig(c, 9),
      IsBandSupportedByConfig(c, 10)]
  {
  }

  /** No band number outside 1..10 is ever selected. */
  lemma NoBandOutsideTable(c: AntennaConfig, bandNumber: int)
    requires !(1 <= bandNumber <= 10)
    ensures !IsBandSupportedByConfig(c, bandNumber)
  {
  }

  /** The configurations that select the band, in list order (the LINQ `Where`). */
  function ConfigsForBand(configs: seq<AntennaConfig>, bandNumber: int): seq<AntennaConfig>
    decreases |configs|
  {
    if configs == [] then []
    else if IsBandSupportedByConfig(configs[0], bandNumber) then [configs[0]] + ConfigsForBand(configs[1..], bandNumber)
    else ConfigsForBand(configs[1..], bandNumber)
  }

  /** The selected configurations are exactly the given ones that support the band. */
  lemma {:induction false} ConfigsForBandSelects(configs: seq<AntennaConfig>, bandNumber: int)
    ensures forall c :: c in ConfigsForBand(configs, bandNumber) <==> c in configs && IsBandSupportedByConfig(c, bandNumber)
    decreases |configs|
  {
    if configs != [] {
      ConfigsForBandSelects(configs[1..], bandNumber);
      assert forall c :: c in configs <==> c == configs[0] || c in configs[1..];
    }
  }

  /** The LINQ pipeline with the port parser as a parameter: the parsed ports of the selecting configurations, or the first failure. */
  function SelectPorts(configs: seq<AntennaConfig>, bandNumber: int, parse: string -> Result<int>): Result<seq<int>>
    decreases |configs|
  {
    if configs == [] then Ok([])
    else if IsBandSupportedByConfig(configs[0], bandNumber) then
      match parse(configs[0].port)
      case Err(e) => Err(e)
      case Ok(p) =>
        match SelectPorts(configs[1..], bandNumber, parse)
        case Err(e) => Err(e)
        case Ok(ps) => Ok([p] + ps)
    else SelectPorts(configs[1..], bandNumber, parse)
  }

  /**
    `configs.Where(c => IsBandSupportedByConfig(c, band)).Select(c => int.Parse(c.Port)).ToList()`:
    the selected ports in list order, or the exception of the first selected
    port whose text is not a 32-bit integer.
  */
  function PortsForBand(configs: seq<AntennaConfig>, bandNumber: int): Result<seq<int>>
  {
    SelectPorts(configs, bandNumber, ParseInt32)
  }

  /** Whatever the parser, the list has one entry per selecting configuration, its parsed port. */
  lemma {:induction false} SelectPortsParsesSelected(configs: seq<AntennaConfig>, bandNumber: int, parse: string -> Result<int>)
    ensures SelectPorts(configs, bandNumber, parse).Err? ==>
      exists k :: 0 <= k < |ConfigsForBand(configs, bandNumber)| && parse(ConfigsForBand(configs, bandNumber)[k].port).Err?
    ensures SelectPorts(configs, bandNumber, parse).Ok? ==>
      var sel := ConfigsForBand(configs, bandNumber);
      var ps := SelectPorts(configs, bandNumber, parse).value;
      |ps| == |sel| && forall k :: 0 <= k < |ps| ==> parse(sel[k].port) == Ok(ps[k])
    decreases |configs|
  {
    if configs != [] {
      var c, rest := configs[0], configs[1..];
      SelectPortsParsesSelected(rest, bandNumber, parse);
      var selRest := ConfigsForBand(rest, bandNumber);
      if IsBandSupportedByConfig(c, bandNumber) {
        var sel := ConfigsForBand(configs, bandNumber);
        assert sel == [c] + selRest;
        var pc, pr := parse(c.port), SelectPorts(rest, bandNumber, parse);
        if pc.Err? {
          assert SelectPorts(configs, bandNumber, parse) == Err(pc.error);
          assert sel[0] == c && parse(sel[0].port).Err?;

        } else if pr.Err? {
          assert SelectPorts(configs, bandNumber, parse) == Err(pr.error);
          var k :| 0 <= k < |selRest| && parse(selRest[k].port).Err?;
          assert sel[k + 1] == selRest[k] && parse(sel[k + 1].port).Err?;
        } else {
          var ps := [pc.value] + pr.value;
          assert SelectPorts(configs, bandNumber, parse) == Ok(ps);
          forall k | 0 <= k < |sel| ensures parse(sel[k].port) == Ok(ps[k]) {
            if k > 0 {
              assert sel[k] == selRest[k - 1] && ps[k] == pr.value[k - 1];
            }
          }
        }
      } else {
        assert ConfigsForBand(configs, bandNumber) == selRest;
      }
    }
  }

  /** The port list has one entry per selecting configuration, its parsed port number. */
  lemma PortsForBandParsesSelected(configs: seq<AntennaConfig>, bandNumber: int)
    ensures var sel := ConfigsForBand(configs, bandNumber);
      PortsForBand(configs, bandNumber).Ok? <==> forall k :: 0 <= k < |sel| ==> ParseInt32(sel[k].port).Ok?
    ensures PortsForBand(configs, bandNumber).Ok? ==>
      var sel := ConfigsForBand(configs, bandNumber);
      var ps := PortsForBand(configs, bandNumber).value;
      |ps| == |sel| && forall k :: 0 <= k < |ps| ==> ParseInt32(sel[k].port) == Ok(ps[k])
  {
    SelectPortsParsesSelected(configs, bandNumber, ParseInt32);
    var sel := ConfigsForBand(configs, bandNumber);
    if PortsForBand(configs, bandNumber).Err? {
      var k :| 0 <= k < |sel| && ParseInt32(sel[k].port).Err?;
    }
  }

  /** A band outside 1..10 has no ports. */
  lemma {:induction false} NoPortsOutsideBands(configs: seq<AntennaConfig>, bandNumber: int)
    requires !(1 <= bandNumber <= 10)
    ensures PortsForBand(configs, bandNumber) == Ok([])
    decreases |configs|
  {
    if configs != [] {
      NoPortsOutsideBands(configs[1..], bandNumber);
    }
  }

  /** The example of the unit test: ports 1 and 3 select 160 m, port 2 does not. */
  lemma PortsForBandExample()
    ensures PortsForBand([FreshConfig("1").(is160M := true), FreshConfig("2"), FreshConfig("3").(is160M := true)], 1)
            == Ok([1, 3])
  {
    var c1, c2, c3 := FreshConfig("1").(is160M := true), FreshConfig("2"), FreshConfig("3").(is160M := true);
    ParseIntToString(1, Int32Min, Int32Max);
    ParseIntToString(3, Int32Min, Int32Max);
    assert IntToString(1) == "1" && IntToString(3) == "3";
    assert ParseInt32("1") == Ok(1) && ParseInt32("3") == Ok(3);
    assert [c1, c2, c3][1..] == [c2, c3] && [c2, c3][1..] == [c3] && [c3][1..] == [];
    assert PortsForBand([c3][1..], 1) == Ok([]);
    assert PortsForBand([c3], 1).Ok? && PortsForBand([c3], 1).value == [3];
    assert PortsForBand([c2, c3], 1).value == [3];
    assert PortsForBand([c1, c2, c3], 1).value == [1, 3];
  }
}
