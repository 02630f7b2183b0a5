/**
  UdpListener.cs: field extraction from N1MM-style radio broadcasts. Each
  field is the text of the leftmost `<Name>value</Name>` element whose value
  holds no '<'; a missing or malformed element leaves its field at the
  default. The listener shows TX = RX unless the radio is split.
*/
module BroadcastListener {
  import opened Base
  import opened Text
  import opened Records

  function OpenTag(name: string): string { "<" + name + ">" }
  function CloseTag(name: string): string { "</" + name + ">" }
  function Element(name: string, value: string): string { OpenTag(name) + value + CloseTag(name) }

  /** Element names as the source uses them: non-empty, with no '<', '>' or '/'. */
  predicate IsName(name: string)
  {
    |name| > 0 && forall k :: 0 <= k < |name| ==> name[k] != '<' && name[k] != '>' && name[k] != '/'
  }

  /** The longest prefix holding no '<' (what `[^<]*` consumes). */
  function TextRun(s: string): (r: string)
    ensures IsPrefix(r, s) && '<' !in r
    ensures |r| < |s| ==> s[|r|] == '<'
  {
    if s == [] || s[0] == '<' then [] else [s[0]] + TextRun(s[1..])
  }

  /** A match of `<name>([^<]*)</name>` that starts at the beginning of s: the captured group. */
  function MatchStart(s: string, name: string): Option<string>
  {
    var open := OpenTag(name);
    if !IsPrefix(open, s) then None
    else
      var body := TextRun(s[|open|..]);
      if IsPrefix(CloseTag(name), s[|open| + |body|..]) then Some(body) else None
  }

  /** The regular expression's meaning: s starts with <name>, a '<'-free value, </name>. */
  lemma MatchStartMeaning(s: string, name: string, v: string)
    ensures MatchStart(s, name) == Some(v) <==> '<' !in v && IsPrefix(Element(name, v), s)
  {
    var open, close := OpenTag(name), CloseTag(name);
    assert Element(name, v) == open + (v + close);
    PrefixSplit(open, v + close, s);
    if IsPrefix(open, s) {
      var t := s[|open|..];
      PrefixSplit(v, close, t);
      if |v| <= |t| {
        assert t[|v|..] == s[|open| + |v|..];
      }
      if '<' !in v && IsPrefix(v + close, t) {
        TextRunOfValue(v, close, t);
      }
    }
  }

  /** A '<'-free value followed by a tag is consumed exactly. */
  lemma {:induction false} TextRunOfValue(v: string, tag: string, t: string)
    requires '<' !in v && |tag| > 0 && tag[0] == '<' && IsPrefix(v + tag, t)
    ensures TextRun(t) == v
  {
    if v == [] {
      assert t[0] == (v + tag)[0] == '<';
    } else {
      assert t[0] == v[0] && v[0] in v;
      assert (v + tag)[1..] == v[1..] + tag;
      assert '<' !in v[1..] by {
        forall c | c in v[1..] ensures c in v { }
      }
      TextRunOfValue(v[1..], tag, t[1..]);
      assert [v[0]] + v[1..] == v;
    }
  }

  /** Regex.Match: the leftmost match, as a scan over the suffixes. */
  function ExtractValue(xml: string, name: string): (r: Option<string>)
    ensures r.Some? ==> '<' !in r.value
  {
    var here := MatchStart(xml, name);
    if here.Some? then here
    else if xml == [] then None
    else ExtractValue(xml[1..], name)
  }

  /** A value is returned exactly when some position starts a match, and it is the leftmost one's. */
  lemma {:induction false} ExtractValueLeftmost(xml: string, name: string)
    ensures ExtractValue(xml, name).None? <==> forall k :: 0 <= k <= |xml| ==> MatchStart(xml[k..], name).None?
    ensures ExtractValue(xml, name).Some? ==>
      exists k :: 0 <= k <= |xml| && MatchStart(xml[k..], name) == ExtractValue(xml, name) &&
        forall j :: 0 <= j < k ==> MatchStart(xml[j..], name).None?
  {
    assert xml[0..] == xml;
    if MatchStart(xml, name).None? && xml != [] {
      ExtractValueLeftmost(xml[1..], name);
      forall k | 1 <= k <= |xml| ensures xml[k..] == xml[1..][k - 1..] {
      }
      if ExtractValue(xml, name).Some? {
        var k' :| 0 <= k' <= |xml[1..]| && MatchStart(xml[1..][k'..], name) == ExtractValue(xml, name) &&
          forall j :: 0 <= j < k' ==> MatchStart(xml[1..][j..], name).None?;
        assert xml[k' + 1..] == xml[1..][k'..];
        forall j | 0 <= j < k' + 1 ensures MatchStart(xml[j..], name).None? {
          if j > 0 { assert xml[j..] == xml[1..][j - 1..]; }
        }
      }
    }
  }

  /** No match starts inside text without '<'. */
  lemma {:induction false} SkipText(a: string, rest: string, name: string)
    requires '<' !in a
    ensures ExtractValue(a + rest, name) == ExtractValue(rest, name)
  {
    if a != [] {
      var s := a + rest;
      assert s[0] == a[0] && a[0] in a;
      assert OpenTag(name)[0] == '<';
      assert MatchStart(s, name).None?;
      assert ExtractValue(s, name) == ExtractValue(s[1..], name);
      assert s[1..] == a[1..] + rest;
      assert '<' !in a[1..] by {
        forall c | c in a[1..] ensures c in a { }
      }
      SkipText(a[1..], rest, name);
    } else {
      assert a + rest == rest;
    }
  }

  /** `<other>` does not start a match for a different name. */
  lemma OpenTagsDiffer(m: string, n: string, rest: string)
    requires IsName(m) && IsName(n) && m != n
    ensures MatchStart(OpenTag(m) + rest, n).None?
  {
    var s, o := OpenTag(m) + rest, OpenTag(n);
    if |n| == |m| {
      var i :| 0 <= i < |n| && n[i] != m[i];
      assert o[i + 1] == n[i] && s[i + 1] == m[i];
    } else if |n| < |m| {
      assert o[|n| + 1] == '>' && s[|n| + 1] == m[|n|];
    } else {
      assert s[|m| + 1] == '>' && |o| > |m| + 1 && o[|m| + 1] == n[|m|];
    }
    assert !IsPrefix(o, s);
  }

  /** An opening tag of another element is skipped. */
  lemma SkipOpenTag(m: string, rest: string, n: string)
    requires IsName(m) && IsName(n) && m != n
    ensures ExtractValue(OpenTag(m) + rest, n) == ExtractValue(rest, n)
  {
    OpenTagsDiffer(m, n, rest);
    assert (OpenTag(m) + rest)[1..] == (m + ">") + rest;
    assert '<' !in m + ">";
    SkipText(m + ">", rest, n);
  }

  /** A closing tag is '<' followed by text without '<', and starts no match. */
  lemma CloseTagShape(m: string, rest: string, n: string)
    requires IsName(m) && IsName(n)
    ensures (CloseTag(m) + rest)[1..] == ("/" + m + ">") + rest
    ensures '<' !in "/" + m + ">"
    ensures MatchStart(CloseTag(m) + rest, n).None?
  {
    var a := "/" + m + ">";
    var s := CloseTag(m) + rest;
    assert s == "<" + (a + rest);
    var o := OpenTag(n);
    assert o[1] == n[0] && n[0] != '/' && s[1] == '/';
    assert !IsPrefix(o, s);
    forall k | 0 <= k < |a| ensures a[k] != '<' {
      if 0 < k < |a| - 1 { assert a[k] == m[k - 1]; }
    }
  }

  /** A closing tag is skipped. */
  lemma SkipCloseTag(m: string, rest: string, n: string)
    requires IsName(m) && IsName(n)
    ensures ExtractValue(CloseTag(m) + rest, n) == ExtractValue(rest, n)
  {
    CloseTagShape(m, rest, n);
    SkipText("/" + m + ">", rest, n);
  }

  /** A whole element of another name is skipped. */
  lemma SkipElement(m: string, v: string, rest: string, n: string)
    requires IsName(m) && IsName(n) && m != n && '<' !in v
    ensures ExtractValue(Element(m, v) + rest, n) == ExtractValue(rest, n)
  {
    assert Element(m, v) + rest == OpenTag(m) + (v + (CloseTag(m) + rest));
    SkipOpenTag(m, v + (CloseTag(m) + rest), n);
    SkipText(v, CloseTag(m) + rest, n);
    SkipCloseTag(m, rest, n);
  }

  /** An element of the name is found, whatever follows it. */
  lemma FindElement(n: string, v: string, rest: string)
    requires '<' !in v
    ensures ExtractValue(Element(n, v) + rest, n) == Some(v)
  {
    MatchStartMeaning(Element(n, v) + rest, n, v);
    assert (Element(n, v) + rest)[..|Element(n, v)|] == Element(n, v);
  }

  /** Extracting "Freq" never yields a TXFreq element's value: the name must follow '<' directly. */
  lemma FreqIsNotTxFreq(v: string, rest: string)
    requires '<' !in v
    ensures ExtractValue(Element("TXFreq", v) + rest, "Freq") == ExtractValue(rest, "Freq")
  {
    SkipElement("TXFreq", v, rest, "Freq");
  }

  /** The integer of int.TryParse, or null. */
  function ParseOptionalInt32(s: Option<string>): (r: Option<int>)
    ensures r.Some? ==> s.Some? && Int32Min <= r.value <= Int32Max
  {
    match s
    case None => None
    case Some(t) => TryParseInteger(t, Int32Min, Int32Max)
  }

  /** bool.TryParse(...) && value: true only for text that parses as true. */
  predicate IsTrue(s: Option<string>)
  {
    TryParseBool(s) == Some(true)
  }

  /** The record ParseMessage builds, each field extracted independently. */
  function ParseRadioInfo(message: string): RadioInfo
  {
    RadioInfo(
      ExtractValue(message, "Freq"),
      ExtractValue(message, "TXFreq"),
      ExtractValue(message, "Mode"),
      ParseOptionalInt32(ExtractValue(message, "ActiveRadioNr")),
      IsTrue(ExtractValue(message, "IsSplit")),
      IsTrue(ExtractValue(message, "IsTransmitting")))
  }

  /** What the listener's properties show for a record: TX is RX unless the radio is split. */
  function Shown(info: RadioInfo): (r: RadioInfo)
    ensures r.rxFrequency == info.rxFrequency && r.mode == info.mode && r.activeRadio == info.activeRadio
    ensures r.isSplit == info.isSplit && r.isTransmitting == info.isTransmitting
    ensures r.txFrequency == (if info.isSplit then info.txFrequency else info.rxFrequency)
  {
    info.(txFrequency := if info.isSplit then info.txFrequency else info.rxFrequency)
  }

  /** Showing is idempotent: the shown record is already consistent. */
  lemma ShownIsIdempotent(info: RadioInfo)
    ensures Shown(Shown(info)) == Shown(info)
    ensures !info.isSplit ==> Shown(info).txFrequency == Shown(info).rxFrequency
  {
  }

  // ----- The broadcast format, for the round trip -----

  /** An element whose absent value is left out of the text. */
  function OptionalElement(name: string, value: Option<string>): string
  {
    if value.Some? then Element(name, value.value) else ""
  }

  /** Past one optional element: its value if it has the name and is present, else what follows. */
  lemma ExtractPastElement(m: string, value: Option<string>, rest: string, name: string)
    requires IsName(m) && IsName(name) && (value.Some? ==> '<' !in value.value)
    ensures ExtractValue(OptionalElement(m, value) + rest, name)
         == if m == name && value.Some? then value else ExtractValue(rest, name)
  {
    if value.Some? {
      if m == name {
        FindElement(name, value.value, rest);
      } else {
        SkipElement(m, value.value, rest, name);
      }
    } else {
      assert OptionalElement(m, value) + rest == rest;
    }
  }

  function OptionalText(i: Option<int>): Option<string>
  {
    if i.Some? then Some(IntToString(i.value)) else None
  }

  /** A broadcast carrying a record, wrapped in <RadioInfo>; absent values are left out. */
  function Broadcast(info: RadioInfo): string
  {
    OpenTag("RadioInfo") + BroadcastBody(info)
  }

  function BroadcastBody(info: RadioInfo): string
  {
    OptionalElement("Freq", info.rxFrequency) + FromTXFreq(info)
  }

  function FromTXFreq(info: RadioInfo): string
  {
    OptionalElement("TXFreq", info.txFrequency) + FromMode(info)
  }

  function FromMode(info: RadioInfo): string
  {
    OptionalElement("Mode", info.mode) + FromIsSplit(info)
  }

  function FromIsSplit(info: RadioInfo): string
  {
    OptionalElement("IsSplit", Some(BoolText(info.isSplit))) + FromActiveRadio(info)
  }

  function FromActiveRadio(info: RadioInfo): string
  {
    OptionalElement("ActiveRadioNr", OptionalText(info.activeRadio)) + FromIsTransmitting(info)
  }

  function FromIsTransmitting(info: RadioInfo): string
  {
    OptionalElement("IsTransmitting", Some(BoolText(info.isTransmitting))) + CloseTag("RadioInfo")
  }

  /** The element text a broadcast carries for each name. */
  function Carried(info: RadioInfo, name: string): Option<string>
  {
    if name == "Freq" then info.rxFrequency
    else if name == "TXFreq" then info.txFrequency
    else if name == "Mode" then info.mode
    else if name == "IsSplit" then Some(BoolText(info.isSplit))
    else if name == "ActiveRadioNr" then OptionalText(info.activeRadio)
    else if name == "IsTransmitting" then Some(BoolText(info.isTransmitting))
    else None
  }

  /** Values a broadcast can carry: text without '<', a 32-bit radio number. */
  predicate Carriable(info: RadioInfo)
  {
    (info.rxFrequency.Some? ==> '<' !in info.rxFrequency.value) &&
    (info.txFrequency.Some? ==> '<' !in info.txFrequency.value) &&
    (info.mode.Some? ==> '<' !in info.mode.value) &&
    (info.activeRadio.Some? ==> Int32Min <= info.activeRadio.value <= Int32Max)
  }

  lemma IntToStringHasNoTag(i: int)
    ensures '<' !in IntToString(i)
  {
    var s := IntToString(i);
    forall k | 0 <= k < |s| ensures s[k] != '<' {
      assert IsDigit(s[k]) || s[k] == '-';
    }
  }

  lemma BoolTextHasNoTag(b: bool)
    ensures '<' !in BoolText(b)
  {
  }

  lemma ExtractFromIsTransmitting(info: RadioInfo, name: string)
    requires IsName(name)
    ensures ExtractValue(FromIsTransmitting(info), name)
         == if name == "IsTransmitting" then Some(BoolText(info.isTransmitting)) else None
  {
    assert IsName("IsTransmitting") && IsName("RadioInfo");
    BoolTextHasNoTag(info.isTransmitting);
    ExtractPastElement("IsTransmitting", Some(BoolText(info.isTransmitting)), CloseTag("RadioInfo"), name);
    SkipCloseTag("RadioInfo", "", name);
    assert CloseTag("RadioInfo") + "" == CloseTag("RadioInfo");
    assert ExtractValue("", name) == None;
  }

  lemma ExtractFromActiveRadio(info: RadioInfo, name: string)
    requires Carriable(info) && IsName(name)
    ensures ExtractValue(FromActiveRadio(info), name)
         == if name == "ActiveRadioNr" then OptionalText(info.activeRadio)
            else if name == "IsTransmitting" then Some(BoolText(info.isTransmitting)) else None
  {
    assert IsName("ActiveRadioNr");
    if info.activeRadio.Some? { IntToStringHasNoTag(info.activeRadio.value); }
    ExtractPastElement("ActiveRadioNr", OptionalText(info.activeRadio), FromIsTransmitting(info), name);
    ExtractFromIsTransmitting(info, name);
  }

  lemma ExtractFromIsSplit(info: RadioInfo, name: string)
    requires Carriable(info) && IsName(name)
    ensures ExtractValue(FromIsSplit(info), name)
         == if name == "IsSplit" then Some(BoolText(info.isSplit))
            else if name == "ActiveRadioNr" then OptionalText(info.activeRadio)
            else if name == "IsTransmitting" then Some(BoolText(info.isTransmitting)) else None
  {
    assert IsName("IsSplit");
    BoolTextHasNoTag(info.isSplit);
    ExtractPastElement("IsSplit", Some(BoolText(info.isSplit)), FromActiveRadio(info), name);
    ExtractFromActiveRadio(info, name);
  }

  lemma ExtractFromMode(info: RadioInfo, name: string)
    requires Carriable(info) && IsName(name)
    ensures ExtractValue(FromMode(info), name)
         == if name == "Mode" then info.mode
            else if name == "IsSplit" then Some(BoolText(info.isSplit))
            else if name == "ActiveRadioNr" then OptionalText(info.activeRadio)
            else if name == "IsTransmitting" then Some(BoolText(info.isTransmitting)) else None
  {
    assert IsName("Mode");
    ExtractPastElement("Mode", info.mode, FromIsSplit(info), name);
    ExtractFromIsSplit(info, name);
  }

  lemma ExtractFromTXFreq(info: RadioInfo, name: string)
    requires Carriable(info) && IsName(name)
    ensures ExtractValue(FromTXFreq(info), name) == if name == "Freq" then None else Carried(info, name)
  {
    assert IsName("TXFreq");
    ExtractPastElement("TXFreq", info.txFrequency, FromMode(info), name);
    ExtractFromMode(info, name);
  }

  lemma ExtractFromBody(info: RadioInfo, name: string)
    requires Carriable(info) && IsName(name)
    ensures ExtractValue(BroadcastBody(info), name) == Carried(info, name)
  {
    assert IsName("Freq");
    ExtractPastElement("Freq", info.rxFrequency, FromTXFreq(info), name);
    ExtractFromTXFreq(info, name);
  }

  /** Every element of a broadcast is extracted as carried, whatever the other elements hold. */
  lemma ExtractBroadcastField(info: RadioInfo, name: string)
    requires Carriable(info) && IsName(name) && name != "RadioInfo"
    ensures ExtractValue(Broadcast(info), name) == Carried(info, name)
  {
    assert IsName("RadioInfo");
    SkipOpenTag("RadioInfo", BroadcastBody(info), name);
    ExtractFromBody(info, name);
  }

  /** The element names of a broadcast are names, none of them the wrapper's. */
  lemma BroadcastNames()
    ensures IsName("Freq") && IsName("TXFreq") && IsName("Mode")
    ensures IsName("IsSplit") && IsName("ActiveRadioNr") && IsName("IsTransmitting")
    ensures "Freq" != "RadioInfo" && "TXFreq" != "RadioInfo" && "Mode" != "RadioInfo"
    ensures "IsSplit" != "RadioInfo" && "ActiveRadioNr" != "RadioInfo" && "IsTransmitting" != "RadioInfo"
  {
  }

  /** A message whose elements carry a record's fields parses back to that record. */
  lemma ParseCarried(message: string, info: RadioInfo)
    requires Carriable(info)
    requires ExtractValue(message, "Freq") == info.rxFrequency
    requires ExtractValue(message, "TXFreq") == info.txFrequency
    requires ExtractValue(message, "Mode") == info.mode
    requires ExtractValue(message, "IsSplit") == Some(BoolText(info.isSplit))
    requires ExtractValue(message, "ActiveRadioNr") == OptionalText(info.activeRadio)
    requires ExtractValue(message, "IsTransmitting") == Some(BoolText(info.isTransmitting))
    ensures ParseRadioInfo(message) == info
  {
    TryParseBoolText(info.isSplit);
    TryParseBoolText(info.isTransmitting);
    ReadRadioNumber(info.activeRadio);
  }

  /** A 32-bit radio number, written out, reads back as itself; an absent one stays absent. */
  lemma ReadRadioNumber(i: Option<int>)
    requires i.Some? ==> Int32Min <= i.value <= Int32Max
    ensures ParseOptionalInt32(OptionalText(i)) == i
  {
    if i.Some? {
      ParseIntToString(i.value, Int32Min, Int32Max);
    }
  }

  /** Parsing a broadcast gives back the record it carries. */
  lemma ParseBroadcast(info: RadioInfo)
    requires Carriable(info)
    ensures ParseRadioInfo(Broadcast(info)) == info
  {
    BroadcastNames();
    var m := Broadcast(info);
    assert ExtractValue(m, "Freq") == info.rxFrequency by { ExtractBroadcastField(info, "Freq"); }
    assert ExtractValue(m, "TXFreq") == info.txFrequency by { ExtractBroadcastField(info, "TXFreq"); }
    assert ExtractValue(m, "Mode") == info.mode by { ExtractBroadcastField(info, "Mode"); }
    assert ExtractValue(m, "IsSplit") == Some(BoolText(info.isSplit)) by {
      ExtractBroadcastField(info, "IsSplit");
    }
    assert ExtractValue(m, "ActiveRadioNr") == OptionalText(info.activeRadio) by {
      ExtractBroadcastField(info, "ActiveRadioNr");
    }
    assert ExtractValue(m, "IsTransmitting") == Some(BoolText(info.isTransmitting)) by {
      ExtractBroadcastField(info, "IsTransmitting");
    }
    ParseCarried(m, info);
  }

  /** A missing element leaves only its own field at its default. */
  lemma MissingFieldDefaults(info: RadioInfo)
    requires Carriable(info)
    ensures ParseRadioInfo(Broadcast(info.(rxFrequency := None))) == info.(rxFrequency := None)
    ensures ParseRadioInfo(Broadcast(info.(activeRadio := None))) == info.(activeRadio := None)
  {
    ParseBroadcast(info.(rxFrequency := None));
    ParseBroadcast(info.(activeRadio := None));
  }

  lemma TrimEndPadded()
    ensures TrimEnd(" true ") == " true"
  {
    var s, t := " true ", " true";
    assert |s| == 6 && s[5] == ' ' && s[..5] == t;
    assert |t| == 5 && t[4] == 'e' && !IsWhiteSpace(t[4]);
    assert TrimEnd(t) == t;
  }

  lemma TrimStartPadded()
    ensures TrimStart(" true") == "true"
  {
    var s, t := " true", "true";
    assert |s| == 5 && s[0] == ' ' && s[1..] == t;
    assert |t| == 4 && t[0] == 't' && !IsWhiteSpace(t[0]);
    assert TrimStart(t) == t;
  }

  lemma UpperTrue()
    ensures ToUpperAscii("true") == "TRUE"
  {
    var u := ToUpperAscii("true");
    assert u[0] == 'T' && u[1] == 'R' && u[2] == 'U' && u[3] == 'E';
  }

  /** bool.TryParse ignores surrounding white space and letter case. */
  lemma FlagReadsPaddedLowerCase()
    ensures IsTrue(Some(" true "))
  {
    TrimEndPadded();
    TrimStartPadded();
    UpperTrue();
  }

  /** Text other than true or false reads as not set. */
  lemma FlagRejectsOtherText()
    ensures !IsTrue(Some("yes")) && !IsTrue(Some("False")) && !IsTrue(None)
  {
    TrimUnchanged("yes");
    TrimUnchanged("False");
    var y := ToUpperAscii("yes");
    assert y[0] == 'Y';
    var f := ToUpperAscii("False");
    assert f[0] == 'F' && |f| == 5;
  }

  /** UdpListener: the six properties shown, and the records handed to RadioInfoReceived. */
  class UdpListener {
    var rxFrequency: Option<string>
    var txFrequency: Option<string>
    var mode: Option<string>
    var activeRadio: Option<int>
    var isSplit: bool
    var isTransmitting: bool
    ghost var raised: seq<RadioInfo>

    ghost function Current(): RadioInfo
      reads this
    {
      RadioInfo(rxFrequency, txFrequency, mode, activeRadio, isSplit, isTransmitting)
    }

    constructor ()
      ensures Current() == EmptyRadioInfo && raised == []
    {
      rxFrequency, txFrequency, mode, activeRadio := None, None, None, None;
      isSplit, isTransmitting := false, false;
      raised := [];
    }

    method UpdateFields(info: RadioInfo)
      modifies this
      ensures Current() == Shown(info) && raised == old(raised)
    {
      rxFrequency := info.rxFrequency;
      txFrequency := if info.isSplit then info.txFrequency else info.rxFrequency;
      mode := info.mode;
      activeRadio := info.activeRadio;
      isSplit := info.isSplit;
      isTransmitting := info.isTransmitting;
    }

    /** The properties show the parsed record, and the event carries it unsubstituted. */
    method ParseMessage(message: string)
      modifies this
      ensures Current() == Shown(ParseRadioInfo(message))
      ensures raised == old(raised) + [ParseRadioInfo(message)]
    {
      var info := EmptyRadioInfo;
      info := info.(rxFrequency := ExtractValue(message, "Freq"));
      info := info.(txFrequency := ExtractValue(message, "TXFreq"));
      info := info.(mode := ExtractValue(message, "Mode"));
      info := info.(isSplit := IsTrue(ExtractValue(message, "IsSplit")));
      info := info.(activeRadio := ParseOptionalInt32(ExtractValue(message, "ActiveRadioNr")));
      info := info.(isTransmitting := IsTrue(ExtractValue(message, "IsTransmitting")));
      UpdateFields(info);
      raised := raised + [info];
    }
  }
}
