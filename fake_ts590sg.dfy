/**
  FakeTS590SG.cs: a Kenwood TS-590SG CAT emulator. Each PC-control command
  gets an ASCII reply built from the latest radio snapshot the listener
  handed over; a TCP session answers one command per read until an empty
  read ends it.
*/
module CatEmulator {
  import opened Base
  import opened Text
  import opened Records

  /** The frequency as an 11-digit field: zero-padded on the left, never truncated; 11 zeros when absent. */
  function FrequencyField(f: Option<string>): (r: string)
    ensures f.None? ==> r == Repeat('0', 11)
    ensures f.Some? ==> |r| == (if |f.value| >= 11 then |f.value| else 11)
    ensures f.Some? ==> r[|r| - |f.value|..] == f.value && forall k :: 0 <= k < |r| - |f.value| ==> r[k] == '0'
  {
    match f
    case None => Repeat('0', 11)
    case Some(s) => PadLeft(s, 11, '0')
  }

  /** Mode names the emulator knows, in upper case. */
  predicate KnownMode(m: string)
  {
    m == "CW" || m == "USB" || m == "LSB" || m == "FM" || m == "AM"
  }

  /** The TS-590SG operating-mode digit for a mode name, compared after upper-casing; "0" otherwise. */
  function ModeCode(mode: Option<string>): (r: string)
    ensures |r| == 1 && '0' <= r[0] <= '5'
    ensures r != "0" <==> mode.Some? && KnownMode(ToUpperAscii(mode.value))
  {
    match mode
    case None => "0"
    case Some(m) =>
      var u := ToUpperAscii(m);
      if u == "CW" then "3"
      else if u == "USB" then "2"
      else if u == "LSB" then "1"
      else if u == "FM" then "4"
      else if u == "AM" then "5"
      else "0"
  }

  /** The mode name a digit stands for: the reference table ModeCode follows. */
  function ModeName(code: string): Option<string>
  {
    if code == "1" then Some("LSB")
    else if code == "2" then Some("USB")
    else if code == "3" then Some("CW")
    else if code == "4" then Some("FM")
    else if code == "5" then Some("AM")
    else None
  }

  /** Known modes are encoded to their own digit and back, whatever their case. */
  lemma ModeCodeRoundTrip(m: string)
    ensures KnownMode(ToUpperAscii(m)) ==> ModeName(ModeCode(Some(m))) == Some(ToUpperAscii(m))
    ensures !KnownMode(ToUpperAscii(m)) ==> ModeCode(Some(m)) == "0" && ModeName(ModeCode(Some(m))).None?
  {
  }

  /** Upper-casing is idempotent, so the mode digit ignores letter case. */
  lemma ModeCodeIgnoresCase(m: string)
    ensures ModeCode(Some(m)) == ModeCode(Some(ToUpperAscii(m)))
  {
    var u := ToUpperAscii(m);
    var uu := ToUpperAscii(u);
    assert uu == u by {
      forall k | 0 <= k < |u| ensures uu[k] == u[k] {
        assert u[k] == UpperChar(m[k]);
      }
    }
  }

  function Flag(b: bool): string { if b then "1" else "0" }

  /**
    The IF; status sentence after VFO A: five spaces, RIT/XIT offset 00000,
    RIT off, XIT off and memory channel 000; the RX/TX state and the mode;
    function 0 and scan 0; the split flag; tone 0, tone number 00, a final 0
    and ';'.
  */
  function IfTail(info: RadioInfo): (t: string)
    ensures |t| == 25
  {
    "     0000000000" + (Flag(info.isTransmitting) + (ModeCode(info.mode) + ("00" + (Flag(info.isSplit) + "0000;"))))
  }

  /** The IF; status sentence in the order the emulator writes its fields: "IF", VFO A, then the tail. */
  function IfResponse(info: RadioInfo): (r: string)
    ensures |r| == |FrequencyField(info.rxFrequency)| + 27
    ensures r[..2] == "IF" && r[|r| - 1] == ';'
  {
    "IF" + (FrequencyField(info.rxFrequency) + IfTail(info))
  }

  /** Each field of the tail at its column. */
  lemma IfTailLayout(info: RadioInfo)
    ensures var t := IfTail(info);
      (forall k :: 0 <= k < 5 ==> t[k] == ' ') &&
      (forall k :: 5 <= k < 15 || 17 <= k < 19 || 20 <= k < 24 ==> t[k] == '0') &&
      t[15] == Flag(info.isTransmitting)[0] && t[16] == ModeCode(info.mode)[0] &&
      t[19] == Flag(info.isSplit)[0] && t[24] == ';'
  {
    var t := IfTail(info);
    var u := Flag(info.isTransmitting) + (ModeCode(info.mode) + ("00" + (Flag(info.isSplit) + "0000;")));
    assert t == "     0000000000" + u;
    assert forall k :: 0 <= k < 15 ==> t[k] == "     0000000000"[k];
    assert forall k :: 15 <= k < 25 ==> t[k] == u[k - 15];
  }

  /** The two letters of the `XX;` commands that have a reply. */
  predicate KnownLetters(a: char, b: char)
  {
    (a == 'A' && b == 'I') || (a == 'I' && b == 'D') || (a == 'F' && b == 'V') || (a == 'T' && b == 'Y') ||
    (a == 'F' && b == 'A') || (a == 'F' && b == 'B') || (a == 'M' && b == 'D') || (a == 'T' && b == 'X') ||
    (a == 'S' && b == 'P') || (a == 'P' && b == 'S') || (a == 'D' && b == 'A') || (a == 'I' && b == 'F') ||
    (a == 'K' && b == 'S') || (a == 'S' && b == 'A')
  }

  /** Commands with a reply: two letters of the table and ';'. Every other text, including ";" alone, is answered "?;". */
  predicate KnownCommand(command: string)
  {
    |command| == 3 && command[2] == ';' && KnownLetters(command[0], command[1])
  }

  /**
    The reply to one command, given the latest snapshot. Every command of the
    switch is two letters followed by ';', so the table is looked up by the
    letters of a three-character text ending in ';'; ";" and all other text
    fall through to "?;".
  */
  function ProcessCommand(info: RadioInfo, command: string): (r: string)
    ensures |r| >= 2 && r[|r| - 1] == ';'
    ensures r == "?;" <==> !KnownCommand(command)
  {
    if |command| != 3 || command[2] != ';' then "?;"
    else
      var a, b := command[0], command[1];
      if a == 'A' && b == 'I' then "AI0;"
      else if a == 'I' && b == 'D' then "ID023;"
      else if a == 'F' && b == 'V' then "FV1.04;"
      else if a == 'T' && b == 'Y' then "TYK 00;"
      else if a == 'F' && b == 'A' then "FA" + FrequencyField(info.rxFrequency) + ";"
      else if a == 'F' && b == 'B' then "FB" + FrequencyField(info.txFrequency) + ";"
      else if a == 'M' && b == 'D' then "MD" + ModeCode(info.mode) + ";"
      else if a == 'T' && b == 'X' then "TX" + Flag(info.isTransmitting) + ";"
      else if a == 'S' && b == 'P' then "SP" + Flag(info.isSplit) + ";"
      else if a == 'P' && b == 'S' then "PS1;"
      else if a == 'D' && b == 'A' then "DA1;"
      else if a == 'I' && b == 'F' then IfResponse(info)
      else if a == 'K' && b == 'S' then "KS030;"
      else if a == 'S' && b == 'A' then "SA000;"
      else "?;"
  }

  /** Commands whose reply does not depend on the snapshot. */
  predicate FixedCommand(command: string)
  {
    |command| == 3 && command[2] == ';' &&
    var a, b := command[0], command[1];
    (a == 'A' && b == 'I') || (a == 'I' && b == 'D') || (a == 'F' && b == 'V') || (a == 'T' && b == 'Y') ||
    (a == 'P' && b == 'S') || (a == 'D' && b == 'A') || (a == 'K' && b == 'S') || (a == 'S' && b == 'A')
  }

  /** Identification, power and the other fixed queries answer the same whatever the snapshot. */
  lemma FixedReplies(a: RadioInfo, b: RadioInfo, command: string)
    ensures FixedCommand(command) || !KnownCommand(command) ==> ProcessCommand(a, command) == ProcessCommand(b, command)
  {
  }

  /** The sentence is 38 characters for frequencies of up to 11 digits, with each field at its column. */
  lemma IfLayout(info: RadioInfo)
    requires info.rxFrequency.Some? ==> |info.rxFrequency.value| <= 11
    ensures var r := IfResponse(info);
      |r| == 38 && r[..2] == "IF" && r[2..13] == FrequencyField(info.rxFrequency) &&
      (forall k :: 13 <= k < 18 ==> r[k] == ' ') &&
      (forall k :: 18 <= k < 28 || 30 <= k < 32 || 33 <= k < 37 ==> r[k] == '0') &&
      r[28] == Flag(info.isTransmitting)[0] && r[29] == ModeCode(info.mode)[0] &&
      r[32] == Flag(info.isSplit)[0] && r[37] == ';'
  {
    var f := FrequencyField(info.rxFrequency);
    var t := IfTail(info);
    var r := IfResponse(info);
    IfTailLayout(info);
    assert |f| == 11;
    assert r == "IF" + (f + t);
    assert r[2..13] == f;
    assert forall k :: 13 <= k < 38 ==> r[k] == t[k - 13];
  }

  /** The replies to the snapshot queries, each from its own field. */
  lemma QueryReplies(info: RadioInfo)
    ensures ProcessCommand(info, "FA;") == "FA" + FrequencyField(info.rxFrequency) + ";"
    ensures ProcessCommand(info, "FB;") == "FB" + FrequencyField(info.txFrequency) + ";"
    ensures ProcessCommand(info, "MD;") == "MD" + ModeCode(info.mode) + ";"
    ensures ProcessCommand(info, "TX;") == "TX" + Flag(info.isTransmitting) + ";"
    ensures ProcessCommand(info, "SP;") == "SP" + Flag(info.isSplit) + ";"
    ensures ProcessCommand(info, "IF;") == IfResponse(info)
  {
    var fa, fb, md, tx, sp, iff := "FA;", "FB;", "MD;", "TX;", "SP;", "IF;";
    assert |fa| == 3 && fa[2] == ';' && fa[0] == 'F' && fa[1] == 'A';
    assert |fb| == 3 && fb[2] == ';' && fb[0] == 'F' && fb[1] == 'B';
    assert |md| == 3 && md[2] == ';' && md[0] == 'M' && md[1] == 'D';
    assert |tx| == 3 && tx[2] == ';' && tx[0] == 'T' && tx[1] == 'X';
    assert |sp| == 3 && sp[2] == ';' && sp[0] == 'S' && sp[1] == 'P';
    assert |iff| == 3 && iff[2] == ';' && iff[0] == 'I' && iff[1] == 'F';
  }

  /** The IF; sentence tells the same story as the FA;, TX;, MD; and SP; replies. */
  lemma IfAgreesWithQueries(info: RadioInfo)
    requires info.rxFrequency.Some? ==> |info.rxFrequency.value| <= 11
    ensures var r, fa := ProcessCommand(info, "IF;"), ProcessCommand(info, "FA;");
      |r| == 38 && |fa| == 14 && r[2..13] == fa[2..13]
    ensures var r, tx, md, sp := ProcessCommand(info, "IF;"), ProcessCommand(info, "TX;"),
        ProcessCommand(info, "MD;"), ProcessCommand(info, "SP;");
      |r| == 38 && |tx| == 4 && |md| == 4 && |sp| == 4 &&
      r[28] == tx[2] && r[29] == md[2] && r[32] == sp[2]
  {
    QueryReplies(info);
    IfLayout(info);
    var f := FrequencyField(info.rxFrequency);
    var fa := "FA" + f + ";";
    assert |f| == 11 && fa[2..13] == f;
    var tx, md, sp := "TX" + Flag(info.isTransmitting) + ";", "MD" + ModeCode(info.mode) + ";", "SP" + Flag(info.isSplit) + ";";
    assert |tx| == 4 && tx[2] == Flag(info.isTransmitting)[0];
    assert |md| == 4 && md[2] == ModeCode(info.mode)[0];
    assert |sp| == 4 && sp[2] == Flag(info.isSplit)[0];
  }

  /** An FA; or FB; reply denotes the snapshot's frequency: zero padding keeps its value. */
  lemma FrequencyReplyValue(info: RadioInfo)
    requires info.rxFrequency.Some? && AllDigits(info.rxFrequency.value)
    ensures var r := ProcessCommand(info, "FA;");
      AllDigits(r[2..|r| - 1]) && DigitsValue(r[2..|r| - 1]) == DigitsValue(info.rxFrequency.value)
  {
    var f := FrequencyField(info.rxFrequency);
    ZeroPadPreservesValue(info.rxFrequency.value, 11);
    var r := "FA" + f + ";";
    assert r[2..|r| - 1] == f;
  }

  /** An absent frequency reads as 11 zeros, a value of zero. */
  lemma AbsentFrequencyReply(info: RadioInfo)
    requires info.rxFrequency.None?
    ensures ProcessCommand(info, "FA;") == "FA00000000000;"
  {
    assert Repeat('0', 11) == "00000000000";
  }

  lemma FrequencyReplyExample()
    ensures ProcessCommand(EmptyRadioInfo.(rxFrequency := Some("14195000")), "FA;") == "FA00014195000;"
  {
    var info := EmptyRadioInfo.(rxFrequency := Some("14195000"));
    QueryReplies(info);
    assert FrequencyField(info.rxFrequency) == "00014195000" by {
      assert PadLeft("14195000", 11, '0') == "000" + "14195000";
    }
  }

  /** A read holding several commands, or a lower-case one, is not understood. */
  lemma UnknownCommandExamples(info: RadioInfo)
    ensures ProcessCommand(info, "FA;FB;") == "?;"
    ensures ProcessCommand(info, "fa;") == "?;"
    ensures ProcessCommand(info, "FA") == "?;"
  {
    assert "FA;FB;" != "FA;" && "fa;" != "FA;" && "FA" != "FA;";
  }

  // ----- A client session -----

  /** What a session sees, in order: a chunk read from the client, or a new snapshot from the listener. */
  datatype Event = Read(chunk: string) | Snapshot(info: RadioInfo)

  /** The replies written in a session that starts with snapshot info. */
  function SessionReplies(info: RadioInfo, events: seq<Event>): (r: seq<string>)
    ensures |r| <= |events|
    decreases |events|
  {
    if events == [] then []
    else match events[0]
      case Snapshot(e) => SessionReplies(e, events[1..])
      case Read(chunk) =>
        var command := TrimEnd(chunk);
        if command == [] then [] else [ProcessCommand(info, command)] + SessionReplies(info, events[1..])
  }

  /** Every reply written is a complete, ';'-terminated answer. */
  lemma {:induction false} SessionRepliesTerminated(info: RadioInfo, events: seq<Event>)
    ensures forall k :: 0 <= k < |SessionReplies(info, events)| ==>
      var w := SessionReplies(info, events)[k]; |w| >= 2 && w[|w| - 1] == ';'
    decreases |events|
  {
    if events != [] {
      match events[0]
      case Snapshot(e) => SessionRepliesTerminated(e, events[1..]);
      case Read(chunk) => SessionRepliesTerminated(info, events[1..]);
    }
  }

  /** Without new snapshots, the k-th non-empty read is answered from the one snapshot. */
  lemma {:induction false} RepliesToReads(info: RadioInfo, events: seq<Event>)
    requires forall k :: 0 <= k < |events| ==> events[k].Read? && TrimEnd(events[k].chunk) != []
    ensures |SessionReplies(info, events)| == |events|
    ensures forall k :: 0 <= k < |events| ==>
      SessionReplies(info, events)[k] == ProcessCommand(info, TrimEnd(events[k].chunk))
    decreases |events|
  {
    if events != [] {
      RepliesToReads(info, events[1..]);
    }
  }

  /** Nothing after an empty read is answered. */
  lemma {:induction false} EmptyReadEndsSession(info: RadioInfo, before: seq<Event>, chunk: string, after: seq<Event>)
    requires TrimEnd(chunk) == []
    ensures SessionReplies(info, before + [Read(chunk)] + after) == SessionReplies(info, before)
    decreases |before|
  {
    var events := before + [Read(chunk)] + after;
    if before == [] {
      assert events[0] == Read(chunk);
    } else {
      assert events[0] == before[0];
      assert events[1..] == before[1..] + [Read(chunk)] + after;
      match before[0]
      case Snapshot(e) => EmptyReadEndsSession(e, before[1..], chunk, after);
      case Read(c) => EmptyReadEndsSession(info, before[1..], chunk, after);
    }
  }

  /** A new snapshot replaces the old one outright: later replies do not depend on what came before it. */
  lemma SnapshotReplaces(a: RadioInfo, b: RadioInfo, e: RadioInfo, events: seq<Event>)
    ensures SessionReplies(a, [Snapshot(e)] + events) == SessionReplies(b, [Snapshot(e)] + events)
  {
    assert ([Snapshot(e)] + events)[1..] == events;
  }

  /** The snapshot a session leaves behind: the last one before the first empty read, or info when there is none. */
  function SessionInfo(info: RadioInfo, events: seq<Event>): RadioInfo
    decreases |events|
  {
    if events == [] then info
    else match events[0]
      case Snapshot(e) => SessionInfo(e, events[1..])
      case Read(chunk) => if TrimEnd(chunk) == [] then info else SessionInfo(info, events[1..])
  }

  /** Snapshots that arrive after an empty read are not taken in by the session. */
  lemma {:induction false} EmptyReadFreezesSnapshot(info: RadioInfo, before: seq<Event>, chunk: string, after: seq<Event>)
    requires TrimEnd(chunk) == []
    ensures SessionInfo(info, before + [Read(chunk)] + after) == SessionInfo(info, before)
    decreases |before|
  {
    var events := before + [Read(chunk)] + after;
    if before == [] {
      assert events[0] == Read(chunk);
    } else {
      assert events[0] == before[0];
      assert events[1..] == before[1..] + [Read(chunk)] + after;
      match before[0]
      case Snapshot(e) => EmptyReadFreezesSnapshot(e, before[1..], chunk, after);
      case Read(c) => EmptyReadFreezesSnapshot(info, before[1..], chunk, after);
    }
  }

  /** A session of only non-empty reads and a final snapshot leaves that snapshot. */
  lemma {:induction false} LastSnapshotKept(info: RadioInfo, chunks: seq<Event>, e: RadioInfo)
    requires forall k :: 0 <= k < |chunks| ==> chunks[k].Read? && TrimEnd(chunks[k].chunk) != []
    ensures SessionInfo(info, chunks + [Snapshot(e)]) == e
    decreases |chunks|
  {
    var events := chunks + [Snapshot(e)];
    if chunks == [] {
      assert events[0] == Snapshot(e) && events[1..] == [];
    } else {
      assert events[0] == chunks[0];
      assert events[1..] == chunks[1..] + [Snapshot(e)];
      LastSnapshotKept(info, chunks[1..], e);
    }
  }

  /** FakeTs590Sg: the cached snapshot and the per-read dispatch of a client session. */
  class FakeTs590Sg {
    var lastReceivedInfo: RadioInfo

    constructor ()
      ensures lastReceivedInfo == EmptyRadioInfo
    {
      lastReceivedInfo := EmptyRadioInfo;
    }

    method OnRadioInfoReceived(e: RadioInfo)
      modifies this
      ensures lastReceivedInfo == e
    {
      lastReceivedInfo := e;
    }

    /** Serves one client: each read is trimmed at the end and answered, until an empty read. */
    method HandleClient(events: seq<Event>) returns (writes: seq<string>)
      modifies this
      ensures writes == SessionReplies(old(lastReceivedInfo), events)
      ensures lastReceivedInfo == SessionInfo(old(lastReceivedInfo), events)
    {
      writes := [];
      var i := 0;
      while i < |events|
        invariant 0 <= i <= |events|
        invariant writes + SessionReplies(lastReceivedInfo, events[i..]) == SessionReplies(old(lastReceivedInfo), events)
        invariant SessionInfo(lastReceivedInfo, events[i..]) == SessionInfo(old(lastReceivedInfo), events)
        decreases |events| - i
      {
        assert events[i..][1..] == events[i + 1..];
        match events[i] {
          case Snapshot(e) =>
            OnRadioInfoReceived(e);
          case Read(chunk) =>
            var command := TrimEnd(chunk);
            if command == [] {
              assert writes + [] == writes;
              return;
            }
            var response := ProcessCommand(lastReceivedInfo, command);
            writes := writes + [response];
        }
        i := i + 1;
      }
    }
  }
}
