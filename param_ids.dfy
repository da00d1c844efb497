/** Parameter ids: the ones the engine names outright, the builders the
    per-port getters and setters use, the substring conventions that sort a
    changed id into a category, and the LED-identify value conversions. */
module ParamIds {
  import opened Strings
  import opened Records

  /** Mode change: the number of ports was switched (4, 8, 16). */
  const SignalSwitchingId: string := "eParamID_SignalSwitching"
  /** Device temperature. */
  const TemperatureId: string := "eParamID_Temperature"

  /** Which of the two label lines of a port button. */
  datatype Line = Line1 | Line2

  /** eParamID_XPT_Source{n}_Line_1 and its three siblings. */
  function LineId(pT: PortType, portNumber: int, line: Line): string
  {
    "eParamID_XPT_" + (if pT == Source then "Source" else "Destination") + IntToString(portNumber)
      + (if line == Line1 then "_Line_1" else "_Line_2")
  }

  /** eParamID_XPT_Destination{n}_Status: the source routed to destination n. */
  function DestinationStatusId(destNum: int): string
  {
    "eParamID_XPT_Destination" + IntToString(destNum) + "_Status"
  }

  /** eParamID_Button_Settings_{n}: the appearance class of button n. */
  function ButtonSettingsId(pNum: int): string
  {
    "eParamID_Button_Settings_" + IntToString(pNum)
  }

  /** eParamID_XPT_Destination{n}_Locked: the lock of destination n. */
  function DestinationLockedId(pNum: int): string
  {
    "eParamID_XPT_Destination" + IntToString(pNum) + "_Locked"
  }

  /** A crosspoint status change: the id mentions both "_Status" and "Destination". */
  predicate IsStatusId(id: string)
  {
    Contains(id, "_Status") && Contains(id, "Destination")
  }

  /** A label change: the id mentions both "_XPT_" and "_Line_". */
  predicate IsTextId(id: string)
  {
    Contains(id, "_XPT_") && Contains(id, "_Line_")
  }

  /** A button appearance change: the id mentions "Button_Settings_". */
  predicate IsColorId(id: string)
  {
    Contains(id, "Button_Settings_")
  }

  /** A destination lock change: the id mentions "_Locked". */
  predicate IsLockId(id: string)
  {
    Contains(id, "_Locked")
  }

  /** The value written to switch the LED identify function on or off. */
  function ConvertBoolToNumber(status: bool): string
  {
    if status then "1" else "0"
  }

  /** The LED identify state read back from the parameter's value name. */
  function ConvertNumberToBool(status: string): bool
  {
    status == "Blink"
  }

  /** The write side sends "1"/"0", distinct for on and off; the read side
      tests the value name the device reports against "Blink", so neither of
      the strings the write side sends would pass that test. What the device
      reports after a write is not part of this model. */
  lemma LedValueIsNotItsName(status: bool)
    ensures ConvertBoolToNumber(true) != ConvertBoolToNumber(false)
    ensures !ConvertNumberToBool(ConvertBoolToNumber(status))
  {
  }

  /** Every character of a decimal representation is a digit, so differs from c. */
  lemma DigitsExclude(n: nat, c: char)
    requires !IsDigit(c)
    ensures forall k :: 0 <= k < |NatToString(n)| ==> NatToString(n)[k] != c
  {
  }

  /** The number in a destination status id is recovered from it, without its
      sign when negative: "-" is not a digit. */
  lemma StatusIdRoundTrip(destNum: int)
    requires -Int32Max <= destNum <= Int32Max
    ensures IsStatusId(DestinationStatusId(destNum))
    ensures FirstNumber(DestinationStatusId(destNum)) == Some(if destNum < 0 then -destNum else destNum)
  {
    var p := if destNum < 0 then "eParamID_XPT_Destination-" else "eParamID_XPT_Destination";
    var magnitude: nat := if destNum < 0 then -destNum else destNum;
    var id := DestinationStatusId(destNum);
    assert id == p + NatToString(magnitude) + "_Status";
    EmbeddedStatus(p, magnitude);
  }

  lemma EmbeddedStatus(p: string, n: nat)
    requires p == "eParamID_XPT_Destination-" || p == "eParamID_XPT_Destination"
    requires n <= Int32Max
    ensures IsStatusId(p + NatToString(n) + "_Status")
    ensures FirstNumber(p + NatToString(n) + "_Status") == Some(n)
  {
    assert forall i :: 0 <= i < |p| ==> !IsDigit(p[i]);
    assert "_Status"[0] == '_';
    FirstNumberOfEmbedded(p, n, "_Status");
    assert p[13..24] == "Destination";
    ContainsAt(p, "Destination", 13);
    ContainsInPrefix(p, NatToString(n), "Destination");
    ContainsInPrefix(p + NatToString(n), "_Status", "Destination");
    ContainsAt("_Status", "_Status", 0);
    ContainsInSuffix(p + NatToString(n), "_Status", "_Status");
  }

  /** The number in a button settings id is recovered from it. */
  lemma ButtonSettingsIdRoundTrip(pNum: int)
    requires 0 <= pNum <= Int32Max
    ensures IsColorId(ButtonSettingsId(pNum))
    ensures FirstNumber(ButtonSettingsId(pNum)) == Some(pNum)
  {
    var p := "eParamID_Button_Settings_";
    assert ButtonSettingsId(pNum) == p + NatToString(pNum) + "";
    FirstNumberOfEmbedded(p, pNum, "");
    assert p[9..25] == "Button_Settings_";
    ContainsAt(p, "Button_Settings_", 9);
    ContainsInPrefix(p, NatToString(pNum), "Button_Settings_");
  }

  /** The number in a destination lock id is recovered from it. */
  lemma LockedIdRoundTrip(pNum: int)
    requires 0 <= pNum <= Int32Max
    ensures IsLockId(DestinationLockedId(pNum))
    ensures FirstNumber(DestinationLockedId(pNum)) == Some(pNum)
  {
    var p := "eParamID_XPT_Destination";
    FirstNumberOfEmbedded(p, pNum, "_Locked");
    ContainsAt("_Locked", "_Locked", 0);
    ContainsInSuffix(p + NatToString(pNum), "_Locked", "_Locked");
  }

  /** A label id is a text id whose number, line and port type are recovered
      from it by the tests the classifier applies. */
  lemma LineIdRoundTrip(pT: PortType, portNumber: int, line: Line)
    requires 0 <= portNumber <= Int32Max
    ensures IsTextId(LineId(pT, portNumber, line))
    ensures FirstNumber(LineId(pT, portNumber, line)) == Some(portNumber)
    ensures EndsWithIgnoreCase(LineId(pT, portNumber, line), "Line_1") <==> line == Line1
    ensures EndsWithIgnoreCase(LineId(pT, portNumber, line), "Line_2") <==> line == Line2
    ensures Contains(LineId(pT, portNumber, line), "Source") <==> pT == Source
  {
    var p := "eParamID_XPT_" + (if pT == Source then "Source" else "Destination");
    var suffix := if line == Line1 then "_Line_1" else "_Line_2";
    assert LineId(pT, portNumber, line) == p + NatToString(portNumber) + suffix;
    if pT == Source {
      assert p == "eParamID_XPT_Source";
      EmbeddedLine("eParamID_XPT_Source", portNumber, suffix);
      ContainsAt(p, "Source", 13);
      ContainsInPrefix(p, NatToString(portNumber), "Source");
      ContainsInPrefix(p + NatToString(portNumber), suffix, "Source");
    } else {
      assert p == "eParamID_XPT_Destination";
      EmbeddedLine("eParamID_XPT_Destination", portNumber, suffix);
      DestinationLineLacksSource(portNumber, suffix);
    }
  }

  /** Category, number and line of a label id with a given prefix. */
  lemma EmbeddedLine(p: string, n: nat, suffix: string)
    requires p == "eParamID_XPT_Source" || p == "eParamID_XPT_Destination"
    requires suffix == "_Line_1" || suffix == "_Line_2"
    requires n <= Int32Max
    ensures IsTextId(p + NatToString(n) + suffix)
    ensures FirstNumber(p + NatToString(n) + suffix) == Some(n)
    ensures EndsWithIgnoreCase(p + NatToString(n) + suffix, "Line_1") <==> suffix == "_Line_1"
    ensures EndsWithIgnoreCase(p + NatToString(n) + suffix, "Line_2") <==> suffix == "_Line_2"
  {
    LineNumber(p, n, suffix);
    LineCategory(p, NatToString(n), suffix);
    LineEnding(p + NatToString(n), suffix);
  }

  lemma LineNumber(p: string, n: nat, suffix: string)
    requires p == "eParamID_XPT_Source" || p == "eParamID_XPT_Destination"
    requires suffix == "_Line_1" || suffix == "_Line_2"
    requires n <= Int32Max
    ensures FirstNumber(p + NatToString(n) + suffix) == Some(n)
  {
    assert forall i :: 0 <= i < |p| ==> !IsDigit(p[i]);
    assert suffix[0] == '_';
    FirstNumberOfEmbedded(p, n, suffix);
  }

  lemma LineCategory(p: string, ds: string, suffix: string)
    requires p == "eParamID_XPT_Source" || p == "eParamID_XPT_Destination"
    requires suffix == "_Line_1" || suffix == "_Line_2"
    ensures IsTextId(p + ds + suffix)
  {
    assert p[8..13] == "_XPT_";
    ContainsAt(p, "_XPT_", 8);
    ContainsInPrefix(p, ds, "_XPT_");
    ContainsInPrefix(p + ds, suffix, "_XPT_");
    assert suffix[0..6] == "_Line_";
    ContainsAt(suffix, "_Line_", 0);
    ContainsInSuffix(p + ds, suffix, "_Line_");
  }

  lemma LineEnding(front: string, suffix: string)
    requires suffix == "_Line_1" || suffix == "_Line_2"
    ensures EndsWithIgnoreCase(front + suffix, "Line_1") <==> suffix == "_Line_1"
    ensures EndsWithIgnoreCase(front + suffix, "Line_2") <==> suffix == "_Line_2"
  {
    var id := front + suffix;
    assert id[|id| - 6..] == suffix[1..];
    assert UpperAscii(id[|id| - 1]) == UpperAscii(suffix[6]);
  }

  /** A destination label id has no capital S, so it does not mention "Source". */
  lemma DestinationLineLacksSource(n: nat, suffix: string)
    requires suffix == "_Line_1" || suffix == "_Line_2"
    ensures !Contains("eParamID_XPT_Destination" + NatToString(n) + suffix, "Source")
  {
    var p := "eParamID_XPT_Destination";
    var ds := NatToString(n);
    var id := p + ds + suffix;
    DigitsExclude(n, 'S');
    assert 'S' !in p;
    assert 'S' !in suffix;
    forall k | 0 <= k < |id|
      ensures id[k] != 'S'
    {
      if k < |p| {
        assert id[k] == p[k] && p[k] in p;
      } else if k < |p| + |ds| {
        assert id[k] == ds[k - |p|];
      } else {
        assert id[k] == suffix[k - |p| - |ds|] && suffix[k - |p| - |ds|] in suffix;
      }
    }
    NotContainsMissingChar(id, "Source", 0);
  }
}
