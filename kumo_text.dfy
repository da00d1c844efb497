/** The label record of one port button: two text lines, each with a flag that
    its setter raises; the consumer clears the flags after reading them. */
module PortText {
  import opened Strings
  import opened Records

  class KumoText {
    var pT: PortType
    var portNum: int
    /** The backing fields of Line1Text and Line2Text; None stands for null. */
    var line1Text: Option<string>
    var line2Text: Option<string>
    var line1Changed: bool
    var line2Changed: bool

    /** A fresh record: default port type and number, no text, no flag raised. */
    constructor ()
      ensures View() == TextView(Source, 0, None, None, false, false)
    {
      pT := Source;
      portNum := 0;
      line1Text := None;
      line2Text := None;
      line1Changed := false;
      line2Changed := false;
    }

    /** What the record holds, as a value. */
    function View(): TextView
      reads this
    {
      TextView(pT, portNum, line1Text, line2Text, line1Changed, line2Changed)
    }

    /** Line1Text setter: stores the value, null or unchanged included, and
        raises Line1Changed; line 2 is untouched. */
    method SetLine1Text(value: Option<string>)
      modifies this
      ensures View() == old(View()).(line1 := value, line1Changed := true)
    {
      line1Text := value;
      line1Changed := true;
    }

    /** Line2Text setter: stores the value and raises Line2Changed; line 1 is
        untouched. */
    method SetLine2Text(value: Option<string>)
      modifies this
      ensures View() == old(View()).(line2 := value, line2Changed := true)
    {
      line2Text := value;
      line2Changed := true;
    }

    /** The public Line1Changed setter: only the flag changes. */
    method SetLine1Changed(value: bool)
      modifies this
      ensures View() == old(View()).(line1Changed := value)
    {
      line1Changed := value;
    }

    /** The public Line2Changed setter: only the flag changes. */
    method SetLine2Changed(value: bool)
      modifies this
      ensures View() == old(View()).(line2Changed := value)
    {
      line2Changed := value;
    }
  }

  /** The values held by a list of label records, in order. */
  function Views(ts: seq<KumoText>): (r: seq<TextView>)
    reads set t | t in ts
    ensures |r| == |ts|
    ensures forall i :: 0 <= i < |ts| ==> r[i] == ts[i].View()
  {
    if ts == [] then [] else [ts[0].View()] + Views(ts[1..])
  }

  /** Appending a record appends its value. */
  lemma ViewsAppend(ts: seq<KumoText>, t: KumoText)
    ensures Views(ts + [t]) == Views(ts) + [t.View()]
  {
    var l := Views(ts + [t]);
    var r := Views(ts) + [t.View()];
    assert |l| == |r|;
    forall i | 0 <= i < |l|
      ensures l[i] == r[i]
    {
      if i < |ts| {
        assert (ts + [t])[i] == ts[i];
      }
    }
  }
}
