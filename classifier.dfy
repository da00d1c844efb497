/** The event classifier: how one batch of raw change records becomes the
    typed categories of a KumoEvent (crosspoints, labels, colours, locks and
    temperature), or the mode-change reset. Each category is specified by a
    function over the batch, and the loops that build it are proved equal to
    that function. A record whose id has no run of digits (or one beyond
    int.MaxValue) makes Convert.ToInt32 throw; the whole classification then
    fails, which is the None result of every category. */
module Classifier {
  import opened Strings
  import opened Records
  import opened ParamIds
  import opened PortText

  // ---------------------------------------------------------------------------
  // Selecting the records of one category

  datatype Category = MatrixStatus | Label | ButtonColor | DestinationLock

  /** The substring convention that puts an id in a category. */
  predicate Selects(c: Category, id: string)
  {
    match c
    case MatrixStatus => IsStatusId(id)
    case Label => IsTextId(id)
    case ButtonColor => IsColorId(id)
    case DestinationLock => IsLockId(id)
  }

  /** values.Where(...).ToList(): the records of one category, in batch order. */
  function Where(values: seq<EventData>, c: Category): (r: seq<EventData>)
    ensures |r| <= |values|
  {
    if values == [] then []
    else (if Selects(c, values[0].paramId) then [values[0]] else []) + Where(values[1..], c)
  }

  /** Where keeps exactly the records of the category. */
  lemma {:induction false} WhereMembers(values: seq<EventData>, c: Category)
    ensures forall e :: e in Where(values, c) <==> e in values && Selects(c, e.paramId)
    decreases |values|
  {
    if values != [] {
      WhereMembers(values[1..], c);
      assert forall e :: e in values <==> e == values[0] || e in values[1..];
    }
  }

  /** Where distributes over concatenation: it keeps every record of the
      category, once each, in batch order. */
  lemma {:induction false} WhereAppend(a: seq<EventData>, b: seq<EventData>, c: Category)
    ensures Where(a + b, c) == Where(a, c) + Where(b, c)
    decreases |a|
  {
    if a != [] {
      assert (a + b)[0] == a[0];
      assert (a + b)[1..] == a[1..] + b;
      WhereAppend(a[1..], b, c);
    } else {
      assert a + b == b;
    }
  }

  /** A one-record batch selects its record exactly when the id fits the category. */
  lemma WhereSingle(e: EventData, c: Category)
    ensures Where([e], c) == if Selects(c, e.paramId) then [e] else []
  {
    assert [e][1..] == [];
  }

  /** Every record of the list carries a port number Convert.ToInt32 accepts. */
  predicate Numbered(list: seq<EventData>)
    decreases |list|
  {
    list == [] || (Numbered(list[..|list| - 1]) && FirstNumber(list[|list| - 1].paramId).Some?)
  }

  /** Numbered holds exactly when no record of the list makes the conversion
      throw; every category of a batch is present exactly when its list is
      Numbered. */
  lemma {:induction false} NumberedIff(list: seq<EventData>)
    ensures Numbered(list) <==> forall k :: 0 <= k < |list| ==> FirstNumber(list[k].paramId).Some?
    decreases |list|
  {
    if list != [] {
      var front := list[..|list| - 1];
      NumberedIff(front);
      assert forall k :: 0 <= k < |front| ==> front[k] == list[k];
    }
  }

  /** A record whose id carries no usable number spoils the whole list. */
  lemma NotNumberedAt(list: seq<EventData>, i: nat)
    requires i < |list| && FirstNumber(list[i].paramId).None?
    ensures !Numbered(list)
  {
    NumberedIff(list);
  }

  /** A record with a usable number extends a Numbered prefix. */
  lemma NumberedStep(list: seq<EventData>, i: nat)
    requires i < |list| && Numbered(list[..i]) && FirstNumber(list[i].paramId).Some?
    ensures Numbered(list[..i + 1])
  {
    assert list[..i + 1][..i] == list[..i];
  }

  /** The port number embedded in a record's id. */
  function PortNumber(e: EventData): (r: int)
    requires FirstNumber(e.paramId).Some?
    ensures 0 <= r <= Int32Max
  {
    FirstNumber(e.paramId).value
  }

  // ---------------------------------------------------------------------------
  // Colours

  /** The class-name tokens, tested in this order. */
  const ColorTokens: seq<string> :=
    ["color_1", "color_2", "color_3", "color_4", "color_5", "color_6", "color_7", "color_8", "color_9"]

  /** The colour of each token, at the token's position. */
  const Palette: seq<string> :=
    ["#cb7676", "#e6a52e", "#d9cb7e", "#87b4c8", "#64c896", "#ade68e", "#7888cb", "#9b8ce1", "#c84b91"]

  /** The colour of a class name that mentions no token. */
  const DefaultColor: string := "#87b4c8"

  /** The colour of the first token from position k on that occurs in the
      class name, DefaultColor when none does. */
  function ColorFrom(className: string, k: nat): string
    requires k <= 9
    decreases 9 - k
  {
    if k == 9 then DefaultColor
    else if Contains(className, ColorTokens[k]) then Palette[k]
    else ColorFrom(className, k + 1)
  }

  /** GetColorByClass: the chain of tests color_1, color_2, .. color_9, each a
      substring test on the class name, written as a walk over the token
      table. */
  function GetColorByClass(className: string): string
  {
    ColorFrom(className, 0)
  }

  /** Every class name gets one of the nine palette colours. */
  lemma {:induction false} ColorFromInPalette(className: string, k: nat)
    requires k <= 9
    ensures ColorFrom(className, k) in Palette
    decreases 9 - k
  {
    if k < 9 && !Contains(className, ColorTokens[k]) {
      ColorFromInPalette(className, k + 1);
    }
  }

  /** The walk from position k returns the colour of the first token from k on
      that occurs, and DefaultColor when none does. */
  lemma {:induction false} ColorFromFirstHit(className: string, k: nat)
    requires k <= 9
    ensures forall j :: k <= j < 9 ==>
              (Contains(className, ColorTokens[j]) && (forall i :: k <= i < j ==> !Contains(className, ColorTokens[i])))
              ==> ColorFrom(className, k) == Palette[j]
    ensures (forall j :: k <= j < 9 ==> !Contains(className, ColorTokens[j])) ==> ColorFrom(className, k) == DefaultColor
    decreases 9 - k
  {
    if k < 9 {
      ColorFromFirstHit(className, k + 1);
    }
  }

  /** The first token of color_1 .. color_9 that occurs in the class name
      decides its colour; a class name with none of them gets DefaultColor;
      every class name gets a palette colour. */
  lemma ColorByClassFirstHit(className: string)
    ensures forall k :: 0 <= k < 9 ==>
              (Contains(className, ColorTokens[k]) && (forall j :: 0 <= j < k ==> !Contains(className, ColorTokens[j])))
              ==> GetColorByClass(className) == Palette[k]
    ensures (forall k :: 0 <= k < 9 ==> !Contains(className, ColorTokens[k])) ==> GetColorByClass(className) == DefaultColor
    ensures GetColorByClass(className) in Palette
  {
    ColorFromFirstHit(className, 0);
    ColorFromInPalette(className, 0);
  }

  /** Tokens are substrings, so "color_10" hits color_1 first. */
  lemma ColorByClassTenth(className: string)
    requires className == "color_10"
    ensures GetColorByClass(className) == "#cb7676"
  {
    ContainsAt(className, "color_1", 0);
    assert ColorTokens[0] == "color_1";
    assert ColorFrom(className, 0) == Palette[0];
  }

  /** A token may sit anywhere in the class name; earlier tokens that do not
      occur are passed over. */
  lemma ColorByClassEmbedded(className: string)
    requires className == "foo_color_3_bar"
    ensures GetColorByClass(className) == "#d9cb7e"
  {
    NotContainsMissingChar(className, "color_1", 6);
    NotContainsMissingChar(className, "color_2", 6);
    assert className[4..11] == "color_3";
    ContainsAt(className, "color_3", 4);
    assert ColorTokens[0] == "color_1" && ColorTokens[1] == "color_2" && ColorTokens[2] == "color_3";
    assert ColorFrom(className, 2) == Palette[2];
    assert ColorFrom(className, 1) == ColorFrom(className, 2);
  }

  /** A colour record: raw indices above the port count denote destinations and
      are shifted down by it; the others denote sources. */
  function ColorOf(e: EventData, numberOfPorts: int): ColorRecord
    requires FirstNumber(e.paramId).Some?
  {
    var portNum := PortNumber(e);
    if portNum > numberOfPorts
    then ColorRecord(Destination, portNum - numberOfPorts, GetColorByClass(e.nameValue))
    else ColorRecord(Source, portNum, GetColorByClass(e.nameValue))
  }

  /** The colour records of a list, in order. */
  function ColorsOf(list: seq<EventData>, numberOfPorts: int): (r: seq<ColorRecord>)
    requires Numbered(list)
    ensures |r| == |list|
    decreases |list|
  {
    if list == [] then []
    else ColorsOf(list[..|list| - 1], numberOfPorts) + [ColorOf(list[|list| - 1], numberOfPorts)]
  }

  /** The colour records of a batch, one per button-settings record in batch
      order, or None when one of them has no usable port number. */
  function ChangedColors(values: seq<EventData>, numberOfPorts: int): Option<seq<ColorRecord>>
  {
    var list := Where(values, ButtonColor);
    if Numbered(list) then Some(ColorsOf(list, numberOfPorts)) else None
  }

  /** Colour record c reports event e: it carries the colour of e's class
      name, and its port number is e's raw index, shifted down by the port
      count exactly when that index exceeds it. */
  predicate ReportsColor(e: EventData, c: ColorRecord, numberOfPorts: int)
  {
    && c.colorHex == GetColorByClass(e.nameValue)
    && FirstNumber(e.paramId) == Some(if c.pT == Destination then c.portNum + numberOfPorts else c.portNum)
    && (c.pT == Destination ==> 1 <= c.portNum)
    && (c.pT == Source ==> c.portNum <= numberOfPorts)
  }

  lemma {:induction false} ColorsOfMeaning(list: seq<EventData>, numberOfPorts: int)
    requires Numbered(list)
    ensures forall k :: 0 <= k < |list| ==> ReportsColor(list[k], ColorsOf(list, numberOfPorts)[k], numberOfPorts)
    decreases |list|
  {
    if list != [] {
      var front := list[..|list| - 1];
      var last := list[|list| - 1];
      var r := ColorsOf(list, numberOfPorts);
      ColorsOfMeaning(front, numberOfPorts);
      assert r == ColorsOf(front, numberOfPorts) + [ColorOf(last, numberOfPorts)];
      forall k | 0 <= k < |list|
        ensures ReportsColor(list[k], r[k], numberOfPorts)
      {
        if k < |front| {
          assert list[k] == front[k] && r[k] == ColorsOf(front, numberOfPorts)[k];
        } else {
          assert list[k] == last && r[k] == ColorOf(last, numberOfPorts);
        }
      }
    }
  }

  /** The colour records of a batch: present exactly when every button-settings
      record has a usable port number; then one per such record, in order,
      each reporting its record. */
  lemma ChangedColorsMeaning(values: seq<EventData>, numberOfPorts: int)
    ensures ChangedColors(values, numberOfPorts).Some? <==> Numbered(Where(values, ButtonColor))
    ensures ChangedColors(values, numberOfPorts).Some? ==>
              && |ChangedColors(values, numberOfPorts).value| == |Where(values, ButtonColor)|
              && forall k :: 0 <= k < |Where(values, ButtonColor)| ==>
                   ReportsColor(Where(values, ButtonColor)[k], ChangedColors(values, numberOfPorts).value[k], numberOfPorts)
  {
    var list := Where(values, ButtonColor);
    if Numbered(list) {
      ColorsOfMeaning(list, numberOfPorts);
    }
  }

  /** GetChangedColor: the loop over the button-settings records. Each record
      is appended as a copy, so reusing one record value across iterations
      does not alias the list entries. */
  method GetChangedColor(values: seq<EventData>, numberOfPorts: int) returns (r: Option<seq<ColorRecord>>)
    ensures r == ChangedColors(values, numberOfPorts)
  {
    var kumoColorList: seq<ColorRecord> := [];
    var dataList := Where(values, ButtonColor);
    var i := 0;
    while i < |dataList|
      invariant 0 <= i <= |dataList|
      invariant Numbered(dataList[..i])
      invariant kumoColorList == ColorsOf(dataList[..i], numberOfPorts)
    {
      var className := dataList[i].nameValue;
      var parsed := FirstNumber(dataList[i].paramId);
      if parsed.None? {
        NotNumberedAt(dataList, i);
        return None;
      }
      var portNum := parsed.value;
      var pT: PortType;
      if portNum > numberOfPorts {
        pT := Destination;
        portNum := portNum - numberOfPorts;
      } else {
        pT := Source;
      }
      ColorsStep(dataList, i, numberOfPorts);
      assert ColorOf(dataList[i], numberOfPorts) == ColorRecord(pT, portNum, GetColorByClass(className));
      kumoColorList := kumoColorList + [ColorRecord(pT, portNum, GetColorByClass(className))];
      i := i + 1;
    }
    assert dataList[..i] == dataList;
    r := Some(kumoColorList);
  }

  /** Extending a Numbered prefix by a usable record extends its colour records. */
  lemma ColorsStep(list: seq<EventData>, i: nat, numberOfPorts: int)
    requires i < |list| && Numbered(list[..i]) && FirstNumber(list[i].paramId).Some?
    ensures Numbered(list[..i + 1])
    ensures ColorsOf(list[..i + 1], numberOfPorts) == ColorsOf(list[..i], numberOfPorts) + [ColorOf(list[i], numberOfPorts)]
  {
    NumberedStep(list, i);
    assert list[..i + 1][..i] == list[..i];
  }

  /** A one-record batch with a usable button-settings id yields one colour record. */
  lemma SingleColor(e: EventData, numberOfPorts: int)
    requires IsColorId(e.paramId) && FirstNumber(e.paramId).Some?
    ensures ChangedColors([e], numberOfPorts) == Some([ColorOf(e, numberOfPorts)])
  {
    WhereSingle(e, ButtonColor);
    assert [e][..0] == [] && [e][0] == e;
    assert Numbered([e]);
    assert ColorsOf([e], numberOfPorts) == ColorsOf([], numberOfPorts) + [ColorOf(e, numberOfPorts)];
    assert ColorsOf([], numberOfPorts) == [];
    assert ColorsOf([e], numberOfPorts) == [ColorOf(e, numberOfPorts)];
    assert ChangedColors([e], numberOfPorts) == Some(ColorsOf([e], numberOfPorts));
  }

  /** A button-settings change built for raw index n is classified as one
      colour record for n: a destination, shifted down by the port count, when
      n exceeds the count, and a source otherwise. */
  lemma ButtonSettingsColor(n: int, numberOfPorts: int, className: string)
    requires 0 <= n <= Int32Max
    ensures ChangedColors([EventData(ButtonSettingsId(n), "", 0, className, "")], numberOfPorts)
            == Some([if n > numberOfPorts then ColorRecord(Destination, n - numberOfPorts, GetColorByClass(className))
                     else ColorRecord(Source, n, GetColorByClass(className))])
  {
    var e := EventData(ButtonSettingsId(n), "", 0, className, "");
    ButtonSettingsIdRoundTrip(n);
    assert PortNumber(e) == n;
    assert e.nameValue == className;
    assert ColorOf(e, numberOfPorts)
           == if n > numberOfPorts then ColorRecord(Destination, n - numberOfPorts, GetColorByClass(className))
              else ColorRecord(Source, n, GetColorByClass(className));
    SingleColor(e, numberOfPorts);
  }

  /** With eight ports, raw index 10 is destination 2, while 5 and 8 are
      sources: the destination test is strictly "greater than". */
  lemma ColorNormalizationExamples(ten: int, five: int, eight: int, className: string)
    requires ten == 10 && five == 5 && eight == 8
    ensures ChangedColors([EventData(ButtonSettingsId(ten), "", 0, className, "")], eight)
            == Some([ColorRecord(Destination, 2, GetColorByClass(className))])
    ensures ChangedColors([EventData(ButtonSettingsId(five), "", 0, className, "")], eight)
            == Some([ColorRecord(Source, 5, GetColorByClass(className))])
    ensures ChangedColors([EventData(ButtonSettingsId(eight), "", 0, className, "")], eight)
            == Some([ColorRecord(Source, 8, GetColorByClass(className))])
  {
    ButtonSettingsColor(ten, eight, className);
    ButtonSettingsColor(five, eight, className);
    ButtonSettingsColor(eight, eight, className);
  }

  // ---------------------------------------------------------------------------
  // Locks

  /** A lock record: locked exactly when the value name is "Locked", ignoring case. */
  function LockOf(e: EventData): LockRecord
    requires FirstNumber(e.paramId).Some?
  {
    LockRecord(PortNumber(e), EqualsIgnoreCase(e.nameValue, "Locked"))
  }

  /** The lock records of a list, in order. */
  function LocksOf(list: seq<EventData>): (r: seq<LockRecord>)
    requires Numbered(list)
    ensures |r| == |list|
    decreases |list|
  {
    if list == [] then [] else LocksOf(list[..|list| - 1]) + [LockOf(list[|list| - 1])]
  }

  /** The lock records of a batch, one per lock record in batch order. */
  function LockedStatus(values: seq<EventData>): Option<seq<LockRecord>>
  {
    var list := Where(values, DestinationLock);
    if Numbered(list) then Some(LocksOf(list)) else None
  }

  /** Lock record l reports event e: it names e's destination and is locked
      exactly when e's value name is "Locked" in any case. */
  predicate ReportsLock(e: EventData, l: LockRecord)
  {
    && FirstNumber(e.paramId) == Some(l.portNum)
    && (l.isLocked <==> EqualsIgnoreCase(e.nameValue, "Locked"))
  }

  lemma {:induction false} LocksOfMeaning(list: seq<EventData>)
    requires Numbered(list)
    ensures forall k :: 0 <= k < |list| ==> ReportsLock(list[k], LocksOf(list)[k])
    decreases |list|
  {
    if list != [] {
      var front := list[..|list| - 1];
      var last := list[|list| - 1];
      var r := LocksOf(list);
      LocksOfMeaning(front);
      assert r == LocksOf(front) + [LockOf(last)];
      forall k | 0 <= k < |list|
        ensures ReportsLock(list[k], r[k])
      {
        if k < |front| {
          assert list[k] == front[k] && r[k] == LocksOf(front)[k];
        } else {
          assert list[k] == last && r[k] == LockOf(last);
        }
      }
    }
  }

  /** The lock records of a batch: present exactly when every lock record has a
      usable destination number; then one per such record, in order, each
      reporting its record. */
  lemma LockedStatusMeaning(values: seq<EventData>)
    ensures LockedStatus(values).Some? <==> Numbered(Where(values, DestinationLock))
    ensures LockedStatus(values).Some? ==>
              && |LockedStatus(values).value| == |Where(values, DestinationLock)|
              && forall k :: 0 <= k < |Where(values, DestinationLock)| ==>
                   ReportsLock(Where(values, DestinationLock)[k], LockedStatus(values).value[k])
  {
    var list := Where(values, DestinationLock);
    if Numbered(list) {
      LocksOfMeaning(list);
    }
  }

  /** GetLockedStatus: the loop over the lock records. */
  method GetLockedStatus(values: seq<EventData>) returns (r: Option<seq<LockRecord>>)
    ensures r == LockedStatus(values)
  {
    var kumoLockList: seq<LockRecord> := [];
    var dataList := Where(values, DestinationLock);
    var i := 0;
    while i < |dataList|
      invariant 0 <= i <= |dataList|
      invariant Numbered(dataList[..i])
      invariant kumoLockList == LocksOf(dataList[..i])
    {
      var status := EqualsIgnoreCase(dataList[i].nameValue, "Locked");
      var parsed := FirstNumber(dataList[i].paramId);
      if parsed.None? {
        NotNumberedAt(dataList, i);
        return None;
      }
      LocksStep(dataList, i);
      kumoLockList := kumoLockList + [LockRecord(parsed.value, status)];
      i := i + 1;
    }
    assert dataList[..i] == dataList;
    r := Some(kumoLockList);
  }

  /** Extending a Numbered prefix by a usable record extends its lock records. */
  lemma LocksStep(list: seq<EventData>, i: nat)
    requires i < |list| && Numbered(list[..i]) && FirstNumber(list[i].paramId).Some?
    ensures Numbered(list[..i + 1])
    ensures LocksOf(list[..i + 1]) == LocksOf(list[..i]) + [LockOf(list[i])]
  {
    NumberedStep(list, i);
    assert list[..i + 1][..i] == list[..i];
  }

  /** A one-record batch with a usable lock id yields one lock record. */
  lemma SingleLock(e: EventData)
    requires IsLockId(e.paramId) && FirstNumber(e.paramId).Some?
    ensures LockedStatus([e]) == Some([LockOf(e)])
  {
    WhereSingle(e, DestinationLock);
    assert [e][..0] == [] && [e][0] == e;
    assert Numbered([e]);
    assert LocksOf([e]) == LocksOf([]) + [LockOf(e)];
    assert LocksOf([]) == [];
    assert LocksOf([e]) == [LockOf(e)];
    assert LockedStatus([e]) == Some(LocksOf([e]));
  }

  /** A lock change for destination n reports that destination, locked for any
      capitalisation of "Locked" and unlocked for another name. */
  lemma LockExamples(n: int, shouted: string, other: string)
    requires 0 <= n <= Int32Max
    requires shouted == "LOCKED" && other == "Unlocked"
    ensures LockedStatus([EventData(DestinationLockedId(n), "", 0, shouted, "")]) == Some([LockRecord(n, true)])
    ensures LockedStatus([EventData(DestinationLockedId(n), "", 0, other, "")]) == Some([LockRecord(n, false)])
  {
    LockedIdRoundTrip(n);
    SingleLock(EventData(DestinationLockedId(n), "", 0, shouted, ""));
    SingleLock(EventData(DestinationLockedId(n), "", 0, other, ""));
    assert EqualsIgnoreCase(shouted, "Locked");
    assert !EqualsIgnoreCase(other, "Locked");
  }

  // ---------------------------------------------------------------------------
  // Labels

  /** A label record: the port type is Source exactly when the id mentions
      "Source"; a Line_1 suffix (any case) assigns line 1, otherwise a Line_2
      suffix assigns line 2, otherwise no line is assigned. */
  function TextOf(e: EventData): TextView
    requires FirstNumber(e.paramId).Some?
  {
    var id := e.paramId;
    var isLine1 := EndsWithIgnoreCase(id, "Line_1");
    var isLine2 := !isLine1 && EndsWithIgnoreCase(id, "Line_2");
    TextView(
      if Contains(id, "Source") then Source else Destination,
      PortNumber(e),
      if isLine1 then Some(e.nameValue) else None,
      if isLine2 then Some(e.nameValue) else None,
      isLine1,
      isLine2)
  }

  /** The label records of a list, in order. */
  function TextsOf(list: seq<EventData>): (r: seq<TextView>)
    requires Numbered(list)
    ensures |r| == |list|
    decreases |list|
  {
    if list == [] then [] else TextsOf(list[..|list| - 1]) + [TextOf(list[|list| - 1])]
  }

  /** The label records of a batch: one per label record in batch order, with
      no merging of records for the same port. */
  function ChangedTexts(values: seq<EventData>): Option<seq<TextView>>
  {
    var list := Where(values, Label);
    if Numbered(list) then Some(TextsOf(list)) else None
  }

  /** Label record t reports event e: it is for the port e's id names, of type
      Source exactly when the id mentions "Source"; it holds e's text in line 1
      when the id ends with Line_1, else in line 2 when it ends with Line_2, and
      a line is flagged exactly when it holds the text; an unflagged line is
      null. */
  predicate ReportsText(e: EventData, t: TextView)
  {
    && FirstNumber(e.paramId) == Some(t.portNum)
    && (t.pT == Source <==> Contains(e.paramId, "Source"))
    && (t.line1Changed <==> EndsWithIgnoreCase(e.paramId, "Line_1"))
    && (t.line2Changed <==> !t.line1Changed && EndsWithIgnoreCase(e.paramId, "Line_2"))
    && (t.line1 == if t.line1Changed then Some(e.nameValue) else None)
    && (t.line2 == if t.line2Changed then Some(e.nameValue) else None)
  }

  lemma {:induction false} TextsOfMeaning(list: seq<EventData>)
    requires Numbered(list)
    ensures forall k :: 0 <= k < |list| ==> ReportsText(list[k], TextsOf(list)[k])
    decreases |list|
  {
    if list != [] {
      var front := list[..|list| - 1];
      var last := list[|list| - 1];
      var r := TextsOf(list);
      TextsOfMeaning(front);
      assert r == TextsOf(front) + [TextOf(last)];
      forall k | 0 <= k < |list|
        ensures ReportsText(list[k], r[k])
      {
        if k < |front| {
          assert list[k] == front[k] && r[k] == TextsOf(front)[k];
        } else {
          assert list[k] == last && r[k] == TextOf(last);
        }
      }
    }
  }

  /** The label records of a batch: present exactly when every label record has
      a usable port number; then one per such record, in order, each reporting
      its record, so that no record sets both lines. */
  lemma ChangedTextsMeaning(values: seq<EventData>)
    ensures ChangedTexts(values).Some? <==> Numbered(Where(values, Label))
    ensures ChangedTexts(values).Some? ==>
              && |ChangedTexts(values).value| == |Where(values, Label)|
              && forall k :: 0 <= k < |Where(values, Label)| ==>
                   ReportsText(Where(values, Label)[k], ChangedTexts(values).value[k])
  {
    var list := Where(values, Label);
    if Numbered(list) {
      TextsOfMeaning(list);
    }
  }

  /** One iteration of GetChangedText: a fresh label record, its line assigned
      through the setter, then its port type and number; None where the port
      number conversion throws and the record is dropped. */
  method NewText(e: EventData) returns (r: Option<KumoText>)
    ensures r.Some? <==> FirstNumber(e.paramId).Some?
    ensures r.Some? ==> fresh(r.value) && r.value.View() == TextOf(e)
  {
    var kPT := new KumoText();
    if EndsWithIgnoreCase(e.paramId, "Line_1") {
      kPT.SetLine1Text(Some(e.nameValue));
    } else if EndsWithIgnoreCase(e.paramId, "Line_2") {
      kPT.SetLine2Text(Some(e.nameValue));
    }
    var p := if Contains(e.paramId, "Source") then Source else Destination;
    var parsed := FirstNumber(e.paramId);
    if parsed.None? {
      return None;
    }
    kPT.portNum := parsed.value;
    kPT.pT := p;
    r := Some(kPT);
  }

  /** No object occurs twice in the list. */
  predicate Distinct(ts: seq<KumoText>)
  {
    forall j, k :: 0 <= j < k < |ts| ==> ts[j] != ts[k]
  }

  /** Appending an object not yet in the list keeps it distinct (a proof
      helper for the label loop). */
  lemma DistinctAppend(ts: seq<KumoText>, t: KumoText)
    requires Distinct(ts) && t !in ts
    ensures Distinct(ts + [t])
  {
  }

  /** Extending a Numbered prefix by a usable record extends its label records. */
  lemma TextsStep(list: seq<EventData>, i: nat)
    requires i < |list| && Numbered(list[..i]) && FirstNumber(list[i].paramId).Some?
    ensures Numbered(list[..i + 1])
    ensures TextsOf(list[..i + 1]) == TextsOf(list[..i]) + [TextOf(list[i])]
  {
    NumberedStep(list, i);
    assert list[..i + 1][..i] == list[..i];
  }

  /** GetChangedText: a label object of its own per label event, in order. */
  method GetChangedText(values: seq<EventData>) returns (r: Option<seq<KumoText>>)
    ensures r.None? <==> ChangedTexts(values).None?
    ensures r.Some? ==> Views(r.value) == ChangedTexts(values).value
    ensures r.Some? ==> forall j, k :: 0 <= j < k < |r.value| ==> r.value[j] != r.value[k]
  {
    var kumoPortTextList: seq<KumoText> := [];
    var textsList := Where(values, Label);
    var i := 0;
    while i < |textsList|
      invariant 0 <= i <= |textsList|
      invariant Numbered(textsList[..i])
      invariant Views(kumoPortTextList) == TextsOf(textsList[..i])
      invariant Distinct(kumoPortTextList)
    {
      var next := AddText(kumoPortTextList, textsList[i]);
      if next.None? {
        NotNumberedAt(textsList, i);
        return None;
      }
      TextsStep(textsList, i);
      kumoPortTextList := next.value;
      i := i + 1;
    }
    assert textsList[..i] == textsList;
    r := Some(kumoPortTextList);
  }

  /** The body of GetChangedText's loop: a new label record for e, added at the
      end of the list; None where the conversion of its port number throws. */
  method AddText(ts: seq<KumoText>, e: EventData) returns (r: Option<seq<KumoText>>)
    requires Distinct(ts)
    ensures r.None? <==> FirstNumber(e.paramId).None?
    ensures r.Some? ==> |r.value| == |ts| + 1 && r.value == ts + [r.value[|ts|]] && fresh(r.value[|ts|])
    ensures r.Some? ==> Distinct(r.value) && Views(r.value) == old(Views(ts)) + [TextOf(e)]
  {
    var kPT := NewText(e);
    if kPT.None? {
      return None;
    }
    assert kPT.value !in ts;
    DistinctAppend(ts, kPT.value);
    ViewsAppend(ts, kPT.value);
    r := Some(ts + [kPT.value]);
  }

  /** A one-record batch with a usable label id yields one label record. */
  lemma SingleText(e: EventData)
    requires IsTextId(e.paramId) && FirstNumber(e.paramId).Some?
    ensures ChangedTexts([e]) == Some([TextOf(e)])
  {
    WhereSingle(e, Label);
    assert [e][..0] == [] && [e][0] == e;
    assert Numbered([e]);
    assert TextsOf([e]) == TextsOf([]) + [TextOf(e)];
    assert TextsOf([]) == [];
    assert TextsOf([e]) == [TextOf(e)];
    assert ChangedTexts([e]) == Some(TextsOf([e]));
  }

  /** A change of line 1 or 2 of a source or destination label yields one record
      for that port holding only that line. */
  lemma TextRecordOfLabelId(pT: PortType, n: int, line: Line, text: string)
    requires 0 <= n <= Int32Max
    ensures ChangedTexts([EventData(LineId(pT, n, line), "", 0, text, "")]) == Some([
              if line == Line1 then TextView(pT, n, Some(text), None, true, false)
              else TextView(pT, n, None, Some(text), false, true)])
  {
    LineIdRoundTrip(pT, n, line);
    SingleText(EventData(LineId(pT, n, line), "", 0, text, ""));
  }

  // ---------------------------------------------------------------------------
  // Temperature

  /** The numeric value of the first temperature record, -1 when there is none. */
  function Temperature(batch: seq<EventData>): (r: int)
    ensures (forall i :: 0 <= i < |batch| ==> batch[i].paramId != TemperatureId) ==> r == -1
    ensures forall i :: 0 <= i < |batch| ==>
              (batch[i].paramId == TemperatureId && (forall j :: 0 <= j < i ==> batch[j].paramId != TemperatureId))
              ==> r == batch[i].numericValue
  {
    if batch == [] then -1
    else if batch[0].paramId == TemperatureId then batch[0].numericValue
    else Temperature(batch[1..])
  }

  // ---------------------------------------------------------------------------
  // Crosspoints

  /** One entry of the intermediate Dictionary<int, int> from destination to source. */
  datatype Pair = Pair(dest: int, source: int)

  /** Position of the entry for destination d, if any. */
  function FindDest(m: seq<Pair>, d: int): (r: Option<nat>)
    ensures r.Some? ==> r.value < |m| && m[r.value].dest == d
    ensures r.None? ==> forall i :: 0 <= i < |m| ==> m[i].dest != d
  {
    if m == [] then None
    else if m[|m| - 1].dest == d then Some(|m| - 1)
    else FindDest(m[..|m| - 1], d)
  }

  /** desPortMap[d] = s: overwrite the value in place when d is a key, else append. */
  function Put(m: seq<Pair>, d: int, s: int): seq<Pair>
  {
    match FindDest(m, d)
    case Some(j) => m[j := Pair(d, s)]
    case None => m + [Pair(d, s)]
  }

  /** The destination-to-source dictionary after all the status records. */
  function DestMapOf(list: seq<EventData>): seq<Pair>
    requires Numbered(list)
  {
    if list == [] then []
    else Put(DestMapOf(list[..|list| - 1]), PortNumber(list[|list| - 1]), list[|list| - 1].numericValue)
  }

  /** Extending a Numbered prefix by a usable record assigns its destination. */
  lemma DestMapStep(list: seq<EventData>, i: nat)
    requires i < |list| && Numbered(list[..i]) && FirstNumber(list[i].paramId).Some?
    ensures Numbered(list[..i + 1])
    ensures DestMapOf(list[..i + 1]) == Put(DestMapOf(list[..i]), PortNumber(list[i]), list[i].numericValue)
  {
    NumberedStep(list, i);
    assert list[..i + 1][..i] == list[..i];
  }

  /** Position of the entry for source s, if any. */
  function FindSource(m: SourceMap, s: int): (r: Option<nat>)
    ensures r.Some? ==> r.value < |m| && m[r.value].source == s
    ensures r.None? ==> forall i :: 0 <= i < |m| ==> m[i].source != s
  {
    if m == [] then None
    else if m[|m| - 1].source == s then Some(|m| - 1)
    else FindSource(m[..|m| - 1], s)
  }

  /** File destination d under source s: append to s's list, or start one. */
  function AddDest(m: SourceMap, d: int, s: int): SourceMap
  {
    match FindSource(m, s)
    case Some(j) => m[j := Entry(s, m[j].dests + [d])]
    case None => m + [Entry(s, [d])]
  }

  /** ConvertDictionary's result: every destination filed under its source, in
      the enumeration order of the destination-to-source dictionary. */
  function Invert(m: seq<Pair>): SourceMap
  {
    if m == [] then [] else AddDest(Invert(m[..|m| - 1]), m[|m| - 1].dest, m[|m| - 1].source)
  }

  /** The crosspoint changes of a batch, or None when a status record has no
      usable destination number. */
  function ChangedMatrix(values: seq<EventData>): Option<SourceMap>
  {
    var list := Where(values, MatrixStatus);
    if Numbered(list) then Some(Invert(DestMapOf(list))) else None
  }

  /** ConvertDictionary. */
  method ConvertDictionary(data: seq<Pair>) returns (r: SourceMap)
    ensures r == Invert(data)
  {
    if |data| == 0 {
      return [];
    }
    var dataDictionary: SourceMap := [];
    var i := 0;
    while i < |data|
      invariant 0 <= i <= |data|
      invariant dataDictionary == Invert(data[..i])
    {
      var value := data[i];
      assert data[..i + 1][..i] == data[..i];
      var found := FindSource(dataDictionary, value.source);
      if found.None? {
        dataDictionary := dataDictionary + [Entry(value.source, [value.dest])];
      } else {
        var list := dataDictionary[found.value].dests;
        list := list + [value.dest];
        dataDictionary := dataDictionary[found.value := Entry(value.source, list)];
      }
      i := i + 1;
    }
    assert data[..i] == data;
    r := dataDictionary;
  }

  /** GetChangedMatrix: fill the destination-to-source dictionary from the status
      records, then invert it. */
  method GetChangedMatrix(values: seq<EventData>) returns (r: Option<SourceMap>)
    ensures r == ChangedMatrix(values)
  {
    var statusList := Where(values, MatrixStatus);
    var desPortMap: seq<Pair> := [];
    var i := 0;
    while i < |statusList|
      invariant 0 <= i <= |statusList|
      invariant Numbered(statusList[..i])
      invariant desPortMap == DestMapOf(statusList[..i])
    {
      var source := statusList[i].numericValue;
      var parsed := FirstNumber(statusList[i].paramId);
      if parsed.None? {
        NotNumberedAt(statusList, i);
        return None;
      }
      DestMapStep(statusList, i);
      desPortMap := Put(desPortMap, parsed.value, source);
      i := i + 1;
    }
    assert statusList[..i] == statusList;
    var sourceMap := ConvertDictionary(desPortMap);
    r := Some(sourceMap);
  }

  // Properties of the crosspoint changes

  /** No destination has two entries in a destination-to-source dictionary. */
  predicate DistinctDests(m: seq<Pair>)
  {
    forall i, j :: 0 <= i < j < |m| ==> m[i].dest != m[j].dest
  }

  /** The destinations of a dictionary, in enumeration order. */
  function DestColumn(m: seq<Pair>): seq<int>
  {
    seq(|m|, k requires 0 <= k < |m| => m[k].dest)
  }

  /** The sources of a dictionary, in enumeration order, repeats included. */
  function SourceColumn(m: seq<Pair>): seq<int>
  {
    seq(|m|, k requires 0 <= k < |m| => m[k].source)
  }

  /** Assigning d in a dictionary with distinct keys keeps the keys distinct,
      binds d to s and keeps every other binding. An existing key keeps its
      position and only its value changes; a new key goes at the end. */
  lemma PutMeaning(m: seq<Pair>, d: int, s: int)
    requires DistinctDests(m)
    ensures DistinctDests(Put(m, d, s))
    ensures forall p :: p in Put(m, d, s) <==> p == Pair(d, s) || (p in m && p.dest != d)
    ensures |Put(m, d, s)| == if d in DestColumn(m) then |m| else |m| + 1
    ensures forall k :: 0 <= k < |m| ==> Put(m, d, s)[k] == if m[k].dest == d then Pair(d, s) else m[k]
    ensures d !in DestColumn(m) ==> Put(m, d, s) == m + [Pair(d, s)]
  {
    var r := Put(m, d, s);
    match FindDest(m, d)
    case Some(j) =>
      assert r == m[j := Pair(d, s)];
      assert forall k :: 0 <= k < |r| ==> r[k].dest == m[k].dest;
      forall p
        ensures p in r <==> p == Pair(d, s) || (p in m && p.dest != d)
      {
        if p in r {
          var k :| 0 <= k < |r| && r[k] == p;
          if k != j {
            assert p == m[k];
            assert m[k].dest != m[j].dest;
          }
        }
        if p in m && p.dest != d {
          var k :| 0 <= k < |m| && m[k] == p;
          assert r[k] == p;
        }
      }
      assert d in DestColumn(m) by {
        assert DestColumn(m)[j] == d;
      }
    case None =>
      assert r == m + [Pair(d, s)];
      assert d !in DestColumn(m);
  }

  /** Assigning d leaves the enumeration order of the keys as it was, with d
      added at the end when it is new. */
  lemma PutColumn(m: seq<Pair>, d: int, s: int)
    requires DistinctDests(m)
    ensures DestColumn(Put(m, d, s)) == if d in DestColumn(m) then DestColumn(m) else DestColumn(m) + [d]
  {
    PutMeaning(m, d, s);
  }

  /** Record i is the last one in the list that reports destination d. */
  predicate LastReport(list: seq<EventData>, i: int, d: int)
  {
    && 0 <= i < |list|
    && FirstNumber(list[i].paramId) == Some(d)
    && forall j :: i < j < |list| ==> FirstNumber(list[j].paramId) != Some(d)
  }

  /** When the last record of a non-empty list reports another destination,
      the last report of d is the same in the list and in its front. */
  lemma LastReportOfFront(list: seq<EventData>, i: int, d: int)
    requires list != [] && FirstNumber(list[|list| - 1].paramId) != Some(d)
    ensures LastReport(list, i, d) <==> LastReport(list[..|list| - 1], i, d)
  {
    var front := list[..|list| - 1];
    if 0 <= i < |front| {
      assert front[i] == list[i];
      assert forall j :: i < j < |front| ==> front[j] == list[j];
    }
  }

  /** The destination-to-source dictionary has one entry per reported
      destination, holding the value of the last record that reports it. */
  lemma {:induction false} DestMapOfMeaning(list: seq<EventData>)
    requires Numbered(list)
    ensures DistinctDests(DestMapOf(list))
    ensures forall d, s :: Pair(d, s) in DestMapOf(list) <==> exists i :: LastReport(list, i, d) && list[i].numericValue == s
    decreases |list|
  {
    if list != [] {
      var n := |list| - 1;
      var front := list[..n];
      var e := list[n];
      var d0 := PortNumber(e);
      DestMapOfMeaning(front);
      PutMeaning(DestMapOf(front), d0, e.numericValue);
      assert DestMapOf(list) == Put(DestMapOf(front), d0, e.numericValue);
      forall d, s
        ensures Pair(d, s) in DestMapOf(list) <==> exists i :: LastReport(list, i, d) && list[i].numericValue == s
      {
        if d == d0 {
          assert forall i :: LastReport(list, i, d) <==> i == n;
        } else {
          forall i
            ensures LastReport(list, i, d) <==> LastReport(front, i, d)
          {
            LastReportOfFront(list, i, d);
          }
          assert forall i :: 0 <= i < n ==> front[i] == list[i];
        }
      }
    }
  }

  /** No source has two entries in a source map. */
  predicate UniqueSources(sm: SourceMap)
  {
    forall i, j :: 0 <= i < j < |sm| ==> sm[i].source != sm[j].source
  }

  /** No destination is listed twice. */
  predicate NoDuplicates(ds: seq<int>)
  {
    forall i, j :: 0 <= i < j < |ds| ==> ds[i] != ds[j]
  }

  /** Source s feeds destination d according to the source map. */
  predicate Feeds(sm: SourceMap, s: int, d: int)
  {
    exists j :: 0 <= j < |sm| && sm[j].source == s && d in sm[j].dests
  }

  /** A source map as ConvertDictionary builds it: one entry per source, each
      with a non-empty list of distinct destinations. */
  predicate WellFormed(sm: SourceMap)
  {
    && UniqueSources(sm)
    && forall j :: 0 <= j < |sm| ==> sm[j].dests != [] && NoDuplicates(sm[j].dests)
  }

  /** Filing a destination no source feeds yet keeps the map well formed and
      adds exactly that one link. */
  lemma AddDestMeaning(sm: SourceMap, d: int, s: int)
    requires WellFormed(sm)
    requires forall s' :: !Feeds(sm, s', d)
    ensures WellFormed(AddDest(sm, d, s))
    ensures forall s', d' :: Feeds(AddDest(sm, d, s), s', d') <==> Feeds(sm, s', d') || (s' == s && d' == d)
  {
    match FindSource(sm, s)
    case Some(j) => AddDestToEntry(sm, d, s, j);
    case None => AddDestNewEntry(sm, d, s);
  }

  /** AddDestMeaning where s already has an entry, at j. */
  lemma AddDestToEntry(sm: SourceMap, d: int, s: int, j: nat)
    requires WellFormed(sm)
    requires forall s' :: !Feeds(sm, s', d)
    requires FindSource(sm, s) == Some(j)
    ensures WellFormed(AddDest(sm, d, s))
    ensures forall s', d' :: Feeds(AddDest(sm, d, s), s', d') <==> Feeds(sm, s', d') || (s' == s && d' == d)
  {
    var r := AddDest(sm, d, s);
    assert r == sm[j := Entry(s, sm[j].dests + [d])];
    assert d !in sm[j].dests by {
      assert !Feeds(sm, s, d) && sm[j].source == s;
    }
    assert NoDuplicates(r[j].dests);
    forall s', d'
      ensures Feeds(r, s', d') <==> Feeds(sm, s', d') || (s' == s && d' == d)
    {
      if Feeds(r, s', d') {
        var k :| 0 <= k < |r| && r[k].source == s' && d' in r[k].dests;
        if k != j || d' != d {
          assert d' in sm[k].dests;
        }
      }
      if Feeds(sm, s', d') {
        var k :| 0 <= k < |sm| && sm[k].source == s' && d' in sm[k].dests;
        assert d' in r[k].dests;
      }
      if s' == s && d' == d {
        assert d' in r[j].dests;
      }
    }
  }

  /** AddDestMeaning where s has no entry yet. */
  lemma AddDestNewEntry(sm: SourceMap, d: int, s: int)
    requires WellFormed(sm)
    requires forall s' :: !Feeds(sm, s', d)
    requires FindSource(sm, s).None?
    ensures WellFormed(AddDest(sm, d, s))
    ensures forall s', d' :: Feeds(AddDest(sm, d, s), s', d') <==> Feeds(sm, s', d') || (s' == s && d' == d)
  {
    var r := AddDest(sm, d, s);
    assert r == sm + [Entry(s, [d])];
    forall s', d'
      ensures Feeds(r, s', d') <==> Feeds(sm, s', d') || (s' == s && d' == d)
    {
      if Feeds(r, s', d') {
        var k :| 0 <= k < |r| && r[k].source == s' && d' in r[k].dests;
        if k < |sm| {
          assert Feeds(sm, s', d');
        }
      }
      if Feeds(sm, s', d') {
        var k :| 0 <= k < |sm| && sm[k].source == s' && d' in sm[k].dests;
        assert r[k] == sm[k];
      }
      if s' == s && d' == d {
        assert d' in r[|sm|].dests;
      }
    }
  }

  /** Inverting a dictionary with distinct keys gives a well-formed source map
      in which s feeds d exactly when the dictionary binds d to s. */
  lemma {:induction false} InvertMeaning(m: seq<Pair>)
    requires DistinctDests(m)
    ensures WellFormed(Invert(m))
    ensures forall s, d :: Feeds(Invert(m), s, d) <==> Pair(d, s) in m
    decreases |m|
  {
    if m != [] {
      var n := |m| - 1;
      var front := m[..n];
      var last := m[n];
      assert m == front + [last];
      InvertMeaning(front);
      assert forall k :: 0 <= k < |front| ==> front[k].dest != last.dest;
      assert forall s' :: Pair(last.dest, s') !in front;
      AddDestMeaning(Invert(front), last.dest, last.source);
    }
  }

  /** The distinct elements of xs, each at the position of its first occurrence. */
  function Firsts(xs: seq<int>): seq<int>
    decreases |xs|
  {
    if xs == [] then []
    else
      var f := Firsts(xs[..|xs| - 1]);
      if xs[|xs| - 1] in f then f else f + [xs[|xs| - 1]]
  }

  lemma FirstsSnoc(xs: seq<int>, x: int)
    ensures Firsts(xs + [x]) == if x in Firsts(xs) then Firsts(xs) else Firsts(xs) + [x]
  {
    assert (xs + [x])[..|xs|] == xs;
  }

  /** Firsts keeps every element of xs, once. */
  lemma {:induction false} FirstsMeaning(xs: seq<int>)
    ensures forall x :: x in Firsts(xs) <==> x in xs
    ensures NoDuplicates(Firsts(xs))
    decreases |xs|
  {
    if xs != [] {
      var front := xs[..|xs| - 1];
      FirstsMeaning(front);
      assert xs == front + [xs[|xs| - 1]];
    }
  }

  /** The destinations bound to s in a dictionary, in enumeration order. */
  function DestsUnder(m: seq<Pair>, s: int): seq<int>
    decreases |m|
  {
    if m == [] then []
    else DestsUnder(m[..|m| - 1], s) + (if m[|m| - 1].source == s then [m[|m| - 1].dest] else [])
  }

  /** A value no key is bound to has no destinations. */
  lemma {:induction false} DestsUnderAbsent(m: seq<Pair>, s: int)
    requires s !in SourceColumn(m)
    ensures DestsUnder(m, s) == []
    decreases |m|
  {
    if m != [] {
      var front := m[..|m| - 1];
      assert SourceColumn(m)[|m| - 1] == m[|m| - 1].source;
      assert SourceColumn(front) == SourceColumn(m)[..|m| - 1];
      DestsUnderAbsent(front, s);
    }
  }

  /** r lists the sources of m in order of first occurrence, each with the
      destinations bound to it in m's enumeration order. */
  predicate InvertsInOrder(r: SourceMap, m: seq<Pair>)
  {
    && |r| == |Firsts(SourceColumn(m))|
    && forall j :: 0 <= j < |r| ==> r[j] == Entry(Firsts(SourceColumn(m))[j], DestsUnder(m, Firsts(SourceColumn(m))[j]))
  }

  /** ConvertDictionary's order: a source becomes a key when the enumeration
      first meets it, and each list follows the enumeration order. */
  lemma {:induction false} InvertOrder(m: seq<Pair>)
    ensures InvertsInOrder(Invert(m), m)
    decreases |m|
  {
    if m != [] {
      var n := |m| - 1;
      var front := m[..n];
      var p := m[n];
      InvertOrder(front);
      var inv := Invert(front);
      var keys := Firsts(SourceColumn(front));
      assert SourceColumn(m) == SourceColumn(front) + [p.source];
      FirstsSnoc(SourceColumn(front), p.source);
      FirstsMeaning(SourceColumn(front));
      assert Invert(m) == AddDest(inv, p.dest, p.source);
      match FindSource(inv, p.source)
      case Some(j) =>
        assert keys[j] == p.source;
        forall k | 0 <= k < |inv| && k != j
          ensures DestsUnder(m, keys[k]) == DestsUnder(front, keys[k])
        {
          assert keys[k] != keys[j];
        }
      case None =>
        assert p.source !in keys by {
          forall k | 0 <= k < |keys|
            ensures keys[k] != p.source
          {
            assert inv[k].source == keys[k];
          }
        }
        DestsUnderAbsent(front, p.source);
        assert Invert(m) == inv + [Entry(p.source, [p.dest])];
    }
  }

  /** Destinations 3 and 1 on source 5, then 2 on source 4: the keys follow
      first occurrence and the lists follow enumeration, not numeric order. */
  lemma InvertExample()
    ensures Invert([Pair(3, 5), Pair(1, 5), Pair(2, 4)]) == [Entry(5, [3, 1]), Entry(4, [2])]
  {
    var m := [Pair(3, 5), Pair(1, 5), Pair(2, 4)];
    assert m[..2] == [Pair(3, 5), Pair(1, 5)] && m[..2][..1] == [Pair(3, 5)];
    InvertSingle(3, 5);
    assert FindSource([Entry(5, [3])], 5) == Some(0);
    assert [3] + [1] == [3, 1];
    assert [Entry(5, [3])][0 := Entry(5, [3, 1])] == [Entry(5, [3, 1])];
    assert Invert(m[..2]) == AddDest([Entry(5, [3])], 1, 5) == [Entry(5, [3, 1])];
    assert FindSource([Entry(5, [3, 1])], 4) == None;
  }

  /** The destinations of a list of status records, in batch order. */
  function ReportedDests(list: seq<EventData>): (r: seq<int>)
    requires Numbered(list)
    decreases |list|
  {
    if list == [] then [] else ReportedDests(list[..|list| - 1]) + [PortNumber(list[|list| - 1])]
  }

  /** The destination-to-source dictionary enumerates its keys in the order
      the batch first reports them: a later report overwrites in place. */
  lemma {:induction false} DestMapOrder(list: seq<EventData>)
    requires Numbered(list)
    ensures DestColumn(DestMapOf(list)) == Firsts(ReportedDests(list))
    decreases |list|
  {
    if list != [] {
      var front := list[..|list| - 1];
      var e := list[|list| - 1];
      DestMapOrder(front);
      DestMapOfMeaning(front);
      PutColumn(DestMapOf(front), PortNumber(e), e.numericValue);
      FirstsSnoc(ReportedDests(front), PortNumber(e));
    }
  }

  /** Each reported destination is fed, in the crosspoint changes, by the value
      of the last status record reporting it, and by nothing else; every
      source appears once, with a non-empty list of distinct destinations. */
  ghost predicate ReportsCrosspoints(r: SourceMap, list: seq<EventData>)
  {
    && WellFormed(r)
    && forall s, d :: Feeds(r, s, d) <==> exists i :: LastReport(list, i, d) && list[i].numericValue == s
  }

  /** The crosspoint changes of a batch: present exactly when every status
      record has a usable destination number; then they report the last
      value each destination received in the batch. Sources are not filtered:
      a value of 0 or below becomes a source entry like any other. In order:
      the intermediate dictionary enumerates destinations as the batch first
      reports them, and the changes list each source where that enumeration
      first meets it, with its destinations in that enumeration order. */
  lemma ChangedMatrixMeaning(values: seq<EventData>)
    ensures ChangedMatrix(values).Some? <==> Numbered(Where(values, MatrixStatus))
    ensures ChangedMatrix(values).Some? ==> ReportsCrosspoints(ChangedMatrix(values).value, Where(values, MatrixStatus))
    ensures ChangedMatrix(values).Some? ==>
              && DestColumn(DestMapOf(Where(values, MatrixStatus))) == Firsts(ReportedDests(Where(values, MatrixStatus)))
              && InvertsInOrder(ChangedMatrix(values).value, DestMapOf(Where(values, MatrixStatus)))
  {
    var list := Where(values, MatrixStatus);
    if Numbered(list) {
      DestMapOfMeaning(list);
      InvertMeaning(DestMapOf(list));
      DestMapOrder(list);
      InvertOrder(DestMapOf(list));
    }
  }

  /** In the crosspoint changes, a destination is fed by one source at most. */
  lemma OneSourcePerDestination(r: SourceMap, list: seq<EventData>, s1: int, s2: int, d: int)
    requires ReportsCrosspoints(r, list)
    requires Feeds(r, s1, d) && Feeds(r, s2, d)
    ensures s1 == s2
  {
    var i1 :| LastReport(list, i1, d) && list[i1].numericValue == s1;
    var i2 :| LastReport(list, i2, d) && list[i2].numericValue == s2;
    assert !(i1 < i2);
    assert !(i2 < i1);
  }

  /** A one-entry dictionary inverts to a one-entry source map. */
  lemma InvertSingle(d: int, s: int)
    ensures Invert([Pair(d, s)]) == [Entry(s, [d])]
  {
    assert [Pair(d, s)][..0] == [];
    assert Invert([Pair(d, s)]) == AddDest([], d, s);
  }

  /** A one-record batch with a usable status id yields one crosspoint. */
  lemma SingleStatus(e: EventData, d: int)
    requires IsStatusId(e.paramId) && FirstNumber(e.paramId) == Some(d)
    ensures ChangedMatrix([e]) == Some([Entry(e.numericValue, [d])])
  {
    WhereSingle(e, MatrixStatus);
    assert [e][..0] == [] && [e][0] == e;
    assert Numbered([e]);
    assert DestMapOf([e]) == Put([], d, e.numericValue) == [Pair(d, e.numericValue)];
    InvertSingle(d, e.numericValue);
    assert ChangedMatrix([e]) == Some(Invert(DestMapOf([e])));
  }

  /** A status change for destination d with any source value, 0 and
      negative values included, yields that one crosspoint. */
  lemma SingleCrosspoint(d: int, source: int)
    requires 0 <= d <= Int32Max
    ensures ChangedMatrix([EventData(DestinationStatusId(d), "", source, "", "")]) == Some([Entry(source, [d])])
  {
    StatusIdRoundTrip(d);
    SingleStatus(EventData(DestinationStatusId(d), "", source, "", ""), d);
  }

  /** Two status records for the same destination: the later one wins. */
  lemma TwoStatus(e1: EventData, e2: EventData, d: int)
    requires IsStatusId(e1.paramId) && FirstNumber(e1.paramId) == Some(d)
    requires IsStatusId(e2.paramId) && FirstNumber(e2.paramId) == Some(d)
    ensures ChangedMatrix([e1, e2]) == Some([Entry(e2.numericValue, [d])])
  {
    var batch := [e1, e2];
    WhereSingle(e2, MatrixStatus);
    assert batch[1..] == [e2];
    assert Where(batch, MatrixStatus) == batch;
    assert batch[..1] == [e1] && [e1][..0] == [];
    assert Numbered(batch);
    assert DestMapOf([e1]) == [Pair(d, e1.numericValue)];
    assert DestMapOf(batch) == Put([Pair(d, e1.numericValue)], d, e2.numericValue) == [Pair(d, e2.numericValue)];
    InvertSingle(d, e2.numericValue);
    assert ChangedMatrix(batch) == Some(Invert(DestMapOf(batch)));
  }

  /** Two status changes for the same destination: the later one wins. */
  lemma LaterStatusWins(d: int, first: int, second: int)
    requires 0 <= d <= Int32Max
    ensures ChangedMatrix([EventData(DestinationStatusId(d), "", first, "", ""),
                           EventData(DestinationStatusId(d), "", second, "", "")])
            == Some([Entry(second, [d])])
  {
    StatusIdRoundTrip(d);
    TwoStatus(EventData(DestinationStatusId(d), "", first, "", ""), EventData(DestinationStatusId(d), "", second, "", ""), d);
  }

  // ---------------------------------------------------------------------------
  // The whole batch

  /** The batch carries a mode change. */
  predicate HasSignalSwitching(batch: seq<EventData>)
  {
    exists i :: 0 <= i < |batch| && batch[i].paramId == SignalSwitchingId
  }

  /** What the classification of a batch returns: the mode-change reset (the
      empty event, after the port count is refreshed), or the categories. */
  datatype Classified = Reset | Changes(view: EventView)

  /** The classification half of GetEvents, for an OK response carrying the
      batch; None when a category's port number conversion throws. */
  function Classify(batch: seq<EventData>, numberOfPorts: int): Option<Classified>
  {
    if batch == [] then Some(Changes(EmptyView))
    else if HasSignalSwitching(batch) then Some(Reset)
    else
      var matrix := ChangedMatrix(batch);
      var texts := ChangedTexts(batch);
      var colors := ChangedColors(batch, numberOfPorts);
      var locks := LockedStatus(batch);
      if matrix.Some? && texts.Some? && colors.Some? && locks.Some?
      then Some(Changes(EventView(Temperature(batch), matrix.value, texts.value, colors.value, locks.value)))
      else None
  }

  /** The id belongs to one of the four categories whose port number is parsed. */
  predicate Categorized(id: string)
  {
    IsStatusId(id) || IsTextId(id) || IsColorId(id) || IsLockId(id)
  }

  /** A category's records are Numbered exactly when every record of the batch
      in that category has a usable port number. */
  lemma NumberedWhere(values: seq<EventData>, c: Category)
    ensures Numbered(Where(values, c))
            <==> forall i :: 0 <= i < |values| && Selects(c, values[i].paramId) ==> FirstNumber(values[i].paramId).Some?
  {
    var list := Where(values, c);
    NumberedIff(list);
    WhereMembers(values, c);
    if forall i :: 0 <= i < |values| && Selects(c, values[i].paramId) ==> FirstNumber(values[i].paramId).Some? {
      forall k | 0 <= k < |list|
        ensures FirstNumber(list[k].paramId).Some?
      {
        assert list[k] in values;
      }
    }
    if Numbered(list) {
      forall i | 0 <= i < |values| && Selects(c, values[i].paramId)
        ensures FirstNumber(values[i].paramId).Some?
      {
        assert values[i] in list;
      }
    }
  }

  /** Every category of the batch is Numbered exactly when no record of the
      four categories lacks a usable port number. */
  lemma AllCategoriesNumbered(batch: seq<EventData>)
    ensures (&& Numbered(Where(batch, MatrixStatus))
             && Numbered(Where(batch, Label))
             && Numbered(Where(batch, ButtonColor))
             && Numbered(Where(batch, DestinationLock)))
            <==> !exists i :: 0 <= i < |batch| && Categorized(batch[i].paramId) && FirstNumber(batch[i].paramId).None?
  {
    NumberedWhere(batch, MatrixStatus);
    NumberedWhere(batch, Label);
    NumberedWhere(batch, ButtonColor);
    NumberedWhere(batch, DestinationLock);
  }

  /** Classification resets exactly when the batch carries a mode change, and
      fails exactly when it does not and some record of the four categories
      has no usable port number; otherwise it yields the categories. */
  lemma ClassifyOutcome(batch: seq<EventData>, numberOfPorts: int)
    ensures Classify(batch, numberOfPorts) == Some(Reset) <==> HasSignalSwitching(batch)
    ensures Classify(batch, numberOfPorts).None?
            <==> !HasSignalSwitching(batch)
                 && exists i :: 0 <= i < |batch| && Categorized(batch[i].paramId) && FirstNumber(batch[i].paramId).None?
  {
    AllCategoriesNumbered(batch);
  }
}
