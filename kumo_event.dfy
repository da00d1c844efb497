/** The aggregate result of one poll: temperature, crosspoint changes and the
    label, colour and lock records of the batch. */
module KumoEvents {
  import opened Records
  import opened PortText

  class KumoEvent {
    var temperatureValue: int
    var portMap: SourceMap
    var textValues: seq<KumoText>
    var colorValues: seq<ColorRecord>
    var lockValue: seq<LockRecord>

    /** The "nothing changed" event: temperature -1 and every category empty. */
    constructor ()
      ensures temperatureValue == -1
      ensures portMap == [] && textValues == [] && colorValues == [] && lockValue == []
    {
      temperatureValue := -1;
      portMap := [];
      textValues := [];
      colorValues := [];
      lockValue := [];
    }

    /** An event holding exactly the given categories. */
    constructor Of(tValue: int, pM: SourceMap, tV: seq<KumoText>, kC: seq<ColorRecord>, kL: seq<LockRecord>)
      ensures temperatureValue == tValue && portMap == pM && textValues == tV
      ensures colorValues == kC && lockValue == kL
    {
      temperatureValue := tValue;
      portMap := pM;
      textValues := tV;
      colorValues := kC;
      lockValue := kL;
    }

    /** What the event carries, with its label records read as values. */
    function View(): EventView
      reads this, set t | t in textValues
    {
      EventView(temperatureValue, portMap, Views(textValues), colorValues, lockValue)
    }
  }
}
