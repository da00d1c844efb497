/** Value shapes shared by the engine: the raw change record the device sends,
    the port kind, the per-port records the classifier builds and the
    notifications the engine raises. */
module Records {
  import opened Strings

  /** Whether a port is an input (Source) or an output (Destination). The first
      member is the default value of the enumeration. */
  datatype PortType = Source | Destination

  /** One raw parameter-change record of a long-poll batch. nameValue is the
      textual form of the record's string value. */
  datatype EventData = EventData(
    paramId: string,
    paramType: string,
    numericValue: int,
    nameValue: string,
    configUpdate: string)

  /** A colour change for one port; portNum is already normalised to a 1-based
      index within its port type. */
  datatype ColorRecord = ColorRecord(pT: PortType, portNum: int, colorHex: string)

  /** A lock change for one destination. */
  datatype LockRecord = LockRecord(portNum: int, isLocked: bool)

  /** The observable content of a label record: line texts are None while never
      assigned (null), and a changed-flag tells whether its line was assigned. */
  datatype TextView = TextView(
    pT: PortType,
    portNum: int,
    line1: Option<string>,
    line2: Option<string>,
    line1Changed: bool,
    line2Changed: bool)

  /** One entry of a source-to-destinations dictionary. */
  datatype Entry = Entry(source: int, dests: seq<int>)

  /** A Dictionary<int, List<int>> from source index to the destinations it feeds,
      as its entries in enumeration (insertion) order. */
  type SourceMap = seq<Entry>

  /** The payload of one classified batch, as the engine reads it. */
  datatype EventView = EventView(
    temperature: int,
    portMap: SourceMap,
    texts: seq<TextView>,
    colors: seq<ColorRecord>,
    locks: seq<LockRecord>)

  /** The "nothing changed" payload: no temperature sample and every category empty. */
  const EmptyView: EventView := EventView(-1, [], [], [], [])

  /** A notification raised to the engine's subscribers, with its payload. */
  datatype Notification =
    | MatrixChanged(portMap: SourceMap)
    | TemperatureChanged(temperature: int)
    | TextChanged(texts: seq<TextView>)
    | ColorChanged(colors: seq<ColorRecord>)
    | LockedChanged(locks: seq<LockRecord>)
    | SignalSwitchingModeChanged
    | ConnectionStateChanged(connected: bool)
}
