/** The snapshot of the connection manager, and what a client of the control interface reads of it. */
module ControlSnapshot {
  import opened Basics
  import opened BtState
  import Connection
  import ConnectionRecords
  import ConnectionRuns
  import ConnectionSafety
  import opened ControlJson
  import DeviceTable
  import Json
  import JsonBound
  import JsonWriter

  /** A text up to its terminator, or all of it. */
  function Terminating(text: seq<byte>): (s: seq<byte>)
    ensures |s| <= |text| && 0 !in s && s == text[..|s|]
    ensures |s| < |text| ==> text[|s|] == 0
  {
    if text == [] || text[0] == 0 then [] else [text[0]] + Terminating(text[1..])
  }

  function AtMost(text: seq<byte>, n: nat): seq<byte> {
    if |text| > n then text[..n] else text
  }

  /** A bounded copy into a zeroed array, which keeps room for a terminator. */
  function Copied(text: seq<byte>, size: nat): (field: seq<byte>)
    requires size > 0
    ensures Terminated(field, size)
  {
    var kept := AtMost(Terminating(text), size - 1);
    var field := kept + seq(size - |kept|, _ => 0);
    assert field[|kept|] == 0;
    field
  }

  function StateName(state: State): string {
    match state
    case Initializing => "Initializing"
    case Idle => "Idle"
    case Inquiry => "Inquiry"
    case Connecting => "Connecting"
    case Connected => "Connected"
    case ServiceDiscovery => "ServiceDiscovery"
    case Authenticating => "Authenticating"
    case Ready => "Ready"
    case Disconnected => "Disconnected"
    case OpeningControl => "OpeningControl"
    case SettingBootProtocol => "SettingBootProtocol"
    case OpeningInterrupt => "OpeningInterrupt"
    case HidConnected => "HIDConnected"
  }

  function DeviceOf(d: DeviceTable.Device): Device {
    Device(d.address, Copied(if d.hasName then d.name else [], NAME_SIZE), d.rssi, d.hasRssi,
           d.hidSupported, d.bonded, d.connected, d.report.present, d.report.tooLarge, d.report.valid,
           d.report.hasKeyboard, d.report.hasConsumerControl, d.report.hasNkroKeyboard, d.report.usesIds)
  }

  const NO_DEVICE := Device(DeviceTable.ZERO_ADDRESS, Zeros(NAME_SIZE), 0, false, false, false, false, false, false,
                            false, false, false, false, false)

  /** The table's devices, and zeroed entries behind them. */
  function Entries(table: seq<DeviceTable.Device>): (devices: seq<Device>)
    ensures |devices| == MAX_DEVICES
  {
    seq(MAX_DEVICES, i requires 0 <= i < MAX_DEVICES => if i < |table| then DeviceOf(table[i]) else NO_DEVICE)
  }

  function SnapshotOf(s: Connection.Bt, version: seq<byte>, pinPending: bool): Snapshot {
    Snapshot(
      Copied(version, VERSION_SIZE), Copied(Ascii(StateName(s.state)), STATE_SIZE), s.autoConnect,
      pinPending, Copied(if pinPending then Ascii("0000") else [], PIN_SIZE),
      s.selectedValid, if s.selectedValid then s.selectedAddress else DeviceTable.ZERO_ADDRESS,
      if |s.table| > MAX_DEVICES then MAX_DEVICES else |s.table|, Entries(s.table))
  }

  /** A name up to its terminator, cut to 63 bytes; a device without one has the empty name. */
  function NameSeen(d: DeviceTable.Device): seq<byte> {
    if d.hasName then AtMost(Terminating(d.name), 63) else []
  }

  /** A client sees the device as it stands in the table, field by field. */
  predicate Shows(seen: Device, d: DeviceTable.Device) {
    && seen.address == d.address
    && seen.name == NameSeen(d)
    && seen.rssi == d.rssi
    && seen.hasRssi == d.hasRssi
    && seen.keyboard == d.hidSupported
    && seen.bonded == d.bonded
    && seen.connected == d.connected
    && seen.descriptorPresent == d.report.present
    && seen.descriptorTooLarge == d.report.tooLarge
    && seen.descriptorValid == d.report.valid
    && seen.reportKeyboard == d.report.hasKeyboard
    && seen.reportConsumer == d.report.hasConsumerControl
    && seen.reportNkro == d.report.hasNkroKeyboard
    && seen.reportIds == d.report.usesIds
  }

  /** A client sees the connection manager as it is. */
  predicate ShowsStatus(seen: Status, s: Connection.Bt, version: seq<byte>, pinPending: bool) {
    && seen.version == AtMost(Terminating(version), 31)
    && seen.state == Ascii(StateName(s.state))
    && seen.autoConnect == s.autoConnect
    && seen.pin == (if pinPending then Some(Ascii("0000")) else None)
    && seen.selected == (if s.selectedValid then Some(s.selectedAddress) else None)
    && |seen.devices| == |s.table|
    && forall i | 0 <= i < |s.table| :: Shows(seen.devices[i], s.table[i])
  }

  lemma {:induction false} FirstTerminator(field: seq<byte>, kept: seq<byte>)
    requires |kept| < |field| && field[..|kept|] == kept && 0 !in kept && field[|kept|] == 0
    ensures 0 in field && CString(field) == kept
  {
    assert field[|kept|] in field;
    if kept != [] {
      assert field[0] == kept[0] && kept[0] in kept;
      assert field[1..][..|kept| - 1] == kept[1..];
      FirstTerminator(field[1..], kept[1..]);
    }
  }

  lemma CopyReads(text: seq<byte>, size: nat)
    requires size > 0
    ensures CString(Copied(text, size)) == AtMost(Terminating(text), size - 1)
  {
    FirstTerminator(Copied(text, size), AtMost(Terminating(text), size - 1));
  }

  lemma EndsWithout(text: seq<byte>)
    requires 0 !in text
    ensures Terminating(text) == text
  {
  }

  lemma NameFits(state: State)
    ensures |StateName(state)| < STATE_SIZE && 0 !in Ascii(StateName(state))
  {
    hide StateName, JsonWriter.Letters;
    NameIsLetters(state);
    JsonWriter.LettersArePlain(StateName(state));
  }

  /** A client can tell the states apart. */
  lemma NamesDiffer(a: State, b: State)
    ensures StateName(a) == StateName(b) ==> a == b
  {
    if |StateName(a)| == |StateName(b)| && a != b {
      assert StateName(a)[0] != StateName(b)[0];
    }
  }

  predicate Setup(state: State) {
    state.OpeningControl? || state.SettingBootProtocol? || state.OpeningInterrupt? || state.HidConnected?
  }

  lemma SetupNameIsLetters(state: State)
    requires Setup(state)
    ensures |StateName(state)| < STATE_SIZE && JsonWriter.Letters(StateName(state))
  {
  }

  lemma OtherNameIsLetters(state: State)
    requires !Setup(state)
    ensures |StateName(state)| < STATE_SIZE && JsonWriter.Letters(StateName(state))
  {
  }

  lemma NameIsLetters(state: State)
    ensures |StateName(state)| < STATE_SIZE && JsonWriter.Letters(StateName(state))
  {
    hide StateName, JsonWriter.Letters;
    if Setup(state) { SetupNameIsLetters(state); } else { OtherNameIsLetters(state); }
  }

  lemma ShortCopyReads(text: seq<byte>, size: nat)
    requires 0 !in text && |text| < size
    ensures CString(Copied(text, size)) == text
  {
    CopyReads(text, size);
    EndsWithout(text);
  }

  lemma SnapshotIsValid(s: Connection.Bt, version: seq<byte>, pinPending: bool)
    ensures ValidSnapshot(SnapshotOf(s, version, pinPending))
  {
    hide Copied;
    assert NO_DEVICE.name[0] == 0;
  }

  lemma EmptyEndsAtOnce()
    ensures AtMost(Terminating([]), 63) == []
  {
  }

  lemma DevicesAreSeen(table: seq<DeviceTable.Device>, i: nat)
    requires i < |table| <= MAX_DEVICES
    ensures 0 in Entries(table)[i].name && Shows(Shown(Entries(table)[i]), table[i])
  {
    EmptyEndsAtOnce();
    hide Copied, CString, Terminating, AtMost;
    var d := table[i];
    CopyReads(if d.hasName then d.name else [], NAME_SIZE);
  }

  lemma TextsAreSeen(s: Connection.Bt, version: seq<byte>, pinPending: bool)
    requires ValidSnapshot(SnapshotOf(s, version, pinPending))
    ensures var snapshot := SnapshotOf(s, version, pinPending);
            && CString(snapshot.version) == AtMost(Terminating(version), VERSION_SIZE - 1)
            && CString(snapshot.state) == Ascii(StateName(s.state))
            && (pinPending ==> CString(snapshot.pin) == Ascii("0000"))
  {
    hide Copied, CString, StateName, Ascii, Terminating, AtMost, Entries, ValidSnapshot;
    CopyReads(version, VERSION_SIZE);
    NameFits(s.state);
    ShortCopyReads(Ascii(StateName(s.state)), STATE_SIZE);
    PinFits();
    ShortCopyReads(Ascii("0000"), PIN_SIZE);
  }

  lemma PinFits()
    ensures |Ascii("0000")| == 4 && 0 !in Ascii("0000")
  {
    assert Ascii("0000") == [48, 48, 48, 48];
  }

  lemma DevicesMatch(s: Connection.Bt, version: seq<byte>, pinPending: bool)
    requires |s.table| <= 16 && ValidSnapshot(SnapshotOf(s, version, pinPending))
    ensures var devices := Meaning(SnapshotOf(s, version, pinPending)).devices;
            |devices| == |s.table| && forall i | 0 <= i < |s.table| :: Shows(devices[i], s.table[i])
  {
    hide Copied, CString, StateName, Ascii, Terminating, AtMost, Shown, Shows, Entries, Terminated, NO_DEVICE;
    forall i | 0 <= i < |s.table|
      ensures 0 in Entries(s.table)[i].name && Shows(Shown(Entries(s.table)[i]), s.table[i])
    {
      DevicesAreSeen(s.table, i);
    }
  }

  /** What the snapshot says is the state itself. */
  lemma SnapshotIsFaithful(s: Connection.Bt, version: seq<byte>, pinPending: bool)
    requires |s.table| <= 16
    ensures ValidSnapshot(SnapshotOf(s, version, pinPending))
    ensures ShowsStatus(Meaning(SnapshotOf(s, version, pinPending)), s, version, pinPending)
  {
    hide Copied, CString, StateName, Ascii, Terminating, AtMost, Shown, Shows, Entries, ValidSnapshot, NO_DEVICE;
    SnapshotIsValid(s, version, pinPending);
    TextsAreSeen(s, version, pinPending);
    DevicesMatch(s, version, pinPending);
  }

  /** The JSON value of one device, key by key. */
  predicate DisplaysDevice(v: Json.Value, d: DeviceTable.Device) {
    && v.Object? && |v.members| == 14
    && Carries(v, 0, "address", Json.Text(AddressText(d.address)))
    && Carries(v, 1, "name", Json.Text(NameSeen(d)))
    && Carries(v, 2, "rssi", Json.Number(d.rssi))
    && Carries(v, 3, "hasRssi", Json.Bool(d.hasRssi))
    && Carries(v, 4, "keyboard", Json.Bool(d.hidSupported))
    && Carries(v, 5, "bonded", Json.Bool(d.bonded))
    && Carries(v, 6, "connected", Json.Bool(d.connected))
    && Carries(v, 7, "reportDescriptorPresent", Json.Bool(d.report.present))
    && Carries(v, 8, "reportDescriptorTooLarge", Json.Bool(d.report.tooLarge))
    && Carries(v, 9, "reportDescriptorValid", Json.Bool(d.report.valid))
    && Carries(v, 10, "reportKeyboard", Json.Bool(d.report.hasKeyboard))
    && Carries(v, 11, "reportConsumerControl", Json.Bool(d.report.hasConsumerControl))
    && Carries(v, 12, "reportNkro", Json.Bool(d.report.hasNkroKeyboard))
    && Carries(v, 13, "reportIds", Json.Bool(d.report.usesIds))
  }

  /** The JSON value of the whole state. */
  predicate Displays(v: Json.Value, s: Connection.Bt, version: seq<byte>, pinPending: bool) {
    && v.Object? && |v.members| == 6
    && Carries(v, 0, "version", Json.Text(AtMost(Terminating(version), 31)))
    && Carries(v, 1, "state", Json.Text(Ascii(StateName(s.state))))
    && Carries(v, 2, "autoConnect", Json.Bool(s.autoConnect))
    && Carries(v, 3, "pairingPin", if pinPending then Json.Text(Ascii("0000")) else Json.Null)
    && Carries(v, 4, "selectedDevice", if s.selectedValid then Json.Text(AddressText(s.selectedAddress)) else Json.Null)
    && v.members[5].key == Ascii("devices")
    && v.members[5].value.List? && |v.members[5].value.items| == |s.table|
    && forall i | 0 <= i < |s.table| :: DisplaysDevice(v.members[5].value.items[i], s.table[i])
  }

  lemma DescribedIsDisplayed(v: Json.Value, seen: Status, s: Connection.Bt, version: seq<byte>, pinPending: bool)
    requires DescribesStatus(v, seen) && ShowsStatus(seen, s, version, pinPending)
    ensures Displays(v, s, version, pinPending)
  {
    hide Ascii, StateName, AddressText, Carries, NameSeen, AtMost, Terminating;
  }

  /**
   From the radio to the browser: on every run under the stack contract the
   callers' buffer holds the whole text, and a client that parses it finds under
   each key what the connection manager and its device table hold. So it finds
   exactly the device of the live link connected.
   */
  lemma ClientSeesRun(selected: Option<Address>, events: seq<Connection.Event>, version: seq<byte>, pinPending: bool)
    requires ConnectionSafety.Keeps(ConnectionSafety.Contract, Connection.Start(selected), events)
    ensures var s := Connection.Run(Connection.Start(selected), events);
            var snapshot := SnapshotOf(s, version, pinPending);
            && ValidSnapshot(snapshot)
            && |JsonWriter.Rendering(snapshot)| < 14336
            && var parsed := Json.Parse(JsonWriter.Rendering(snapshot));
               && parsed.Some? && Displays(parsed.value, s, version, pinPending)
               && forall i | 0 <= i < |s.table| ::
                    Carries(parsed.value.members[5].value.items[i], 6, "connected",
                            Json.Bool(ConnectionRuns.Live(s.state) && s.table[i].address == s.connectedAddress))
  {
    assert DeviceTable.MAX_DEVICES == 16 && MAX_SNAPSHOT_SIZE == 14336;
    hide *;
    ConnectionRuns.GlobalInvariant(selected, events);
    var s := Connection.Run(Connection.Start(selected), events);
    SnapshotIsFaithful(s, version, pinPending);
    var snapshot := SnapshotOf(s, version, pinPending);
    JsonBound.SnapshotFits(snapshot);
    Json.ParseIsInverseOfPrint(StatusJson(Meaning(snapshot)));
    StatusIsDescribed(Meaning(snapshot));
    RenderingIs(snapshot);
    DescribedIsDisplayed(StatusJson(Meaning(snapshot)), Meaning(snapshot), s, version, pinPending);
    ConnectionRecords.LinkIsMarked(selected, events);
    DisplayedLink(StatusJson(Meaning(snapshot)), s, version, pinPending);
  }

  lemma DisplayedLink(v: Json.Value, s: Connection.Bt, version: seq<byte>, pinPending: bool)
    requires Displays(v, s, version, pinPending)
    requires forall d <- s.table :: d.connected <==> ConnectionRuns.Live(s.state) && d.address == s.connectedAddress
    ensures v.Object? && |v.members| == 6 && v.members[5].value.List? && |v.members[5].value.items| == |s.table|
    ensures forall i | 0 <= i < |s.table| ::
              Carries(v.members[5].value.items[i], 6, "connected",
                      Json.Bool(ConnectionRuns.Live(s.state) && s.table[i].address == s.connectedAddress))
  {
    hide Ascii, StateName, AddressText, Carries, NameSeen, AtMost, Terminating;
    forall i | 0 <= i < |s.table|
      ensures Carries(v.members[5].value.items[i], 6, "connected",
                      Json.Bool(ConnectionRuns.Live(s.state) && s.table[i].address == s.connectedAddress))
    {
      assert s.table[i] in s.table;
      assert DisplaysDevice(v.members[5].value.items[i], s.table[i]);
    }
  }

  lemma RenderingIs(snapshot: Snapshot)
    requires ValidSnapshot(snapshot)
    ensures JsonWriter.Rendering(snapshot) == Json.Print(StatusJson(Meaning(snapshot)))
  {
  }
}
