/** The state snapshot of the control interface: its JSON value, and the bounded writer. */
module ControlJson {
  import opened Basics
  import opened Json
  import DeviceTable

  const MAX_DEVICES := DeviceTable.MAX_DEVICES
  const NAME_SIZE := DeviceTable.NAME_SIZE
  const STATE_SIZE := 24
  const PIN_SIZE := 7
  const VERSION_SIZE := 32
  const MAX_SNAPSHOT_SIZE := 14336

  type Address = DeviceTable.Address

  datatype Device = Device(
    address: Address, name: seq<byte>, rssi: int8, hasRssi: bool, keyboard: bool, bonded: bool, connected: bool,
    descriptorPresent: bool, descriptorTooLarge: bool, descriptorValid: bool,
    reportKeyboard: bool, reportConsumer: bool, reportNkro: bool, reportIds: bool)

  datatype Snapshot = Snapshot(
    version: seq<byte>, state: seq<byte>, autoConnect: bool, hasPin: bool, pin: seq<byte>,
    hasSelected: bool, selected: Address, deviceCount: nat, devices: seq<Device>)

  /** A character array of a struct, with its terminator somewhere inside. */
  predicate Terminated(field: seq<byte>, size: nat) {
    |field| == size && 0 in field
  }

  predicate ValidSnapshot(s: Snapshot) {
    && Terminated(s.version, VERSION_SIZE) && Terminated(s.state, STATE_SIZE) && Terminated(s.pin, PIN_SIZE)
    && |s.devices| == MAX_DEVICES && forall d | d in s.devices :: Terminated(d.name, NAME_SIZE)
  }

  /** The bytes before the first terminator. */
  function CString(field: seq<byte>): (s: seq<byte>)
    requires 0 in field
    ensures |s| < |field| && s == field[..|s|] && field[|s|] == 0 && 0 !in s
  {
    if field[0] == 0 then [] else [field[0]] + CString(field[1..])
  }

  // ------------------------------------------------------------------------
  // What a snapshot says

  datatype Status = Status(
    version: seq<byte>, state: seq<byte>, autoConnect: bool, pin: Option<seq<byte>>,
    selected: Option<Address>, devices: seq<Device>)

  function Shown(d: Device): Device
    requires 0 in d.name
  {
    d.(name := CString(d.name))
  }

  function Count(s: Snapshot): (n: nat)
    ensures n <= MAX_DEVICES
  {
    if s.deviceCount > MAX_DEVICES then MAX_DEVICES else s.deviceCount
  }

  function Meaning(s: Snapshot): Status
    requires ValidSnapshot(s)
  {
    Status(CString(s.version), CString(s.state), s.autoConnect,
           if s.hasPin then Some(CString(s.pin)) else None,
           if s.hasSelected then Some(s.selected) else None,
           seq(Count(s), i requires 0 <= i < Count(s) => Shown(s.devices[i])))
  }

  // ------------------------------------------------------------------------
  // Its JSON value

  const DEVICE_KEYS := [
    "address", "name", "rssi", "hasRssi", "keyboard", "bonded", "connected",
    "reportDescriptorPresent", "reportDescriptorTooLarge", "reportDescriptorValid",
    "reportKeyboard", "reportConsumerControl", "reportNkro", "reportIds"]

  const STATUS_KEYS := ["version", "state", "autoConnect", "pairingPin", "selectedDevice", "devices"]

  function UpperHex(d: nat): byte
    requires d < 16
  {
    if d < 10 then ZERO + d else 65 + d - 10
  }

  function HexPair(b: byte): seq<byte> {
    [UpperHex(b / 16), UpperHex(b % 16)]
  }

  function AddressText(a: Address): (t: seq<byte>)
    ensures |t| == 17
  {
    HexPair(a[0]) + [58] + HexPair(a[1]) + [58] + HexPair(a[2]) + [58]
    + HexPair(a[3]) + [58] + HexPair(a[4]) + [58] + HexPair(a[5])
  }

  function Zip(keys: seq<string>, values: seq<Value>): (members: seq<Member>)
    requires |keys| == |values|
    ensures |members| == |keys|
    ensures forall i | 0 <= i < |keys| :: members[i] == Member(Ascii(keys[i]), values[i])
  {
    seq(|keys|, i requires 0 <= i < |keys| => Member(Ascii(keys[i]), values[i]))
  }

  function DeviceValues(d: Device): (values: seq<Value>)
    ensures |values| == 14
  {
    [Text(AddressText(d.address)), Text(d.name), Number(d.rssi), Bool(d.hasRssi), Bool(d.keyboard), Bool(d.bonded),
     Bool(d.connected), Bool(d.descriptorPresent), Bool(d.descriptorTooLarge), Bool(d.descriptorValid),
     Bool(d.reportKeyboard), Bool(d.reportConsumer), Bool(d.reportNkro), Bool(d.reportIds)]
  }

  function DeviceJson(d: Device): Value {
    Object(Zip(DEVICE_KEYS, DeviceValues(d)))
  }

  function DevicesJson(devices: seq<Device>): (items: seq<Value>)
    ensures |items| == |devices| && forall i | 0 <= i < |devices| :: items[i] == DeviceJson(devices[i])
  {
    seq(|devices|, i requires 0 <= i < |devices| => DeviceJson(devices[i]))
  }

  function StatusValues(s: Status): (values: seq<Value>)
    ensures |values| == 6
  {
    [Text(s.version), Text(s.state), Bool(s.autoConnect),
     if s.pin.Some? then Text(s.pin.value) else Null,
     if s.selected.Some? then Text(AddressText(s.selected.value)) else Null,
     List(DevicesJson(s.devices))]
  }

  function StatusJson(s: Status): Value {
    Object(Zip(STATUS_KEYS, StatusValues(s)))
  }

  // ------------------------------------------------------------------------
  // Reading it back

  function ReadAddress(t: seq<byte>): Option<Address> {
    if |t| != 17 then None
    else
      match (HexByte(t[0], t[1]), HexByte(t[3], t[4]), HexByte(t[6], t[7]),
             HexByte(t[9], t[10]), HexByte(t[12], t[13]), HexByte(t[15], t[16]))
      case (Some(a), Some(b), Some(c), Some(d), Some(e), Some(f)) => Some([a, b, c, d, e, f])
      case _ => None
  }

  lemma HexPairReads(b: byte)
    ensures HexByte(HexPair(b)[0], HexPair(b)[1]) == Some(b)
  {
    assert b == 16 * (b / 16) + b % 16;
  }

  lemma AddressReads(a: Address)
    ensures ReadAddress(AddressText(a)) == Some(a)
  {
    hide HexByte, UpperHex;
    HexPairReads(a[0]);
    HexPairReads(a[1]);
    HexPairReads(a[2]);
    HexPairReads(a[3]);
    HexPairReads(a[4]);
    HexPairReads(a[5]);
    assert a == [a[0], a[1], a[2], a[3], a[4], a[5]];
  }

  predicate HasKeys(v: Value, keys: seq<string>) {
    v.Object? && |v.members| == |keys| && forall i | 0 <= i < |keys| :: v.members[i].key == Ascii(keys[i])
  }

  function Values(members: seq<Member>): (values: seq<Value>)
    ensures |values| == |members| && forall i | 0 <= i < |members| :: values[i] == members[i].value
  {
    seq(|members|, i requires 0 <= i < |members| => members[i].value)
  }

  function DeviceOf(v: seq<Value>): Option<Device>
    requires |v| == 14
  {
    if v[0].Text? && v[1].Text? && v[2].Number? && -128 <= v[2].n < 128 && forall i | 3 <= i < 14 :: v[i].Bool?
    then
      match ReadAddress(v[0].s)
      case Some(address) =>
        Some(Device(address, v[1].s, v[2].n, v[3].b, v[4].b, v[5].b, v[6].b, v[7].b, v[8].b, v[9].b, v[10].b,
                    v[11].b, v[12].b, v[13].b))
      case None => None
    else None
  }

  function ReadDevice(v: Value): Option<Device> {
    if HasKeys(v, DEVICE_KEYS) then DeviceOf(Values(v.members)) else None
  }

  function ReadDevices(items: seq<Value>): Option<seq<Device>> {
    if items == [] then Some([])
    else
      match (ReadDevice(items[0]), ReadDevices(items[1..]))
      case (Some(d), Some(rest)) => Some([d] + rest)
      case _ => None
  }

  function StatusOf(v: seq<Value>): Option<Status>
    requires |v| == 6
  {
    if v[0].Text? && v[1].Text? && v[2].Bool? && (v[3].Null? || v[3].Text?) && (v[4].Null? || v[4].Text?) && v[5].List?
    then
      var address := if v[4].Text? then ReadAddress(v[4].s) else None;
      match ReadDevices(v[5].items)
      case Some(devices) =>
        if v[4].Text? && address.None? then None
        else Some(Status(v[0].s, v[1].s, v[2].b, if v[3].Text? then Some(v[3].s) else None, address, devices))
      case None => None
    else None
  }

  /** What a client makes of the value. */
  function ReadStatus(v: Value): Option<Status> {
    if HasKeys(v, STATUS_KEYS) then StatusOf(Values(v.members)) else None
  }

  lemma ZipReads(keys: seq<string>, values: seq<Value>)
    requires |keys| == |values|
    ensures HasKeys(Object(Zip(keys, values)), keys) && Values(Zip(keys, values)) == values
  {
  }

  lemma DeviceOfValues(d: Device)
    ensures DeviceOf(DeviceValues(d)) == Some(d)
  {
    hide ReadAddress, AddressText;
    AddressReads(d.address);
  }

  lemma DeviceReads(d: Device)
    ensures ReadDevice(DeviceJson(d)) == Some(d)
  {
    hide DeviceOf, DeviceValues, Zip, HasKeys, Values, DEVICE_KEYS;
    KeyCounts();
    ZipReads(DEVICE_KEYS, DeviceValues(d));
    DeviceOfValues(d);
  }

  lemma KeyCounts()
    ensures |DEVICE_KEYS| == 14 && |STATUS_KEYS| == 6
  {
  }

  lemma {:induction false} DevicesRead(devices: seq<Device>)
    ensures ReadDevices(DevicesJson(devices)) == Some(devices)
  {
    hide ReadDevice, DeviceJson;
    if devices != [] {
      DeviceReads(devices[0]);
      DevicesRead(devices[1..]);
      assert DevicesJson(devices)[1..] == DevicesJson(devices[1..]);
      assert devices == [devices[0]] + devices[1..];
    }
  }

  lemma StatusOfValues(s: Status)
    ensures StatusOf(StatusValues(s)) == Some(s)
  {
    hide ReadAddress, AddressText, ReadDevices, DevicesJson;
    DevicesRead(s.devices);
    if s.selected.Some? { AddressReads(s.selected.value); }
  }

  lemma StatusReads(s: Status)
    ensures ReadStatus(StatusJson(s)) == Some(s)
  {
    hide StatusOf, StatusValues, Zip, HasKeys, Values, STATUS_KEYS;
    KeyCounts();
    ZipReads(STATUS_KEYS, StatusValues(s));
    StatusOfValues(s);
  }

  /** Parsing the text of a snapshot recovers everything it shows. */
  lemma ClientReadsSnapshot(s: Snapshot)
    requires ValidSnapshot(s)
    ensures var parsed := Parse(Print(StatusJson(Meaning(s))));
            parsed.Some? && ReadStatus(parsed.value) == Some(Meaning(s))
  {
    hide Parse, Print, ReadStatus, StatusJson, Meaning;
    ParseIsInverseOfPrint(StatusJson(Meaning(s)));
    StatusReads(Meaning(s));
  }

  // ------------------------------------------------------------------------
  // Which key carries which field

  predicate Carries(v: Value, i: nat, key: string, value: Value) {
    v.Object? && i < |v.members| && v.members[i] == Member(Ascii(key), value)
  }

  /** A device's members, one key for each field. */
  predicate DescribesDevice(v: Value, d: Device) {
    && v.Object? && |v.members| == 14
    && Carries(v, 0, "address", Text(AddressText(d.address)))
    && Carries(v, 1, "name", Text(d.name))
    && Carries(v, 2, "rssi", Number(d.rssi))
    && Carries(v, 3, "hasRssi", Bool(d.hasRssi))
    && Carries(v, 4, "keyboard", Bool(d.keyboard))
    && Carries(v, 5, "bonded", Bool(d.bonded))
    && Carries(v, 6, "connected", Bool(d.connected))
    && Carries(v, 7, "reportDescriptorPresent", Bool(d.descriptorPresent))
    && Carries(v, 8, "reportDescriptorTooLarge", Bool(d.descriptorTooLarge))
    && Carries(v, 9, "reportDescriptorValid", Bool(d.descriptorValid))
    && Carries(v, 10, "reportKeyboard", Bool(d.reportKeyboard))
    && Carries(v, 11, "reportConsumerControl", Bool(d.reportConsumer))
    && Carries(v, 12, "reportNkro", Bool(d.reportNkro))
    && Carries(v, 13, "reportIds", Bool(d.reportIds))
  }

  lemma CarriesZipped(keys: seq<string>, values: seq<Value>, i: nat, key: string)
    requires i < |keys| == |values| && keys[i] == key
    ensures Carries(Object(Zip(keys, values)), i, key, values[i])
  {
    hide Ascii;
  }

  lemma FirstKeys()
    ensures |DEVICE_KEYS| == 14
    ensures DEVICE_KEYS[0] == "address" && DEVICE_KEYS[1] == "name" && DEVICE_KEYS[2] == "rssi"
            && DEVICE_KEYS[3] == "hasRssi" && DEVICE_KEYS[4] == "keyboard" && DEVICE_KEYS[5] == "bonded"
            && DEVICE_KEYS[6] == "connected"
  {
  }

  lemma ReportKeys()
    ensures |DEVICE_KEYS| == 14
    ensures DEVICE_KEYS[7] == "reportDescriptorPresent" && DEVICE_KEYS[8] == "reportDescriptorTooLarge"
            && DEVICE_KEYS[9] == "reportDescriptorValid" && DEVICE_KEYS[10] == "reportKeyboard"
            && DEVICE_KEYS[11] == "reportConsumerControl" && DEVICE_KEYS[12] == "reportNkro"
            && DEVICE_KEYS[13] == "reportIds"
  {
  }

  lemma DeviceIsDescribed(d: Device)
    ensures DescribesDevice(DeviceJson(d), d)
  {
    FirstKeys();
    ReportKeys();
    hide DEVICE_KEYS, Ascii, Zip, Carries, AddressText;
    var values := DeviceValues(d);
    CarriesZipped(DEVICE_KEYS, values, 0, "address");
    CarriesZipped(DEVICE_KEYS, values, 1, "name");
    CarriesZipped(DEVICE_KEYS, values, 2, "rssi");
    CarriesZipped(DEVICE_KEYS, values, 3, "hasRssi");
    CarriesZipped(DEVICE_KEYS, values, 4, "keyboard");
    CarriesZipped(DEVICE_KEYS, values, 5, "bonded");
    CarriesZipped(DEVICE_KEYS, values, 6, "connected");
    CarriesZipped(DEVICE_KEYS, values, 7, "reportDescriptorPresent");
    CarriesZipped(DEVICE_KEYS, values, 8, "reportDescriptorTooLarge");
    CarriesZipped(DEVICE_KEYS, values, 9, "reportDescriptorValid");
    CarriesZipped(DEVICE_KEYS, values, 10, "reportKeyboard");
    CarriesZipped(DEVICE_KEYS, values, 11, "reportConsumerControl");
    CarriesZipped(DEVICE_KEYS, values, 12, "reportNkro");
    CarriesZipped(DEVICE_KEYS, values, 13, "reportIds");
  }

  /** A status' members. */
  predicate DescribesStatus(v: Value, s: Status) {
    && v.Object? && |v.members| == 6
    && Carries(v, 0, "version", Text(s.version))
    && Carries(v, 1, "state", Text(s.state))
    && Carries(v, 2, "autoConnect", Bool(s.autoConnect))
    && Carries(v, 3, "pairingPin", if s.pin.Some? then Text(s.pin.value) else Null)
    && Carries(v, 4, "selectedDevice", if s.selected.Some? then Text(AddressText(s.selected.value)) else Null)
    && v.members[5].key == Ascii("devices")
    && v.members[5].value.List? && |v.members[5].value.items| == |s.devices|
    && forall i | 0 <= i < |s.devices| :: DescribesDevice(v.members[5].value.items[i], s.devices[i])
  }

  lemma StatusKeys()
    ensures |STATUS_KEYS| == 6
    ensures STATUS_KEYS[0] == "version" && STATUS_KEYS[1] == "state" && STATUS_KEYS[2] == "autoConnect"
            && STATUS_KEYS[3] == "pairingPin" && STATUS_KEYS[4] == "selectedDevice" && STATUS_KEYS[5] == "devices"
  {
  }

  lemma StatusIsDescribed(s: Status)
    ensures DescribesStatus(StatusJson(s), s)
  {
    StatusKeys();
    hide STATUS_KEYS, Ascii, AddressText, DeviceJson, DescribesDevice;
    var values := StatusValues(s);
    CarriesZipped(STATUS_KEYS, values, 0, "version");
    CarriesZipped(STATUS_KEYS, values, 1, "state");
    CarriesZipped(STATUS_KEYS, values, 2, "autoConnect");
    CarriesZipped(STATUS_KEYS, values, 3, "pairingPin");
    CarriesZipped(STATUS_KEYS, values, 4, "selectedDevice");
    forall i | 0 <= i < |s.devices| ensures DescribesDevice(values[5].items[i], s.devices[i]) {
      DeviceIsDescribed(s.devices[i]);
    }
    hide Carries;
  }

  /** An address is written as six pairs of upper-case hexadecimal digits between colons. */
  lemma AddressIsHex(a: Address, i: nat)
    requires i < 6
    ensures AddressText(a)[3 * i] == Ascii("0123456789ABCDEF")[a[i] / 16]
    ensures AddressText(a)[3 * i + 1] == Ascii("0123456789ABCDEF")[a[i] % 16]
    ensures i < 5 ==> AddressText(a)[3 * i + 2] == Ascii(":")[0]
  {
    HexDigits(a[i] / 16);
    HexDigits(a[i] % 16);
    hide Ascii, UpperHex;
  }

  lemma HexDigits(d: nat)
    requires d < 16
    ensures UpperHex(d) == Ascii("0123456789ABCDEF")[d] && Ascii(":")[0] == 58
  {
  }
}
