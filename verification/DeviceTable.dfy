/** The table of discovered devices: at most 16, looked up by address. */
module DeviceTable {
  import opened Basics

  const MAX_DEVICES := 16
  const NAME_SIZE := 64

  type Address = a: seq<byte> | |a| == 6 witness [0, 0, 0, 0, 0, 0]
  type NameBuffer = n: seq<byte> | |n| == NAME_SIZE witness seq(NAME_SIZE, _ => 0)

  datatype ReportFlags = ReportFlags(present: bool, tooLarge: bool, valid: bool, hasKeyboard: bool,
                                     hasConsumerControl: bool, hasNkroKeyboard: bool, usesIds: bool)

  const NO_REPORT := ReportFlags(false, false, false, false, false, false, false)

  datatype Device = Device(
    address: Address,
    name: NameBuffer,
    rssi: int8,
    classOfDevice: uint32,
    connected: bool,
    bonded: bool,
    hidSupported: bool,
    hasRssi: bool,
    hasName: bool,
    hidServiceFound: bool,
    hidControlPsm: uint16,
    hidInterruptPsm: uint16,
    sdpCompleted: bool,
    report: ReportFlags)

  /** A zeroed record with its address. */
  function NewDevice(address: Address): Device {
    Device(address, seq(NAME_SIZE, _ => 0), 0, 0, false, false, false, false, false, false, 0, 0, false, NO_REPORT)
  }

  const ZERO_ADDRESS: Address := [0, 0, 0, 0, 0, 0]

  /** Peripheral major class with the keyboard bit. */
  predicate IsKeyboardClass(classOfDevice: uint32) {
    (classOfDevice / 0x100) % 0x20 == 0x05 && (classOfDevice / 0x40) % 2 == 1
  }

  /** Copying `text` and its terminator over the start of a name. */
  function Renamed(name: NameBuffer, text: seq<byte>): NameBuffer
    requires |text| < NAME_SIZE
  {
    text + [0] + name[|text| + 1..]
  }

  /** What an inquiry result says about one device. */
  datatype Sighting = Sighting(address: Address, hasRssi: bool, rssi: int8, classOfDevice: uint32, name: seq<byte>)

  function Truncated(text: seq<byte>): (short: seq<byte>)
    ensures |short| < NAME_SIZE
  {
    if |text| >= NAME_SIZE then text[..NAME_SIZE - 1] else text
  }

  function Sighted(device: Device, s: Sighting): Device {
    device.(classOfDevice := s.classOfDevice,
            hidSupported := IsKeyboardClass(s.classOfDevice),
            hasRssi := s.hasRssi,
            rssi := if s.hasRssi then s.rssi else device.rssi,
            name := if s.name != [] then Renamed(device.name, Truncated(s.name)) else device.name,
            hasName := device.hasName || s.name != [])
  }

  function FirstIndex(table: seq<Device>, wanted: Device -> bool): (index: Option<nat>)
    ensures index.Some? ==> index.value < |table| && wanted(table[index.value])
                            && forall j | 0 <= j < index.value :: !wanted(table[j])
    ensures index.None? ==> forall j | 0 <= j < |table| :: !wanted(table[j])
  {
    if table == [] then None
    else
      var n := |table| - 1;
      var before := FirstIndex(table[..n], wanted);
      if before.Some? then before else if wanted(table[n]) then Some(n) else None
  }

  function IndexOf(table: seq<Device>, address: Address): (index: Option<nat>)
    ensures index.Some? ==> index.value < |table| && table[index.value].address == address
                            && forall j | 0 <= j < index.value :: table[j].address != address
    ensures index.None? ==> forall j | 0 <= j < |table| :: table[j].address != address
  {
    if table == [] then None
    else
      var n := |table| - 1;
      var before := IndexOf(table[..n], address);
      if before.Some? then before else if table[n].address == address then Some(n) else None
  }

  predicate IsKeyboard(device: Device) {
    device.hidSupported
  }

  predicate IsBondedKeyboard(device: Device) {
    device.hidSupported && device.bonded
  }

  /** The first bonded keyboard, or else the first keyboard. */
  function ConnectionTarget(table: seq<Device>): Option<Address> {
    match FirstIndex(table, IsBondedKeyboard)
    case Some(i) => Some(table[i].address)
    case None =>
      match FirstIndex(table, IsKeyboard)
      case Some(i) => Some(table[i].address)
      case None => None
  }

  /** The table after a sighting; a full table ignores new addresses. */
  function Upserted(table: seq<Device>, s: Sighting): seq<Device> {
    match IndexOf(table, s.address)
    case Some(i) => table[i := Sighted(table[i], s)]
    case None => if |table| >= MAX_DEVICES then table else table + [Sighted(NewDevice(s.address), s)]
  }

  function Disconnected(table: seq<Device>): seq<Device> {
    seq(|table|, i requires 0 <= i < |table| => table[i].(connected := false))
  }

  function Unbonded(table: seq<Device>): seq<Device> {
    seq(|table|, i requires 0 <= i < |table| => table[i].(bonded := false))
  }

  /** At most 16 devices, no address twice. */
  predicate ValidTable(table: seq<Device>) {
    && |table| <= MAX_DEVICES
    && forall i, j | 0 <= i < j < |table| :: table[i].address != table[j].address
  }

  predicate Holds(table: seq<Device>, address: Address) {
    exists i :: 0 <= i < |table| && table[i].address == address
  }

  lemma NewDeviceAddress(address: Address)
    ensures NewDevice(address).address == address
  {
  }

  lemma IndexIs(table: seq<Device>, address: Address, i: nat)
    requires i < |table| && table[i].address == address && forall j | 0 <= j < i :: table[j].address != address
    ensures IndexOf(table, address) == Some(i)
  {
    hide IndexOf;
  }

  /** Where a sighted device is found: where it was, or at the end. */
  lemma UpsertedIndex(table: seq<Device>, s: Sighting)
    requires |table| <= MAX_DEVICES
    ensures IndexOf(Upserted(table, s), s.address)
         == match IndexOf(table, s.address)
            case Some(i) => Some(i)
            case None => if |table| == MAX_DEVICES then None else Some(|table|)
  {
    hide IndexOf, Sighted, NewDevice;
    var known := IndexOf(table, s.address);
    if known.Some? {
      SightedAddress(table[known.value], s);
      IndexIs(Upserted(table, s), s.address, known.value);
    } else if |table| < MAX_DEVICES {
      NewDeviceAddress(s.address);
      SightedAddress(NewDevice(s.address), s);
      IndexIs(Upserted(table, s), s.address, |table|);
    }
  }

  lemma SightedAddress(device: Device, s: Sighting)
    ensures Sighted(device, s).address == device.address
  {
  }

  /** A sighting keeps every address and every other record, and adds its own unless the table was full. */
  lemma UpsertKeepsTable(table: seq<Device>, s: Sighting)
    requires ValidTable(table)
    ensures ValidTable(Upserted(table, s))
    ensures forall a: Address | Holds(table, a) :: Holds(Upserted(table, s), a)
    ensures Holds(table, s.address) || |table| < MAX_DEVICES ==> Holds(Upserted(table, s), s.address)
    ensures |table| <= |Upserted(table, s)|
    ensures forall i | 0 <= i < |table| && table[i].address != s.address :: Upserted(table, s)[i] == table[i]
    ensures forall i | 0 <= i < |table| :: Upserted(table, s)[i].address == table[i].address
  {
    var after := Upserted(table, s);
    forall a: Address | Holds(table, a) ensures Holds(after, a) {
      var i :| 0 <= i < |table| && table[i].address == a;
      assert after[i].address == a;
    }
    if IndexOf(table, s.address).None? && |table| < MAX_DEVICES {
      assert after[|table|].address == s.address;
    }
  }

  /** The target is a keyboard, none is passed over, and bonded ones come first. */
  lemma TargetIsBest(table: seq<Device>, address: Address)
    ensures ConnectionTarget(table) == Some(address)
       <==> exists i :: && 0 <= i < |table| && table[i].address == address && table[i].hidSupported
                        && (if table[i].bonded
                            then forall j | 0 <= j < i :: !(table[j].hidSupported && table[j].bonded)
                            else (forall j | 0 <= j < |table| :: !(table[j].hidSupported && table[j].bonded))
                                 && forall j | 0 <= j < i :: !table[j].hidSupported)
    ensures ConnectionTarget(table).None? <==> forall d <- table :: !d.hidSupported
  {
    hide FirstIndex;
    var bonded, any := FirstIndex(table, IsBondedKeyboard), FirstIndex(table, IsKeyboard);
    if bonded.Some? {
      assert forall j | 0 <= j < bonded.value :: !IsBondedKeyboard(table[j]);
      assert IsBondedKeyboard(table[bonded.value]);
    } else {
      assert forall j | 0 <= j < |table| :: !IsBondedKeyboard(table[j]);
      if any.Some? {
        assert forall j | 0 <= j < any.value :: !IsKeyboard(table[j]);
        assert IsKeyboard(table[any.value]);
      } else {
        assert forall j | 0 <= j < |table| :: !IsKeyboard(table[j]);
      }
    }
    if i :| && 0 <= i < |table| && table[i].address == address && table[i].hidSupported
            && (if table[i].bonded
                then forall j | 0 <= j < i :: !(table[j].hidSupported && table[j].bonded)
                else (forall j | 0 <= j < |table| :: !(table[j].hidSupported && table[j].bonded))
                     && forall j | 0 <= j < i :: !table[j].hidSupported) {
      assert table[i].bonded ==> IsBondedKeyboard(table[i]) && bonded == Some(i);
      assert !table[i].bonded ==> bonded.None? && IsKeyboard(table[i]) && any == Some(i);
    }
  }

  /** A class is made of services, a major class, two bits for pointer and keyboard, and a rest; peripherals are 5. */
  lemma KeyboardClassBits(services: nat, major: nat, pointer: nat, keyboard: nat, rest: nat)
    requires services < 0x8_0000 && major < 0x20 && pointer < 2 && keyboard < 2 && rest < 0x40
    ensures IsKeyboardClass(0x2000 * services + 0x100 * major + 0x80 * pointer + 0x40 * keyboard + rest)
       <==> major == 5 && keyboard == 1
  {
    var upper, lower := 0x20 * services + major, 0x80 * pointer + 0x40 * keyboard + rest;
    assert 0x2000 * services + 0x100 * major + lower == 0x100 * upper + lower;
    UpperPart(upper, lower);
    MajorPart(services, major);
    KeyboardBit(2 * upper + pointer, keyboard, rest);
  }

  lemma UpperPart(upper: nat, lower: nat)
    requires lower < 0x100
    ensures (0x100 * upper + lower) / 0x100 == upper
  {
  }

  lemma MajorPart(services: nat, major: nat)
    requires major < 0x20
    ensures (0x20 * services + major) % 0x20 == major
  {
  }

  lemma KeyboardBit(above: nat, keyboard: nat, rest: nat)
    requires keyboard < 2 && rest < 0x40
    ensures (0x80 * above + 0x40 * keyboard + rest) / 0x40 % 2 == keyboard
  {
    assert (0x80 * above + 0x40 * keyboard + rest) / 0x40 == 2 * above + keyboard;
  }

  /** What a sighting records about its device, and that everything else is as it was, or empty for a new one. */
  lemma SightingIsRecorded(table: seq<Device>, s: Sighting, i: nat)
    requires ValidTable(table) && i < |Upserted(table, s)| && Upserted(table, s)[i].address == s.address
    ensures var after := Upserted(table, s)[i];
            && after.classOfDevice == s.classOfDevice
            && after.hidSupported == IsKeyboardClass(s.classOfDevice)
            && after.hasRssi == s.hasRssi
            && (s.hasRssi ==> after.rssi == s.rssi)
            && (s.name != [] ==> after.hasName && NamePrefix(after.name, s.name))
            && (i < |table| ==>
                  && (!s.hasRssi ==> after.rssi == table[i].rssi)
                  && (s.name == [] ==> after.name == table[i].name && after.hasName == table[i].hasName)
                  && after.connected == table[i].connected && after.bonded == table[i].bonded
                  && after.hidControlPsm == table[i].hidControlPsm && after.hidInterruptPsm == table[i].hidInterruptPsm
                  && after.hidServiceFound == table[i].hidServiceFound && after.sdpCompleted == table[i].sdpCompleted
                  && after.report == table[i].report)
            && (i >= |table| ==>
                  && (!s.hasRssi ==> after.rssi == 0)
                  && (s.name == [] ==> !after.hasName && forall c <- after.name :: c == 0)
                  && !after.connected && !after.bonded && after.hidControlPsm == 0 && after.hidInterruptPsm == 0
                  && !after.hidServiceFound && !after.sdpCompleted && !after.report.present)
  {
    hide IsKeyboardClass, IndexOf, Renamed;
    RenamedStarts(if i < |table| then table[i].name else NewDevice(s.address).name, s.name);
  }

  /** The text, cut to 63 bytes, and a terminator. */
  predicate NamePrefix(name: NameBuffer, text: seq<byte>) {
    var kept := if |text| > 63 then text[..63] else text;
    name[..|kept|] == kept && name[|kept|] == 0
  }

  lemma RenamedStarts(name: NameBuffer, text: seq<byte>)
    ensures NamePrefix(Renamed(name, Truncated(text)), text)
  {
  }

  class DeviceManager {
    const devices: array<Device>
    var count: nat
    ghost var table: seq<Device>

    ghost predicate Valid()
      reads this, devices
    {
      devices.Length == MAX_DEVICES && count <= MAX_DEVICES && table == devices[..count]
    }

    constructor ()
      ensures Valid() && table == [] && fresh(devices)
    {
      devices := new Device[MAX_DEVICES](_ => NewDevice(ZERO_ADDRESS));
      count := 0;
      table := [];
    }

    method Init()
      requires Valid()
      modifies this, devices
      ensures Valid() && table == []
    {
      forall i | 0 <= i < devices.Length { devices[i] := NewDevice(ZERO_ADDRESS); }
      count := 0;
      table := [];
    }

    method Find(address: Address) returns (index: Option<nat>)
      requires Valid()
      ensures index == IndexOf(table, address)
    {
      for i := 0 to count
        invariant forall j | 0 <= j < i :: devices[j].address != address
      {
        if devices[i].address == address { return Some(i); }
      }
      index := None;
    }

    /** Writing through a pointer into the table. */
    method Put(i: nat, device: Device)
      requires Valid() && i < |table|
      modifies devices, `table
      ensures Valid() && table == old(table)[i := device]
    {
      devices[i] := device;
      table := table[i := device];
    }

    method Upsert(s: Sighting) returns (index: Option<nat>, created: bool)
      requires Valid()
      modifies this, devices
      ensures Valid() && table == Upserted(old(table), s)
      ensures created <==> |table| > |old(table)|
      ensures index == IndexOf(table, s.address)
      ensures index.None? <==> IndexOf(old(table), s.address).None? && |old(table)| == MAX_DEVICES
    {
      UpsertedIndex(table, s);
      hide Sighted, NewDevice;
      created := false;
      index := Find(s.address);
      if index.None? {
        if count == MAX_DEVICES { return; }
        NewDeviceAddress(s.address);
        index := Some(count);
        devices[count] := NewDevice(s.address);
        count := count + 1;
        created := true;
        table := table + [NewDevice(s.address)];
      }
      Record(index.value, s);
    }

    /** The part that new and known devices share. */
    method Record(i: nat, s: Sighting)
      requires Valid() && i < |table|
      modifies devices, `table
      ensures Valid() && table == old(table)[i := Sighted(old(table)[i], s)]
      ensures table[i].address == old(table)[i].address
    {
      var device := devices[i].(classOfDevice := s.classOfDevice);
      device := device.(hidSupported := IsKeyboardClass(s.classOfDevice), hasRssi := s.hasRssi);
      if s.hasRssi { device := device.(rssi := s.rssi); }
      if s.name != [] {
        var text := if |s.name| >= NAME_SIZE then s.name[..NAME_SIZE - 1] else s.name;
        device := device.(name := Renamed(device.name, text), hasName := true);
      }
      Put(i, device);
    }

    method GetConnectionTarget() returns (target: Option<Address>)
      requires Valid()
      ensures target == ConnectionTarget(table)
    {
      for i := 0 to count
        invariant forall j | 0 <= j < i :: !IsBondedKeyboard(devices[j])
      {
        if devices[i].hidSupported && devices[i].bonded { return Some(devices[i].address); }
      }
      for i := 0 to count
        invariant forall j | 0 <= j < i :: !IsKeyboard(devices[j])
      {
        if devices[i].hidSupported { return Some(devices[i].address); }
      }
      target := None;
    }

    method ClearConnections()
      requires Valid()
      modifies devices, `table
      ensures Valid() && table == Disconnected(old(table))
    {
      for i := 0 to count
        invariant forall j | 0 <= j < i :: devices[j] == old(devices[j]).(connected := false)
        invariant forall j | i <= j < count :: devices[j] == old(devices[j])
      {
        devices[i] := devices[i].(connected := false);
      }
      table := devices[..count];
    }

    method ClearBonded()
      requires Valid()
      modifies devices, `table
      ensures Valid() && table == Unbonded(old(table))
    {
      for i := 0 to count
        invariant forall j | 0 <= j < i :: devices[j] == old(devices[j]).(bonded := false)
        invariant forall j | i <= j < count :: devices[j] == old(devices[j])
      {
        devices[i] := devices[i].(bonded := false);
      }
      table := devices[..count];
    }
  }
}
