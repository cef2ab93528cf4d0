/** Reassembling attributes from single bytes, and what each attribute does to the device record. */
module SdpParser {
  import opened Basics
  import opened DeviceTable
  import opened HidDescriptor
  import HidReference
  import opened SdpElements
  import opened SdpReport
  import opened SdpSearch

  const BUFFER_SIZE := 256

  const ATTR_PROTOCOL_DESCRIPTOR_LIST: uint16 := 0x0004
  const ATTR_ADDITIONAL_PROTOCOL_DESCRIPTOR_LISTS: uint16 := 0x000d
  const ATTR_SERVICE_NAME: uint16 := 0x0100
  const ATTR_PROVIDER_NAME: uint16 := 0x0102
  const ATTR_HID_DESCRIPTOR_LIST: uint16 := 0x0206

  const MALFORMED_REPORT := ReportFlags(true, false, false, false, false, false, false)
  const TOO_LARGE_REPORT := ReportFlags(true, true, false, false, false, false, false)

  function FlagsOf(info: HidReference.Info): ReportFlags {
    ReportFlags(true, false, info.valid, info.hasKeyboard, info.hasConsumerControl, info.hasNkroKeyboard,
                info.usesReportIds)
  }

  /** The string that fills the front of the attribute, cut to what a name can hold. */
  function TextIn(bytes: seq<byte>): Option<seq<byte>>
    requires |bytes| <= U16_MAX
  {
    match ReadHead(bytes)
    case None => None
    case Some(head) =>
      if head.kind != STRING then None else Some(Truncated(bytes[head.headerSize..head.Total()]))
  }

  /** What a complete attribute says about the device. */
  function AttributeRead(device: Device, id: uint16, bytes: seq<byte>): Device
    requires |bytes| <= U16_MAX
  {
    if id == ATTR_HID_DESCRIPTOR_LIST then
      match ReportIn(bytes)
      case None => device.(report := MALFORMED_REPORT)
      case Some(descriptor) => device.(report := FlagsOf(HidReference.Parse(descriptor)))
    else if id == ATTR_PROTOCOL_DESCRIPTOR_LIST then
      match PsmIn(bytes)
      case None => device
      case Some(psm) => device.(hidControlPsm := psm)
    else if id == ATTR_ADDITIONAL_PROTOCOL_DESCRIPTOR_LISTS then
      match PsmIn(bytes)
      case None => device
      case Some(psm) => device.(hidInterruptPsm := psm)
    else if id == ATTR_SERVICE_NAME then
      match TextIn(bytes)
      case None => device
      case Some(text) =>
        if device.hasName || text == [] then device
        else device.(name := Renamed(device.name, text), hasName := true)
    else
      device
  }

  /** What an attribute longer than the buffer says. */
  function AttributeTooLong(device: Device, id: uint16): Device {
    if id == ATTR_HID_DESCRIPTOR_LIST then device.(report := TOO_LARGE_REPORT) else device
  }

  function WholeAttribute(device: Device, id: uint16, bytes: seq<byte>): Device
    requires |bytes| <= U16_MAX
  {
    if |bytes| <= BUFFER_SIZE then AttributeRead(device, id, bytes) else AttributeTooLong(device, id)
  }

  type Buffer = b: seq<byte> | |b| == BUFFER_SIZE witness seq(BUFFER_SIZE, _ => 0)

  /** The parser and the device record it fills, if the link's device is known. */
  datatype Parsing = Parsing(buffer: Buffer, completed: uint16, device: Option<Device>)

  function OnDevice(device: Option<Device>, change: Device -> Device): Option<Device> {
    match device
    case None => None
    case Some(d) => Some(change(d))
  }

  /** The effect of one byte of an attribute. */
  function Fed(p: Parsing, id: uint16, length: uint16, offset: uint16, data: byte): Parsing {
    if length == 0 || offset >= length then p
    else if length > BUFFER_SIZE then
      p.(device := OnDevice(p.device, d => AttributeTooLong(d, id)))
    else
      var buffer := p.buffer[offset := data];
      if offset + 1 == length then
        Parsing(buffer, (p.completed + 1) % 0x1_0000, OnDevice(p.device, d => AttributeRead(d, id, buffer[..length])))
      else p.(buffer := buffer)
  }

  class SdpParser {
    const buffer: array<byte>
    const hid: DescriptorParser
    var completedAttributeCount: uint16
    ghost var bytes: Buffer

    ghost const Workspace: set<object> := hid.Sets + {hid, hid.stack}

    ghost predicate Valid()
      reads this, buffer
    {
      buffer.Length == BUFFER_SIZE && hid.Shaped() && buffer !in Workspace && this !in Workspace && bytes == buffer[..]
    }

    ghost function View(manager: DeviceManager, slot: Option<nat>): Parsing
      requires slot.Some? ==> slot.value < |manager.table|
      reads this, manager
    {
      Parsing(bytes, completedAttributeCount, if slot.Some? then Some(manager.table[slot.value]) else None)
    }

    constructor ()
      ensures Valid() && completedAttributeCount == 0 && bytes == seq(BUFFER_SIZE, _ => 0)
      ensures fresh(buffer) && fresh(Workspace)
    {
      var h := new DescriptorParser();
      buffer := new byte[BUFFER_SIZE](_ => 0);
      bytes := seq(BUFFER_SIZE, _ => 0);
      hid := h;
      completedAttributeCount := 0;
    }

    method Reset()
      modifies `completedAttributeCount
      ensures completedAttributeCount == 0
    {
      completedAttributeCount := 0;
    }

    /** Only the record in `slot` changes, to what the attribute says; no slot, no change. */
    method ParseAttribute(manager: DeviceManager, slot: Option<nat>, id: uint16, attribute: seq<byte>)
      requires Valid() && manager.Valid() && {manager, manager.devices} !! Workspace && |attribute| <= U16_MAX
      requires slot.Some? ==> slot.value < |manager.table|
      modifies manager.devices, manager`table, Workspace
      ensures manager.Valid()
      ensures manager.table == match slot
                               case None => old(manager.table)
                               case Some(i) =>
                                 old(manager.table)[i := AttributeRead(old(manager.table)[i], id, attribute)]
    {
      hide HidReference.Parse, ReportIn, PsmIn, DescriptorParser.Shaped;
      if id == ATTR_HID_DESCRIPTOR_LIST {
        if slot.None? { return; }
        manager.Put(slot.value, manager.devices[slot.value].(report := MALFORMED_REPORT));
        var descriptor := FindReportDescriptor(attribute);
        if descriptor.None? { return; }
        var info := hid.Parse(descriptor.value);
        manager.Put(slot.value, manager.devices[slot.value].(report := FlagsOf(info)));
      } else if id == ATTR_PROTOCOL_DESCRIPTOR_LIST || id == ATTR_ADDITIONAL_PROTOCOL_DESCRIPTOR_LISTS {
        var psm := FindL2capPsm(attribute);
        if psm.None? { return; }
        if slot.Some? {
          if id == ATTR_PROTOCOL_DESCRIPTOR_LIST {
            manager.Put(slot.value, manager.devices[slot.value].(hidControlPsm := psm.value));
          } else {
            manager.Put(slot.value, manager.devices[slot.value].(hidInterruptPsm := psm.value));
          }
        }
      } else if id == ATTR_SERVICE_NAME || id == ATTR_PROVIDER_NAME {
        ReadName(manager, slot, id, attribute);
      }
    }

    method ReadName(manager: DeviceManager, slot: Option<nat>, id: uint16, attribute: seq<byte>)
      requires manager.Valid() && |attribute| <= U16_MAX && (id == ATTR_SERVICE_NAME || id == ATTR_PROVIDER_NAME)
      requires slot.Some? ==> slot.value < |manager.table|
      modifies manager.devices, manager`table
      ensures manager.Valid()
      ensures manager.table == match slot
                               case None => old(manager.table)
                               case Some(i) =>
                                 old(manager.table)[i := AttributeRead(old(manager.table)[i], id, attribute)]
    {
      hide ReadHead;
      var e := ReadElement(attribute);
      if e.None? || e.value.kind != STRING { return; }
      var text := e.value.data;
      if |text| >= NAME_SIZE { text := text[..NAME_SIZE - 1]; }
      if id == ATTR_SERVICE_NAME && slot.Some? && !manager.devices[slot.value].hasName && |text| > 0 {
        var device := manager.devices[slot.value];
        manager.Put(slot.value, device.(name := Renamed(device.name, text), hasName := true));
      }
    }

    method Feed(manager: DeviceManager, slot: Option<nat>, id: uint16, length: uint16, offset: uint16, data: byte)
      requires Valid() && manager.Valid() && {manager, manager.devices} !! Workspace + {this, buffer}
      requires slot.Some? ==> slot.value < |manager.table|
      modifies this, buffer, manager.devices, manager`table, Workspace
      ensures Valid() && manager.Valid() && |manager.table| == |old(manager.table)|
      ensures View(manager, slot) == Fed(old(View(manager, slot)), id, length, offset, data)
      ensures manager.table == if slot.None? then old(manager.table)
                               else old(manager.table)[slot.value := manager.table[slot.value]]
    {
      hide AttributeRead, DescriptorParser.Shaped;
      if length == 0 || offset >= length { return; }
      if length > BUFFER_SIZE {
        if id == ATTR_HID_DESCRIPTOR_LIST && slot.Some? {
          manager.Put(slot.value, manager.devices[slot.value].(report := TOO_LARGE_REPORT));
        }
        return;
      }
      buffer[offset] := data;
      bytes := bytes[offset := data];
      if offset + 1 == length {
        completedAttributeCount := (completedAttributeCount + 1) % 0x1_0000;
        ParseAttribute(manager, slot, id, buffer[..length]);
      }
    }
  }

  // ------------------------------------------------------------------------
  // Streaming equals batch

  type AttributeBytes = b: seq<byte> | |b| <= U16_MAX

  datatype Attribute = Attribute(id: uint16, bytes: AttributeBytes)

  /** Feeding the first `count` bytes of an attribute, in offset order. */
  function FedPrefix(p: Parsing, a: Attribute, count: nat): Parsing
    requires count <= |a.bytes|
  {
    if count == 0 then p
    else Fed(FedPrefix(p, a, count - 1), a.id, |a.bytes|, count - 1, a.bytes[count - 1])
  }

  function Streamed(p: Parsing, attributes: seq<Attribute>): Parsing
    decreases |attributes|
  {
    if attributes == [] then p
    else Streamed(FedPrefix(p, attributes[0], |attributes[0].bytes|), attributes[1..])
  }

  /** Each non-empty attribute read as a whole. */
  function Batched(device: Device, attributes: seq<Attribute>): Device
    decreases |attributes|
  {
    if attributes == [] then device
    else
      var a := attributes[0];
      Batched(if a.bytes == [] then device else WholeAttribute(device, a.id, a.bytes), attributes[1..])
  }

  /** How many attributes are non-empty and fit the buffer. */
  function Buffered(attributes: seq<Attribute>): nat {
    if attributes == [] then 0
    else (if 0 < |attributes[0].bytes| <= BUFFER_SIZE then 1 else 0) + Buffered(attributes[1..])
  }

  /** Until the last byte, feeding only fills the buffer. */
  lemma {:induction false} FillingBuffer(p: Parsing, a: Attribute, count: nat)
    requires count < |a.bytes| <= BUFFER_SIZE
    ensures var q := FedPrefix(p, a, count);
            q.buffer[..count] == a.bytes[..count] && q.completed == p.completed && q.device == p.device
  {
    if count > 0 {
      FillingBuffer(p, a, count - 1);
      var q := FedPrefix(p, a, count - 1);
      assert q.buffer[count - 1 := a.bytes[count - 1]][..count] == q.buffer[..count - 1] + [a.bytes[count - 1]];
      assert a.bytes[..count] == a.bytes[..count - 1] + [a.bytes[count - 1]];
    }
  }

  lemma OneAttributeFits(p: Parsing, a: Attribute)
    requires 0 < |a.bytes| <= BUFFER_SIZE
    ensures var q := FedPrefix(p, a, |a.bytes|);
            && q.completed == (p.completed + 1) % 0x1_0000
            && q.device == OnDevice(p.device, d => AttributeRead(d, a.id, a.bytes))
  {
    hide AttributeRead;
    var n := |a.bytes| - 1;
    FillingBuffer(p, a, n);
    var q := FedPrefix(p, a, n);
    assert q.buffer[n := a.bytes[n]][..n + 1] == q.buffer[..n] + [a.bytes[n]];
    assert a.bytes == a.bytes[..n] + [a.bytes[n]];
  }

  /** A long attribute never touches the buffer, and every byte says the same thing about the device. */
  lemma {:induction false} OneAttributeTooLong(p: Parsing, a: Attribute, count: nat)
    requires BUFFER_SIZE < |a.bytes| && 0 < count <= |a.bytes|
    ensures FedPrefix(p, a, count)
         == p.(device := match p.device case None => None case Some(d) => Some(AttributeTooLong(d, a.id)))
  {
    if count > 1 { OneAttributeTooLong(p, a, count - 1); }
  }

  /**
   Feeding a list of attributes byte by byte leaves the device record as reading
   each attribute whole would, and counts those that fit modulo 2^16.
   */
  lemma {:induction false} StreamingIsBatching(p: Parsing, attributes: seq<Attribute>)
    ensures var q := Streamed(p, attributes);
            && q.completed == (p.completed + Buffered(attributes)) % 0x1_0000
            && q.device == match p.device case None => None case Some(d) => Some(Batched(d, attributes))
    decreases |attributes|
  {
    if attributes != [] {
      hide AttributeRead, AttributeTooLong, Fed;
      var a := attributes[0];
      var n := |a.bytes|;
      if 0 < n <= BUFFER_SIZE { OneAttributeFits(p, a); }
      if n > BUFFER_SIZE { OneAttributeTooLong(p, a, n); }
      StreamingIsBatching(FedPrefix(p, a, n), attributes[1..]);
    }
  }
}
