/**
 What the attributes of a service record, taken together, say about a device:
 each field of the record by itself, over any list of attributes.
 */
module SdpRecord {
  import opened Basics
  import opened DeviceTable
  import opened SdpElements
  import opened SdpParser
  import HidFlags
  import HidItems
  import HidReference
  import SdpReport
  import SdpSearch

  /** What the last attribute that says something says. */
  function Latest<T>(attributes: seq<Attribute>, about: Attribute -> Option<T>): Option<T> {
    if attributes == [] then None
    else
      var n := |attributes| - 1;
      if about(attributes[n]).Some? then about(attributes[n]) else Latest(attributes[..n], about)
  }

  /** What the first attribute that says something says. */
  function Earliest<T>(attributes: seq<Attribute>, about: Attribute -> Option<T>): Option<T> {
    if attributes == [] then None
    else if about(attributes[0]).Some? then about(attributes[0])
    else Earliest(attributes[1..], about)
  }

  function OrElse<T>(said: Option<T>, otherwise: T): T {
    if said.Some? then said.value else otherwise
  }

  /** Attribute `n` says something, and no later one does. */
  predicate LastAt<T>(attributes: seq<Attribute>, about: Attribute -> Option<T>, n: nat) {
    n < |attributes| && about(attributes[n]).Some? && forall j | n < j < |attributes| :: about(attributes[j]).None?
  }

  /** Attribute `n` says something, and no earlier one does. */
  predicate FirstAt<T>(attributes: seq<Attribute>, about: Attribute -> Option<T>, n: nat) {
    n < |attributes| && about(attributes[n]).Some? && forall j | 0 <= j < n :: about(attributes[j]).None?
  }

  lemma {:induction false} LatestIsLast<T>(attributes: seq<Attribute>, about: Attribute -> Option<T>)
    ensures Latest(attributes, about).None? <==> forall a <- attributes :: about(a).None?
    ensures forall n | 0 <= n < |attributes| && LastAt(attributes, about, n) ::
              Latest(attributes, about) == about(attributes[n])
    decreases |attributes|
  {
    if attributes != [] {
      var n := |attributes| - 1;
      var shorter := attributes[..n];
      LatestIsLast(shorter, about);
      assert attributes == shorter + [attributes[n]];
      forall m | 0 <= m < |attributes| && LastAt(attributes, about, m)
        ensures Latest(attributes, about) == about(attributes[m])
      {
        if m < n {
          assert shorter[m] == attributes[m] && forall j | m < j < n :: shorter[j] == attributes[j];
          assert LastAt(shorter, about, m);
        }
      }
    }
  }

  lemma {:induction false} EarliestIsFirst<T>(attributes: seq<Attribute>, about: Attribute -> Option<T>)
    ensures Earliest(attributes, about).None? <==> forall a <- attributes :: about(a).None?
    ensures forall n | 0 <= n < |attributes| && FirstAt(attributes, about, n) ::
              Earliest(attributes, about) == about(attributes[n])
    decreases |attributes|
  {
    if attributes != [] {
      var rest := attributes[1..];
      EarliestIsFirst(rest, about);
      assert attributes == [attributes[0]] + rest;
      forall m | 0 <= m < |attributes| && FirstAt(attributes, about, m)
        ensures Earliest(attributes, about) == about(attributes[m])
      {
        if m > 0 {
          assert rest[m - 1] == attributes[m] && forall j | 0 <= j < m - 1 :: rest[j] == attributes[j + 1];
          assert FirstAt(rest, about, m - 1);
        }
      }
    }
  }

  predicate Fits(a: Attribute, id: nat) {
    a.id == id && 0 < |a.bytes| <= 256
  }

  /** The control channel's number is in the protocol descriptor list. */
  function ControlNumber(a: Attribute): Option<uint16> {
    if Fits(a, 0x0004) then SdpSearch.PsmIn(a.bytes) else None
  }

  /** The interrupt channel's number is in the additional protocol descriptor lists. */
  function InterruptNumber(a: Attribute): Option<uint16> {
    if Fits(a, 0x000d) then SdpSearch.PsmIn(a.bytes) else None
  }

  /** The service name, when it is not empty. */
  function NameSaid(a: Attribute): Option<seq<byte>> {
    if Fits(a, 0x0100) && TextIn(a.bytes).Some? && TextIn(a.bytes).value != [] then TextIn(a.bytes) else None
  }

  /** Every HID descriptor list replaces all seven flags. */
  function ReportSaid(a: Attribute): Option<ReportFlags> {
    if a.id != 0x0206 || a.bytes == [] then None
    else if |a.bytes| > 256 then
      Some(ReportFlags(present := true, tooLarge := true, valid := false, hasKeyboard := false,
                       hasConsumerControl := false, hasNkroKeyboard := false, usesIds := false))
    else
      match SdpReport.ReportIn(a.bytes)
      case None =>
        Some(ReportFlags(present := true, tooLarge := false, valid := false, hasKeyboard := false,
                         hasConsumerControl := false, hasNkroKeyboard := false, usesIds := false))
      case Some(descriptor) => Some(FlagsSaid(HidReference.Parse(descriptor)))
  }

  function FlagsSaid(info: HidReference.Info): ReportFlags {
    ReportFlags(present := true, tooLarge := false, valid := info.valid, hasKeyboard := info.hasKeyboard,
                hasConsumerControl := info.hasConsumerControl, hasNkroKeyboard := info.hasNkroKeyboard,
                usesIds := info.usesReportIds)
  }

  /** The fields that attributes do not touch. */
  predicate SameOtherwise(before: Device, after: Device) {
    && after.address == before.address
    && after.rssi == before.rssi
    && after.hasRssi == before.hasRssi
    && after.classOfDevice == before.classOfDevice
    && after.connected == before.connected
    && after.bonded == before.bonded
    && after.hidSupported == before.hidSupported
    && after.hidServiceFound == before.hidServiceFound
    && after.sdpCompleted == before.sdpCompleted
  }

  ghost predicate OneSays(before: Device, a: Attribute, after: Device) {
    && after.hidControlPsm == OrElse(ControlNumber(a), before.hidControlPsm)
    && after.hidInterruptPsm == OrElse(InterruptNumber(a), before.hidInterruptPsm)
    && after.report == OrElse(ReportSaid(a), before.report)
    && after.hasName == (before.hasName || NameSaid(a).Some?)
    && (before.hasName || NameSaid(a).None? ==> after.name == before.name)
    && (!before.hasName && NameSaid(a).Some? ==>
          var text := NameSaid(a).value;
          |text| < 64 && after.name == text + [0] + before.name[|text| + 1..])
    && SameOtherwise(before, after)
  }

  function Whole(device: Device, a: Attribute): Device {
    if a.bytes == [] then device else WholeAttribute(device, a.id, a.bytes)
  }

  /** Only report attributes say something about the report, and so on. */
  lemma EachSaysOneThing(a: Attribute)
    ensures a.id != 0x0206 ==> ReportSaid(a).None?
    ensures a.id != 0x0004 ==> ControlNumber(a).None?
    ensures a.id != 0x000d ==> InterruptNumber(a).None?
    ensures a.id != 0x0100 ==> NameSaid(a).None?
  {
  }

  lemma FlagsAreSaid(info: HidReference.Info)
    ensures FlagsOf(info) == FlagsSaid(info)
  {
  }

  lemma NoFlagsAreSaid()
    ensures MALFORMED_REPORT == ReportFlags(present := true, tooLarge := false, valid := false, hasKeyboard := false,
                                            hasConsumerControl := false, hasNkroKeyboard := false, usesIds := false)
    ensures TOO_LARGE_REPORT == ReportFlags(present := true, tooLarge := true, valid := false, hasKeyboard := false,
                                            hasConsumerControl := false, hasNkroKeyboard := false, usesIds := false)
  {
  }

  lemma ReportIsRead(device: Device, a: Attribute)
    requires a.id == 0x0206
    ensures Whole(device, a) == device.(report := OrElse(ReportSaid(a), device.report))
  {
    NoFlagsAreSaid();
    hide SdpReport.ReportIn, HidReference.Parse, FlagsOf, FlagsSaid, TextIn, SdpSearch.PsmIn, Renamed,
         MALFORMED_REPORT, TOO_LARGE_REPORT;
    if 0 < |a.bytes| <= 256 && SdpReport.ReportIn(a.bytes).Some? {
      FlagsAreSaid(HidReference.Parse(SdpReport.ReportIn(a.bytes).value));
    }
  }

  lemma NameIsRead(device: Device, a: Attribute)
    requires a.id == 0x0100
    ensures Whole(device, a)
         == if device.hasName || NameSaid(a).None? then device
            else device.(name := Renamed(device.name, NameSaid(a).value), hasName := true)
  {
    hide SdpSearch.PsmIn, SdpReport.ReportIn, HidReference.Parse, ReadHead, Renamed;
  }

  lemma NumberIsRead(device: Device, a: Attribute)
    requires a.id == 0x0004 || a.id == 0x000d
    ensures Whole(device, a)
         == device.(hidControlPsm := OrElse(ControlNumber(a), device.hidControlPsm),
                    hidInterruptPsm := OrElse(InterruptNumber(a), device.hidInterruptPsm))
  {
    hide SdpReport.ReportIn, HidReference.Parse, FlagsOf, FlagsSaid, TextIn, SdpSearch.PsmIn, Renamed;
  }

  lemma NameFits(a: Attribute)
    requires NameSaid(a).Some?
    ensures |NameSaid(a).value| < 64
  {
  }

  lemma OneName(device: Device, a: Attribute)
    requires a.id == 0x0100
    ensures OneSays(device, a, Whole(device, a))
  {
    EachSaysOneThing(a);
    NameIsRead(device, a);
    if NameSaid(a).Some? { NameFits(a); }
    hide Whole, NameSaid, ReportSaid, ControlNumber, InterruptNumber;
  }

  lemma OtherIsIgnored(device: Device, a: Attribute)
    requires a.id != 0x0206 && a.id != 0x0004 && a.id != 0x000d && a.id != 0x0100
    ensures Whole(device, a) == device
  {
    hide SdpSearch.PsmIn, SdpReport.ReportIn, HidReference.Parse, TextIn;
  }

  lemma OneAttribute(device: Device, a: Attribute)
    ensures OneSays(device, a, Whole(device, a))
  {
    EachSaysOneThing(a);
    if a.id == 0x0206 {
      ReportIsRead(device, a);
      hide Whole, ReportSaid, ControlNumber, InterruptNumber, NameSaid;
    } else if a.id == 0x0004 || a.id == 0x000d {
      NumberIsRead(device, a);
      hide Whole, ReportSaid, ControlNumber, InterruptNumber, NameSaid;
    } else if a.id == 0x0100 {
      OneName(device, a);
      hide *;
    } else {
      OtherIsIgnored(device, a);
      hide Whole, ReportSaid, ControlNumber, InterruptNumber, NameSaid;
    }
  }

  lemma {:induction false} BatchedSnoc(device: Device, attributes: seq<Attribute>, a: Attribute)
    ensures Batched(device, attributes + [a])
         == Whole(Batched(device, attributes), a)
    decreases |attributes|
  {
    hide WholeAttribute;
    if attributes == [] {
      assert [a][1..] == [] && attributes + [a] == [a];
    } else {
      var first := attributes[0];
      assert (attributes + [a])[1..] == attributes[1..] + [a];
      BatchedSnoc(Whole(device, first), attributes[1..], a);
    }
  }

  lemma LatestSnoc<T>(attributes: seq<Attribute>, a: Attribute, about: Attribute -> Option<T>)
    ensures Latest(attributes + [a], about) == if about(a).Some? then about(a) else Latest(attributes, about)
  {
    assert (attributes + [a])[..|attributes|] == attributes;
  }

  lemma {:induction false} EarliestSnoc<T>(attributes: seq<Attribute>, a: Attribute, about: Attribute -> Option<T>)
    ensures Earliest(attributes + [a], about)
         == if Earliest(attributes, about).Some? then Earliest(attributes, about) else about(a)
    decreases |attributes|
  {
    if attributes == [] {
      assert [a][1..] == [] && attributes + [a] == [a];
    } else {
      assert (attributes + [a])[1..] == attributes[1..] + [a];
      EarliestSnoc(attributes[1..], a, about);
    }
  }

  /** All fields of the record after any list of attributes. */
  ghost predicate AllSay(before: Device, attributes: seq<Attribute>, after: Device) {
    && after.hidControlPsm == OrElse(Latest(attributes, ControlNumber), before.hidControlPsm)
    && after.hidInterruptPsm == OrElse(Latest(attributes, InterruptNumber), before.hidInterruptPsm)
    && after.report == OrElse(Latest(attributes, ReportSaid), before.report)
    && after.hasName == (before.hasName || Earliest(attributes, NameSaid).Some?)
    && (before.hasName || Earliest(attributes, NameSaid).None? ==> after.name == before.name)
    && (!before.hasName && Earliest(attributes, NameSaid).Some? ==>
          var text := Earliest(attributes, NameSaid).value;
          |text| < 64 && after.name == text + [0] + before.name[|text| + 1..])
    && SameOtherwise(before, after)
  }

  /**
   The last usable protocol list gives the control number, the last usable
   additional list the interrupt number, the last report attribute the flags,
   and the first service name the name of a device that has none.
   */
  lemma {:induction false} RecordOfAttributes(device: Device, attributes: seq<Attribute>)
    ensures AllSay(device, attributes, Batched(device, attributes))
    decreases |attributes|
  {
    hide Whole, ControlNumber, InterruptNumber, ReportSaid, NameSaid;
    if attributes != [] {
      var n := |attributes| - 1;
      var shorter, a := attributes[..n], attributes[n];
      assert attributes == shorter + [a];
      RecordOfAttributes(device, shorter);
      BatchedSnoc(device, shorter, a);
      OneAttribute(Batched(device, shorter), a);
      LatestSnoc(shorter, a, ControlNumber);
      LatestSnoc(shorter, a, InterruptNumber);
      LatestSnoc(shorter, a, ReportSaid);
      EarliestSnoc(shorter, a, NameSaid);
      hide Batched, Latest, Earliest;
    }
  }

  // ------------------------------------------------------------------------
  // What one attribute says, by the tree that it encodes

  /** The number is that of the first L2CAP descriptor of the list. */
  lemma NumberOfTree(a: Attribute, tree: Element, tail: seq<byte>)
    requires WellFormed(tree) && a.bytes == Encode(tree) + tail && 0 < |a.bytes| <= 256
    ensures a.id == 0x0004 ==> ControlNumber(a) == SdpSearch.FirstPsm(SdpSearch.Preorder(tree))
    ensures a.id == 0x000d ==> InterruptNumber(a) == SdpSearch.FirstPsm(SdpSearch.Preorder(tree))
  {
    hide SdpSearch.PsmIn, SdpSearch.FirstPsm, SdpSearch.Preorder, Encode, WellFormed;
    SdpSearch.PsmIsFirstInPreorder(tree, tail);
  }

  /** A name is cut to 63 bytes. */
  lemma NameOfText(a: Attribute, sizeIndex: nat, text: seq<byte>, tail: seq<byte>)
    requires WellFormed(Leaf(4, sizeIndex, text)) && a.bytes == Encode(Leaf(4, sizeIndex, text)) + tail
    requires a.id == 0x0100 && |a.bytes| <= 256
    ensures NameSaid(a) == if text == [] then None else Some(if |text| > 63 then text[..63] else text)
  {
    SdpSearch.FirstDataOfEncoded(Leaf(4, sizeIndex, text), tail);
    hide Encode, WellFormed, ReadHead;
  }

  /** The flags of a report attribute are what the items of its report descriptor describe. */
  lemma FlagsOfItems(a: Attribute, tree: Element, items: seq<HidItems.Item>)
    requires a.id == 0x0206 && 0 < |a.bytes| <= 256 && WellFormed(tree) && a.bytes == Encode(tree)
    requires items != [] && forall item <- items :: HidItems.WellFormed(item)
    requires SdpReport.ReportOf(tree) == Some(HidItems.EncodeAll(items))
    ensures ReportSaid(a) == Some(FlagsSaid(HidFlags.Described(items)))
  {
    hide *;
    SdpReport.ReportShape(a.bytes, HidItems.EncodeAll(items));
    HidFlags.ParseIsDescribed(HidItems.EncodeAll(items));
    ReportRead(a, HidItems.EncodeAll(items));
  }

  lemma ReportRead(a: Attribute, descriptor: seq<byte>)
    requires a.id == 0x0206 && 0 < |a.bytes| <= 256 && SdpReport.ReportIn(a.bytes) == Some(descriptor)
    ensures ReportSaid(a) == Some(FlagsSaid(HidReference.Parse(descriptor)))
  {
    hide SdpReport.ReportIn, HidReference.Parse;
  }
}
