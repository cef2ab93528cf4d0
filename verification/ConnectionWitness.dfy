/**
 Runs from power-on, event by event: to a keyboard that is connected by the
 numbers of its service record, to the unexpected transition of one whose record
 gives one number for both channels, and to the one that another link's
 disconnection brings about.
 */
module ConnectionWitness {
  import opened Basics
  import opened BtState
  import opened Connection
  import opened ConnectionLink
  import opened ConnectionRuns
  import opened ConnectionSafety
  import opened DeviceTable
  import opened HidChannels
  import opened ReportQueue
  import SdpElements
  import SdpParser
  import SdpRecord
  import SdpSearch

  /** A run from power-on that keeps the contract, with expected transitions only. */
  ghost predicate Regular(selected: Option<Address>, events: seq<Event>) {
    Keeps(Contract, Start(selected), events) && Expected([], Run(Start(selected), events).log)
  }

  /** One more event of a regular run. */
  lemma Continue(selected: Option<Address>, events: seq<Event>, event: Event)
    requires Regular(selected, events)
    requires Allows(Run(Start(selected), events), event)
    ensures Regular(selected, events + [event]) && Inv(Run(Start(selected), events + [event]))
    ensures Run(Start(selected), events + [event]) == Step(Run(Start(selected), events), event)
  {
    hide Step, Inv, Keeps, Run, Contract, Expected, AmbiguousOpen;
    KeepsSnoc(Contract, Start(selected), events, event);
    InvHolds(selected, events);
    InvHolds(selected, events + [event]);
    var s := Run(Start(selected), events);
    StepFine(s, event);
    ExpectedThenExpected([], s.log, Step(s, event).log);
  }

  /** The contract allows the event, and it is not an ambiguous opening. */
  predicate Allows(s: Bt, event: Event) {
    Contract(s, event) && !AmbiguousOpen(s, event)
  }

  /** What the record says about the report descriptor. */
  function ReportAt(table: seq<Device>, address: Address): ReportFlags {
    match IndexOf(table, address)
    case None => NO_REPORT
    case Some(i) => table[i].report
  }

  // ------------------------------------------------------------------------
  // Power-on to service discovery

  /** Waiting for the services of `address`, with no channel numbers on record yet. */
  ghost predicate Discovering(s: Bt, address: Address) {
    && Inv(s)
    && s.state == ServiceDiscovery && s.acl == 64 && s.stack.sdpPending && s.connectedAddress == address
    && Psms(s.table, address) == (0, 0) && ReportAt(s.table, address) == NO_REPORT
  }

  /** The selected keyboard is dialled, its link comes up as number 64, and is secured. */
  function DiscoveryRun(a: Address): seq<Event> {
    [Working(Dial(true, true)), ConnectionComplete(true, 64, a), SecurityLevel(64, true, true, true)]
  }

  lemma WorkingDials(a: Address)
    ensures Allows(Start(Some(a)), Working(Dial(true, true)))
    ensures var s := Step(Start(Some(a)), Working(Dial(true, true)));
            s.state == Connecting && s.connectingAddress == a && !s.cancelRequested
  {
    hide WithSelected;
  }

  lemma CompletionAuthenticates(s: Bt, a: Address)
    requires s.state == Connecting && s.connectingAddress == a && !s.cancelRequested
    ensures Allows(s, ConnectionComplete(true, 64, a))
    ensures var t := Step(s, ConnectionComplete(true, 64, a));
            t.state == Authenticating && t.acl == 64 && t.connectedAddress == a
  {
    hide IndexOf;
    ValidHandle(64);
  }

  lemma SecurityDiscovers(s: Bt, a: Address)
    requires Inv(s) && s.state == Authenticating && s.acl == 64 && s.connectedAddress == a
    ensures Allows(s, SecurityLevel(64, true, true, true))
    ensures var t := Step(s, SecurityLevel(64, true, true, true));
            && t.state == ServiceDiscovery && t.acl == 64 && t.stack.sdpPending && t.connectedAddress == a
            && Psms(t.table, a) == (0, 0) && ReportAt(t.table, a) == NO_REPORT
  {
    HoldsIsIndexOf(s.table, a);
    var d := ConnectedDevice(s).value;
    ReplacedKept(s.table, d, Undiscovered(s.table[d]));
    hide ValidTable, Holds, IndexOf;
  }

  lemma ReachesDiscovery(a: Address)
    ensures Regular(Some(a), DiscoveryRun(a))
    ensures Discovering(Run(Start(Some(a)), DiscoveryRun(a)), a)
  {
    var working, up := Working(Dial(true, true)), ConnectionComplete(true, 64, a);
    var secured := SecurityLevel(64, true, true, true);
    NothingIsRegular(Some(a));
    WorkingDials(a);
    InOrder(a);
    hide Step, Inv, Regular, Run, DiscoveryRun, Start, Allows;
    Continue(Some(a), [], working);
    CompletionAuthenticates(Run(Start(Some(a)), [] + [working]), a);
    Continue(Some(a), [] + [working], up);
    SecurityDiscovers(Run(Start(Some(a)), [] + [working] + [up]), a);
    Continue(Some(a), [] + [working] + [up], secured);
  }

  lemma InOrder(a: Address)
    ensures DiscoveryRun(a)
         == [] + [Working(Dial(true, true))] + [ConnectionComplete(true, 64, a)] + [SecurityLevel(64, true, true, true)]
  {
  }

  lemma ValidHandle(handle: uint16)
    requires handle < 0x1000
    ensures handle != INVALID_HANDLE
  {
  }

  lemma NothingIsRegular(selected: Option<Address>)
    ensures Regular(selected, []) && Run(Start(selected), []) == Start(selected)
  {
  }

  // ------------------------------------------------------------------------
  // Service discovery to the interrupt channel

  /** The numbers that the channels will be opened by. */
  function Numbers(psms: (uint16, uint16)): (uint16, uint16) {
    if psms.0 == 0 || psms.1 == 0 then (STANDARD_CONTROL_PSM, STANDARD_INTERRUPT_PSM) else psms
  }

  lemma DiscoveredNumbers(device: Device)
    ensures (Discovered(device).hidControlPsm, Discovered(device).hidInterruptPsm)
         == Numbers((device.hidControlPsm, device.hidInterruptPsm))
    ensures Discovered(device).hidControlPsm != 0 && Discovered(device).hidInterruptPsm != 0
  {
  }

  lemma AsksForControl(s: Bt)
    requires ConnectedDevice(s).Some? && s.table[ConnectedDevice(s).value].hidControlPsm != 0
    ensures var t := OpenControlChannel(s, Create(true, 64));
            && t.state == OpeningControl && t.connectedAddress == s.connectedAddress && t.table == s.table
            && s.table[ConnectedDevice(s).value].hidControlPsm in t.stack.opening
            && t.acl == s.acl && t.log == Enter(s, OpeningControl).log
  {
    hide ConnectedDevice, DisconnectAfterError;
  }

  /** The state in which the control channel is asked for. */
  function Found(s: Bt): Bt
    requires ConnectedDevice(s).Some?
  {
    var d := ConnectedDevice(s).value;
    s.(stack := s.stack.(sdpPending := false), table := s.table[d := Discovered(s.table[d])])
  }

  lemma FindsServices(s: Bt)
    requires ConnectedDevice(s).Some?
    ensures Step(s, SdpComplete(true, Create(true, 64))) == OpenControlChannel(Found(s), Create(true, 64))
  {
    hide ConnectedDevice, Discovered, OpenControlChannel, DisconnectAfterError;
    PeripheralSteps(s, SdpComplete(true, Create(true, 64)));
  }

  lemma FoundNumbers(s: Bt)
    requires ConnectedDevice(s).Some?
    ensures ConnectedDevice(Found(s)) == ConnectedDevice(s)
    ensures Psms(Found(s).table, s.connectedAddress) == Numbers(Psms(s.table, s.connectedAddress))
    ensures Psms(Found(s).table, s.connectedAddress).0 != 0 && Psms(Found(s).table, s.connectedAddress).1 != 0
    ensures ReportAt(Found(s).table, s.connectedAddress) == ReportAt(s.table, s.connectedAddress)
    ensures Found(s).table[ConnectedDevice(s).value].hidControlPsm == Psms(Found(s).table, s.connectedAddress).0
  {
    var d := ConnectedDevice(s).value;
    ReplacedKept(s.table, d, Discovered(s.table[d]));
    DiscoveredNumbers(s.table[d]);
    hide IndexOf, Discovered, Numbers, Kept;
  }

  lemma LooksUp(s: Bt)
    requires Inv(s) && s.state == ServiceDiscovery
    ensures ConnectedDevice(s).Some? && s.stack.opening == {}
  {
    HoldsIsIndexOf(s.table, s.connectedAddress);
    hide ValidTable, Holds, IndexOf;
  }

  lemma OpensControl(s: Bt)
    requires Inv(s) && s.state == ServiceDiscovery && s.stack.sdpPending
    ensures Allows(s, SdpComplete(true, Create(true, 64)))
    ensures var t := Step(s, SdpComplete(true, Create(true, 64)));
            && t.state == OpeningControl && t.connectedAddress == s.connectedAddress
            && Psms(t.table, t.connectedAddress) == Numbers(Psms(s.table, s.connectedAddress))
            && ReportAt(t.table, t.connectedAddress) == ReportAt(s.table, s.connectedAddress)
            && Psms(t.table, t.connectedAddress).0 in t.stack.opening
            && Psms(t.table, t.connectedAddress).1 != 0
  {
    LooksUp(s);
    assert Found(s).connectedAddress == s.connectedAddress;
    assert Allows(s, SdpComplete(true, Create(true, 64)));
    hide *;
    FindsServices(s);
    FoundNumbers(s);
    AsksForControl(Found(s));
  }

  /** The control channel is open as number 64 and owes no boot protocol request. */
  predicate ControlReady(c: Channels) {
    c.controlCid == 64 && c.controlOpen && !c.bootRequestPending
  }

  lemma AcceptsControl(s: Bt, p: uint16, q: uint16)
    requires Inv(s) && s.state == OpeningControl && Psms(s.table, s.connectedAddress) == (p, q)
    requires p in s.stack.opening
    ensures Allows(s, ChannelOpened(true, p, 64, true))
    ensures var t := Step(s, ChannelOpened(true, p, 64, true));
            && t.state == SettingBootProtocol && t.channels.controlCid == 64 && t.channels.bootRequestPending
            && t.channels.controlOpen && t.table == s.table
            && t.connectedAddress == s.connectedAddress && Psms(t.table, t.connectedAddress) == (p, q)
  {
    HoldsIsIndexOf(s.table, s.connectedAddress);
    hide ValidTable, Holds, IndexOf;
    assert Step(s, ChannelOpened(true, p, 64, true)).table == s.table;
  }

  lemma SendsBootProtocol(s: Bt)
    requires s.state == SettingBootProtocol && s.channels.controlCid == 64 && s.channels.bootRequestPending
    requires s.channels.controlOpen
    ensures Allows(s, CanSendNow(64, true))
    ensures var t := Step(s, CanSendNow(64, true));
            && t.state == SettingBootProtocol && ControlReady(t.channels)
            && t.connectedAddress == s.connectedAddress && t.table == s.table
  {
  }

  lemma OpensInterrupt(s: Bt, p: uint16, q: uint16)
    requires Inv(s) && s.state == SettingBootProtocol && ControlReady(s.channels)
    requires q != 0 && Psms(s.table, s.connectedAddress) == (p, q)
    ensures Allows(s, HidData(64, [0], Create(true, 65)))
    ensures var t := Step(s, HidData(64, [0], Create(true, 65)));
            && t.state == OpeningInterrupt && ControlReady(t.channels) && q in t.stack.opening && t.table == s.table
            && t.connectedAddress == s.connectedAddress && Psms(t.table, t.connectedAddress) == (p, q)
  {
    HoldsIsIndexOf(s.table, s.connectedAddress);
    hide ValidTable, Holds, IndexOf, BootReport;
    assert Step(s, HidData(64, [0], Create(true, 65))).table == s.table;
  }

  /** What a keyboard answers that opens its control channel as `p` and accepts the boot protocol. */
  function OpeningRun(p: uint16): seq<Event> {
    [SdpComplete(true, Create(true, 64)), ChannelOpened(true, p, 64, true), CanSendNow(64, true),
     HidData(64, [0], Create(true, 65))]
  }

  lemma ReachesOpeningInterrupt(selected: Option<Address>, discovered: seq<Event>)
    requires Regular(selected, discovered)
    requires var s := Run(Start(selected), discovered);
             Inv(s) && s.state == ServiceDiscovery && s.stack.sdpPending
    ensures var s := Run(Start(selected), discovered);
            var (p, q) := Numbers(Psms(s.table, s.connectedAddress));
            var t := Run(Start(selected), discovered + OpeningRun(p));
            && Regular(selected, discovered + OpeningRun(p))
            && Inv(t) && t.state == OpeningInterrupt && ControlReady(t.channels)
            && t.connectedAddress == s.connectedAddress
            && ReportAt(t.table, t.connectedAddress) == ReportAt(s.table, s.connectedAddress)
            && Psms(t.table, t.connectedAddress) == (p, q) && q in t.stack.opening
  {
    hide Step, Inv, Regular, Run, Psms, ReportAt, Numbers, Allows;
    var s := Run(Start(selected), discovered);
    var (p, q) := Numbers(Psms(s.table, s.connectedAddress));
    var run := OpeningRun(p);
    OpensControl(s);
    Continue(selected, discovered, run[0]);
    var found := discovered + [run[0]];
    AcceptsControl(Run(Start(selected), found), p, q);
    Continue(selected, found, run[1]);
    var accepted := found + [run[1]];
    SendsBootProtocol(Run(Start(selected), accepted));
    Continue(selected, accepted, run[2]);
    var sent := accepted + [run[2]];
    OpensInterrupt(Run(Start(selected), sent), p, q);
    Continue(selected, sent, run[3]);
    assert sent + [run[3]] == discovered + run;
  }

  lemma InterruptUp(s: Bt)
    ensures var t := InterruptChannelOpened(s, 65, true);
            && t.state == HidConnected && t.channels.interruptOpen && t.channels.interruptCid == 65
            && (ControlReady(s.channels) ==> ControlReady(t.channels))
            && t.connectedAddress == s.connectedAddress && t.table == s.table
  {
    hide Enter, ScheduleLeds;
    var up := s.(channels := InterruptOpened(s.channels, 65));
    EnterKeeps(up, HidConnected);
    var ready := Enter(up, HidConnected);
    ScheduleLedsShape(ready.(channels := ready.channels.(ledReportPending := true)));
  }

  lemma ScheduleLedsShape(s: Bt)
    ensures ScheduleLeds(s, true) == s.(channels := ScheduleLeds(s, true).channels)
    ensures ScheduleLeds(s, true).channels
         == s.channels.(ledCanSendRequested := ScheduleLeds(s, true).channels.ledCanSendRequested)
  {
  }

  lemma Connects(s: Bt, p: uint16, q: uint16)
    requires Inv(s) && s.state == OpeningInterrupt && Psms(s.table, s.connectedAddress) == (p, q) && p != q
    requires q in s.stack.opening && ControlReady(s.channels)
    ensures Allows(s, ChannelOpened(true, q, 65, true))
    ensures var t := Step(s, ChannelOpened(true, q, 65, true));
            && t.state == HidConnected && t.channels.interruptOpen && t.channels.interruptCid == 65
            && ControlReady(t.channels)
            && t.connectedAddress == s.connectedAddress && t.table == s.table
  {
    HoldsIsIndexOf(s.table, s.connectedAddress);
    InterruptUp(s.(stack := s.stack.(opening := s.stack.opening - {q})));
    StackSteps(s, ChannelOpened(true, q, 65, true));
    hide ValidTable, Holds, IndexOf, Step, InterruptChannelOpened, ControlChannelOpened, DisconnectAfterError;
  }

  lemma PendingOpens(s: Bt, psm: uint16)
    requires psm in s.stack.opening
    ensures Contract(s, ChannelOpened(true, psm, 65, true))
  {
  }

  // ------------------------------------------------------------------------
  // Reported numbers, and one number for both channels

  /** A protocol descriptor list that names one L2CAP channel. */
  function ProtocolList(psm: uint16): SdpElements.Element {
    SdpElements.Sequence(5, [SdpElements.Sequence(5, [
      SdpElements.Leaf(SdpElements.UUID, 1, [0x01, 0x00]),
      SdpElements.Leaf(SdpElements.UINT, 1, [psm / 0x100, psm % 0x100])])])
  }

  lemma LeafEncodes(kind: nat, data: seq<byte>)
    requires kind == SdpElements.UUID || kind == SdpElements.UINT
    requires |data| == 2
    ensures SdpElements.WellFormed(SdpElements.Leaf(kind, 1, data))
    ensures SdpElements.Encode(SdpElements.Leaf(kind, 1, data)) == [8 * kind + 1] + data
  {
    SdpElements.LeafIsWritten(kind, 1, data);
    assert [8 * kind + 1] + [] + data == [8 * kind + 1] + data;
    hide SdpElements.Encode;
  }

  lemma SequenceEncodes(children: seq<SdpElements.Element>)
    requires SdpElements.AllWellFormed(children) && |SdpElements.EncodeAll(children)| < 0x80
    ensures SdpElements.WellFormed(SdpElements.Sequence(5, children))
    ensures SdpElements.Encode(SdpElements.Sequence(5, children))
         == [0x35, |SdpElements.EncodeAll(children)|] + SdpElements.EncodeAll(children)
  {
    SdpElements.SequenceIsWritten(5, children);
    hide SdpElements.EncodeAll, SdpElements.AllWellFormed, SdpElements.Encode;
    assert [8 * 6 + 5] + [|SdpElements.EncodeAll(children)|] == [0x35, |SdpElements.EncodeAll(children)|];
  }

  lemma NothingEncodes()
    ensures SdpElements.AllWellFormed([]) && SdpElements.EncodeAll([]) == []
  {
  }

  /** The list byte by byte: two nested sequences, the UUID 0x0100, and the number. */
  lemma ListEncodes(psm: uint16)
    ensures SdpElements.WellFormed(ProtocolList(psm))
    ensures SdpElements.Encode(ProtocolList(psm))
         == [0x35, 8] + ([0x35, 6] + ([0x19, 0x01, 0x00] + [0x09, psm / 0x100, psm % 0x100]))
  {
    var uuid := SdpElements.Leaf(SdpElements.UUID, 1, [0x01, 0x00]);
    var number := SdpElements.Leaf(SdpElements.UINT, 1, [psm / 0x100, psm % 0x100]);
    var inner := SdpElements.Sequence(5, [uuid, number]);
    LeafEncodes(SdpElements.UUID, [0x01, 0x00]);
    LeafEncodes(SdpElements.UINT, [psm / 0x100, psm % 0x100]);
    hide SdpElements.WellFormed, SdpElements.AllWellFormed, SdpElements.Encode, SdpElements.EncodeAll;
    NothingEncodes();
    SdpElements.ConsFacts(number, []);
    SdpElements.ConsFacts(uuid, [number]);
    assert [number] + [] == [number] && [uuid] + [number] == [uuid, number];
    SequenceEncodes([uuid, number]);
    SdpElements.ConsFacts(inner, []);
    assert [inner] + [] == [inner];
    SequenceEncodes([inner]);
  }

  lemma ListNames(psm: uint16)
    ensures SdpSearch.FirstPsm(SdpSearch.Preorder(ProtocolList(psm))) == Some(psm)
  {
    var inner := ProtocolList(psm).children[0];
    assert [inner][1..] == [];
    assert SdpSearch.PreorderAll([inner]) == [inner] + SdpSearch.Preorder(inner);
    assert SdpSearch.IsL2capDescriptor(inner);
  }

  function ListBytes(psm: uint16): (bytes: SdpParser.AttributeBytes)
    ensures bytes == [0x35, 8, 0x35, 6, 0x19, 0x01, 0x00, 0x09, psm / 0x100, psm % 0x100]
    ensures SdpSearch.PsmIn(bytes) == Some(psm)
  {
    ListEncodes(psm);
    ListNames(psm);
    assert SdpElements.Encode(ProtocolList(psm)) + [] == SdpElements.Encode(ProtocolList(psm));
    SdpSearch.PsmIsFirstInPreorder(ProtocolList(psm), []);
    SdpElements.Encode(ProtocolList(psm))
  }

  /** The parser and the record that discovery fills. */
  function ParsingOf(s: Bt): SdpParser.Parsing {
    var d := ConnectedDevice(s);
    SdpParser.Parsing(s.sdpBuffer, s.sdpCompleted, if d.Some? then Some(s.table[d.value]) else None)
  }

  ghost predicate Receiving(s: Bt, address: Address) {
    Inv(s) && s.state == ServiceDiscovery && s.stack.sdpPending && s.connectedAddress == address
  }

  lemma ByteIsFed(s: Bt, id: uint16, length: uint16, offset: uint16, data: byte)
    requires ConnectedDevice(s).Some? && s.stack.sdpPending
    ensures Allows(s, SdpByte(id, length, offset, data))
    ensures var t := Step(s, SdpByte(id, length, offset, data));
            && t.state == s.state && t.stack == s.stack && t.connectedAddress == s.connectedAddress
            && ParsingOf(t) == SdpParser.Fed(ParsingOf(s), id, length, offset, data)
  {
    var d := ConnectedDevice(s).value;
    var after := SdpParser.Fed(ParsingOf(s), id, length, offset, data);
    FedKeepsAddress(ParsingOf(s), id, length, offset, data);
    ReplacedKept(s.table, d, after.device.value);
    hide SdpParser.Fed, IndexOf, Kept;
    PeripheralSteps(s, SdpByte(id, length, offset, data));
  }

  /** An attribute as the stack delivers it, byte by byte. */
  function AttributeRun(a: SdpParser.Attribute): (events: seq<Event>)
    ensures |events| == |a.bytes|
    ensures forall i | 0 <= i < |a.bytes| :: events[i] == SdpByte(a.id, |a.bytes|, i, a.bytes[i])
  {
    seq(|a.bytes|, i requires 0 <= i < |a.bytes| => SdpByte(a.id, |a.bytes|, i, a.bytes[i]))
  }

  /** The first bytes of an attribute, fed in order, reach the parser. */
  lemma {:induction false} Feeds(selected: Option<Address>, events: seq<Event>, address: Address,
                                 a: SdpParser.Attribute, count: nat)
    requires Regular(selected, events) && Receiving(Run(Start(selected), events), address)
    requires count <= |a.bytes|
    ensures var longer := events + AttributeRun(a)[..count];
            && Regular(selected, longer) && Receiving(Run(Start(selected), longer), address)
            && ParsingOf(Run(Start(selected), longer))
               == SdpParser.FedPrefix(ParsingOf(Run(Start(selected), events)), a, count)
    decreases count
  {
    hide *;
    var run := AttributeRun(a);
    if count == 0 {
      assert events + run[..0] == events;
      FedNothing(ParsingOf(Run(Start(selected), events)), a);
    } else {
      var before := events + run[..count - 1];
      Feeds(selected, events, address, a, count - 1);
      FeedsOne(selected, before, address, a, count - 1);
      FedOneMore(ParsingOf(Run(Start(selected), events)), a, count);
      assert before + [run[count - 1]] == events + run[..count];
    }
  }

  lemma FedNothing(p: SdpParser.Parsing, a: SdpParser.Attribute)
    ensures SdpParser.FedPrefix(p, a, 0) == p
  {
  }

  lemma FedOneMore(p: SdpParser.Parsing, a: SdpParser.Attribute, count: nat)
    requires 0 < count <= |a.bytes|
    ensures SdpParser.FedPrefix(p, a, count)
         == SdpParser.Fed(SdpParser.FedPrefix(p, a, count - 1), a.id, |a.bytes|, count - 1, a.bytes[count - 1])
  {
    hide SdpParser.Fed;
  }

  /** Byte `n` of an attribute reaches the parser. */
  lemma FeedsOne(selected: Option<Address>, events: seq<Event>, address: Address, a: SdpParser.Attribute, n: nat)
    requires Regular(selected, events) && Receiving(Run(Start(selected), events), address) && n < |a.bytes|
    ensures var longer := events + [AttributeRun(a)[n]];
            && Regular(selected, longer) && Receiving(Run(Start(selected), longer), address)
            && ParsingOf(Run(Start(selected), longer))
               == SdpParser.Fed(ParsingOf(Run(Start(selected), events)), a.id, |a.bytes|, n, a.bytes[n])
  {
    hide Step, Inv, Regular, Run, ParsingOf, SdpParser.Fed, Allows, ConnectedDevice;
    var s := Run(Start(selected), events);
    LooksUp(s);
    ByteIsFed(s, a.id, |a.bytes|, n, a.bytes[n]);
    Continue(selected, events, AttributeRun(a)[n]);
  }

  lemma RecordedNumbers(s: Bt)
    requires ConnectedDevice(s).Some?
    ensures ParsingOf(s).device.Some?
    ensures Psms(s.table, s.connectedAddress)
         == (ParsingOf(s).device.value.hidControlPsm, ParsingOf(s).device.value.hidInterruptPsm)
    ensures ReportAt(s.table, s.connectedAddress) == ParsingOf(s).device.value.report
  {
    hide IndexOf;
  }

  /** One whole attribute, of any length, reaches the parser. */
  lemma Tells(selected: Option<Address>, events: seq<Event>, address: Address, a: SdpParser.Attribute)
    requires Regular(selected, events) && Receiving(Run(Start(selected), events), address)
    ensures var longer := events + AttributeRun(a);
            && Regular(selected, longer) && Receiving(Run(Start(selected), longer), address)
            && ParsingOf(Run(Start(selected), longer))
               == SdpParser.FedPrefix(ParsingOf(Run(Start(selected), events)), a, |a.bytes|)
  {
    hide Step, Inv, Regular, Run, ParsingOf, SdpParser.FedPrefix;
    Feeds(selected, events, address, a, |a.bytes|);
    assert AttributeRun(a)[..|a.bytes|] == AttributeRun(a);
  }

  /** A service record as the stack delivers it, attribute by attribute. */
  function RecordRun(attributes: seq<SdpParser.Attribute>): seq<Event> {
    if attributes == [] then [] else AttributeRun(attributes[0]) + RecordRun(attributes[1..])
  }

  lemma {:induction false} TellsAll(selected: Option<Address>, events: seq<Event>, address: Address,
                                    attributes: seq<SdpParser.Attribute>)
    requires Regular(selected, events) && Receiving(Run(Start(selected), events), address)
    ensures var longer := events + RecordRun(attributes);
            && Regular(selected, longer) && Receiving(Run(Start(selected), longer), address)
            && ParsingOf(Run(Start(selected), longer))
               == SdpParser.Streamed(ParsingOf(Run(Start(selected), events)), attributes)
    decreases |attributes|
  {
    hide Step, Inv, Regular, Run, ParsingOf, SdpParser.FedPrefix, Receiving, AttributeRun;
    if attributes == [] {
      assert events + [] == events;
    } else {
      var first := AttributeRun(attributes[0]);
      Tells(selected, events, address, attributes[0]);
      TellsAll(selected, events + first, address, attributes[1..]);
      assert events + RecordRun(attributes) == events + first + RecordRun(attributes[1..]);
    }
  }

  /** The selected keyboard is found and delivers its service record. */
  function ServicesRun(a: Address, attributes: seq<SdpParser.Attribute>): seq<Event> {
    DiscoveryRun(a) + RecordRun(attributes)
  }

  /** The numbers that a record gives, zero for one that it does not give. */
  function Reported(attributes: seq<SdpParser.Attribute>): (uint16, uint16) {
    (SdpRecord.OrElse(SdpRecord.Latest(attributes, SdpRecord.ControlNumber), 0),
     SdpRecord.OrElse(SdpRecord.Latest(attributes, SdpRecord.InterruptNumber), 0))
  }

  /** What a record says about the report descriptor, nothing when it does not speak of it. */
  function ReportedFlags(attributes: seq<SdpParser.Attribute>): ReportFlags {
    SdpRecord.OrElse(
      SdpRecord.Latest(attributes, SdpRecord.ReportSaid),
      ReportFlags(present := false, tooLarge := false, valid := false, hasKeyboard := false,
                  hasConsumerControl := false, hasNkroKeyboard := false, usesIds := false))
  }

  lemma TellsNumbers(a: Address, attributes: seq<SdpParser.Attribute>)
    ensures Regular(Some(a), ServicesRun(a, attributes))
    ensures Receiving(Run(Start(Some(a)), ServicesRun(a, attributes)), a)
    ensures Psms(Run(Start(Some(a)), ServicesRun(a, attributes)).table, a) == Reported(attributes)
    ensures ReportAt(Run(Start(Some(a)), ServicesRun(a, attributes)).table, a) == ReportedFlags(attributes)
  {
    hide *;
    ReachesDiscovery(a);
    IsReceiving(Run(Start(Some(a)), DiscoveryRun(a)), a);
    TellsAll(Some(a), DiscoveryRun(a), a, attributes);
    ServicesAre(a, attributes);
    RecordTold(Run(Start(Some(a)), DiscoveryRun(a)), Run(Start(Some(a)), ServicesRun(a, attributes)), a, attributes);
  }

  lemma ServicesAre(a: Address, attributes: seq<SdpParser.Attribute>)
    ensures ServicesRun(a, attributes) == DiscoveryRun(a) + RecordRun(attributes)
  {
  }

  lemma IsReceiving(s: Bt, address: Address)
    requires Discovering(s, address)
    ensures Receiving(s, address) && Psms(s.table, address) == (0, 0) && ReportAt(s.table, address) == NO_REPORT
  {
  }

  /** From no numbers, streaming a record leaves those it gives. */
  lemma RecordTold(s: Bt, t: Bt, address: Address, attributes: seq<SdpParser.Attribute>)
    requires Receiving(s, address) && Receiving(t, address)
    requires Psms(s.table, address) == (0, 0) && ReportAt(s.table, address) == NO_REPORT
    requires ParsingOf(t) == SdpParser.Streamed(ParsingOf(s), attributes)
    ensures Psms(t.table, address) == Reported(attributes)
    ensures ReportAt(t.table, address) == ReportedFlags(attributes)
  {
    hide Inv, Psms, ReportAt, ParsingOf, ConnectedDevice, SdpParser.Streamed, SdpParser.Batched, SdpRecord.Latest,
         SdpRecord.Earliest;
    LooksUp(s);
    LooksUp(t);
    RecordedNumbers(s);
    RecordedNumbers(t);
    SdpParser.StreamingIsBatching(ParsingOf(s), attributes);
    SdpRecord.RecordOfAttributes(ParsingOf(s).device.value, attributes);
  }

  /** Both numbers are used when neither is zero, and otherwise the standard ones. */
  function Used(reported: (uint16, uint16)): (uint16, uint16) {
    if reported.0 == 0 || reported.1 == 0 then (0x0011, 0x0013) else reported
  }

  lemma UsedNumbers(reported: (uint16, uint16))
    ensures Numbers(reported) == Used(reported)
  {
  }

  /** The events up to a connection by the numbers that the keyboard reports. */
  function ReportedRun(a: Address, attributes: seq<SdpParser.Attribute>): seq<Event> {
    ServicesRun(a, attributes) + OpeningRun(Used(Reported(attributes)).0)
    + [ChannelOpened(true, Used(Reported(attributes)).1, 65, true)]
  }

  /**
   From power-on and within the contract, a keyboard with any service record is
   connected by the numbers its record gives, unless it gives the same one for
   both channels; the standard ones serve when one is missing. What is on record
   about its reports is what its record says.
   */
  lemma ConnectsByReported(a: Address, attributes: seq<SdpParser.Attribute>)
    requires Reported(attributes).0 != Reported(attributes).1 || Reported(attributes).0 == 0
    ensures Regular(Some(a), ReportedRun(a, attributes))
    ensures var s := Run(Start(Some(a)), ReportedRun(a, attributes));
            && s.state == HidConnected && s.connectedAddress == a
            && s.channels.interruptOpen && s.channels.interruptCid == 65 && ControlReady(s.channels)
            && Psms(s.table, a) == Used(Reported(attributes))
            && ReportAt(s.table, a) == ReportedFlags(attributes)
  {
    var used := Used(Reported(attributes));
    UsedNumbers(Reported(attributes));
    TellsNumbers(a, attributes);
    hide Step, Inv, Regular, Run, Psms, ReportAt, Numbers, ServicesRun, OpeningRun, Start, Allows, Reported;
    var events := ServicesRun(a, attributes) + OpeningRun(used.0);
    ReachesOpeningInterrupt(Some(a), ServicesRun(a, attributes));
    Connects(Run(Start(Some(a)), events), used.0, used.1);
    Continue(Some(a), events, ChannelOpened(true, used.1, 65, true));
  }

  /** A record with the two protocol lists, each naming one number. */
  function ListsNaming(p: uint16, q: uint16): seq<SdpParser.Attribute> {
    [SdpParser.Attribute(0x0004, ListBytes(p)), SdpParser.Attribute(0x000d, ListBytes(q))]
  }

  lemma ListsAreReported(p: uint16, q: uint16)
    ensures Reported(ListsNaming(p, q)) == (p, q)
  {
    hide ListBytes;
    var record := ListsNaming(p, q);
    var control, interrupt := record[0], record[1];
    assert SdpRecord.ControlNumber(control) == Some(p) && SdpRecord.ControlNumber(interrupt).None?;
    assert SdpRecord.InterruptNumber(interrupt) == Some(q);
    hide SdpRecord.ControlNumber, SdpRecord.InterruptNumber;
    assert record[..1] == [control];
    assert SdpRecord.Latest([control], SdpRecord.ControlNumber) == Some(p);
    assert SdpRecord.Latest(record, SdpRecord.ControlNumber) == Some(p);
  }

  /**
   A keyboard whose record gives one number, not zero, for both channels: from
   power-on and within the contract, all transitions up to the request for the
   interrupt channel are expected ones, and the opening of that channel takes
   the keyboard back to the boot protocol step, which is not.
   */
  lemma EqualNumbersMisfire(a: Address, attributes: seq<SdpParser.Attribute>)
    requires Reported(attributes).0 == Reported(attributes).1 != 0
    ensures var psm := Reported(attributes).0;
            var before, last := ServicesRun(a, attributes) + OpeningRun(psm), ChannelOpened(true, psm, 65, true);
            var s, t := Run(Start(Some(a)), before), Run(Start(Some(a)), before + [last]);
            && Regular(Some(a), before) && Keeps(Contract, Start(Some(a)), before + [last])
            && s.state == OpeningInterrupt && s.connectedAddress == a && Psms(s.table, a) == (psm, psm)
            && t.state == SettingBootProtocol && !Expected(s.log, t.log)
  {
    hide Step, Inv, Keeps, Run, Psms, Expected, ServicesRun, OpeningRun, Contract, Start, Reported;
    var psm := Reported(attributes).0;
    TellsNumbers(a, attributes);
    SameNumbers(psm);
    ReachesOpeningInterrupt(Some(a), ServicesRun(a, attributes));
    var before, last := ServicesRun(a, attributes) + OpeningRun(psm), ChannelOpened(true, psm, 65, true);
    var s := Run(Start(Some(a)), before);
    PendingOpens(s, psm);
    KeepsSnoc(Contract, Start(Some(a)), before, last);
    StepFine(s, last);
    AcceptsAgain(s, psm);
  }

  lemma SameNumbers(psm: uint16)
    requires psm != 0
    ensures Numbers((psm, psm)) == (psm, psm)
  {
  }

  lemma AcceptsAgain(s: Bt, psm: uint16)
    requires Inv(s) && s.state == OpeningInterrupt && Psms(s.table, s.connectedAddress) == (psm, psm)
    ensures Step(s, ChannelOpened(true, psm, 65, true)).state == SettingBootProtocol
  {
    HoldsIsIndexOf(s.table, s.connectedAddress);
    hide ValidTable, Holds, IndexOf;
  }

  // ------------------------------------------------------------------------
  // Another link goes down

  /**
   While services are awaited, a link comes up that was not asked for, and the
   module gives it up at once.
   */
  function UnaskedRun(a: Address, stranger: Address, other: uint16): seq<Event> {
    DiscoveryRun(a) + [ConnectionComplete(true, other, stranger)]
  }

  lemma GivesUp(s: Bt, stranger: Address, other: uint16)
    requires s.state == ServiceDiscovery && other != INVALID_HANDLE
    ensures Allows(s, ConnectionComplete(true, other, stranger))
    ensures Step(s, ConnectionComplete(true, other, stranger)) == Emit(s, DisconnectLink(other))
  {
  }

  lemma GoesDown(s: Bt, handle: uint16)
    ensures var t := OnDisconnectionComplete(s, handle);
            && t.state == Idle && t.acl == INVALID_HANDLE && t.stack == Settled(s, handle)
            && t.connectedAddress == s.connectedAddress && t.table == DeviceTable.Disconnected(s.table)
  {
    hide Enter, BackToIdle, DeviceTable.Disconnected, Settled, ResetConnection;
    EnterKeeps(s, State.Disconnected);
    var down := Enter(s, State.Disconnected).(
      table := DeviceTable.Disconnected(s.table), keys := AllReleased(s.keys), channels := ResetConnection(s.channels),
      acl := INVALID_HANDLE, stack := Settled(s, handle));
    BackToIdleShape(down);
  }

  lemma Strays(s: Bt, other: uint16)
    requires s.stack.sdpPending && other != s.acl
    ensures AnswersOnly(s, DisconnectionComplete(other)) && !NoStrayDisconnection(s, DisconnectionComplete(other))
  {
  }

  /** The module takes the other link's end for its own link's, which still owes an answer. */
  lemma LosesLink(s: Bt, other: uint16)
    requires Inv(s) && s.state == ServiceDiscovery && s.stack.sdpPending && other != s.acl
    ensures var t := Step(s, DisconnectionComplete(other));
            && t.state == Idle && t.acl == INVALID_HANDLE && t.stack == s.stack && ConnectedDevice(t).Some?
    ensures AnswersOnly(s, DisconnectionComplete(other)) && !NoStrayDisconnection(s, DisconnectionComplete(other))
  {
    LooksUp(s);
    Strays(s, other);
    hide Step, Inv, IndexOf, Kept, DeviceTable.Disconnected, OnDisconnectionComplete, AnswersOnly, NoStrayDisconnection;
    SameAddressesKept(s.table, DeviceTable.Disconnected(s.table));
    StackSteps(s, DisconnectionComplete(other));
    GoesDown(s, other);
  }

  lemma OpensWithoutLink(s: Bt)
    requires s.state == Idle && s.acl == INVALID_HANDLE && s.stack.sdpPending && ConnectedDevice(s).Some?
    ensures var t := Step(s, SdpComplete(true, Create(true, 64)));
            t.state == OpeningControl && t.acl == INVALID_HANDLE && t.log == s.log + [Transition(Idle, OpeningControl)]
    ensures AnswersOnly(s, SdpComplete(true, Create(true, 64)))
  {
    FindsServices(s);
    FoundNumbers(s);
    assert Found(s).state == Idle && Found(s).acl == s.acl && Found(s).log == s.log;
    hide Step, Found, ConnectedDevice, OpenControlChannel, Psms;
    AsksForControl(Found(s));
  }

  lemma ContractAnswersOnly(selected: Option<Address>, events: seq<Event>)
    requires Keeps(Contract, Start(selected), events)
    ensures Keeps(AnswersOnly, Start(selected), events)
  {
    hide Run, AnswersOnly, NoStrayDisconnection;
  }

  lemma GivesUpUnasked(a: Address, stranger: Address, other: uint16)
    requires other != INVALID_HANDLE && other != 64
    ensures var events := UnaskedRun(a, stranger, other);
            var s := Run(Start(Some(a)), events);
            && Regular(Some(a), events) && Keeps(AnswersOnly, Start(Some(a)), events)
            && Inv(s) && s.state == ServiceDiscovery && s.stack.sdpPending && s.acl == 64
            && DisconnectLink(other) in s.log
  {
    hide Step, Inv, Run, Keeps, Expected, Allows, DiscoveryRun, Start, AnswersOnly, Contract, Psms;
    ReachesDiscovery(a);
    GivesUp(Run(Start(Some(a)), DiscoveryRun(a)), stranger, other);
    Continue(Some(a), DiscoveryRun(a), ConnectionComplete(true, other, stranger));
    ContractAnswersOnly(Some(a), UnaskedRun(a, stranger, other));
  }

  /**
   Why the contract needs its clause on disconnections: the module itself gives
   up an unasked link; when that link is reported down, the answer that its own
   link still owes makes it open a channel from idle, with no link on record.
   */
  lemma StrayDisconnectionMisfires(a: Address, stranger: Address, other: uint16)
    requires other != INVALID_HANDLE && other != 64
    ensures var before := UnaskedRun(a, stranger, other);
            var stray, answer := DisconnectionComplete(other), SdpComplete(true, Create(true, 64));
            var s, t := Run(Start(Some(a)), before), Run(Start(Some(a)), before + [stray] + [answer]);
            && Regular(Some(a), before) && DisconnectLink(other) in s.log
            && Keeps(AnswersOnly, Start(Some(a)), before + [stray] + [answer])
            && !NoStrayDisconnection(s, stray)
            && Transition(Idle, OpeningControl) in t.log && !TransitionAllowed(Idle, OpeningControl)
            && t.state == OpeningControl && t.acl == INVALID_HANDLE
  {
    hide Step, Inv, Run, Keeps, Regular, UnaskedRun, Start, AnswersOnly, NoStrayDisconnection, ConnectedDevice;
    var before := UnaskedRun(a, stranger, other);
    var stray, answer := DisconnectionComplete(other), SdpComplete(true, Create(true, 64));
    GivesUpUnasked(a, stranger, other);
    var s := Run(Start(Some(a)), before);
    LosesLink(s, other);
    KeepsSnoc(AnswersOnly, Start(Some(a)), before, stray);
    OpensWithoutLink(Step(s, stray));
    KeepsSnoc(AnswersOnly, Start(Some(a)), before + [stray], answer);
  }
}
