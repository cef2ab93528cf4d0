/**
 What is marked and left over on any run under the stack contract: exactly the
 live link's device is marked as connected, and without a link no channel and
 no request of an earlier one remains.
 */
module ConnectionRecords {
  import opened Basics
  import opened BtState
  import opened Connection
  import opened ConnectionLink
  import opened ConnectionRuns
  import opened ConnectionSafety
  import opened ConnectionState
  import opened ConnectionSteps
  import ConnectionWitness
  import opened DeviceTable
  import opened HidChannels
  import ReportQueue
  import SdpParser
  import SdpRecord

  /** Exactly the device with this address is marked as connected, or none. */
  predicate Marks(table: seq<Device>, who: Option<Address>) {
    forall d <- table :: d.connected <==> who == Some(d.address)
  }

  /** No channel is open or asked for, and no request is under way. */
  predicate AllClosed(c: Channels) {
    && c.controlCid == 0 && c.interruptCid == 0 && !c.controlOpen && !c.interruptOpen
    && !c.bootRequestPending && !c.ledCanSendRequested
  }

  /** The device of the live link. */
  function Linked(s: Bt): Option<Address> {
    if Live(s.state) then Some(s.connectedAddress) else None
  }

  ghost predicate Tidy(s: Bt) {
    Marks(s.table, Linked(s)) && (s.acl == 0xffff ==> AllClosed(s.channels))
  }

  // ------------------------------------------------------------------------
  // Tables

  lemma ReplacedMarks(t: seq<Device>, i: nat, device: Device, who: Option<Address>)
    requires Marks(t, who) && i < |t| && device.address == t[i].address && device.connected == t[i].connected
    ensures Marks(t[i := device], who)
  {
    assert t[i] in t;
    forall d | d in t[i := device] ensures d.connected <==> who == Some(d.address) {
      var j :| 0 <= j < |t| && t[i := device][j] == d;
      assert t[j] in t;
    }
  }

  lemma SetBondedMarks(t: seq<Device>, address: Address, bonded: bool, who: Option<Address>)
    requires Marks(t, who)
    ensures Marks(SetBonded(t, address, bonded), who)
  {
    hide IndexOf, Marks;
    var i := IndexOf(t, address);
    if i.Some? { ReplacedMarks(t, i.value, t[i.value].(bonded := bonded), who); }
  }

  lemma UpsertedMarks(t: seq<Device>, s: Sighting, who: Option<Address>)
    requires Marks(t, who) && (who.Some? ==> Holds(t, who.value))
    ensures Marks(Upserted(t, s), who)
  {
    hide IndexOf, Renamed, IsKeyboardClass;
    var i := IndexOf(t, s.address);
    if i.Some? {
      ReplacedMarks(t, i.value, Sighted(t[i.value], s), who);
    } else {
      assert !Sighted(NewDevice(s.address), s).connected;
      assert Sighted(NewDevice(s.address), s).address == s.address;
    }
  }

  lemma UnbondedMarks(t: seq<Device>, who: Option<Address>)
    requires Marks(t, who)
    ensures Marks(Unbonded(t), who)
  {
    forall d | d in Unbonded(t) ensures d.connected <==> who == Some(d.address) {
      var j :| 0 <= j < |t| && Unbonded(t)[j] == d;
      assert t[j] in t;
    }
  }

  lemma RestoredMarks(t: seq<Device>, address: Address, bonded: bool)
    requires Marks(t, None)
    ensures Marks(RestoreSelected(t, address, bonded), None)
  {
    hide Upserted, SetBonded;
    UpsertedMarks(t, Restoration(address), None);
    UpsertedMarks([], Restoration(address), None);
    var restored := if |t| >= MAX_DEVICES then Upserted([], Restoration(address))
                    else Upserted(t, Restoration(address));
    SetBondedMarks(restored, address, bonded, None);
  }

  lemma ClearedMarks(t: seq<Device>)
    ensures Marks(DeviceTable.Disconnected(t), None)
  {
  }

  /** Marking one device among unmarked ones. */
  lemma ConnectedMarks(t: seq<Device>, i: nat)
    requires ValidTable(t) && Marks(t, None) && i < |t|
    ensures Marks(t[i := t[i].(connected := true)], Some(t[i].address))
  {
    var u := t[i := t[i].(connected := true)];
    forall d | d in u ensures d.connected <==> Some(t[i].address) == Some(d.address) {
      var j :| 0 <= j < |u| && u[j] == d;
      assert t[j] in t;
      assert j < i ==> t[j].address != t[i].address;
      assert i < j ==> t[i].address != t[j].address;
    }
  }

  // ------------------------------------------------------------------------
  // Steps

  /** The link and its device stay; marks stay right, and closed channels closed. */
  ghost predicate Stays(s: Bt, t: Bt, who: Option<Address>) {
    && (Marks(s.table, who) ==> Marks(t.table, who))
    && t.acl == s.acl && t.connectedAddress == s.connectedAddress
    && (s.acl == 0xffff && AllClosed(s.channels) ==> AllClosed(t.channels))
  }

  lemma EnterStays(s: Bt, state: State, who: Option<Address>)
    ensures Stays(s, Enter(s, state), who) && Stays(s, BackToIdle(s), who)
  {
    hide Marks;
  }

  lemma FailureStays(s: Bt, who: Option<Address>)
    ensures Stays(s, DisconnectAfterError(s), who)
  {
    hide Marks, BackToIdle;
    EnterStays(s.(keys := ReportQueue.AllReleased(s.keys), channels := ResetConnection(s.channels)), Idle, who);
  }

  lemma BeginConnectionStays(s: Bt, address: Address, dial: Dial, who: Option<Address>)
    requires s.state == Idle || s.state == Inquiry ==> who.None?
    ensures Stays(s, BeginConnection(s, address, dial), who)
  {
    hide Marks, RestoreSelected, WithSelected, Dialing, BackToIdle;
    var ready := s.(timerArmed := false);
    AttemptShape(ready, address, dial.bonded);
    var known := WithSelected(ready, address, dial.bonded);
    if Marks(s.table, None) { SelectedMarks(ready, address, dial.bonded); }
    AttemptShape(known, address, dial.bonded);
    var failed := Dialing(known, address).(connectingValid := false);
    BackToIdleShape(failed);
  }

  lemma SelectedMarks(s: Bt, address: Address, bonded: bool)
    requires Marks(s.table, None)
    ensures Marks(WithSelected(s, address, bonded).table, None)
  {
    hide Marks, RestoreSelected, IndexOf;
    RestoredMarks(s.table, address, bonded);
  }

  lemma OpenChannelStays(s: Bt, create: Create, who: Option<Address>)
    requires s.acl != 0xffff
    ensures Stays(s, OpenControlChannel(s, create), who) && Stays(s, OpenInterruptChannel(s, create), who)
  {
    hide Marks, DisconnectAfterError, Enter, ConnectedDevice;
    FailureStays(s, who);
    EnterKeeps(s, OpeningControl);
    EnterKeeps(s, OpeningInterrupt);
    FailureStays(Enter(s, OpeningControl).(channels := s.channels.(controlCid := create.cid)), who);
    FailureStays(Enter(s, OpeningInterrupt).(channels := s.channels.(interruptCid := create.cid)), who);
  }

  lemma ForgetServicesStays(s: Bt, who: Option<Address>)
    ensures Stays(s, ForgetServices(s), who)
  {
    hide Marks, IndexOf;
    var d := ConnectedDevice(s);
    if d.Some? && Marks(s.table, who) { ReplacedMarks(s.table, d.value, Undiscovered(s.table[d.value]), who); }
  }

  lemma OnSecuredStays(s: Bt, handle: uint16, ok: bool, queryOk: bool, who: Option<Address>)
    ensures Stays(s, OnSecured(s, handle, ok, queryOk), who)
  {
    hide Marks, DisconnectAfterError, Enter, ForgetServices;
    FailureStays(s, who);
    ForgetServicesStays(s, who);
    ForgettingKeeps(s);
    EnterKeeps(ForgetServices(s), ServiceDiscovery);
    FailureStays(Enter(ForgetServices(s), ServiceDiscovery), who);
  }

  lemma FindingStays(s: Bt, i: nat, who: Option<Address>)
    requires i < |s.table|
    ensures Stays(s, MarkDiscovered(s, i), who)
  {
    hide Marks;
    if Marks(s.table, who) { ReplacedMarks(s.table, i, Discovered(s.table[i]), who); }
  }

  lemma OnSdpCompleteStays(s: Bt, ok: bool, create: Create, who: Option<Address>)
    requires ok ==> s.acl != 0xffff
    ensures Stays(s, OnSdpComplete(s, ok, create), who)
  {
    hide Marks, DisconnectAfterError, OpenControlChannel, IndexOf, MarkDiscovered;
    var answered := s.(stack := s.stack.(sdpPending := false));
    FailureStays(answered, who);
    var d := ConnectedDevice(s);
    if ok && d.Some? {
      FindingStays(answered, d.value, who);
      OpenChannelStays(MarkDiscovered(answered, d.value), create, who);
    }
  }

  lemma FedKeepsMark(p: SdpParser.Parsing, id: uint16, length: uint16, offset: uint16, data: byte)
    requires p.device.Some?
    ensures var after := SdpParser.Fed(p, id, length, offset, data).device;
            && after.Some? && after.value.address == p.device.value.address
            && after.value.connected == p.device.value.connected
  {
    hide SdpParser.AttributeRead;
    if offset < length <= SdpParser.BUFFER_SIZE {
      var bytes := p.buffer[offset := data][..length];
      SdpRecord.OneAttribute(p.device.value, SdpParser.Attribute(id, bytes));
      hide SdpRecord.ControlNumber, SdpRecord.InterruptNumber, SdpRecord.ReportSaid, SdpRecord.NameSaid;
    }
  }

  lemma OnSdpByteStays(s: Bt, id: uint16, length: uint16, offset: uint16, data: byte, who: Option<Address>)
    ensures Stays(s, OnSdpByte(s, id, length, offset, data), who)
  {
    hide Marks, IndexOf, SdpParser.Fed;
    var d := ConnectedDevice(s);
    if d.Some? {
      var before := SdpParser.Parsing(s.sdpBuffer, s.sdpCompleted, Some(s.table[d.value]));
      FedKeepsMark(before, id, length, offset, data);
      if Marks(s.table, who) {
        ReplacedMarks(s.table, d.value, SdpParser.Fed(before, id, length, offset, data).device.value, who);
      }
    }
  }

  lemma OnInquiryResultStays(s: Bt, sighting: Sighting, bonded: bool, who: Option<Address>)
    requires who.Some? ==> Holds(s.table, who.value)
    ensures Stays(s, OnInquiryResult(s, sighting, bonded), who)
  {
    hide Marks, IndexOf, Upserted, SetBonded;
    if Marks(s.table, who) {
      UpsertedMarks(s.table, sighting, who);
      SetBondedMarks(Upserted(s.table, sighting), sighting.address, bonded, who);
    }
  }

  lemma OnBondChangedStays(s: Bt, address: Address, bonded: bool, who: Option<Address>)
    ensures Stays(s, OnBondChanged(s, address, bonded), who)
  {
    hide Marks, SetBonded;
    if Marks(s.table, who) { SetBondedMarks(s.table, address, bonded, who); }
  }

  lemma OnForgetStays(s: Bt, who: Option<Address>)
    ensures Stays(s, OnForget(s), who)
  {
    hide Marks, Unbonded;
    if Marks(s.table, who) { UnbondedMarks(s.table, who); }
  }

  lemma OnChannelOpenedStays(s: Bt, ok: bool, psm: uint16, cid: uint16, requestOk: bool, who: Option<Address>)
    requires ok ==> s.acl != 0xffff
    ensures Stays(s, OnChannelOpened(s, ok, psm, cid, requestOk), who)
  {
    hide Marks, DisconnectAfterError, Enter, IndexOf, ScheduleLeds;
    var answered := s.(stack := s.stack.(opening := s.stack.opening - {psm}));
    FailureStays(answered, who);
    var control := answered.(channels := ControlOpened(s.channels, cid));
    EnterKeeps(control, SettingBootProtocol);
    FailureStays(Enter(control, SettingBootProtocol), who);
    var interrupt := answered.(channels := InterruptOpened(s.channels, cid));
    EnterKeeps(interrupt, HidConnected);
    SchedulingKeeps(Enter(interrupt, HidConnected).(
      channels := Enter(interrupt, HidConnected).channels.(ledReportPending := true)), requestOk);
  }

  lemma OnCanSendNowStays(s: Bt, cid: uint16, sendOk: bool, who: Option<Address>)
    ensures Stays(s, OnCanSendNow(s, cid, sendOk), who)
  {
    hide Marks, DisconnectAfterError;
    FailureStays(BootProtocolSent(s, cid), who);
  }

  lemma OnHidDataStays(s: Bt, channel: uint16, packet: seq<byte>, create: Create, who: Option<Address>)
    requires s.state == SettingBootProtocol ==> s.acl != 0xffff
    ensures Stays(s, OnHidData(s, channel, packet, create), who)
  {
    hide Marks, DisconnectAfterError, OpenInterruptChannel, BootReport;
    FailureStays(s, who);
    if s.state == SettingBootProtocol { OpenChannelStays(s, create, who); }
  }

  lemma OnAuthenticationCompleteStays(s: Bt, handle: uint16, ok: bool, who: Option<Address>)
    ensures Stays(s, OnAuthenticationComplete(s, handle, ok), who)
  {
    hide Marks, DisconnectAfterError;
    FailureStays(s, who);
  }

  lemma OnChannelClosedStays(s: Bt, cid: uint16, who: Option<Address>)
    ensures Stays(s, OnChannelClosed(s, cid), who)
  {
    hide Marks, ReportQueue.AllReleased;
  }

  lemma LedsStay(s: Bt, leds: byte, requestOk: bool, who: Option<Address>)
    ensures Stays(s, OnHostLeds(s, leds), who) && Stays(s, ScheduleLeds(s, requestOk), who)
  {
    hide Marks;
  }

  lemma OnUsbTaskStays(s: Bt, taken: bool, who: Option<Address>)
    ensures Stays(s, OnUsbTask(s, taken), who)
  {
    hide Marks, ReportQueue.Drained;
  }

  lemma OnDisconnectStays(s: Bt, who: Option<Address>)
    ensures Stays(s, OnDisconnect(s), who)
  {
    hide Marks;
  }

  lemma OnWorkingStays(s: Bt, dial: Dial)
    ensures Stays(s, OnWorking(s, dial), None)
  {
    hide Marks, BeginConnection, Enter;
    EnterKeeps(s, Idle);
    BeginConnectionStays(Enter(s, Idle), s.selectedAddress, dial, None);
  }

  lemma OnInquiryCompleteStays(s: Bt, dial: Dial, who: Option<Address>)
    requires s.state == Inquiry ==> who.None?
    ensures Stays(s, OnInquiryComplete(s, dial), who)
  {
    hide Marks, BeginConnection, BackToIdle, InquiryTarget;
    EnterStays(s, Idle, who);
    if s.state == Inquiry && InquiryTarget(s).Some? {
      BeginConnectionStays(Remembered(s, InquiryTarget(s).value), InquiryTarget(s).value, dial, who);
    }
  }

  lemma OnDialStays(s: Bt, target: Address, dial: Dial, who: Option<Address>)
    requires s.state == Idle ==> who.None?
    ensures Stays(s, OnConnect(s, target, dial), who) && Stays(s, OnRetryTimer(s, dial), who)
  {
    hide Marks, BeginConnection, KnownKeyboard;
    if s.state == Idle {
      BeginConnectionStays(Selected(s, target), target, dial, who);
      BeginConnectionStays(s.(timerArmed := false), s.selectedAddress, dial, who);
    }
  }

  lemma OnReconnectStays(s: Bt, dial: Dial, who: Option<Address>)
    requires s.state == Idle ==> who.None?
    ensures Stays(s, OnReconnect(s, dial), who)
  {
    hide Marks, BeginConnection, ConnectionTarget, Enter, Emit;
    var resumed := s.(autoConnect := true);
    var target := if s.selectedValid then Some(s.selectedAddress) else ConnectionTarget(s.table);
    if s.state == Idle && target.Some? {
      RememberingKeeps(resumed, target.value);
      BeginConnectionStays(Remembered(resumed, target.value), target.value, dial, who);
    }
    InquiringStays(resumed, who);
  }

  lemma RememberingKeeps(s: Bt, target: Address)
    ensures Stays(s, Remembered(s, target), None) && Stays(s, Remembered(s, target), Some(s.connectedAddress))
    ensures Remembered(s, target).state == s.state && Remembered(s, target).table == s.table
    ensures Remembered(s, target).channels == s.channels
  {
    hide Marks;
  }

  lemma InquiringStays(s: Bt, who: Option<Address>)
    ensures Stays(s, StartInquiry(s), who)
  {
    hide Marks;
  }

  lemma NothingMarked(s: Bt)
    ensures Marks(s.(table := []).table, None)
  {
  }

  lemma OnScanStays(s: Bt, who: Option<Address>)
    requires s.state == Idle ==> who.None?
    ensures Stays(s, OnScan(s), who)
  {
    NothingMarked(s);
    hide Marks, StartInquiry;
    InquiringStays(s.(autoConnect := false, table := []), who);
  }

  /** Events that neither bring a link up nor take it down. */
  predicate KeepsLink(event: Event) {
    !event.ConnectionComplete? && !event.DisconnectionComplete?
  }

  lemma LinkedOnRecord(s: Bt)
    requires Inv(s)
    ensures Linked(s).Some? ==> Holds(s.table, Linked(s).value)
    ensures s.state in {Initializing, Idle, Inquiry} ==> Linked(s).None?
    ensures s.state in {SettingBootProtocol, ServiceDiscovery, OpeningControl, OpeningInterrupt, Authenticating} ==>
              s.acl != 0xffff
    ensures Live(s.state) ==> s.acl != 0xffff
    ensures s.stack.sdpPending ==> s.state == ServiceDiscovery
  {
    hide Holds, ValidTable, Psms;
  }

  lemma OpensOnLive(s: Bt, event: Event)
    requires Inv(s) && Contract(s, event)
    ensures event.ChannelOpened? && event.openOk ==> s.state in {OpeningControl, OpeningInterrupt}
    ensures event.SdpComplete? && event.sdpOk ==> s.state == ServiceDiscovery
    ensures event.Working? ==> s.state == Initializing
  {
    if event.ChannelOpened? && event.openOk { AnsweredOpen(s, event.openPsm); }
    LinkedOnRecord(s);
    hide Inv;
  }

  lemma StaysLive(s: Bt, event: Event)
    requires Inv(s) && Contract(s, event) && KeepsLink(event)
    ensures Live(NextState(s, event)) <==> Live(s.state)
  {
    LinkedOnRecord(s);
    OpensOnLive(s, event);
    hide Inv, Contract, Record, IsOnRecord, ConnectionTarget, Fails;
  }

  lemma RequestStays(s: Bt, event: Event, who: Option<Address>)
    requires IsRequest(event) && (s.state == Idle ==> who.None?)
    ensures Stays(s, Step(s, event), who)
  {
    RequestSteps(s, event);
    KindsOf(event);
    hide *;
    if event.Scan? { OnScanStays(s, who); }
    else if event.Connect? { OnDialStays(s, event.connectTarget, event.connectDial, who); }
    else if event.Disconnect? { OnDisconnectStays(s, who); }
    else if event.Reconnect? { OnReconnectStays(s, event.reconnectDial, who); }
    else { OnForgetStays(s, who); }
  }

  lemma PeripheralStays(s: Bt, event: Event, who: Option<Address>)
    requires IsPeripheral(event) && (s.state == Idle ==> who.None?)
    requires event.SdpComplete? && event.sdpOk ==> s.acl != 0xffff
    ensures Stays(s, Step(s, event), who)
  {
    PeripheralSteps(s, event);
    KindsOf(event);
    hide *;
    if event.SdpByte? {
      OnSdpByteStays(s, event.attributeId, event.attributeLength, event.attributeOffset, event.attributeByte, who);
    } else if event.SdpComplete? {
      OnSdpCompleteStays(s, event.sdpOk, event.controlCreate, who);
    } else if event.RetryTimer? {
      OnDialStays(s, ZERO_ADDRESS, event.retryDial, who);
    } else if event.HostLeds? {
      LedsStay(s, event.leds, false, who);
    } else if event.LedPoll? {
      LedsStay(s, 0, event.pollOk, who);
    } else {
      OnUsbTaskStays(s, event.hostReady && event.hostTakes, who);
    }
  }

  lemma StackStays(s: Bt, event: Event, who: Option<Address>)
    requires !IsRequest(event) && !IsPeripheral(event) && KeepsLink(event)
    requires event.Working? || s.state == Inquiry ==> who.None?
    requires event.ChannelOpened? && event.openOk ==> s.acl != 0xffff
    requires s.state == SettingBootProtocol ==> s.acl != 0xffff
    requires who.Some? ==> Holds(s.table, who.value)
    ensures Stays(s, Step(s, event), who)
  {
    StackSteps(s, event);
    hide *;
    match event
    case Working(dial) => OnWorkingStays(s, dial);
    case InquiryResult(sighting, bonded) => OnInquiryResultStays(s, sighting, bonded, who);
    case InquiryComplete(dial) => OnInquiryCompleteStays(s, dial, who);
    case ChannelOpened(ok, psm, cid, requestOk) => OnChannelOpenedStays(s, ok, psm, cid, requestOk, who);
    case CanSendNow(cid, sendOk) => OnCanSendNowStays(s, cid, sendOk, who);
    case ChannelClosedEvent(cid) => OnChannelClosedStays(s, cid, who);
    case SecurityLevel(handle, ok, reached, queryOk) => OnSecuredStays(s, handle, ok && reached, queryOk, who);
    case EncryptionChange(handle, ok, enabled, queryOk) => OnSecuredStays(s, handle, ok && enabled, queryOk, who);
    case AuthenticationComplete(handle, ok) => OnAuthenticationCompleteStays(s, handle, ok, who);
    case BondChanged(address, bonded) => OnBondChangedStays(s, address, bonded, who);
    case HidData(channel, packet, create) => OnHidDataStays(s, channel, packet, create, who);
  }

  lemma LinkUpTidies(s: Bt, handle: uint16, address: Address)
    requires ValidTable(s.table) && Holds(s.table, address) && Marks(s.table, None) && handle != 0xffff
    ensures Tidy(LinkEstablished(s, handle, address))
  {
    HoldsIsIndexOf(s.table, address);
    hide Marks, IndexOf, ValidTable, Holds, Enter, Emit;
    var up := LinkUp(s, handle).(channels := ResetConnection(s.channels));
    EnterKeeps(up, Connected);
    var connected := Enter(up, Connected);
    var marked := MarkConnected(connected, address);
    EnterKeeps(marked, Authenticating);
    EnterReaches(marked, Authenticating);
    EmitKeeps(Enter(marked, Authenticating), RequestSecurity(handle));
    ConnectedMarks(s.table, IndexOf(s.table, address).value);
  }

  lemma CompletionTidies(s: Bt, ok: bool, handle: uint16, address: Address)
    requires Inv(s) && Contract(s, ConnectionComplete(ok, handle, address)) && Tidy(s)
    ensures Tidy(OnConnectionComplete(s, ok, handle, address))
  {
    var done := s.(connectingValid := false);
    if s.state == Connecting && ok && !s.cancelRequested { LinkUpTidies(done, handle, address); }
    hide Marks, IndexOf, ValidTable, Holds, Psms, LinkEstablished;
  }

  lemma DisconnectionTidies(s: Bt, handle: uint16)
    ensures Tidy(OnDisconnectionComplete(s, handle))
  {
    ClearedMarks(s.table);
    ConnectionWitness.GoesDown(s, handle);
    DisconnectionCloses(s, handle);
    hide Marks, OnDisconnectionComplete, DeviceTable.Disconnected;
  }

  lemma DisconnectionCloses(s: Bt, handle: uint16)
    ensures AllClosed(OnDisconnectionComplete(s, handle).channels)
  {
    hide DeviceTable.Disconnected, ReportQueue.AllReleased;
  }

  lemma StepTidies(s: Bt, event: Event)
    requires Inv(s) && Contract(s, event) && Tidy(s)
    ensures Tidy(Step(s, event))
  {
    if KeepsLink(event) {
      LinkedOnRecord(s);
      OpensOnLive(s, event);
      StaysLive(s, event);
      StepGoes(s, event);
      hide Inv, Contract, Step, NextState, Marks, AllClosed, Holds;
      if IsRequest(event) { RequestStays(s, event, Linked(s)); }
      else if IsPeripheral(event) { PeripheralStays(s, event, Linked(s)); }
      else { StackStays(s, event, Linked(s)); }
    } else {
      StackSteps(s, event);
      hide Inv, Contract, Step, Tidy, OnConnectionComplete, OnDisconnectionComplete;
      if event.ConnectionComplete? {
        CompletionTidies(s, event.connectOk, event.connectHandle, event.connectAddress);
      } else {
        DisconnectionTidies(s, event.disconnectedHandle);
      }
    }
  }

  /**
   On every run under the stack contract, the devices marked as connected are
   exactly the one of the live link; and without a link every channel is closed
   and no request is under way.
   */
  lemma {:induction false} LinkIsMarked(selected: Option<Address>, events: seq<Event>)
    requires Keeps(Contract, Start(selected), events)
    ensures var s := Run(Start(selected), events);
            && (forall d <- s.table :: d.connected <==> Live(s.state) && d.address == s.connectedAddress)
            && (s.acl == 0xffff ==>
                  && s.channels.controlCid == 0 && s.channels.interruptCid == 0
                  && !s.channels.controlOpen && !s.channels.interruptOpen
                  && !s.channels.bootRequestPending && !s.channels.ledCanSendRequested)
    ensures Tidy(Run(Start(selected), events))
    decreases |events|
  {
    if events != [] {
      hide Step, Inv, Contract, Start;
      var n := |events| - 1;
      KeepsPrefix(Contract, Start(selected), events);
      InvHolds(selected, events[..n]);
      LinkIsMarked(selected, events[..n]);
      StepTidies(Run(Start(selected), events[..n]), events[n]);
    } else {
      hide Step;
    }
  }

  /** A bond on record shows in the table: one device's flag follows each news, and Forget clears all. */
  lemma BondsFollow(s: Bt, event: Event)
    requires ValidTable(s.table)
    ensures event.BondChanged? ==>
              && |Step(s, event).table| == |s.table|
              && forall i | 0 <= i < |s.table| ::
                   Step(s, event).table[i]
                   == s.table[i].(bonded := if s.table[i].address == event.bondAddress then event.bonded
                                            else s.table[i].bonded)
    ensures event.Forget? ==>
              && |Step(s, event).table| == |s.table|
              && forall i | 0 <= i < |s.table| :: Step(s, event).table[i] == s.table[i].(bonded := false)
  {
    if event.BondChanged? {
      BondIsSet(s.table, event.bondAddress, event.bonded);
      assert Step(s, event).table == SetBonded(s.table, event.bondAddress, event.bonded);
    } else if event.Forget? {
      ForgetUnbonds(s);
    }
    hide Step, SetBonded, ValidTable;
  }

  /** A new search begins with an empty table. */
  lemma ScanEmpties(s: Bt)
    ensures Step(s, Scan).table == if s.state == Idle then [] else s.table
  {
  }

  /** A sighting is recorded with its bond, which only keyboards have; other devices stay as they are. */
  lemma SightingFollows(s: Bt, sighting: Sighting, bonded: bool, i: nat)
    requires ValidTable(s.table) && i < |Upserted(s.table, sighting)|
    ensures var before, after := Upserted(s.table, sighting), Step(s, InquiryResult(sighting, bonded)).table;
            && |after| == |before|
            && after[i] == if before[i].address == sighting.address && IsKeyboardClass(sighting.classOfDevice)
                           then before[i].(bonded := bonded) else before[i]
  {
    var before := Upserted(s.table, sighting);
    UpsertKeepsTable(s.table, sighting);
    BondIsSet(before, sighting.address, bonded);
    if before[i].address == sighting.address { SightingIsRecorded(s.table, sighting, i); }
    HoldsIsIndexOf(before, sighting.address);
    var j := IndexOf(before, sighting.address);
    if j.Some? { SightingIsRecorded(s.table, sighting, j.value); }
    ResultSteps(s, sighting, bonded);
    hide Step, SetBonded, Upserted, IndexOf, IsKeyboardClass;
  }

  lemma ResultSteps(s: Bt, sighting: Sighting, bonded: bool)
    ensures var before := Upserted(s.table, sighting);
            var i := IndexOf(before, sighting.address);
            Step(s, InquiryResult(sighting, bonded)).table
            == if i.Some? && before[i.value].hidSupported then SetBonded(before, sighting.address, bonded) else before
  {
    hide Upserted, IndexOf, SetBonded;
  }

  lemma ForgetUnbonds(s: Bt)
    ensures Step(s, Forget).table == Unbonded(s.table)
  {
    hide Unbonded;
  }

  lemma BondIsSet(table: seq<Device>, address: Address, bonded: bool)
    requires ValidTable(table)
    ensures |SetBonded(table, address, bonded)| == |table|
    ensures forall i | 0 <= i < |table| ::
              SetBonded(table, address, bonded)[i]
              == table[i].(bonded := if table[i].address == address then bonded else table[i].bonded)
  {
    hide IndexOf;
    var i := IndexOf(table, address);
    if i.Some? {
      assert forall j | i.value < j < |table| :: table[i.value].address != table[j].address;
    }
  }

  /** A selected keyboard that is not in the table gets a record as a keyboard, with the bond that is on record. */
  lemma SelectedIsRestored(table: seq<Device>, address: Address, bonded: bool)
    requires ValidTable(table) && IndexOf(table, address).None?
    ensures var after := RestoreSelected(table, address, bonded);
            && after != []
            && (|table| < 16 ==> |after| == |table| + 1 && after[..|table|] == table)
            && (|table| == 16 ==> |after| == 1)
            && var restored := after[|after| - 1];
               restored.address == address && restored.hidSupported && restored.bonded == bonded && !restored.connected
  {
    AddedIs(address);
    RestoredIs(table, address);
    var added := Sighted(NewDevice(address), Restoration(address));
    var before := if |table| >= MAX_DEVICES then [] else table;
    ValidAppend(before, added);
    BondedLast(before, added, bonded);
    hide IndexOf, Sighted, NewDevice, Restoration, Upserted, SetBonded, ValidTable;
    assert [] + [added] == [added];
  }

  /** Setting the bond of the last device leaves the others alone. */
  lemma BondedLast(before: seq<Device>, last: Device, bonded: bool)
    requires ValidTable(before + [last])
    ensures SetBonded(before + [last], last.address, bonded) == before + [last.(bonded := bonded)]
  {
    var table := before + [last];
    BondIsSet(table, last.address, bonded);
    hide SetBonded;
    assert table[|before|] == last;
    assert forall i | 0 <= i < |before| :: table[i] == before[i] && table[i].address != table[|before|].address;
  }

  lemma AddedIs(address: Address)
    ensures var added := Sighted(NewDevice(address), Restoration(address));
            added.address == address && added.hidSupported && !added.connected
  {
    KeyboardClassBits(0, 5, 0, 1, 0);
  }

  lemma RestoredIs(table: seq<Device>, address: Address)
    requires ValidTable(table) && IndexOf(table, address).None?
    ensures Upserted(table, Restoration(address))
         == if |table| >= MAX_DEVICES then table else table + [Sighted(NewDevice(address), Restoration(address))]
    ensures Upserted([], Restoration(address)) == [Sighted(NewDevice(address), Restoration(address))]
  {
    hide Sighted, NewDevice;
  }

  lemma ValidAppend(table: seq<Device>, device: Device)
    requires ValidTable(table) && |table| < MAX_DEVICES && forall d <- table :: d.address != device.address
    ensures ValidTable(table + [device])
  {
  }
}
