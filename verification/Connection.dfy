/**
 The connection manager as a state machine: what each event and each control
 request does to the module state, and which commands it sends.
 */
module Connection {
  import opened Basics
  import opened BtState
  import opened DeviceTable
  import opened HidChannels
  import opened ReportQueue
  import SdpParser

  const INVALID_HANDLE: uint16 := 0xffff
  const KEYBOARD_CLASS: uint32 := 0x0540
  const STANDARD_CONTROL_PSM: uint16 := 0x0011
  const STANDARD_INTERRUPT_PSM: uint16 := 0x0013

  datatype Effect =
    | Transition(from: State, to: State)
    | CreateConnection(address: Address)
    | CancelConnection(cancelled: Address)
    | DisconnectLink(handle: uint16)
    | RequestSecurity(link: uint16)
    | SendBootProtocol(channel: uint16)
    | Inquire
    | StoreSelection(stored: Address)
    | EraseSelection
    | EraseLinkKeys

  /** What the Bluetooth stack still owes: an SDP result, and channel openings by PSM. */
  datatype Stack = Stack(sdpPending: bool, opening: set<uint16>)

  const NOTHING_PENDING := Stack(false, {})

  datatype Bt = Bt(
    state: State,
    acl: uint16,
    connectingAddress: Address,
    connectingValid: bool,
    cancelRequested: bool,
    connectedAddress: Address,
    timerArmed: bool,
    selectedAddress: Address,
    selectedValid: bool,
    autoConnect: bool,
    table: seq<Device>,
    sdpBuffer: SdpParser.Buffer,
    sdpCompleted: uint16,
    channels: Channels,
    ledSent: Option<byte>,  // last LED report on this ACL link
    keys: Keys,
    stack: Stack,
    log: seq<Effect>)

  /** A connection command: whether the stack takes it, and whether a link key is stored for the target. */
  datatype Dial = Dial(accepted: bool, bonded: bool)

  /** A channel command: whether the stack takes it, and the identifier it hands out. */
  datatype Create = Create(accepted: bool, cid: uint16)

  datatype Event =
    | Working(workingDial: Dial)
    | InquiryResult(sighting: Sighting, sightedBonded: bool)
    | InquiryComplete(inquiryDial: Dial)
    | ConnectionComplete(connectOk: bool, connectHandle: uint16, connectAddress: Address)
    | ChannelOpened(openOk: bool, openPsm: uint16, openCid: uint16, requestOk: bool)
    | CanSendNow(sendCid: uint16, sendOk: bool)
    | ChannelClosedEvent(closedCid: uint16)
    | SecurityLevel(securityHandle: uint16, securityOk: bool, levelReached: bool, securityQueryOk: bool)
    | AuthenticationComplete(authenticationHandle: uint16, authenticationOk: bool)
    | EncryptionChange(encryptionHandle: uint16, encryptionOk: bool, enabled: bool, encryptionQueryOk: bool)
    | DisconnectionComplete(disconnectedHandle: uint16)
    | BondChanged(bondAddress: Address, bonded: bool)
    | SdpByte(attributeId: uint16, attributeLength: uint16, attributeOffset: uint16, attributeByte: byte)
    | SdpComplete(sdpOk: bool, controlCreate: Create)
    | HidData(dataChannel: uint16, packet: seq<byte>, interruptCreate: Create)
    | RetryTimer(retryDial: Dial)
    | Scan
    | Connect(connectTarget: Address, connectDial: Dial)
    | Disconnect
    | Reconnect(reconnectDial: Dial)
    | Forget
    | HostLeds(leds: byte)
    | LedPoll(pollOk: bool)
    | UsbTask(hostReady: bool, hostTakes: bool)

  function Emit(s: Bt, effect: Effect): Bt {
    s.(log := s.log + [effect])
  }

  function Enter(s: Bt, state: State): Bt {
    if s.state == state then s else Emit(s, Transition(s.state, state)).(state := state)
  }

  /** Idle, with a retry to come if a keyboard is wanted. */
  function StartIdleTimer(s: Bt): Bt {
    if !s.autoConnect || !s.selectedValid || s.timerArmed then s else s.(timerArmed := true)
  }

  function BackToIdle(s: Bt): Bt {
    StartIdleTimer(Enter(s, Idle))
  }

  function StartInquiry(s: Bt): Bt {
    if s.state != Idle then s else Emit(Enter(s.(timerArmed := false), Inquiry), Inquire)
  }

  function Restoration(address: Address): Sighting {
    Sighting(address, false, 0, KEYBOARD_CLASS, [])
  }

  function SetBonded(table: seq<Device>, address: Address, bonded: bool): seq<Device> {
    match IndexOf(table, address)
    case None => table
    case Some(i) => table[i := table[i].(bonded := bonded)]
  }

  /** The selected keyboard gets a record again, at the cost of a full discovery list. */
  function RestoreSelected(table: seq<Device>, address: Address, bonded: bool): seq<Device> {
    var restored := if |table| >= MAX_DEVICES then Upserted([], Restoration(address))
                    else Upserted(table, Restoration(address));
    SetBonded(restored, address, bonded)
  }

  function WithSelected(s: Bt, address: Address, bonded: bool): Bt {
    if s.selectedValid && address == s.selectedAddress && IndexOf(s.table, address).None?
    then s.(table := RestoreSelected(s.table, address, bonded)) else s
  }

  function Dialing(s: Bt, address: Address): Bt {
    Emit(Enter(s.(connectingAddress := address, connectingValid := true, cancelRequested := false), Connecting),
         CreateConnection(address))
  }

  function BeginConnection(s: Bt, address: Address, dial: Dial): Bt {
    if s.state != Idle && s.state != Inquiry then s
    else
      var dialing := Dialing(WithSelected(s.(timerArmed := false), address, dial.bonded), address);
      if dial.accepted then dialing else BackToIdle(dialing.(connectingValid := false))
  }

  function CancelPending(s: Bt): Bt {
    if s.state != Connecting || !s.connectingValid then s
    else Emit(s.(cancelRequested := true), CancelConnection(s.connectingAddress))
  }

  function DisconnectAfterError(s: Bt): Bt {
    var released := s.(keys := AllReleased(s.keys));
    if s.acl != INVALID_HANDLE then Emit(released, DisconnectLink(s.acl))
    else BackToIdle(released.(channels := ResetConnection(released.channels)))
  }

  function ScheduleLeds(s: Bt, requestOk: bool): Bt {
    if !s.channels.ledReportPending || s.channels.ledCanSendRequested || !s.channels.controlOpen
       || s.state != HidConnected || !requestOk then s
    else s.(channels := s.channels.(ledCanSendRequested := true))
  }

  function ConnectedDevice(s: Bt): (d: Option<nat>)
    ensures d.Some? ==> d.value < |s.table| && s.table[d.value].address == s.connectedAddress
  {
    IndexOf(s.table, s.connectedAddress)
  }

  function OpenInterruptChannel(s: Bt, create: Create): Bt {
    var d := ConnectedDevice(s);
    if d.None? || s.table[d.value].hidInterruptPsm == 0 then DisconnectAfterError(s)
    else
      var opening := Enter(s, OpeningInterrupt).(channels := s.channels.(interruptCid := create.cid));
      if create.accepted then
        opening.(stack := s.stack.(opening := s.stack.opening + {s.table[d.value].hidInterruptPsm}))
      else DisconnectAfterError(opening)
  }

  function OpenControlChannel(s: Bt, create: Create): Bt {
    var d := ConnectedDevice(s);
    if d.None? || s.table[d.value].hidControlPsm == 0 then DisconnectAfterError(s)
    else
      var opening := Enter(s, OpeningControl).(channels := s.channels.(controlCid := create.cid));
      if create.accepted then
        opening.(stack := s.stack.(opening := s.stack.opening + {s.table[d.value].hidControlPsm}))
      else DisconnectAfterError(opening)
  }

  function Undiscovered(device: Device): Device {
    device.(hidControlPsm := 0, hidInterruptPsm := 0, hidServiceFound := false, sdpCompleted := false,
            report := NO_REPORT)
  }

  function ForgetServices(s: Bt): Bt {
    var d := ConnectedDevice(s);
    s.(table := if d.Some? then s.table[d.value := Undiscovered(s.table[d.value])] else s.table, sdpCompleted := 0)
  }

  function StartSdpDiscovery(s: Bt, queryOk: bool): Bt {
    if s.state != Authenticating then s
    else
      var asking := Enter(ForgetServices(s), ServiceDiscovery);
      if queryOk then asking.(stack := s.stack.(sdpPending := true)) else DisconnectAfterError(asking)
  }

  /** The keyboard report in a Boot Protocol packet, if it holds a valid one. */
  function BootReport(packet: seq<byte>): Option<Report> {
    if (|packet| != 9 && |packet| != 10) || packet[0] != 0xa1 then None
    else
      var report := packet[|packet| - 8..];
      if BootReportValid(report) then Some(Report(report[0], report[2..8])) else None
  }

  predicate BootReportValid(report: seq<byte>)
    requires |report| == 8
  {
    && report[1] == 0
    && ((exists i :: 2 <= i < 8 && 1 <= report[i] <= 3) ==> forall i :: 2 <= i < 8 ==> report[i] == report[2])
  }

  /** A handshake that accepts the last request. */
  predicate HandshakeOk(packet: seq<byte>) {
    packet != [] && packet[0] / 16 == 0 && packet[0] % 16 == 0
  }

  function OnWorking(s: Bt, dial: Dial): Bt {
    var idle := Enter(s, Idle);
    if s.autoConnect && s.selectedValid then BeginConnection(idle, s.selectedAddress, dial) else idle
  }

  function OnInquiryResult(s: Bt, sighting: Sighting, bonded: bool): Bt {
    var table := Upserted(s.table, sighting);
    var i := IndexOf(table, sighting.address);
    if i.Some? && table[i.value].hidSupported then s.(table := SetBonded(table, sighting.address, bonded))
    else s.(table := table)
  }

  /** The keyboard an inquiry leads to: the selected one, or else the best candidate found. */
  function InquiryTarget(s: Bt): Option<Address> {
    if !s.autoConnect then None
    else if s.selectedValid then
      var i := IndexOf(s.table, s.selectedAddress);
      if i.Some? && s.table[i.value].hidSupported then Some(s.selectedAddress) else None
    else ConnectionTarget(s.table)
  }

  /** The target becomes the selected keyboard, on record, unless one is selected already. */
  function Remembered(s: Bt, target: Address): Bt {
    if s.selectedValid then s
    else Emit(s.(selectedAddress := target, selectedValid := true), StoreSelection(target))
  }

  function OnInquiryComplete(s: Bt, dial: Dial): Bt {
    if s.state != Inquiry then s
    else
      match InquiryTarget(s)
      case None => BackToIdle(s)
      case Some(target) => BeginConnection(Remembered(s, target), target, dial)
  }

  function LinkUp(s: Bt, handle: uint16): Bt {
    s.(acl := handle, ledSent := None)
  }

  /** The link that a cancelled attempt produced is given up at once. */
  function CancelledComplete(s: Bt, ok: bool, handle: uint16): Bt {
    var cancelled := s.(cancelRequested := false);
    if ok then Emit(Enter(LinkUp(cancelled, handle), Connected), DisconnectLink(handle))
    else BackToIdle(cancelled)
  }

  function MarkConnected(s: Bt, address: Address): Bt {
    var i := IndexOf(s.table, address);
    s.(table := if i.Some? then s.table[i.value := s.table[i.value].(connected := true)] else s.table,
       connectedAddress := address)
  }

  function LinkEstablished(s: Bt, handle: uint16, address: Address): Bt {
    var up := LinkUp(s, handle);
    var connected := Enter(up.(channels := ResetConnection(up.channels)), Connected);
    Emit(Enter(MarkConnected(connected, address), Authenticating), RequestSecurity(handle))
  }

  function OnConnectionComplete(s: Bt, ok: bool, handle: uint16, address: Address): Bt {
    if s.state != Connecting then
      if ok then Emit(s, DisconnectLink(handle)) else s
    else
      var done := s.(connectingValid := false);
      if s.cancelRequested then CancelledComplete(done, ok, handle)
      else if ok then LinkEstablished(done, handle, address)
      else BackToIdle(done)
  }

  function ControlChannelOpened(s: Bt, cid: uint16, requestOk: bool): Bt {
    var setting := Enter(s.(channels := ControlOpened(s.channels, cid)), SettingBootProtocol);
    if requestOk then setting else DisconnectAfterError(setting)
  }

  function InterruptChannelOpened(s: Bt, cid: uint16, requestOk: bool): Bt {
    var ready := Enter(s.(channels := InterruptOpened(s.channels, cid)), HidConnected);
    ScheduleLeds(ready.(channels := ready.channels.(ledReportPending := true)), requestOk)
  }

  function OnChannelOpened(s: Bt, ok: bool, psm: uint16, cid: uint16, requestOk: bool): Bt {
    var answered := s.(stack := s.stack.(opening := s.stack.opening - {psm}));
    var d := ConnectedDevice(s);
    if !ok || d.None? then DisconnectAfterError(answered)
    else if psm == s.table[d.value].hidControlPsm then ControlChannelOpened(answered, cid, requestOk)
    else if psm == s.table[d.value].hidInterruptPsm then InterruptChannelOpened(answered, cid, requestOk)
    else answered
  }

  function OnCanSendNow(s: Bt, cid: uint16, sendOk: bool): Bt {
    if cid == s.channels.controlCid && s.channels.bootRequestPending then
      var sent := BootProtocolSent(s, cid);
      if sendOk then sent else DisconnectAfterError(sent)
    else if cid == s.channels.controlCid && s.channels.ledCanSendRequested then
      LedAnswered(s, sendOk)
    else s
  }

  /** The request goes to the stack, which may refuse it. */
  function BootProtocolSent(s: Bt, cid: uint16): Bt {
    Emit(s.(channels := s.channels.(bootRequestPending := false)), SendBootProtocol(cid))
  }

  /** The LED report goes out now, or stays pending. */
  function LedAnswered(s: Bt, sendOk: bool): Bt {
    var answered := s.channels.(ledCanSendRequested := false);
    if sendOk then
      s.(channels := answered.(ledReportPending := false), ledSent := Some(Masked(s.channels.ledState)))
    else s.(channels := answered)
  }

  function OnChannelClosed(s: Bt, cid: uint16): Bt {
    var closed := s.(channels := ChannelClosed(s.channels, cid),
                     keys := if ClosesInterrupt(s.channels, cid) then AllReleased(s.keys) else s.keys);
    if (ClosesControl(s.channels, cid) || ClosesInterrupt(s.channels, cid)) && s.state != Disconnected
       && s.acl != INVALID_HANDLE
    then Emit(closed, DisconnectLink(s.acl)) else closed
  }

  function OnSecured(s: Bt, handle: uint16, ok: bool, queryOk: bool): Bt {
    if handle != s.acl || s.state != Authenticating then s
    else if ok then StartSdpDiscovery(s, queryOk)
    else DisconnectAfterError(s)
  }

  function OnAuthenticationComplete(s: Bt, handle: uint16, ok: bool): Bt {
    if handle == s.acl && s.state == Authenticating && !ok then DisconnectAfterError(s) else s
  }

  /** What the stack still owes: a link that is down takes its requests with it. */
  function Settled(s: Bt, handle: uint16): Stack {
    if handle == s.acl then NOTHING_PENDING else s.stack
  }

  /** The module never looks at the handle: it takes any disconnection for its own link's. */
  function OnDisconnectionComplete(s: Bt, handle: uint16): Bt {
    var down := Enter(s, State.Disconnected);
    BackToIdle(down.(table := DeviceTable.Disconnected(s.table), keys := AllReleased(s.keys),
                     channels := ResetConnection(s.channels), acl := INVALID_HANDLE,
                     stack := Settled(s, handle)))
  }

  function OnSdpByte(s: Bt, id: uint16, length: uint16, offset: uint16, data: byte): Bt {
    var d := ConnectedDevice(s);
    var before := SdpParser.Parsing(s.sdpBuffer, s.sdpCompleted, if d.Some? then Some(s.table[d.value]) else None);
    var after := SdpParser.Fed(before, id, length, offset, data);
    s.(sdpBuffer := after.buffer, sdpCompleted := after.completed,
       table := if d.Some? && after.device.Some? then s.table[d.value := after.device.value] else s.table)
  }

  function Discovered(device: Device): Device {
    var done := device.(sdpCompleted := true);
    if done.hidControlPsm == 0 || done.hidInterruptPsm == 0
    then done.(hidControlPsm := STANDARD_CONTROL_PSM, hidInterruptPsm := STANDARD_INTERRUPT_PSM,
               hidServiceFound := true)
    else done.(hidServiceFound := true)
  }

  function MarkDiscovered(s: Bt, i: nat): Bt
    requires i < |s.table|
  {
    s.(table := s.table[i := Discovered(s.table[i])])
  }

  function OnSdpComplete(s: Bt, ok: bool, create: Create): Bt {
    var answered := s.(stack := s.stack.(sdpPending := false));
    var d := ConnectedDevice(s);
    if !ok || d.None? then DisconnectAfterError(answered)
    else OpenControlChannel(MarkDiscovered(answered, d.value), create)
  }

  function OnHidData(s: Bt, channel: uint16, packet: seq<byte>, create: Create): Bt {
    if channel == s.channels.controlCid then
      if packet == [] || s.state != SettingBootProtocol || packet[0] / 16 != 0 then s
      else if HandshakeOk(packet) then OpenInterruptChannel(s, create)
      else DisconnectAfterError(s)
    else if channel != s.channels.interruptCid || !s.channels.interruptOpen || BootReport(packet).None? then s
    else s.(keys := Sent(s.keys, BootReport(packet).value))
  }

  function OnRetryTimer(s: Bt, dial: Dial): Bt {
    var fired := s.(timerArmed := false);
    if s.state == Idle && s.autoConnect && s.selectedValid
    then BeginConnection(fired, s.selectedAddress, dial) else fired
  }

  function OnScan(s: Bt): Bt {
    if s.state != Idle then s else StartInquiry(s.(autoConnect := false, table := []))
  }

  predicate KnownKeyboard(s: Bt, address: Address) {
    var i := IndexOf(s.table, address);
    i.Some? && s.table[i.value].hidSupported
  }

  function OnConnect(s: Bt, target: Address, dial: Dial): Bt {
    if !KnownKeyboard(s, target) || s.state != Idle then s
    else BeginConnection(Selected(s, target), target, dial)
  }

  function Selected(s: Bt, address: Address): Bt {
    Emit(s.(selectedAddress := address, selectedValid := true, autoConnect := true), StoreSelection(address))
  }

  function OnDisconnect(s: Bt): Bt {
    var paused := s.(autoConnect := false);
    if s.acl != INVALID_HANDLE then Emit(paused, DisconnectLink(s.acl)) else CancelPending(paused)
  }

  function OnReconnect(s: Bt, dial: Dial): Bt {
    var resumed := s.(autoConnect := true);
    if s.acl != INVALID_HANDLE || s.state != Idle then resumed
    else
      match if s.selectedValid then Some(s.selectedAddress) else ConnectionTarget(s.table)
      case None => StartInquiry(resumed)
      case Some(target) => BeginConnection(Remembered(resumed, target), target, dial)
  }

  /** No keyboard is selected or bonded any more, on record either. */
  function Forgotten(s: Bt): Bt {
    var erased := Emit(Emit(s.(autoConnect := false, selectedValid := false), EraseSelection), EraseLinkKeys);
    erased.(table := Unbonded(s.table))
  }

  function OnForget(s: Bt): Bt {
    var forgotten := Forgotten(s);
    if s.acl != INVALID_HANDLE then Emit(forgotten, DisconnectLink(s.acl)) else CancelPending(forgotten)
  }

  function OnBondChanged(s: Bt, address: Address, bonded: bool): Bt {
    s.(table := SetBonded(s.table, address, bonded))
  }

  function OnHostLeds(s: Bt, leds: byte): Bt {
    s.(channels := LedsSet(s.channels, leds))
  }

  function OnUsbTask(s: Bt, taken: bool): Bt {
    s.(keys := Drained(s.keys, taken))
  }

  /** What a user, through the serial port or the web page, asks for. */
  predicate IsRequest(event: Event) {
    event.Scan? || event.Connect? || event.Disconnect? || event.Reconnect? || event.Forget?
  }

  predicate IsPeripheral(event: Event) {
    event.HostLeds? || event.LedPoll? || event.UsbTask? || event.RetryTimer? || event.SdpByte? || event.SdpComplete?
  }

  function Step(s: Bt, event: Event): Bt {
    match event
    case Working(dial) => OnWorking(s, dial)
    case InquiryResult(sighting, bonded) => OnInquiryResult(s, sighting, bonded)
    case InquiryComplete(dial) => OnInquiryComplete(s, dial)
    case ConnectionComplete(ok, handle, address) => OnConnectionComplete(s, ok, handle, address)
    case ChannelOpened(ok, psm, cid, requestOk) => OnChannelOpened(s, ok, psm, cid, requestOk)
    case CanSendNow(cid, sendOk) => OnCanSendNow(s, cid, sendOk)
    case ChannelClosedEvent(cid) => OnChannelClosed(s, cid)
    case SecurityLevel(handle, ok, reached, queryOk) => OnSecured(s, handle, ok && reached, queryOk)
    case AuthenticationComplete(handle, ok) => OnAuthenticationComplete(s, handle, ok)
    case EncryptionChange(handle, ok, enabled, queryOk) => OnSecured(s, handle, ok && enabled, queryOk)
    case DisconnectionComplete(handle) => OnDisconnectionComplete(s, handle)
    case BondChanged(address, bonded) => OnBondChanged(s, address, bonded)
    case SdpByte(id, length, offset, data) => OnSdpByte(s, id, length, offset, data)
    case SdpComplete(ok, create) => OnSdpComplete(s, ok, create)
    case HidData(channel, packet, create) => OnHidData(s, channel, packet, create)
    case RetryTimer(dial) => OnRetryTimer(s, dial)
    case Scan => OnScan(s)
    case Connect(target, dial) => OnConnect(s, target, dial)
    case Disconnect => OnDisconnect(s)
    case Reconnect(dial) => OnReconnect(s, dial)
    case Forget => OnForget(s)
    case HostLeds(leds) => OnHostLeds(s, leds)
    case LedPoll(requestOk) => ScheduleLeds(s, requestOk)
    case UsbTask(ready, takes) => OnUsbTask(s, ready && takes)
  }

  lemma EnterKeeps(s: Bt, state: State)
    ensures Enter(s, state) == s.(state := state, log := Enter(s, state).log)
  {
  }

  lemma RequestSteps(s: Bt, event: Event)
    requires IsRequest(event)
    ensures match event
            case Scan => Step(s, event) == OnScan(s)
            case Connect(target, dial) => Step(s, event) == OnConnect(s, target, dial)
            case Disconnect => Step(s, event) == OnDisconnect(s)
            case Reconnect(dial) => Step(s, event) == OnReconnect(s, dial)
            case Forget => Step(s, event) == OnForget(s)
            case _ => true
  {
    hide OnScan, OnConnect, OnDisconnect, OnReconnect, OnForget;
  }

  lemma PeripheralSteps(s: Bt, event: Event)
    requires IsPeripheral(event)
    ensures event.HostLeds? || event.LedPoll? || event.UsbTask? || event.RetryTimer? || event.SdpByte?
            || event.SdpComplete?
    ensures match event
            case SdpByte(id, length, offset, data) => Step(s, event) == OnSdpByte(s, id, length, offset, data)
            case SdpComplete(ok, create) => Step(s, event) == OnSdpComplete(s, ok, create)
            case RetryTimer(dial) => Step(s, event) == OnRetryTimer(s, dial)
            case HostLeds(leds) => Step(s, event) == OnHostLeds(s, leds)
            case LedPoll(requestOk) => Step(s, event) == ScheduleLeds(s, requestOk)
            case UsbTask(ready, takes) => Step(s, event) == OnUsbTask(s, ready && takes)
            case _ => true
  {
    hide OnSdpByte, OnSdpComplete, OnRetryTimer, OnHostLeds, ScheduleLeds, OnUsbTask;
  }

  lemma StackSteps(s: Bt, event: Event)
    requires !IsRequest(event) && !IsPeripheral(event)
    ensures match event
            case Working(dial) => Step(s, event) == OnWorking(s, dial)
            case InquiryResult(sighting, bonded) => Step(s, event) == OnInquiryResult(s, sighting, bonded)
            case InquiryComplete(dial) => Step(s, event) == OnInquiryComplete(s, dial)
            case ConnectionComplete(ok, handle, address) =>
              Step(s, event) == OnConnectionComplete(s, ok, handle, address)
            case ChannelOpened(ok, psm, cid, requestOk) => Step(s, event) == OnChannelOpened(s, ok, psm, cid, requestOk)
            case CanSendNow(cid, sendOk) => Step(s, event) == OnCanSendNow(s, cid, sendOk)
            case ChannelClosedEvent(cid) => Step(s, event) == OnChannelClosed(s, cid)
            case SecurityLevel(handle, ok, reached, queryOk) =>
              Step(s, event) == OnSecured(s, handle, ok && reached, queryOk)
            case AuthenticationComplete(handle, ok) => Step(s, event) == OnAuthenticationComplete(s, handle, ok)
            case EncryptionChange(handle, ok, enabled, queryOk) =>
              Step(s, event) == OnSecured(s, handle, ok && enabled, queryOk)
            case DisconnectionComplete(handle) => Step(s, event) == OnDisconnectionComplete(s, handle)
            case BondChanged(address, bonded) => Step(s, event) == OnBondChanged(s, address, bonded)
            case HidData(channel, packet, create) => Step(s, event) == OnHidData(s, channel, packet, create)
            case _ => true
  {
    hide OnWorking, OnInquiryResult, OnInquiryComplete, OnConnectionComplete, OnChannelOpened, OnCanSendNow,
         OnChannelClosed, OnSecured, OnAuthenticationComplete, OnDisconnectionComplete, OnBondChanged, OnHidData;
  }

  /** Power-on, with whatever the persistent store says about a selected keyboard. */
  function Start(selected: Option<Address>): Bt {
    Bt(Initializing, INVALID_HANDLE, ZERO_ADDRESS, false, false, ZERO_ADDRESS, false,
       if selected.Some? then selected.value else ZERO_ADDRESS, selected.Some?, true, [],
       seq(SdpParser.BUFFER_SIZE, _ => 0), 0, CLOSED, None, NO_KEYS, NOTHING_PENDING, [])
  }

  function Run(s: Bt, events: seq<Event>): Bt {
    if events == [] then s else Step(Run(s, events[..|events| - 1]), events[|events| - 1])
  }
}
