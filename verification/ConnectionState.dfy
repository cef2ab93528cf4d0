/** The state that each event leads to. */
module ConnectionState {
  import opened Basics
  import opened BtState
  import opened Connection
  import opened ConnectionSteps
  import opened DeviceTable
  import opened HidChannels
  import opened ReportQueue
  import SdpParser

  /** After a failure the link is given up from where it stands; without one the module is idle at once. */
  function Failed(s: Bt, state: State): State {
    if s.acl != 0xffff then state else Idle
  }

  /** A connection command is taken by the stack or refused. */
  function Dialled(dial: Dial): State {
    if dial.accepted then Connecting else Idle
  }

  function Secured(s: Bt, handle: uint16, ok: bool, queryOk: bool): State {
    if handle != s.acl || s.state != Authenticating then s.state
    else if !ok then Failed(s, Authenticating)
    else if queryOk then ServiceDiscovery
    else Failed(s, ServiceDiscovery)
  }

  function NextState(s: Bt, event: Event): State {
    match event
    case Working(dial) => if s.autoConnect && s.selectedValid then Dialled(dial) else Idle
    case InquiryComplete(dial) =>
      if s.state != Inquiry then s.state
      else if !s.autoConnect then Idle
      else if s.selectedValid then if IsOnRecord(s, s.selectedAddress) then Dialled(dial) else Idle
      else if ConnectionTarget(s.table).Some? then Dialled(dial)
      else Idle
    case ConnectionComplete(ok, _, _) =>
      if s.state != Connecting then s.state
      else if !ok then Idle
      else if s.cancelRequested then Connected
      else Authenticating
    case ChannelOpened(ok, psm, _, requestOk) =>
      if !ok || Record(s).None? then Failed(s, s.state)
      else if psm == Record(s).value.hidControlPsm then
        if requestOk then SettingBootProtocol else Failed(s, SettingBootProtocol)
      else if psm == Record(s).value.hidInterruptPsm then HidConnected
      else s.state
    case CanSendNow(_, _) => if Fails(s, event) then Failed(s, s.state) else s.state
    case SecurityLevel(handle, ok, reached, queryOk) => Secured(s, handle, ok && reached, queryOk)
    case AuthenticationComplete(_, _) => if Fails(s, event) then Failed(s, s.state) else s.state
    case EncryptionChange(handle, ok, enabled, queryOk) => Secured(s, handle, ok && enabled, queryOk)
    case DisconnectionComplete(_) => Idle
    case SdpComplete(ok, create) =>
      if !ok || Record(s).None? then Failed(s, s.state)
      else if create.accepted then OpeningControl
      else Failed(s, OpeningControl)
    case HidData(channel, packet, create) =>
      if channel != s.channels.controlCid || s.state != SettingBootProtocol || packet == [] || packet[0] >= 0x10 then
        s.state
      else if packet[0] != 0 || Record(s).None? || Record(s).value.hidInterruptPsm == 0 then Failed(s, s.state)
      else if create.accepted then OpeningInterrupt
      else Failed(s, OpeningInterrupt)
    case RetryTimer(dial) => if s.state == Idle && s.autoConnect && s.selectedValid then Dialled(dial) else s.state
    case Scan => if s.state == Idle then Inquiry else s.state
    case Connect(target, dial) => if s.state == Idle && IsOnRecord(s, target) then Dialled(dial) else s.state
    case Reconnect(dial) =>
      if s.acl != 0xffff || s.state != Idle then s.state
      else if s.selectedValid || ConnectionTarget(s.table).Some? then Dialled(dial)
      else Inquiry
    case _ => s.state
  }

  lemma EnterGoes(s: Bt, state: State)
    ensures Enter(s, state).state == state && Enter(s, state).acl == s.acl
  {
  }

  lemma FailureGoes(s: Bt)
    ensures DisconnectAfterError(s).state == Failed(s, s.state)
  {
    hide AllReleased;
  }

  lemma BeginConnectionGoes(s: Bt, address: Address, dial: Dial)
    requires s.state == Idle || s.state == Inquiry
    ensures BeginConnection(s, address, dial).state == Dialled(dial)
  {
    hide WithSelected;
  }

  lemma OpenControlChannelGoes(s: Bt, create: Create)
    requires Record(s).Some? && Record(s).value.hidControlPsm != 0
    ensures OpenControlChannel(s, create).state
         == if create.accepted then OpeningControl else Failed(s, OpeningControl)
  {
    hide DisconnectAfterError, Enter, ConnectedDevice;
    EnterGoes(s, OpeningControl);
    FailureGoes(Enter(s, OpeningControl).(channels := s.channels.(controlCid := create.cid)));
  }

  lemma OpenInterruptChannelGoes(s: Bt, create: Create)
    ensures OpenInterruptChannel(s, create).state
         == if Record(s).None? || Record(s).value.hidInterruptPsm == 0 then Failed(s, s.state)
            else if create.accepted then OpeningInterrupt else Failed(s, OpeningInterrupt)
  {
    hide DisconnectAfterError, Enter, ConnectedDevice;
    FailureGoes(s);
    EnterGoes(s, OpeningInterrupt);
    FailureGoes(Enter(s, OpeningInterrupt).(channels := s.channels.(interruptCid := create.cid)));
  }

  lemma OnSecuredGoes(s: Bt, handle: uint16, ok: bool, queryOk: bool)
    ensures OnSecured(s, handle, ok, queryOk).state == Secured(s, handle, ok, queryOk)
  {
    hide DisconnectAfterError, Enter, ForgetServices;
    ForgettingKeeps(s);
    FailureGoes(s);
    EnterGoes(ForgetServices(s), ServiceDiscovery);
    FailureGoes(Enter(ForgetServices(s), ServiceDiscovery));
  }

  lemma OnConnectionCompleteGoes(s: Bt, ok: bool, handle: uint16, address: Address)
    ensures OnConnectionComplete(s, ok, handle, address).state == NextState(s, ConnectionComplete(ok, handle, address))
  {
    hide IndexOf;
  }

  lemma ChannelOpenedGoes(s: Bt, cid: uint16, requestOk: bool)
    ensures ControlChannelOpened(s, cid, requestOk).state
         == if requestOk then SettingBootProtocol else Failed(s, SettingBootProtocol)
    ensures InterruptChannelOpened(s, cid, requestOk).state == HidConnected
  {
    hide DisconnectAfterError, Enter;
    var control := s.(channels := ControlOpened(s.channels, cid));
    EnterGoes(control, SettingBootProtocol);
    FailureGoes(Enter(control, SettingBootProtocol));
    var interrupt := s.(channels := InterruptOpened(s.channels, cid));
    EnterGoes(interrupt, HidConnected);
  }

  lemma OnChannelOpenedGoes(s: Bt, ok: bool, psm: uint16, cid: uint16, requestOk: bool)
    ensures OnChannelOpened(s, ok, psm, cid, requestOk).state == NextState(s, ChannelOpened(ok, psm, cid, requestOk))
  {
    hide DisconnectAfterError, IndexOf, ControlChannelOpened, InterruptChannelOpened;
    var answered := s.(stack := s.stack.(opening := s.stack.opening - {psm}));
    FailureGoes(answered);
    ChannelOpenedGoes(answered, cid, requestOk);
  }

  lemma OnSdpCompleteGoes(s: Bt, ok: bool, create: Create)
    ensures OnSdpComplete(s, ok, create).state == NextState(s, SdpComplete(ok, create))
  {
    hide DisconnectAfterError, OpenControlChannel, Discovered, IndexOf;
    var answered := s.(stack := s.stack.(sdpPending := false));
    FailureGoes(answered);
    var d := ConnectedDevice(s);
    if d.Some? {
      assert ConnectedDevice(answered) == d;
      DiscoveredRecord(answered, d.value);
      OpenControlChannelGoes(MarkDiscovered(answered, d.value), create);
    }
  }

  lemma OnHidDataGoes(s: Bt, channel: uint16, packet: seq<byte>, create: Create)
    ensures OnHidData(s, channel, packet, create).state == NextState(s, HidData(channel, packet, create))
  {
    hide DisconnectAfterError, OpenInterruptChannel, ConnectedDevice, BootReport;
    FailureGoes(s);
    OpenInterruptChannelGoes(s, create);
  }

  lemma OnInquiryCompleteGoes(s: Bt, dial: Dial)
    ensures OnInquiryComplete(s, dial).state == NextState(s, InquiryComplete(dial))
  {
    hide BeginConnection, ConnectionTarget, IsOnRecord, KnownKeyboard;
    OnRecord(s, s.selectedAddress);
    IsKnown(s, s.selectedAddress);
    if s.state == Inquiry && InquiryTarget(s).Some? {
      hide IndexOf;
      BeginConnectionGoes(Remembered(s, InquiryTarget(s).value), InquiryTarget(s).value, dial);
    }
  }

  lemma OnReconnectGoes(s: Bt, dial: Dial)
    ensures OnReconnect(s, dial).state == NextState(s, Reconnect(dial))
  {
    hide BeginConnection, ConnectionTarget;
    var target := if s.selectedValid then Some(s.selectedAddress) else ConnectionTarget(s.table);
    if s.state == Idle && target.Some? {
      BeginConnectionGoes(Remembered(s.(autoConnect := true), target.value), target.value, dial);
    }
  }

  lemma OnConnectGoes(s: Bt, target: Address, dial: Dial)
    ensures OnConnect(s, target, dial).state == NextState(s, Connect(target, dial))
  {
    hide BeginConnection, KnownKeyboard, IsOnRecord;
    OnRecord(s, target);
    if s.state == Idle { BeginConnectionGoes(Selected(s, target), target, dial); }
  }

  lemma OnScanGoes(s: Bt)
    ensures OnScan(s).state == if s.state == Idle then Inquiry else s.state
  {
  }

  lemma StoppingGoes(s: Bt)
    ensures OnDisconnect(s).state == s.state && OnForget(s).state == s.state
  {
    ForgottenGoes(s);
    hide Unbonded, Forgotten;
  }

  lemma ForgottenGoes(s: Bt)
    ensures Forgotten(s).state == s.state
  {
    hide Unbonded;
  }

  lemma PauseStates(s: Bt)
    ensures NextState(s, Scan) == if s.state == Idle then Inquiry else s.state
    ensures NextState(s, Disconnect) == NextState(s, Forget) == s.state
  {
  }

  lemma RequestGoes(s: Bt, event: Event)
    requires IsRequest(event)
    ensures Step(s, event).state == NextState(s, event)
  {
    RequestSteps(s, event);
    KindsOf(event);
    PauseStates(s);
    hide *;
    if event.Reconnect? { OnReconnectGoes(s, event.reconnectDial); }
    else if event.Connect? { OnConnectGoes(s, event.connectTarget, event.connectDial); }
    else if event.Scan? { OnScanGoes(s); }
    else { StoppingGoes(s); }
  }

  lemma AnswerGoes(s: Bt, event: Event)
    requires IsAnswer(event) && !event.SdpComplete?
    ensures Step(s, event).state == NextState(s, event)
  {
    StackSteps(s, event);
    AnswerStates(s, event);
    hide *;
    match event
    case ChannelOpened(ok, psm, cid, requestOk) => OnChannelOpenedGoes(s, ok, psm, cid, requestOk);
    case SecurityLevel(handle, ok, reached, queryOk) => OnSecuredGoes(s, handle, ok && reached, queryOk);
    case EncryptionChange(handle, ok, enabled, queryOk) => OnSecuredGoes(s, handle, ok && enabled, queryOk);
    case AuthenticationComplete(handle, ok) => OnAuthenticationCompleteGoes(s, handle, ok);
  }

  lemma OnAuthenticationCompleteGoes(s: Bt, handle: uint16, ok: bool)
    ensures OnAuthenticationComplete(s, handle, ok).state == NextState(s, AuthenticationComplete(handle, ok))
  {
    hide DisconnectAfterError;
    FailureGoes(s);
  }

  lemma AnswerStates(s: Bt, event: Event)
    requires IsAnswer(event)
    ensures event.ChannelOpened? || event.SecurityLevel? || event.EncryptionChange? || event.AuthenticationComplete?
            || event.SdpComplete?
    ensures event.SecurityLevel? ==>
              NextState(s, event)
              == Secured(s, event.securityHandle, event.securityOk && event.levelReached, event.securityQueryOk)
    ensures event.EncryptionChange? ==>
              NextState(s, event)
              == Secured(s, event.encryptionHandle, event.encryptionOk && event.enabled, event.encryptionQueryOk)
  {
    hide Secured;
  }

  lemma DialGoes(s: Bt, event: Event)
    requires event.Working? || event.RetryTimer?
    ensures Step(s, event).state == NextState(s, event)
  {
    if event.Working? {
      StackSteps(s, event);
      EnterGoes(s, Idle);
      BeginConnectionGoes(Enter(s, Idle), s.selectedAddress, event.workingDial);
    } else {
      PeripheralSteps(s, event);
      if s.state == Idle { BeginConnectionGoes(s.(timerArmed := false), s.selectedAddress, event.retryDial); }
    }
    hide Step, BeginConnection;
  }

  lemma QuietGoes(s: Bt, event: Event)
    requires event.InquiryResult? || event.BondChanged? || event.SdpByte? || event.HostLeds? || event.LedPoll?
             || event.UsbTask? || event.ChannelClosedEvent?
    ensures Step(s, event).state == s.state
  {
    hide SetBonded, Upserted, IndexOf, SdpParser.Fed, ChannelClosed, AllReleased, Drained;
  }

  lemma CanSendNowGoes(s: Bt, cid: uint16, sendOk: bool)
    ensures OnCanSendNow(s, cid, sendOk).state == NextState(s, CanSendNow(cid, sendOk))
  {
    hide DisconnectAfterError;
    FailureGoes(BootProtocolSent(s, cid));
  }

  lemma DisconnectionGoes(s: Bt, handle: uint16)
    ensures OnDisconnectionComplete(s, handle).state == Idle
  {
    hide DeviceTable.Disconnected, AllReleased;
  }

  lemma OthersGo(s: Bt, event: Event)
    requires event.InquiryComplete? || event.ConnectionComplete? || event.CanSendNow? || event.DisconnectionComplete?
             || event.HidData?
    ensures Step(s, event).state == NextState(s, event)
  {
    StackSteps(s, event);
    DisconnectionState(s, event);
    hide *;
    if event.InquiryComplete? {
      OnInquiryCompleteGoes(s, event.inquiryDial);
    } else if event.ConnectionComplete? {
      OnConnectionCompleteGoes(s, event.connectOk, event.connectHandle, event.connectAddress);
    } else if event.CanSendNow? {
      CanSendNowGoes(s, event.sendCid, event.sendOk);
    } else if event.DisconnectionComplete? {
      DisconnectionGoes(s, event.disconnectedHandle);
    } else {
      OnHidDataGoes(s, event.dataChannel, event.packet, event.interruptCreate);
    }
  }

  lemma DisconnectionState(s: Bt, event: Event)
    ensures event.DisconnectionComplete? ==> NextState(s, event) == Idle
  {
  }

  /** In every state and for every event, this is the next state. */
  lemma StepGoes(s: Bt, event: Event)
    ensures Step(s, event).state == NextState(s, event)
  {
    KindsOf(event);
    StaysWhenQuiet(s, event);
    hide *;
    if IsRequest(event) { RequestGoes(s, event); }
    else if event.SdpComplete? { SdpGoes(s, event); }
    else if IsAnswer(event) { AnswerGoes(s, event); }
    else if event.Working? || event.RetryTimer? { DialGoes(s, event); }
    else if event.InquiryComplete? || event.ConnectionComplete? || event.CanSendNow? || event.DisconnectionComplete?
            || event.HidData? { OthersGo(s, event); }
    else { QuietGoes(s, event); }
  }

  lemma StaysWhenQuiet(s: Bt, event: Event)
    ensures (event.InquiryResult? || event.BondChanged? || event.SdpByte? || event.HostLeds? || event.LedPoll?
             || event.UsbTask? || event.ChannelClosedEvent?) ==> NextState(s, event) == s.state
  {
  }

  lemma SdpGoes(s: Bt, event: Event)
    requires event.SdpComplete?
    ensures Step(s, event).state == NextState(s, event)
  {
    PeripheralSteps(s, event);
    OnSdpCompleteGoes(s, event.sdpOk, event.controlCreate);
    hide *;
  }
}
