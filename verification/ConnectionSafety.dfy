/**
 What holds in every run of the connection manager. Each invariant names the
 part of the stack contract that it needs.
 */
module ConnectionSafety {
  import opened Basics
  import opened BtState
  import opened Connection
  import opened DeviceTable
  import opened HidChannels
  import opened ReportQueue
  import SdpParser

  // ------------------------------------------------------------------------
  // The stack contract

  /** The stack reports that it works once, before anything else moves the state. */
  predicate WorkingOnce(s: Bt, event: Event) {
    event.Working? ==> s.state == Initializing
  }

  /** A channel opens only while there is an ACL link. */
  predicate OpensOnLink(s: Bt, event: Event) {
    event.ChannelOpened? && event.openOk ==> s.acl != INVALID_HANDLE
  }

  /** A successful connection has a valid handle and, during an attempt, the address that was asked for. */
  predicate LinkContract(s: Bt, event: Event) {
    event.ConnectionComplete? && event.connectOk ==>
      && event.connectHandle != INVALID_HANDLE
      && (s.state == Connecting ==> event.connectAddress == s.connectingAddress)
  }

  /** Service discovery data and successful results answer a request of the current link. */
  predicate AnswerContract(s: Bt, event: Event) {
    match event
    case SdpByte(_, _, _, _) => s.stack.sdpPending
    case SdpComplete(ok, _) => ok ==> s.stack.sdpPending
    case ChannelOpened(ok, psm, _, _) => ok ==> psm in s.stack.opening
    case _ => true
  }

  /** What a stack keeps that answers only what it was asked. */
  predicate AnswersOnly(s: Bt, event: Event) {
    WorkingOnce(s, event) && LinkContract(s, event) && AnswerContract(s, event)
  }

  /** While the stack owes an answer, no other link than the module's is reported down. */
  predicate NoStrayDisconnection(s: Bt, event: Event) {
    event.DisconnectionComplete? && s.stack != NOTHING_PENDING ==> event.disconnectedHandle == s.acl
  }

  predicate Contract(s: Bt, event: Event) {
    AnswersOnly(s, event) && NoStrayDisconnection(s, event)
  }

  /** Every event of a run keeps a contract in the state where it arrives. */
  ghost predicate Keeps(contract: (Bt, Event) -> bool, s: Bt, events: seq<Event>) {
    forall n | 0 <= n < |events| :: contract(Run(s, events[..n]), events[n])
  }

  lemma KeepsPrefix(contract: (Bt, Event) -> bool, s: Bt, events: seq<Event>)
    requires events != [] && Keeps(contract, s, events)
    ensures Keeps(contract, s, events[..|events| - 1])
    ensures contract(Run(s, events[..|events| - 1]), events[|events| - 1])
  {
    hide Step;
    var before := events[..|events| - 1];
    assert forall n | 0 <= n < |before| :: before[..n] == events[..n] && before[n] == events[n];
  }

  // ------------------------------------------------------------------------
  // Three invariants

  /** What the keyboard's LEDs show is what the host asked for; no contract is needed. */
  ghost predicate LedInv(s: Bt) {
    && s.channels.ledState < 0x20
    && (s.state == HidConnected && !s.channels.ledReportPending ==> s.ledSent == Some(s.channels.ledState))
  }

  /** No ACL link exists before a connection completes; this needs the stack to start once. */
  ghost predicate LinkInv(s: Bt) {
    && (s.state in {Initializing, Idle, Inquiry, Connecting} ==> s.acl == INVALID_HANDLE)
    && (s.state == Connecting ==> s.connectingValid)
    && s.state != State.Disconnected
  }

  /** No stuck keys; this also needs channels to open only on a link. */
  ghost predicate KeysInv(s: Bt) {
    && LinkInv(s)
    && (s.channels.interruptOpen ==> s.acl != INVALID_HANDLE)
    && (!s.channels.interruptOpen ==> Newest(s.keys) == RELEASED)
  }

  ghost predicate Safe(s: Bt, t: Bt) {
    && (LedInv(s) ==> LedInv(t))
    && (LinkInv(s) ==> LinkInv(t))
    && (KeysInv(s) ==> KeysInv(t))
  }

  lemma NewestOfRelease(keys: Keys)
    ensures Newest(AllReleased(keys)) == RELEASED
  {
  }

  lemma BackToIdleSafe(s: Bt)
    requires s.acl == INVALID_HANDLE
    ensures Safe(s, BackToIdle(s))
  {
    hide Newest;
  }

  /** What the two halves of a connection attempt leave alone. */
  lemma AttemptShape(s: Bt, address: Address, bonded: bool)
    ensures WithSelected(s, address, bonded) == s.(table := WithSelected(s, address, bonded).table)
    ensures Dialing(s, address)
         == s.(connectingAddress := address, connectingValid := true, cancelRequested := false, state := Connecting,
               log := Dialing(s, address).log)
  {
    hide RestoreSelected, IndexOf;
  }

  lemma BeginConnectionSafe(s: Bt, address: Address, dial: Dial)
    ensures Safe(s, BeginConnection(s, address, dial))
  {
    hide Newest, WithSelected, Dialing, BackToIdle;
    if s.state == Idle || s.state == Inquiry {
      var ready := s.(timerArmed := false);
      AttemptShape(ready, address, dial.bonded);
      var known := WithSelected(ready, address, dial.bonded);
      AttemptShape(known, address, dial.bonded);
      var failed := Dialing(known, address).(connectingValid := false);
      BackToIdleShape(failed);
    }
  }

  lemma BackToIdleShape(s: Bt)
    ensures BackToIdle(s) == s.(state := Idle, timerArmed := BackToIdle(s).timerArmed, log := BackToIdle(s).log)
  {
  }

  lemma DisconnectAfterErrorSafe(s: Bt)
    ensures Safe(s, DisconnectAfterError(s))
  {
    hide Newest, AllReleased, BackToIdle;
    NewestOfRelease(s.keys);
    if s.acl == INVALID_HANDLE {
      BackToIdleSafe(s.(keys := AllReleased(s.keys), channels := ResetConnection(s.channels)));
    }
  }

  lemma OpenInterruptChannelSafe(s: Bt, create: Create)
    ensures Safe(s, OpenInterruptChannel(s, create))
  {
    hide Newest, ConnectedDevice, DisconnectAfterError;
    DisconnectAfterErrorSafe(s);
    var opening := Enter(s, OpeningInterrupt).(channels := s.channels.(interruptCid := create.cid));
    assert Safe(s, opening);
    DisconnectAfterErrorSafe(opening);
  }

  lemma OpenControlChannelSafe(s: Bt, create: Create)
    ensures Safe(s, OpenControlChannel(s, create))
  {
    hide Newest, ConnectedDevice, DisconnectAfterError;
    DisconnectAfterErrorSafe(s);
    var opening := Enter(s, OpeningControl).(channels := s.channels.(controlCid := create.cid));
    assert Safe(s, opening);
    DisconnectAfterErrorSafe(opening);
  }

  lemma StartSdpDiscoverySafe(s: Bt, queryOk: bool)
    ensures Safe(s, StartSdpDiscovery(s, queryOk))
  {
    hide Newest, ConnectedDevice, DisconnectAfterError, Undiscovered;
    if s.state == Authenticating {
      var d := ConnectedDevice(s);
      var table := if d.Some? then s.table[d.value := Undiscovered(s.table[d.value])] else s.table;
      var asking := Enter(s.(table := table, sdpCompleted := 0), ServiceDiscovery);
      assert Safe(s, asking) by { hide DisconnectAfterError; }
      DisconnectAfterErrorSafe(asking);
    }
  }

  lemma OnSecuredSafe(s: Bt, handle: uint16, ok: bool, queryOk: bool)
    ensures Safe(s, OnSecured(s, handle, ok, queryOk))
  {
    hide Newest, DisconnectAfterError, StartSdpDiscovery;
    StartSdpDiscoverySafe(s, queryOk);
    DisconnectAfterErrorSafe(s);
  }

  lemma CancelledCompleteSafe(s: Bt, ok: bool, handle: uint16)
    requires s.state == Connecting
    ensures LedInv(s) ==> LedInv(CancelledComplete(s, ok, handle))
    ensures s.acl == INVALID_HANDLE ==> LinkInv(CancelledComplete(s, ok, handle))
    ensures s.acl == INVALID_HANDLE && !s.channels.interruptOpen && Newest(s.keys) == RELEASED ==>
              KeysInv(CancelledComplete(s, ok, handle))
  {
    hide Newest, BackToIdle;
    BackToIdleShape(s.(cancelRequested := false));
  }

  lemma LinkEstablishedSafe(s: Bt, handle: uint16, address: Address)
    ensures LedInv(s) ==> LedInv(LinkEstablished(s, handle, address))
    ensures LinkInv(LinkEstablished(s, handle, address))
    ensures Newest(s.keys) == RELEASED ==> KeysInv(LinkEstablished(s, handle, address))
  {
    hide Newest, IndexOf;
  }

  lemma OnConnectionCompleteSafe(s: Bt, ok: bool, handle: uint16, address: Address)
    ensures Safe(s, OnConnectionComplete(s, ok, handle, address))
  {
    hide Newest, CancelledComplete, LinkEstablished;
    var done := s.(connectingValid := false);
    if s.state == Connecting {
      CancelledCompleteSafe(done, ok, handle);
      LinkEstablishedSafe(done, handle, address);
    }
  }

  lemma ControlChannelOpenedSafe(s: Bt, cid: uint16, requestOk: bool)
    ensures Safe(s, ControlChannelOpened(s, cid, requestOk))
  {
    hide Newest, DisconnectAfterError;
    var setting := Enter(s.(channels := ControlOpened(s.channels, cid)), SettingBootProtocol);
    assert Safe(s, setting);
    DisconnectAfterErrorSafe(setting);
  }

  lemma InterruptChannelOpenedSafe(s: Bt, cid: uint16, requestOk: bool)
    ensures LedInv(s) ==> LedInv(InterruptChannelOpened(s, cid, requestOk))
    ensures LinkInv(s) ==> LinkInv(InterruptChannelOpened(s, cid, requestOk))
    ensures LinkInv(s) && s.acl != INVALID_HANDLE ==> KeysInv(InterruptChannelOpened(s, cid, requestOk))
  {
    hide Newest;
  }

  lemma OnChannelOpenedSafe(s: Bt, ok: bool, psm: uint16, cid: uint16, requestOk: bool)
    ensures LedInv(s) ==> LedInv(OnChannelOpened(s, ok, psm, cid, requestOk))
    ensures LinkInv(s) ==> LinkInv(OnChannelOpened(s, ok, psm, cid, requestOk))
    ensures KeysInv(s) && (ok ==> s.acl != INVALID_HANDLE) ==>
              KeysInv(OnChannelOpened(s, ok, psm, cid, requestOk))
  {
    hide Newest, ConnectedDevice, DisconnectAfterError, ControlChannelOpened, InterruptChannelOpened;
    var answered := s.(stack := s.stack.(opening := s.stack.opening - {psm}));
    assert Safe(s, answered);
    DisconnectAfterErrorSafe(answered);
    ControlChannelOpenedSafe(answered, cid, requestOk);
    InterruptChannelOpenedSafe(answered, cid, requestOk);
  }

  lemma OnCanSendNowSafe(s: Bt, cid: uint16, sendOk: bool)
    ensures Safe(s, OnCanSendNow(s, cid, sendOk))
  {
    hide Newest, DisconnectAfterError, LedAnswered;
    DisconnectAfterErrorSafe(BootProtocolSent(s, cid));
    LedAnsweredSafe(s, sendOk);
  }

  lemma LedAnsweredSafe(s: Bt, sendOk: bool)
    ensures Safe(s, LedAnswered(s, sendOk))
  {
    hide Newest;
  }

  lemma OnChannelClosedSafe(s: Bt, cid: uint16)
    ensures Safe(s, OnChannelClosed(s, cid))
  {
    hide Newest, AllReleased;
    NewestOfRelease(s.keys);
  }

  lemma OnDisconnectionCompleteSafe(s: Bt, handle: uint16)
    ensures Safe(s, OnDisconnectionComplete(s, handle))
  {
    hide Newest, AllReleased, DeviceTable.Disconnected;
    NewestOfRelease(s.keys);
  }

  lemma OnSdpCompleteSafe(s: Bt, ok: bool, create: Create)
    ensures Safe(s, OnSdpComplete(s, ok, create))
  {
    hide Newest, ConnectedDevice, DisconnectAfterError, OpenControlChannel, Discovered;
    var answered := s.(stack := s.stack.(sdpPending := false));
    var d := ConnectedDevice(s);
    DisconnectAfterErrorSafe(answered);
    if d.Some? {
      OpenControlChannelSafe(answered.(table := s.table[d.value := Discovered(s.table[d.value])]), create);
    }
  }

  lemma OnHidDataSafe(s: Bt, channel: uint16, packet: seq<byte>, create: Create)
    ensures Safe(s, OnHidData(s, channel, packet, create))
  {
    hide Newest, DisconnectAfterError, OpenInterruptChannel, BootReport, Sent, HandshakeOk;
    DisconnectAfterErrorSafe(s);
    OpenInterruptChannelSafe(s, create);
  }

  lemma OnConnectSafe(s: Bt, target: Address, dial: Dial)
    ensures Safe(s, OnConnect(s, target, dial))
  {
    hide Newest, IndexOf, BeginConnection;
    BeginConnectionSafe(Selected(s, target), target, dial);
  }

  lemma OnReconnectSafe(s: Bt, dial: Dial)
    ensures Safe(s, OnReconnect(s, dial))
  {
    hide Newest, BeginConnection, ConnectionTarget;
    var target := if s.selectedValid then Some(s.selectedAddress) else ConnectionTarget(s.table);
    var resumed := s.(autoConnect := true);
    if target.Some? {
      BeginConnectionSafe(Remembered(resumed, target.value), target.value, dial);
    }
  }

  lemma OnRetryTimerSafe(s: Bt, dial: Dial)
    ensures Safe(s, OnRetryTimer(s, dial))
  {
    hide Newest, BeginConnection;
    BeginConnectionSafe(s.(timerArmed := false), s.selectedAddress, dial);
  }

  lemma OnInquiryCompleteSafe(s: Bt, dial: Dial)
    ensures Safe(s, OnInquiryComplete(s, dial))
  {
    hide Newest, BeginConnection, InquiryTarget;
    var target := InquiryTarget(s);
    if target.Some? {
      BeginConnectionSafe(Remembered(s, target.value), target.value, dial);
    }
  }

  lemma OnScanSafe(s: Bt)
    ensures Safe(s, OnScan(s))
  {
    hide Newest;
  }

  lemma OnDisconnectSafe(s: Bt)
    ensures Safe(s, OnDisconnect(s))
  {
    hide Newest;
  }

  lemma OnForgetSafe(s: Bt)
    ensures Safe(s, OnForget(s))
  {
    hide Newest, Unbonded, Forgotten, CancelPending;
    ForgottenSafe(s);
    CancelPendingSafe(Forgotten(s));
  }

  lemma ForgottenSafe(s: Bt)
    ensures Safe(s, Forgotten(s)) && Forgotten(s).acl == s.acl
  {
    hide Newest, Unbonded;
  }

  lemma CancelPendingSafe(s: Bt)
    ensures Safe(s, CancelPending(s))
  {
    hide Newest;
  }

  lemma OnBondChangedSafe(s: Bt, address: Address, bonded: bool)
    ensures Safe(s, OnBondChanged(s, address, bonded))
  {
    hide Newest, SetBonded;
  }

  lemma OnWorkingSafe(s: Bt, dial: Dial)
    ensures LedInv(s) ==> LedInv(OnWorking(s, dial))
    ensures s.state == Initializing ==> Safe(s, OnWorking(s, dial))
  {
    hide Newest, BeginConnection;
    BeginConnectionSafe(Enter(s, Idle), s.selectedAddress, dial);
  }

  lemma DrainSafe(s: Bt, taken: bool)
    ensures Safe(s, OnUsbTask(s, taken))
  {
    DrainingKeepsNewest(s.keys, taken);
    hide Newest, Drained;
  }

  lemma StepSafe(s: Bt, event: Event)
    ensures LedInv(s) ==> LedInv(Step(s, event))
    ensures WorkingOnce(s, event) && LinkInv(s) ==> LinkInv(Step(s, event))
    ensures WorkingOnce(s, event) && OpensOnLink(s, event) && KeysInv(s) ==> KeysInv(Step(s, event))
  {
    hide LedInv, LinkInv, KeysInv, OnWorking, OnInquiryResult, OnInquiryComplete, OnConnectionComplete,
         OnChannelOpened, OnCanSendNow, OnChannelClosed, OnSecured, OnAuthenticationComplete,
         OnDisconnectionComplete, OnBondChanged, OnSdpByte, OnSdpComplete, OnHidData, OnRetryTimer, OnScan, OnConnect,
         OnDisconnect, OnReconnect, OnForget, OnHostLeds, ScheduleLeds, OnUsbTask;
    match event
    case Working(dial) => OnWorkingSafe(s, dial);
    case ConnectionComplete(ok, handle, address) => OnConnectionCompleteSafe(s, ok, handle, address);
    case ChannelOpened(ok, psm, cid, requestOk) => OnChannelOpenedSafe(s, ok, psm, cid, requestOk);
    case CanSendNow(cid, sendOk) => OnCanSendNowSafe(s, cid, sendOk);
    case ChannelClosedEvent(cid) => OnChannelClosedSafe(s, cid);
    case SecurityLevel(handle, ok, reached, queryOk) => OnSecuredSafe(s, handle, ok && reached, queryOk);
    case EncryptionChange(handle, ok, enabled, queryOk) => OnSecuredSafe(s, handle, ok && enabled, queryOk);
    case AuthenticationComplete(handle, ok) => OnAuthenticationCompleteSafe(s, handle, ok);
    case DisconnectionComplete(handle) => OnDisconnectionCompleteSafe(s, handle);
    case SdpComplete(ok, create) => OnSdpCompleteSafe(s, ok, create);
    case HidData(channel, packet, create) => OnHidDataSafe(s, channel, packet, create);
    case UsbTask(ready, takes) => DrainSafe(s, ready && takes);
    case InquiryComplete(dial) => OnInquiryCompleteSafe(s, dial);
    case RetryTimer(dial) => OnRetryTimerSafe(s, dial);
    case Connect(target, dial) => OnConnectSafe(s, target, dial);
    case Reconnect(dial) => OnReconnectSafe(s, dial);
    case Scan => OnScanSafe(s);
    case Disconnect => OnDisconnectSafe(s);
    case Forget => OnForgetSafe(s);
    case InquiryResult(sighting, bonded) => OnInquiryResultSafe(s, sighting, bonded);
    case BondChanged(address, bonded) => OnBondChangedSafe(s, address, bonded);
    case SdpByte(id, length, offset, data) => OnSdpByteSafe(s, id, length, offset, data);
    case HostLeds(leds) => LedsSafe(s, leds, false);
    case LedPoll(requestOk) => LedsSafe(s, 0, requestOk);
  }

  lemma OnAuthenticationCompleteSafe(s: Bt, handle: uint16, ok: bool)
    ensures Safe(s, OnAuthenticationComplete(s, handle, ok))
  {
    hide Newest, DisconnectAfterError;
    DisconnectAfterErrorSafe(s);
  }

  lemma OnInquiryResultSafe(s: Bt, sighting: Sighting, bonded: bool)
    ensures Safe(s, OnInquiryResult(s, sighting, bonded))
  {
    hide Newest, IndexOf, Upserted, SetBonded;
  }

  lemma OnSdpByteSafe(s: Bt, id: uint16, length: uint16, offset: uint16, data: byte)
    ensures Safe(s, OnSdpByte(s, id, length, offset, data))
  {
    hide Newest, ConnectedDevice, SdpParser.Fed;
  }

  lemma LedsSafe(s: Bt, leds: byte, requestOk: bool)
    ensures Safe(s, OnHostLeds(s, leds)) && Safe(s, ScheduleLeds(s, requestOk))
  {
    hide Newest;
  }

  lemma StartSafe(selected: Option<Address>)
    ensures LedInv(Start(selected)) && KeysInv(Start(selected))
  {
  }

  lemma {:induction false} LedInvHolds(selected: Option<Address>, events: seq<Event>)
    ensures LedInv(Run(Start(selected), events))
    decreases |events|
  {
    hide Step;
    StartSafe(selected);
    if events != [] {
      LedInvHolds(selected, events[..|events| - 1]);
      StepSafe(Run(Start(selected), events[..|events| - 1]), events[|events| - 1]);
    }
  }

  /**
   No stuck keys: while the interrupt channel is not open, the newest report for
   the USB host releases every key.
   */
  lemma {:induction false} NoStuckKeys(selected: Option<Address>, events: seq<Event>)
    requires Keeps(WorkingOnce, Start(selected), events) && Keeps(OpensOnLink, Start(selected), events)
    ensures var s := Run(Start(selected), events);
            !s.channels.interruptOpen ==> Newest(s.keys) == RELEASED
    ensures KeysInv(Run(Start(selected), events))
    decreases |events|
  {
    hide Step, Newest;
    StartSafe(selected);
    if events != [] {
      KeepsPrefix(WorkingOnce, Start(selected), events);
      KeepsPrefix(OpensOnLink, Start(selected), events);
      NoStuckKeys(selected, events[..|events| - 1]);
      StepSafe(Run(Start(selected), events[..|events| - 1]), events[|events| - 1]);
    }
  }
}
