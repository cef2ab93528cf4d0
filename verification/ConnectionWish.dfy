/**
 What the user and the host want: whether a keyboard is to be connected, which
 one, and its LEDs. The module remembers exactly that, its selection is the one
 on record, and it never stops trying while a keyboard is wanted.
 */
module ConnectionWish {
  import opened Basics
  import opened BtState
  import opened Connection
  import opened ConnectionSafety
  import opened ConnectionSteps
  import opened DeviceTable
  import opened HidChannels
  import opened ReportQueue
  import SdpParser

  datatype Wish = Wish(auto: bool, selected: Option<Address>, leds: byte)

  function WishOf(s: Bt): Wish {
    Wish(s.autoConnect, if s.selectedValid then Some(s.selectedAddress) else None, s.channels.ledState)
  }

  /** Only these events change what is wanted. */
  function NextWish(s: Bt, event: Event): Wish {
    var wish := WishOf(s);
    match event
    case HostLeds(leds) => wish.(leds := leds % 0x20)
    case Scan => if s.state == Idle then wish.(auto := false) else wish
    case Disconnect => wish.(auto := false)
    case Forget => wish.(auto := false, selected := None)
    case Connect(target, _) =>
      if s.state == Idle && IsOnRecord(s, target) then wish.(auto := true, selected := Some(target)) else wish
    case Reconnect(_) =>
      if wish.selected.None? && s.state == Idle && s.acl == 0xffff
      then wish.(auto := true, selected := ConnectionTarget(s.table)) else wish.(auto := true)
    case InquiryComplete(_) =>
      if wish.selected.None? && s.state == Inquiry && wish.auto
      then wish.(selected := ConnectionTarget(s.table)) else wish
    case _ => wish
  }

  /** While idle, a retry is to come if a keyboard is wanted. */
  ghost predicate Pursues(s: Bt) {
    s.state == Idle && s.autoConnect && s.selectedValid ==> s.timerArmed
  }

  /** What is wanted stays, and if the module has become idle it pursues it. */
  ghost predicate Keeping(s: Bt, t: Bt) {
    && WishOf(t) == WishOf(s)
    && (s.state != Idle || Pursues(s) ==> Pursues(t))
  }

  lemma EnterKeeping(s: Bt, state: State)
    requires state != Idle
    ensures Keeping(s, Enter(s, state)) && Pursues(Enter(s, state))
  {
  }

  lemma BackToIdleKeeping(s: Bt)
    ensures Keeping(s, BackToIdle(s)) && Pursues(BackToIdle(s))
  {
  }

  lemma DisconnectAfterErrorKeeping(s: Bt)
    ensures Keeping(s, DisconnectAfterError(s))
  {
    BackToIdleKeeping(s.(keys := AllReleased(s.keys), channels := ResetConnection(s.channels)));
    hide BackToIdle, AllReleased;
  }

  lemma BeginConnectionKeeping(s: Bt, address: Address, dial: Dial)
    requires s.state == Idle || s.state == Inquiry
    ensures WishOf(BeginConnection(s, address, dial)) == WishOf(s) && Pursues(BeginConnection(s, address, dial))
  {
    var ready := s.(timerArmed := false);
    AttemptShape(ready, address, dial.bonded);
    var known := WithSelected(ready, address, dial.bonded);
    AttemptShape(known, address, dial.bonded);
    var failed := Dialing(known, address).(connectingValid := false);
    BackToIdleKeeping(failed);
    hide WithSelected, Dialing, BackToIdle;
  }

  lemma OpenChannelKeeping(s: Bt, create: Create)
    ensures Keeping(s, OpenControlChannel(s, create)) && Keeping(s, OpenInterruptChannel(s, create))
  {
    hide Enter, DisconnectAfterError, ConnectedDevice;
    DisconnectAfterErrorKeeping(s);
    EnterKeeping(s, OpeningControl);
    EnterKeeping(s, OpeningInterrupt);
    EnterKeeps(s, OpeningControl);
    EnterKeeps(s, OpeningInterrupt);
    DisconnectAfterErrorKeeping(Enter(s, OpeningControl).(channels := s.channels.(controlCid := create.cid)));
    DisconnectAfterErrorKeeping(Enter(s, OpeningInterrupt).(channels := s.channels.(interruptCid := create.cid)));
  }

  lemma OnSecuredKeeping(s: Bt, handle: uint16, ok: bool, queryOk: bool)
    ensures Keeping(s, OnSecured(s, handle, ok, queryOk))
  {
    hide Enter, DisconnectAfterError, ForgetServices;
    ForgettingKeeps(s);
    DisconnectAfterErrorKeeping(s);
    EnterKeeping(ForgetServices(s), ServiceDiscovery);
    EnterKeeps(ForgetServices(s), ServiceDiscovery);
    DisconnectAfterErrorKeeping(Enter(ForgetServices(s), ServiceDiscovery));
  }

  lemma OnConnectionCompleteKeeping(s: Bt, ok: bool, handle: uint16, address: Address)
    ensures Keeping(s, OnConnectionComplete(s, ok, handle, address))
  {
    hide BackToIdle, IndexOf;
    var done := s.(connectingValid := false);
    BackToIdleKeeping(done);
    BackToIdleKeeping(done.(cancelRequested := false));
  }

  lemma OnChannelOpenedKeeping(s: Bt, ok: bool, psm: uint16, cid: uint16, requestOk: bool)
    ensures Keeping(s, OnChannelOpened(s, ok, psm, cid, requestOk))
  {
    hide DisconnectAfterError, Enter, IndexOf, ScheduleLeds;
    var answered := s.(stack := s.stack.(opening := s.stack.opening - {psm}));
    DisconnectAfterErrorKeeping(answered);
    var control := answered.(channels := ControlOpened(s.channels, cid));
    EnterKeeps(control, SettingBootProtocol);
    EnterKeeping(control, SettingBootProtocol);
    DisconnectAfterErrorKeeping(Enter(control, SettingBootProtocol));
    var interrupt := answered.(channels := InterruptOpened(s.channels, cid));
    EnterKeeps(interrupt, HidConnected);
    EnterKeeping(interrupt, HidConnected);
    var ready := Enter(interrupt, HidConnected);
    ScheduleLedsKeeping(ready.(channels := interrupt.channels.(ledReportPending := true)), requestOk);
  }

  lemma ScheduleLedsKeeping(s: Bt, requestOk: bool)
    ensures Keeping(s, ScheduleLeds(s, requestOk))
  {
  }

  lemma OnCanSendNowKeeping(s: Bt, cid: uint16, sendOk: bool)
    ensures Keeping(s, OnCanSendNow(s, cid, sendOk))
  {
    hide DisconnectAfterError;
    DisconnectAfterErrorKeeping(BootProtocolSent(s, cid));
  }

  lemma OnChannelClosedKeeping(s: Bt, cid: uint16)
    ensures Keeping(s, OnChannelClosed(s, cid))
  {
    hide AllReleased;
  }

  lemma OnDisconnectionCompleteKeeping(s: Bt, handle: uint16)
    ensures Keeping(s, OnDisconnectionComplete(s, handle)) && Pursues(OnDisconnectionComplete(s, handle))
  {
    hide Enter, BackToIdle, DeviceTable.Disconnected, Settled, AllReleased;
    EnterKeeps(s, State.Disconnected);
    BackToIdleKeeping(Enter(s, State.Disconnected).(
      table := DeviceTable.Disconnected(s.table), keys := AllReleased(s.keys), channels := ResetConnection(s.channels),
      acl := INVALID_HANDLE, stack := Settled(s, handle)));
  }

  lemma OnSdpCompleteKeeping(s: Bt, ok: bool, create: Create)
    ensures Keeping(s, OnSdpComplete(s, ok, create))
  {
    hide DisconnectAfterError, OpenControlChannel, Discovered, ConnectedDevice;
    var answered := s.(stack := s.stack.(sdpPending := false));
    DisconnectAfterErrorKeeping(answered);
    var d := ConnectedDevice(s);
    if d.Some? { OpenChannelKeeping(MarkDiscovered(answered, d.value), create); }
  }

  lemma OnHidDataKeeping(s: Bt, channel: uint16, packet: seq<byte>, create: Create)
    ensures Keeping(s, OnHidData(s, channel, packet, create))
  {
    hide DisconnectAfterError, OpenInterruptChannel, BootReport, Sent;
    DisconnectAfterErrorKeeping(s);
    OpenChannelKeeping(s, create);
  }

  lemma TableKeeping(s: Bt, sighting: Sighting, address: Address, bonded: bool)
    ensures Keeping(s, OnInquiryResult(s, sighting, bonded)) && Keeping(s, OnBondChanged(s, address, bonded))
  {
    hide SetBonded, Upserted, IndexOf;
  }

  lemma QuietKeeping(s: Bt, id: uint16, length: uint16, offset: uint16, data: byte, requestOk: bool, taken: bool)
    ensures Keeping(s, OnSdpByte(s, id, length, offset, data))
    ensures Keeping(s, ScheduleLeds(s, requestOk)) && Keeping(s, OnUsbTask(s, taken))
  {
    hide SdpParser.Fed, ConnectedDevice, Drained;
  }

  lemma OnAuthenticationCompleteKeeping(s: Bt, handle: uint16, ok: bool)
    ensures Keeping(s, OnAuthenticationComplete(s, handle, ok))
  {
    hide DisconnectAfterError;
    DisconnectAfterErrorKeeping(s);
  }

  /** The event leads from `s` to `t` as far as wishes are concerned. */
  ghost predicate Wishes(s: Bt, t: Bt, event: Event) {
    && WishOf(t) == NextWish(s, event)
    && (WorkingOnce(s, event) && LinkInv(s) && Pursues(s) ==> Pursues(t))
  }

  lemma KeepingWishes(s: Bt, t: Bt, event: Event)
    requires Keeping(s, t) && NextWish(s, event) == WishOf(s)
    ensures Wishes(s, t, event)
  {
  }

  lemma OnWorkingWishes(s: Bt, dial: Dial)
    ensures Wishes(s, OnWorking(s, dial), Working(dial))
  {
    hide BeginConnection;
    BeginConnectionKeeping(Enter(s, Idle), s.selectedAddress, dial);
  }

  lemma RememberedKeeping(s: Bt, target: Address, dial: Dial)
    requires s.state == Idle || s.state == Inquiry
    requires s.selectedValid ==> target == s.selectedAddress
    ensures WishOf(BeginConnection(Remembered(s, target), target, dial)) == WishOf(s).(selected := Some(target))
    ensures Pursues(BeginConnection(Remembered(s, target), target, dial))
  {
    hide BeginConnection;
    BeginConnectionKeeping(Remembered(s, target), target, dial);
  }

  lemma OnInquiryCompleteWishes(s: Bt, dial: Dial)
    ensures Wishes(s, OnInquiryComplete(s, dial), InquiryComplete(dial))
  {
    hide BeginConnection, BackToIdle, Remembered, ConnectionTarget, IndexOf;
    BackToIdleKeeping(s);
    if s.state == Inquiry && InquiryTarget(s).Some? { RememberedKeeping(s, InquiryTarget(s).value, dial); }
  }

  lemma OnRetryTimerWishes(s: Bt, dial: Dial)
    ensures Wishes(s, OnRetryTimer(s, dial), RetryTimer(dial))
  {
    hide BeginConnection;
    if s.state == Idle { BeginConnectionKeeping(s.(timerArmed := false), s.selectedAddress, dial); }
  }

  lemma OnConnectWishes(s: Bt, target: Address, dial: Dial)
    ensures Wishes(s, OnConnect(s, target, dial), Connect(target, dial))
  {
    hide BeginConnection, KnownKeyboard, IsOnRecord;
    OnRecord(s, target);
    if s.state == Idle { BeginConnectionKeeping(Selected(s, target), target, dial); }
  }

  lemma OnReconnectWishes(s: Bt, dial: Dial)
    ensures Wishes(s, OnReconnect(s, dial), Reconnect(dial))
  {
    hide BeginConnection, Remembered, ConnectionTarget;
    var resumed := s.(autoConnect := true);
    if s.state == Idle {
      if s.selectedValid { RememberedKeeping(resumed, s.selectedAddress, dial); }
      else if ConnectionTarget(s.table).Some? { RememberedKeeping(resumed, ConnectionTarget(s.table).value, dial); }
    }
  }

  lemma OnScanWishes(s: Bt)
    ensures Wishes(s, OnScan(s), Scan)
  {
  }

  lemma OnDisconnectWishes(s: Bt)
    ensures Wishes(s, OnDisconnect(s), Disconnect)
  {
  }

  lemma OnForgetWishes(s: Bt)
    ensures Wishes(s, OnForget(s), Forget)
  {
    hide Unbonded;
  }

  lemma HostWishes(s: Bt, leds: byte)
    ensures Wishes(s, OnHostLeds(s, leds), HostLeds(leds))
  {
  }

  lemma StackWishes(s: Bt, event: Event)
    requires !IsRequest(event) && !IsPeripheral(event) && !event.Working? && !event.InquiryComplete?
    ensures Keeping(s, Step(s, event)) && NextWish(s, event) == WishOf(s)
  {
    StackSteps(s, event);
    hide Step, Keeping;
    match event
    case InquiryResult(sighting, bonded) => TableKeeping(s, sighting, ZERO_ADDRESS, bonded);
    case BondChanged(address, bonded) => TableKeeping(s, Sighting(address, false, 0, 0, []), address, bonded);
    case ConnectionComplete(ok, handle, address) => OnConnectionCompleteKeeping(s, ok, handle, address);
    case ChannelOpened(ok, psm, cid, requestOk) => OnChannelOpenedKeeping(s, ok, psm, cid, requestOk);
    case CanSendNow(cid, sendOk) => OnCanSendNowKeeping(s, cid, sendOk);
    case ChannelClosedEvent(cid) => OnChannelClosedKeeping(s, cid);
    case SecurityLevel(handle, ok, reached, queryOk) => OnSecuredKeeping(s, handle, ok && reached, queryOk);
    case EncryptionChange(handle, ok, enabled, queryOk) => OnSecuredKeeping(s, handle, ok && enabled, queryOk);
    case AuthenticationComplete(handle, ok) => OnAuthenticationCompleteKeeping(s, handle, ok);
    case DisconnectionComplete(handle) => OnDisconnectionCompleteKeeping(s, handle);
    case HidData(channel, packet, create) => OnHidDataKeeping(s, channel, packet, create);
  }

  lemma IsKeeping(s: Bt, t: Bt, event: Event)
    requires event.SdpByte? || event.LedPoll? || event.UsbTask? || event.SdpComplete?
    requires Keeping(s, t)
    ensures Wishes(s, t, event)
  {
    KeepingWishes(s, t, event);
  }

  lemma PeripheralWishes(s: Bt, event: Event)
    requires IsPeripheral(event)
    ensures Wishes(s, Step(s, event), event)
  {
    PeripheralSteps(s, event);
    KindsOf(event);
    hide *;
    if event.RetryTimer? {
      OnRetryTimerWishes(s, event.retryDial);
    } else if event.HostLeds? {
      HostWishes(s, event.leds);
    } else if event.SdpByte? {
      QuietKeeping(s, event.attributeId, event.attributeLength, event.attributeOffset, event.attributeByte, false,
                   false);
      IsKeeping(s, Step(s, event), event);
    } else if event.LedPoll? {
      QuietKeeping(s, 0, 0, 0, 0, event.pollOk, false);
      IsKeeping(s, Step(s, event), event);
    } else if event.UsbTask? {
      QuietKeeping(s, 0, 0, 0, 0, false, event.hostReady && event.hostTakes);
      IsKeeping(s, Step(s, event), event);
    } else {
      OnSdpCompleteKeeping(s, event.sdpOk, event.controlCreate);
      IsKeeping(s, Step(s, event), event);
    }
  }

  lemma RequestWishes(s: Bt, event: Event)
    requires IsRequest(event)
    ensures Wishes(s, Step(s, event), event)
  {
    RequestSteps(s, event);
    KindsOf(event);
    hide *;
    if event.Scan? { OnScanWishes(s); }
    else if event.Connect? { OnConnectWishes(s, event.connectTarget, event.connectDial); }
    else if event.Disconnect? { OnDisconnectWishes(s); }
    else if event.Reconnect? { OnReconnectWishes(s, event.reconnectDial); }
    else { OnForgetWishes(s); }
  }

  lemma StepWishes(s: Bt, event: Event)
    ensures WishOf(Step(s, event)) == NextWish(s, event)
    ensures WorkingOnce(s, event) && LinkInv(s) && Pursues(s) ==> Pursues(Step(s, event))
  {
    hide Step, NextWish, Pursues, WishOf, LinkInv, WorkingOnce;
    if IsRequest(event) {
      RequestWishes(s, event);
    } else if IsPeripheral(event) {
      PeripheralWishes(s, event);
    } else if event.Working? {
      StackSteps(s, event);
      OnWorkingWishes(s, event.workingDial);
    } else if event.InquiryComplete? {
      StackSteps(s, event);
      OnInquiryCompleteWishes(s, event.inquiryDial);
    } else {
      StackWishes(s, event);
      KeepingWishes(s, Step(s, event), event);
    }
  }

  // ------------------------------------------------------------------------
  // Runs

  /** The LEDs that the host asked for last; all off at power-on. */
  function LedsAsked(events: seq<Event>): byte {
    if events == [] then 0
    else
      var last := events[|events| - 1];
      if last.HostLeds? then last.leds % 0x20 else LedsAsked(events[..|events| - 1])
  }

  lemma OnlyTheHostSetsLeds(s: Bt, event: Event)
    ensures NextWish(s, event).leds == if event.HostLeds? then event.leds % 0x20 else s.channels.ledState
  {
    hide IsOnRecord, ConnectionTarget;
  }

  lemma {:induction false} LedsAreAsked(selected: Option<Address>, events: seq<Event>)
    ensures Run(Start(selected), events).channels.ledState == LedsAsked(events)
    decreases |events|
  {
    if events != [] {
      hide Step, NextWish, Start;
      var n := |events| - 1;
      LedsAreAsked(selected, events[..n]);
      StepWishes(Run(Start(selected), events[..n]), events[n]);
      OnlyTheHostSetsLeds(Run(Start(selected), events[..n]), events[n]);
    } else {
      hide Step;
    }
  }

  /**
   LED agreement: in every run at all, once the keyboard is connected and no
   report waits, the last LED packet of this link shows what the host asked for last.
   */
  lemma LedAgreement(selected: Option<Address>, events: seq<Event>)
    ensures var s := Run(Start(selected), events);
            s.state == HidConnected && !s.channels.ledReportPending ==> s.ledSent == Some(LedsAsked(events))
  {
    hide Step, Run;
    LedsAreAsked(selected, events);
    LedInvHolds(selected, events);
  }

  /** A connected keyboard whose LEDs are to be `leds`. */
  ghost predicate Wants(s: Bt, cid: uint16, leds: byte) {
    && LedInv(s) && s.state == HidConnected && s.channels.ledState == leds
    && s.channels.controlCid == cid && s.channels.controlOpen && !s.channels.bootRequestPending
  }

  lemma HostAsks(s: Bt, leds: byte)
    requires Wants(s, s.channels.controlCid, s.channels.ledState)
    ensures Wants(OnHostLeds(s, leds), s.channels.controlCid, leds % 0x20)
  {
  }

  lemma ReportIsRequested(s: Bt, cid: uint16, leds: byte)
    requires Wants(s, cid, leds)
    ensures var t := ScheduleLeds(s, true);
            Wants(t, cid, leds) && (t.channels.ledReportPending ==> t.channels.ledCanSendRequested)
  {
  }

  lemma ReportIsSent(s: Bt, cid: uint16, leds: byte)
    requires Wants(s, cid, leds) && (s.channels.ledReportPending ==> s.channels.ledCanSendRequested)
    ensures var t := OnCanSendNow(s, cid, true);
            t.ledSent == Some(leds) && !t.channels.ledReportPending
  {
    hide DisconnectAfterError;
  }

  /** The host's LEDs reach a connected keyboard as soon as its control channel can be written. */
  lemma LedsReachKeyboard(selected: Option<Address>, events: seq<Event>, leds: byte)
    requires var s := Run(Start(selected), events);
             s.state == HidConnected && s.channels.controlOpen && !s.channels.bootRequestPending
    ensures var s := Run(Start(selected), events);
            var t := Step(Step(Step(s, HostLeds(leds)), LedPoll(true)), CanSendNow(s.channels.controlCid, true));
            t.ledSent == Some(leds % 0x20) && !t.channels.ledReportPending
  {
    LedInvHolds(selected, events);
    var s := Run(Start(selected), events);
    var cid := s.channels.controlCid;
    IsWanted(s);
    hide *;
    HostAsks(s, leds);
    LedSteps(s, leds, cid);
    ReportIsRequested(OnHostLeds(s, leds), cid, leds % 0x20);
    LedSteps(OnHostLeds(s, leds), leds, cid);
    ReportIsSent(ScheduleLeds(OnHostLeds(s, leds), true), cid, leds % 0x20);
    LedSteps(ScheduleLeds(OnHostLeds(s, leds), true), leds, cid);
  }

  lemma IsWanted(s: Bt)
    requires LedInv(s) && s.state == HidConnected && s.channels.controlOpen && !s.channels.bootRequestPending
    ensures Wants(s, s.channels.controlCid, s.channels.ledState)
  {
  }

  lemma LedSteps(s: Bt, leds: byte, cid: uint16)
    ensures Step(s, HostLeds(leds)) == OnHostLeds(s, leds) && Step(s, LedPoll(true)) == ScheduleLeds(s, true)
    ensures Step(s, CanSendNow(cid, true)) == OnCanSendNow(s, cid, true)
  {
    hide OnHostLeds, ScheduleLeds, OnCanSendNow;
  }

  /** A request to write is made when a report waits on the open channel of a connected keyboard, and only then. */
  lemma LedsAreRequested(s: Bt, requestOk: bool)
    ensures Step(s, LedPoll(requestOk))
         == s.(channels := s.channels.(ledCanSendRequested :=
                 || s.channels.ledCanSendRequested
                 || (requestOk && s.channels.ledReportPending && s.channels.controlOpen && s.state == HidConnected)))
  {
  }

  /** What the persistent store holds after some commands. */
  function Stored(selected: Option<Address>, commands: seq<Effect>): Option<Address> {
    if commands == [] then selected
    else
      match commands[|commands| - 1]
      case StoreSelection(address) => Some(address)
      case EraseSelection => None
      case _ => Stored(selected, commands[..|commands| - 1])
  }

  lemma StoredOneMore(selected: Option<Address>, commands: seq<Effect>, effect: Effect)
    ensures Stored(selected, commands + [effect])
         == match effect
            case StoreSelection(address) => Some(address)
            case EraseSelection => None
            case _ => Stored(selected, commands)
  {
    assert (commands + [effect])[..|commands|] == commands;
  }

  lemma {:induction false} StoredMore(selected: Option<Address>, commands: seq<Effect>, more: seq<Effect>)
    ensures Stored(selected, commands + more) == Stored(Stored(selected, commands), more)
    decreases |more|
  {
    if more == [] {
      assert commands + more == commands;
    } else {
      var n := |more| - 1;
      StoredMore(selected, commands, more[..n]);
      StoredOneMore(selected, commands + more[..n], more[n]);
      assert commands + more == commands + more[..n] + [more[n]];
    }
  }

  predicate Stores(effect: Effect) {
    effect.StoreSelection? || effect.EraseSelection?
  }

  lemma {:induction false} NothingStored(selected: Option<Address>, commands: seq<Effect>)
    requires forall effect <- commands :: !Stores(effect)
    ensures Stored(selected, commands) == selected
    decreases |commands|
  {
    if commands != [] {
      NothingStored(selected, commands[..|commands| - 1]);
      assert !Stores(commands[|commands| - 1]);
    }
  }

  lemma StoredThenDialled(selected: Option<Address>, address: Address)
    ensures Stored(selected, [StoreSelection(address), CreateConnection(address)]) == Some(address)
  {
    var both := [StoreSelection(address), CreateConnection(address)];
    assert both[..1] == [StoreSelection(address)];
  }

  lemma DialsStores(s: Bt, candidate: Option<Address>)
    ensures Stored(WishOf(s).selected, Dials(s, candidate))
         == if s.selectedValid then Some(s.selectedAddress) else candidate
  {
    if s.selectedValid || candidate.None? { NothingStored(WishOf(s).selected, Dials(s, candidate)); }
    else { StoredThenDialled(WishOf(s).selected, candidate.value); }
  }

  lemma ForgetErases(s: Bt, selected: Option<Address>)
    ensures Stored(selected, [EraseSelection, EraseLinkKeys] + Stops(s)) == None
  {
    var erased := [EraseSelection, EraseLinkKeys];
    assert erased[..1] == [EraseSelection];
    StoredMore(selected, erased, Stops(s));
    assert Stored(selected, erased) == None;
    NothingStored(None, Stops(s));
  }

  lemma StoredByEvent(s: Bt, event: Event)
    ensures Stored(WishOf(s).selected, Commands(s, event)) == NextWish(s, event).selected
  {
    hide IsOnRecord, ConnectionTarget, Fails, Stored;
    var selected := WishOf(s).selected;
    NothingStored(selected, []);
    if event.Working? || event.InquiryComplete? || event.RetryTimer? || event.Reconnect? {
      DialsStores(s, None);
      DialsStores(s, ConnectionTarget(s.table));
      NothingStored(selected, [Inquire]);
      hide Dials;
    } else if event.Connect? {
      StoredThenDialled(selected, event.connectTarget);
    } else if event.Forget? {
      ForgetErases(s, selected);
      hide Stops;
    } else {
      NothingStored(selected, Commands(s, event));
    }
  }

  lemma DialledIsSelected(s: Bt, event: Event, address: Address)
    requires CreateConnection(address) in Commands(s, event)
    ensures NextWish(s, event).selected == Some(address)
  {
    hide IsOnRecord, ConnectionTarget, Fails;
  }

  /** Every connection command, in every state, is for the keyboard that is selected from then on. */
  lemma AttemptsAreForSelected(s: Bt, event: Event)
    ensures Sends(Step(s, event).log) == Sends(s.log) + Commands(s, event)
    ensures forall address :: CreateConnection(address) in Commands(s, event) ==>
              Step(s, event).selectedValid && Step(s, event).selectedAddress == address
  {
    hide Step, Commands, NextWish, Sends;
    StepDoes(s, event);
    StepWishes(s, event);
    forall address | CreateConnection(address) in Commands(s, event)
      ensures Step(s, event).selectedValid && Step(s, event).selectedAddress == address
    {
      DialledIsSelected(s, event, address);
    }
  }

  /** The selection in memory is the one on record: what the commands sent so far have stored. */
  lemma {:induction false} SelectionIsOnRecord(selected: Option<Address>, events: seq<Event>)
    ensures WishOf(Run(Start(selected), events)).selected == Stored(selected, Sends(Run(Start(selected), events).log))
    decreases |events|
  {
    if events != [] {
      hide Step, NextWish, WishOf, Start, Stored, Commands;
      var n := |events| - 1;
      var before := Run(Start(selected), events[..n]);
      SelectionIsOnRecord(selected, events[..n]);
      StepWishes(before, events[n]);
      StepDoes(before, events[n]);
      StoredMore(selected, Sends(before.log), Commands(before, events[n]));
      StoredByEvent(before, events[n]);
    } else {
      hide Step;
    }
  }

  /**
   While a keyboard is wanted the module never sits idle without a retry to come,
   and the retry dials that keyboard.
   */
  lemma {:induction false} NeverStopsTrying(selected: Option<Address>, events: seq<Event>)
    requires Keeps(WorkingOnce, Start(selected), events)
    ensures var s := Run(Start(selected), events);
            && (s.state == Idle && s.autoConnect && s.selectedValid ==> s.timerArmed)
            && (s.state == Idle && s.autoConnect && s.selectedValid ==>
                  forall dial :: Commands(s, RetryTimer(dial)) == [CreateConnection(s.selectedAddress)])
    ensures LinkInv(Run(Start(selected), events)) && Pursues(Run(Start(selected), events))
    decreases |events|
  {
    if events != [] {
      hide Step, LinkInv, Start, WorkingOnce, NextWish;
      var n := |events| - 1;
      KeepsPrefix(WorkingOnce, Start(selected), events);
      NeverStopsTrying(selected, events[..n]);
      StepWishes(Run(Start(selected), events[..n]), events[n]);
      StepSafe(Run(Start(selected), events[..n]), events[n]);
    } else {
      hide Step;
    }
  }
}
