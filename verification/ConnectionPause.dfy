/** A user's Disconnect or Forget is final until the user connects again. */
module ConnectionPause {
  import opened Basics
  import opened BtState
  import opened Connection
  import opened ConnectionSafety
  import opened DeviceTable
  import opened HidChannels
  import ReportQueue
  import SdpParser

  /** A command or a transition that starts a connection. */
  predicate Starts(effect: Effect) {
    effect.CreateConnection? || (effect.Transition? && effect.to == Authenticating)
  }

  /** `after` extends `before` without a start. */
  ghost predicate StartsNothing(before: seq<Effect>, after: seq<Effect>) {
    before <= after && forall i | |before| <= i < |after| :: !Starts(after[i])
  }

  lemma NothingAtAll(log: seq<Effect>)
    ensures StartsNothing(log, log)
  {
  }

  lemma NothingMore(log: seq<Effect>, effect: Effect)
    requires !Starts(effect)
    ensures StartsNothing(log, log + [effect])
  {
  }

  lemma NothingThenNothing(a: seq<Effect>, b: seq<Effect>, c: seq<Effect>)
    requires StartsNothing(a, b) && StartsNothing(b, c)
    ensures StartsNothing(a, c)
  {
  }

  /** Nothing was started, and nothing that could start something was changed. */
  ghost predicate Calm(s: Bt, t: Bt) {
    && StartsNothing(s.log, t.log)
    && t.autoConnect == s.autoConnect
    && (t.state == Connecting ==> s.state == Connecting && t.cancelRequested == s.cancelRequested)
  }

  lemma CalmThenCalm(s: Bt, t: Bt, u: Bt)
    requires Calm(s, t) && Calm(t, u)
    ensures Calm(s, u)
  {
    hide StartsNothing;
    NothingThenNothing(s.log, t.log, u.log);
  }

  lemma EmitCalm(s: Bt, effect: Effect)
    requires !Starts(effect)
    ensures Calm(s, Emit(s, effect))
  {
    hide StartsNothing;
    NothingMore(s.log, effect);
  }

  lemma EnterCalm(s: Bt, state: State)
    requires state != Authenticating && state != Connecting
    ensures Calm(s, Enter(s, state))
  {
    hide StartsNothing;
    NothingAtAll(s.log);
    NothingMore(s.log, Transition(s.state, state));
  }

  lemma BackToIdleCalm(s: Bt)
    ensures Calm(s, BackToIdle(s))
  {
    EnterCalm(s, Idle);
    hide Enter, StartsNothing;
  }

  lemma DisconnectAfterErrorCalm(s: Bt)
    ensures Calm(s, DisconnectAfterError(s))
  {
    hide StartsNothing, BackToIdle, Emit;
    var released := s.(keys := ReportQueue.AllReleased(s.keys));
    EmitCalm(released, DisconnectLink(s.acl));
    BackToIdleCalm(released.(channels := ResetConnection(s.channels)));
  }

  lemma OpenInterruptChannelCalm(s: Bt, create: Create)
    ensures Calm(s, OpenInterruptChannel(s, create))
  {
    hide Enter, DisconnectAfterError, StartsNothing, ConnectedDevice;
    EnterCalm(s, OpeningInterrupt);
    var opening := Enter(s, OpeningInterrupt).(channels := s.channels.(interruptCid := create.cid));
    DisconnectAfterErrorCalm(s);
    DisconnectAfterErrorCalm(opening);
    CalmThenCalm(s, opening, DisconnectAfterError(opening));
  }

  lemma OpenControlChannelCalm(s: Bt, create: Create)
    ensures Calm(s, OpenControlChannel(s, create))
  {
    hide Enter, DisconnectAfterError, StartsNothing, ConnectedDevice;
    EnterCalm(s, OpeningControl);
    var opening := Enter(s, OpeningControl).(channels := s.channels.(controlCid := create.cid));
    DisconnectAfterErrorCalm(s);
    DisconnectAfterErrorCalm(opening);
    CalmThenCalm(s, opening, DisconnectAfterError(opening));
  }

  lemma StartSdpDiscoveryCalm(s: Bt, queryOk: bool)
    ensures Calm(s, StartSdpDiscovery(s, queryOk))
  {
    hide Enter, DisconnectAfterError, StartsNothing, ConnectedDevice, Undiscovered;
    NothingAtAll(s.log);
    if s.state == Authenticating {
      var d := ConnectedDevice(s);
      var table := if d.Some? then s.table[d.value := Undiscovered(s.table[d.value])] else s.table;
      var ready := s.(table := table, sdpCompleted := 0);
      EnterCalm(ready, ServiceDiscovery);
      DisconnectAfterErrorCalm(Enter(ready, ServiceDiscovery));
      CalmThenCalm(ready, Enter(ready, ServiceDiscovery), DisconnectAfterError(Enter(ready, ServiceDiscovery)));
    }
  }

  lemma OnSecuredCalm(s: Bt, handle: uint16, ok: bool, queryOk: bool)
    ensures Calm(s, OnSecured(s, handle, ok, queryOk))
    ensures Calm(s, OnAuthenticationComplete(s, handle, ok))
  {
    hide DisconnectAfterError, StartsNothing, StartSdpDiscovery;
    NothingAtAll(s.log);
    StartSdpDiscoveryCalm(s, queryOk);
    DisconnectAfterErrorCalm(s);
  }

  lemma CancelledCompleteCalm(s: Bt, ok: bool, handle: uint16)
    ensures StartsNothing(s.log, CancelledComplete(s, ok, handle).log)
    ensures CancelledComplete(s, ok, handle).autoConnect == s.autoConnect
    ensures CancelledComplete(s, ok, handle).state != Connecting
  {
    hide StartsNothing;
    var cancelled := s.(cancelRequested := false);
    var up := Enter(LinkUp(cancelled, handle), Connected);
    EnterCalm(LinkUp(cancelled, handle), Connected);
    EmitCalm(up, DisconnectLink(handle));
    CalmThenCalm(LinkUp(cancelled, handle), up, Emit(up, DisconnectLink(handle)));
    BackToIdleCalm(cancelled);
  }

  lemma OnChannelOpenedCalm(s: Bt, ok: bool, psm: uint16, cid: uint16, requestOk: bool)
    ensures Calm(s, OnChannelOpened(s, ok, psm, cid, requestOk))
  {
    hide Enter, DisconnectAfterError, StartsNothing, ConnectedDevice;
    NothingAtAll(s.log);
    var answered := s.(stack := s.stack.(opening := s.stack.opening - {psm}));
    DisconnectAfterErrorCalm(answered);
    var control := answered.(channels := ControlOpened(s.channels, cid));
    EnterCalm(control, SettingBootProtocol);
    DisconnectAfterErrorCalm(Enter(control, SettingBootProtocol));
    CalmThenCalm(control, Enter(control, SettingBootProtocol),
                 DisconnectAfterError(Enter(control, SettingBootProtocol)));
    EnterCalm(answered.(channels := InterruptOpened(s.channels, cid)), HidConnected);
  }

  lemma OnCanSendNowCalm(s: Bt, cid: uint16, sendOk: bool)
    ensures Calm(s, OnCanSendNow(s, cid, sendOk))
  {
    hide DisconnectAfterError, StartsNothing;
    NothingAtAll(s.log);
    var sent := BootProtocolSent(s, cid);
    EmitCalm(s.(channels := s.channels.(bootRequestPending := false)), SendBootProtocol(cid));
    DisconnectAfterErrorCalm(sent);
    CalmThenCalm(s, sent, DisconnectAfterError(sent));
  }

  lemma OnChannelClosedCalm(s: Bt, cid: uint16)
    ensures Calm(s, OnChannelClosed(s, cid))
  {
    hide StartsNothing;
    NothingAtAll(s.log);
    NothingMore(s.log, DisconnectLink(s.acl));
  }

  lemma OnDisconnectionCompleteCalm(s: Bt, handle: uint16)
    ensures Calm(s, OnDisconnectionComplete(s, handle))
  {
    hide StartsNothing, Enter, BackToIdle, DeviceTable.Disconnected;
    EnterCalm(s, State.Disconnected);
    var down := Enter(s, State.Disconnected).(
      table := DeviceTable.Disconnected(s.table), keys := ReportQueue.AllReleased(s.keys),
      channels := ResetConnection(s.channels), acl := INVALID_HANDLE,
      stack := Settled(s, handle));
    BackToIdleCalm(down);
    CalmThenCalm(s, down, BackToIdle(down));
  }

  lemma OnSdpCompleteCalm(s: Bt, ok: bool, create: Create)
    ensures Calm(s, OnSdpComplete(s, ok, create))
  {
    hide DisconnectAfterError, OpenControlChannel, StartsNothing, ConnectedDevice, Discovered;
    var answered := s.(stack := s.stack.(sdpPending := false));
    var d := ConnectedDevice(s);
    DisconnectAfterErrorCalm(answered);
    if d.Some? {
      OpenControlChannelCalm(answered.(table := s.table[d.value := Discovered(s.table[d.value])]), create);
    }
  }

  lemma OnHidDataCalm(s: Bt, channel: uint16, packet: seq<byte>, create: Create)
    ensures Calm(s, OnHidData(s, channel, packet, create))
  {
    hide DisconnectAfterError, OpenInterruptChannel, StartsNothing, BootReport, HandshakeOk;
    NothingAtAll(s.log);
    DisconnectAfterErrorCalm(s);
    OpenInterruptChannelCalm(s, create);
  }

  lemma TableUpdatesCalm(s: Bt, event: Event)
    requires event.InquiryResult? || event.BondChanged? || event.SdpByte?
    ensures Calm(s, Step(s, event))
  {
    hide StartsNothing, ConnectedDevice, IndexOf, Upserted, SetBonded, SdpParser.Fed;
    NothingAtAll(s.log);
  }

  lemma PeripheralsCalm(s: Bt, event: Event)
    requires event.HostLeds? || event.LedPoll? || event.UsbTask?
    ensures Calm(s, Step(s, event))
  {
    hide StartsNothing, LedsSet, ReportQueue.Drained;
    NothingAtAll(s.log);
  }

  /** The user has stopped: nothing automatic is wanted and a pending attempt is marked for cancellation. */
  ghost predicate Quiet(s: Bt) {
    && LinkInv(s)
    && !s.autoConnect
    && (s.state == Connecting ==> s.cancelRequested)
  }

  predicate IsResume(event: Event) {
    event.Connect? || event.Reconnect?
  }

  predicate IsPause(event: Event) {
    event.Disconnect? || event.Forget?
  }

  lemma PausingIsQuiet(s: Bt, event: Event)
    requires LinkInv(s) && IsPause(event)
    ensures Quiet(Step(s, event)) && StartsNothing(s.log, Step(s, event).log)
  {
    hide StartsNothing, Forgotten;
    ForgottenKeeps(s);
    var paused := if event.Forget? then Forgotten(s) else s.(autoConnect := false);
    NothingAtAll(s.log);
    NothingMore(paused.log, DisconnectLink(s.acl));
    NothingMore(paused.log, CancelConnection(s.connectingAddress));
    NothingThenNothing(s.log, paused.log, paused.log + [DisconnectLink(s.acl)]);
    NothingThenNothing(s.log, paused.log, paused.log + [CancelConnection(s.connectingAddress)]);
  }

  lemma ForgottenKeeps(s: Bt)
    ensures StartsNothing(s.log, Forgotten(s).log)
    ensures Forgotten(s) == s.(autoConnect := false, selectedValid := false, table := Unbonded(s.table),
                               log := Forgotten(s).log)
  {
    hide Unbonded, StartsNothing;
    NothingMore(s.log, EraseSelection);
    NothingMore(s.log + [EraseSelection], EraseLinkKeys);
    NothingThenNothing(s.log, s.log + [EraseSelection], Forgotten(s).log);
  }

  /** An inquiry from idle starts no connection. */
  lemma StartInquiryCalm(s: Bt)
    ensures Calm(s, StartInquiry(s))
  {
    hide Enter, StartsNothing;
    NothingAtAll(s.log);
    var stopped := s.(timerArmed := false);
    EnterCalm(stopped, Inquiry);
    EmitCalm(Enter(stopped, Inquiry), Inquire);
    if s.state == Idle { NothingThenNothing(s.log, Enter(stopped, Inquiry).log, StartInquiry(s).log); }
    StartInquiryState(s);
  }

  lemma StartInquiryState(s: Bt)
    ensures StartInquiry(s).state == if s.state == Idle then Inquiry else s.state
    ensures StartInquiry(s).autoConnect == s.autoConnect
    ensures StartInquiry(s).cancelRequested == s.cancelRequested
  {
  }

  lemma TriggersQuiet(s: Bt, event: Event)
    requires Quiet(s) && WorkingOnce(s, event)
    requires event.Working? || event.InquiryComplete? || event.RetryTimer? || event.Scan?
    ensures StartsNothing(s.log, Step(s, event).log)
    ensures !Step(s, event).autoConnect
    ensures Step(s, event).state == Connecting ==>
              s.state == Connecting && Step(s, event).cancelRequested == s.cancelRequested
  {
    hide StartsNothing, Enter, BeginConnection, IndexOf, ConnectionTarget, StartInquiry;
    NothingAtAll(s.log);
    EnterCalm(s, Idle);
    BackToIdleCalm(s);
    StartInquiryCalm(s.(autoConnect := false, table := []));
  }

  lemma CompletionQuiet(s: Bt, ok: bool, handle: uint16, address: Address)
    requires Quiet(s)
    ensures StartsNothing(s.log, OnConnectionComplete(s, ok, handle, address).log)
    ensures !OnConnectionComplete(s, ok, handle, address).autoConnect
    ensures OnConnectionComplete(s, ok, handle, address).state != Connecting
  {
    hide StartsNothing, CancelledComplete, LinkEstablished;
    NothingAtAll(s.log);
    NothingMore(s.log, DisconnectLink(handle));
    CancelledCompleteCalm(s.(connectingValid := false), ok, handle);
  }

  lemma QuietStep(s: Bt, event: Event)
    requires Quiet(s) && WorkingOnce(s, event) && !IsResume(event)
    ensures Quiet(Step(s, event)) && StartsNothing(s.log, Step(s, event).log)
  {
    StepSafe(s, event);
    hide LinkInv, StartsNothing, OnWorking, OnInquiryResult, OnInquiryComplete, OnConnectionComplete,
         OnChannelOpened, OnCanSendNow, OnChannelClosed, OnSecured, OnAuthenticationComplete,
         OnDisconnectionComplete, OnBondChanged, OnSdpByte, OnSdpComplete, OnHidData, OnRetryTimer, OnScan, OnConnect,
         OnDisconnect, OnReconnect, OnForget, OnHostLeds, ScheduleLeds, OnUsbTask;
    match event
    case Working(_) => TriggersQuiet(s, event);
    case InquiryComplete(_) => TriggersQuiet(s, event);
    case RetryTimer(_) => TriggersQuiet(s, event);
    case Scan => TriggersQuiet(s, event);
    case ConnectionComplete(ok, handle, address) => CompletionQuiet(s, ok, handle, address);
    case ChannelOpened(ok, psm, cid, requestOk) => OnChannelOpenedCalm(s, ok, psm, cid, requestOk);
    case CanSendNow(cid, sendOk) => OnCanSendNowCalm(s, cid, sendOk);
    case ChannelClosedEvent(cid) => OnChannelClosedCalm(s, cid);
    case SecurityLevel(handle, ok, reached, queryOk) => OnSecuredCalm(s, handle, ok && reached, queryOk);
    case EncryptionChange(handle, ok, enabled, queryOk) => OnSecuredCalm(s, handle, ok && enabled, queryOk);
    case AuthenticationComplete(handle, ok) => OnSecuredCalm(s, handle, ok, false);
    case DisconnectionComplete(handle) => OnDisconnectionCompleteCalm(s, handle);
    case SdpComplete(ok, create) => OnSdpCompleteCalm(s, ok, create);
    case HidData(channel, packet, create) => OnHidDataCalm(s, channel, packet, create);
    case Disconnect => PausingIsQuiet(s, event);
    case Forget => PausingIsQuiet(s, event);
    case InquiryResult(_, _) => TableUpdatesCalm(s, event);
    case BondChanged(_, _) => TableUpdatesCalm(s, event);
    case SdpByte(_, _, _, _) => TableUpdatesCalm(s, event);
    case _ => PeripheralsCalm(s, event);
  }

  lemma {:induction false} QuietRun(s: Bt, events: seq<Event>)
    requires Quiet(s) && Keeps(WorkingOnce, s, events) && forall event <- events :: !IsResume(event)
    ensures Quiet(Run(s, events)) && StartsNothing(s.log, Run(s, events).log)
    decreases |events|
  {
    hide Step, Quiet, StartsNothing;
    NothingAtAll(s.log);
    if events != [] {
      KeepsPrefix(WorkingOnce, s, events);
      var before := events[..|events| - 1];
      assert forall event <- before :: event in events;
      QuietRun(s, before);
      QuietStep(Run(s, before), events[|events| - 1]);
      NothingThenNothing(s.log, Run(s, before).log, Run(s, events).log);
    }
  }

  lemma {:induction false} LinkInvHolds(selected: Option<Address>, events: seq<Event>)
    requires Keeps(WorkingOnce, Start(selected), events)
    ensures LinkInv(Run(Start(selected), events))
    decreases |events|
  {
    hide Step;
    if events != [] {
      KeepsPrefix(WorkingOnce, Start(selected), events);
      LinkInvHolds(selected, events[..|events| - 1]);
      StepSafe(Run(Start(selected), events[..|events| - 1]), events[|events| - 1]);
    }
  }

  /**
   A user's Disconnect or Forget wins: whatever happened before, and whatever
   follows short of Connect or Reconnect, no connection is created and no link
   enters authentication. The stack need only start once.
   */
  lemma PauseWins(selected: Option<Address>, before: seq<Event>, pause: Event, after: seq<Event>)
    requires Keeps(WorkingOnce, Start(selected), before) && IsPause(pause)
    requires Keeps(WorkingOnce, Step(Run(Start(selected), before), pause), after)
    requires forall event <- after :: !IsResume(event)
    ensures var s := Run(Start(selected), before);
            StartsNothing(s.log, Run(Step(s, pause), after).log)
  {
    hide Step, Quiet, StartsNothing;
    var s := Run(Start(selected), before);
    LinkInvHolds(selected, before);
    PausingIsQuiet(s, pause);
    QuietRun(Step(s, pause), after);
    NothingThenNothing(s.log, Step(s, pause).log, Run(Step(s, pause), after).log);
  }
}
