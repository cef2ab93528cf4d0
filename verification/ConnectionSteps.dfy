/**
 What one event makes the connection manager do: which commands go out, in
 which order, and what becomes of the reports for the USB host.
 */
module ConnectionSteps {
  import opened Basics
  import opened BtState
  import opened Connection
  import opened DeviceTable
  import opened HidChannels
  import opened ReportQueue
  import ConnectionSafety
  import SdpParser

  // ------------------------------------------------------------------------
  // The packets of a keyboard

  /**
   A Boot Protocol input packet, with or without a report ID: the modifier, a
   zero, and six keys. The error codes 1 to 3 stand in all six places or nowhere.
   */
  predicate Carries(packet: seq<byte>, report: Report) {
    && (|| packet == [0xa1, report.modifier, 0] + report.keycodes
        || (|packet| > 1 && packet == [0xa1, packet[1], report.modifier, 0] + report.keycodes))
    && (|| (forall key <- report.keycodes :: key == 0 || key > 3)
        || (forall key <- report.keycodes :: key == report.keycodes[0]))
  }

  lemma ReportOf(eight: seq<byte>, report: Report)
    requires |eight| == 8
    ensures eight == [report.modifier, 0] + report.keycodes
       <==> eight[1] == 0 && report == Report(eight[0], eight[2..8])
  {
  }

  lemma ValidKeys(eight: seq<byte>)
    requires |eight| == 8 && eight[1] == 0
    ensures BootReportValid(eight)
       <==> || (forall key <- eight[2..8] :: key == 0 || key > 3)
            || (forall key <- eight[2..8] :: key == eight[2])
  {
    var keys := eight[2..8];
    assert forall i | 2 <= i < 8 :: eight[i] == keys[i - 2] && eight[i] in keys;
    forall key | key in keys ensures exists i :: 2 <= i < 8 && eight[i] == key {
      var j :| 0 <= j < 6 && keys[j] == key;
      assert eight[j + 2] == key;
    }
  }

  lemma PacketCarries(packet: seq<byte>, report: Report)
    ensures BootReport(packet) == Some(report) <==> Carries(packet, report)
  {
    if |packet| == 9 || |packet| == 10 {
      var eight := packet[|packet| - 8..];
      ReportOf(eight, report);
      if eight[1] == 0 { ValidKeys(eight); }
      hide BootReportValid;
      assert |packet| == 9 ==>
          (packet == [0xa1, report.modifier, 0] + report.keycodes
           <==> packet[0] == 0xa1 && eight == [report.modifier, 0] + report.keycodes) by {
        if |packet| == 9 { assert packet == [packet[0]] + eight; }
      }
      assert |packet| == 10 ==>
          (packet == [0xa1, packet[1], report.modifier, 0] + report.keycodes
           <==> packet[0] == 0xa1 && eight == [report.modifier, 0] + report.keycodes) by {
        if |packet| == 10 { assert packet == [packet[0], packet[1]] + eight; }
      }
    }
  }

  function Typed(packet: seq<byte>): Option<Report> {
    if |packet| == 9 && Carries(packet, Report(packet[1], packet[3..])) then Some(Report(packet[1], packet[3..]))
    else if |packet| == 10 && Carries(packet, Report(packet[2], packet[4..])) then Some(Report(packet[2], packet[4..]))
    else None
  }

  lemma TypedIsCarried(packet: seq<byte>, report: Report)
    ensures Typed(packet) == Some(report) <==> Carries(packet, report)
    ensures Typed(packet) == BootReport(packet)
  {
    PacketCarries(packet, report);
    if BootReport(packet).Some? { PacketCarries(packet, BootReport(packet).value); }
    if |packet| == 9 { PacketCarries(packet, Report(packet[1], packet[3..])); }
    if |packet| == 10 { PacketCarries(packet, Report(packet[2], packet[4..])); }
    if Carries(packet, report) {
      assert |packet| == 9 ==> packet[1] == report.modifier && packet[3..] == report.keycodes;
      assert |packet| == 10 ==> packet[2] == report.modifier && packet[4..] == report.keycodes;
    }
  }

  // ------------------------------------------------------------------------
  // What an event means

  /** The record of the link's device. */
  function Record(s: Bt): Option<Device> {
    var d := ConnectedDevice(s);
    if d.Some? then Some(s.table[d.value]) else None
  }

  /** A step of the connection has failed. */
  predicate Fails(s: Bt, event: Event) {
    match event
    case ChannelOpened(ok, psm, _, requestOk) =>
      !ok || Record(s).None? || (psm == Record(s).value.hidControlPsm && !requestOk)
    case CanSendNow(cid, sendOk) => cid == s.channels.controlCid && s.channels.bootRequestPending && !sendOk
    case SecurityLevel(handle, ok, reached, queryOk) =>
      handle == s.acl && s.state == Authenticating && !(ok && reached && queryOk)
    case EncryptionChange(handle, ok, enabled, queryOk) =>
      handle == s.acl && s.state == Authenticating && !(ok && enabled && queryOk)
    case AuthenticationComplete(handle, ok) => handle == s.acl && s.state == Authenticating && !ok
    case SdpComplete(ok, create) => !ok || Record(s).None? || !create.accepted
    case HidData(channel, packet, create) =>
      && channel == s.channels.controlCid && s.state == SettingBootProtocol && packet != [] && packet[0] < 0x10
      && (packet[0] != 0 || Record(s).None? || Record(s).value.hidInterruptPsm == 0 || !create.accepted)
    case _ => false
  }

  /** The queue is emptied and the host is told that no key is held. */
  predicate Releases(s: Bt, event: Event) {
    || Fails(s, event)
    || event.DisconnectionComplete?
    || (event.ChannelClosedEvent? && event.closedCid != 0 && event.closedCid == s.channels.interruptCid)
  }

  /** The report that a packet on the open interrupt channel adds. */
  function Adds(s: Bt, event: Event): Option<Report> {
    if event.HidData? && event.dataChannel == s.channels.interruptCid && event.dataChannel != s.channels.controlCid
       && s.channels.interruptOpen
    then Typed(event.packet) else None
  }

  /** The host takes the oldest report. */
  predicate Takes(s: Bt, event: Event) {
    event == UsbTask(true, true) && s.keys.pending != []
  }

  const NO_KEY := Report(0, [0, 0, 0, 0, 0, 0])

  /** The queue after any event. */
  function NextKeys(s: Bt, event: Event): Keys {
    if Releases(s, event) then s.keys.(pending := [NO_KEY])
    else if Adds(s, event).Some? then
      s.keys.(pending := (if |s.keys.pending| == 64 then [] else s.keys.pending) + [Adds(s, event).value])
    else if Takes(s, event) then Keys(s.keys.pending[1..], s.keys.pending[0])
    else s.keys
  }

  /** The link is given up. */
  function GivesUp(s: Bt): seq<Effect> {
    if s.acl != 0xffff then [DisconnectLink(s.acl)] else []
  }

  /** A link is given up, or the attempt to get one. */
  function Stops(s: Bt): seq<Effect> {
    if s.acl != 0xffff then [DisconnectLink(s.acl)]
    else if s.state == Connecting && s.connectingValid then [CancelConnection(s.connectingAddress)]
    else []
  }

  /** The selected keyboard is dialled, or else a candidate, which is put on record. */
  function Dials(s: Bt, candidate: Option<Address>): seq<Effect> {
    if s.selectedValid then [CreateConnection(s.selectedAddress)]
    else if candidate.Some? then [StoreSelection(candidate.value), CreateConnection(candidate.value)]
    else []
  }

  predicate IsOnRecord(s: Bt, address: Address) {
    exists i :: 0 <= i < |s.table| && s.table[i].address == address && s.table[i].hidSupported
                && forall j | 0 <= j < i :: s.table[j].address != address
  }

  /** The commands that an event brings about, in order. */
  function Commands(s: Bt, event: Event): seq<Effect> {
    match event
    case Working(_) => if s.autoConnect then Dials(s, None) else []
    case InquiryComplete(_) =>
      if s.state != Inquiry || !s.autoConnect || (s.selectedValid && !IsOnRecord(s, s.selectedAddress)) then []
      else Dials(s, ConnectionTarget(s.table))
    case ConnectionComplete(ok, handle, _) =>
      if !ok then []
      else if s.state != Connecting || s.cancelRequested then [DisconnectLink(handle)]
      else [RequestSecurity(handle)]
    case CanSendNow(cid, sendOk) =>
      if cid != s.channels.controlCid || !s.channels.bootRequestPending then []
      else [SendBootProtocol(cid)] + if sendOk then [] else GivesUp(s)
    case ChannelClosedEvent(cid) =>
      if cid != 0 && (cid == s.channels.controlCid || cid == s.channels.interruptCid) && s.state != State.Disconnected
      then GivesUp(s) else []
    case RetryTimer(_) => if s.state == Idle && s.autoConnect then Dials(s, None) else []
    case Scan => if s.state == Idle then [Inquire] else []
    case Connect(target, _) =>
      if s.state == Idle && IsOnRecord(s, target) then [StoreSelection(target), CreateConnection(target)] else []
    case Disconnect => Stops(s)
    case Reconnect(_) =>
      if s.acl != 0xffff || s.state != Idle then []
      else if !s.selectedValid && ConnectionTarget(s.table).None? then [Inquire]
      else Dials(s, ConnectionTarget(s.table))
    case Forget => [EraseSelection, EraseLinkKeys] + Stops(s)
    case _ => if Fails(s, event) then GivesUp(s) else []
  }

  // ------------------------------------------------------------------------
  // Every step does exactly that

  /** The commands of a log, without the transitions between them. */
  function Sends(log: seq<Effect>): seq<Effect> {
    if log == [] then []
    else
      var last := log[|log| - 1];
      Sends(log[..|log| - 1]) + (if last.Transition? then [] else [last])
  }

  /** From `s` to `t` the commands go out, and the queue becomes `keys`. */
  ghost predicate Does(s: Bt, t: Bt, keys: Keys, commands: seq<Effect>) {
    t.keys == keys && Sends(t.log) == Sends(s.log) + commands
  }

  lemma SendsOneMore(log: seq<Effect>, effect: Effect)
    ensures Sends(log + [effect]) == Sends(log) + (if effect.Transition? then [] else [effect])
  {
    assert (log + [effect])[..|log|] == log;
  }

  lemma EmitDoes(s: Bt, effect: Effect)
    requires !effect.Transition?
    ensures Does(s, Emit(s, effect), s.keys, [effect])
  {
    SendsOneMore(s.log, effect);
  }

  lemma EnterDoes(s: Bt, state: State)
    ensures Does(s, Enter(s, state), s.keys, [])
  {
    SendsOneMore(s.log, Transition(s.state, state));
  }

  lemma NothingDone(s: Bt, t: Bt)
    requires t.keys == s.keys && t.log == s.log
    ensures Does(s, t, s.keys, [])
  {
  }

  lemma ThenDoes(s: Bt, t: Bt, u: Bt, keys: Keys, first: seq<Effect>, second: seq<Effect>)
    requires Does(s, t, s.keys, first) && Does(t, u, keys, second)
    ensures Does(s, u, keys, first + second)
  {
    assert (Sends(s.log) + first) + second == Sends(s.log) + (first + second);
  }

  lemma BackToIdleDoes(s: Bt)
    ensures Does(s, BackToIdle(s), s.keys, [])
  {
    EnterDoes(s, Idle);
    hide Enter;
  }

  function Released(s: Bt): Keys {
    s.keys.(pending := [NO_KEY])
  }

  lemma DisconnectAfterErrorDoes(s: Bt)
    ensures Does(s, DisconnectAfterError(s), Released(s), GivesUp(s))
  {
    var released := s.(keys := AllReleased(s.keys));
    EmitDoes(released, DisconnectLink(s.acl));
    BackToIdleDoes(released.(channels := ResetConnection(released.channels)));
    hide Emit, BackToIdle;
  }

  lemma DialingDoes(s: Bt, address: Address)
    ensures Does(s, Dialing(s, address), s.keys, [CreateConnection(address)])
  {
    var asking := s.(connectingAddress := address, connectingValid := true, cancelRequested := false);
    EnterDoes(asking, Connecting);
    EmitDoes(Enter(asking, Connecting), CreateConnection(address));
    hide Enter, Emit;
    assert [] + [CreateConnection(address)] == [CreateConnection(address)];
  }

  lemma BeginConnectionDoes(s: Bt, address: Address, dial: Dial)
    requires s.state == Idle || s.state == Inquiry
    ensures Does(s, BeginConnection(s, address, dial), s.keys, [CreateConnection(address)])
  {
    var ready := s.(timerArmed := false);
    ConnectionSafety.AttemptShape(ready, address, dial.bonded);
    var known := WithSelected(ready, address, dial.bonded);
    DialingDoes(known, address);
    BackToIdleDoes(Dialing(known, address).(connectingValid := false));
    hide Dialing, BackToIdle, WithSelected, Sends;
  }

  lemma OpenControlChannelDoes(s: Bt, create: Create)
    requires Record(s).Some? && Record(s).value.hidControlPsm != 0
    ensures Does(s, OpenControlChannel(s, create), if create.accepted then s.keys else Released(s),
                 if create.accepted then [] else GivesUp(s))
  {
    hide DisconnectAfterError, Enter, Sends, ConnectedDevice;
    EnterDoes(s, OpeningControl);
    EnterKeeps(s, OpeningControl);
    DisconnectAfterErrorDoes(Enter(s, OpeningControl).(channels := s.channels.(controlCid := create.cid)));
  }

  lemma OpenInterruptChannelDoes(s: Bt, create: Create)
    ensures var failed := Record(s).None? || Record(s).value.hidInterruptPsm == 0 || !create.accepted;
            Does(s, OpenInterruptChannel(s, create), if failed then Released(s) else s.keys,
                 if failed then GivesUp(s) else [])
  {
    hide DisconnectAfterError, Enter, Sends, ConnectedDevice;
    DisconnectAfterErrorDoes(s);
    EnterDoes(s, OpeningInterrupt);
    EnterKeeps(s, OpeningInterrupt);
    DisconnectAfterErrorDoes(Enter(s, OpeningInterrupt).(channels := s.channels.(interruptCid := create.cid)));
  }

  lemma OnSecuredDoes(s: Bt, handle: uint16, ok: bool, queryOk: bool)
    ensures var failed := handle == s.acl && s.state == Authenticating && !(ok && queryOk);
            Does(s, OnSecured(s, handle, ok, queryOk), if failed then Released(s) else s.keys,
                 if failed then GivesUp(s) else [])
  {
    hide DisconnectAfterError, Enter, Sends, ForgetServices;
    ForgettingKeeps(s);
    DisconnectAfterErrorDoes(s);
    EnterDoes(ForgetServices(s), ServiceDiscovery);
    EnterKeeps(ForgetServices(s), ServiceDiscovery);
    DisconnectAfterErrorDoes(Enter(ForgetServices(s), ServiceDiscovery));
  }

  lemma ForgettingKeeps(s: Bt)
    ensures ForgetServices(s) == s.(table := ForgetServices(s).table, sdpCompleted := 0)
  {
    hide ConnectedDevice, Undiscovered;
  }

  lemma OnConnectionCompleteDoes(s: Bt, ok: bool, handle: uint16, address: Address)
    ensures Does(s, OnConnectionComplete(s, ok, handle, address), s.keys,
                 Commands(s, ConnectionComplete(ok, handle, address)))
  {
    hide Sends, Enter, Emit, BackToIdle, MarkConnected;
    var done := s.(connectingValid := false);
    EmitDoes(s, DisconnectLink(handle));
    BackToIdleDoes(done);
    var cancelled := done.(cancelRequested := false);
    BackToIdleDoes(cancelled);
    EnterDoes(LinkUp(cancelled, handle), Connected);
    EmitDoes(Enter(LinkUp(cancelled, handle), Connected), DisconnectLink(handle));
    assert [] + [DisconnectLink(handle)] == [DisconnectLink(handle)];
    LinkEstablishedDoes(done, handle, address);
    hide LinkEstablished, LinkUp;
  }

  lemma LinkEstablishedDoes(s: Bt, handle: uint16, address: Address)
    ensures Does(s, LinkEstablished(s, handle, address), s.keys, [RequestSecurity(handle)])
  {
    hide Sends, Enter, Emit, MarkConnected;
    var up := LinkUp(s, handle).(channels := ResetConnection(s.channels));
    EnterDoes(up, Connected);
    var connected := Enter(up, Connected);
    MarkingKeeps(connected, address);
    EnterDoes(MarkConnected(connected, address), Authenticating);
    EmitDoes(Enter(MarkConnected(connected, address), Authenticating), RequestSecurity(handle));
    assert [] + [RequestSecurity(handle)] == [RequestSecurity(handle)];
  }

  lemma MarkingKeeps(s: Bt, address: Address)
    ensures MarkConnected(s, address).log == s.log && MarkConnected(s, address).keys == s.keys
  {
    hide IndexOf;
  }

  lemma OnChannelOpenedDoes(s: Bt, ok: bool, psm: uint16, cid: uint16, requestOk: bool)
    ensures var failed := Fails(s, ChannelOpened(ok, psm, cid, requestOk));
            Does(s, OnChannelOpened(s, ok, psm, cid, requestOk), if failed then Released(s) else s.keys,
                 if failed then GivesUp(s) else [])
  {
    hide DisconnectAfterError, Enter, Sends, IndexOf, ScheduleLeds;
    var answered := s.(stack := s.stack.(opening := s.stack.opening - {psm}));
    DisconnectAfterErrorDoes(answered);
    var control := answered.(channels := ControlOpened(s.channels, cid));
    EnterDoes(control, SettingBootProtocol);
    EnterKeeps(control, SettingBootProtocol);
    DisconnectAfterErrorDoes(Enter(control, SettingBootProtocol));
    var interrupt := answered.(channels := InterruptOpened(s.channels, cid));
    EnterDoes(interrupt, HidConnected);
    EnterKeeps(interrupt, HidConnected);
    var ready := Enter(interrupt, HidConnected);
    SchedulingKeeps(ready.(channels := interrupt.channels.(ledReportPending := true)), requestOk);
  }

  lemma SchedulingKeeps(s: Bt, requestOk: bool)
    ensures ScheduleLeds(s, requestOk) == s.(channels := ScheduleLeds(s, requestOk).channels)
  {
  }

  lemma OnCanSendNowDoes(s: Bt, cid: uint16, sendOk: bool)
    ensures Does(s, OnCanSendNow(s, cid, sendOk), NextKeys(s, CanSendNow(cid, sendOk)),
                 Commands(s, CanSendNow(cid, sendOk)))
  {
    hide DisconnectAfterError, Emit, Sends;
    var boot := s.(channels := s.channels.(bootRequestPending := false));
    EmitDoes(boot, SendBootProtocol(cid));
    EmitKeeps(boot, SendBootProtocol(cid));
    var sent := Emit(boot, SendBootProtocol(cid));
    DisconnectAfterErrorDoes(sent);
    ThenDoes(s, sent, DisconnectAfterError(sent), Released(s), [SendBootProtocol(cid)], GivesUp(s));
    assert [SendBootProtocol(cid)] + [] == [SendBootProtocol(cid)];
  }

  lemma EmitKeeps(s: Bt, effect: Effect)
    ensures Emit(s, effect) == s.(log := Emit(s, effect).log)
  {
  }

  lemma OnChannelClosedDoes(s: Bt, cid: uint16)
    ensures Does(s, OnChannelClosed(s, cid), NextKeys(s, ChannelClosedEvent(cid)), Commands(s, ChannelClosedEvent(cid)))
  {
    hide Emit, Sends, ChannelClosed;
    var closed := s.(channels := ChannelClosed(s.channels, cid),
                     keys := if ClosesInterrupt(s.channels, cid) then AllReleased(s.keys) else s.keys);
    EmitDoes(closed, DisconnectLink(s.acl));
  }

  lemma OnDisconnectionCompleteDoes(s: Bt, handle: uint16)
    ensures Does(s, OnDisconnectionComplete(s, handle), Released(s), [])
  {
    hide Enter, Sends, BackToIdle, DeviceTable.Disconnected, Settled, ResetConnection;
    EnterDoes(s, State.Disconnected);
    EnterKeeps(s, State.Disconnected);
    BackToIdleDoes(Enter(s, State.Disconnected).(
      table := DeviceTable.Disconnected(s.table), keys := AllReleased(s.keys), channels := ResetConnection(s.channels),
      acl := INVALID_HANDLE, stack := Settled(s, handle)));
  }

  lemma OnSdpCompleteDoes(s: Bt, ok: bool, create: Create)
    ensures var failed := Fails(s, SdpComplete(ok, create));
            Does(s, OnSdpComplete(s, ok, create), if failed then Released(s) else s.keys,
                 if failed then GivesUp(s) else [])
  {
    hide DisconnectAfterError, Sends, OpenControlChannel, Discovered, IndexOf;
    var answered := s.(stack := s.stack.(sdpPending := false));
    DisconnectAfterErrorDoes(answered);
    var d := ConnectedDevice(s);
    if d.Some? {
      assert ConnectedDevice(answered) == d;
      var found := MarkDiscovered(answered, d.value);
      DiscoveredRecord(answered, d.value);
      OpenControlChannelDoes(found, create);
    }
  }

  lemma DiscoveredRecord(s: Bt, i: nat)
    requires ConnectedDevice(s) == Some(i)
    ensures var found := MarkDiscovered(s, i);
            && Record(found).Some? && Record(found).value.hidControlPsm != 0
            && found == s.(table := found.table)
  {
    var found := MarkDiscovered(s, i);
    IndexIs(found.table, s.connectedAddress, i);
    hide IndexOf;
  }

  lemma OnHidDataDoes(s: Bt, channel: uint16, packet: seq<byte>, create: Create)
    ensures var event := HidData(channel, packet, create);
            Does(s, OnHidData(s, channel, packet, create), NextKeys(s, event), Commands(s, event))
  {
    hide DisconnectAfterError, Sends, OpenInterruptChannel, ConnectedDevice, BootReport, Typed;
    DisconnectAfterErrorDoes(s);
    OpenInterruptChannelDoes(s, create);
    TypedIsCarried(packet, NO_KEY);
  }

  lemma OnRecord(s: Bt, address: Address)
    ensures KnownKeyboard(s, address) <==> IsOnRecord(s, address)
  {
    if IsOnRecord(s, address) {
      var i :| 0 <= i < |s.table| && s.table[i].address == address && s.table[i].hidSupported
               && forall j | 0 <= j < i :: s.table[j].address != address;
      IndexIs(s.table, address, i);
    }
    hide IndexOf;
  }

  /** The chosen keyboard goes on record if none is there, and is dialled. */
  lemma RememberedDoes(s: Bt, target: Address, dial: Dial)
    requires s.state == Idle || s.state == Inquiry
    requires s.selectedValid ==> target == s.selectedAddress
    ensures Does(s, BeginConnection(Remembered(s, target), target, dial), s.keys, Dials(s, Some(target)))
  {
    hide BeginConnection, Emit, Sends;
    var chosen := s.(selectedAddress := target, selectedValid := true);
    EmitDoes(chosen, StoreSelection(target));
    EmitKeeps(chosen, StoreSelection(target));
    BeginConnectionDoes(Remembered(s, target), target, dial);
    if !s.selectedValid {
      ThenDoes(s, Emit(chosen, StoreSelection(target)), BeginConnection(Remembered(s, target), target, dial), s.keys,
               [StoreSelection(target)], [CreateConnection(target)]);
    }
  }

  lemma OnWorkingDoes(s: Bt, dial: Dial)
    ensures Does(s, OnWorking(s, dial), s.keys, Commands(s, Working(dial)))
  {
    hide BeginConnection, Enter, Sends;
    EnterDoes(s, Idle);
    EnterKeeps(s, Idle);
    EnterReaches(s, Idle);
    BeginConnectionDoes(Enter(s, Idle), s.selectedAddress, dial);
  }

  lemma EnterReaches(s: Bt, state: State)
    ensures Enter(s, state).state == state
  {
  }

  lemma OnInquiryCompleteDoes(s: Bt, dial: Dial)
    ensures Does(s, OnInquiryComplete(s, dial), s.keys, Commands(s, InquiryComplete(dial)))
  {
    hide BeginConnection, BackToIdle, Remembered, Sends, ConnectionTarget, IsOnRecord, KnownKeyboard;
    OnRecord(s, s.selectedAddress);
    IsKnown(s, s.selectedAddress);
    BackToIdleDoes(s);
    if s.state == Inquiry && InquiryTarget(s).Some? {
      hide IndexOf;
      RememberedDoes(s, InquiryTarget(s).value, dial);
    }
  }

  lemma IsKnown(s: Bt, address: Address)
    ensures KnownKeyboard(s, address)
       <==> IndexOf(s.table, address).Some? && s.table[IndexOf(s.table, address).value].hidSupported
  {
    hide IndexOf;
  }

  lemma OnRetryTimerDoes(s: Bt, dial: Dial)
    ensures Does(s, OnRetryTimer(s, dial), s.keys, Commands(s, RetryTimer(dial)))
  {
    hide BeginConnection, Sends;
    var fired := s.(timerArmed := false);
    if s.state == Idle { BeginConnectionDoes(fired, s.selectedAddress, dial); }
  }

  lemma StartInquiryDoes(s: Bt)
    ensures Does(s, StartInquiry(s), s.keys, if s.state == Idle then [Inquire] else [])
  {
    hide Enter, Emit, Sends;
    var stopped := s.(timerArmed := false);
    EnterDoes(stopped, Inquiry);
    EnterKeeps(stopped, Inquiry);
    EmitDoes(Enter(stopped, Inquiry), Inquire);
    assert [] + [Inquire] == [Inquire];
  }

  lemma OnConnectDoes(s: Bt, target: Address, dial: Dial)
    ensures Does(s, OnConnect(s, target, dial), s.keys, Commands(s, Connect(target, dial)))
  {
    hide BeginConnection, Sends, KnownKeyboard, IsOnRecord, Emit;
    OnRecord(s, target);
    var chosen := s.(selectedAddress := target, selectedValid := true, autoConnect := true);
    EmitDoes(chosen, StoreSelection(target));
    EmitKeeps(chosen, StoreSelection(target));
    if s.state == Idle {
      BeginConnectionDoes(Selected(s, target), target, dial);
      ThenDoes(s, Selected(s, target), BeginConnection(Selected(s, target), target, dial), s.keys,
               [StoreSelection(target)], [CreateConnection(target)]);
      assert [StoreSelection(target)] + [CreateConnection(target)]
          == [StoreSelection(target), CreateConnection(target)];
    }
  }

  lemma StopsDoes(s: Bt)
    ensures Does(s, if s.acl != INVALID_HANDLE then Emit(s, DisconnectLink(s.acl)) else CancelPending(s),
                 s.keys, Stops(s))
  {
    EmitDoes(s, DisconnectLink(s.acl));
    EmitDoes(s.(cancelRequested := true), CancelConnection(s.connectingAddress));
    hide Emit, Sends;
  }

  lemma OnForgetDoes(s: Bt)
    ensures Does(s, OnForget(s), s.keys, Commands(s, Forget))
  {
    hide Emit, Sends, Unbonded, CancelPending;
    var erased := s.(autoConnect := false, selectedValid := false);
    EmitDoes(erased, EraseSelection);
    EmitKeeps(erased, EraseSelection);
    var twice := Emit(Emit(erased, EraseSelection), EraseLinkKeys);
    EmitDoes(Emit(erased, EraseSelection), EraseLinkKeys);
    EmitKeeps(Emit(erased, EraseSelection), EraseLinkKeys);
    ThenDoes(s, Emit(erased, EraseSelection), twice, s.keys, [EraseSelection], [EraseLinkKeys]);
    assert [EraseSelection] + [EraseLinkKeys] == [EraseSelection, EraseLinkKeys];
    StopsDoes(Forgotten(s));
    ThenDoes(s, Forgotten(s), OnForget(s), s.keys, [EraseSelection, EraseLinkKeys], Stops(s));
  }

  lemma OnReconnectDoes(s: Bt, dial: Dial)
    ensures Does(s, OnReconnect(s, dial), s.keys, Commands(s, Reconnect(dial)))
  {
    hide BeginConnection, StartInquiry, Remembered, Sends, ConnectionTarget;
    var resumed := s.(autoConnect := true);
    StartInquiryDoes(resumed);
    if s.state == Idle {
      if s.selectedValid { RememberedDoes(resumed, s.selectedAddress, dial); }
      else if ConnectionTarget(s.table).Some? { RememberedDoes(resumed, ConnectionTarget(s.table).value, dial); }
    }
  }

  lemma OnScanDoes(s: Bt)
    ensures Does(s, OnScan(s), s.keys, Commands(s, Scan))
  {
    hide StartInquiry, Sends;
    StartInquiryDoes(s.(autoConnect := false, table := []));
  }

  lemma OnDisconnectDoes(s: Bt)
    ensures Does(s, OnDisconnect(s), s.keys, Commands(s, Disconnect))
  {
    hide Emit, CancelPending, Sends;
    StopsDoes(s.(autoConnect := false));
  }

  /** Events that leave the queue alone. */
  predicate KeepsKeys(event: Event) {
    IsRequest(event) || event.Working? || event.InquiryResult? || event.InquiryComplete? || event.ConnectionComplete?
    || event.BondChanged? || event.SdpByte? || event.RetryTimer? || event.HostLeds? || event.LedPoll?
  }

  /** Answers that may report a failure, and otherwise leave the queue alone and bring about no command. */
  predicate IsAnswer(event: Event) {
    event.ChannelOpened? || event.SecurityLevel? || event.EncryptionChange? || event.AuthenticationComplete?
    || event.SdpComplete?
  }

  /** Exactly the event's commands go out, and the queue becomes what the event makes of it. */
  ghost predicate DoesEvent(s: Bt, t: Bt, event: Event) {
    Does(s, t, NextKeys(s, event), Commands(s, event))
  }

  lemma NextKeysOf(s: Bt, event: Event)
    ensures KeepsKeys(event) ==> NextKeys(s, event) == s.keys && !Fails(s, event)
    ensures Fails(s, event) ==> NextKeys(s, event) == Released(s)
    ensures IsAnswer(event) && !Fails(s, event) ==> NextKeys(s, event) == s.keys
    ensures event.DisconnectionComplete? ==> NextKeys(s, event) == Released(s)
  {
    hide Typed;
  }

  /** An event that keeps the queue, or an answer, from what is known about it. */
  lemma KeepingDoes(s: Bt, t: Bt, event: Event)
    requires KeepsKeys(event) && Does(s, t, s.keys, Commands(s, event))
    ensures DoesEvent(s, t, event)
  {
    NextKeysOf(s, event);
  }

  lemma AnswerDoes(s: Bt, t: Bt, event: Event)
    requires IsAnswer(event)
    requires Does(s, t, if Fails(s, event) then Released(s) else s.keys, if Fails(s, event) then GivesUp(s) else [])
    ensures DoesEvent(s, t, event)
  {
    NextKeysOf(s, event);
    OnlyFailuresSend(s, event);
  }

  lemma KindsOf(event: Event)
    ensures KeepsKeys(event) <==>
            IsRequest(event) || event.Working? || event.InquiryResult? || event.InquiryComplete?
            || event.ConnectionComplete? || event.BondChanged? || event.SdpByte? || event.RetryTimer?
            || event.HostLeds? || event.LedPoll?
    ensures IsRequest(event) <==>
            event.Scan? || event.Connect? || event.Disconnect? || event.Reconnect? || event.Forget?
    ensures IsAnswer(event) <==>
            event.ChannelOpened? || event.SecurityLevel? || event.EncryptionChange? || event.AuthenticationComplete?
            || event.SdpComplete?
    ensures IsPeripheral(event) <==>
            event.HostLeds? || event.LedPoll? || event.UsbTask? || event.RetryTimer? || event.SdpByte?
            || event.SdpComplete?
  {
  }

  lemma EventDone(s: Bt, t: Bt, event: Event)
    ensures Does(s, t, NextKeys(s, event), Commands(s, event)) ==> DoesEvent(s, t, event)
  {
    hide Does, NextKeys, Commands;
  }

  lemma RequestDoes(s: Bt, event: Event)
    requires IsRequest(event)
    ensures DoesEvent(s, Step(s, event), event)
  {
    RequestSteps(s, event);
    KindsOf(event);
    hide *;
    if event.Scan? { OnScanDoes(s); }
    else if event.Connect? { OnConnectDoes(s, event.connectTarget, event.connectDial); }
    else if event.Disconnect? { OnDisconnectDoes(s); }
    else if event.Reconnect? { OnReconnectDoes(s, event.reconnectDial); }
    else { OnForgetDoes(s); }
    KeepingDoes(s, Step(s, event), event);
  }

  /** Events that bring about no command by themselves. */
  lemma OnlyFailuresSend(s: Bt, event: Event)
    ensures IsAnswer(event) || event.HidData? ==> Commands(s, event) == if Fails(s, event) then GivesUp(s) else []
    ensures (event.InquiryResult? || event.BondChanged? || event.SdpByte? || event.HostLeds? || event.LedPoll?
             || event.UsbTask? || event.DisconnectionComplete?) ==> Commands(s, event) == []
  {
  }

  lemma UsbTaskDoes(s: Bt, ready: bool, takes: bool)
    ensures DoesEvent(s, OnUsbTask(s, ready && takes), UsbTask(ready, takes))
  {
    hide Sends;
  }

  lemma QuietDoes(s: Bt, event: Event)
    requires event.HostLeds? || event.LedPoll? || event.SdpByte?
    ensures Does(s, Step(s, event), s.keys, [])
  {
    PeripheralSteps(s, event);
    hide Step, SdpParser.Fed, Sends, ConnectedDevice;
  }

  lemma QuietDoesEvent(s: Bt, event: Event)
    requires event.HostLeds? || event.LedPoll? || event.SdpByte?
    ensures DoesEvent(s, Step(s, event), event)
  {
    QuietDoes(s, event);
    OnlyFailuresSend(s, event);
    KindsOf(event);
    hide *;
    KeepingDoes(s, Step(s, event), event);
  }

  lemma PeripheralDoes(s: Bt, event: Event)
    requires IsPeripheral(event)
    ensures DoesEvent(s, Step(s, event), event)
  {
    PeripheralSteps(s, event);
    KindsOf(event);
    hide *;
    if event.UsbTask? {
      UsbTaskDoes(s, event.hostReady, event.hostTakes);
    } else if event.SdpComplete? {
      OnSdpCompleteDoes(s, event.sdpOk, event.controlCreate);
      AnswerDoes(s, Step(s, event), event);
    } else if event.RetryTimer? {
      OnRetryTimerDoes(s, event.retryDial);
      KeepingDoes(s, Step(s, event), event);
    } else {
      QuietDoesEvent(s, event);
    }
  }

  lemma TableDoes(s: Bt, event: Event)
    requires event.InquiryResult? || event.BondChanged?
    ensures Does(s, Step(s, event), s.keys, [])
  {
    hide Sends, SetBonded, Upserted, IndexOf;
  }

  lemma FailedAuthenticationDoes(s: Bt, handle: uint16, ok: bool)
    ensures var failed := Fails(s, AuthenticationComplete(handle, ok));
            Does(s, OnAuthenticationComplete(s, handle, ok), if failed then Released(s) else s.keys,
                 if failed then GivesUp(s) else [])
  {
    hide DisconnectAfterError, Sends;
    DisconnectAfterErrorDoes(s);
  }

  lemma SecurityDoes(s: Bt, event: Event)
    requires event.SecurityLevel? || event.EncryptionChange?
    ensures DoesEvent(s, Step(s, event), event)
  {
    StackSteps(s, event);
    match event {
      case SecurityLevel(handle, ok, reached, queryOk) =>
        SecurityFails(s, event, handle, ok && reached, queryOk);
        OnSecuredDoes(s, handle, ok && reached, queryOk);
      case EncryptionChange(handle, ok, enabled, queryOk) =>
        SecurityFails(s, event, handle, ok && enabled, queryOk);
        OnSecuredDoes(s, handle, ok && enabled, queryOk);
    }
    hide *;
    AnswerDoes(s, Step(s, event), event);
  }

  lemma LinkDoes(s: Bt, event: Event)
    requires !IsRequest(event) && !IsPeripheral(event)
    requires !IsAnswer(event) && !event.InquiryResult? && !event.BondChanged?
    ensures DoesEvent(s, Step(s, event), event)
  {
    StackSteps(s, event);
    OnlyFailuresSend(s, event);
    NextKeysOf(s, event);
    KindsOf(event);
    EventDone(s, Step(s, event), event);
    hide *;
    match event
    case Working(dial) => OnWorkingDoes(s, dial);
    case InquiryComplete(dial) => OnInquiryCompleteDoes(s, dial);
    case ConnectionComplete(ok, handle, address) => OnConnectionCompleteDoes(s, ok, handle, address);
    case CanSendNow(cid, sendOk) => OnCanSendNowDoes(s, cid, sendOk);
    case ChannelClosedEvent(cid) => OnChannelClosedDoes(s, cid);
    case DisconnectionComplete(handle) => OnDisconnectionCompleteDoes(s, handle);
    case HidData(channel, packet, create) => OnHidDataDoes(s, channel, packet, create);
  }

  lemma TableDoesEvent(s: Bt, event: Event)
    requires event.InquiryResult? || event.BondChanged?
    ensures DoesEvent(s, Step(s, event), event)
  {
    TableDoes(s, event);
    OnlyFailuresSend(s, event);
    KindsOf(event);
    hide *;
    KeepingDoes(s, Step(s, event), event);
  }

  lemma StackDoes(s: Bt, event: Event)
    requires !IsRequest(event) && !IsPeripheral(event)
    ensures DoesEvent(s, Step(s, event), event)
  {
    StackSteps(s, event);
    KindsOf(event);
    hide *;
    if event.ChannelOpened? {
      OnChannelOpenedDoes(s, event.openOk, event.openPsm, event.openCid, event.requestOk);
      AnswerDoes(s, Step(s, event), event);
    } else if event.AuthenticationComplete? {
      FailedAuthenticationDoes(s, event.authenticationHandle, event.authenticationOk);
      AnswerDoes(s, Step(s, event), event);
    } else if event.SecurityLevel? || event.EncryptionChange? {
      SecurityDoes(s, event);
    } else if event.InquiryResult? || event.BondChanged? {
      TableDoesEvent(s, event);
    } else {
      LinkDoes(s, event);
    }
  }

  lemma SecurityFails(s: Bt, event: Event, handle: uint16, ok: bool, queryOk: bool)
    requires || (event.SecurityLevel? && handle == event.securityHandle && queryOk == event.securityQueryOk
                 && ok == (event.securityOk && event.levelReached))
             || (event.EncryptionChange? && handle == event.encryptionHandle && queryOk == event.encryptionQueryOk
                 && ok == (event.encryptionOk && event.enabled))
    ensures Fails(s, event) <==> handle == s.acl && s.state == Authenticating && !(ok && queryOk)
  {
  }

  /** In every state and for every event: the queue becomes this, and exactly these commands go out. */
  lemma StepDoes(s: Bt, event: Event)
    ensures Step(s, event).keys == NextKeys(s, event)
    ensures Sends(Step(s, event).log) == Sends(s.log) + Commands(s, event)
  {
    hide Step, NextKeys, Commands, Sends;
    if IsRequest(event) { RequestDoes(s, event); }
    else if IsPeripheral(event) { PeripheralDoes(s, event); }
    else { StackDoes(s, event); }
  }
}
