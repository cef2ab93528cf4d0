/** The connection manager as module state that handlers update in place. */
module Bluetooth {
  import opened Basics
  import opened BtState
  import opened Connection
  import opened DeviceTable
  import opened HidChannels
  import opened ReportQueue
  import SdpParser

  function WithInterrupt(s: Bt, cid: uint16): Bt {
    s.(channels := s.channels.(interruptCid := cid))
  }

  function WithControl(s: Bt, cid: uint16): Bt {
    s.(channels := s.channels.(controlCid := cid))
  }

  /** The stack owes an answer about a channel. */
  function Awaiting(s: Bt, psm: uint16): Bt {
    s.(stack := s.stack.(opening := s.stack.opening + {psm}))
  }

  class App {
    var currentState: State
    var aclHandle: uint16
    var connectingDeviceAddr: Address
    var connectingDeviceValid: bool
    var connectionCancelRequested: bool
    var connectedDeviceAddr: Address
    var inquiryTimerArmed: bool
    var selectedDeviceAddr: Address
    var selectedDeviceValid: bool
    var autoConnectEnabled: bool
    const deviceManager: DeviceManager
    const hidChannels: ChannelState
    const sdpParser: SdpParser.SdpParser
    const keyboard: Queue
    ghost var ledSent: Option<byte>
    ghost var stack: Stack
    ghost var log: seq<Effect>

    ghost const Repr: set<object> :=
      {this, deviceManager, deviceManager.devices, hidChannels, keyboard, keyboard.reports, sdpParser,
       sdpParser.buffer} + sdpParser.Workspace

    ghost predicate Valid()
      reads deviceManager, deviceManager.devices, keyboard, keyboard.reports, sdpParser, sdpParser.buffer
    {
      && deviceManager.Valid()
      && keyboard.Valid()
      && sdpParser.Valid()
      && {this, deviceManager, deviceManager.devices, hidChannels, keyboard, keyboard.reports, sdpParser,
          sdpParser.buffer} !! sdpParser.Workspace
    }

    ghost function View(): Bt
      reads this, deviceManager, sdpParser, hidChannels, keyboard
    {
      Bt(currentState, aclHandle, connectingDeviceAddr, connectingDeviceValid, connectionCancelRequested,
         connectedDeviceAddr, inquiryTimerArmed, selectedDeviceAddr, selectedDeviceValid, autoConnectEnabled,
         deviceManager.table, sdpParser.bytes, sdpParser.completedAttributeCount, hidChannels.View(), ledSent,
         keyboard.keys, stack, log)
    }

    /** Power-on, with the selected keyboard that the persistent store remembers, if any. */
    constructor (selected: Option<Address>)
      ensures Valid() && fresh(Repr)
      ensures View() == Start(selected)
    {
      var manager := new DeviceManager();
      var channels := new ChannelState();
      var parser := new SdpParser.SdpParser();
      var queue := new Queue();
      deviceManager, hidChannels, sdpParser, keyboard := manager, channels, parser, queue;
      currentState, aclHandle := Initializing, INVALID_HANDLE;
      connectingDeviceAddr, connectedDeviceAddr := ZERO_ADDRESS, ZERO_ADDRESS;
      connectingDeviceValid, connectionCancelRequested, inquiryTimerArmed := false, false, false;
      selectedDeviceAddr := if selected.Some? then selected.value else ZERO_ADDRESS;
      selectedDeviceValid, autoConnectEnabled := selected.Some?, true;
      ledSent, stack, log := None, NOTHING_PENDING, [];
    }

    method TransitionToState(newState: State)
      requires Valid()
      modifies `currentState, `log
      ensures Valid() && View() == Enter(old(View()), newState)
    {
      if currentState != newState {
        log := log + [Transition(currentState, newState)];
        currentState := newState;
      }
    }

    method StopIdleTimer()
      requires Valid()
      modifies `inquiryTimerArmed
      ensures Valid() && View() == old(View()).(timerArmed := false)
    {
      if inquiryTimerArmed { inquiryTimerArmed := false; }
    }

    method StartInquiry()
      requires Valid()
      modifies `currentState, `log, `inquiryTimerArmed
      ensures Valid() && View() == Connection.StartInquiry(old(View()))
    {
      if currentState != Idle { return; }
      StopIdleTimer();
      TransitionToState(Inquiry);
      Send(Inquire);
    }

    method StartIdleTimer()
      requires Valid()
      modifies `inquiryTimerArmed
      ensures Valid() && View() == Connection.StartIdleTimer(old(View()))
    {
      if !autoConnectEnabled || !selectedDeviceValid { return; }
      if inquiryTimerArmed { return; }
      inquiryTimerArmed := true;
    }

    method BackToIdle()
      requires Valid()
      modifies `currentState, `log, `inquiryTimerArmed
      ensures Valid() && View() == Connection.BackToIdle(old(View()))
    {
      TransitionToState(Idle);
      StartIdleTimer();
    }

    /** A record for the selected keyboard, even if the discovery list must go. */
    method RestoreSelectedDevice(address: Address, bonded: bool)
      requires Valid() && IndexOf(deviceManager.table, address).None?
      modifies deviceManager, deviceManager.devices
      ensures Valid()
      ensures deviceManager.table == RestoreSelected(old(deviceManager.table), address, bonded)
    {
      hide IndexOf, Upserted, App.View;
      var saved, created := deviceManager.Upsert(Restoration(address));
      if saved.None? {
        FullTable(old(deviceManager.table), address);
        deviceManager.Init();
        saved, created := deviceManager.Upsert(Restoration(address));
      }
      MarkBonded(address, bonded);
    }

    method MarkBonded(address: Address, bonded: bool)
      requires Valid()
      modifies deviceManager, deviceManager.devices
      ensures Valid()
      ensures deviceManager.table == SetBonded(old(deviceManager.table), address, bonded)
    {
      hide App.View;
      var i := deviceManager.Find(address);
      if i.Some? {
        deviceManager.Put(i.value, deviceManager.devices[i.value].(bonded := bonded));
      }
    }

    method RestoreIfSelected(address: Address, bonded: bool)
      requires Valid()
      modifies deviceManager, deviceManager.devices
      ensures Valid() && View() == WithSelected(old(View()), address, bonded)
    {
      hide IndexOf, RestoreSelected;
      if selectedDeviceValid && address == selectedDeviceAddr {
        var known := deviceManager.Find(address);
        if known.None? { RestoreSelectedDevice(address, bonded); }
      }
    }

    method SetTarget(address: Address)
      requires Valid()
      modifies `connectingDeviceAddr, `connectingDeviceValid, `connectionCancelRequested
      ensures Valid()
      ensures View() == old(View()).(connectingAddress := address, connectingValid := true, cancelRequested := false)
    {
      hide App.Valid, ChannelState.View;
      connectingDeviceAddr := address;
      connectingDeviceValid := true;
      connectionCancelRequested := false;
    }

    /** A command to the stack. */
    method Send(effect: Effect)
      requires Valid()
      modifies `log
      ensures Valid() && View() == Emit(old(View()), effect)
    {
      hide App.Valid, ChannelState.View;
      log := log + [effect];
    }

    method SendCreateConnection(address: Address)
      requires Valid()
      modifies `currentState, `log, `connectingDeviceAddr, `connectingDeviceValid, `connectionCancelRequested
      ensures Valid() && View() == Dialing(old(View()), address)
    {
      hide App.Valid, App.View, Enter, Emit;
      SetTarget(address);
      TransitionToState(Connecting);
      Send(CreateConnection(address));
    }

    method BeginConnection(address: Address, dial: Dial) returns (begun: bool)
      requires Valid()
      modifies `currentState, `log, `inquiryTimerArmed, `connectingDeviceAddr, `connectingDeviceValid,
               `connectionCancelRequested, deviceManager, deviceManager.devices
      ensures Valid() && View() == Connection.BeginConnection(old(View()), address, dial)
      ensures begun <==> old(currentState) in {Idle, Inquiry} && dial.accepted
    {
      hide App.Valid, WithSelected, Dialing, Connection.BackToIdle, ChannelState.View;
      if currentState != Idle && currentState != Inquiry { return false; }
      StopIdleTimer();
      RestoreIfSelected(address, dial.bonded);
      SendCreateConnection(address);
      begun := dial.accepted;
      if !begun { AbandonConnection(); }
    }

    method AbandonConnection()
      requires Valid()
      modifies `currentState, `log, `inquiryTimerArmed, `connectingDeviceValid
      ensures Valid() && View() == Connection.BackToIdle(old(View()).(connectingValid := false))
    {
      hide App.Valid, Connection.BackToIdle, ChannelState.View;
      connectingDeviceValid := false;
      BackToIdle();
    }

    method CancelPendingConnection()
      requires Valid()
      modifies `connectionCancelRequested, `log
      ensures Valid() && View() == CancelPending(old(View()))
    {
      if currentState != Connecting || !connectingDeviceValid { return; }
      connectionCancelRequested := true;
      log := log + [CancelConnection(connectingDeviceAddr)];
    }

    method GetConnectedDevice() returns (index: Option<nat>)
      requires Valid()
      ensures index == ConnectedDevice(View())
    {
      index := deviceManager.Find(connectedDeviceAddr);
    }

    method ReadConnectedDevice() returns (device: Option<Device>)
      requires Valid()
      ensures device.Some? <==> ConnectedDevice(View()).Some?
      ensures device.Some? ==> device.value == View().table[ConnectedDevice(View()).value]
    {
      hide ChannelState.View;
      var index := GetConnectedDevice();
      device := if index.Some? then Some(deviceManager.devices[index.value]) else None;
    }

    method ScheduleKeyboardLedReport(requestOk: bool)
      requires Valid()
      modifies hidChannels
      ensures Valid() && View() == ScheduleLeds(old(View()), requestOk)
    {
      if !hidChannels.ledReportPending || hidChannels.ledCanSendRequested || !hidChannels.controlOpen
         || currentState != HidConnected {
        return;
      }
      if requestOk { hidChannels.ledCanSendRequested := true; }
    }

    method DisconnectAclAfterError()
      requires Valid()
      modifies `currentState, `log, `inquiryTimerArmed, hidChannels, keyboard, keyboard.reports
      ensures Valid() && View() == DisconnectAfterError(old(View()))
    {
      hide Queue.Valid, Connection.BackToIdle;
      keyboard.Release();
      if aclHandle != INVALID_HANDLE {
        log := log + [DisconnectLink(aclHandle)];
      } else {
        hidChannels.Reset();
        BackToIdle();
      }
    }

    method SetInterruptChannel(cid: uint16)
      requires Valid()
      modifies hidChannels
      ensures Valid() && View() == WithInterrupt(old(View()), cid)
    {
      hide App.Valid;
      hidChannels.interruptCid := cid;
    }

    method SetControlChannel(cid: uint16)
      requires Valid()
      modifies hidChannels
      ensures Valid() && View() == WithControl(old(View()), cid)
    {
      hide App.Valid;
      hidChannels.controlCid := cid;
    }

    /** The stack has taken the command to open a channel. */
    method Await(psm: uint16)
      requires Valid()
      modifies `stack
      ensures Valid() && View() == Awaiting(old(View()), psm)
    {
      hide App.Valid, ChannelState.View;
      stack := stack.(opening := stack.opening + {psm});
    }

    method OpenInterruptChannel(create: Create)
      requires Valid()
      modifies `currentState, `log, `inquiryTimerArmed, `stack, hidChannels, keyboard, keyboard.reports
      ensures Valid() && View() == Connection.OpenInterruptChannel(old(View()), create)
    {
      hide *;
      OpenInterruptSteps(View(), create);
      var dev := ReadConnectedDevice();
      if dev.None? || dev.value.hidInterruptPsm == 0 {
        DisconnectAclAfterError();
        return;
      }
      TransitionToState(OpeningInterrupt);
      SetInterruptChannel(create.cid);
      if create.accepted {
        Await(dev.value.hidInterruptPsm);
      } else {
        DisconnectAclAfterError();
      }
    }

    method OpenControlChannel(create: Create)
      requires Valid()
      modifies `currentState, `log, `inquiryTimerArmed, `stack, hidChannels, keyboard, keyboard.reports
      ensures Valid() && View() == Connection.OpenControlChannel(old(View()), create)
    {
      hide *;
      OpenControlSteps(View(), create);
      var dev := ReadConnectedDevice();
      if dev.None? || dev.value.hidControlPsm == 0 {
        DisconnectAclAfterError();
        return;
      }
      TransitionToState(OpeningControl);
      SetControlChannel(create.cid);
      if create.accepted {
        Await(dev.value.hidControlPsm);
      } else {
        DisconnectAclAfterError();
      }
    }

    method ClearServices()
      requires Valid()
      modifies deviceManager.devices, deviceManager`table, sdpParser`completedAttributeCount
      ensures Valid() && View() == ForgetServices(old(View()))
    {
      hide ConnectedDevice;
      var device := GetConnectedDevice();
      if device.Some? {
        var i := device.value;
        deviceManager.Put(i, deviceManager.devices[i].(
          hidControlPsm := 0, hidInterruptPsm := 0, hidServiceFound := false, sdpCompleted := false,
          report := NO_REPORT));
      }
      sdpParser.Reset();
    }

    method StartSdpDiscovery(queryOk: bool)
      requires Valid()
      modifies `currentState, `log, `inquiryTimerArmed, `stack, hidChannels, keyboard, keyboard.reports,
               deviceManager.devices, deviceManager`table, sdpParser`completedAttributeCount
      ensures Valid() && View() == Connection.StartSdpDiscovery(old(View()), queryOk)
    {
      hide DisconnectAfterError, ForgetServices, App.Valid, Enter, ChannelState.View;
      if currentState != Authenticating { return; }
      ClearServices();
      TransitionToState(ServiceDiscovery);
      assert View() == Enter(ForgetServices(old(View())), ServiceDiscovery);
      if queryOk {
        stack := stack.(sdpPending := true);
      } else {
        DisconnectAclAfterError();
      }
    }

    // ----------------------------------------------------------------------
    // Stack events

    method HandleWorking(dial: Dial)
      requires Valid()
      modifies Repr
      ensures Valid() && View() == OnWorking(old(View()), dial)
    {
      hide App.Valid, Enter, Connection.BeginConnection, ChannelState.View;
      TransitionToState(Idle);
      EnterKeeps(old(View()), Idle);
      if autoConnectEnabled && selectedDeviceValid {
        var _ := BeginConnection(selectedDeviceAddr, dial);
      }
    }

    method HandleInquiryResult(sighting: Sighting, bonded: bool)
      requires Valid()
      modifies Repr
      ensures Valid() && View() == OnInquiryResult(old(View()), sighting, bonded)
    {
      hide IndexOf, Upserted, Connection.SetBonded, ChannelState.View;
      var device, created := deviceManager.Upsert(sighting);
      if device.Some? && deviceManager.devices[device.value].hidSupported {
        MarkBonded(sighting.address, bonded);
      }
    }

    method InquiryCandidate() returns (target: Option<Address>)
      requires Valid()
      ensures target == InquiryTarget(View())
    {
      hide ChannelState.View, ConnectionTarget;
      target := None;
      if autoConnectEnabled && selectedDeviceValid {
        var selected := deviceManager.Find(selectedDeviceAddr);
        if selected.Some? && deviceManager.devices[selected.value].hidSupported {
          target := Some(selectedDeviceAddr);
        }
      }
      if autoConnectEnabled && !selectedDeviceValid && target.None? {
        target := deviceManager.GetConnectionTarget();
      }
    }

    method HandleInquiryComplete(dial: Dial)
      requires Valid()
      modifies Repr
      ensures Valid() && View() == OnInquiryComplete(old(View()), dial)
    {
      assert this in Repr && deviceManager in Repr && deviceManager.devices in Repr;
      hide *;
      InquirySteps(View(), dial);
      ViewFields();
      if currentState != Inquiry { return; }
      var target := InquiryCandidate();
      if target.Some? {
        Remember(target.value);
        var _ := BeginConnection(target.value, dial);
      } else {
        BackToIdle();
      }
    }

    method AdoptLink(handle: uint16)
      requires Valid()
      modifies `aclHandle, `ledSent
      ensures Valid() && View() == LinkUp(old(View()), handle)
    {
      aclHandle := handle;
      ledSent := None;
    }

    method HandleCancelledComplete(ok: bool, handle: uint16)
      requires Valid()
      modifies Repr
      ensures Valid() && View() == CancelledComplete(old(View()), ok, handle)
    {
      hide App.Valid, ChannelState.View, Enter, LinkUp, Connection.BackToIdle;
      connectionCancelRequested := false;
      assert View() == old(View()).(cancelRequested := false);
      if ok {
        AdoptLink(handle);
        TransitionToState(Connected);
        log := log + [DisconnectLink(handle)];
      } else {
        BackToIdle();
      }
    }

    method MarkConnected(address: Address)
      requires Valid()
      modifies `connectedDeviceAddr, deviceManager.devices, deviceManager`table
      ensures Valid() && View() == Connection.MarkConnected(old(View()), address)
    {
      hide IndexOf, ChannelState.View;
      var dev := deviceManager.Find(address);
      if dev.Some? {
        deviceManager.Put(dev.value, deviceManager.devices[dev.value].(connected := true));
      }
      connectedDeviceAddr := address;
    }

    method ResetHidChannels()
      requires Valid()
      modifies hidChannels
      ensures Valid() && View() == old(View()).(channels := ResetConnection(old(View()).channels))
    {
      hide App.Valid, ChannelState.View, ResetConnection;
      hidChannels.Reset();
    }

    method HandleLinkEstablished(handle: uint16, address: Address)
      requires Valid()
      modifies Repr
      ensures Valid() && View() == LinkEstablished(old(View()), handle, address)
    {
      hide App.Valid, App.View, Enter, LinkUp, Connection.MarkConnected, Emit;
      AdoptLink(handle);
      ResetHidChannels();
      TransitionToState(Connected);
      MarkConnected(address);
      TransitionToState(Authenticating);
      Send(RequestSecurity(handle));
    }

    method HandleConnectionComplete(ok: bool, handle: uint16, address: Address)
      requires Valid()
      modifies Repr
      ensures Valid() && View() == OnConnectionComplete(old(View()), ok, handle, address)
    {
      hide App.Valid, ChannelState.View, CancelledComplete, LinkEstablished, Connection.BackToIdle;
      if currentState != Connecting {
        if ok { log := log + [DisconnectLink(handle)]; }
        return;
      }
      connectingDeviceValid := false;
      if connectionCancelRequested {
        HandleCancelledComplete(ok, handle);
      } else if ok {
        HandleLinkEstablished(handle, address);
      } else {
        BackToIdle();
      }
    }

    method HandleControlOpened(cid: uint16, requestOk: bool)
      requires Valid()
      modifies Repr
      ensures Valid() && View() == ControlChannelOpened(old(View()), cid, requestOk)
    {
      hide App.Valid, ChannelState.View, Enter, DisconnectAfterError, ControlOpened;
      hidChannels.OpenControl(cid);
      assert View() == old(View()).(channels := ControlOpened(old(View()).channels, cid));
      TransitionToState(SettingBootProtocol);
      if !requestOk { DisconnectAclAfterError(); }
    }

    method HandleInterruptOpened(cid: uint16, requestOk: bool)
      requires Valid()
      modifies Repr
      ensures Valid() && View() == InterruptChannelOpened(old(View()), cid, requestOk)
    {
      hide App.Valid, ChannelState.View, Enter, ScheduleLeds, InterruptOpened;
      hidChannels.OpenInterrupt(cid);
      assert View() == old(View()).(channels := InterruptOpened(old(View()).channels, cid));
      TransitionToState(HidConnected);
      hidChannels.RequestLedSync();
      ScheduleKeyboardLedReport(requestOk);
    }

    method HandleChannelOpened(ok: bool, psm: uint16, cid: uint16, requestOk: bool)
      requires Valid()
      modifies Repr
      ensures Valid() && View() == OnChannelOpened(old(View()), ok, psm, cid, requestOk)
    {
      hide ChannelState.View, ConnectedDevice, DisconnectAfterError, ControlChannelOpened, InterruptChannelOpened;
      stack := stack.(opening := stack.opening - {psm});
      SameDevice(old(View()), View());
      if !ok {
        DisconnectAclAfterError();
        return;
      }
      var dev := GetConnectedDevice();
      if dev.None? {
        DisconnectAclAfterError();
        return;
      }
      var device := deviceManager.devices[dev.value];
      if psm == device.hidControlPsm {
        HandleControlOpened(cid, requestOk);
      } else if psm == device.hidInterruptPsm {
        HandleInterruptOpened(cid, requestOk);
      }
    }

    method HandleCanSendNow(cid: uint16, sendOk: bool)
      requires Valid()
      modifies Repr
      ensures Valid() && View() == OnCanSendNow(old(View()), cid, sendOk)
    {
      hide App.Valid, DisconnectAfterError, BootProtocolSent, LedAnswered;
      if cid == hidChannels.controlCid && hidChannels.bootRequestPending {
        RequestBootProtocol(cid);
        if !sendOk { DisconnectAclAfterError(); }
      } else if cid == hidChannels.controlCid && hidChannels.ledCanSendRequested {
        SendLedReport(sendOk);
      }
    }

    method RequestBootProtocol(cid: uint16)
      requires Valid()
      modifies hidChannels, `log
      ensures Valid() && View() == BootProtocolSent(old(View()), cid)
    {
      hide App.Valid;
      hidChannels.bootRequestPending := false;
      log := log + [SendBootProtocol(cid)];
    }

    method SendLedReport(sendOk: bool)
      requires Valid()
      modifies hidChannels, `ledSent
      ensures Valid() && View() == LedAnswered(old(View()), sendOk)
    {
      hide App.Valid;
      hidChannels.ledCanSendRequested := false;
      if sendOk {
        ledSent := Some(Masked(hidChannels.ledState));
        hidChannels.ledReportPending := false;
      }
    }

    method HandleChannelClosed(cid: uint16)
      requires Valid()
      modifies Repr
      ensures Valid() && View() == OnChannelClosed(old(View()), cid)
    {
      hide ChannelState.View, ChannelClosed, AllReleased;
      var control, interrupt := hidChannels.Close(cid);
      if interrupt { keyboard.Release(); }
      if (control || interrupt) && currentState != State.Disconnected && aclHandle != INVALID_HANDLE {
        log := log + [DisconnectLink(aclHandle)];
      }
    }

    method HandleSecured(handle: uint16, ok: bool, queryOk: bool)
      requires Valid()
      modifies Repr
      ensures Valid() && View() == OnSecured(old(View()), handle, ok, queryOk)
    {
      hide App.Valid, ChannelState.View, DisconnectAfterError, Connection.StartSdpDiscovery;
      if handle != aclHandle || currentState != Authenticating { return; }
      if ok {
        StartSdpDiscovery(queryOk);
      } else {
        DisconnectAclAfterError();
      }
    }

    method HandleAuthenticationComplete(handle: uint16, ok: bool)
      requires Valid()
      modifies Repr
      ensures Valid() && View() == OnAuthenticationComplete(old(View()), handle, ok)
    {
      hide App.Valid, ChannelState.View, DisconnectAfterError;
      if handle == aclHandle && currentState == Authenticating && !ok { DisconnectAclAfterError(); }
    }

    /** The handle decides only what the stack still owes; the module does not look at it. */
    method HandleDisconnectionComplete(ghost handle: uint16)
      requires Valid()
      modifies Repr
      ensures Valid() && View() == OnDisconnectionComplete(old(View()), handle)
    {
      hide ChannelState.View, Enter, Connection.BackToIdle, ResetConnection, DeviceTable.Disconnected, AllReleased;
      TransitionToState(State.Disconnected);
      EnterKeeps(old(View()), State.Disconnected);
      deviceManager.ClearConnections();
      keyboard.Release();
      hidChannels.Reset();
      stack := Settled(old(View()), handle);
      aclHandle := INVALID_HANDLE;
      BackToIdle();
    }

    method HandleBondChanged(address: Address, bonded: bool)
      requires Valid()
      modifies Repr
      ensures Valid() && View() == OnBondChanged(old(View()), address, bonded)
    {
      hide ChannelState.View;
      MarkBonded(address, bonded);
    }

    method HandleSdpByte(id: uint16, length: uint16, offset: uint16, data: byte)
      requires Valid()
      modifies Repr
      ensures Valid() && View() == OnSdpByte(old(View()), id, length, offset, data)
    {
      hide ChannelState.View, ConnectedDevice, SdpParser.Fed;
      var slot := GetConnectedDevice();
      ghost var before := sdpParser.View(deviceManager, slot);
      sdpParser.Feed(deviceManager, slot, id, length, offset, data);
    }

    method HandleSdpComplete(ok: bool, create: Create)
      requires Valid()
      modifies Repr
      ensures Valid() && View() == OnSdpComplete(old(View()), ok, create)
    {
      hide ChannelState.View, ConnectedDevice, DisconnectAfterError, Connection.OpenControlChannel,
           Connection.MarkDiscovered;
      stack := stack.(sdpPending := false);
      SameDevice(old(View()), View());
      if !ok {
        DisconnectAclAfterError();
        return;
      }
      var dev := GetConnectedDevice();
      if dev.None? {
        DisconnectAclAfterError();
        return;
      }
      MarkDiscovered(dev.value);
      OpenControlChannel(create);
    }

    /** A keyboard that reports no channel numbers gets the assigned ones. */
    method MarkDiscovered(i: nat)
      requires Valid() && i < |deviceManager.table|
      modifies deviceManager.devices, deviceManager`table
      ensures Valid() && View() == Connection.MarkDiscovered(old(View()), i)
    {
      hide ChannelState.View;
      var device := deviceManager.devices[i].(sdpCompleted := true);
      if device.hidControlPsm == 0 || device.hidInterruptPsm == 0 {
        device := device.(hidControlPsm := STANDARD_CONTROL_PSM, hidInterruptPsm := STANDARD_INTERRUPT_PSM);
      }
      device := device.(hidServiceFound := true);
      deviceManager.Put(i, device);
    }

    method HandleHidData(channel: uint16, packet: seq<byte>, create: Create)
      requires Valid()
      modifies Repr
      ensures Valid() && View() == OnHidData(old(View()), channel, packet, create)
    {
      hide DisconnectAfterError, Connection.OpenInterruptChannel, BootReport, Sent;
      if channel == hidChannels.controlCid {
        if |packet| < 1 { return; }
        var messageType, status := packet[0] / 16, packet[0] % 16;
        if currentState == SettingBootProtocol && messageType == 0 {
          if status == 0 {
            OpenInterruptChannel(create);
          } else {
            DisconnectAclAfterError();
          }
        }
        return;
      }
      if channel != hidChannels.interruptCid || !hidChannels.interruptOpen { return; }
      var report := BootReport(packet);
      if report.Some? { keyboard.Send(report.value); }
    }

    method HandleRetryTimer(dial: Dial)
      requires Valid()
      modifies Repr
      ensures Valid() && View() == OnRetryTimer(old(View()), dial)
    {
      hide App.Valid, ChannelState.View, Connection.BeginConnection;
      inquiryTimerArmed := false;
      if currentState == Idle && autoConnectEnabled && selectedDeviceValid {
        var _ := BeginConnection(selectedDeviceAddr, dial);
      }
    }

    // ----------------------------------------------------------------------
    // Control requests

    method ExecuteScan()
      requires Valid()
      modifies Repr
      ensures Valid() && View() == OnScan(old(View()))
    {
      hide ChannelState.View, Connection.StartInquiry;
      if currentState == Idle {
        autoConnectEnabled := false;
        deviceManager.Init();
        StartInquiry();
      }
    }

    method IsKeyboard(address: Address) returns (known: bool)
      requires Valid()
      ensures known <==> KnownKeyboard(View(), address)
    {
      hide IndexOf, ChannelState.View;
      var target := deviceManager.Find(address);
      known := target.Some? && deviceManager.devices[target.value].hidSupported;
    }

    lemma ViewFields()
      ensures View().state == currentState && View().acl == aclHandle && View().selectedValid == selectedDeviceValid
      ensures View().selectedAddress == selectedDeviceAddr && View().table == deviceManager.table
    {
    }

    method Select(address: Address)
      requires Valid()
      modifies `selectedDeviceAddr, `selectedDeviceValid, `autoConnectEnabled, `log
      ensures Valid() && View() == Selected(old(View()), address)
    {
      hide App.Valid, ChannelState.View;
      selectedDeviceAddr := address;
      selectedDeviceValid := true;
      autoConnectEnabled := true;
      log := log + [StoreSelection(address)];
    }

    method ExecuteConnect(address: Address, dial: Dial)
      requires Valid()
      modifies Repr
      ensures Valid() && View() == OnConnect(old(View()), address, dial)
    {
      assert this in Repr && deviceManager in Repr && deviceManager.devices in Repr;
      hide *;
      ConnectSteps(View(), address, dial);
      var known := IsKeyboard(address);
      if !known { return; }
      ViewFields();
      if currentState != Idle { return; }
      Select(address);
      var _ := BeginConnection(address, dial);
    }

    method ExecuteDisconnect()
      requires Valid()
      modifies Repr
      ensures Valid() && View() == OnDisconnect(old(View()))
    {
      hide App.Valid, ChannelState.View;
      autoConnectEnabled := false;
      if aclHandle != INVALID_HANDLE {
        log := log + [DisconnectLink(aclHandle)];
      } else if currentState == Connecting && connectingDeviceValid {
        CancelPendingConnection();
      }
    }

    method ReconnectTarget() returns (target: Option<Address>)
      requires Valid()
      ensures target == if selectedDeviceValid then Some(selectedDeviceAddr) else ConnectionTarget(View().table)
    {
      hide ConnectionTarget, ChannelState.View;
      if selectedDeviceValid {
        return Some(selectedDeviceAddr);
      }
      target := deviceManager.GetConnectionTarget();
    }

    method Resume()
      requires Valid()
      modifies `autoConnectEnabled
      ensures Valid() && View() == old(View()).(autoConnect := true)
    {
      hide App.Valid, ChannelState.View;
      autoConnectEnabled := true;
    }

    method Remember(address: Address)
      requires Valid()
      modifies `selectedDeviceAddr, `selectedDeviceValid, `log
      ensures Valid() && View() == Remembered(old(View()), address)
    {
      hide App.Valid, ChannelState.View;
      if !selectedDeviceValid {
        selectedDeviceAddr := address;
        selectedDeviceValid := true;
        log := log + [StoreSelection(address)];
      }
    }

    method ExecuteReconnect(dial: Dial)
      requires Valid()
      modifies Repr
      ensures Valid() && View() == OnReconnect(old(View()), dial)
    {
      assert this in Repr && deviceManager in Repr && deviceManager.devices in Repr;
      hide *;
      ReconnectSteps(View(), dial);
      Resume();
      ViewFields();
      if aclHandle != INVALID_HANDLE { return; }
      var target := ReconnectTarget();
      if currentState == Idle && target.Some? {
        Remember(target.value);
        var _ := BeginConnection(target.value, dial);
      } else if currentState == Idle {
        StartInquiry();
      }
    }

    method Erase()
      requires Valid()
      modifies `autoConnectEnabled, `selectedDeviceValid, `log, deviceManager, deviceManager.devices
      ensures Valid() && View() == Forgotten(old(View()))
    {
      hide ChannelState.View, Unbonded;
      autoConnectEnabled := false;
      selectedDeviceValid := false;
      log := log + [EraseSelection] + [EraseLinkKeys];
      deviceManager.ClearBonded();
    }

    method ExecuteForget()
      requires Valid()
      modifies Repr
      ensures Valid() && View() == OnForget(old(View()))
    {
      assert this in Repr && deviceManager in Repr && deviceManager.devices in Repr;
      hide App.Valid, App.View, Forgotten, CancelPending, Emit;
      Erase();
      ViewFields();
      ForgottenLink(old(View()));
      if aclHandle != INVALID_HANDLE {
        Send(DisconnectLink(aclHandle));
      } else {
        CancelPendingConnection();
      }
    }

    method SetKeyboardLeds(leds: byte)
      requires Valid()
      modifies Repr
      ensures Valid() && View() == OnHostLeds(old(View()), leds)
    {
      hide App.Valid, ChannelState.View, LedsSet;
      var _ := hidChannels.SetLeds(leds);
    }

    method UsbDrain(ready: bool, takes: bool)
      requires Valid()
      modifies Repr
      ensures Valid() && View() == OnUsbTask(old(View()), ready && takes)
    {
      hide ChannelState.View, Drained;
      keyboard.Drain(ready, takes);
    }

    method ExecuteControlRequest(event: Event)
      requires Valid() && IsRequest(event)
      modifies Repr
      ensures Valid() && View() == Step(old(View()), event)
    {
      hide App.Valid, App.View, Step;
      RequestSteps(old(View()), event);
      match event
      case Scan => ExecuteScan();
      case Connect(target, dial) => ExecuteConnect(target, dial);
      case Disconnect => ExecuteDisconnect();
      case Reconnect(dial) => ExecuteReconnect(dial);
      case Forget => ExecuteForget();
    }

    method HandlePeripheral(event: Event)
      requires Valid() && IsPeripheral(event)
      modifies Repr
      ensures Valid() && View() == Step(old(View()), event)
    {
      assert {this, hidChannels, keyboard, keyboard.reports} <= Repr;
      hide *;
      PeripheralSteps(old(View()), event);
      match event
      case SdpByte(id, length, offset, data) => HandleSdpByte(id, length, offset, data);
      case SdpComplete(ok, create) => HandleSdpComplete(ok, create);
      case RetryTimer(dial) => HandleRetryTimer(dial);
      case HostLeds(leds) => SetKeyboardLeds(leds);
      case LedPoll(requestOk) => ScheduleKeyboardLedReport(requestOk);
      case UsbTask(ready, takes) => UsbDrain(ready, takes);
    }

    method HandleHciEvent(event: Event)
      requires Valid() && !IsRequest(event) && !IsPeripheral(event)
      modifies Repr
      ensures Valid() && View() == Step(old(View()), event)
    {
      hide App.Valid, App.View, Step;
      StackSteps(old(View()), event);
      match event
      case Working(dial) => HandleWorking(dial);
      case InquiryResult(sighting, bonded) => HandleInquiryResult(sighting, bonded);
      case InquiryComplete(dial) => HandleInquiryComplete(dial);
      case ConnectionComplete(ok, handle, address) => HandleConnectionComplete(ok, handle, address);
      case ChannelOpened(ok, psm, cid, requestOk) => HandleChannelOpened(ok, psm, cid, requestOk);
      case CanSendNow(cid, sendOk) => HandleCanSendNow(cid, sendOk);
      case ChannelClosedEvent(cid) => HandleChannelClosed(cid);
      case SecurityLevel(handle, ok, reached, queryOk) => HandleSecured(handle, ok && reached, queryOk);
      case AuthenticationComplete(handle, ok) => HandleAuthenticationComplete(handle, ok);
      case EncryptionChange(handle, ok, enabled, queryOk) => HandleSecured(handle, ok && enabled, queryOk);
      case DisconnectionComplete(handle) => HandleDisconnectionComplete(handle);
      case BondChanged(address, bonded) => HandleBondChanged(address, bonded);
      case HidData(channel, packet, create) => HandleHidData(channel, packet, create);
    }

    /** The handlers together are the state machine whose runs are studied. */
    method Handle(event: Event)
      requires Valid()
      modifies Repr
      ensures Valid() && View() == Step(old(View()), event)
    {
      hide App.Valid, App.View, Step;
      if IsRequest(event) {
        ExecuteControlRequest(event);
      } else if IsPeripheral(event) {
        HandlePeripheral(event);
      } else {
        HandleHciEvent(event);
      }
    }

    /** Handling events one after the other is a run. */
    method HandleAll(events: seq<Event>)
      requires Valid()
      modifies Repr
      ensures Valid() && View() == Run(old(View()), events)
    {
      hide App.Valid, App.View, Step;
      for n := 0 to |events|
        invariant Valid() && View() == Run(old(View()), events[..n])
      {
        assert events[..n + 1][..n] == events[..n];
        Handle(events[n]);
      }
      assert events[..|events|] == events;
    }
  }

  lemma ConnectSteps(s: Bt, target: Address, dial: Dial)
    ensures OnConnect(s, target, dial)
         == if KnownKeyboard(s, target) && s.state == Idle
            then Connection.BeginConnection(Selected(s, target), target, dial)
            else s
  {
    hide KnownKeyboard, Connection.BeginConnection;
  }

  lemma InquirySteps(s: Bt, dial: Dial)
    ensures OnInquiryComplete(s, dial)
         == if s.state != Inquiry then s
            else if InquiryTarget(s).None? then Connection.BackToIdle(s)
            else Connection.BeginConnection(Remembered(s, InquiryTarget(s).value), InquiryTarget(s).value, dial)
  {
    hide ConnectionTarget, IndexOf, Connection.BackToIdle, Connection.BeginConnection;
  }

  lemma ReconnectSteps(s: Bt, dial: Dial)
    ensures var resumed := s.(autoConnect := true);
            var target := if s.selectedValid then Some(s.selectedAddress) else ConnectionTarget(s.table);
            && OnReconnect(s, dial)
               == if s.acl != INVALID_HANDLE || s.state != Idle then resumed
                  else if target.None? then Connection.StartInquiry(resumed)
                  else Connection.BeginConnection(Remembered(resumed, target.value), target.value, dial)
  {
    hide ConnectionTarget, Connection.StartInquiry, Connection.BeginConnection;
  }

  lemma OpenInterruptSteps(s: Bt, create: Create)
    ensures var d := ConnectedDevice(s);
            && Connection.OpenInterruptChannel(s, create)
               == if d.None? || s.table[d.value].hidInterruptPsm == 0 then DisconnectAfterError(s)
                  else var opening := WithInterrupt(Enter(s, OpeningInterrupt), create.cid);
                       if create.accepted then Awaiting(opening, s.table[d.value].hidInterruptPsm)
                       else DisconnectAfterError(opening)
  {
    hide DisconnectAfterError, ConnectedDevice;
  }

  lemma OpenControlSteps(s: Bt, create: Create)
    ensures var d := ConnectedDevice(s);
            && Connection.OpenControlChannel(s, create)
               == if d.None? || s.table[d.value].hidControlPsm == 0 then DisconnectAfterError(s)
                  else var opening := WithControl(Enter(s, OpeningControl), create.cid);
                       if create.accepted then Awaiting(opening, s.table[d.value].hidControlPsm)
                       else DisconnectAfterError(opening)
  {
    hide DisconnectAfterError, ConnectedDevice;
  }

  lemma ForgottenLink(s: Bt)
    ensures Forgotten(s).acl == s.acl
  {
  }

  lemma SameDevice(s: Bt, t: Bt)
    requires t.table == s.table && t.connectedAddress == s.connectedAddress
    ensures ConnectedDevice(t) == ConnectedDevice(s)
  {
  }

  lemma FullTable(table: seq<Device>, address: Address)
    requires IndexOf(table, address).None? && |table| == MAX_DEVICES
    ensures Upserted(table, Restoration(address)) == table
  {
  }
}
