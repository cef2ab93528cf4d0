/** What the module's own variables show after any run from power-on. */
module BluetoothRuns {
  import opened Basics
  import opened Bluetooth
  import opened BtState
  import opened Connection
  import opened ConnectionKeys
  import opened ConnectionPause
  import opened ConnectionRuns
  import opened ConnectionSafety
  import opened ConnectionWish
  import opened DeviceTable
  import opened ReportQueue

  /** Everything that is queued for the host, or was last taken by it, ends with all keys released. */
  ghost predicate KeysReleased(keyboard: Queue)
    requires keyboard.Valid()
    reads keyboard, keyboard.reports
  {
    if keyboard.count > 0 then keyboard.reports[Cell(keyboard.head, keyboard.count - 1)] == RELEASED
    else keyboard.keys.sent == RELEASED
  }

  lemma NewestIsReleased(keyboard: Queue)
    requires keyboard.Valid() && Newest(keyboard.keys) == RELEASED
    ensures KeysReleased(keyboard)
  {
  }

  /** The circular array holds, oldest first, what was typed and neither read by the host nor dropped. */
  ghost predicate Queued(keyboard: Queue, start: Bt, events: seq<Event>)
    requires keyboard.Valid()
    reads keyboard, keyboard.reports
  {
    var read, kept := |Reads(start, events)|, Kept(start, events);
    && read + keyboard.count == |kept|
    && forall i | 0 <= i < keyboard.count :: keyboard.reports[Cell(keyboard.head, i)] == kept[read + i]
  }

  lemma PendingIsQueued(keyboard: Queue, selected: Option<Address>, events: seq<Event>)
    requires keyboard.Valid() && keyboard.keys == Run(Start(selected), events).keys
    ensures Queued(keyboard, Start(selected), events)
  {
    hide Run, Start, Reads, Kept, Cell;
    HostReadsInOrder(Start(selected), events);
  }

  /** The connected keyboard was last sent the LEDs that the host asked for last. */
  ghost predicate LedsAgree(app: App, events: seq<Event>)
    reads app, app.hidChannels
  {
    app.currentState == HidConnected && !app.hidChannels.ledReportPending ==> app.ledSent == Some(LedsAsked(events))
  }

  /** An idle module that wants a keyboard has its retry timer running. */
  ghost predicate Trying(app: App)
    reads app
  {
    app.currentState == Idle && app.autoConnectEnabled && app.selectedDeviceValid ==> app.inquiryTimerArmed
  }

  /** An entry of the device array in use has the address. */
  ghost predicate Listed(manager: DeviceManager, address: Address)
    requires manager.Valid()
    reads manager, manager.devices
  {
    exists i :: 0 <= i < manager.count && manager.devices[i].address == address
  }

  /** The variables fit together. */
  ghost predicate Consistent(app: App)
    requires app.deviceManager.Valid()
    reads app, app.deviceManager, app.deviceManager.devices
  {
    && (app.aclHandle != INVALID_HANDLE <==> HasLink(app.currentState))
    && (app.inquiryTimerArmed ==> app.currentState == Idle)
    && (app.currentState == Connecting ==>
          app.connectingDeviceValid && Listed(app.deviceManager, app.connectingDeviceAddr))
    && (HasLink(app.currentState) && app.currentState != Connected ==>
          Listed(app.deviceManager, app.connectedDeviceAddr))
    && (forall i, j | 0 <= i < j < app.deviceManager.count ::
          app.deviceManager.devices[i].address != app.deviceManager.devices[j].address)
  }

  lemma HoldsIsListed(manager: DeviceManager, address: Address)
    requires manager.Valid() && IndexOf(manager.table, address).Some?
    ensures Listed(manager, address)
  {
    var i := IndexOf(manager.table, address).value;
    assert manager.devices[i].address == manager.table[i].address;
  }

  lemma InvariantIsConsistent(app: App, selected: Option<Address>, events: seq<Event>)
    requires app.Valid() && app.View() == Run(Start(selected), events) && Keeps(Contract, Start(selected), events)
    ensures Consistent(app)
  {
    GlobalInvariant(selected, events);
    hide Run, Keeps, IndexOf;
    var s, manager := app.View(), app.deviceManager;
    if s.state == Connecting { HoldsIsListed(manager, s.connectingAddress); }
    if HasLink(s.state) && s.state != Connected { HoldsIsListed(manager, s.connectedAddress); }
    assert forall i | 0 <= i < manager.count :: manager.devices[i] == manager.table[i];
  }

  method PowerOn(selected: Option<Address>, events: seq<Event>) returns (app: App)
    ensures app.Valid() && fresh(app.Repr) && app.View() == Run(Start(selected), events)
  {
    app := new App(selected);
    app.HandleAll(events);
  }

  /** After any events from power-on, on the variables themselves; each promise names what it assumes. */
  method Session(selected: Option<Address>, events: seq<Event>) returns (app: App)
    ensures app.Valid() && fresh(app.Repr)
    ensures LedsAgree(app, events) && Queued(app.keyboard, Start(selected), events)
    ensures Keeps(WorkingOnce, Start(selected), events) ==> Trying(app)
    ensures Keeps(WorkingOnce, Start(selected), events) && Keeps(OpensOnLink, Start(selected), events) ==>
              !app.hidChannels.interruptOpen ==> KeysReleased(app.keyboard)
    ensures Keeps(Contract, Start(selected), events) ==> Consistent(app)
  {
    app := PowerOn(selected, events);
    hide Run, Keeps, Consistent, KeysReleased, Newest, Queued, LedsAsked;
    LedAgreement(selected, events);
    PendingIsQueued(app.keyboard, selected, events);
    if Keeps(WorkingOnce, Start(selected), events) { NeverStopsTrying(selected, events); }
    if Keeps(WorkingOnce, Start(selected), events) && Keeps(OpensOnLink, Start(selected), events) {
      NoStuckKeys(selected, events);
      if !app.hidChannels.interruptOpen { NewestIsReleased(app.keyboard); }
    }
    if Keeps(Contract, Start(selected), events) { InvariantIsConsistent(app, selected, events); }
  }

  lemma StaysPaused(selected: Option<Address>, before: seq<Event>, pause: Event, after: seq<Event>)
    requires Keeps(WorkingOnce, Start(selected), before) && IsPause(pause)
    requires Keeps(WorkingOnce, Step(Run(Start(selected), before), pause), after)
    requires forall event <- after :: !IsResume(event)
    ensures Quiet(Run(Step(Run(Start(selected), before), pause), after))
  {
    hide Step, Quiet, Keeps, Run;
    LinkInvHolds(selected, before);
    PausingIsQuiet(Run(Start(selected), before), pause);
    QuietRun(Step(Run(Start(selected), before), pause), after);
  }

  /** Between a user's Disconnect or Forget and the next Connect or Reconnect the module sends no connection command. */
  method PausedSession(selected: Option<Address>, before: seq<Event>, pause: Event, after: seq<Event>)
    returns (app: App, ghost paused: seq<Effect>)
    requires Keeps(WorkingOnce, Start(selected), before) && IsPause(pause)
    requires Keeps(WorkingOnce, Step(Run(Start(selected), before), pause), after)
    requires forall event <- after :: !IsResume(event)
    ensures app.Valid() && fresh(app.Repr) && paused <= app.log
    ensures forall i | |paused| <= i < |app.log| ::
              !app.log[i].CreateConnection? && (app.log[i].Transition? ==> app.log[i].to != Authenticating)
    ensures !app.autoConnectEnabled && (app.currentState == Connecting ==> app.connectionCancelRequested)
  {
    hide Run, Keeps, Step;
    app := PowerOn(selected, before);
    paused := app.log;
    app.Handle(pause);
    app.HandleAll(after);
    PauseWins(selected, before, pause, after);
    StaysPaused(selected, before, pause, after);
  }
}
