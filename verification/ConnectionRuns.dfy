/** What whole runs of the connection manager guarantee under the stack contract. */
module ConnectionRuns {
  import opened Basics
  import opened BtState
  import opened Connection
  import opened ConnectionLink
  import opened ConnectionSafety
  import opened ConnectionState
  import opened ConnectionSteps
  import opened DeviceTable

  /**
   The global invariant, spelled out: the handle is valid exactly while there is
   a link, a retry is only due when idle, the table is well-formed, and the
   device of an attempt or of a link that is not being cancelled can be found.
   */
  lemma GlobalInvariant(selected: Option<Address>, events: seq<Event>)
    requires Keeps(Contract, Start(selected), events)
    ensures var s := Run(Start(selected), events);
            && (s.acl != INVALID_HANDLE <==> HasLink(s.state))
            && (s.timerArmed ==> s.state == Idle)
            && (s.state == Connecting ==> s.connectingValid && IndexOf(s.table, s.connectingAddress).Some?)
            && |s.table| <= MAX_DEVICES
            && (forall i, j | 0 <= i < j < |s.table| :: s.table[i].address != s.table[j].address)
            && (HasLink(s.state) && s.state != Connected ==> ConnectedDevice(s).Some?)
  {
    hide Run, Keeps;
    InvHolds(selected, events);
    var s := Run(Start(selected), events);
    HoldsIsIndexOf(s.table, s.connectingAddress);
    HoldsIsIndexOf(s.table, s.connectedAddress);
  }

  // ------------------------------------------------------------------------
  // Transitions

  /** The interrupt channel of some link in the run opened under the control channel's number. */
  ghost predicate Ambiguous(s: Bt, events: seq<Event>) {
    exists n :: 0 <= n < |events| && AmbiguousOpen(Run(s, events[..n]), events[n])
  }

  lemma AmbiguousSnoc(s: Bt, events: seq<Event>)
    requires events != []
    ensures Ambiguous(s, events)
       <==> Ambiguous(s, events[..|events| - 1])
            || AmbiguousOpen(Run(s, events[..|events| - 1]), events[|events| - 1])
  {
    hide Run, AmbiguousOpen;
    var before := events[..|events| - 1];
    assert forall n | 0 <= n < |before| :: before[..n] == events[..n] && before[n] == events[n];
    assert events[..|before|] == before;
  }

  lemma ExpectedInTwo(log: seq<Effect>, more: seq<Effect>)
    requires log <= more
    ensures Expected([], more) <==> Expected([], log) && Expected(log, more)
  {
    assert forall i | 0 <= i < |log| :: more[i] == log[i];
  }

  /**
   Every transition of a run is an expected one, exactly when no interrupt
   channel was opened under the number of its control channel.
   */
  lemma {:induction false} TransitionsAreExpected(selected: Option<Address>, events: seq<Event>)
    requires Keeps(Contract, Start(selected), events)
    ensures Expected([], Run(Start(selected), events).log) <==> !Ambiguous(Start(selected), events)
    decreases |events|
  {
    if events == [] {
      assert Start(selected).log == [];
    } else {
      hide Step, Inv, Contract, AmbiguousOpen, Expected, Ambiguous;
      var before, last := events[..|events| - 1], events[|events| - 1];
      var s := Run(Start(selected), before);
      KeepsPrefix(Contract, Start(selected), events);
      InvHolds(selected, before);
      TransitionsAreExpected(selected, before);
      StepFine(s, last);
      StepExtendsLog(s, last);
      ExpectedInTwo(s.log, Step(s, last).log);
      AmbiguousSnoc(Start(selected), events);
    }
  }

  lemma KeepsSnoc(contract: (Bt, Event) -> bool, s: Bt, events: seq<Event>, event: Event)
    requires Keeps(contract, s, events) && contract(Run(s, events), event)
    ensures Keeps(contract, s, events + [event])
    ensures Run(s, events + [event]) == Step(Run(s, events), event)
  {
    hide Step;
    var longer := events + [event];
    assert longer[..|events|] == events;
    assert forall n | 0 <= n < |events| :: longer[..n] == events[..n] && longer[n] == events[n];
  }

  // ------------------------------------------------------------------------
  // What a connected keyboard has been through

  datatype Moment = Moment(before: Bt, event: Event)

  datatype Milestone = LinkSecured | ServiceFound | ControlOpen | BootAccepted | InterruptOpen

  predicate Reaches(m: Moment, milestone: Milestone) {
    match milestone
    case LinkSecured =>
      || (m.event.SecurityLevel? && m.event.securityHandle == m.before.acl && m.event.securityOk
          && m.event.levelReached)
      || (m.event.EncryptionChange? && m.event.encryptionHandle == m.before.acl && m.event.encryptionOk
          && m.event.enabled)
    case ServiceFound => m.event.SdpComplete? && m.event.sdpOk
    case ControlOpen =>
      m.event.ChannelOpened? && m.event.openOk && m.event.openPsm == Psms(m.before.table, m.before.connectedAddress).0
    case BootAccepted =>
      m.event.HidData? && m.event.dataChannel == m.before.channels.controlCid && HandshakeOk(m.event.packet)
    case InterruptOpen =>
      m.event.ChannelOpened? && m.event.openOk && m.event.openPsm == Psms(m.before.table, m.before.connectedAddress).1
  }

  predicate IsLinkUp(s: Bt, event: Event) {
    event.ConnectionComplete? && event.connectOk && s.state == Connecting
  }

  /** The events since the last ACL link came up, each with the state it met. */
  function LinkHistory(selected: Option<Address>, events: seq<Event>): seq<Moment> {
    if events == [] then []
    else
      var s := Run(Start(selected), events[..|events| - 1]);
      var event := events[|events| - 1];
      if IsLinkUp(s, event) then []
      else LinkHistory(selected, events[..|events| - 1]) + [Moment(s, event)]
  }

  /** The history contains the milestones, in this order. */
  predicate SawInOrder(history: seq<Moment>, milestones: seq<Milestone>) {
    if milestones == [] then true
    else if history == [] then false
    else
      var h, m := |history| - 1, |milestones| - 1;
      || SawInOrder(history[..h], milestones)
      || (Reaches(history[h], milestones[m]) && SawInOrder(history[..h], milestones[..m]))
  }

  const ALL_MILESTONES := [LinkSecured, ServiceFound, ControlOpen, BootAccepted, InterruptOpen]

  function Required(state: State): seq<Milestone> {
    match state
    case ServiceDiscovery => [LinkSecured]
    case OpeningControl => [LinkSecured, ServiceFound]
    case SettingBootProtocol => [LinkSecured, ServiceFound, ControlOpen]
    case OpeningInterrupt => [LinkSecured, ServiceFound, ControlOpen, BootAccepted]
    case HidConnected => ALL_MILESTONES
    case _ => []
  }

  /** A link that is not being cancelled. */
  predicate Live(state: State) {
    HasLink(state) && state != Connected
  }

  /** How an event can leave a live link behind. */
  ghost predicate Advances(s: Bt, event: Event, state: State) {
    Live(state) ==>
      || (IsLinkUp(s, event) && state == Authenticating)
      || (&& Live(s.state)
          && !event.DisconnectionComplete?
          && !IsLinkUp(s, event)
          && (|| state == s.state
              || (s.state == OpeningInterrupt && state == SettingBootProtocol)
              || exists m :: Reaches(Moment(s, event), m) && Required(state) == Required(s.state) + [m]))
  }

  /** The five steps forward. */
  lemma Forward(s: Bt, event: Event)
    ensures Required(ServiceDiscovery) == Required(Authenticating) + [LinkSecured]
    ensures Required(OpeningControl) == Required(ServiceDiscovery) + [ServiceFound]
    ensures Required(SettingBootProtocol) == Required(OpeningControl) + [ControlOpen]
    ensures Required(OpeningInterrupt) == Required(SettingBootProtocol) + [BootAccepted]
    ensures Required(HidConnected) == Required(OpeningInterrupt) + [InterruptOpen]
  {
  }

  lemma NotLiveAdvances(s: Bt, event: Event, state: State)
    requires !Live(state)
    ensures Advances(s, event, state)
  {
  }

  lemma SameAdvances(s: Bt, event: Event)
    requires !event.DisconnectionComplete? && !IsLinkUp(s, event)
    ensures Advances(s, event, s.state)
  {
  }

  /** One milestone further, or back from the interrupt channel to the boot protocol. */
  lemma FurtherAdvances(s: Bt, event: Event, state: State, m: Milestone)
    requires Live(s.state) && !event.DisconnectionComplete? && !IsLinkUp(s, event)
    requires (Reaches(Moment(s, event), m) && Required(state) == Required(s.state) + [m])
          || (s.state == OpeningInterrupt && state == SettingBootProtocol)
    ensures Advances(s, event, state)
  {
    hide Required, Reaches;
  }

  lemma SecuredAdvances(s: Bt, event: Event)
    requires event.SecurityLevel? || event.EncryptionChange? || event.AuthenticationComplete?
    ensures Advances(s, event, NextState(s, event))
  {
    var state := NextState(s, event);
    Forward(s, event);
    SameAdvances(s, event);
    NotLiveAdvances(s, event, Idle);
    assert state in {s.state, Idle} || (state == ServiceDiscovery && s.state == Authenticating);
    if state == ServiceDiscovery && s.state == Authenticating {
      assert Reaches(Moment(s, event), LinkSecured);
      hide Required, Reaches, Advances, NextState;
      FurtherAdvances(s, event, state, LinkSecured);
    }
  }

  lemma SdpAdvances(s: Bt, event: Event)
    requires event.SdpComplete? && (event.sdpOk ==> s.state == ServiceDiscovery)
    ensures Advances(s, event, NextState(s, event))
  {
    var state := NextState(s, event);
    Forward(s, event);
    SameAdvances(s, event);
    NotLiveAdvances(s, event, Idle);
    hide Record;
    if state == OpeningControl && event.sdpOk {
      hide Required, Reaches, Advances, NextState;
      FurtherAdvances(s, event, state, ServiceFound);
    }
  }

  lemma HidDataAdvances(s: Bt, event: Event)
    requires event.HidData?
    ensures Advances(s, event, NextState(s, event))
  {
    var state := NextState(s, event);
    Forward(s, event);
    SameAdvances(s, event);
    NotLiveAdvances(s, event, Idle);
    hide Record;
    if state == OpeningInterrupt && s.state == SettingBootProtocol {
      assert Reaches(Moment(s, event), BootAccepted);
      hide Required, Reaches, Advances, NextState;
      FurtherAdvances(s, event, state, BootAccepted);
    }
  }

  lemma RecordNumbers(s: Bt)
    requires Record(s).Some?
    ensures Psms(s.table, s.connectedAddress) == (Record(s).value.hidControlPsm, Record(s).value.hidInterruptPsm)
  {
    hide IndexOf;
  }

  lemma ChannelOpenedAdvances(s: Bt, event: Event)
    requires event.ChannelOpened? && Inv(s) && (event.openOk ==> event.openPsm in s.stack.opening)
    ensures Advances(s, event, NextState(s, event))
  {
    var state := NextState(s, event);
    Forward(s, event);
    SameAdvances(s, event);
    NotLiveAdvances(s, event, Idle);
    if event.openOk { AnsweredOpen(s, event.openPsm); }
    if Record(s).Some? { RecordNumbers(s); }
    hide Record, Inv, Psms;
    if state == SettingBootProtocol && state != s.state {
      hide Required, Advances, NextState;
      FurtherAdvances(s, event, state, ControlOpen);
    } else if state == HidConnected && state != s.state {
      hide Required, Advances, NextState;
      FurtherAdvances(s, event, state, InterruptOpen);
    }
  }

  /** Events after which the link is not up, or where it was. */
  lemma OthersAdvance(s: Bt, event: Event)
    requires !event.SecurityLevel? && !event.EncryptionChange? && !event.AuthenticationComplete?
    requires !event.SdpComplete? && !event.HidData? && !event.ChannelOpened?
    ensures Advances(s, event, NextState(s, event))
  {
    hide IsOnRecord, ConnectionTarget, Fails, Required;
    assert Live(Authenticating) && !Live(Connected) && !Live(Idle) && !Live(Inquiry) && !Live(Connecting);
  }

  lemma StepAdvances(s: Bt, event: Event)
    requires Inv(s) && Contract(s, event)
    ensures Advances(s, event, Step(s, event).state)
  {
    StepGoes(s, event);
    if event.SdpComplete? && event.sdpOk { PendingState(s); }
    hide Step, Advances, Inv, NextState;
    if event.SecurityLevel? || event.EncryptionChange? || event.AuthenticationComplete? { SecuredAdvances(s, event); }
    else if event.SdpComplete? { SdpAdvances(s, event); }
    else if event.HidData? { HidDataAdvances(s, event); }
    else if event.ChannelOpened? { ChannelOpenedAdvances(s, event); }
    else { OthersAdvance(s, event); }
  }

  lemma PendingState(s: Bt)
    requires Inv(s) && s.stack.sdpPending
    ensures s.state == ServiceDiscovery
  {
  }

  lemma {:induction false} SawFewer(history: seq<Moment>, milestones: seq<Milestone>, last: Milestone)
    requires SawInOrder(history, milestones + [last])
    ensures SawInOrder(history, milestones)
    decreases |history|
  {
    hide Reaches;
    var h := |history| - 1;
    assert (milestones + [last])[..|milestones|] == milestones;
    if SawInOrder(history[..h], milestones + [last]) { SawFewer(history[..h], milestones, last); }
  }

  lemma SawMore(history: seq<Moment>, m: Moment, milestones: seq<Milestone>, next: Milestone)
    requires SawInOrder(history, milestones)
    ensures SawInOrder(history + [m], milestones)
    ensures Reaches(m, next) ==> SawInOrder(history + [m], milestones + [next])
  {
    hide Reaches;
    var longer := history + [m];
    assert longer[..|history|] == history;
    assert (milestones + [next])[..|milestones|] == milestones;
  }

  /**
   A live link has seen, in order and without a disconnection in between, every
   step that its state stands for. A connected keyboard has seen all five.
   */
  lemma {:induction false} LinkSawEveryStep(selected: Option<Address>, events: seq<Event>)
    requires Keeps(Contract, Start(selected), events)
    ensures var s, history := Run(Start(selected), events), LinkHistory(selected, events);
            Live(s.state) ==>
              && SawInOrder(history, Required(s.state))
              && forall i | 0 <= i < |history| :: !history[i].event.DisconnectionComplete?
    decreases |events|
  {
    hide Step, Inv, Contract, Keeps, SawInOrder, Required;
    if events == [] {
      assert !Live(Start(selected).state);
    } else {
      var before, last := events[..|events| - 1], events[|events| - 1];
      var s := Run(Start(selected), before);
      KeepsPrefix(Contract, Start(selected), events);
      InvHolds(selected, before);
      LinkSawEveryStep(selected, before);
      if Live(Step(s, last).state) { OneStepSeen(s, last, LinkHistory(selected, before)); }
    }
  }

  lemma OneStepSeen(s: Bt, event: Event, history: seq<Moment>)
    requires Inv(s) && Contract(s, event) && Live(Step(s, event).state)
    requires Live(s.state) ==> SawInOrder(history, Required(s.state))
    ensures IsLinkUp(s, event) ==> SawInOrder([], Required(Step(s, event).state))
    ensures !IsLinkUp(s, event) ==> SawInOrder(history + [Moment(s, event)], Required(Step(s, event).state))
    ensures !IsLinkUp(s, event) ==> Live(s.state) && !event.DisconnectionComplete?
  {
    hide Step, Inv, Contract, Reaches, SawInOrder, Required;
    StepAdvances(s, event);
    if IsLinkUp(s, event) {
      LinkUpRequiresNothing();
      SawNothing([]);
    } else {
      OneMomentSeen(history, Moment(s, event), s.state, Step(s, event).state);
    }
  }

  lemma LinkUpRequiresNothing()
    ensures Required(Authenticating) == []
  {
  }

  lemma OneMomentSeen(history: seq<Moment>, moment: Moment, before: State, after: State)
    requires SawInOrder(history, Required(before))
    requires || after == before
             || (before == OpeningInterrupt && after == SettingBootProtocol)
             || exists m :: Reaches(moment, m) && Required(after) == Required(before) + [m]
    ensures SawInOrder(history + [moment], Required(after))
  {
    hide Reaches, SawInOrder;
    SawMore(history, moment, Required(before), LinkSecured);
    if before == OpeningInterrupt && after == SettingBootProtocol {
      assert Required(before) == Required(after) + [BootAccepted];
      SawFewer(history + [moment], Required(after), BootAccepted);
    } else if after != before {
      hide Required;
      var m :| Reaches(moment, m) && Required(after) == Required(before) + [m];
      SawMore(history, moment, Required(before), m);
    }
  }

  lemma SawNothing(history: seq<Moment>)
    ensures SawInOrder(history, [])
  {
  }

  /** The final state of the chain, on its own. */
  lemma ConnectedSawAll(selected: Option<Address>, events: seq<Event>)
    requires Keeps(Contract, Start(selected), events)
    requires Run(Start(selected), events).state == HidConnected
    ensures SawInOrder(LinkHistory(selected, events), ALL_MILESTONES)
  {
    hide Run, SawInOrder, Keeps;
    LinkSawEveryStep(selected, events);
  }
}
