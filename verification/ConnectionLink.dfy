/**
 The global invariant of the connection manager under the stack contract, and
 the transitions that runs perform.
 */
module ConnectionLink {
  import opened Basics
  import opened BtState
  import opened Connection
  import opened ConnectionSafety
  import opened DeviceTable
  import opened HidChannels
  import ReportQueue
  import HidReference
  import SdpParser
  import SdpReport
  import SdpSearch

  // ------------------------------------------------------------------------
  // Tables

  /** The control and interrupt channel numbers on record for an address. */
  function Psms(table: seq<Device>, address: Address): (uint16, uint16) {
    match IndexOf(table, address)
    case None => (0, 0)
    case Some(i) => (table[i].hidControlPsm, table[i].hidInterruptPsm)
  }

  /** Every known address stays known. */
  ghost predicate Kept(t: seq<Device>, u: seq<Device>) {
    && (ValidTable(t) ==> ValidTable(u))
    && forall a: Address :: Holds(t, a) ==> Holds(u, a)
  }

  lemma HoldsIsIndexOf(t: seq<Device>, a: Address)
    ensures Holds(t, a) <==> IndexOf(t, a).Some?
  {
  }

  lemma SameAddressesKept(t: seq<Device>, u: seq<Device>)
    requires |t| == |u| && forall i | 0 <= i < |t| :: u[i].address == t[i].address
    ensures Kept(t, u)
    ensures forall a: Address :: IndexOf(u, a) == IndexOf(t, a)
  {
    hide IndexOf;
    forall a: Address ensures IndexOf(u, a) == IndexOf(t, a) { SameIndex(t, u, a); }
    forall a: Address | Holds(t, a) ensures Holds(u, a) {
      var i :| 0 <= i < |t| && t[i].address == a;
      assert u[i].address == a;
    }
  }

  lemma SameIndex(t: seq<Device>, u: seq<Device>, a: Address)
    requires |t| == |u| && forall i | 0 <= i < |t| :: u[i].address == t[i].address
    ensures IndexOf(u, a) == IndexOf(t, a)
  {
    hide IndexOf;
    var i, j := IndexOf(t, a), IndexOf(u, a);
    if i.Some? { assert u[i.value].address == a; }
    if j.Some? { assert t[j.value].address == a; }
  }

  lemma SetBondedKept(t: seq<Device>, address: Address, bonded: bool)
    ensures Kept(t, SetBonded(t, address, bonded))
    ensures forall a: Address :: Psms(SetBonded(t, address, bonded), a) == Psms(t, a)
  {
    SameAddressesKept(t, SetBonded(t, address, bonded));
  }

  lemma UnbondedKept(t: seq<Device>)
    ensures Kept(t, Unbonded(t))
    ensures forall a: Address :: Psms(Unbonded(t), a) == Psms(t, a)
  {
    SameAddressesKept(t, Unbonded(t));
  }

  lemma DisconnectedKept(t: seq<Device>)
    ensures Kept(t, DeviceTable.Disconnected(t))
  {
    SameAddressesKept(t, DeviceTable.Disconnected(t));
  }

  lemma ReplacedKept(t: seq<Device>, i: nat, device: Device)
    requires i < |t| && device.address == t[i].address
    ensures Kept(t, t[i := device])
    ensures forall a: Address :: IndexOf(t[i := device], a) == IndexOf(t, a)
  {
    SameAddressesKept(t, t[i := device]);
  }

  lemma UpsertedKept(t: seq<Device>, s: Sighting)
    requires ValidTable(t)
    ensures Kept(t, Upserted(t, s))
    ensures forall a: Address | Holds(t, a) :: Psms(Upserted(t, s), a) == Psms(t, a)
  {
    var u := Upserted(t, s);
    UpsertKeepsTable(t, s);
    forall a: Address | Holds(t, a) ensures Psms(u, a) == Psms(t, a) {
      HoldsIsIndexOf(t, a);
      var i := IndexOf(t, a).value;
      assert u[i].address == a;
      if a == s.address { assert u == t[i := Sighted(t[i], s)]; }
    }
  }

  /** Making room for the selected keyboard always succeeds. */
  lemma RestoreHolds(t: seq<Device>, address: Address, bonded: bool)
    requires ValidTable(t)
    ensures ValidTable(RestoreSelected(t, address, bonded)) && Holds(RestoreSelected(t, address, bonded), address)
  {
    UpsertKeepsTable(t, Restoration(address));
    UpsertKeepsTable([], Restoration(address));
    var restored := if |t| >= MAX_DEVICES then Upserted([], Restoration(address))
                    else Upserted(t, Restoration(address));
    SetBondedKept(restored, address, bonded);
  }

  // ------------------------------------------------------------------------
  // The invariant

  ghost predicate TableInv(s: Bt) {
    && (HasLink(s.state) <==> s.acl != INVALID_HANDLE)
    && s.state != Ready
    && (s.timerArmed ==> s.state == Idle)
    && ValidTable(s.table)
    && (s.state == Connecting ==> Holds(s.table, s.connectingAddress))
    && (HasLink(s.state) && s.state != Connected ==> Holds(s.table, s.connectedAddress))
  }

  /** What the stack owes fits the state. */
  ghost predicate StackInv(s: Bt) {
    && (s.stack.sdpPending ==> s.state == ServiceDiscovery)
    && (s.stack.opening == {}
        || (s.state == OpeningControl && s.stack.opening == {Psms(s.table, s.connectedAddress).0})
        || (s.state == OpeningInterrupt && s.stack.opening == {Psms(s.table, s.connectedAddress).1}))
  }

  ghost predicate Inv(s: Bt) {
    LinkInv(s) && TableInv(s) && StackInv(s)
  }

  /** `after` extends `before` by effects whose transitions are all expected. */
  ghost predicate Expected(before: seq<Effect>, after: seq<Effect>) {
    && before <= after
    && forall i | |before| <= i < |after| && after[i].Transition? :: TransitionAllowed(after[i].from, after[i].to)
  }

  lemma NothingNew(log: seq<Effect>)
    ensures Expected(log, log)
  {
  }

  lemma OneMore(log: seq<Effect>, effect: Effect)
    requires effect.Transition? ==> TransitionAllowed(effect.from, effect.to)
    ensures Expected(log, log + [effect])
  {
  }

  lemma ExpectedThenExpected(a: seq<Effect>, b: seq<Effect>, c: seq<Effect>)
    requires Expected(a, b) && Expected(b, c)
    ensures Expected(a, c)
  {
  }

  ghost predicate Fine(s: Bt, t: Bt) {
    Inv(t) && Expected(s.log, t.log)
  }

  lemma EnterExpected(s: Bt, state: State)
    requires TransitionAllowed(s.state, state)
    ensures Expected(s.log, Enter(s, state).log)
  {
    hide Expected;
    NothingNew(s.log);
    OneMore(s.log, Transition(s.state, state));
  }

  /** Without a link nothing is owed. */
  lemma NoLinkNoDebt(s: Bt)
    requires Inv(s) && s.acl == INVALID_HANDLE
    ensures s.stack == NOTHING_PENDING
  {
  }

  lemma BackToIdleFine(s: Bt)
    requires ValidTable(s.table) && s.acl == INVALID_HANDLE && s.stack == NOTHING_PENDING
    requires s.timerArmed ==> s.state == Idle
    ensures Fine(s, BackToIdle(s))
  {
    hide ValidTable, Holds, Psms, Expected;
    EnterExpected(s, Idle);
  }

  lemma DisconnectAfterErrorFine(s: Bt)
    requires Inv(s)
    ensures Fine(s, DisconnectAfterError(s))
  {
    hide ValidTable, Holds, Psms, Expected, BackToIdle;
    if s.acl == INVALID_HANDLE {
      NoLinkNoDebt(s);
      BackToIdleFine(s.(keys := ReportQueue.AllReleased(s.keys), channels := ResetConnection(s.channels)));
    } else {
      OneMore(s.log, DisconnectLink(s.acl));
    }
  }

  /** The last steps of the handlers that fail after a first transition. */
  lemma FailsFine(s: Bt, mid: Bt)
    requires Fine(s, mid)
    ensures Fine(s, DisconnectAfterError(mid))
  {
    hide Inv, Expected;
    DisconnectAfterErrorFine(mid);
    ExpectedThenExpected(s.log, mid.log, DisconnectAfterError(mid).log);
  }

  lemma OpenControlChannelFine(s: Bt, create: Create)
    requires Inv(s) && s.state == ServiceDiscovery && !s.stack.sdpPending
    ensures Fine(s, OpenControlChannel(s, create))
  {
    hide ValidTable, Holds, Expected, DisconnectAfterError;
    NothingNew(s.log);
    FailsFine(s, s);
    EnterExpected(s, OpeningControl);
    var opening := Enter(s, OpeningControl).(channels := s.channels.(controlCid := create.cid));
    FailsFine(s, opening);
  }

  lemma OpenInterruptChannelFine(s: Bt, create: Create)
    requires Inv(s) && s.state == SettingBootProtocol
    ensures Fine(s, OpenInterruptChannel(s, create))
  {
    hide ValidTable, Holds, Expected, DisconnectAfterError;
    NothingNew(s.log);
    FailsFine(s, s);
    EnterExpected(s, OpeningInterrupt);
    var opening := Enter(s, OpeningInterrupt).(channels := s.channels.(interruptCid := create.cid));
    FailsFine(s, opening);
  }

  lemma StartSdpDiscoveryFine(s: Bt, queryOk: bool)
    requires Inv(s)
    ensures Fine(s, StartSdpDiscovery(s, queryOk))
  {
    hide ValidTable, Holds, Expected, DisconnectAfterError, Undiscovered, Psms;
    NothingNew(s.log);
    if s.state == Authenticating {
      var d := ConnectedDevice(s);
      var table := if d.Some? then s.table[d.value := Undiscovered(s.table[d.value])] else s.table;
      UndiscoveredKept(s);
      var ready := s.(table := table, sdpCompleted := 0);
      EnterExpected(ready, ServiceDiscovery);
      FailsFine(s, Enter(ready, ServiceDiscovery));
    }
  }

  lemma UndiscoveredKept(s: Bt)
    ensures var d := ConnectedDevice(s);
            Kept(s.table, if d.Some? then s.table[d.value := Undiscovered(s.table[d.value])] else s.table)
  {
    var d := ConnectedDevice(s);
    if d.Some? { ReplacedKept(s.table, d.value, Undiscovered(s.table[d.value])); }
  }

  lemma OnSecuredFine(s: Bt, handle: uint16, ok: bool, queryOk: bool)
    requires Inv(s)
    ensures Fine(s, OnSecured(s, handle, ok, queryOk))
    ensures Fine(s, OnAuthenticationComplete(s, handle, ok))
  {
    hide Inv, Expected, DisconnectAfterError, StartSdpDiscovery;
    NothingNew(s.log);
    StartSdpDiscoveryFine(s, queryOk);
    DisconnectAfterErrorFine(s);
  }

  lemma CancelledCompleteFine(s: Bt, ok: bool, handle: uint16)
    requires s.state == Connecting && s.acl == INVALID_HANDLE && s.stack == NOTHING_PENDING && !s.timerArmed
    requires ValidTable(s.table) && (ok ==> handle != INVALID_HANDLE)
    ensures Fine(s, CancelledComplete(s, ok, handle))
  {
    hide ValidTable, Holds, Psms, Expected, BackToIdle;
    var cancelled := s.(cancelRequested := false);
    var up := Enter(LinkUp(cancelled, handle), Connected);
    EnterExpected(LinkUp(cancelled, handle), Connected);
    OneMore(up.log, DisconnectLink(handle));
    ExpectedThenExpected(s.log, up.log, up.log + [DisconnectLink(handle)]);
    BackToIdleFine(cancelled);
  }

  lemma LinkEstablishedFine(s: Bt, handle: uint16, address: Address)
    requires s.state == Connecting && handle != INVALID_HANDLE && !s.timerArmed
    requires ValidTable(s.table) && Holds(s.table, address) && s.stack == NOTHING_PENDING
    ensures Fine(s, LinkEstablished(s, handle, address))
  {
    var i := IndexOf(s.table, address);
    if i.Some? { ReplacedKept(s.table, i.value, s.table[i.value].(connected := true)); }
    hide ValidTable, Holds, Psms, Expected, IndexOf;
    var up := LinkUp(s, handle);
    var connected := Enter(up.(channels := ResetConnection(up.channels)), Connected);
    EnterExpected(up.(channels := ResetConnection(up.channels)), Connected);
    EnterExpected(connected, Authenticating);
    ExpectedThenExpected(s.log, connected.log, Enter(connected, Authenticating).log);
  }

  lemma OnConnectionCompleteFine(s: Bt, ok: bool, handle: uint16, address: Address)
    requires Inv(s) && LinkContract(s, ConnectionComplete(ok, handle, address))
    ensures Fine(s, OnConnectionComplete(s, ok, handle, address))
  {
    hide ValidTable, Holds, Psms, Expected, CancelledComplete, LinkEstablished, BackToIdle;
    NothingNew(s.log);
    OneMore(s.log, DisconnectLink(handle));
    if s.state == Connecting {
      NoLinkNoDebt(s);
      var done := s.(connectingValid := false);
      if s.cancelRequested { CancelledCompleteFine(done, ok, handle); }
      else if ok { LinkEstablishedFine(done, handle, address); }
      else { BackToIdleFine(done); }
    }
  }

  /** The interrupt channel opens under the number of the control channel. */
  predicate AmbiguousOpen(s: Bt, event: Event) {
    && event.ChannelOpened?
    && event.openOk
    && s.state == OpeningInterrupt
    && Psms(s.table, s.connectedAddress).0 == Psms(s.table, s.connectedAddress).1
  }

  lemma ControlChannelOpenedFine(s: Bt, cid: uint16, requestOk: bool)
    requires Inv(s) && s.state in {OpeningControl, OpeningInterrupt} && s.stack.opening == {}
    ensures Inv(ControlChannelOpened(s, cid, requestOk))
    ensures Expected(s.log, ControlChannelOpened(s, cid, requestOk).log) <==> s.state == OpeningControl
    ensures s.log <= ControlChannelOpened(s, cid, requestOk).log
  {
    hide ValidTable, Holds, Psms, Expected, DisconnectAfterError;
    var setting := Enter(s.(channels := ControlOpened(s.channels, cid)), SettingBootProtocol);
    if s.state == OpeningControl { EnterExpected(s.(channels := ControlOpened(s.channels, cid)), SettingBootProtocol); }
    DisconnectAfterErrorFine(setting);
    if s.state == OpeningControl {
      ExpectedThenExpected(s.log, setting.log, DisconnectAfterError(setting).log);
      ExpectedExtends(s.log, setting.log);
      ExpectedExtends(s.log, DisconnectAfterError(setting).log);
    } else {
      NothingNew(setting.log);
      ExpectedExtends(setting.log, setting.log);
      ExpectedExtends(setting.log, DisconnectAfterError(setting).log);
      UnexpectedStays(s.log, OpeningInterrupt, SettingBootProtocol, setting.log);
      UnexpectedStays(s.log, OpeningInterrupt, SettingBootProtocol, DisconnectAfterError(setting).log);
    }
  }

  lemma ExpectedExtends(before: seq<Effect>, after: seq<Effect>)
    requires Expected(before, after)
    ensures before <= after
  {
  }

  lemma UnexpectedStays(log: seq<Effect>, from: State, to: State, after: seq<Effect>)
    requires !TransitionAllowed(from, to)
    requires after == log + [Transition(from, to)] || Expected(log + [Transition(from, to)], after)
    ensures !Expected(log, after)
  {
    assert after[|log|] == Transition(from, to);
  }

  lemma InterruptChannelOpenedFine(s: Bt, cid: uint16, requestOk: bool)
    requires Inv(s) && s.state == OpeningInterrupt && s.stack.opening == {}
    ensures Fine(s, InterruptChannelOpened(s, cid, requestOk))
  {
    hide ValidTable, Holds, Psms, Expected;
    EnterExpected(s.(channels := InterruptOpened(s.channels, cid)), HidConnected);
  }

  lemma OnOpenFailedFine(s: Bt, psm: uint16)
    requires Inv(s)
    ensures Fine(s, DisconnectAfterError(s.(stack := s.stack.(opening := s.stack.opening - {psm}))))
  {
    hide ValidTable, Holds, Psms, Expected, DisconnectAfterError;
    var answered := s.(stack := s.stack.(opening := s.stack.opening - {psm}));
    assert s.stack.opening == {} ==> answered.stack.opening == {};
    assert answered.stack.opening == s.stack.opening || answered.stack.opening == {};
    assert Inv(answered);
    DisconnectAfterErrorFine(answered);
  }

  lemma AnsweredOpen(s: Bt, psm: uint16)
    requires Inv(s) && psm in s.stack.opening
    ensures var answered := s.(stack := s.stack.(opening := s.stack.opening - {psm}));
            && Inv(answered) && answered.stack.opening == {}
            && ConnectedDevice(s).Some?
            && s.state in {OpeningControl, OpeningInterrupt}
            && psm == if s.state == OpeningControl then Psms(s.table, s.connectedAddress).0
                      else Psms(s.table, s.connectedAddress).1
  {
    HoldsIsIndexOf(s.table, s.connectedAddress);
    hide ValidTable, Holds, Psms, IndexOf;
  }

  lemma OnChannelOpenedFine(s: Bt, event: Event)
    requires Inv(s) && event.ChannelOpened? && AnswerContract(s, event)
    ensures Inv(Step(s, event))
    ensures Expected(s.log, Step(s, event).log) <==> !AmbiguousOpen(s, event)
    ensures s.log <= Step(s, event).log
  {
    hide Inv, Expected, DisconnectAfterError, ControlChannelOpened, InterruptChannelOpened;
    if event.openOk {
      AnsweredOpen(s, event.openPsm);
      var answered := s.(stack := s.stack.(opening := s.stack.opening - {event.openPsm}));
      ControlChannelOpenedFine(answered, event.openCid, event.requestOk);
      if s.state == OpeningInterrupt {
        InterruptChannelOpenedFine(answered, event.openCid, event.requestOk);
        ExpectedExtends(s.log, InterruptChannelOpened(answered, event.openCid, event.requestOk).log);
      }
    } else {
      OnOpenFailedFine(s, event.openPsm);
      ExpectedExtends(s.log, Step(s, event).log);
    }
  }

  lemma OnCanSendNowFine(s: Bt, cid: uint16, sendOk: bool)
    requires Inv(s)
    ensures Fine(s, OnCanSendNow(s, cid, sendOk))
  {
    hide ValidTable, Holds, Psms, Expected, DisconnectAfterError;
    NothingNew(s.log);
    var sent := BootProtocolSent(s, cid);
    OneMore(s.log, SendBootProtocol(cid));
    DisconnectAfterErrorFine(sent);
    ExpectedThenExpected(s.log, sent.log, DisconnectAfterError(sent).log);
  }

  lemma OnChannelClosedFine(s: Bt, cid: uint16)
    requires Inv(s)
    ensures Fine(s, OnChannelClosed(s, cid))
  {
    hide ValidTable, Holds, Psms, Expected;
    NothingNew(s.log);
    OneMore(s.log, DisconnectLink(s.acl));
  }

  lemma OnDisconnectionCompleteFine(s: Bt, handle: uint16)
    requires Inv(s)
    ensures Expected(s.log, OnDisconnectionComplete(s, handle).log)
    ensures Inv(OnDisconnectionComplete(s, handle)) <==> NoStrayDisconnection(s, DisconnectionComplete(handle))
  {
    DisconnectedKept(s.table);
    hide ValidTable, Holds, Psms, Expected, DeviceTable.Disconnected;
    EnterExpected(s, State.Disconnected);
    var down := Enter(s, State.Disconnected).(
      table := DeviceTable.Disconnected(s.table), keys := ReportQueue.AllReleased(s.keys),
      channels := ResetConnection(s.channels), acl := INVALID_HANDLE,
      stack := Settled(s, handle));
    EnterExpected(down, Idle);
    ExpectedThenExpected(s.log, down.log, BackToIdle(down).log);
  }

  lemma FedKeepsAddress(p: SdpParser.Parsing, id: uint16, length: uint16, offset: uint16, data: byte)
    ensures p.device.Some? ==>
              var after := SdpParser.Fed(p, id, length, offset, data).device;
              after.Some? && after.value.address == p.device.value.address
  {
    hide SdpParser.AttributeRead;
    if p.device.Some? && offset < length <= SdpParser.BUFFER_SIZE {
      AttributeKeepsAddress(p.device.value, id, p.buffer[offset := data][..length]);
    }
  }

  lemma AttributeKeepsAddress(device: Device, id: uint16, bytes: seq<byte>)
    requires |bytes| <= U16_MAX
    ensures SdpParser.AttributeRead(device, id, bytes).address == device.address
  {
    hide SdpSearch.PsmIn, SdpReport.ReportIn, SdpParser.TextIn, SdpParser.FlagsOf, HidReference.Parse, Renamed;
  }

  lemma OnSdpByteFine(s: Bt, id: uint16, length: uint16, offset: uint16, data: byte)
    requires Inv(s) && s.stack.sdpPending
    ensures Fine(s, OnSdpByte(s, id, length, offset, data))
  {
    var d := ConnectedDevice(s);
    var before := SdpParser.Parsing(s.sdpBuffer, s.sdpCompleted, if d.Some? then Some(s.table[d.value]) else None);
    FedKeepsAddress(before, id, length, offset, data);
    var after := SdpParser.Fed(before, id, length, offset, data);
    if d.Some? { ReplacedKept(s.table, d.value, after.device.value); }
    hide ValidTable, Holds, Psms, Expected, SdpParser.Fed, ConnectedDevice;
    NothingNew(s.log);
  }

  lemma OnSdpCompleteFine(s: Bt, ok: bool, create: Create)
    requires Inv(s) && (ok ==> s.stack.sdpPending)
    ensures Fine(s, OnSdpComplete(s, ok, create))
  {
    var answered := s.(stack := s.stack.(sdpPending := false));
    var d := ConnectedDevice(s);
    if d.Some? { ReplacedKept(s.table, d.value, Discovered(s.table[d.value])); }
    hide ValidTable, Holds, Psms, Expected, DisconnectAfterError, OpenControlChannel, Discovered, ConnectedDevice;
    assert Inv(answered);
    DisconnectAfterErrorFine(answered);
    if ok && d.Some? {
      OpenControlChannelFine(answered.(table := s.table[d.value := Discovered(s.table[d.value])]), create);
    }
  }

  lemma OnHidDataFine(s: Bt, channel: uint16, packet: seq<byte>, create: Create)
    requires Inv(s)
    ensures Fine(s, OnHidData(s, channel, packet, create))
  {
    hide ValidTable, Holds, Psms, Expected, DisconnectAfterError, OpenInterruptChannel, BootReport, HandshakeOk;
    NothingNew(s.log);
    DisconnectAfterErrorFine(s);
    if s.state == SettingBootProtocol { OpenInterruptChannelFine(s, create); }
  }

  /** A table may change under the invariant if it keeps addresses, and channel numbers that are in use. */
  lemma TableChangeFine(s: Bt, table: seq<Device>)
    requires Inv(s) && Kept(s.table, table)
    requires Holds(s.table, s.connectedAddress) ==>
               Psms(table, s.connectedAddress) == Psms(s.table, s.connectedAddress)
    ensures Fine(s, s.(table := table))
  {
    hide ValidTable, Holds, Psms, Expected;
    NothingNew(s.log);
  }

  lemma OnInquiryResultFine(s: Bt, sighting: Sighting, bonded: bool)
    requires Inv(s)
    ensures Fine(s, OnInquiryResult(s, sighting, bonded))
  {
    var table := Upserted(s.table, sighting);
    UpsertedKept(s.table, sighting);
    SetBondedKept(table, sighting.address, bonded);
    hide Inv, ValidTable, Holds, Psms, Expected, IndexOf, Upserted, SetBonded;
    TableChangeFine(s, table);
    TableChangeFine(s, SetBonded(table, sighting.address, bonded));
  }

  lemma OnBondChangedFine(s: Bt, address: Address, bonded: bool)
    requires Inv(s)
    ensures Fine(s, OnBondChanged(s, address, bonded))
  {
    SetBondedKept(s.table, address, bonded);
    hide Inv, ValidTable, Holds, Psms, Expected, SetBonded;
    TableChangeFine(s, SetBonded(s.table, address, bonded));
  }

  lemma PeripheralsFine(s: Bt, event: Event)
    requires Inv(s) && (event.HostLeds? || event.LedPoll? || event.UsbTask?)
    ensures Fine(s, Step(s, event))
  {
    hide ValidTable, Holds, Psms, Expected, LedsSet, ReportQueue.Drained;
    NothingNew(s.log);
  }

  lemma DialingFine(s: Bt, dialing: Bt)
    requires dialing.state == Connecting && dialing.acl == INVALID_HANDLE && dialing.stack == NOTHING_PENDING
    requires !dialing.timerArmed && dialing.connectingValid
    requires ValidTable(dialing.table) && Holds(dialing.table, dialing.connectingAddress)
    requires Expected(s.log, dialing.log)
    ensures Fine(s, dialing) && Fine(s, BackToIdle(dialing.(connectingValid := false)))
  {
    hide ValidTable, Holds, Psms, Expected, BackToIdle;
    BackToIdleFine(dialing.(connectingValid := false));
    ExpectedThenExpected(s.log, dialing.log, BackToIdle(dialing.(connectingValid := false)).log);
  }

  lemma DialingExpected(s: Bt, address: Address)
    requires s.state == Idle || s.state == Inquiry
    ensures Expected(s.log, Dialing(s, address).log)
  {
    hide Expected;
    var ready := s.(connectingAddress := address, connectingValid := true, cancelRequested := false);
    EnterExpected(ready, Connecting);
    OneMore(Enter(ready, Connecting).log, CreateConnection(address));
    ExpectedThenExpected(s.log, Enter(ready, Connecting).log, Dialing(s, address).log);
  }

  lemma WithSelectedHolds(s: Bt, address: Address, bonded: bool)
    requires ValidTable(s.table) && s.selectedValid && address == s.selectedAddress
    ensures ValidTable(WithSelected(s, address, bonded).table)
    ensures Holds(WithSelected(s, address, bonded).table, address)
  {
    RestoreHolds(s.table, address, bonded);
    HoldsIsIndexOf(s.table, address);
    hide ValidTable, Holds, RestoreSelected, IndexOf;
  }

  lemma BeginConnectionFine(s: Bt, address: Address, dial: Dial)
    requires Inv(s) && s.selectedValid && address == s.selectedAddress
    ensures Fine(s, BeginConnection(s, address, dial))
  {
    hide ValidTable, Holds, Psms, Expected, WithSelected, Dialing, BackToIdle;
    NothingNew(s.log);
    if s.state == Idle || s.state == Inquiry {
      NoLinkNoDebt(s);
      var ready := s.(timerArmed := false);
      AttemptShape(ready, address, dial.bonded);
      WithSelectedHolds(ready, address, dial.bonded);
      var known := WithSelected(ready, address, dial.bonded);
      AttemptShape(known, address, dial.bonded);
      DialingExpected(known, address);
      DialingFine(s, Dialing(known, address));
    }
  }

  lemma OnWorkingFine(s: Bt, dial: Dial)
    requires Inv(s) && s.state == Initializing
    ensures Fine(s, OnWorking(s, dial))
  {
    NoLinkNoDebt(s);
    hide ValidTable, Holds, Psms, Expected, BeginConnection;
    EnterExpected(s, Idle);
    var idle := Enter(s, Idle);
    if s.autoConnect && s.selectedValid {
      BeginConnectionFine(idle, s.selectedAddress, dial);
      ExpectedThenExpected(s.log, idle.log, BeginConnection(idle, s.selectedAddress, dial).log);
    }
  }

  lemma InquiryTargetIsSelected(s: Bt)
    ensures InquiryTarget(s).Some? && s.selectedValid ==> InquiryTarget(s).value == s.selectedAddress
  {
    hide IndexOf, ConnectionTarget;
  }

  lemma RememberedFine(s: Bt, target: Address)
    ensures Expected(s.log, Remembered(s, target).log)
    ensures Inv(s) ==> Inv(Remembered(s, target))
  {
    hide ValidTable, Holds, Psms, Expected;
    NothingNew(s.log);
    OneMore(s.log, StoreSelection(target));
  }

  lemma StartInquiryExpected(s: Bt)
    ensures Expected(s.log, StartInquiry(s).log)
  {
    hide Expected;
    NothingNew(s.log);
    if s.state == Idle {
      var entered := Enter(s.(timerArmed := false), Inquiry);
      EnterExpected(s.(timerArmed := false), Inquiry);
      OneMore(entered.log, Inquire);
      ExpectedThenExpected(s.log, entered.log, StartInquiry(s).log);
    }
  }

  lemma OnInquiryCompleteFine(s: Bt, dial: Dial)
    requires Inv(s)
    ensures Fine(s, OnInquiryComplete(s, dial))
  {
    hide ValidTable, Holds, Psms, Expected, BeginConnection, BackToIdle, InquiryTarget;
    NothingNew(s.log);
    if s.state == Inquiry {
      NoLinkNoDebt(s);
      BackToIdleFine(s);
      var target := InquiryTarget(s);
      if target.Some? {
        InquiryTargetIsSelected(s);
        RememberedFine(s, target.value);
        var remembered := Remembered(s, target.value);
        BeginConnectionFine(remembered, target.value, dial);
        ExpectedThenExpected(s.log, remembered.log, BeginConnection(remembered, target.value, dial).log);
      }
    }
  }

  lemma OnRetryTimerFine(s: Bt, dial: Dial)
    requires Inv(s)
    ensures Fine(s, OnRetryTimer(s, dial))
  {
    hide ValidTable, Holds, Psms, Expected, BeginConnection;
    NothingNew(s.log);
    if s.selectedValid { BeginConnectionFine(s.(timerArmed := false), s.selectedAddress, dial); }
  }

  lemma OnConnectFine(s: Bt, target: Address, dial: Dial)
    requires Inv(s)
    ensures Fine(s, OnConnect(s, target, dial))
  {
    hide ValidTable, Holds, Psms, Expected, BeginConnection, IndexOf;
    NothingNew(s.log);
    var selected := Selected(s, target);
    OneMore(s.log, StoreSelection(target));
    BeginConnectionFine(selected, target, dial);
    ExpectedThenExpected(s.log, selected.log, BeginConnection(selected, target, dial).log);
  }

  lemma OnReconnectFine(s: Bt, dial: Dial)
    requires Inv(s)
    ensures Fine(s, OnReconnect(s, dial))
  {
    hide ValidTable, Holds, Psms, Expected, BeginConnection, ConnectionTarget;
    NothingNew(s.log);
    var resumed := s.(autoConnect := true);
    var target := if s.selectedValid then Some(s.selectedAddress) else ConnectionTarget(s.table);
    if target.Some? {
      RememberedFine(resumed, target.value);
      var remembered := Remembered(resumed, target.value);
      BeginConnectionFine(remembered, target.value, dial);
      ExpectedThenExpected(s.log, remembered.log, BeginConnection(remembered, target.value, dial).log);
    }
    if s.state == Idle { NoLinkNoDebt(s); }
    StartInquiryExpected(resumed);
  }

  lemma OnScanFine(s: Bt)
    requires Inv(s)
    ensures Fine(s, OnScan(s))
  {
    hide Psms, Expected;
    NothingNew(s.log);
    if s.state == Idle { NoLinkNoDebt(s); }
    StartInquiryExpected(s.(autoConnect := false, table := []));
  }

  lemma OnDisconnectFine(s: Bt)
    requires Inv(s)
    ensures Fine(s, OnDisconnect(s))
  {
    hide ValidTable, Holds, Psms, Expected;
    NothingNew(s.log);
    OneMore(s.log, DisconnectLink(s.acl));
    OneMore(s.log, CancelConnection(s.connectingAddress));
  }

  lemma ForgottenFine(s: Bt)
    requires Inv(s)
    ensures Fine(s, Forgotten(s)) && Forgotten(s) == s.(autoConnect := false, selectedValid := false,
                                                         table := Unbonded(s.table), log := Forgotten(s).log)
  {
    UnbondedKept(s.table);
    hide ValidTable, Holds, Psms, Expected, Unbonded;
    OneMore(s.log, EraseSelection);
    OneMore(s.log + [EraseSelection], EraseLinkKeys);
    ExpectedThenExpected(s.log, s.log + [EraseSelection], Forgotten(s).log);
  }

  lemma OnForgetFine(s: Bt)
    requires Inv(s)
    ensures Fine(s, OnForget(s))
  {
    hide ValidTable, Holds, Psms, Expected, Forgotten;
    ForgottenFine(s);
    var erased := Forgotten(s).log;
    NothingNew(erased);
    OneMore(erased, DisconnectLink(s.acl));
    OneMore(erased, CancelConnection(s.connectingAddress));
    ExpectedThenExpected(s.log, erased, OnForget(s).log);
  }

  /**
   Under the contract every step keeps the invariant, and all its transitions
   are expected ones unless both channels go by one number.
   */
  lemma StepFine(s: Bt, event: Event)
    requires Inv(s) && Contract(s, event)
    ensures Inv(Step(s, event))
    ensures Expected(s.log, Step(s, event).log) <==> !AmbiguousOpen(s, event)
  {
    hide Inv, Expected, OnWorking, OnInquiryResult, OnInquiryComplete, OnConnectionComplete, OnChannelOpened,
         OnCanSendNow, OnChannelClosed, OnSecured, OnAuthenticationComplete, OnDisconnectionComplete, OnBondChanged,
         OnSdpByte, OnSdpComplete, OnHidData, OnRetryTimer, OnScan, OnConnect, OnDisconnect, OnReconnect, OnForget,
         OnHostLeds, ScheduleLeds, OnUsbTask, Psms;
    match event
    case Working(dial) => OnWorkingFine(s, dial);
    case InquiryResult(sighting, bonded) => OnInquiryResultFine(s, sighting, bonded);
    case InquiryComplete(dial) => OnInquiryCompleteFine(s, dial);
    case ConnectionComplete(ok, handle, address) => OnConnectionCompleteFine(s, ok, handle, address);
    case ChannelOpened(_, _, _, _) => OnChannelOpenedFine(s, event);
    case CanSendNow(cid, sendOk) => OnCanSendNowFine(s, cid, sendOk);
    case ChannelClosedEvent(cid) => OnChannelClosedFine(s, cid);
    case SecurityLevel(handle, ok, reached, queryOk) => OnSecuredFine(s, handle, ok && reached, queryOk);
    case AuthenticationComplete(handle, ok) => OnSecuredFine(s, handle, ok, false);
    case EncryptionChange(handle, ok, enabled, queryOk) => OnSecuredFine(s, handle, ok && enabled, queryOk);
    case DisconnectionComplete(handle) => OnDisconnectionCompleteFine(s, handle);
    case BondChanged(address, bonded) => OnBondChangedFine(s, address, bonded);
    case SdpByte(id, length, offset, data) => OnSdpByteFine(s, id, length, offset, data);
    case SdpComplete(ok, create) => OnSdpCompleteFine(s, ok, create);
    case HidData(channel, packet, create) => OnHidDataFine(s, channel, packet, create);
    case RetryTimer(dial) => OnRetryTimerFine(s, dial);
    case Scan => OnScanFine(s);
    case Connect(target, dial) => OnConnectFine(s, target, dial);
    case Disconnect => OnDisconnectFine(s);
    case Reconnect(dial) => OnReconnectFine(s, dial);
    case Forget => OnForgetFine(s);
    case HostLeds(_) => PeripheralsFine(s, event);
    case LedPoll(_) => PeripheralsFine(s, event);
    case UsbTask(_, _) => PeripheralsFine(s, event);
  }

  lemma StepExtendsLog(s: Bt, event: Event)
    requires Inv(s) && Contract(s, event)
    ensures s.log <= Step(s, event).log
  {
    hide Inv, Expected, Step;
    if AmbiguousOpen(s, event) {
      OnChannelOpenedFine(s, event);
    } else {
      StepFine(s, event);
      ExpectedExtends(s.log, Step(s, event).log);
    }
  }

  lemma StartFine(selected: Option<Address>)
    ensures Inv(Start(selected))
  {
  }

  /** The invariant holds at the end of every run that keeps the contract. */
  lemma {:induction false} InvHolds(selected: Option<Address>, events: seq<Event>)
    requires Keeps(Contract, Start(selected), events)
    ensures Inv(Run(Start(selected), events))
    decreases |events|
  {
    hide Step, Inv, Contract;
    StartFine(selected);
    if events != [] {
      KeepsPrefix(Contract, Start(selected), events);
      InvHolds(selected, events[..|events| - 1]);
      StepFine(Run(Start(selected), events[..|events| - 1]), events[|events| - 1]);
    }
  }

  // ------------------------------------------------------------------------
  // Stray disconnections

  /** A step of a stack that answers only what it was asked keeps the invariant exactly if nothing strays. */
  lemma StepKeepsInvExactly(s: Bt, event: Event)
    requires Inv(s) && AnswersOnly(s, event)
    ensures Inv(Step(s, event)) <==> NoStrayDisconnection(s, event)
    ensures Expected(s.log, Step(s, event).log) <==> !AmbiguousOpen(s, event)
  {
    if event.DisconnectionComplete? {
      hide Inv, Expected, OnDisconnectionComplete;
      StackSteps(s, event);
      OnDisconnectionCompleteFine(s, event.disconnectedHandle);
    } else {
      hide Inv, Expected, Step, AnswersOnly, AmbiguousOpen;
      StepFine(s, event);
    }
  }

  /**
   On a run of a stack that answers only what it was asked, the invariant holds
   all along exactly when no other link is reported down while an answer is
   owed. So the clause on disconnections is the weakest one.
   */
  lemma InvHoldsExactly(selected: Option<Address>, events: seq<Event>)
    requires Keeps(AnswersOnly, Start(selected), events)
    ensures (forall n | 0 <= n <= |events| :: Inv(Run(Start(selected), events[..n])))
       <==> Keeps(NoStrayDisconnection, Start(selected), events)
  {
    hide Step, Inv, Run, AnswersOnly, NoStrayDisconnection;
    if Keeps(NoStrayDisconnection, Start(selected), events) {
      forall n | 0 <= n <= |events| ensures Inv(Run(Start(selected), events[..n])) {
        BothContracts(selected, events, n);
        InvHolds(selected, events[..n]);
      }
    }
    if forall n | 0 <= n <= |events| :: Inv(Run(Start(selected), events[..n])) {
      forall n | 0 <= n < |events| ensures NoStrayDisconnection(Run(Start(selected), events[..n]), events[n]) {
        var s := Run(Start(selected), events[..n]);
        RunNext(Start(selected), events, n);
        assert Inv(Run(Start(selected), events[..n + 1]));
        StepKeepsInvExactly(s, events[n]);
      }
    }
  }

  lemma RunNext(s: Bt, events: seq<Event>, n: nat)
    requires n < |events|
    ensures Run(s, events[..n + 1]) == Step(Run(s, events[..n]), events[n])
  {
    hide Step;
    assert events[..n + 1][..n] == events[..n];
  }

  lemma BothContracts(selected: Option<Address>, events: seq<Event>, n: nat)
    requires Keeps(AnswersOnly, Start(selected), events) && Keeps(NoStrayDisconnection, Start(selected), events)
    requires n <= |events|
    ensures Keeps(Contract, Start(selected), events[..n])
  {
    hide Run, AnswersOnly, NoStrayDisconnection;
    assert forall k | 0 <= k < n :: events[..n][..k] == events[..k] && events[..n][k] == events[k];
  }
}
