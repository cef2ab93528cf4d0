/**
 What the USB host is told over whole runs: the keyboard's reports in the order
 in which they were typed, less what a release or an overflow drops. No
 contract is needed.
 */
module ConnectionKeys {
  import opened Basics
  import opened Connection
  import opened ConnectionSteps
  import opened ConnectionWitness
  import opened DeviceTable
  import opened ReportQueue
  import SdpParser

  function Before(events: seq<Event>): seq<Event>
    requires events != []
  {
    events[..|events| - 1]
  }

  function Last(events: seq<Event>): Event
    requires events != []
  {
    events[|events| - 1]
  }

  /** What the host takes during a run, in order. */
  function Reads(s: Bt, events: seq<Event>): seq<Report> {
    if events == [] then []
    else
      var before := Run(s, Before(events));
      Reads(s, Before(events)) + (if Takes(before, Last(events)) then [before.keys.pending[0]] else [])
  }

  /**
   What is left of `kept`, of which `read` reports have been read, when a release
   or a report arrives: what has been read stays; what waits is dropped by a
   release, and by a report that finds 64 others waiting.
   */
  function KeptNext(kept: seq<Report>, read: nat, releases: bool, adds: Option<Report>): seq<Report>
    requires read <= |kept|
  {
    if releases then kept[..read] + [Report(0, [0, 0, 0, 0, 0, 0])]
    else if adds.None? then kept
    else (if |kept| - read == 64 then kept[..read] else kept) + [adds.value]
  }

  /** The reports that were not dropped: those that waited at first, every accepted one, and every release. */
  function Kept(s: Bt, events: seq<Event>): seq<Report> {
    if events == [] then s.keys.pending
    else
      var before, event := Run(s, Before(events)), Last(events);
      var kept, read := Kept(s, Before(events)), |Reads(s, Before(events))|;
      if read > |kept| then [] else KeptNext(kept, read, Releases(before, event), Adds(before, event))
  }

  /** One step on the queue alone. */
  lemma NextInOrder(past: seq<Report>, keys: Keys, s: Bt, event: Event)
    requires s.keys == keys
    ensures KeptNext(past + keys.pending, |past|, Releases(s, event), Adds(s, event))
         == past + (if Takes(s, event) then [keys.pending[0]] else []) + NextKeys(s, event).pending
    ensures NextKeys(s, event).sent == if Takes(s, event) then keys.pending[0] else keys.sent
  {
    assert (past + keys.pending)[..|past|] == past;
    NotAtOnce(s, event);
    hide Releases, Adds, Takes;
    if Takes(s, event) {
      TakesFirst(s, event);
      assert past + keys.pending == past + [keys.pending[0]] + keys.pending[1..];
    }
    assert past + [] == past;
  }

  lemma TakesFirst(s: Bt, event: Event)
    requires Takes(s, event)
    ensures s.keys.pending != [] && s.keys.pending == [s.keys.pending[0]] + s.keys.pending[1..]
  {
  }

  lemma NotAtOnce(s: Bt, event: Event)
    ensures Takes(s, event) ==> !Releases(s, event) && Adds(s, event).None?
  {
  }

  lemma LastRead(s: Bt, events: seq<Event>)
    requires events != []
    ensures var before := Run(s, Before(events));
            && Reads(s, events)
               == Reads(s, Before(events)) + (if Takes(before, Last(events)) then [before.keys.pending[0]] else [])
            && Run(s, events) == Step(before, Last(events))
  {
    hide Step, Takes;
  }

  lemma LastKept(s: Bt, events: seq<Event>)
    requires events != [] && |Reads(s, Before(events))| <= |Kept(s, Before(events))|
    ensures var before := Run(s, Before(events));
            Kept(s, events) == KeptNext(Kept(s, Before(events)), |Reads(s, Before(events))|,
                                        Releases(before, Last(events)), Adds(before, Last(events)))
  {
    hide Step, Releases, Adds, KeptNext, Run;
  }

  /**
   On every run, what the host has read, followed by what waits, is the reports
   that were not dropped, in order; and the host's state is the last one it read.
   */
  lemma {:induction false} HostReadsInOrder(s: Bt, events: seq<Event>)
    ensures Kept(s, events) == Reads(s, events) + Run(s, events).keys.pending
    ensures Run(s, events).keys.sent
         == if Reads(s, events) == [] then s.keys.sent else Reads(s, events)[|Reads(s, events)| - 1]
    decreases |events|
  {
    if events == [] {
      assert [] + s.keys.pending == s.keys.pending;
    } else {
      hide *;
      var before := Run(s, Before(events));
      BeforeIsShorter(events);
      HostReadsInOrder(s, Before(events));
      StepDoes(before, Last(events));
      LastRead(s, events);
      LastKept(s, events);
      NextInOrder(Reads(s, Before(events)), before.keys, before, Last(events));
    }
  }

  lemma BeforeIsShorter(events: seq<Event>)
    requires events != []
    ensures |Before(events)| < |events|
  {
  }

  /** The reports that arrive during a run, in order. */
  function Accepted(s: Bt, events: seq<Event>): seq<Report> {
    if events == [] then []
    else
      var before := Run(s, Before(events));
      Accepted(s, Before(events)) + match Adds(before, Last(events)) case None => [] case Some(report) => [report]
  }

  predicate Drops(s: Bt, event: Event) {
    Releases(s, event) || (Adds(s, event).Some? && |s.keys.pending| == 64)
  }

  lemma LastAccepted(s: Bt, events: seq<Event>)
    requires events != []
    ensures var before := Run(s, Before(events));
            Accepted(s, events)
            == Accepted(s, Before(events))
               + (if Adds(before, Last(events)).Some? then [Adds(before, Last(events)).value] else [])
  {
    hide Step, Adds, Run;
  }

  lemma NothingDropped(kept: seq<Report>, read: nat, s: Bt, event: Event)
    requires read <= |kept| && kept[read..] == s.keys.pending && !Drops(s, event)
    ensures KeptNext(kept, read, Releases(s, event), Adds(s, event))
         == kept + (if Adds(s, event).Some? then [Adds(s, event).value] else [])
  {
    hide Releases, Adds;
    assert |kept| - read == |s.keys.pending|;
  }

  /** While no release and no overflow happens, the host gets everything that is typed, in order. */
  lemma {:induction false} NothingIsLost(s: Bt, events: seq<Event>)
    requires forall n | 0 <= n < |events| :: !Drops(Run(s, events[..n]), events[n])
    ensures Reads(s, events) + Run(s, events).keys.pending == s.keys.pending + Accepted(s, events)
    decreases |events|
  {
    hide *;
    KeepsAll(s, events);
    HostReadsInOrder(s, events);
  }

  lemma {:induction false} KeepsAll(s: Bt, events: seq<Event>)
    requires forall n | 0 <= n < |events| :: !Drops(Run(s, events[..n]), events[n])
    ensures Kept(s, events) == s.keys.pending + Accepted(s, events)
    decreases |events|
  {
    hide Step, Drops, Adds, Releases, Run, Reads;
    if events == [] {
      assert s.keys.pending + [] == s.keys.pending;
    } else {
      hide Kept, Accepted;
      var before, event := Before(events), Last(events);
      assert forall n | 0 <= n < |before| :: before[..n] == events[..n] && before[n] == events[n];
      KeepsAll(s, before);
      HostReadsInOrder(s, before);
      assert !Drops(Run(s, before), event);
      LastKept(s, events);
      LastAccepted(s, events);
      NothingDropped(Kept(s, before), |Reads(s, before)|, Run(s, before), event);
    }
  }

  // ------------------------------------------------------------------------
  // One key, from the keyboard to the host

  /** A key packet on the open interrupt channel becomes the newest waiting report. */
  lemma PacketIsQueued(s: Bt, packet: seq<byte>, create: Create, modifier: byte, keys: Keycodes)
    requires s.channels.interruptOpen && s.channels.interruptCid != s.channels.controlCid
    requires packet == [0xa1, modifier, 0] + keys || exists id: byte :: packet == [0xa1, id, modifier, 0] + keys
    requires forall key <- keys :: key == 0 || key > 3
    ensures Step(s, HidData(s.channels.interruptCid, packet, create)).keys
         == s.keys.(pending := (if |s.keys.pending| == 64 then [] else s.keys.pending) + [Report(modifier, keys)])
  {
    var event := HidData(s.channels.interruptCid, packet, create);
    StepDoes(s, event);
    TypedIsCarried(packet, Report(modifier, keys));
    assert Carries(packet, Report(modifier, keys)) by { hide Step; }
    hide Step, Typed, Carries;
  }

  /** A packet on that channel which carries no report changes nothing at all. */
  lemma OtherPacketsAreIgnored(s: Bt, packet: seq<byte>, create: Create)
    requires s.channels.interruptCid != s.channels.controlCid
    requires !s.channels.interruptOpen || forall report :: !Carries(packet, report)
    ensures Step(s, HidData(s.channels.interruptCid, packet, create)) == s
  {
    if BootReport(packet).Some? { PacketCarries(packet, BootReport(packet).value); }
    hide BootReport, Carries;
  }

  /** Turns of the USB task with a host that takes what it is offered. */
  function Turns(n: nat): seq<Event> {
    seq(n, _ => UsbTask(true, true))
  }

  lemma {:induction false} TurnsRead(s: Bt, n: nat)
    requires n <= |s.keys.pending|
    ensures Run(s, Turns(n)).keys
         == Keys(s.keys.pending[n..], if n == 0 then s.keys.sent else s.keys.pending[n - 1])
  {
    if n > 0 {
      TurnsRead(s, n - 1);
      assert Turns(n)[..n - 1] == Turns(n - 1);
      OneTurn(Run(s, Turns(n - 1)));
      hide Step;
    } else {
      assert s.keys == Keys(s.keys.pending[0..], s.keys.sent);
    }
  }

  lemma OneTurn(s: Bt)
    requires s.keys.pending != []
    ensures Step(s, UsbTask(true, true)).keys == Keys(s.keys.pending[1..], s.keys.pending[0])
  {
    StepDoes(s, UsbTask(true, true));
    hide Step;
  }

  lemma {:induction false} AtMost64Wait(selected: Option<Address>, events: seq<Event>)
    ensures |Run(Start(selected), events).keys.pending| <= 64
    decreases |events|
  {
    if events != [] {
      var before := Run(Start(selected), Before(events));
      hide Step, Releases, Adds, Start;
      AtMost64Wait(selected, Before(events));
      StepDoes(before, Last(events));
    } else {
      hide Step;
    }
  }

  lemma {:induction false} RunOfConcat(s: Bt, events: seq<Event>, more: seq<Event>)
    ensures Run(s, events + more) == Run(Run(s, events), more)
    decreases |more|
  {
    hide Step;
    if more == [] {
      assert events + more == events;
    } else {
      assert Before(events + more) == events + Before(more) && Last(events + more) == Last(more);
      RunOfConcat(s, events, Before(more));
    }
  }

  /**
   From power-on: a keyboard connects, a key is pressed on it, and after some
   turns of the USB task that is what the host was told last, with nothing waiting.
   */
  lemma TypesFromPowerOn(a: Address, attributes: seq<SdpParser.Attribute>, modifier: byte, keys: Keycodes)
    returns (events: seq<Event>, turns: nat)
    requires Reported(attributes).0 != Reported(attributes).1 || Reported(attributes).0 == 0
    requires forall key <- keys :: key == 0 || key > 3
    ensures events == ReportedRun(a, attributes) + [HidData(65, [0xa1, modifier, 0] + keys, Create(true, 0))]
    ensures 0 < turns <= 64
    ensures Run(Start(Some(a)), events + Turns(turns)).keys == Keys([], Report(modifier, keys))
  {
    hide *;
    ConnectsByReported(a, attributes);
    var packet := HidData(65, [0xa1, modifier, 0] + keys, Create(true, 0));
    events := ReportedRun(a, attributes) + [packet];
    var s := Run(Start(Some(a)), ReportedRun(a, attributes));
    IsOpen(s);
    PacketIsQueued(s, [0xa1, modifier, 0] + keys, Create(true, 0), modifier, keys);
    OneMore(Start(Some(a)), ReportedRun(a, attributes), packet);
    var t := Run(Start(Some(a)), events);
    AtMost64Wait(Some(a), events);
    turns := |t.keys.pending|;
    TurnsRead(t, turns);
    RunOfConcat(Start(Some(a)), events, Turns(turns));
    assert t.keys.pending[turns..] == [];
  }

  lemma IsOpen(s: Bt)
    requires s.channels.interruptOpen && s.channels.interruptCid == 65 && ControlReady(s.channels)
    ensures s.channels.interruptCid != s.channels.controlCid
  {
  }

  lemma OneMore(s: Bt, events: seq<Event>, event: Event)
    ensures Run(s, events + [event]) == Step(Run(s, events), event)
  {
    hide Step;
    assert Before(events + [event]) == events;
  }
}
