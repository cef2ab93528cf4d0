/** The two HID channels of a link and the LED report that waits for the control channel. */
module HidChannels {
  import opened Basics

  datatype Channels = Channels(
    controlCid: uint16,
    interruptCid: uint16,
    controlOpen: bool,
    interruptOpen: bool,
    bootRequestPending: bool,
    ledState: byte,
    ledReportPending: bool,
    ledCanSendRequested: bool)

  const CLOSED := Channels(0, 0, false, false, false, 0, false, false)

  /** A new connection forgets the channels but not the LEDs. */
  function ResetConnection(c: Channels): Channels {
    c.(controlCid := 0, interruptCid := 0, controlOpen := false, interruptOpen := false,
       bootRequestPending := false, ledCanSendRequested := false)
  }

  function ControlOpened(c: Channels, cid: uint16): Channels {
    c.(controlCid := cid, controlOpen := true, bootRequestPending := true)
  }

  function InterruptOpened(c: Channels, cid: uint16): Channels {
    c.(interruptCid := cid, interruptOpen := true)
  }

  predicate ClosesControl(c: Channels, cid: uint16) {
    cid != 0 && cid == c.controlCid
  }

  predicate ClosesInterrupt(c: Channels, cid: uint16) {
    cid != 0 && cid == c.interruptCid
  }

  function ChannelClosed(c: Channels, cid: uint16): Channels {
    var afterControl :=
      if ClosesControl(c, cid) then
        c.(controlCid := 0, controlOpen := false, bootRequestPending := false, ledCanSendRequested := false)
      else c;
    if ClosesInterrupt(c, cid) then afterControl.(interruptCid := 0, interruptOpen := false) else afterControl
  }

  function Masked(leds: byte): byte {
    leds % 0x20
  }

  function LedsSet(c: Channels, leds: byte): Channels {
    if c.ledState == Masked(leds) && !c.ledReportPending then c
    else c.(ledState := Masked(leds), ledReportPending := true)
  }

  class ChannelState {
    var controlCid: uint16
    var interruptCid: uint16
    var controlOpen: bool
    var interruptOpen: bool
    var bootRequestPending: bool
    var ledState: byte
    var ledReportPending: bool
    var ledCanSendRequested: bool

    ghost function View(): Channels
      reads this
    {
      Channels(controlCid, interruptCid, controlOpen, interruptOpen, bootRequestPending, ledState, ledReportPending,
               ledCanSendRequested)
    }

    constructor ()
      ensures View() == CLOSED
    {
      controlCid, interruptCid := 0, 0;
      controlOpen, interruptOpen, bootRequestPending := false, false, false;
      ledState, ledReportPending, ledCanSendRequested := 0, false, false;
    }

    method Reset()
      modifies this
      ensures View() == ResetConnection(old(View()))
    {
      controlCid := 0;
      interruptCid := 0;
      controlOpen := false;
      interruptOpen := false;
      bootRequestPending := false;
      ledCanSendRequested := false;
    }

    method OpenControl(cid: uint16)
      modifies this
      ensures View() == ControlOpened(old(View()), cid)
    {
      controlCid := cid;
      controlOpen := true;
      bootRequestPending := true;
    }

    method OpenInterrupt(cid: uint16)
      modifies this
      ensures View() == InterruptOpened(old(View()), cid)
    {
      interruptCid := cid;
      interruptOpen := true;
    }

    /** Both channels are looked at, so one identifier can close both. */
    method Close(cid: uint16) returns (control: bool, interrupt: bool)
      modifies this
      ensures View() == ChannelClosed(old(View()), cid)
      ensures control == ClosesControl(old(View()), cid) && interrupt == ClosesInterrupt(old(View()), cid)
    {
      control, interrupt := false, false;
      if cid != 0 && cid == controlCid {
        controlCid := 0;
        controlOpen := false;
        bootRequestPending := false;
        ledCanSendRequested := false;
        control := true;
      }
      if cid != 0 && cid == interruptCid {
        interruptCid := 0;
        interruptOpen := false;
        interrupt := true;
      }
    }

    method SetLeds(leds: byte) returns (changed: bool)
      modifies this
      ensures View() == LedsSet(old(View()), leds)
      ensures changed <==> old(ledState) != Masked(leds) || old(ledReportPending)
    {
      var masked := leds % 0x20;
      if ledState == masked && !ledReportPending { return false; }
      ledState := masked;
      ledReportPending := true;
      changed := true;
    }

    method RequestLedSync()
      modifies this
      ensures View() == old(View()).(ledReportPending := true)
    {
      ledReportPending := true;
    }
  }
}
