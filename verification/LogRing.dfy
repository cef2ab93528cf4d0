/** The log of the USB serial port: a ring of bytes between `printf` and the CDC endpoint. */
module LogRing {
  import opened Basics

  const RING_SIZE := 8192
  const MESSAGE_MAX := 127
  const REPORT_ROOM := 48

  const OVERFLOW_TEXT := "[USB] CDC log queue overflow; messages dropped\r\n"

  const OVERFLOW_REPORT: seq<byte> := Ascii(OVERFLOW_TEXT)

  /** The bytes that wait, those the endpoint took, and whether a message was lost. */
  datatype Log = Log(waiting: seq<byte>, delivered: seq<byte>, overflowed: bool)

  /** The formatting buffer keeps this much of a text. */
  function Cut(text: seq<byte>): seq<byte> {
    if |text| > MESSAGE_MAX then text[..MESSAGE_MAX] else text
  }

  predicate Fits(log: Log, text: seq<byte>) {
    |Cut(text)| <= RING_SIZE - |log.waiting|
  }

  /** A message is taken whole or not at all. */
  function Printed(log: Log, connected: bool, text: seq<byte>): Log {
    if !connected then log
    else if Fits(log, text) then log.(waiting := log.waiting + Cut(text))
    else log.(overflowed := true)
  }

  function Taken(log: Log, n: nat): Log
    requires n <= |log.waiting|
  {
    log.(waiting := log.waiting[n..], delivered := log.delivered + log.waiting[..n])
  }

  predicate ReportDue(log: Log) {
    log.overflowed && |log.waiting| < RING_SIZE - REPORT_ROOM
  }

  /** One turn of the USB task: the endpoint takes `n` bytes; then a loss is reported once there is room. */
  function Tasked(log: Log, connected: bool, n: nat, still: bool): Log
    requires n <= |log.waiting|
  {
    if !connected then log
    else
      var drained := Taken(log, n);
      if ReportDue(drained) then Printed(drained.(overflowed := false), still, OVERFLOW_REPORT) else drained
  }

  // ------------------------------------------------------------------------
  // Runs

  datatype Event =
    | Print(connected: bool, text: seq<byte>)
    | Task(connected: bool, taken: nat, still: bool)

  function Step(log: Log, e: Event): Log {
    match e
    case Print(connected, text) => Printed(log, connected, text)
    case Task(connected, taken, still) =>
      Tasked(log, connected, if taken <= |log.waiting| then taken else |log.waiting|, still)
  }

  function Run(log: Log, events: seq<Event>): Log
    decreases |events|
  {
    if events == [] then log else Run(Step(log, events[0]), events[1..])
  }

  /** A text as the formatting buffer keeps it: at most 127 bytes. */
  function Message(text: seq<byte>): seq<byte> {
    if |text| > 127 then text[..127] else text
  }

  /**
   What an event adds to the log: a message that fits the 8192 bytes, or the
   report of a loss when a turn leaves more than 48 of them free.
   */
  function Accepted(log: Log, e: Event): seq<byte> {
    match e
    case Print(connected, text) =>
      if connected && |log.waiting| + |Message(text)| <= 8192 then Message(text) else []
    case Task(connected, taken, still) =>
      if connected && still && log.overflowed && |log.waiting| - taken < 8192 - 48
      then Ascii("[USB] CDC log queue overflow; messages dropped\r\n") else []
  }

  function AllAccepted(log: Log, events: seq<Event>): seq<byte>
    decreases |events|
  {
    if events == [] then [] else Accepted(log, events[0]) + AllAccepted(Step(log, events[0]), events[1..])
  }

  /** A due report always finds room, and is never cut. */
  lemma ReportFits(log: Log)
    requires ReportDue(log)
    ensures Fits(log, OVERFLOW_REPORT) && Cut(OVERFLOW_REPORT) == OVERFLOW_REPORT && |OVERFLOW_REPORT| == 48
    ensures Fits(log.(overflowed := false), OVERFLOW_REPORT)
    ensures |log.waiting| + 48 <= RING_SIZE
  {
  }

  /** A loss is recorded exactly when a message does not fit, until a turn has room for the report. */
  lemma LossIsRecorded(log: Log, e: Event)
    requires |log.waiting| <= RING_SIZE
    ensures Step(log, e).overflowed
         == match e
            case Print(connected, text) =>
              log.overflowed || (connected && |log.waiting| + |Message(text)| > 8192)
            case Task(connected, taken, _) =>
              log.overflowed && (!connected || (taken <= |log.waiting| && |log.waiting| - taken >= 8192 - 48))
  {
    hide OVERFLOW_REPORT;
    if e.Task? {
      var n := if e.taken <= |log.waiting| then e.taken else |log.waiting|;
      TakingIsFifo(log, n);
      if ReportDue(Taken(log, n)) { ReportFits(Taken(log, n)); }
      hide Taken;
    }
  }

  lemma ReportText()
    ensures OVERFLOW_REPORT == Ascii("[USB] CDC log queue overflow; messages dropped\r\n")
  {
    hide Ascii;
  }

  lemma AcceptedByTask(log: Log, e: Event)
    requires e.Task?
    ensures var drained := Taken(log, if e.taken <= |log.waiting| then e.taken else |log.waiting|);
            Accepted(log, e) == if e.connected && e.still && ReportDue(drained) then OVERFLOW_REPORT else []
  {
    ReportText();
    TakingIsFifo(log, if e.taken <= |log.waiting| then e.taken else |log.waiting|);
    hide OVERFLOW_REPORT, Ascii, Taken;
  }

  lemma TaskIsFifo(log: Log, connected: bool, n: nat, still: bool)
    requires |log.waiting| <= RING_SIZE && n <= |log.waiting|
    ensures var next := Tasked(log, connected, n, still);
            var said := if connected && still && ReportDue(Taken(log, n)) then OVERFLOW_REPORT else [];
            && next.delivered + next.waiting == log.delivered + log.waiting + said
            && log.delivered <= next.delivered && |next.waiting| <= RING_SIZE
  {
    TakingIsFifo(log, n);
    if ReportDue(Taken(log, n)) { ReportFits(Taken(log, n)); }
    hide ReportDue, OVERFLOW_REPORT, Cut, Taken;
  }

  lemma StepIsFifo(log: Log, e: Event)
    requires |log.waiting| <= RING_SIZE
    ensures Step(log, e).delivered + Step(log, e).waiting == log.delivered + log.waiting + Accepted(log, e)
    ensures log.delivered <= Step(log, e).delivered && |Step(log, e).waiting| <= RING_SIZE
  {
    match e
    case Task(connected, taken, still) =>
      AcceptedByTask(log, e);
      TaskIsFifo(log, connected, if taken <= |log.waiting| then taken else |log.waiting|, still);
      hide Tasked, Accepted, ReportDue, OVERFLOW_REPORT;
    case Print(_, _) =>
  }

  lemma TakingIsFifo(log: Log, n: nat)
    requires n <= |log.waiting|
    ensures var taken := Taken(log, n);
            && taken.delivered + taken.waiting == log.delivered + log.waiting
            && log.delivered <= taken.delivered && |taken.waiting| == |log.waiting| - n
            && taken.overflowed == log.overflowed
  {
  }

  /**
   First in, first out on every run: what the endpoint took, followed by what
   waits, is the accepted messages in order, and nothing taken is ever changed.
   */
  lemma {:induction false} LogIsFifo(log: Log, events: seq<Event>)
    requires |log.waiting| <= RING_SIZE
    ensures var after := Run(log, events);
            && after.delivered + after.waiting == log.delivered + log.waiting + AllAccepted(log, events)
            && log.delivered <= after.delivered && |after.waiting| <= RING_SIZE
    decreases |events|
  {
    if events != [] {
      var next := Step(log, events[0]);
      StepIsFifo(log, events[0]);
      LogIsFifo(next, events[1..]);
      assert log.delivered + log.waiting + Accepted(log, events[0]) + AllAccepted(next, events[1..])
          == log.delivered + log.waiting + AllAccepted(log, events);
    }
  }

  /**
   Event `k` takes the loss off the record: it is a turn that puts the overflow
   report in the log, or the host leaves in the middle of the turn.
   */
  predicate Reports(log: Log, events: seq<Event>, k: nat)
    requires k < |events|
  {
    var before, after := Run(log, events[..k]), Run(log, events[..k + 1]);
    && before.overflowed && !after.overflowed
    && events[k].Task? && events[k].connected
    && (events[k].still ==>
          Accepted(before, events[k]) == Ascii("[USB] CDC log queue overflow; messages dropped\r\n"))
  }

  lemma RunOfOne(log: Log, event: Event)
    ensures Run(log, [event]) == Step(log, event)
  {
    assert [event][1..] == [];
  }

  /** Whatever takes a loss off the record reports it, and only a due report does. */
  lemma OneReport(log: Log, event: Event)
    requires log.overflowed && !Step(log, event).overflowed
    ensures event.Task? && event.connected
    ensures event.still ==> Accepted(log, event) == Ascii("[USB] CDC log queue overflow; messages dropped\r\n")
  {
    hide Ascii, OVERFLOW_REPORT;
  }

  /** A lost message stays on record until the report of the loss is in the log. */
  lemma {:induction false} LossIsReported(log: Log, events: seq<Event>) returns (k: nat)
    requires |log.waiting| <= RING_SIZE && log.overflowed && !Run(log, events).overflowed
    ensures k < |events| && Reports(log, events, k)
    decreases |events|
  {
    hide Step, Accepted;
    var next := Step(log, events[0]);
    RunOfOne(log, events[0]);
    assert events[..1] == [events[0]] && events[..0] == [];
    if next.overflowed {
      StepIsFifo(log, events[0]);
      var rest := LossIsReported(next, events[1..]);
      k := rest + 1;
      assert events[..k][1..] == events[1..][..rest] && events[..k][0] == events[0];
      assert events[..k + 1][1..] == events[1..][..rest + 1] && events[..k + 1][0] == events[0];
    } else {
      k := 0;
      OneReport(log, events[0]);
    }
  }

  // ------------------------------------------------------------------------
  // The ring

  /** What the endpoint says in one turn of the drain loop: twice its room, and how much it takes. */
  datatype Turn = Turn(room: nat, space: nat, accepts: nat)

  function Min(a: nat, b: nat): nat {
    if a < b then a else b
  }

  predicate TakesNothing(turn: Turn) {
    turn.room == 0 || turn.space == 0 || turn.accepts == 0
  }

  lemma TakenNone(log: Log)
    ensures Taken(log, 0) == log
  {
  }

  lemma TakenTwice(log: Log, m: nat, n: nat)
    requires m + n <= |log.waiting|
    ensures |Taken(log, m).waiting| == |log.waiting| - m
    ensures Taken(Taken(log, m), n) == Taken(log, m + n)
    ensures log.waiting[..m] + Taken(log, m).waiting[..n] == log.waiting[..m + n]
  {
  }

  /** The cell of the byte that is `i` places behind the oldest. */
  function Cell(head: nat, i: nat): (cell: nat)
    ensures head < RING_SIZE && i <= RING_SIZE ==> cell < RING_SIZE
  {
    if head + i < RING_SIZE then head + i else head + i - RING_SIZE
  }

  lemma CellIsRemainder(head: nat, i: nat)
    requires head < RING_SIZE && i <= RING_SIZE
    ensures Cell(head, i) == (head + i) % RING_SIZE
  {
  }

  class Ring {
    const buffer: array<byte>
    var head: nat
    var count: nat
    var overflowed: bool
    ghost var log: Log

    ghost predicate Valid()
      reads this, buffer
    {
      && buffer.Length == RING_SIZE && head < RING_SIZE && count <= RING_SIZE
      && |log.waiting| == count && overflowed == log.overflowed
      && forall i | 0 <= i < count :: log.waiting[i] == buffer[Cell(head, i)]
    }

    constructor ()
      ensures Valid() && log == Log([], [], false) && fresh(buffer)
    {
      buffer := new byte[RING_SIZE](_ => 0);
      head, count, overflowed := 0, 0, false;
      log := Log([], [], false);
    }

    method Printf(connected: bool, text: seq<byte>)
      requires Valid()
      modifies this, buffer
      ensures Valid() && log == Printed(old(log), connected, text)
    {
      if !connected || |text| == 0 {
        return;
      }
      var message := Cut(text);
      if |message| > RING_SIZE - count {
        overflowed := true;
        log := log.(overflowed := true);
        return;
      }
      ghost var before := log;
      var i := 0;
      while i < |message|
        invariant Valid() && 0 <= i <= |message| && count == |before.waiting| + i
        invariant log == before.(waiting := before.waiting + message[..i])
      {
        Enqueue(message[i]);
        i := i + 1;
      }
    }

    method Enqueue(b: byte)
      requires Valid() && count < RING_SIZE
      modifies this, buffer
      ensures Valid() && log == old(log).(waiting := old(log.waiting) + [b])
    {
      CellIsRemainder(head, count);
      var tail := (head + count) % RING_SIZE;
      buffer[tail] := b;
      log := log.(waiting := log.waiting + [b]);
      count := count + 1;
    }

    /** The endpoint takes bytes from the oldest on, as far as the ring runs straight. */
    method Write(n: nat) returns (sent: seq<byte>)
      requires Valid() && n <= count && head + n <= RING_SIZE
      modifies this
      ensures Valid() && log == Taken(old(log), n) && sent == old(log.waiting[..n])
      ensures count == old(count) - n
    {
      CellIsRemainder(head, n);
      sent := buffer[head..head + n];
      assert forall i | 0 <= i < n :: sent[i] == buffer[Cell(head, i)];
      head := (head + n) % RING_SIZE;
      count := count - n;
      log := Taken(log, n);
    }

    /** `host` answers turn by turn; `sent` is what the endpoint took, in order. */
    method Task(connected: bool, host: nat -> Turn, still: bool) returns (sent: seq<byte>)
      requires Valid()
      modifies this, buffer
      ensures |sent| <= |old(log.waiting)| && sent == old(log.waiting)[..|sent|]
      ensures Valid() && log == Tasked(old(log), connected, |sent|, still)
      ensures connected && sent != old(log.waiting) ==> exists i :: 0 <= i <= |sent| && TakesNothing(host(i))
    {
      hide Taken, Printed;
      if !connected {
        return [];
      }
      sent := Drain(host);
      if overflowed && count < RING_SIZE - REPORT_ROOM {
        overflowed := false;
        log := log.(overflowed := false);
        Printf(still, OVERFLOW_REPORT);
      }
    }

    /** The loop of a turn: it goes on until the ring is empty or the endpoint takes nothing. */
    method Drain(host: nat -> Turn) returns (sent: seq<byte>)
      requires Valid()
      modifies this
      ensures |sent| <= |old(log.waiting)| && sent == old(log.waiting)[..|sent|]
      ensures Valid() && log == Taken(old(log), |sent|)
      ensures sent != old(log.waiting) ==> exists i :: 0 <= i <= |sent| && TakesNothing(host(i))
    {
      hide Taken;
      ghost var before := log;
      sent := [];
      TakenNone(log);
      var turn := 0;
      while count != 0 && host(turn).room != 0
        invariant Valid() && 0 <= turn <= |sent| && |sent| + count == |before.waiting|
        invariant sent == before.waiting[..|sent|] && log == Taken(before, |sent|)
        decreases count
      {
        var contiguous := Min(RING_SIZE - head, count);
        contiguous := Min(contiguous, host(turn).space);
        var written := Min(contiguous, host(turn).accepts);
        if written == 0 {
          break;
        }
        TakenTwice(before, |sent|, written);
        var chunk := Write(written);
        sent := sent + chunk;
        turn := turn + 1;
      }
      assert count != 0 ==> TakesNothing(host(turn));
    }
  }
}
