/** The circular queue of keyboard reports that wait for the USB host. */
module ReportQueue {
  import opened Basics

  const QUEUE_SIZE := 64

  type Keycodes = k: seq<byte> | |k| == 6 witness [0, 0, 0, 0, 0, 0]

  datatype Report = Report(modifier: byte, keycodes: Keycodes)

  const RELEASED := Report(0, [0, 0, 0, 0, 0, 0])

  /** The reports that wait, oldest first, and the last one the host took. */
  datatype Keys = Keys(pending: seq<Report>, sent: Report)

  const NO_KEYS := Keys([], RELEASED)

  /** A full queue drops its stale reports before it takes a new one. */
  function Sent(keys: Keys, report: Report): Keys {
    keys.(pending := (if |keys.pending| == QUEUE_SIZE then [] else keys.pending) + [report])
  }

  function AllReleased(keys: Keys): Keys {
    keys.(pending := [RELEASED])
  }

  /** One turn of the USB task: the host may take the oldest report. */
  function Drained(keys: Keys, taken: bool): Keys {
    if keys.pending == [] || !taken then keys
    else Keys(keys.pending[1..], keys.pending[0])
  }

  /** What the host will believe once it has taken everything. */
  function Newest(keys: Keys): Report {
    if keys.pending == [] then keys.sent else keys.pending[|keys.pending| - 1]
  }

  lemma DrainingKeepsNewest(keys: Keys, taken: bool)
    ensures Newest(Drained(keys, taken)) == Newest(keys)
  {
  }

  lemma SendingIsNewest(keys: Keys, report: Report)
    ensures Newest(Sent(keys, report)) == report
    ensures Newest(AllReleased(keys)) == RELEASED
    ensures |keys.pending| <= QUEUE_SIZE ==> |Sent(keys, report).pending| <= QUEUE_SIZE
  {
  }

  /** The cell of the report that is `i` places behind the oldest. */
  function Cell(head: nat, i: nat): nat {
    (head + i) % QUEUE_SIZE
  }

  lemma NextCell(head: nat, i: nat)
    requires head < QUEUE_SIZE && i < QUEUE_SIZE
    ensures Cell(Cell(head, 1), i) == Cell(head, i + 1)
  {
  }

  class Queue {
    const reports: array<Report>
    var head: nat
    var count: nat
    ghost var keys: Keys

    ghost predicate Valid()
      reads this, reports
    {
      && reports.Length == QUEUE_SIZE && head < QUEUE_SIZE && count <= QUEUE_SIZE
      && |keys.pending| == count
      && forall i | 0 <= i < count :: keys.pending[i] == reports[Cell(head, i)]
    }

    constructor ()
      ensures Valid() && keys == NO_KEYS && fresh(reports)
    {
      reports := new Report[QUEUE_SIZE](_ => RELEASED);
      head, count := 0, 0;
      keys := NO_KEYS;
    }

    method Send(report: Report)
      requires Valid()
      modifies this, reports
      ensures Valid() && keys == Sent(old(keys), report)
    {
      if count == QUEUE_SIZE {
        head := 0;
        count := 0;
      }
      var tail := Cell(head, count);
      reports[tail] := report;
      count := count + 1;
      keys := Sent(keys, report);
    }

    method Release()
      requires Valid()
      modifies this, reports
      ensures Valid() && keys == AllReleased(old(keys))
    {
      head := 0;
      count := 0;
      keys := keys.(pending := []);
      Send(RELEASED);
    }

    /** The host is ready and takes the report, or it stays queued. */
    method Drain(ready: bool, accepted: bool)
      requires Valid()
      modifies this
      ensures Valid() && keys == Drained(old(keys), ready && accepted)
    {
      if count != 0 && ready {
        if accepted {
          forall i | 0 <= i < count - 1
            ensures keys.pending[1..][i] == reports[Cell(Cell(head, 1), i)]
          {
            NextCell(head, i);
          }
          keys := Keys(keys.pending[1..], reports[head]);
          head := Cell(head, 1);
          count := count - 1;
        }
      }
    }
  }
}
