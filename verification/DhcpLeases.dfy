/** The lease table: 16-bit expiries on a millisecond clock that wraps, and who may hold a slot. */
module DhcpLeases {
  import opened Basics

  const SLOTS := 8
  const LEASE_MS := 86_400_000
  const WRAP := 0x1_0000_0000
  const HALF := 0x8000_0000

  type Mac = m: seq<byte> | |m| == 6 witness [0, 0, 0, 0, 0, 0]

  const NO_MAC: Mac := [0, 0, 0, 0, 0, 0]

  datatype Lease = Lease(mac: Mac, expiry: uint16)

  type Table = t: seq<Lease> | |t| == SLOTS
    witness seq(SLOTS, _ => Lease(NO_MAC, 0))

  // ------------------------------------------------------------------------
  // Expiry

  /** What the 32-bit millisecond clock shows at true time `t`. */
  function Clock(t: nat): uint32 {
    t % WRAP
  }

  /** The upper half of the wrapped end of a lease that starts when the clock shows `clock`. */
  function Stored(clock: uint32): uint16 {
    (clock + LEASE_MS) % WRAP / 0x1_0000
  }

  /** The sign of a 32-bit difference; the lost half of the expiry counts as all ones. */
  predicate Expired(expiry: uint16, clock: uint32) {
    (expiry * 0x1_0000 + 0xffff - clock) % WRAP >= HALF
  }

  /** How much longer than the lease time a lease from `t` counts as live. */
  function Slack(t: nat): (slack: nat)
    ensures slack <= 0xffff
  {
    0xffff - (t + LEASE_MS) % 0x1_0000
  }

  lemma StoredEnd(t: nat)
    ensures (Stored(Clock(t)) * 0x1_0000 + 0xffff) % WRAP == (t + LEASE_MS + Slack(t)) % WRAP
  {
    var end := t + LEASE_MS;
    var q, r := end / WRAP, end % WRAP;
    Multiple(end, -(t / WRAP));
    assert Clock(t) + LEASE_MS == end + -(t / WRAP) * WRAP;
    LowHalf(r, q);
    UpperHalf(r);
    hide Clock, Slack;
    Multiple(r + (0xffff - r % 0x1_0000), q);
  }

  lemma LowHalf(r: int, q: int)
    ensures (r + q * WRAP) % 0x1_0000 == r % 0x1_0000
  {
    var high, low := r / 0x1_0000, r % 0x1_0000;
    assert r + q * WRAP == (high + q * 0x1_0000) * 0x1_0000 + low;
    LowPart(high + q * 0x1_0000, low);
  }

  lemma LowPart(high: int, low: int)
    requires 0 <= low < 0x1_0000
    ensures (high * 0x1_0000 + low) % 0x1_0000 == low
  {
  }

  lemma UpperHalf(r: nat)
    ensures r / 0x1_0000 * 0x1_0000 + 0xffff == r + (0xffff - r % 0x1_0000)
  {
  }

  /**
   The exact condition for every age and across every wrap of the clock: the
   test looks at the time that is left, slack included, modulo one wrap.
   */
  lemma ExpiryIsExact(t: nat, d: nat)
    ensures Expired(Stored(Clock(t)), Clock(t + d)) <==> (LEASE_MS + Slack(t) - d) % WRAP >= HALF
  {
    StoredEnd(t);
    Difference(Stored(Clock(t)) * 0x1_0000 + 0xffff, t + LEASE_MS + Slack(t), t + d);
  }

  /**
   A lease granted at `t` counts as expired at `t + d` exactly when it lies in
   one of the half wraps behind its end, one in each wrap: so an expired lease
   stays expired for half a wrap and no longer.
   */
  lemma ExpiryWindows(t: nat, d: nat)
    ensures Expired(Stored(Clock(t)), Clock(t + d))
       <==> exists n: nat :: LEASE_MS + Slack(t) + n * WRAP < d <= LEASE_MS + Slack(t) + n * WRAP + HALF
  {
    ExpiryIsExact(t, d);
    var past := d - LEASE_MS - Slack(t);
    hide Expired, Stored, Clock, Slack;
    RemainderWindows(past);
    if n: nat :| n * WRAP < past <= n * WRAP + HALF {
      assert LEASE_MS + Slack(t) + n * WRAP < d <= LEASE_MS + Slack(t) + n * WRAP + HALF;
    }
  }

  lemma RemainderWindows(past: int)
    requires past > -HALF
    ensures (-past) % WRAP >= HALF <==> exists n: nat :: n * WRAP < past <= n * WRAP + HALF
  {
    if (-past) % WRAP >= HALF {
      var n := (past - 1) / WRAP;
      assert past - 1 == n * WRAP + (past - 1) % WRAP;
      Multiple(WRAP - 1 - (past - 1) % WRAP, -n - 1);
      assert -past == (WRAP - 1 - (past - 1) % WRAP) + (-n - 1) * WRAP;
      if past <= 0 { Multiple(-past, 0); }
      assert n * WRAP < past <= n * WRAP + HALF;
    }
    if n: nat :| n * WRAP < past <= n * WRAP + HALF {
      var k: int := n;
      Multiple(WRAP - (past - k * WRAP), -k - 1);
      assert -past == (WRAP - (past - k * WRAP)) + (-k - 1) * WRAP;
    }
  }

  lemma Difference(x: int, y: int, t: nat)
    requires x % WRAP == y % WRAP
    ensures (x - Clock(t)) % WRAP == (y - t) % WRAP
  {
    var k := x / WRAP - y / WRAP;
    assert x == y + k * WRAP;
    var n := t / WRAP;
    assert t == n * WRAP + Clock(t);
    assert x - Clock(t) == (y - t) + (k + n) * WRAP;
    Multiple(y - t, k + n);
  }

  lemma {:induction false} Multiple(x: int, k: int)
    ensures (x + k * WRAP) % WRAP == x % WRAP
  {
  }

  lemma ExpiryBounds(t: nat, d: nat)
    ensures d <= 86_400_000 ==> !Expired(Stored(Clock(t)), Clock(t + d))
    ensures 86_400_000 + 0x1_0000 <= d <= 86_400_000 + 0x8000_0000 ==> Expired(Stored(Clock(t)), Clock(t + d))
  {
    hide Expired, Stored, Clock, Slack;
    ExpiryIsExact(t, d);
    var left := LEASE_MS + Slack(t) - d;
    if left < 0 { Multiple(left, 1); }
  }

  /** The stale expiry of a slot that nobody asks about looks live again in the other half of every wrap. */
  lemma ExpiryComesBack(t: nat, d: nat, n: nat)
    requires LEASE_MS + Slack(t) + n * WRAP + HALF < d <= LEASE_MS + Slack(t) + (n + 1) * WRAP
    ensures !Expired(Stored(Clock(t)), Clock(t + d))
  {
    hide Expired, Stored, Clock, Slack;
    ExpiryIsExact(t, d);
    Multiple(LEASE_MS + Slack(t) - d, n + 1);
  }

  // ------------------------------------------------------------------------
  // The two messages that the server handles

  /** The first of slots `i..` that has the address. */
  function Matching(table: Table, mac: Mac, i: nat): (slot: nat)
    requires i <= SLOTS
    ensures i <= slot <= SLOTS
    ensures slot < SLOTS ==> table[slot].mac == mac
    ensures forall j | i <= j < slot :: table[j].mac != mac
    decreases SLOTS - i
  {
    if i == SLOTS || table[i].mac == mac then i else Matching(table, mac, i + 1)
  }

  /** The slot is free, or its lease has expired when the server looks at it. */
  predicate Reusable(lease: Lease, time: nat) {
    lease.mac == NO_MAC || Expired(lease.expiry, Clock(time))
  }

  type Times = t: seq<nat> | |t| == SLOTS && forall i, j | 0 <= i < j < SLOTS :: t[i] <= t[j]
    witness seq(SLOTS, _ => 0)

  /** The first reusable one of slots `i..`; slot `j` is looked at when true time is `times[j]`. */
  function FirstReusable(table: Table, times: Times, i: nat): (slot: nat)
    requires i <= SLOTS
    ensures i <= slot <= SLOTS
    ensures slot < SLOTS ==> Reusable(table[slot], times[slot])
    ensures forall j | i <= j < slot :: !Reusable(table[j], times[j])
    decreases SLOTS - i
  {
    if i == SLOTS || Reusable(table[i], times[i]) then i else FirstReusable(table, times, i + 1)
  }

  /**
   DISCOVER: the slot to offer, and the table. The client's own slot wins, but a
   reusable slot before it is cleared all the same.
   */
  function Discovered(table: Table, mac: Mac, times: Times): (r: (Table, nat))
    ensures r.1 <= SLOTS
  {
    var own, spare := Matching(table, mac, 0), FirstReusable(table, times, 0);
    if own <= spare then (table, own)
    else (table[spare := table[spare].(mac := NO_MAC)], if own < SLOTS then own else spare)
  }

  /** REQUEST of a slot: whether it is granted, and the table. */
  function Requested(table: Table, mac: Mac, slot: nat, time: nat): (Table, bool)
    requires slot < SLOTS
  {
    if table[slot].mac != mac && table[slot].mac != NO_MAC then (table, false)
    else (table[slot := Lease(mac, Stored(Clock(time)))], true)
  }

  // ------------------------------------------------------------------------
  // Runs

  datatype Message =
    | Discover(mac: Mac, times: Times)
    | Request(mac: Mac, slot: nat, time: nat)
    | Ignored(time: nat)

  function First(m: Message): nat {
    match m case Discover(_, times) => times[0] case Request(_, _, t) => t case Ignored(t) => t
  }

  function Last(m: Message): nat {
    match m case Discover(_, times) => times[SLOTS - 1] case Request(_, _, t) => t case Ignored(t) => t
  }

  predicate InTable(m: Message) {
    m.Request? ==> m.slot < SLOTS
  }

  function Next(table: Table, m: Message): Table
    requires InTable(m)
  {
    match m
    case Discover(mac, times) => Discovered(table, mac, times).0
    case Request(mac, slot, time) => Requested(table, mac, slot, time).0
    case Ignored(_) => table
  }

  /** The server acknowledges `slot` to `mac`. */
  predicate Granted(table: Table, m: Message, mac: Mac, slot: nat)
    requires InTable(m) && slot < SLOTS
  {
    m.Request? && m.mac == mac && m.slot == slot && Requested(table, mac, slot, m.time).1
  }

  /** Messages that arrive one after the other, none before `now`. */
  predicate InOrder(messages: seq<Message>, now: nat) {
    messages == []
    || (InTable(messages[0]) && now <= First(messages[0]) && InOrder(messages[1..], Last(messages[0])))
  }

  function Run(table: Table, messages: seq<Message>, now: nat): Table
    requires InOrder(messages, now)
    decreases |messages|
  {
    if messages == [] then table
    else Run(Next(table, messages[0]), messages[1..], Last(messages[0]))
  }

  /** The slot belongs to `mac`, with a lease from `granted` or later. */
  ghost predicate HeldSince(table: Table, mac: Mac, slot: nat, granted: nat, now: nat)
    requires slot < SLOTS
  {
    table[slot].mac == mac
    && exists t :: granted <= t <= now && table[slot].expiry == Stored(Clock(t))
  }

  lemma GrantedIsHeld(table: Table, m: Message, mac: Mac, slot: nat)
    requires InTable(m) && slot < SLOTS && Granted(table, m, mac, slot)
    ensures HeldSince(Next(table, m), mac, slot, First(m), Last(m))
  {
  }

  lemma ReadsAreInOrder(times: Times, i: nat)
    requires i < SLOTS
    ensures times[0] <= times[i] <= times[SLOTS - 1]
  {
  }

  /** Within the lease time no message takes a held slot away. */
  lemma HeldIsKept(table: Table, m: Message, mac: Mac, slot: nat, granted: nat, now: nat)
    requires InTable(m) && slot < SLOTS && mac != NO_MAC
    requires HeldSince(table, mac, slot, granted, now)
    requires now <= First(m) && Last(m) <= granted + LEASE_MS
    ensures HeldSince(Next(table, m), mac, slot, granted, Last(m))
  {
    hide Expired, Stored, Clock;
    var t :| granted <= t <= now && table[slot].expiry == Stored(Clock(t));
    match m
    case Discover(_, times) =>
      ReadsAreInOrder(times, slot);
      ExpiryBounds(t, times[slot] - t);
      assert !Reusable(table[slot], times[slot]);
    case Request(_, _, _) =>
    case Ignored(_) =>
  }

  /** A held slot is only granted to its holder. */
  lemma {:induction false} HeldIsExclusive(table: Table, messages: seq<Message>, last: Message,
                                           mac: Mac, other: Mac, slot: nat, granted: nat, now: nat)
    requires slot < SLOTS && mac != NO_MAC && HeldSince(table, mac, slot, granted, now)
    requires InOrder(messages + [last], now) && InTable(last) && First(last) <= granted + LEASE_MS
    ensures InOrder(messages, now)
    ensures Granted(Run(table, messages, now), last, other, slot) ==> other == mac
    decreases |messages|
  {
    if messages != [] {
      var m := messages[0];
      assert (messages + [last])[1..] == messages[1..] + [last];
      LastIsLate(messages[1..], last, Last(m));
      HeldIsKept(table, m, mac, slot, granted, now);
      HeldIsExclusive(Next(table, m), messages[1..], last, mac, other, slot, granted, Last(m));
    }
  }

  lemma {:induction false} LastIsLate(messages: seq<Message>, last: Message, now: nat)
    requires InOrder(messages + [last], now)
    ensures now <= First(last)
    decreases |messages|
  {
    if messages != [] {
      var m := messages[0];
      assert (messages + [last])[1..] == messages[1..] + [last];
      if m.Discover? { ReadsAreInOrder(m.times, 0); }
      LastIsLate(messages[1..], last, Last(m));
    }
  }

  /**
   Whatever the table was: once a slot is acknowledged to a real address, no
   messages make the server acknowledge it to another one within the lease time.
   */
  lemma LeasesAreExclusive(table: Table, grant: Message, messages: seq<Message>, last: Message,
                           mac: Mac, other: Mac, slot: nat, now: nat)
    requires slot < SLOTS && mac != NO_MAC && InOrder([grant] + messages + [last], now)
    requires InTable(grant) && InTable(last)
    requires Granted(table, grant, mac, slot) && First(last) <= First(grant) + LEASE_MS
    ensures InOrder([grant] + messages, now)
    ensures Granted(Run(table, [grant] + messages, now), last, other, slot) ==> other == mac
  {
    assert ([grant] + messages + [last])[1..] == messages + [last];
    assert ([grant] + messages)[1..] == messages;
    GrantedIsHeld(table, grant, mac, slot);
    HeldIsExclusive(Next(table, grant), messages, last, mac, other, slot, First(grant), Last(grant));
  }

  /** The slot is the client's own or nobody's. */
  predicate OpenTo(table: Table, mac: Mac, slot: nat)
    requires slot < SLOTS
  {
    table[slot].mac == mac || table[slot].mac == NO_MAC
  }

  /** None of the messages makes the server grant the slot to another client. */
  predicate NeverTaken(table: Table, messages: seq<Message>, mac: Mac, slot: nat, now: nat)
    requires slot < SLOTS && InOrder(messages, now)
    decreases |messages|
  {
    messages == []
    || (&& (messages[0].Request? && Granted(table, messages[0], messages[0].mac, slot) ==> messages[0].mac == mac)
        && NeverTaken(Next(table, messages[0]), messages[1..], mac, slot, Last(messages[0])))
  }

  /** An offer stands: until the slot is granted to someone else, a request for it is granted. */
  lemma {:induction false} OfferStands(table: Table, messages: seq<Message>, mac: Mac, slot: nat, now: nat,
                                       time: nat)
    requires slot < SLOTS && InOrder(messages, now) && OpenTo(table, mac, slot)
    requires NeverTaken(table, messages, mac, slot, now)
    ensures Granted(Run(table, messages, now), Request(mac, slot, time), mac, slot)
    decreases |messages|
  {
    if messages != [] {
      OfferStands(Next(table, messages[0]), messages[1..], mac, slot, Last(messages[0]), time);
    }
  }

  lemma OfferIsHonoured(table: Table, mac: Mac, times: Times, messages: seq<Message>, time: nat)
    requires Discovered(table, mac, times).1 < SLOTS && InOrder(messages, times[SLOTS - 1])
    requires var (after, slot) := Discovered(table, mac, times);
             NeverTaken(after, messages, mac, slot, times[SLOTS - 1])
    ensures var (after, slot) := Discovered(table, mac, times);
            Granted(Run(after, messages, times[SLOTS - 1]), Request(mac, slot, time), mac, slot)
  {
    var (after, slot) := Discovered(table, mac, times);
    assert OpenTo(after, mac, slot);
    OfferStands(after, messages, mac, slot, times[SLOTS - 1], time);
  }

  /** The server turns a client away exactly when every slot is leased to somebody else and live. */
  lemma RefusesWhenFull(table: Table, mac: Mac, times: Times)
    ensures Discovered(table, mac, times).1 == SLOTS
       <==> forall i | 0 <= i < SLOTS ::
              table[i].mac != mac && table[i].mac != NO_MAC && !Expired(table[i].expiry, Clock(times[i]))
  {
    hide Expired, Clock;
    assert forall i | 0 <= i < SLOTS ::
        Reusable(table[i], times[i]) <==> table[i].mac == NO_MAC || Expired(table[i].expiry, Clock(times[i]));
  }

  /**
   A client is offered the first slot of its own, else the first one that is
   free or expired, and none otherwise.
   */
  lemma OfferedSlot(table: Table, mac: Mac, times: Times, slot: nat)
    requires slot < 8
    ensures Discovered(table, mac, times).1 == slot
       <==> if exists i :: 0 <= i < 8 && table[i].mac == mac
            then table[slot].mac == mac && forall i | 0 <= i < slot :: table[i].mac != mac
            else MayReuse(table[slot], times[slot]) && forall i | 0 <= i < slot :: !MayReuse(table[i], times[i])
  {
    hide Expired, Clock;
    assert Matching(table, mac, 0) < 8 <==> exists i :: 0 <= i < 8 && table[i].mac == mac;
  }

  predicate MayReuse(lease: Lease, time: nat) {
    lease.mac == [0, 0, 0, 0, 0, 0] || Expired(lease.expiry, Clock(time))
  }

  /** A DISCOVER takes no lease from anybody but an expired one, which is free afterwards, and grants none. */
  lemma DiscoverClearsExpired(table: Table, mac: Mac, times: Times, slot: nat)
    requires slot < 8
    ensures var after := Discovered(table, mac, times).0;
            after[slot] != table[slot] ==>
              && Expired(table[slot].expiry, Clock(times[slot]))
              && after[slot].mac == [0, 0, 0, 0, 0, 0]
              && table[slot].mac != mac
              && forall i | 0 <= i < slot :: table[i].mac != mac && after[i] == table[i]
  {
    hide Expired, Clock;
  }
}
