/** The DHCP server: from a packet on the wire to the reply, over the lease table. */
module DhcpServer {
  import opened Basics
  import opened DhcpLeases
  import opened DhcpOptions

  // Offsets in a message (RFC 2131, section 2, figure 1).
  const CIADDR := 12
  const YIADDR := 16
  const CHADDR := 28
  const OPTIONS := 240 // behind the magic cookie
  const MESSAGE_SIZE := 548
  const MIN_SIZE := 243
  const REPLY_SIZE := 300

  const MSG_TYPE: byte := 53
  const REQUESTED_IP: byte := 50
  const SERVER_ID: byte := 54
  const SUBNET_MASK: byte := 1
  const ROUTER: byte := 3
  const DNS: byte := 6
  const IP_LEASE_TIME: byte := 51

  const DISCOVER: byte := 1
  const OFFER: byte := 2
  const REQUEST: byte := 3
  const ACK: byte := 5

  const BASE_IP := 16
  const LEASE_S: uint32 := 86_400

  type Ip = a: seq<byte> | |a| == 4 witness [0, 0, 0, 0]

  /** The address of a slot shares the server's network part. */
  function AddressOf(ip: Ip, slot: nat): Ip
    requires slot < SLOTS
  {
    ip[..3] + [BASE_IP + slot]
  }

  /** A client names a slot by an address in the server's network. */
  function SlotOf(ip: Ip, address: seq<byte>): (slot: Option<nat>)
    ensures slot.Some? ==> slot.value < SLOTS && address == AddressOf(ip, slot.value)
    ensures slot.None? ==> forall s: nat | s < SLOTS :: address != AddressOf(ip, s)
  {
    if |address| == 4 && address[..3] == ip[..3] && BASE_IP <= address[3] < BASE_IP + SLOTS
    then assert address == address[..3] + [address[3]]; Some(address[3] - BASE_IP)
    else None
  }

  /** How much of a packet the message buffer takes. */
  function Kept(packet: seq<byte>): nat {
    if |packet| < MESSAGE_SIZE then |packet| else MESSAGE_SIZE
  }

  function OptionsOf(packet: seq<byte>): seq<Opt>
    requires |packet| >= MIN_SIZE
  {
    Read(packet[OPTIONS..Kept(packet)])
  }

  /** The address that a REQUEST asks for: the option, else the client's own address. */
  function AskedFor(packet: seq<byte>): seq<byte>
    requires |packet| >= MIN_SIZE
  {
    var asked := Lookup(OptionsOf(packet), REQUESTED_IP);
    if asked.Some? then asked.value else packet[CIADDR..CIADDR + 4]
  }

  /** What a packet asks of the lease table. */
  function MessageOf(packet: seq<byte>, ip: Ip, times: Times): (m: Message)
    ensures InTable(m)
  {
    if |packet| < MIN_SIZE then Ignored(times[0])
    else
      var kind := Lookup(OptionsOf(packet), MSG_TYPE);
      if kind == Some([DISCOVER]) then Discover(packet[CHADDR..CHADDR + 6], times)
      else if kind == Some([REQUEST]) then
        match SlotOf(ip, AskedFor(packet))
        case Some(slot) => Request(packet[CHADDR..CHADDR + 6], slot, times[0])
        case None => Ignored(times[0])
      else Ignored(times[0])
  }

  function ReplyOptions(kind: byte, ip: Ip, mask: Ip): (options: seq<Opt>)
    ensures WellFormed(options)
  {
    [Opt(MSG_TYPE, [kind]), Opt(SERVER_ID, ip), Opt(SUBNET_MASK, mask), Opt(ROUTER, ip), Opt(DNS, ip),
     Opt(IP_LEASE_TIME, BigEndian(LEASE_S))]
  }

  /** The bytes from the options on: a reply never fills the smallest size, so it is padded. */
  function ReplyTail(kind: byte, ip: Ip, mask: Ip): seq<byte> {
    Encode(ReplyOptions(kind, ip, mask)) + [END] + Zeros(26)
  }

  /** The request's own header with the opcode and the client's address filled in. */
  function Header(packet: seq<byte>, address: Ip): (header: seq<byte>)
    requires |packet| >= MIN_SIZE
    ensures |header| == OPTIONS
  {
    [OFFER] + packet[1..YIADDR] + address + packet[YIADDR + 4..OPTIONS]
  }

  function Reply(packet: seq<byte>, kind: byte, slot: nat, ip: Ip, mask: Ip): seq<byte>
    requires |packet| >= MIN_SIZE && slot < SLOTS
  {
    Header(packet, AddressOf(ip, slot)) + ReplyTail(kind, ip, mask)
  }

  function Answer(table: Table, packet: seq<byte>, ip: Ip, mask: Ip, times: Times): Option<seq<byte>> {
    match MessageOf(packet, ip, times)
    case Discover(mac, _) =>
      var slot := Discovered(table, mac, times).1;
      if slot < SLOTS then Some(Reply(packet, OFFER, slot, ip, mask)) else None
    case Request(mac, slot, time) =>
      if Requested(table, mac, slot, time).1 then Some(Reply(packet, ACK, slot, ip, mask)) else None
    case Ignored(_) => None
  }

  // ------------------------------------------------------------------------
  // How a reply is put together

  lemma EncodePrepends(o: Opt, rest: seq<Opt>)
    requires WellFormed([o] + rest)
    ensures WellFormed(rest) && Encode([o] + rest) == Bytes(o) + Encode(rest)
  {
    assert ([o] + rest)[1..] == rest;
    assert forall r | r in rest :: r in [o] + rest;
  }

  /** The options as the server writes them, one behind the other. */
  lemma EncodedReply(kind: byte, ip: Ip, mask: Ip)
    ensures Encode(ReplyOptions(kind, ip, mask))
         == Bytes(Opt(MSG_TYPE, [kind])) + Bytes(Opt(SERVER_ID, ip)) + Bytes(Opt(SUBNET_MASK, mask))
            + Bytes(Opt(ROUTER, ip)) + Bytes(Opt(DNS, ip)) + Bytes(Opt(IP_LEASE_TIME, BigEndian(LEASE_S)))
  {
    SixEncoded(ReplyOptions(kind, ip, mask));
  }

  lemma ThreeEncoded(all: seq<Opt>, i: nat)
    requires i + 3 <= |all| && WellFormed(all)
    ensures WellFormed(all[i..]) && WellFormed(all[i + 3..])
    ensures Encode(all[i..]) == Bytes(all[i]) + Bytes(all[i + 1]) + Bytes(all[i + 2]) + Encode(all[i + 3..])
  {
    hide Encode, Bytes;
    EncodedFrom(all, i);
    EncodedFrom(all, i + 1);
    EncodedFrom(all, i + 2);
  }

  lemma SixEncoded(all: seq<Opt>)
    requires |all| == 6 && WellFormed(all)
    ensures Encode(all) == Bytes(all[0]) + Bytes(all[1]) + Bytes(all[2]) + Bytes(all[3]) + Bytes(all[4]) + Bytes(all[5])
  {
    hide Encode, Bytes;
    ThreeEncoded(all, 0);
    ThreeEncoded(all, 3);
    EncodedNone(all[6..]);
    assert all[0..] == all;
    var last := Bytes(all[3]) + Bytes(all[4]) + Bytes(all[5]);
    assert last + [] == last;
    Regroup(Bytes(all[0]) + Bytes(all[1]) + Bytes(all[2]), Bytes(all[3]), Bytes(all[4]), Bytes(all[5]));
  }

  lemma EncodedNone(options: seq<Opt>)
    requires options == []
    ensures Encode(options) == []
  {
  }

  lemma EncodedFrom(all: seq<Opt>, i: nat)
    requires i < |all| && WellFormed(all)
    ensures WellFormed(all[i..]) && WellFormed(all[i + 1..])
    ensures Encode(all[i..]) == Bytes(all[i]) + Encode(all[i + 1..])
    ensures all[0..] == all
  {
    assert all[i..] == [all[i]] + all[i + 1..];
    EncodePrepends(all[i], all[i + 1..]);
  }

  lemma HeaderFields(packet: seq<byte>, address: Ip)
    requires |packet| >= MIN_SIZE
    ensures var header := Header(packet, address);
            && header[1..YIADDR] == packet[1..YIADDR]
            && header[CIADDR..CIADDR + 4] == packet[CIADDR..CIADDR + 4]
            && header[YIADDR..YIADDR + 4] == address
            && header[YIADDR + 4..] == packet[YIADDR + 4..OPTIONS]
            && header[CHADDR..CHADDR + 6] == packet[CHADDR..CHADDR + 6]
  {
    var header := Header(packet, address);
    assert header[1..YIADDR] == packet[1..YIADDR];
    assert header[YIADDR + 4..] == packet[YIADDR + 4..OPTIONS];
    assert header[CIADDR..CIADDR + 4] == header[1..YIADDR][11..15] == packet[CIADDR..CIADDR + 4];
    assert header[CHADDR..CHADDR + 6] == header[YIADDR + 4..][8..14];
    assert packet[CHADDR..CHADDR + 6] == packet[YIADDR + 4..OPTIONS][8..14];
  }

  lemma HeaderFilled(head: seq<byte>, packet: seq<byte>, address: Ip)
    requires |packet| >= MIN_SIZE && |head| == OPTIONS && head[0] == OFFER
    requires forall i | 1 <= i < OPTIONS ::
      head[i] == if YIADDR <= i < YIADDR + 4 then address[i - YIADDR] else packet[i]
    ensures head == Header(packet, address)
  {
    var header := Header(packet, address);
    forall i | 0 <= i < OPTIONS ensures head[i] == header[i] {}
  }

  lemma HeaderOfSlot(packet: seq<byte>, ip: Ip, slot: nat)
    requires |packet| >= MIN_SIZE && slot < SLOTS
    ensures Header(packet, ip)[YIADDR + 3 := BASE_IP + slot] == Header(packet, AddressOf(ip, slot))
  {
    var before, after := Header(packet, ip)[YIADDR + 3 := BASE_IP + slot], Header(packet, AddressOf(ip, slot));
    assert AddressOf(ip, slot) == ip[3 := BASE_IP + slot];
    forall i | 0 <= i < OPTIONS ensures before[i] == after[i] {}
  }

  // ------------------------------------------------------------------------
  // The server

  predicate IsKind(packet: seq<byte>, kind: byte) {
    |packet| >= MIN_SIZE && Lookup(OptionsOf(packet), MSG_TYPE) == Some([kind])
  }

  function Up(count: uint32): uint32 {
    (count + 1) % WRAP
  }

  class Server {
    const ip: Ip
    const mask: Ip
    const leases: array<Lease>
    var discoverCount: uint32
    var requestCount: uint32
    var ackCount: uint32

    ghost predicate Valid()
      reads this
    {
      leases.Length == SLOTS
    }

    function Leases(): Table
      requires Valid()
      reads this, leases
    {
      leases[..]
    }

    constructor (ip: Ip, mask: Ip)
      ensures Valid() && fresh(leases) && this.ip == ip && this.mask == mask
      ensures forall i | 0 <= i < SLOTS :: Leases()[i].mac == NO_MAC
    {
      this.ip, this.mask := ip, mask;
      leases := new Lease[SLOTS](_ => Lease(NO_MAC, 0));
      discoverCount, requestCount, ackCount := 0, 0, 0;
    }

    /** The slot for a DISCOVER; the scan clears the first expired lease it passes. */
    method FindSlot(mac: Mac, times: Times) returns (slot: nat)
      requires Valid()
      modifies leases
      ensures slot <= SLOTS && (Leases(), slot) == Discovered(old(Leases()), mac, times)
    {
      hide Expired, Clock;
      ghost var table := Leases();
      slot := SLOTS;
      var i := 0;
      while i < SLOTS
        invariant i <= SLOTS && slot <= SLOTS
        invariant i <= Matching(table, mac, 0)
        invariant slot == SLOTS ==> i <= FirstReusable(table, times, 0) && Leases() == table
        invariant slot < SLOTS ==> slot < i && slot == FirstReusable(table, times, 0)
        invariant slot < SLOTS ==> Leases() == table[slot := table[slot].(mac := NO_MAC)]
      {
        assert Leases()[i] == table[i];
        if leases[i].mac == mac {
          assert Matching(table, mac, 0) == i;
          return i;
        }
        if slot == SLOTS {
          if leases[i].mac == NO_MAC {
            slot := i;
          }
          if Expired(leases[i].expiry, Clock(times[i])) {
            leases[i] := leases[i].(mac := NO_MAC);
            slot := i;
          }
          assert slot == i <==> Reusable(table[i], times[i]);
          assert slot == i ==> FirstReusable(table, times, 0) == i;
        }
        i := i + 1;
      }
    }

    method Grant(mac: Mac, slot: nat, time: nat) returns (granted: bool)
      requires Valid() && slot < SLOTS
      modifies leases
      ensures (Leases(), granted) == Requested(old(Leases()), mac, slot, time)
    {
      if leases[slot].mac == mac {
      } else if leases[slot].mac == NO_MAC {
        leases[slot] := leases[slot].(mac := mac);
      } else {
        return false;
      }
      leases[slot] := leases[slot].(expiry := Stored(Clock(time)));
      assert Leases() == old(Leases())[slot := Lease(mac, Stored(Clock(time)))];
      return true;
    }

    method WriteOptions(msg: array<byte>, kind: byte) returns (at: nat)
      requires msg.Length == MESSAGE_SIZE
      modifies msg
      ensures at == OPTIONS + 33 && msg[..at] == old(msg[..OPTIONS]) + Encode(ReplyOptions(kind, ip, mask))
    {
      hide Bytes, Encode, BigEndian;
      EncodedReply(kind, ip, mask);
      at := WriteU8(msg, OPTIONS, MSG_TYPE, kind);
      at := WriteN(msg, at, SERVER_ID, ip);
      at := WriteN(msg, at, SUBNET_MASK, mask);
      at := WriteN(msg, at, ROUTER, ip);
      at := WriteN(msg, at, DNS, ip);
      at := WriteU32(msg, at, IP_LEASE_TIME, LEASE_S);
    }

    /** The options of a reply over the request's own, up to the padded end. */
    method Finish(msg: array<byte>, kind: byte) returns (reply: seq<byte>)
      requires msg.Length == MESSAGE_SIZE
      modifies msg
      ensures reply == old(msg[..OPTIONS]) + ReplyTail(kind, ip, mask)
    {
      hide Encode, ReplyOptions;
      ghost var head := msg[..OPTIONS];
      var at := WriteOptions(msg, kind);
      msg[at] := END;
      at := at + 1;
      assert msg[..at] == head + Encode(ReplyOptions(kind, ip, mask)) + [END];
      var length := at;
      if length < REPLY_SIZE {
        forall i | at <= i < REPLY_SIZE {
          msg[i] := 0;
        }
        length := REPLY_SIZE;
      }
      assert msg[..length] == msg[..at] + Zeros(26);
      return msg[..length];
    }

    /** The message buffer: the packet, cut or zero-filled, with the opcode and the server's network. */
    method Receive(packet: seq<byte>) returns (msg: array<byte>, length: nat)
      requires |packet| >= MIN_SIZE
      ensures fresh(msg) && msg.Length == MESSAGE_SIZE && OPTIONS + length <= MESSAGE_SIZE
      ensures msg[OPTIONS..OPTIONS + length]
           == packet[OPTIONS..Kept(packet)]
      ensures msg[..OPTIONS] == Header(packet, ip)
    {
      msg := new byte[MESSAGE_SIZE](_ => 0);
      var size := Kept(packet);
      forall i | 0 <= i < size {
        msg[i] := packet[i];
      }
      msg[0] := OFFER;
      forall i | 0 <= i < 4 {
        msg[YIADDR + i] := ip[i];
      }
      length := size - OPTIONS;
      HeaderFilled(msg[..OPTIONS], packet, ip);
    }

    /** One packet from the wire; slot `i` is looked at when true time is `times[i]`. */
    method Process(packet: seq<byte>, times: Times) returns (reply: Option<seq<byte>>)
      requires Valid()
      modifies this, leases
      ensures Valid() && Leases() == Next(old(Leases()), MessageOf(packet, ip, times))
      ensures reply == Answer(old(Leases()), packet, ip, mask, times)
      ensures discoverCount == if IsKind(packet, DISCOVER) then Up(old(discoverCount)) else old(discoverCount)
      ensures requestCount == if IsKind(packet, REQUEST) then Up(old(requestCount)) else old(requestCount)
      ensures ackCount == if IsKind(packet, REQUEST) && reply.Some? then Up(old(ackCount)) else old(ackCount)
    {
      hide Read, Lookup, Requested, Discovered, Header, SlotOf, AddressOf, AskedFor, ReplyTail;
      if |packet| < MIN_SIZE {
        return None;
      }
      var msg, length := Receive(packet);
      var kind := Find(msg, OPTIONS, length, MSG_TYPE);
      if kind.None? || msg[kind.value + 1] != 1 {
        return None;
      }
      assert msg[kind.value + 2..kind.value + 3] == [msg[kind.value + 2]];
      assert Lookup(OptionsOf(packet), MSG_TYPE) == Some([msg[kind.value + 2]]);
      assert [msg[kind.value + 2]][0] == msg[kind.value + 2];
      HeaderFields(packet, ip);
      SliceOfPrefix(msg[..], OPTIONS, CHADDR, CHADDR + 6);
      if msg[kind.value + 2] == DISCOVER {
        discoverCount := Up(discoverCount);
        var slot := FindSlot(msg[CHADDR..CHADDR + 6], times);
        if slot == SLOTS {
          return None;
        }
        msg[YIADDR + 3] := BASE_IP + slot;
        assert msg[..OPTIONS] == Header(packet, ip)[YIADDR + 3 := BASE_IP + slot];
        HeaderOfSlot(packet, ip, slot);
        var bytes := Finish(msg, OFFER);
        reply := Some(bytes);
      } else if msg[kind.value + 2] == REQUEST {
        requestCount := Up(requestCount);
        reply := Acquire(packet, msg, length, times, times[0]);
        if reply.Some? {
          ackCount := Up(ackCount);
        }
      } else {
        return None;
      }
    }

    /** The slot that a REQUEST asks for, while the options in the buffer are still its own. */
    method ReadSlot(ghost packet: seq<byte>, msg: array<byte>, length: nat) returns (slot: Option<nat>)
      requires |packet| >= MIN_SIZE && msg.Length == MESSAGE_SIZE && OPTIONS + length <= MESSAGE_SIZE
      requires msg[OPTIONS..OPTIONS + length] == packet[OPTIONS..Kept(packet)]
      requires msg[CIADDR..CIADDR + 4] == packet[CIADDR..CIADDR + 4]
      ensures slot == SlotOf(ip, AskedFor(packet))
    {
      hide Read, Lookup;
      var option := Find(msg, OPTIONS, length, REQUESTED_IP);
      if option.Some? && msg[option.value + 1] != 4 {
        return None;
      }
      var asked := if option.Some? then msg[option.value + 2..option.value + 6] else msg[CIADDR..CIADDR + 4];
      assert asked == AskedFor(packet);
      if asked == [0, 0, 0, 0] {
        assert asked[3] == 0;
        return None;
      }
      if asked[..3] != ip[..3] {
        return None;
      }
      var index := (asked[3] + 0x100 - BASE_IP) % 0x100;
      return if index < SLOTS then Some(index) else None;
    }

    /** The rest of a REQUEST. */
    method Acquire(ghost packet: seq<byte>, msg: array<byte>, length: nat, ghost times: Times, time: nat)
      returns (reply: Option<seq<byte>>)
      requires Valid() && IsKind(packet, REQUEST) && time == times[0]
      requires msg.Length == MESSAGE_SIZE && OPTIONS + length <= MESSAGE_SIZE
      requires msg[OPTIONS..OPTIONS + length] == packet[OPTIONS..Kept(packet)]
      requires msg[..OPTIONS] == Header(packet, ip)
      modifies msg, leases
      ensures Valid() && Leases() == Next(old(Leases()), MessageOf(packet, ip, times))
      ensures reply == Answer(old(Leases()), packet, ip, mask, times)
    {
      hide Read, Lookup, Requested, Discovered, Header, SlotOf, AddressOf, AskedFor, ReplyTail;
      HeaderFields(packet, ip);
      SliceOfPrefix(msg[..], OPTIONS, CIADDR, CIADDR + 4);
      SliceOfPrefix(msg[..], OPTIONS, CHADDR, CHADDR + 6);
      var slot := ReadSlot(packet, msg, length);
      if slot.None? {
        return None;
      }
      var granted := Grant(msg[CHADDR..CHADDR + 6], slot.value, time);
      if !granted {
        return None;
      }
      msg[YIADDR + 3] := BASE_IP + slot.value;
      assert msg[..OPTIONS] == Header(packet, ip)[YIADDR + 3 := BASE_IP + slot.value];
      HeaderOfSlot(packet, ip, slot.value);
      var bytes := Finish(msg, ACK);
      reply := Some(bytes);
    }
  }
}
