/** The DHCP server as its clients see it: byte by byte, and packet by packet. */
module DhcpWire {
  import opened Basics
  import opened DhcpLeases
  import opened DhcpOptions
  import opened DhcpServer

  lemma TailReads(kind: byte, ip: Ip, mask: Ip)
    ensures |ReplyTail(kind, ip, mask)| == REPLY_SIZE - OPTIONS
    ensures Read(ReplyTail(kind, ip, mask)) == ReplyOptions(kind, ip, mask)
  {
    hide Read, Encode, Bytes;
    ReadOfEncoded(ReplyOptions(kind, ip, mask), Zeros(26));
    EncodedReply(kind, ip, mask);
  }

  // ------------------------------------------------------------------------
  // What a client reads in a reply

  /** The options that a client finds: type, server, mask, router and name server, and a lease of 86400 seconds. */
  function Told(kind: byte, ip: Ip, mask: Ip): seq<Opt> {
    [Opt(53, [kind]), Opt(54, ip), Opt(1, mask), Opt(3, ip), Opt(6, ip), Opt(51, [0x00, 0x01, 0x51, 0x80])]
  }

  /** The client takes the reply as `kind` for hardware address `mac` and IP `address`. */
  predicate Says(reply: seq<byte>, kind: byte, mac: Mac, address: Ip) {
    && |reply| == 300
    && reply[0] == 2
    && Lookup(Read(reply[240..]), 53) == Some([kind])
    && reply[28..34] == mac
    && reply[16..20] == address
  }

  /** The address of a slot. */
  function Address(ip: Ip, slot: nat): Ip
    requires slot < 8
  {
    [ip[0], ip[1], ip[2], 16 + slot]
  }

  lemma LeaseTime()
    ensures BigEndian(LEASE_S) == [0x00, 0x01, 0x51, 0x80]
  {
  }

  lemma ToldIsWritten(kind: byte, ip: Ip, mask: Ip)
    ensures ReplyOptions(kind, ip, mask) == Told(kind, ip, mask)
  {
    LeaseTime();
    hide BigEndian;
  }

  lemma AddressIs(ip: Ip, slot: nat)
    requires slot < 8
    ensures AddressOf(ip, slot) == Address(ip, slot)
  {
  }

  /**
   Everything a client reads in a reply: its own transaction and hardware
   address, the slot's address, and all six options by the same rules that the
   server reads by.
   */
  lemma ReplyReads(packet: seq<byte>, kind: byte, slot: nat, ip: Ip, mask: Ip)
    requires |packet| >= 243 && slot < 8
    ensures var reply := Reply(packet, kind, slot, ip, mask);
            && Says(reply, kind, packet[28..34], Address(ip, slot))
            && reply[1..16] == packet[1..16]
            && reply[20..240] == packet[20..240]
            && Read(reply[240..]) == Told(kind, ip, mask)
  {
    var address := AddressOf(ip, slot);
    AddressIs(ip, slot);
    ToldIsWritten(kind, ip, mask);
    TailReads(kind, ip, mask);
    HeaderFields(packet, address);
    assert Header(packet, address)[0] == 2;
    hide Read, Encode, Header, AddressOf, ReplyTail, ReplyOptions, Address;
    var reply := Reply(packet, kind, slot, ip, mask);
    assert reply[..240] == Header(packet, address) && reply[240..] == ReplyTail(kind, ip, mask);
    assert reply[0] == reply[..240][0];
    assert reply[1..16] == reply[..240][1..16];
    assert reply[16..20] == reply[..240][16..20];
    assert reply[20..240] == reply[..240][20..];
    assert reply[28..34] == reply[..240][28..34];
  }

  lemma SaysOne(reply: seq<byte>, ip: Ip, kind: byte, mac: Mac, slot: nat, kind': byte, mac': Mac, slot': nat)
    requires slot < 8 && slot' < 8 && Says(reply, kind, mac, Address(ip, slot))
    ensures Says(reply, kind', mac', Address(ip, slot')) <==> kind == kind' && mac == mac' && slot == slot'
  {
    hide Read, Lookup;
    assert Address(ip, slot)[3] == 16 + slot && Address(ip, slot')[3] == 16 + slot';
    assert [kind][0] == kind && [kind'][0] == kind';
  }

  // ------------------------------------------------------------------------
  // What a client asks

  /** The options of a packet, as far as the server's buffer holds them. */
  function Sent(packet: seq<byte>): seq<Opt>
    requires |packet| >= 243
  {
    Read(packet[240..if |packet| < 548 then |packet| else 548])
  }

  /** A packet of the client with a message type. */
  predicate Asks(packet: seq<byte>, kind: byte, mac: Mac) {
    |packet| >= 243 && Lookup(Sent(packet), 53) == Some([kind]) && packet[28..34] == mac
  }

  /** A REQUEST for an address, in its option or, without one, in the client's own address field. */
  predicate Requests(packet: seq<byte>, mac: Mac, address: Ip) {
    && Asks(packet, 3, mac)
    && (if Lookup(Sent(packet), 50).Some? then Lookup(Sent(packet), 50) == Some(address) else packet[12..16] == address)
  }

  lemma SentIsRead(packet: seq<byte>)
    requires |packet| >= 243
    ensures OptionsOf(packet) == Sent(packet)
  {
  }

  /** What a packet means to the lease table. */
  lemma MessageIs(packet: seq<byte>, ip: Ip, times: Times, mac: Mac, slot: nat)
    requires slot < 8
    ensures Asks(packet, 1, mac) <==> MessageOf(packet, ip, times) == Discover(mac, times)
    ensures Requests(packet, mac, Address(ip, slot)) <==> MessageOf(packet, ip, times) == Request(mac, slot, times[0])
    ensures MessageOf(packet, ip, times).Discover? ==> MessageOf(packet, ip, times).times == times
    ensures MessageOf(packet, ip, times).Request? ==> MessageOf(packet, ip, times).time == times[0]
  {
    if |packet| >= 243 { SentIsRead(packet); }
    hide Read, Lookup, OptionsOf, Sent;
    AddressIs(ip, slot);
    assert [1][0] == 1 && [3][0] == 3;
    if |packet| >= 243 {
      var named := SlotOf(ip, AskedFor(packet));
      if named.Some? {
        AddressIs(ip, named.value);
        assert Address(ip, slot)[3] == 16 + slot && Address(ip, named.value)[3] == 16 + named.value;
      }
      hide SlotOf, Address, AddressOf;
    }
  }

  /**
   An OFFER of an address goes to a client exactly when the packet is its
   DISCOVER and the slot of that address is the one found for it.
   */
  lemma OfferIsFound(table: Table, packet: seq<byte>, ip: Ip, mask: Ip, times: Times, mac: Mac, slot: nat)
    requires slot < 8
    ensures (var answer := Answer(table, packet, ip, mask, times);
             answer.Some? && Says(answer.value, 2, mac, Address(ip, slot)))
       <==> Asks(packet, 1, mac) && Discovered(table, mac, times).1 == slot
  {
    AnswerSays(table, packet, ip, mask, times, 2, mac, slot);
    MessageIs(packet, ip, times, mac, slot);
    hide *;
  }

  /** An ACK goes to a client exactly when it requests that address and the slot is its own or nobody's. */
  lemma AckIsGrant(table: Table, packet: seq<byte>, ip: Ip, mask: Ip, times: Times, mac: Mac, slot: nat)
    requires slot < 8
    ensures (var answer := Answer(table, packet, ip, mask, times);
             answer.Some? && Says(answer.value, 5, mac, Address(ip, slot)))
       <==> && Requests(packet, mac, Address(ip, slot))
            && (table[slot].mac == mac || table[slot].mac == [0, 0, 0, 0, 0, 0])
    ensures (var answer := Answer(table, packet, ip, mask, times);
             answer.Some? && Says(answer.value, 5, mac, Address(ip, slot)))
       <==> Granted(table, MessageOf(packet, ip, times), mac, slot)
  {
    AnswerSays(table, packet, ip, mask, times, 5, mac, slot);
    MessageIs(packet, ip, times, mac, slot);
    assert Requested(table, mac, slot, times[0]).1
      <==> table[slot].mac == mac || table[slot].mac == [0, 0, 0, 0, 0, 0];
    hide Says, Answer, MessageOf, Requests, Address, Requested;
  }

  /** No other answer is ever sent. */
  lemma AnswerSays(table: Table, packet: seq<byte>, ip: Ip, mask: Ip, times: Times, kind: byte, mac: Mac, slot: nat)
    requires slot < 8
    ensures var answer, message := Answer(table, packet, ip, mask, times), MessageOf(packet, ip, times);
            (answer.Some? && Says(answer.value, kind, mac, Address(ip, slot)))
            <==>
            (|| (kind == 2 && message == Discover(mac, times) && Discovered(table, mac, times).1 == slot)
             || (kind == 5 && message == Request(mac, slot, times[0]) && Requested(table, mac, slot, times[0]).1))
  {
    hide Read, Lookup, Reply, Requested, Discovered, OptionsOf, AskedFor, Says, Address;
    match MessageOf(packet, ip, times)
    case Discover(own, _) =>
      var offered := Discovered(table, own, times).1;
      if offered < 8 {
        ReplyReads(packet, 2, offered, ip, mask);
        SaysOne(Reply(packet, 2, offered, ip, mask), ip, 2, own, offered, kind, mac, slot);
      }
    case Request(own, asked, _) =>
      ReplyReads(packet, 5, asked, ip, mask);
      SaysOne(Reply(packet, 5, asked, ip, mask), ip, 5, own, asked, kind, mac, slot);
    case Ignored(_) =>
  }

  // ------------------------------------------------------------------------
  // Leases on the wire

  datatype Arrival = Arrival(packet: seq<byte>, times: Times)

  function Messages(arrivals: seq<Arrival>, ip: Ip): (messages: seq<Message>)
    ensures |messages| == |arrivals|
    ensures forall n | 0 <= n < |arrivals| :: messages[n] == MessageOf(arrivals[n].packet, ip, arrivals[n].times)
  {
    seq(|arrivals|, n requires 0 <= n < |arrivals| => MessageOf(arrivals[n].packet, ip, arrivals[n].times))
  }

  /** The server answers with this kind of reply. */
  predicate Answers(table: Table, a: Arrival, ip: Ip, mask: Ip, kind: byte, mac: Mac, address: Ip) {
    var answer := Answer(table, a.packet, ip, mask, a.times);
    answer.Some? && Says(answer.value, kind, mac, address)
  }

  lemma MessagesSplit(first: Arrival, middle: seq<Arrival>, last: Arrival, ip: Ip)
    ensures Messages([first] + middle + [last], ip)
         == [MessageOf(first.packet, ip, first.times)] + Messages(middle, ip)
            + [MessageOf(last.packet, ip, last.times)]
    ensures Messages([first] + middle, ip)
         == [MessageOf(first.packet, ip, first.times)] + Messages(middle, ip)
  {
    hide MessageOf;
  }

  /**
   No two clients share an address: after an ACK of a slot's address to a
   client with a hardware address, no packets at all, of any content, bring an
   ACK of that address to another client for the next day.
   */
  lemma AddressesAreExclusive(table: Table, grant: Arrival, middle: seq<Arrival>, last: Arrival, ip: Ip, mask: Ip,
                              mac: Mac, other: Mac, slot: nat, now: nat)
    requires slot < 8 && mac != [0, 0, 0, 0, 0, 0]
    requires InOrder(Messages([grant] + middle + [last], ip), now)
    requires Answers(table, grant, ip, mask, 5, mac, Address(ip, slot))
    requires last.times[0] <= grant.times[0] + 86_400_000
    ensures InOrder(Messages([grant] + middle, ip), now)
    ensures Answers(Run(table, Messages([grant] + middle, ip), now), last, ip, mask, 5, other, Address(ip, slot))
            ==> other == mac
  {
    var first, final := MessageOf(grant.packet, ip, grant.times), MessageOf(last.packet, ip, last.times);
    MessageTimes(grant, ip);
    MessageTimes(last, ip);
    MessagesSplit(grant, middle, last, ip);
    hide MessageOf, Messages, Answer, Says, Granted, InOrder, Run, Address, Requests;
    AckIsGrant(table, grant.packet, ip, mask, grant.times, mac, slot);
    LeasesAreExclusive(table, first, Messages(middle, ip), final, mac, other, slot, now);
    AckIsGrant(Run(table, Messages([grant] + middle, ip), now), last.packet, ip, mask, last.times, other, slot);
  }

  lemma MessageTimes(a: Arrival, ip: Ip)
    ensures var m := MessageOf(a.packet, ip, a.times);
            a.times[0] == First(m)
  {
  }

  /** None of the packets brings an ACK of the slot's address to another client. */
  ghost predicate Undisturbed(table: Table, arrivals: seq<Arrival>, ip: Ip, mask: Ip, mac: Mac, slot: nat, now: nat)
    requires slot < 8 && InOrder(Messages(arrivals, ip), now)
    decreases |arrivals|
  {
    if arrivals == [] then true
    else
      var m := MessageOf(arrivals[0].packet, ip, arrivals[0].times);
      MessagesTail(arrivals, ip);
      && (forall other: Mac :: Answers(table, arrivals[0], ip, mask, 5, other, Address(ip, slot)) ==> other == mac)
      && Undisturbed(Next(table, m), arrivals[1..], ip, mask, mac, slot, Last(m))
  }

  lemma MessagesTail(arrivals: seq<Arrival>, ip: Ip)
    requires arrivals != []
    ensures Messages(arrivals, ip)[1..] == Messages(arrivals[1..], ip)
    ensures Messages(arrivals, ip)[0] == MessageOf(arrivals[0].packet, ip, arrivals[0].times)
  {
    hide MessageOf;
  }

  lemma {:induction false} UndisturbedIsNeverTaken(table: Table, arrivals: seq<Arrival>, ip: Ip, mask: Ip, mac: Mac,
                                                   slot: nat, now: nat)
    requires slot < 8 && InOrder(Messages(arrivals, ip), now)
    requires Undisturbed(table, arrivals, ip, mask, mac, slot, now)
    ensures NeverTaken(table, Messages(arrivals, ip), mac, slot, now)
    decreases |arrivals|
  {
    hide MessageOf, Messages, Answer, Says, Granted, Address, Requests;
    if arrivals != [] {
      var m := MessageOf(arrivals[0].packet, ip, arrivals[0].times);
      MessagesTail(arrivals, ip);
      UndisturbedIsNeverTaken(Next(table, m), arrivals[1..], ip, mask, mac, slot, Last(m));
      if m.Request? && Granted(table, m, m.mac, slot) {
        AckIsGrant(table, arrivals[0].packet, ip, mask, arrivals[0].times, m.mac, slot);
        assert Answers(table, arrivals[0], ip, mask, 5, m.mac, Address(ip, slot));
      }
    }
  }

  /**
   An offer stands: a client that requests the address it reads in its OFFER
   gets an ACK of it, after any packets that do not bring one to another client.
   */
  lemma OfferIsHonoured(table: Table, offer: Arrival, middle: seq<Arrival>, last: Arrival, ip: Ip, mask: Ip,
                        mac: Mac, slot: nat)
    requires slot < 8 && Answers(table, offer, ip, mask, 2, mac, Address(ip, slot))
    requires InOrder(Messages(middle, ip), offer.times[7])
    requires var after := Next(table, MessageOf(offer.packet, ip, offer.times));
             Undisturbed(after, middle, ip, mask, mac, slot, offer.times[7])
    requires Requests(last.packet, mac, Address(ip, slot))
    ensures var after := Next(table, MessageOf(offer.packet, ip, offer.times));
            Answers(Run(after, Messages(middle, ip), offer.times[7]), last, ip, mask, 5, mac, Address(ip, slot))
  {
    hide MessageOf, Messages, Answer, Says, Granted, InOrder, Run, Address, Requests, Discovered, Undisturbed,
         NeverTaken, Asks;
    OfferIsFound(table, offer.packet, ip, mask, offer.times, mac, slot);
    MessageIs(offer.packet, ip, offer.times, mac, slot);
    var after := Next(table, MessageOf(offer.packet, ip, offer.times));
    UndisturbedIsNeverTaken(after, middle, ip, mask, mac, slot, offer.times[7]);
    DhcpLeases.OfferIsHonoured(table, mac, offer.times, Messages(middle, ip), last.times[0]);
    MessageIs(last.packet, ip, last.times, mac, slot);
    AckIsGrant(Run(after, Messages(middle, ip), offer.times[7]), last.packet, ip, mask, last.times, mac, slot);
  }
}
