/** The option list of a DHCP message: a finder, three writers, and the list they stand for. */
module DhcpOptions {
  import opened Basics

  const PAD: byte := 0
  const END: byte := 255

  datatype Opt = Opt(code: byte, data: seq<byte>)

  /** An option that the wire format can carry: one length byte, and no reserved code. */
  predicate WellFormed(options: seq<Opt>) {
    forall o | o in options :: o.code != PAD && o.code != END && |o.data| <= 255
  }

  function Encode(options: seq<Opt>): seq<byte>
    requires WellFormed(options)
  {
    if options == [] then []
    else [options[0].code, |options[0].data|] + options[0].data + Encode(options[1..])
  }

  /** The options up to the end mark or the first one that does not fit; pads stand alone. */
  function Read(bytes: seq<byte>): seq<Opt> {
    if bytes == [] || bytes[0] == END then []
    else if bytes[0] == PAD then Read(bytes[1..])
    else if |bytes| < 2 || |bytes| < Size(bytes) then []
    else [Opt(bytes[0], bytes[2..Size(bytes)])] + Read(bytes[Size(bytes)..])
  }

  /** How many bytes the first option takes, by its length byte. */
  function Size(bytes: seq<byte>): (n: nat)
    requires |bytes| >= 2
    ensures n >= 2
  {
    var length: nat := bytes[1];
    length + 2
  }

  /** The contents of the first option with a code. */
  function Lookup(options: seq<Opt>, code: byte): Option<seq<byte>> {
    if options == [] then None
    else if options[0].code == code then Some(options[0].data)
    else Lookup(options[1..], code)
  }

  /** The rules of the format: 0 is a pad, 255 the end, and other codes are followed by a length and as many bytes. */
  lemma ReadRules(code: byte, data: seq<byte>, rest: seq<byte>)
    requires 0 < code < 255 && |data| < 256
    ensures Read([0] + rest) == Read(rest)
    ensures Read([255] + rest) == [] && Read([code]) == []
    ensures Read([code, |data|] + data + rest) == [Opt(code, data)] + Read(rest)
    ensures |rest| < |data| ==> Read([code, |data|] + rest) == []
  {
    assert ([0] + rest)[1..] == rest;
    var bytes := [code, |data|] + data + rest;
    assert bytes[2..Size(bytes)] == data && bytes[Size(bytes)..] == rest;
  }

  /** Whatever follows the end mark, a reader sees the options that were written. */
  lemma {:induction false} ReadOfEncoded(options: seq<Opt>, tail: seq<byte>)
    requires WellFormed(options)
    ensures Read(Encode(options) + [END] + tail) == options
  {
    var bytes := Encode(options) + [END] + tail;
    if options != [] {
      var first, rest := options[0], Encode(options[1..]) + [END] + tail;
      assert bytes == [first.code, |first.data|] + first.data + rest;
      assert bytes[1] == |first.data|;
      assert bytes[2..Size(bytes)] == first.data && bytes[Size(bytes)..] == rest;
      ReadOfEncoded(options[1..], tail);
    }
  }

  lemma {:induction false} ReadIsWellFormed(bytes: seq<byte>)
    ensures WellFormed(Read(bytes))
    decreases |bytes|
  {
    if bytes == [] || bytes[0] == END {
    } else if bytes[0] == PAD {
      ReadIsWellFormed(bytes[1..]);
    } else if |bytes| >= 2 && |bytes| >= Size(bytes) {
      ReadIsWellFormed(bytes[Size(bytes)..]);
    }
  }

  /** Whatever bytes were read, pads and cut options included, their options can be written, and read back the same. */
  lemma ReadCanBeWritten(bytes: seq<byte>, tail: seq<byte>)
    ensures WellFormed(Read(bytes))
    ensures Read(Encode(Read(bytes)) + [END] + tail) == Read(bytes)
  {
    ReadIsWellFormed(bytes);
    ReadOfEncoded(Read(bytes), tail);
  }

  lemma FirstOption(rest: seq<byte>, cmd: byte)
    ensures Lookup(Read(rest), cmd) ==
            if rest == [] || rest[0] == END then None
            else if rest[0] == PAD then Lookup(Read(rest[1..]), cmd)
            else if |rest| < 2 || |rest| < Size(rest) then None
            else if rest[0] == cmd then Some(rest[2..Size(rest)])
            else Lookup(Read(rest[Size(rest)..]), cmd)
  {
  }

  lemma Slices(msg: seq<byte>, start: nat, i: nat, length: nat, size: nat)
    requires i + 2 + size <= length && start + length <= |msg|
    ensures msg[start..start + length][i..][2..size + 2] == msg[start + i + 2..start + i + 2 + size]
  {
    var all := msg[start..start + length];
    var rest := all[i..];
    assert forall k | 0 <= k < |rest| :: rest[k] == msg[start + i + k];
    var data := rest[2..size + 2];
    assert forall k | 0 <= k < size :: data[k] == msg[start + i + 2 + k];
  }

  /** The first option with code `cmd` in `length` bytes from `start`, as an index from `start`. */
  method Find(msg: array<byte>, start: nat, length: nat, cmd: byte) returns (index: Option<nat>)
    requires start + length <= msg.Length
    ensures index.None? <==> Lookup(Read(msg[start..start + length]), cmd).None?
    ensures index.Some? ==>
      && start <= index.value && index.value + 2 <= start + length
      && (var size: nat := msg[index.value + 1];
          && index.value + 2 + size <= start + length
          && Lookup(Read(msg[start..start + length]), cmd)
             == Some(msg[index.value + 2..index.value + 2 + size]))
  {
    hide Read, Lookup;
    ghost var all := msg[start..start + length];
    var i := 0;
    assert all[0..] == all;
    while i < length && msg[start + i] != END
      invariant 0 <= i <= length
      invariant Lookup(Read(all), cmd) == Lookup(Read(all[i..]), cmd)
    {
      ghost var rest := all[i..];
      assert rest[0] == msg[start + i];
      FirstOption(rest, cmd);
      if msg[start + i] == PAD {
        i := i + 1;
        assert rest[1..] == all[i..];
        continue;
      }
      if i + 1 >= length {
        break;
      }
      var size: nat := msg[start + i + 1];
      assert rest[1] == size;
      if i + 2 + size > length {
        break;
      }
      assert Size(rest) == size + 2 && |rest| == length - i;
      Slices(msg[..], start, i, length, size);
      if msg[start + i] == cmd {
        return Some(start + i);
      }
      i := i + 2 + size;
      assert rest[Size(rest)..] == all[i..];
    }
    FirstOption(all[i..], cmd);
    return None;
  }

  /** The bytes of one written option. */
  function Bytes(o: Opt): (b: seq<byte>)
    requires |o.data| <= 255
    ensures |b| == 2 + |o.data|
  {
    [o.code, |o.data|] + o.data
  }

  method WriteN(msg: array<byte>, at: nat, cmd: byte, data: seq<byte>) returns (next: nat)
    requires |data| <= 255 && at + 2 + |data| <= msg.Length
    modifies msg
    ensures next == at + 2 + |data|
    ensures msg[..next] == old(msg[..at]) + Bytes(Opt(cmd, data)) && msg[next..] == old(msg[next..])
  {
    msg[at], msg[at + 1] := cmd, |data|;
    forall i | 0 <= i < |data| {
      msg[at + 2 + i] := data[i];
    }
    next := at + 2 + |data|;
  }

  method WriteU8(msg: array<byte>, at: nat, cmd: byte, val: byte) returns (next: nat)
    requires at + 3 <= msg.Length
    modifies msg
    ensures next == at + 3
    ensures msg[..next] == old(msg[..at]) + Bytes(Opt(cmd, [val])) && msg[next..] == old(msg[next..])
  {
    msg[at], msg[at + 1], msg[at + 2] := cmd, 1, val;
    next := at + 3;
  }

  /** The bytes of a word, most significant first. */
  function BigEndian(val: uint32): (b: seq<byte>)
    ensures |b| == 4
    ensures (var b0: nat, b1: nat, b2: nat, b3: nat := b[0], b[1], b[2], b[3];
             val == ((b0 * 0x100 + b1) * 0x100 + b2) * 0x100 + b3)
  {
    var shifted8 := val / 0x100;
    var shifted16 := shifted8 / 0x100;
    [shifted16 / 0x100, shifted16 % 0x100, shifted8 % 0x100, val % 0x100]
  }

  method WriteU32(msg: array<byte>, at: nat, cmd: byte, val: uint32) returns (next: nat)
    requires at + 6 <= msg.Length
    modifies msg
    ensures next == at + 6
    ensures msg[..next] == old(msg[..at]) + Bytes(Opt(cmd, BigEndian(val))) && msg[next..] == old(msg[next..])
  {
    msg[at], msg[at + 1] := cmd, 4;
    var shifted8 := val / 0x100;
    var shifted16 := shifted8 / 0x100;
    msg[at + 2], msg[at + 3] := shifted16 / 0x100, shifted16 % 0x100;
    msg[at + 4], msg[at + 5] := shifted8 % 0x100, val % 0x100;
    next := at + 6;
  }
}
