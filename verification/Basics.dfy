/** Types shared by every module: machine bytes and the usual Option. */
module Basics {

  type byte = x: int | 0 <= x < 256

  type int8 = x: int | -128 <= x < 128
  type uint16 = x: int | 0 <= x <= U16_MAX
  type uint32 = x: int | 0 <= x <= U32_MAX

  const U16_MAX := 0xffff
  const U32_MAX := 0xffff_ffff

  datatype Option<+T> = None | Some(value: T)

  /** The number written by `bytes`, least significant byte first. */
  function LittleEndian(bytes: seq<byte>): (value: nat)
    ensures |bytes| <= 4 ==> value <= U32_MAX
  {
    if bytes == [] then 0
    else if |bytes| == 1 then bytes[0]
    else if |bytes| == 2 then bytes[0] + 0x100 * bytes[1]
    else if |bytes| == 3 then bytes[0] + 0x100 * bytes[1] + 0x1_0000 * bytes[2]
    else bytes[0] + 0x100 * bytes[1] + 0x1_0000 * bytes[2] + 0x100_0000 * LittleEndian(bytes[3..])
  }

  /** Each further byte counts 256 times as much as the one before it. */
  lemma LittleEndianGrows(bytes: seq<byte>, last: byte)
    ensures LittleEndian([]) == 0
    ensures |bytes| == 0 ==> LittleEndian(bytes + [last]) == last
    ensures |bytes| == 1 ==> LittleEndian(bytes + [last]) == LittleEndian(bytes) + 0x100 * last
    ensures |bytes| == 2 ==> LittleEndian(bytes + [last]) == LittleEndian(bytes) + 0x1_0000 * last
    ensures |bytes| == 3 ==> LittleEndian(bytes + [last]) == LittleEndian(bytes) + 0x100_0000 * last
  {
    var longer := bytes + [last];
    if |bytes| == 3 { assert longer[3..] == [last]; }
  }

  /** The bytes of a text, one per character. */
  function Ascii(text: string): (b: seq<byte>)
    ensures |b| == |text| && forall i | 0 <= i < |text| :: b[i] == (text[i] as int) % 0x100
  {
    seq(|text|, i requires 0 <= i < |text| => (text[i] as int) % 0x100)
  }

  function Zeros(n: nat): (z: seq<byte>)
    ensures |z| == n
  {
    seq(n, _ => 0)
  }

  lemma Regroup<T>(a: seq<T>, b: seq<T>, c: seq<T>, d: seq<T>)
    ensures a + (b + c + d) == a + b + c + d == a + b + (c + d)
  {
  }

  lemma SliceOfPrefix<T>(s: seq<T>, n: nat, from: nat, to: nat)
    requires from <= to <= n <= |s|
    ensures s[..n][from..to] == s[from..to]
  {
  }
}
