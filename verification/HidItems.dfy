/**
 Report descriptors as sequences of items (USB HID 1.11, sections 6.2.2.2 and
 6.2.2.3), and the byte strings such sequences tile.
 */
module HidItems {
  import opened Basics

  const LONG_ITEM_PREFIX: byte := 0xfe

  datatype Item =
    | Short(kind: nat, tag: nat, data: seq<byte>)
    | Long(longTag: byte, longData: seq<byte>)

  datatype Taken = Taken(item: Item, size: nat)

  /** The two-bit size code 3 means four bytes of data. */
  function DataSize(code: nat): nat {
    if code == 3 then 4 else code
  }

  /** The first item of `bytes` and the bytes it takes; None when it is cut short. */
  function NextItem(bytes: seq<byte>): (taken: Option<Taken>)
    requires bytes != []
    ensures taken.Some? ==> 0 < taken.value.size <= |bytes|
  {
    var prefix := bytes[0];
    if prefix == LONG_ITEM_PREFIX then
      if |bytes| < 3 then None
      else
        var length: nat := bytes[1];
        if |bytes| < 3 + length then None
        else Some(Taken(Long(bytes[2], bytes[3..3 + length]), 3 + length))
    else
      var size := DataSize(prefix % 4);
      if |bytes| < 1 + size then None
      else Some(Taken(Short((prefix / 4) % 4, prefix / 16, bytes[1..1 + size]), 1 + size))
  }

  function Tokenise(bytes: seq<byte>): Option<seq<Item>> {
    if bytes == [] then Some([])
    else
      match NextItem(bytes)
      case None => None
      case Some(taken) =>
        match Tokenise(bytes[taken.size..])
        case None => None
        case Some(rest) => Some([taken.item] + rest)
  }

  predicate WellFormed(item: Item) {
    match item
    case Long(_, data) => |data| < 256
    case Short(kind, tag, data) =>
      && kind < 4
      && tag < 16
      && |data| in {0, 1, 2, 4}
      && !(kind == 3 && tag == 15 && |data| == 2)  // this prefix introduces a long item
  }

  function Encode(item: Item): (bytes: seq<byte>)
    requires WellFormed(item)
    ensures bytes != []
  {
    match item
    case Long(tag, data) => [LONG_ITEM_PREFIX, |data|, tag] + data
    case Short(kind, tag, data) =>
      var code := if |data| == 4 then 3 else |data|;
      [code + 4 * kind + 16 * tag] + data
  }

  function EncodeAll(items: seq<Item>): seq<byte>
    requires forall item <- items :: WellFormed(item)
  {
    if items == [] then [] else Encode(items[0]) + EncodeAll(items[1..])
  }

  lemma PrefixFields(code: nat, kind: nat, tag: nat)
    requires code < 4 && kind < 4
    ensures var prefix := code + 4 * kind + 16 * tag;
            prefix % 4 == code && (prefix / 4) % 4 == kind && prefix / 16 == tag
  {
  }

  lemma NextOfEncoded(item: Item, rest: seq<byte>)
    requires WellFormed(item)
    ensures NextItem(Encode(item) + rest) == Some(Taken(item, |Encode(item)|))
  {
    var bytes := Encode(item) + rest;
    match item
    case Long(tag, data) =>
      assert bytes[3..3 + |data|] == data;
    case Short(kind, tag, data) =>
      PrefixFields(if |data| == 4 then 3 else |data|, kind, tag);
      assert bytes[1..1 + |data|] == data;
  }

  lemma EncodedNext(bytes: seq<byte>)
    requires bytes != [] && NextItem(bytes).Some?
    ensures var taken := NextItem(bytes).value;
            WellFormed(taken.item) && Encode(taken.item) == bytes[..taken.size]
  {
    var prefix := bytes[0];
    if prefix != LONG_ITEM_PREFIX {
      assert prefix == prefix % 4 + 4 * ((prefix / 4) % 4) + 16 * (prefix / 16);
    }
  }

  /** Tokenising succeeds on exactly the byte strings that items tile, and gives those items back. */
  lemma TokeniseIsInverseOfEncode(bytes: seq<byte>, items: seq<Item>)
    ensures Tokenise(bytes) == Some(items)
       <==> (forall item <- items :: WellFormed(item)) && EncodeAll(items) == bytes
  {
    if Tokenise(bytes) == Some(items) { EncodedTokens(bytes); }
    if (forall item <- items :: WellFormed(item)) && EncodeAll(items) == bytes { TokensOfEncoded(items); }
  }

  lemma {:induction false} EncodedTokens(bytes: seq<byte>)
    requires Tokenise(bytes).Some?
    ensures var items := Tokenise(bytes).value;
            (forall item <- items :: WellFormed(item)) && EncodeAll(items) == bytes
    decreases |bytes|
  {
    hide *;
    NoTokens();
    if bytes != [] {
      TokeniseNext(bytes);
      var rest := bytes[NextItem(bytes).value.size..];
      EncodedTokens(rest);
      EncodedFirst(bytes);
    }
  }

  lemma NoTokens()
    ensures Tokenise([]) == Some([]) && EncodeAll([]) == []
  {
  }

  /** The first item's bytes, and then those of the others. */
  lemma EncodedFirst(bytes: seq<byte>)
    requires bytes != [] && Tokenise(bytes).Some? && NextItem(bytes).Some?
    requires var rest := bytes[NextItem(bytes).value.size..];
             && Tokenise(rest).Some? && (forall item <- Tokenise(rest).value :: WellFormed(item))
             && EncodeAll(Tokenise(rest).value) == rest
    ensures var items := Tokenise(bytes).value;
            (forall item <- items :: WellFormed(item)) && EncodeAll(items) == bytes
  {
    hide *;
    TokeniseNext(bytes);
    EncodedNext(bytes);
    var taken := NextItem(bytes).value;
    EncodeOneMore(taken.item, Tokenise(bytes[taken.size..]).value);
    CutInTwo(bytes, taken.size);
  }

  lemma CutInTwo(bytes: seq<byte>, n: nat)
    requires n <= |bytes|
    ensures bytes[..n] + bytes[n..] == bytes
  {
  }

  lemma TokeniseNext(bytes: seq<byte>)
    requires bytes != [] && Tokenise(bytes).Some?
    ensures NextItem(bytes).Some?
    ensures var taken := NextItem(bytes).value;
            && Tokenise(bytes[taken.size..]).Some?
            && Tokenise(bytes).value == [taken.item] + Tokenise(bytes[taken.size..]).value
  {
    hide NextItem;
  }

  lemma EncodeOneMore(item: Item, items: seq<Item>)
    requires WellFormed(item) && forall i <- items :: WellFormed(i)
    ensures forall i <- [item] + items :: WellFormed(i)
    ensures EncodeAll([item] + items) == Encode(item) + EncodeAll(items)
  {
    hide WellFormed, Encode;
    assert forall i <- [item] + items :: i == item || i in items;
    assert ([item] + items)[1..] == items;
  }

  lemma {:induction false} TokensOfEncoded(items: seq<Item>)
    requires forall item <- items :: WellFormed(item)
    ensures Tokenise(EncodeAll(items)) == Some(items)
  {
    if items != [] {
      hide NextItem, WellFormed, Encode;
      var rest := EncodeAll(items[1..]);
      NextOfEncoded(items[0], rest);
      TokensOfEncoded(items[1..]);
      assert EncodeAll(items)[|Encode(items[0])|..] == rest;
      assert items == [items[0]] + items[1..];
    }
  }
}
