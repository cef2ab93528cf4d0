/**
 Service discovery data elements (Bluetooth Core Specification, Volume 3,
 Part B, section 3) as trees that remember how each length was written, and
 the byte strings that encode them.
 */
module SdpElements {
  import opened Basics

  const NIL := 0
  const UINT := 1
  const INT := 2
  const UUID := 3
  const STRING := 4
  const BOOLEAN := 5
  const SEQUENCE := 6
  const ALTERNATIVE := 7
  const URL := 8

  /** Only sequences are looked into; an alternative is a leaf that keeps its bytes. */
  datatype Element =
    | Leaf(kind: nat, sizeIndex: nat, data: seq<byte>)
    | Sequence(sequenceSizeIndex: nat, children: seq<Element>)

  predicate SizeIndexValid(kind: nat, sizeIndex: nat) {
    if kind == NIL || kind == BOOLEAN then sizeIndex == 0
    else if kind == UINT || kind == INT then sizeIndex <= 4
    else if kind == UUID then sizeIndex == 1 || sizeIndex == 2 || sizeIndex == 4
    else kind in {STRING, SEQUENCE, ALTERNATIVE, URL} && 5 <= sizeIndex <= 7
  }

  /** 2 to the power of a size index. */
  function Power(index: nat): nat
    requires index <= 4
  {
    [1, 2, 4, 8, 16][index]
  }

  function BigEndian(bytes: seq<byte>): (value: nat)
    ensures |bytes| == 0 ==> value == 0
    ensures |bytes| == 1 ==> value < 0x100
    ensures |bytes| == 2 ==> value < 0x1_0000
    ensures |bytes| == 3 ==> value < 0x100_0000
    ensures |bytes| == 4 ==> value <= U32_MAX
  {
    if bytes == [] then 0
    else 0x100 * BigEndian(bytes[..|bytes| - 1]) + bytes[|bytes| - 1]
  }

  function BigEndianBytes(value: nat, size: nat): (bytes: seq<byte>)
    ensures |bytes| == size
  {
    if size == 0 then [] else BigEndianBytes(value / 0x100, size - 1) + [value % 0x100]
  }

  function LengthSize(sizeIndex: nat): nat {
    if 5 <= sizeIndex <= 7 then Power(sizeIndex - 5) else 0
  }

  datatype Head = Head(kind: nat, sizeIndex: nat, headerSize: nat, dataSize: nat) {
    function Total(): nat { headerSize + dataSize }
  }

  /** The data size that a one-byte header implies. */
  function FixedSize(kind: nat, sizeIndex: nat): nat
    requires sizeIndex <= 4
  {
    if kind == NIL then 0 else Power(sizeIndex)
  }

  /** The header of the element that starts `bytes`, when all of that element is there. */
  function ReadHead(bytes: seq<byte>): (head: Option<Head>)
    ensures head.Some? ==> 0 < head.value.headerSize && head.value.Total() <= |bytes|
  {
    if bytes == [] then None
    else
      var kind, sizeIndex := bytes[0] / 8, bytes[0] % 8;
      var headerSize := 1 + LengthSize(sizeIndex);
      if !SizeIndexValid(kind, sizeIndex) || headerSize > |bytes| then None
      else
        var dataSize := if sizeIndex <= 4 then FixedSize(kind, sizeIndex) else BigEndian(bytes[1..headerSize]);
        if headerSize + dataSize > |bytes| then None
        else Some(Head(kind, sizeIndex, headerSize, dataSize))
  }

  function EncodeHead(kind: nat, sizeIndex: nat, dataSize: nat): (bytes: seq<byte>)
    requires SizeIndexValid(kind, sizeIndex)
    ensures |bytes| == 1 + LengthSize(sizeIndex)
  {
    [8 * kind + sizeIndex] + BigEndianBytes(dataSize, LengthSize(sizeIndex))
  }

  /** The header can say how long the data is, and the whole element fits a 16-bit size. */
  predicate Fits(kind: nat, sizeIndex: nat, dataSize: nat) {
    && SizeIndexValid(kind, sizeIndex)
    && (sizeIndex <= 4 ==> dataSize == FixedSize(kind, sizeIndex))
    && (sizeIndex == 5 ==> dataSize < 0x100)
    && 1 + LengthSize(sizeIndex) + dataSize <= U16_MAX
  }

  predicate WellFormed(element: Element)
    decreases element, 0
  {
    match element
    case Leaf(kind, sizeIndex, data) => kind != SEQUENCE && Fits(kind, sizeIndex, |data|)
    case Sequence(sizeIndex, children) =>
      AllWellFormed(children) && Fits(SEQUENCE, sizeIndex, |EncodeAll(children)|)
  }

  predicate AllWellFormed(elements: seq<Element>)
    decreases elements, 1
  {
    elements == [] || (WellFormed(elements[0]) && AllWellFormed(elements[1..]))
  }

  function Encode(element: Element): seq<byte>
    decreases element, 0
  {
    match element
    case Leaf(kind, sizeIndex, data) =>
      (if SizeIndexValid(kind, sizeIndex) then EncodeHead(kind, sizeIndex, |data|) else []) + data
    case Sequence(sizeIndex, children) =>
      var data := EncodeAll(children);
      (if SizeIndexValid(SEQUENCE, sizeIndex) then EncodeHead(SEQUENCE, sizeIndex, |data|) else []) + data
  }

  function EncodeAll(elements: seq<Element>): seq<byte>
    decreases elements, 1
  {
    if elements == [] then [] else Encode(elements[0]) + EncodeAll(elements[1..])
  }

  /** Sequence levels below the element; a leaf or an empty sequence has none. */
  function Height(element: Element): nat
    decreases element, 0
  {
    match element
    case Leaf(_, _, _) => 0
    case Sequence(_, children) => HeightAll(children)
  }

  function HeightAll(elements: seq<Element>): nat
    decreases elements, 1
  {
    if elements == [] then 0
    else
      var first, rest := 1 + Height(elements[0]), HeightAll(elements[1..]);
      if first > rest then first else rest
  }

  /** The tree that exactly fills `bytes` and has at most `levels` levels. */
  function Decode(bytes: seq<byte>, levels: nat): Option<Element>
    decreases |bytes|, 0
  {
    match ReadHead(bytes)
    case None => None
    case Some(head) =>
      if head.Total() != |bytes| then None
      else if head.kind != SEQUENCE then Some(Leaf(head.kind, head.sizeIndex, bytes[head.headerSize..]))
      else
        match DecodeAll(bytes[head.headerSize..], levels)
        case None => None
        case Some(children) => Some(Sequence(head.sizeIndex, children))
  }

  function DecodeAll(bytes: seq<byte>, levels: nat): Option<seq<Element>>
    decreases |bytes|, 1
  {
    if bytes == [] then Some([])
    else if levels == 0 || ReadHead(bytes).None? then None
    else
      var size := ReadHead(bytes).value.Total();
      match (Decode(bytes[..size], levels - 1), DecodeAll(bytes[size..], levels))
      case (Some(first), Some(rest)) => Some([first] + rest)
      case _ => None
  }

  lemma {:induction false} BigEndianOfBytes(value: nat, size: nat)
    requires size == 0 ==> value == 0
    requires size == 1 ==> value < 0x100
    requires size == 2 || size == 3 ==> value < 0x1_0000
    requires size >= 4 ==> value < 0x1_0000
    ensures BigEndian(BigEndianBytes(value, size)) == value
    decreases size
  {
    if size != 0 {
      var bytes := BigEndianBytes(value, size);
      assert bytes[..size - 1] == BigEndianBytes(value / 0x100, size - 1);
      BigEndianOfBytes(value / 0x100, size - 1);
    }
  }

  lemma {:induction false} BytesOfBigEndian(bytes: seq<byte>)
    ensures BigEndianBytes(BigEndian(bytes), |bytes|) == bytes
  {
    if bytes != [] {
      BytesOfBigEndian(bytes[..|bytes| - 1]);
    }
  }

  lemma FirstByte(kind: nat, sizeIndex: nat)
    requires SizeIndexValid(kind, sizeIndex)
    ensures (8 * kind + sizeIndex) / 8 == kind && (8 * kind + sizeIndex) % 8 == sizeIndex
  {
  }

  lemma HeadOfEncoded(kind: nat, sizeIndex: nat, data: seq<byte>, rest: seq<byte>)
    requires Fits(kind, sizeIndex, |data|)
    ensures ReadHead(EncodeHead(kind, sizeIndex, |data|) + data + rest)
         == Some(Head(kind, sizeIndex, 1 + LengthSize(sizeIndex), |data|))
  {
    hide SizeIndexValid, BigEndian, BigEndianBytes;
    var bytes := EncodeHead(kind, sizeIndex, |data|) + data + rest;
    FirstByte(kind, sizeIndex);
    assert bytes[0] == 8 * kind + sizeIndex;
    assert sizeIndex <= 7 by { LengthSizes(kind, sizeIndex); }
    if sizeIndex >= 5 {
      assert bytes[1..1 + LengthSize(sizeIndex)] == BigEndianBytes(|data|, LengthSize(sizeIndex));
      BigEndianOfBytes(|data|, LengthSize(sizeIndex));
    }
  }

  lemma LengthSizes(kind: nat, sizeIndex: nat)
    requires SizeIndexValid(kind, sizeIndex)
    ensures sizeIndex <= 7
  {
  }

  lemma EncodedHead(bytes: seq<byte>)
    requires ReadHead(bytes).Some? && ReadHead(bytes).value.Total() <= U16_MAX
    ensures var head := ReadHead(bytes).value;
            && Fits(head.kind, head.sizeIndex, head.dataSize)
            && head.headerSize == 1 + LengthSize(head.sizeIndex)
            && EncodeHead(head.kind, head.sizeIndex, head.dataSize) == bytes[..head.headerSize]
  {
    hide SizeIndexValid, BigEndian, BigEndianBytes;
    var head := ReadHead(bytes).value;
    var length := bytes[1..head.headerSize];
    assert bytes[..head.headerSize] == [bytes[0]] + length;
    assert head.sizeIndex <= 7 by { LengthSizes(head.kind, head.sizeIndex); }
    if head.sizeIndex >= 5 {
      BytesOfBigEndian(length);
      if head.sizeIndex == 5 { BigEndianOfOne(length); }
    } else {
      NoBytes(head.dataSize);
    }
  }

  lemma NoBytes(value: nat)
    ensures BigEndianBytes(value, 0) == []
  {
  }

  lemma BigEndianOfOne(bytes: seq<byte>)
    requires |bytes| == 1
    ensures BigEndian(bytes) == bytes[0]
  {
    assert bytes[..0] == [];
  }

  /** Encoding then decoding gives back the tree, exactly when its height is allowed. */
  lemma {:induction false} DecodeOfEncode(element: Element, levels: nat)
    requires WellFormed(element)
    ensures Decode(Encode(element), levels) == if Height(element) <= levels then Some(element) else None
    decreases element, 0
  {
    var bytes := Encode(element);
    match element
    case Leaf(kind, sizeIndex, data) =>
      HeadOfEncoded(kind, sizeIndex, data, []);
      assert EncodeHead(kind, sizeIndex, |data|) + data + [] == bytes;
    case Sequence(sizeIndex, children) =>
      var data := EncodeAll(children);
      HeadOfEncoded(SEQUENCE, sizeIndex, data, []);
      assert EncodeHead(SEQUENCE, sizeIndex, |data|) + data + [] == bytes;
      DecodeAllOfEncode(children, levels);
  }

  lemma {:induction false} DecodeAllOfEncode(elements: seq<Element>, levels: nat)
    requires AllWellFormed(elements)
    ensures DecodeAll(EncodeAll(elements), levels) == if HeightAll(elements) <= levels then Some(elements) else None
    decreases elements, 1
  {
    hide *;
    if elements == [] {
      EmptyList(levels);
    } else {
      var first, others := elements[0], elements[1..];
      assert elements == [first] + others;
      ConsFacts(first, others);
      if levels > 0 {
        DecodeOfEncode(first, levels - 1);
        DecodeAllOfEncode(others, levels);
      }
      DecodedCons(first, others, levels);
    }
  }

  lemma DecodedCons(first: Element, others: seq<Element>, levels: nat)
    requires WellFormed(first)
    requires levels > 0 ==> Decode(Encode(first), levels - 1) == if Height(first) < levels then Some(first) else None
    requires levels > 0 ==>
               DecodeAll(EncodeAll(others), levels) == if HeightAll(others) <= levels then Some(others) else None
    ensures DecodeAll(EncodeAll([first] + others), levels)
         == if HeightAll([first] + others) <= levels then Some([first] + others) else None
  {
    hide *;
    ConsFacts(first, others);
    DecodeCons(first, EncodeAll(others), levels);
  }

  /** Decoding a list takes the first element off. */
  lemma DecodeCons(first: Element, rest: seq<byte>, levels: nat)
    requires WellFormed(first)
    ensures DecodeAll(Encode(first) + rest, levels)
         == if levels == 0 then None
            else
              match (Decode(Encode(first), levels - 1), DecodeAll(rest, levels))
              case (Some(element), Some(elements)) => Some([element] + elements)
              case _ => None
  {
    hide WellFormed, Decode, Encode, ReadHead;
    FirstOfEncoded(first, rest);
    var bytes := Encode(first) + rest;
    assert bytes[..|Encode(first)|] == Encode(first) && bytes[|Encode(first)|..] == rest;
    assert Header(first).Total() > 0;
  }

  /** The header in front of an encoded element delimits that element. */
  lemma FirstOfEncoded(element: Element, rest: seq<byte>)
    requires WellFormed(element)
    ensures ReadHead(Encode(element) + rest).Some?
    ensures ReadHead(Encode(element) + rest).value == Header(element)
    ensures Header(element).Total() == |Encode(element)|
  {
    match element
    case Leaf(kind, sizeIndex, data) => HeadOfEncoded(kind, sizeIndex, data, rest);
    case Sequence(sizeIndex, children) => HeadOfEncoded(SEQUENCE, sizeIndex, EncodeAll(children), rest);
  }

  function Header(element: Element): Head {
    match element
    case Leaf(kind, sizeIndex, data) => Head(kind, sizeIndex, 1 + LengthSize(sizeIndex), |data|)
    case Sequence(sizeIndex, children) =>
      Head(SEQUENCE, sizeIndex, 1 + LengthSize(sizeIndex), |EncodeAll(children)|)
  }

  /** Decoding then encoding gives back the bytes. */
  lemma {:induction false} EncodeOfDecode(bytes: seq<byte>, levels: nat)
    requires |bytes| <= U16_MAX && Decode(bytes, levels).Some?
    ensures var element := Decode(bytes, levels).value;
            WellFormed(element) && Height(element) <= levels && Encode(element) == bytes
    decreases |bytes|, 0
  {
    var head := ReadHead(bytes).value;
    EncodedHead(bytes);
    assert bytes == bytes[..head.headerSize] + bytes[head.headerSize..];
    if head.kind == SEQUENCE {
      EncodeOfDecodeAll(bytes[head.headerSize..], levels);
    }
  }

  lemma {:induction false} EncodeOfDecodeAll(bytes: seq<byte>, levels: nat)
    requires |bytes| <= U16_MAX && DecodeAll(bytes, levels).Some?
    ensures var elements := DecodeAll(bytes, levels).value;
            && AllWellFormed(elements)
            && HeightAll(elements) <= levels
            && EncodeAll(elements) == bytes
    decreases |bytes|, 1
  {
    hide *;
    if bytes == [] {
      EmptyList(levels);
    } else {
      var front, back := UnfoldDecodeAll(bytes, levels);
      EncodeOfDecode(front, levels - 1);
      EncodeOfDecodeAll(back, levels);
      ConsFacts(Decode(front, levels - 1).value, DecodeAll(back, levels).value);
    }
  }

  lemma EmptyList(levels: nat)
    ensures DecodeAll([], levels) == Some([])
    ensures AllWellFormed([]) && HeightAll([]) == 0 && EncodeAll([]) == []
  {
  }

  lemma UnfoldDecodeAll(bytes: seq<byte>, levels: nat) returns (front: seq<byte>, back: seq<byte>)
    requires bytes != [] && DecodeAll(bytes, levels).Some?
    ensures bytes == front + back && |back| < |bytes| && levels > 0
    ensures Decode(front, levels - 1).Some? && DecodeAll(back, levels).Some?
    ensures DecodeAll(bytes, levels)
         == Some([Decode(front, levels - 1).value] + DecodeAll(back, levels).value)
  {
    hide Decode, ReadHead;
    var size := ReadHead(bytes).value.Total();
    front, back := bytes[..size], bytes[size..];
  }

  lemma ConsFacts(first: Element, rest: seq<Element>)
    ensures EncodeAll([first] + rest) == Encode(first) + EncodeAll(rest)
    ensures AllWellFormed([first] + rest) <==> WellFormed(first) && AllWellFormed(rest)
    ensures HeightAll([first] + rest)
         == if 1 + Height(first) > HeightAll(rest) then 1 + Height(first) else HeightAll(rest)
  {
    hide WellFormed, Encode, Height;
    assert ([first] + rest)[1..] == rest;
  }

  /** A byte string decodes to a tree exactly when it is that tree's encoding and the height is allowed. */
  lemma DecodeIsInverseOfEncode(bytes: seq<byte>, element: Element, levels: nat)
    requires |bytes| <= U16_MAX
    ensures Decode(bytes, levels) == Some(element)
       <==> WellFormed(element) && Height(element) <= levels && Encode(element) == bytes
  {
    if Decode(bytes, levels) == Some(element) { EncodeOfDecode(bytes, levels); }
    if WellFormed(element) { DecodeOfEncode(element, levels); }
  }

  /** The length that follows a header byte. */
  function LengthBytes(sizeIndex: nat, length: nat): seq<int> {
    if sizeIndex == 5 then [length]
    else if sizeIndex == 6 then [length / 0x100, length % 0x100]
    else if sizeIndex == 7 then [0, 0, length / 0x100, length % 0x100]
    else []
  }

  /**
   How each element is written (section 3.2): its kind in the upper five bits,
   then a size that is fixed or given in one, two or four bytes, and its data.
   */
  lemma LeafIsWritten(kind: nat, sizeIndex: nat, data: seq<byte>)
    requires |data| <= U16_MAX
    ensures WellFormed(Leaf(kind, sizeIndex, data))
       <==> || (kind == 0 && sizeIndex == 0 && data == [])
            || ((kind == 1 || kind == 2) && sizeIndex <= 4 && |data| == [1, 2, 4, 8, 16][sizeIndex])
            || (kind == 3 && sizeIndex == 1 && |data| == 2)
            || (kind == 3 && sizeIndex == 2 && |data| == 4)
            || (kind == 3 && sizeIndex == 4 && |data| == 16)
            || (kind == 5 && sizeIndex == 0 && |data| == 1)
            || (kind in {4, 7, 8} && sizeIndex == 5 && |data| < 0x100)
            || (kind in {4, 7, 8} && sizeIndex == 6 && 3 + |data| <= 0xffff)
            || (kind in {4, 7, 8} && sizeIndex == 7 && 5 + |data| <= 0xffff)
    ensures WellFormed(Leaf(kind, sizeIndex, data)) ==>
              Encode(Leaf(kind, sizeIndex, data)) == [8 * kind + sizeIndex] + LengthBytes(sizeIndex, |data|) + data
  {
    if WellFormed(Leaf(kind, sizeIndex, data)) { LengthIsWritten(sizeIndex, |data|); }
    hide BigEndianBytes;
  }

  lemma SequenceIsWritten(sizeIndex: nat, children: seq<Element>)
    requires |EncodeAll(children)| <= U16_MAX
    ensures WellFormed(Sequence(sizeIndex, children))
       <==> && AllWellFormed(children)
            && (|| (sizeIndex == 5 && |EncodeAll(children)| < 0x100)
                || (sizeIndex == 6 && 3 + |EncodeAll(children)| <= 0xffff)
                || (sizeIndex == 7 && 5 + |EncodeAll(children)| <= 0xffff))
    ensures WellFormed(Sequence(sizeIndex, children)) ==>
              Encode(Sequence(sizeIndex, children))
              == [8 * 6 + sizeIndex] + LengthBytes(sizeIndex, |EncodeAll(children)|) + EncodeAll(children)
  {
    if WellFormed(Sequence(sizeIndex, children)) { LengthIsWritten(sizeIndex, |EncodeAll(children)|); }
    hide BigEndianBytes, AllWellFormed, EncodeAll;
  }

  lemma LengthIsWritten(sizeIndex: nat, length: nat)
    requires sizeIndex <= 7 && length <= U16_MAX && (sizeIndex == 5 ==> length < 0x100)
    ensures BigEndianBytes(length, LengthSize(sizeIndex)) == LengthBytes(sizeIndex, length)
  {
    if sizeIndex == 7 {
      assert BigEndianBytes(length, 4)
          == BigEndianBytes(length / 0x100 / 0x100, 2) + [length / 0x100 % 0x100] + [length % 0x100];
    }
  }
}
