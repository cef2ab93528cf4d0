/**
 Reading, validating and searching service discovery attributes. Each search is
 proved against the trees that the bytes encode.
 */
module SdpSearch {
  import opened Basics
  import opened SdpElements

  const DEPTH_LIMIT := 4
  const L2CAP_UUID := 0x0100
  const REPORT_KIND: byte := 0x22

  /** An element inside a buffer: `data` is the part of the buffer it points to. */
  datatype DataElement = DataElement(kind: nat, sizeIndex: nat, data: seq<byte>, dataSize: uint16, totalSize: uint16)

  function ElementOf(bytes: seq<byte>, head: Head): DataElement
    requires ReadHead(bytes) == Some(head) && |bytes| <= U16_MAX
  {
    DataElement(head.kind, head.sizeIndex, bytes[head.headerSize..head.Total()], head.dataSize, head.Total())
  }

  method ReadElement(buffer: seq<byte>) returns (element: Option<DataElement>)
    requires |buffer| <= U16_MAX
    ensures element == match ReadHead(buffer)
                       case None => None
                       case Some(head) => Some(ElementOf(buffer, head))
  {
    var available := |buffer|;
    if available == 0 { return None; }
    var kind, sizeIndex := buffer[0] / 8, buffer[0] % 8;
    if !SizeIndexValid(kind, sizeIndex) { return None; }
    var headerSize := 1;
    var dataSize: uint32;
    if kind == NIL {
      dataSize := 0;
    } else if sizeIndex <= 4 {
      dataSize := Power(sizeIndex);
    } else {
      var lengthBytes := Power(sizeIndex - 5);
      if 1 + lengthBytes > available { return None; }
      headerSize := 1 + lengthBytes;
      dataSize := 0;
      for i := 0 to lengthBytes
        invariant dataSize == BigEndian(buffer[1..1 + i])
      {
        assert buffer[1..1 + i + 1][..i] == buffer[1..1 + i];
        dataSize := 0x100 * dataSize + buffer[1 + i];
      }
    }
    if dataSize > U16_MAX || headerSize + dataSize > available { return None; }
    element := Some(DataElement(kind, sizeIndex, buffer[headerSize..headerSize + dataSize],
                                dataSize, headerSize + dataSize));
  }

  /** The validator accepts exactly what decodes within the levels that `depth` leaves. */
  method ValidateElementTree(buffer: seq<byte>, depth: nat) returns (valid: bool)
    requires |buffer| <= U16_MAX
    ensures valid == (depth <= DEPTH_LIMIT && Decode(buffer, DEPTH_LIMIT - depth).Some?)
    decreases |buffer|, DEPTH_LIMIT + 1 - depth
  {
    hide ReadHead, Decode, DecodeAll;
    if depth > DEPTH_LIMIT { return false; }
    ghost var levels := DEPTH_LIMIT - depth;
    DecodeStep(buffer, levels);
    var r := ReadElement(buffer);
    if r.None? || r.value.totalSize != |buffer| { return false; }
    var root := r.value;
    if root.kind != SEQUENCE { return true; }
    var offset := 0;
    assert root.data[0..] == root.data == buffer[ReadHead(buffer).value.headerSize..];
    while offset < root.dataSize
      invariant offset <= root.dataSize
      invariant DecodeAll(root.data, levels).Some? == DecodeAll(root.data[offset..], levels).Some?
    {
      var rest := root.data[offset..];
      DecodeAllStep(rest, levels);
      var c := ReadElement(rest);
      if c.None? { return false; }
      var child := c.value;
      var ok := ValidateElementTree(rest[..child.totalSize], depth + 1);
      if !ok { return false; }
      assert rest[child.totalSize..] == root.data[offset + child.totalSize..];
      offset := offset + child.totalSize;
    }
    assert root.data[offset..] == [];
    valid := offset == root.dataSize;
  }

  lemma DecodeStep(bytes: seq<byte>, levels: nat)
    ensures Decode(bytes, levels).Some?
       <==> && ReadHead(bytes).Some?
            && ReadHead(bytes).value.Total() == |bytes|
            && (ReadHead(bytes).value.kind == SEQUENCE ==>
                  DecodeAll(bytes[ReadHead(bytes).value.headerSize..], levels).Some?)
    ensures DecodeAll([], levels).Some?
  {
    hide ReadHead;
  }

  lemma DecodeAllStep(bytes: seq<byte>, levels: nat)
    requires bytes != []
    ensures DecodeAll(bytes, levels).Some?
       <==> && levels > 0
            && ReadHead(bytes).Some?
            && Decode(bytes[..ReadHead(bytes).value.Total()], levels - 1).Some?
            && DecodeAll(bytes[ReadHead(bytes).value.Total()..], levels).Some?
  {
    hide ReadHead, Decode;
  }

  /** Acceptance at the top means: the encoding, filling the buffer, of a tree of height at most four. */
  lemma ValidTrees(bytes: seq<byte>)
    requires |bytes| <= U16_MAX
    ensures Decode(bytes, DEPTH_LIMIT).Some?
       <==> exists tree: Element :: WellFormed(tree) && Height(tree) <= DEPTH_LIMIT && Encode(tree) == bytes
  {
    if Decode(bytes, DEPTH_LIMIT).Some? {
      DecodeIsInverseOfEncode(bytes, Decode(bytes, DEPTH_LIMIT).value, DEPTH_LIMIT);
    }
    forall tree: Element | WellFormed(tree) && Height(tree) <= DEPTH_LIMIT && Encode(tree) == bytes
      ensures Decode(bytes, DEPTH_LIMIT).Some?
    {
      DecodeIsInverseOfEncode(bytes, tree, DEPTH_LIMIT);
    }
  }

  // ------------------------------------------------------------------------
  // The L2CAP channel number

  function Pair(high: byte, low: byte): uint16 {
    var h: nat := high;
    0x100 * h + low
  }

  function Uint16Of(element: DataElement): Option<uint16> {
    if |element.data| == 2 && element.dataSize == 2 && (element.kind == UINT || element.kind == UUID)
    then Some(Pair(element.data[0], element.data[1]))
    else None
  }

  /** The number in a protocol descriptor whose content is `bytes`: the L2CAP UUID, then a 16-bit integer. */
  function DescriptorPsm(bytes: seq<byte>): Option<uint16>
    requires |bytes| <= U16_MAX
  {
    match ReadHead(bytes)
    case None => None
    case Some(head) =>
      var first := ElementOf(bytes, head);
      var next := head.Total();
      if first.kind != UUID || Uint16Of(first) != Some(L2CAP_UUID) || ReadHead(bytes[next..]).None? then None
      else
        var second := ElementOf(bytes[next..], ReadHead(bytes[next..]).value);
        if second.kind == UINT then Uint16Of(second) else None
  }

  /** What the search finds in an arbitrary byte string, well-formed or not. */
  function PsmIn(bytes: seq<byte>): Option<uint16>
    requires |bytes| <= U16_MAX
    decreases |bytes|, 0
  {
    match ReadHead(bytes)
    case None => None
    case Some(head) =>
      if head.kind != SEQUENCE then None else PsmAmong(bytes[head.headerSize..head.Total()])
  }

  function PsmAmong(bytes: seq<byte>): Option<uint16>
    requires |bytes| <= U16_MAX
    decreases |bytes|, 1
  {
    if bytes == [] || ReadHead(bytes).None? then None
    else
      var head := ReadHead(bytes).value;
      var here := if head.kind == SEQUENCE then DescriptorPsm(bytes[head.headerSize..head.Total()]) else None;
      if here.Some? then here
      else
        var within := if head.kind == SEQUENCE then PsmIn(bytes[..head.Total()]) else None;
        if within.Some? then within else PsmAmong(bytes[head.Total()..])
  }

  method FindL2capPsm(buffer: seq<byte>) returns (psm: Option<uint16>)
    requires |buffer| <= U16_MAX
    ensures psm == PsmIn(buffer)
    decreases |buffer|
  {
    hide ReadHead, DescriptorPsm;
    var r := ReadElement(buffer);
    if r.None? || r.value.kind != SEQUENCE { return None; }
    var root := r.value;
    var offset := 0;
    assert root.data[0..] == root.data;
    while offset < root.dataSize
      invariant offset <= root.dataSize
      invariant PsmAmong(root.data) == PsmAmong(root.data[offset..])
    {
      var rest := root.data[offset..];
      var c := ReadElement(rest);
      if c.None? { return None; }
      var child := c.value;
      if child.kind == SEQUENCE {
        psm := ReadDescriptorPsm(child.data);
        if psm.Some? { return; }
        psm := FindL2capPsm(rest[..child.totalSize]);
        if psm.Some? { return; }
      }
      assert rest[child.totalSize..] == root.data[offset + child.totalSize..];
      offset := offset + child.totalSize;
    }
    psm := None;
  }

  /** The two reads of a candidate descriptor inside the search loop. */
  method ReadDescriptorPsm(data: seq<byte>) returns (psm: Option<uint16>)
    requires |data| <= U16_MAX
    ensures psm == DescriptorPsm(data)
  {
    psm := None;
    var f := ReadElement(data);
    if f.Some? && f.value.kind == UUID && Uint16Of(f.value) == Some(L2CAP_UUID) {
      var next := f.value.totalSize;
      if next < |data| {
        var s := ReadElement(data[next..]);
        if s.Some? && s.value.kind == UINT { psm := Uint16Of(s.value); }
      }
    }
  }

  /** A protocol descriptor for L2CAP, as a tree: the L2CAP UUID and a 16-bit unsigned integer, and perhaps more. */
  predicate IsL2capDescriptor(element: Element) {
    && element.Sequence?
    && |element.children| >= 2
    && element.children[0] == Leaf(3, 1, [0x01, 0x00])
    && element.children[1].Leaf?
    && element.children[1].kind == 1
    && |element.children[1].data| == 2
  }

  /** The sequences below the root, each before the ones inside it. */
  function Preorder(element: Element): seq<Element>
    decreases element, 0
  {
    match element
    case Leaf(_, _, _) => []
    case Sequence(_, children) => PreorderAll(children)
  }

  function PreorderAll(elements: seq<Element>): seq<Element>
    decreases elements, 1
  {
    if elements == [] then []
    else
      (if elements[0].Sequence? then [elements[0]] + Preorder(elements[0]) else []) + PreorderAll(elements[1..])
  }

  /** The channel number of the first L2CAP descriptor of a list of sequences. */
  function FirstPsm(sequences: seq<Element>): Option<uint16> {
    if sequences == [] then None
    else if IsL2capDescriptor(sequences[0]) then
      Some(Pair(sequences[0].children[1].data[0], sequences[0].children[1].data[1]))
    else FirstPsm(sequences[1..])
  }

  lemma {:induction false} FirstPsmOfConcat(a: seq<Element>, b: seq<Element>)
    ensures FirstPsm(a + b) == if FirstPsm(a).Some? then FirstPsm(a) else FirstPsm(b)
  {
    if a == [] {
      assert a + b == b;
    } else {
      assert (a + b)[1..] == a[1..] + b;
      FirstPsmOfConcat(a[1..], b);
    }
  }

  /** The 16-bit integer of a descriptor, most significant byte first. */
  function NumberIn(descriptor: Element): int
    requires IsL2capDescriptor(descriptor)
  {
    var data := descriptor.children[1].data;
    data[0] as int * 0x100 + data[1] as int
  }

  /** A successful search names a descriptor that is there, and failure means that there is none. */
  lemma {:induction false} FirstPsmIsFirst(sequences: seq<Element>)
    ensures FirstPsm(sequences).None? <==> forall s <- sequences :: !IsL2capDescriptor(s)
    ensures FirstPsm(sequences).Some? ==>
              exists i :: && 0 <= i < |sequences| && IsL2capDescriptor(sequences[i])
                          && FirstPsm(sequences).value == NumberIn(sequences[i])
                          && forall j | 0 <= j < i :: !IsL2capDescriptor(sequences[j])
  {
    if sequences != [] {
      if IsL2capDescriptor(sequences[0]) {
        assert FirstPsm(sequences).value == NumberIn(sequences[0]);
      } else {
        FirstPsmIsFirst(sequences[1..]);
        if FirstPsm(sequences).Some? {
          var i :| && 0 <= i < |sequences[1..]| && IsL2capDescriptor(sequences[1..][i])
                   && FirstPsm(sequences[1..]).value == NumberIn(sequences[1..][i])
                   && forall j | 0 <= j < i :: !IsL2capDescriptor(sequences[1..][j]);
          assert sequences[i + 1] == sequences[1..][i];
          assert forall j | 0 < j < i + 1 :: sequences[j] == sequences[1..][j - 1];
        }
      }
    }
  }

  /** What the two reads of a descriptor see at the start of an encoded list. */
  lemma ReadOfEncoded(elements: seq<Element>)
    requires elements != [] && AllWellFormed(elements) && |EncodeAll(elements)| <= U16_MAX
    ensures var bytes, first := EncodeAll(elements), elements[0];
            && ReadHead(bytes) == Some(Header(first))
            && ElementOf(bytes, Header(first))
               == DataElement(Header(first).kind, Header(first).sizeIndex,
                              if first.Leaf? then first.data else EncodeAll(first.children),
                              Header(first).dataSize, Header(first).Total())
            && bytes[Header(first).Total()..] == EncodeAll(elements[1..])
  {
    hide WellFormed, ReadHead, Encode;
    var first, rest := elements[0], EncodeAll(elements[1..]);
    FirstOfEncoded(first, rest);
    FirstDataOfEncoded(first, rest);
    assert (Encode(first) + rest)[|Encode(first)|..] == rest;
  }

  lemma DescriptorOfEncoded(children: seq<Element>)
    requires AllWellFormed(children) && |EncodeAll(children)| <= U16_MAX
    ensures DescriptorPsm(EncodeAll(children)) == FirstPsm([Sequence(5, children)])
  {
    EmptyHasNoHead();
    hide WellFormed, ReadHead, ElementOf, Encode, EncodeAll;
    var list := [Sequence(5, children)];
    assert FirstPsm(list[1..]) == None;
    if children != [] {
      ReadOfEncoded(children);
      var first := children[0];
      if first.Leaf? && first.kind == UUID && |first.data| == 2 { SmallUuid(first); }
      if |children| > 1 {
        ReadOfEncoded(children[1..]);
      }
    }
  }

  lemma EmptyHasNoHead()
    ensures ReadHead([]).None? && EncodeAll([]) == []
  {
  }

  lemma SmallUuid(element: Element)
    requires WellFormed(element) && element.Leaf? && element.kind == UUID && |element.data| == 2
    ensures element.sizeIndex == 1
    ensures Pair(element.data[0], element.data[1]) == L2CAP_UUID <==> element.data == [0x01, 0x00]
  {
  }

  /** The data of the first encoded element is the data of the tree. */
  lemma FirstDataOfEncoded(element: Element, rest: seq<byte>)
    requires WellFormed(element)
    ensures ReadHead(Encode(element) + rest) == Some(Header(element))
    ensures (Encode(element) + rest)[Header(element).headerSize..Header(element).Total()]
         == if element.Leaf? then element.data else EncodeAll(element.children)
  {
    FirstOfEncoded(element, rest);
  }

  /**
   On any well-formed tree, of any depth and with anything behind it, the search
   gives the channel number of the first descriptor in preorder.
   */
  lemma {:induction false} PsmIsFirstInPreorder(element: Element, tail: seq<byte>)
    requires WellFormed(element) && |Encode(element) + tail| <= U16_MAX
    ensures PsmIn(Encode(element) + tail) == FirstPsm(Preorder(element))
    decreases element, 0
  {
    FirstDataOfEncoded(element, tail);
    if element.Sequence? { PsmAmongIsFirst(element.children); }
  }

  lemma PsmAmongCons(elements: seq<Element>)
    requires elements != [] && AllWellFormed(elements) && |EncodeAll(elements)| <= U16_MAX
    ensures |Encode(elements[0])| <= U16_MAX && |EncodeAll(elements[1..])| <= U16_MAX
    ensures elements[0].Sequence? ==> |EncodeAll(elements[0].children)| <= U16_MAX
    ensures var first, later := elements[0], PsmAmong(EncodeAll(elements[1..]));
            PsmAmong(EncodeAll(elements))
            == if first.Leaf? then later
               else if DescriptorPsm(EncodeAll(first.children)).Some? then DescriptorPsm(EncodeAll(first.children))
               else if PsmIn(Encode(first)).Some? then PsmIn(Encode(first)) else later
  {
    var first := elements[0];
    ReadOfEncoded(elements);
    FirstOfEncoded(first, []);
    assert EncodeAll(elements)[..Header(first).Total()] == Encode(first);
    hide ReadHead, DescriptorPsm, PsmIn;
  }

  lemma {:induction false} PsmAmongIsFirst(elements: seq<Element>)
    requires AllWellFormed(elements) && |EncodeAll(elements)| <= U16_MAX
    ensures PsmAmong(EncodeAll(elements)) == FirstPsm(PreorderAll(elements))
    decreases elements, 1
  {
    if elements != [] {
      PsmAmongCons(elements);
      var first := elements[0];
      if first.Sequence? {
        DescriptorOfEncoded(first.children);
        assert FirstPsm([first]) == FirstPsm([Sequence(5, first.children)]) by {
          assert [first][1..] == [Sequence(5, first.children)][1..];
        }
      }
      hide PsmAmong, PsmIn, DescriptorPsm, FirstPsm, EncodeAll;
      PsmAmongIsFirst(elements[1..]);
      if first.Sequence? {
        assert Encode(first) + [] == Encode(first);
        PsmIsFirstInPreorder(first, []);
        FirstPsmOfConcat([first], Preorder(first));
        FirstPsmOfConcat([first] + Preorder(first), PreorderAll(elements[1..]));
      } else {
        assert [] + PreorderAll(elements[1..]) == PreorderAll(elements[1..]);
      }
    }
  }
}
