/** Finding the report descriptor in a HID descriptor list attribute. */
module SdpReport {
  import opened Basics
  import opened SdpElements
  import opened SdpSearch

  datatype Entry = Entry(kind: byte, data: seq<byte>)

  /** A class descriptor: a sequence of exactly an 8-bit kind and a string. */
  function EntryOf(children: seq<Element>): Option<Entry> {
    if |children| == 2
       && children[0].Leaf? && children[0].kind == UINT && |children[0].data| == 1
       && children[1].Leaf? && children[1].kind == STRING
    then Some(Entry(children[0].data[0], children[1].data))
    else None
  }

  function ElementEntry(element: Element): Option<Entry> {
    match element
    case Leaf(_, _, _) => None
    case Sequence(_, children) => EntryOf(children)
  }

  /** Every entry is a class descriptor of some other kind. */
  predicate NoneIsReport(elements: seq<Element>) {
    forall i | 0 <= i < |elements| ::
      ElementEntry(elements[i]).Some? && ElementEntry(elements[i]).value.kind != REPORT_KIND
  }

  /** The string of the first entry, which must be the only report descriptor. */
  function ReportAmong(elements: seq<Element>): Option<seq<byte>> {
    if elements == [] || ElementEntry(elements[0]).None? then None
    else
      var first := ElementEntry(elements[0]).value;
      if first.kind == REPORT_KIND && NoneIsReport(elements[1..]) then Some(first.data) else None
  }

  function ReportOf(tree: Element): Option<seq<byte>> {
    match tree
    case Leaf(_, _, _) => None
    case Sequence(_, children) => ReportAmong(children)
  }

  function ReportIn(bytes: seq<byte>): Option<seq<byte>> {
    match Decode(bytes, DEPTH_LIMIT)
    case None => None
    case Some(tree) => ReportOf(tree)
  }

  /** A sequence of an 8-bit unsigned integer and a string, and nothing else. */
  predicate IsEntry(element: Element) {
    && element.Sequence?
    && |element.children| == 2
    && element.children[0].Leaf? && element.children[0].kind == 1 && |element.children[0].data| == 1
    && element.children[1].Leaf? && element.children[1].kind == 4
  }

  /**
   A report is found exactly in a list whose children are all such entries, the
   first with the kind 0x22 and the others with another one; it is the string
   of the first entry.
   */
  lemma ReportListed(tree: Element, report: seq<byte>)
    ensures ReportOf(tree) == Some(report)
       <==> && tree.Sequence?
            && tree.children != []
            && (forall i | 0 <= i < |tree.children| ::
                  IsEntry(tree.children[i]) && (tree.children[i].children[0].data[0] == 0x22 <==> i == 0))
            && tree.children[0].children[1].data == report
  {
    if tree.Sequence? && tree.children != [] {
      var children := tree.children;
      assert forall i | 0 < i < |children| :: children[i] == children[1..][i - 1];
      forall child ensures ElementEntry(child).Some? <==> IsEntry(child) {
      }
      assert NoneIsReport(children[1..])
        <==> forall i | 0 < i < |children| ::
               ElementEntry(children[i]).Some? && ElementEntry(children[i]).value.kind != 0x22;
    }
  }

  lemma {:induction false} EntriesAreShallow(elements: seq<Element>)
    requires forall i | 0 <= i < |elements| :: ElementEntry(elements[i]).Some?
    ensures HeightAll(elements) <= 2
  {
    if elements != [] {
      EntriesAreShallow(elements[1..]);
      var children := elements[0].children;
      assert children == [children[0], children[1]];
      assert HeightAll(children[1..][1..]) == 0;
      assert HeightAll(children[1..]) == 1;
      assert HeightAll(children) == 1;
    }
  }

  /**
   A report descriptor is found exactly when the buffer is the encoding of such
   a list; the shape alone keeps the tree within the depth limit.
   */
  lemma ReportShape(bytes: seq<byte>, report: seq<byte>)
    requires |bytes| <= U16_MAX
    ensures ReportIn(bytes) == Some(report)
       <==> exists tree: Element :: WellFormed(tree) && Encode(tree) == bytes && ReportOf(tree) == Some(report)
  {
    hide Decode, Encode, WellFormed, Height;
    if ReportIn(bytes) == Some(report) {
      DecodeIsInverseOfEncode(bytes, Decode(bytes, DEPTH_LIMIT).value, DEPTH_LIMIT);
    }
    forall tree: Element | WellFormed(tree) && Encode(tree) == bytes && ReportOf(tree) == Some(report)
      ensures ReportIn(bytes) == Some(report)
    {
      ReportIsShallow(tree);
      DecodeIsInverseOfEncode(bytes, tree, DEPTH_LIMIT);
    }
  }

  lemma ReportIsShallow(tree: Element)
    requires ReportOf(tree).Some?
    ensures Height(tree) <= DEPTH_LIMIT
  {
    var children := tree.children;
    assert forall i | 0 < i < |children| :: children[i] == children[1..][i - 1];
    EntriesAreShallow(children);
  }

  /** The two reads inside an entry. */
  method ReadEntry(data: seq<byte>, ghost children: seq<Element>, ghost levels: nat) returns (entry: Option<Entry>)
    requires |data| <= U16_MAX && DecodeAll(data, levels) == Some(children)
    ensures entry == EntryOf(children)
  {
    hide ReadHead, Decode, DecodeAll;
    ListHead(data, levels);
    entry := None;
    var k := ReadElement(data);
    if k.None? { return; }
    var kind := k.value;
    var rest := data[kind.totalSize..];
    ListHead(rest, levels);
    if kind.kind != UINT || kind.dataSize != 1 || kind.totalSize >= |data| { return; }
    var v := ReadElement(rest);
    if v.None? { return; }
    var value := v.value;
    ListHead(rest[value.totalSize..], levels);
    if value.kind != STRING || kind.totalSize + value.totalSize != |data| { return; }
    entry := Some(Entry(kind.data[0], value.data));
  }

  /** How the first element of a decoded list shows in its bytes. */
  lemma ListHead(bytes: seq<byte>, levels: nat)
    requires |bytes| <= U16_MAX && DecodeAll(bytes, levels).Some?
    ensures bytes == [] <==> DecodeAll(bytes, levels).value == []
    ensures bytes == [] ==> ReadHead(bytes).None?
    ensures bytes != [] ==>
              var elements := DecodeAll(bytes, levels).value;
              && levels > 0
              && ReadHead(bytes).Some?
              && var element := ElementOf(bytes, ReadHead(bytes).value);
              && DecodeAll(bytes[element.totalSize..], levels) == Some(elements[1..])
              && |element.data| == element.dataSize
              && (elements[0].Leaf? <==> element.kind != SEQUENCE)
              && (elements[0].Leaf? ==> elements[0].kind == element.kind && elements[0].data == element.data)
              && (elements[0].Sequence? ==> DecodeAll(element.data, levels - 1) == Some(elements[0].children))
  {
    if bytes != [] {
      hide ReadHead;
      var head := ReadHead(bytes).value;
      var front := bytes[..head.Total()];
      assert front[head.headerSize..] == bytes[head.headerSize..head.Total()];
      SameHead(bytes, head.Total());
      assert DecodeAll(bytes, levels).value[1..] == DecodeAll(bytes[head.Total()..], levels).value;
    }
  }

  lemma SameHead(bytes: seq<byte>, size: nat)
    requires ReadHead(bytes).Some? && size == ReadHead(bytes).value.Total()
    ensures ReadHead(bytes[..size]) == ReadHead(bytes)
  {
    hide BigEndian, SizeIndexValid;
    assert bytes[..size][1..ReadHead(bytes).value.headerSize] == bytes[1..ReadHead(bytes).value.headerSize];
  }

  /** The child at the front of the list and the entry it holds. */
  method ReadChild(rest: seq<byte>, ghost todo: seq<Element>) returns (entry: Option<Entry>, size: nat)
    requires 0 < |rest| <= U16_MAX && DecodeAll(rest, DEPTH_LIMIT) == Some(todo) && todo != []
    ensures entry == ElementEntry(todo[0])
    ensures entry.Some? ==> 0 < size <= |rest| && DecodeAll(rest[size..], DEPTH_LIMIT) == Some(todo[1..])
  {
    hide Decode, DecodeAll, EntryOf;
    ListHead(rest, DEPTH_LIMIT);
    entry, size := None, 0;
    var c := ReadElement(rest);
    if c.None? { return; }
    var child := c.value;
    if child.kind != SEQUENCE { return; }
    entry := ReadEntry(child.data, todo[0].children, DEPTH_LIMIT - 1);
    size := child.totalSize;
  }

  method FindReportDescriptor(buffer: seq<byte>) returns (report: Option<seq<byte>>)
    requires |buffer| <= U16_MAX
    ensures report == ReportIn(buffer)
  {
    hide *;
    ReportOfRoot(buffer);
    var valid := ValidateElementTree(buffer, 0);
    if !valid { return None; }
    var r := ReadElement(buffer);
    if r.None? || r.value.kind != SEQUENCE || r.value.totalSize != |buffer| { return None; }
    var root := r.value;
    var offset, entryIndex := 0, 0;
    ghost var children := DecodeAll(root.data, DEPTH_LIMIT).value;
    ghost var todo := children;
    assert root.data[0..] == root.data;
    report := None;
    while offset < root.dataSize
      invariant offset <= root.dataSize
      invariant DecodeAll(root.data[offset..], DEPTH_LIMIT) == Some(todo)
      invariant ReportIn(buffer) == if entryIndex == 0 then ReportAmong(todo)
                                    else if NoneIsReport(todo) then report else None
      invariant report.Some? <==> entryIndex != 0
    {
      var rest := root.data[offset..];
      TakeEntry(rest, todo);
      var e, size := ReadChild(rest, todo);
      if e.None? { return None; }
      if entryIndex == 0 && e.value.kind != REPORT_KIND { return None; }
      if entryIndex != 0 && e.value.kind == REPORT_KIND { return None; }
      if entryIndex == 0 { report := Some(e.value.data); }
      assert rest[size..] == root.data[offset + size..];
      offset := offset + size;
      entryIndex := entryIndex + 1;
      todo := todo[1..];
    }
    assert root.data[offset..] == [];
    NothingLeft(todo);
  }

  /** One step of the two list predicates. */
  lemma TakeEntry(bytes: seq<byte>, elements: seq<Element>)
    requires bytes != [] && |bytes| <= U16_MAX && DecodeAll(bytes, DEPTH_LIMIT) == Some(elements)
    ensures elements != []
    ensures NoneIsReport(elements)
       <==> && ElementEntry(elements[0]).Some?
            && ElementEntry(elements[0]).value.kind != REPORT_KIND
            && NoneIsReport(elements[1..])
    ensures ReportAmong(elements)
         == if && ElementEntry(elements[0]).Some?
               && ElementEntry(elements[0]).value.kind == REPORT_KIND
               && NoneIsReport(elements[1..])
            then Some(ElementEntry(elements[0]).value.data) else None
  {
    hide DecodeAll, ElementEntry;
    ListHead(bytes, DEPTH_LIMIT);
    NoneIsReportCons(elements);
  }

  lemma NothingLeft(elements: seq<Element>)
    requires DecodeAll([], DEPTH_LIMIT) == Some(elements)
    ensures ReportAmong(elements) == None && NoneIsReport(elements)
  {
  }

  lemma ReportOfRoot(bytes: seq<byte>)
    requires |bytes| <= U16_MAX
    ensures DEPTH_LIMIT == 4
    ensures Decode(bytes, DEPTH_LIMIT).None? ==> ReportIn(bytes) == None
    ensures Decode(bytes, DEPTH_LIMIT).Some? ==>
              && ReadHead(bytes).Some?
              && var root := ElementOf(bytes, ReadHead(bytes).value);
              && root.totalSize == |bytes|
              && |root.data| == root.dataSize
              && (root.kind != SEQUENCE ==> ReportIn(bytes) == None)
              && (root.kind == SEQUENCE ==>
                    && DecodeAll(root.data, DEPTH_LIMIT).Some?
                    && ReportIn(bytes) == ReportAmong(DecodeAll(root.data, DEPTH_LIMIT).value))
  {
    hide ReadHead, ReportAmong;
    if Decode(bytes, DEPTH_LIMIT).Some? {
      var head := ReadHead(bytes).value;
      assert bytes[head.headerSize..] == bytes[head.headerSize..head.Total()];
    }
  }

  lemma NoneIsReportCons(elements: seq<Element>)
    ensures elements != [] ==>
              (NoneIsReport(elements)
               <==> && ElementEntry(elements[0]).Some?
                    && ElementEntry(elements[0]).value.kind != REPORT_KIND
                    && NoneIsReport(elements[1..]))
  {
    if elements != [] {
      assert elements == [elements[0]] + elements[1..];
      assert forall i | 0 < i < |elements| :: elements[i] == elements[1..][i - 1];
    }
  }
}
