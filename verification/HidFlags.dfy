/**
 What an accepted descriptor reports, said only in terms of its items: every
 flag is the existence of one kind of item, seen from the items before it.
 Kinds and tags are the numbers listed in HidGrammar.
 */
module HidFlags {
  import opened Basics
  import opened HidItems
  import opened HidReference
  import opened HidGrammar
  import HidDescriptor
  import HidNkro

  /** Usages go to the alternative of the open delimiter, and to alternative 0 outside delimiters. */
  function Current(items: seq<Item>): nat {
    if DelimiterOpen(items) then Openings(items) else 0
  }

  /** The usages that one item adds: a usage its own one, a usage maximum the range from the waiting minimum. */
  function Given(before: seq<Item>, item: Item): seq<Usage> {
    if Is(item, 2, 0) then [UsageOf(before, item.data)]
    else if Is(item, 2, 2) && Pending(before).Some? then
      var low, high := Pending(before).value, UsageOf(before, item.data);
      if low.id <= high.id then seq(high.id - low.id + 1, i requires 0 <= i => Usage(high.page, low.id + i)) else []
    else []
  }

  /** The usages of alternative `k`, in order, since the last main item. */
  function Listed(items: seq<Item>, k: nat): seq<Usage> {
    if items == [] || IsMain(Last(items)) then []
    else
      var before := Before(items);
      Listed(before, k) + (if k == Current(before) then Given(before, Last(items)) else [])
  }

  /** Some item stands where `p` holds of it and the items before it. */
  predicate Occurs(items: seq<Item>, p: (seq<Item>, Item) -> bool) {
    exists n :: 0 <= n < |items| && p(items[..n], items[n])
  }

  predicate FirstIs(usages: seq<Usage>, page: nat, id: nat) {
    usages != [] && usages[0].page == page && usages[0].id == id
  }

  /** An application collection is named by the first usage of some alternative. */
  predicate Application(before: seq<Item>, item: Item, page: nat, id: nat) {
    && Is(item, 0, 10) && item.data == [1]
    && exists k: nat :: k <= Openings(before) && FirstIs(Listed(before, k), page, id)
  }

  predicate KeyboardCollection(before: seq<Item>, item: Item) {
    Application(before, item, 0x01, 0x06)
  }

  /** A data field that reports a consumer usage; a variable field has one bit group per usage. */
  predicate ConsumerInput(before: seq<Item>, item: Item) {
    && Is(item, 0, 8)
    && LittleEndian(item.data) % 2 == 0
    && exists k: nat :: k <= Openings(before)
                        && ConsumerWithin(Listed(before, k), if (LittleEndian(item.data) / 2) % 2 == 0
                                                             then |Listed(before, k)| else Setting(before, 9))
  }

  predicate ConsumerWithin(usages: seq<Usage>, limit: nat) {
    exists i :: 0 <= i < |usages| && i < limit && usages[i].page == 0x0c && usages[i].id != 0
  }

  predicate Consumer(before: seq<Item>, item: Item) {
    Application(before, item, 0x0c, 0x01) || ConsumerInput(before, item)
  }

  predicate ReportId(before: seq<Item>, item: Item) {
    Is(item, 1, 8)
  }

  /** Item `m` begins the keyboard collection begun last, and what it began has not ended. */
  predicate StillOpen(items: seq<Item>, m: nat) {
    && m < |items|
    && KeyboardCollection(items[..m], items[m])
    && NoneAfter(items, m)
    && DeeperAfter(items, m)
  }

  predicate NoneAfter(items: seq<Item>, m: nat) {
    forall j | m < j < |items| :: !KeyboardCollection(items[..j], items[j])
  }

  predicate DeeperAfter(items: seq<Item>, m: nat)
    requires m < |items|
  {
    forall j | m < j <= |items| :: CollectionDepth(items[..j]) > CollectionDepth(items[..m])
  }

  predicate KeyboardOpen(items: seq<Item>) {
    exists m :: 0 <= m < |items| && StillOpen(items, m)
  }

  /** Each of `count` bits has a keyboard-page usage of its own, more than eight of them keys. */
  predicate NkroBits(usages: seq<Usage>, count: nat) {
    && count <= |usages|
    && (forall i | 0 <= i < count :: usages[i].page == 0x07 && usages[i].id < 0x100)
    && (forall i, j | 0 <= i < j < count :: usages[i] == usages[j] ==> usages[i].id < 4)
    && |set i | 0 <= i < count && usages[i].id >= 4 :: usages[i].id| > 8
  }

  /** A variable data field of one-bit reports, one for each of more than eight keys. */
  predicate NkroInput(before: seq<Item>, item: Item) {
    && Is(item, 0, 8)
    && LittleEndian(item.data) % 4 == 2
    && Setting(before, 7) == 1
    && 8 < Setting(before, 9) <= 0x100
    && exists k: nat :: k <= Openings(before) && NkroBits(Listed(before, k), Setting(before, 9))
  }

  predicate TrackedNkroInput(before: seq<Item>, item: Item) {
    KeyboardOpen(before) && NkroInput(before, item)
  }

  /** What a descriptor with these items says. */
  function Described(items: seq<Item>): Info {
    if AllAllowed(items) && Closed(items) then
      Info(valid := true,
           hasKeyboard := Occurs(items, KeyboardCollection),
           hasConsumerControl := Occurs(items, Consumer),
           hasNkroKeyboard := Occurs(items, TrackedNkroInput),
           usesReportIds := Occurs(items, ReportId))
    else
      Info(false, false, false, false, false)
  }

  lemma OccursSnoc(items: seq<Item>, item: Item, p: (seq<Item>, Item) -> bool)
    ensures Occurs(items + [item], p) <==> Occurs(items, p) || p(items, item)
  {
    var longer := items + [item];
    assert longer[..|items|] == items && longer[|items|] == item;
    assert forall n | 0 <= n < |items| :: longer[..n] == items[..n] && longer[n] == items[n];
  }

  // ------------------------------------------------------------------------
  // The lists are the ones the reference collects

  ghost predicate Lists(items: seq<Item>, alternatives: seq<seq<Usage>>) {
    && |alternatives| == Openings(items) + 1
    && forall k | 0 <= k < |alternatives| :: alternatives[k] == Listed(items, k)
  }

  lemma ListedSnoc(items: seq<Item>, item: Item, k: nat)
    ensures Listed(items + [item], k)
         == if IsMain(item) then []
            else Listed(items, k) + (if k == Current(items) then Given(items, item) else [])
    ensures Openings(items + [item])
         == if IsMain(item) then 0
            else Openings(items) + if Is(item, 2, 10) && item.data == [1] then 1 else 0
  {
    var longer := items + [item];
    assert Before(longer) == items && Last(longer) == item;
  }

  lemma {:induction false} NothingListedBeyond(items: seq<Item>, k: nat)
    requires k > Openings(items)
    ensures Listed(items, k) == []
    decreases |items|
  {
    if items != [] && !IsMain(Last(items)) {
      hide Given;
      NothingListedBeyond(Before(items), k);
    }
  }

  lemma AddingLists(items: seq<Item>, item: Item, locals: Locals)
    requires Lists(items, locals.alternatives) && DelimiterOpen(items) == locals.delimiterOpen
    requires !IsMain(item) && !Is(item, 2, 10)
    ensures Lists(items + [item], AddUsages(locals, Given(items, item)).alternatives)
  {
    hide Given, Listed;
    forall k: nat { ListedSnoc(items, item, k); }
  }

  lemma LocalGives(items: seq<Item>, st: State, item: Item)
    requires Agrees(items, st) && item.Short? && item.kind == 2 && item.tag != 10
    requires Step(st, item).Some?
    ensures Step(st, item).value.locals.alternatives == AddUsages(st.locals, Given(items, item)).alternatives
  {
    SettingsInForce(items, st);
    assert UsageOf(items, item.data) == Qualified(st.globals, item.data);
    NothingAdded(st.locals);
    if item.tag == 2 {
      var low, high := st.locals.minimum.value, UsageOf(items, item.data);
      assert Given(items, item) == Range(high.page, low.id, high.id);
    }
  }

  lemma DelimiterLists(items: seq<Item>, st: State, item: Item)
    requires Agrees(items, st) && Lists(items, st.locals.alternatives) && Is(item, 2, 10)
    requires Step(st, item).Some?
    ensures Lists(items + [item], Step(st, item).value.locals.alternatives)
  {
    hide Listed, Agrees;
    assert Given(items, item) == [];
    forall k: nat { ListedSnoc(items, item, k); }
    NothingListedBeyond(items, Openings(items) + 1);
  }

  /** Items that are neither local nor main leave the alternatives alone, and main items clear them. */
  lemma OtherLists(st: State, item: Item)
    requires Step(st, item).Some?
    ensures !IsMain(item) && !(item.Short? && item.kind == 2) ==>
              Step(st, item).value.locals == st.locals
    ensures IsMain(item) ==> Step(st, item).value.locals == NO_LOCALS
  {
    hide OpenCollection, Input, SomeUsage;
    assert forall value :: OpenCollection(st, value).(locals := NO_LOCALS).locals == NO_LOCALS;
  }

  lemma StepLists(items: seq<Item>, st: State, item: Item)
    requires Agrees(items, st) && Lists(items, st.locals.alternatives) && Step(st, item).Some?
    ensures Lists(items + [item], Step(st, item).value.locals.alternatives)
  {
    OtherLists(st, item);
    assert DelimiterOpen(items) == st.locals.delimiterOpen;
    hide Step, Agrees, Given, Listed, AddUsages;
    if Is(item, 2, 10) {
      DelimiterLists(items, st, item);
    } else if IsMain(item) {
      ListedSnoc(items, item, 0);
    } else {
      AddingLists(items, item, st.locals);
      NothingAdded(st.locals);
      if item.Short? && item.kind == 2 { LocalGives(items, st, item); } else { NothingGiven(items, item); }
    }
  }

  lemma NothingGiven(items: seq<Item>, item: Item)
    requires !(item.Short? && item.kind == 2)
    ensures Given(items, item) == []
  {
  }

  lemma NothingAdded(locals: Locals)
    ensures AddUsages(locals, []) == locals
  {
    var t := Target(locals);
    assert locals.alternatives[t] + [] == locals.alternatives[t];
  }

  lemma {:induction false} RunLists(items: seq<Item>)
    ensures Run(INITIAL, items).Some? ==>
              Agrees(items, Run(INITIAL, items).value) && Lists(items, Run(INITIAL, items).value.locals.alternatives)
    decreases |items|
  {
    RunAgrees(items);
    if items != [] {
      var before := Before(items);
      hide Agrees, Step, Lists;
      RunLists(before);
      assert items == before + [Last(items)];
      RunOfSnoc(INITIAL, before, Last(items));
      if Run(INITIAL, items).Some? { StepLists(before, Run(INITIAL, before).value, Last(items)); }
    }
  }

  // ------------------------------------------------------------------------
  // One item

  lemma NamesApplication(items: seq<Item>, st: State, item: Item, page: nat, id: nat)
    requires Lists(items, st.locals.alternatives) && Is(item, 0, 10) && |item.data| == 1
    ensures Application(items, item, page, id)
       <==> LittleEndian(item.data) == 1 && SomeStartsWith(st.locals.alternatives, Usage(page, id))
  {
    hide Listed, Openings;
    var alternatives := st.locals.alternatives;
    forall k | 0 <= k < |alternatives|
      ensures StartsWith(alternatives[k], Usage(page, id)) <==> FirstIs(Listed(items, k), page, id)
    {
    }
  }

  lemma ConsumerFields(items: seq<Item>, st: State, item: Item)
    requires Agrees(items, st) && Lists(items, st.locals.alternatives) && Is(item, 0, 8)
    ensures ConsumerInput(items, item)
       <==> SomeConsumerField(st.locals.alternatives, st.globals, LittleEndian(item.data))
  {
    SettingsInForce(items, st);
    hide Listed, Openings, Agrees, Setting;
    var value := LittleEndian(item.data);
    var alternatives := st.locals.alternatives;
    forall k | 0 <= k < |alternatives|
      ensures IsConsumerField(alternatives[k], st.globals, value)
         <==> value % 2 == 0
              && ConsumerWithin(Listed(items, k), if (value / 2) % 2 == 0 then |Listed(items, k)|
                                                  else Setting(items, 9))
    {
    }
    hide IsConsumerField, ConsumerWithin;
  }

  lemma NkroBitsCover(usages: seq<Usage>, count: nat)
    ensures NkroBits(usages, count) <==> CoversBitmap(usages, count) && |Keys(usages, count)| > 8
  {
    if count <= |usages| && forall i | 0 <= i < count :: usages[i].page == 0x07 && usages[i].id < 0x100 {
      assert Keys(usages, count) == set i | 0 <= i < count && usages[i].id >= 4 :: usages[i].id;
    }
  }

  lemma NkroFields(items: seq<Item>, st: State, item: Item)
    requires Agrees(items, st) && Lists(items, st.locals.alternatives) && Is(item, 0, 8)
    ensures NkroInput(items, item)
       <==> SomeNkroField(st.locals.alternatives, st.globals, LittleEndian(item.data))
  {
    SettingsInForce(items, st);
    hide Listed, Openings, Agrees, Setting, NkroBits, CoversBitmap, Keys;
    var value := LittleEndian(item.data);
    var alternatives := st.locals.alternatives;
    forall k | 0 <= k < |alternatives|
      ensures IsNkroField(alternatives[k], st.globals, value)
         <==> value % 4 == 2 && Setting(items, 7) == 1 && 8 < Setting(items, 9) <= 0x100
              && NkroBits(Listed(items, k), Setting(items, 9))
    {
      NkroBitsCover(alternatives[k], Setting(items, 9));
    }
    hide IsNkroField;
  }

  // ------------------------------------------------------------------------
  // The keyboard collection that is tracked

  /** The depth of the collection begun by the last keyboard collection item while it is open, and otherwise 0. */
  function KeyboardDepth(items: seq<Item>): int {
    if items == [] then 0
    else
      var before, item := Before(items), Last(items);
      if KeyboardCollection(before, item) then CollectionDepth(items)
      else if Is(item, 0, 12) && KeyboardDepth(before) == CollectionDepth(before) then 0
      else KeyboardDepth(before)
  }

  ghost predicate Marks(items: seq<Item>) {
    && (forall m: nat :: m < |items| && StillOpen(items, m) ==>
          KeyboardDepth(items) == CollectionDepth(items[..m]) + 1 >= 1)
    && (KeyboardDepth(items) != 0 ==> KeyboardOpen(items))
  }

  lemma PrefixesOf(items: seq<Item>, item: Item)
    ensures (items + [item])[..|items|] == items
    ensures (items + [item])[..|items| + 1] == items + [item]
    ensures items[..|items|] == items
    ensures forall n | 0 <= n < |items| :: (items + [item])[..n] == items[..n] && (items + [item])[n] == items[n]
  {
  }

  lemma NoneAfterSnoc(items: seq<Item>, item: Item, m: nat)
    ensures NoneAfter(items + [item], m)
       <==> NoneAfter(items, m) && (m < |items| ==> !KeyboardCollection(items, item))
  {
    hide KeyboardCollection;
    PrefixesOf(items, item);
    var longer := items + [item];
    assert longer[|items|] == item;
  }

  lemma DeeperAfterSnoc(items: seq<Item>, item: Item, m: nat)
    requires m <= |items|
    ensures DeeperAfter(items + [item], m)
       <==> (m < |items| ==> DeeperAfter(items, m)) && CollectionDepth(items + [item]) > CollectionDepth(items[..m])
  {
    hide CollectionDepth;
    PrefixesOf(items, item);
    var longer := items + [item];
    if DeeperAfter(longer, m) {
      assert CollectionDepth(longer[..|longer|]) > CollectionDepth(longer[..m]);
      forall j | m < j <= |items| ensures CollectionDepth(items[..j]) > CollectionDepth(items[..m]) {
        assert CollectionDepth(longer[..j]) > CollectionDepth(longer[..m]);
      }
    }
  }

  lemma StillOpenSnoc(items: seq<Item>, item: Item, m: nat)
    ensures var longer := items + [item];
            StillOpen(longer, m) <==>
            (if KeyboardCollection(items, item) then m == |items| && CollectionDepth(longer) > CollectionDepth(items)
             else m < |items| && StillOpen(items, m) && CollectionDepth(longer) > CollectionDepth(items[..m]))
  {
    hide KeyboardCollection, CollectionDepth, NoneAfter, DeeperAfter;
    PrefixesOf(items, item);
    NoneAfterSnoc(items, item, m);
    if m <= |items| { DeeperAfterSnoc(items, item, m); }
    if m == |items| { NoneAfterLast(items + [item]); }
  }

  lemma NoneAfterLast(items: seq<Item>)
    requires items != []
    ensures NoneAfter(items, |items| - 1)
  {
  }

  lemma DepthSnoc(items: seq<Item>, item: Item)
    ensures CollectionDepth(items + [item])
         == CollectionDepth(items) + (if Is(item, 0, 10) then 1 else if Is(item, 0, 12) then -1 else 0)
    ensures KeyboardDepth(items + [item])
         == if KeyboardCollection(items, item) then CollectionDepth(items + [item])
            else if Is(item, 0, 12) && KeyboardDepth(items) == CollectionDepth(items) then 0
            else KeyboardDepth(items)
  {
    var longer := items + [item];
    assert Before(longer) == items && Last(longer) == item;
  }

  lemma StillOpenIsDeeper(items: seq<Item>, m: nat)
    requires m < |items| && StillOpen(items, m)
    ensures CollectionDepth(items) > CollectionDepth(items[..m])
  {
    assert items[..|items|] == items;
  }

  lemma MarkStays(items: seq<Item>, item: Item, m: nat)
    requires Marks(items) && m <= |items| && StillOpen(items + [item], m) && CollectionDepth(items[..m]) >= 0
    ensures KeyboardDepth(items + [item]) == CollectionDepth((items + [item])[..m]) + 1 >= 1
  {
    hide StillOpen, KeyboardCollection, CollectionDepth, KeyboardDepth;
    StillOpenSnoc(items, item, m);
    DepthSnoc(items, item);
    PrefixesOf(items, item);
    if KeyboardCollection(items, item) { IsCollection(items, item); } else { StillOpenIsDeeper(items, m); }
  }

  lemma MarkIsOpen(items: seq<Item>, item: Item)
    requires Marks(items) && KeyboardDepth(items + [item]) != 0
    ensures KeyboardOpen(items + [item])
  {
    hide StillOpen, KeyboardCollection, CollectionDepth, KeyboardDepth;
    DepthSnoc(items, item);
    PrefixesOf(items, item);
    if KeyboardCollection(items, item) {
      IsCollection(items, item);
      StillOpenSnoc(items, item, |items|);
    } else {
      var m :| 0 <= m < |items| && StillOpen(items, m);
      StillOpenIsDeeper(items, m);
      StillOpenSnoc(items, item, m);
    }
  }

  lemma MarksSnoc(items: seq<Item>, item: Item)
    requires Marks(items) && forall m | 0 <= m <= |items| :: CollectionDepth(items[..m]) >= 0
    ensures Marks(items + [item])
  {
    hide StillOpen, KeyboardCollection, CollectionDepth, KeyboardDepth, KeyboardOpen;
    var longer := items + [item];
    forall m: nat | m < |longer| && StillOpen(longer, m)
      ensures KeyboardDepth(longer) == CollectionDepth(longer[..m]) + 1 >= 1
    {
      MarkStays(items, item, m);
    }
    if KeyboardDepth(longer) != 0 { MarkIsOpen(items, item); }
  }

  lemma IsCollection(items: seq<Item>, item: Item)
    requires KeyboardCollection(items, item)
    ensures Is(item, 0, 10) && !Is(item, 0, 12)
  {
  }

  /** The reference tracks the collection at this depth. */
  ghost predicate Tracks(items: seq<Item>, nesting: Nesting) {
    var depth := KeyboardDepth(items);
    && Ordered(nesting)
    && 0 <= depth <= |nesting.open| == CollectionDepth(items)
    && (depth == 0 ==> !InsideKeyboard(nesting))
    && (depth != 0 ==> nesting.latestKeyboard == Some(nesting.open[depth - 1].serial))
  }

  /** Which collection an item opens or closes. */
  lemma StepNests(items: seq<Item>, st: State, item: Item)
    requires Lists(items, st.locals.alternatives) && Step(st, item).Some?
    ensures var next := Step(st, item).value.nesting;
            if Is(item, 0, 10) then next == Open(st.nesting, KeyboardCollection(items, item))
            else if Is(item, 0, 12) then st.nesting.open != [] && next == Close(st.nesting)
            else next == st.nesting
  {
    if Is(item, 0, 10) {
      NamesApplication(items, st, item, 0x01, 0x06);
      hide Lists, SomeStartsWith, SomeUsage, Application;
    } else {
      hide Lists, SomeUsage;
    }
  }

  lemma ClosingTracks(nesting: Nesting, depth: nat)
    requires nesting.open != [] && Ordered(nesting) && depth <= |nesting.open|
    requires depth == 0 ==> !InsideKeyboard(nesting)
    requires depth != 0 ==> nesting.latestKeyboard == Some(nesting.open[depth - 1].serial)
    ensures var next := Close(nesting);
            && Ordered(next)
            && (depth == 0 || depth == |nesting.open| ==> !InsideKeyboard(next))
            && (0 < depth < |nesting.open| ==> next.latestKeyboard == Some(next.open[depth - 1].serial))
  {
  }

  lemma StepTracks(items: seq<Item>, st: State, item: Item)
    requires Lists(items, st.locals.alternatives) && Step(st, item).Some? && Tracks(items, st.nesting)
    ensures Tracks(items + [item], Step(st, item).value.nesting)
  {
    StepNests(items, st, item);
    DepthSnoc(items, item);
    var depth := KeyboardDepth(items);
    if KeyboardCollection(items, item) { IsCollection(items, item); }
    hide Step, Lists, KeyboardCollection, CollectionDepth, KeyboardDepth, InsideKeyboard, Ordered;
    if Is(item, 0, 10) {
      HidDescriptor.OpeningKeepsDepth(st.nesting, KeyboardCollection(items, item), depth);
    } else if Is(item, 0, 12) {
      ClosingTracks(st.nesting, depth);
    }
  }

  lemma {:induction false} RunTracks(items: seq<Item>)
    requires Run(INITIAL, items).Some?
    ensures Tracks(items, Run(INITIAL, items).value.nesting) && Marks(items)
    ensures forall m | 0 <= m <= |items| :: CollectionDepth(items[..m]) >= 0
    decreases |items|
  {
    hide Lists, KeyboardCollection, Step, StillOpen, KeyboardOpen;
    if items != [] {
      hide Tracks, Marks, CollectionDepth;
      var before := Before(items);
      assert items == before + [Last(items)];
      RunOfSnoc(INITIAL, before, Last(items));
      RunTracks(before);
      RunLists(before);
      StepTracks(before, Run(INITIAL, before).value, Last(items));
      MarksSnoc(before, Last(items));
      TrackedDepth(items, Run(INITIAL, items).value.nesting);
      PrefixesOf(before, Last(items));
    }
  }

  lemma TrackedDepth(items: seq<Item>, nesting: Nesting)
    requires Tracks(items, nesting)
    ensures CollectionDepth(items) >= 0
  {
  }

  /** The parser sees a keyboard collection exactly when the one begun last is still open. */
  lemma InsideIsOpen(items: seq<Item>)
    requires Run(INITIAL, items).Some?
    ensures InsideKeyboard(Run(INITIAL, items).value.nesting) <==> KeyboardOpen(items)
  {
    hide Run, CollectionDepth, KeyboardDepth, StillOpen;
    RunTracks(items);
    var nesting := Run(INITIAL, items).value.nesting;
    if KeyboardDepth(items) != 0 {
      assert nesting.open[KeyboardDepth(items) - 1].serial == nesting.latestKeyboard.value;
    }
  }

  // ------------------------------------------------------------------------
  // The flags

  /** What the next item adds to the flags. */
  ghost predicate Describes(items: seq<Item>, st: State, item: Item, next: Info) {
    && next.hasKeyboard == (st.info.hasKeyboard || KeyboardCollection(items, item))
    && next.hasConsumerControl == (st.info.hasConsumerControl || Consumer(items, item))
    && next.hasNkroKeyboard == (st.info.hasNkroKeyboard || (InsideKeyboard(st.nesting) && NkroInput(items, item)))
    && next.usesReportIds == (st.info.usesReportIds || ReportId(items, item))
    && next.valid == st.info.valid
  }

  lemma CollectionDescribes(items: seq<Item>, st: State, item: Item)
    requires Lists(items, st.locals.alternatives) && Step(st, item).Some? && Is(item, 0, 10)
    ensures Describes(items, st, item, Step(st, item).value.info)
  {
    hide Lists, SomeStartsWith, SomeUsage, Application, InsideKeyboard;
    NamesApplication(items, st, item, 0x01, 0x06);
    NamesApplication(items, st, item, 0x0c, 0x01);
  }

  lemma InputSteps(st: State, item: Item)
    requires Step(st, item).Some? && Is(item, 0, 8)
    ensures Step(st, item).value.info == Input(st, LittleEndian(item.data)).info
  {
    hide SomeNkroField, SomeConsumerField, InsideKeyboard, SomeUsage;
  }

  lemma InputDescribes(items: seq<Item>, st: State, item: Item)
    requires Agrees(items, st) && Lists(items, st.locals.alternatives) && Step(st, item).Some? && Is(item, 0, 8)
    ensures Describes(items, st, item, Step(st, item).value.info)
  {
    InputSteps(st, item);
    ConsumerFields(items, st, item);
    NkroFields(items, st, item);
    hide Lists, Agrees, Step, SomeNkroField, SomeConsumerField, InsideKeyboard, ConsumerInput, NkroInput;
    assert !Application(items, item, 0x01, 0x06) && !Application(items, item, 0x0c, 0x01);
    hide Application;
  }

  lemma OtherDescribes(items: seq<Item>, st: State, item: Item)
    requires Step(st, item).Some? && !Is(item, 0, 10) && !Is(item, 0, 8)
    ensures Describes(items, st, item, Step(st, item).value.info)
  {
    hide SomeUsage, InsideKeyboard, Lists, AddUsages, Qualified;
  }

  lemma StepDescribes(items: seq<Item>, st: State, item: Item)
    requires Agrees(items, st) && Lists(items, st.locals.alternatives) && Step(st, item).Some?
    ensures Describes(items, st, item, Step(st, item).value.info)
  {
    hide *;
    if Is(item, 0, 10) {
      CollectionDescribes(items, st, item);
    } else if Is(item, 0, 8) {
      InputDescribes(items, st, item);
    } else {
      OtherDescribes(items, st, item);
    }
  }

  /** Every flag of the run is the existence of one kind of item. */
  lemma {:induction false} RunDescribes(items: seq<Item>)
    requires Run(INITIAL, items).Some?
    ensures Run(INITIAL, items).value.info
         == Info(valid := false,
                 hasKeyboard := Occurs(items, KeyboardCollection),
                 hasConsumerControl := Occurs(items, Consumer),
                 hasNkroKeyboard := Occurs(items, TrackedNkroInput),
                 usesReportIds := Occurs(items, ReportId))
    decreases |items|
  {
    hide Step, Agrees, Lists, KeyboardCollection, Consumer, NkroInput, ReportId, KeyboardOpen;
    if items != [] {
      hide Occurs;
      var before, item := Before(items), Last(items);
      assert items == before + [item];
      RunOfSnoc(INITIAL, before, item);
      RunDescribes(before);
      RunLists(before);
      StepDescribes(before, Run(INITIAL, before).value, item);
      InsideIsOpen(before);
      OccursSnoc(before, item, KeyboardCollection);
      OccursSnoc(before, item, Consumer);
      OccursSnoc(before, item, TrackedNkroInput);
      OccursSnoc(before, item, ReportId);
    }
  }

  lemma VerdictIsDescribed(items: seq<Item>)
    ensures Verdict(Run(INITIAL, items)) == Described(items)
  {
    hide Run, AllAllowed, Closed, Occurs;
    ItemsDecide(items);
    if Run(INITIAL, items).Some? { RunDescribes(items); }
  }

  /** The report of a non-empty byte string is what its items describe, and nothing when no items tile it. */
  lemma ParseIsDescribed(bytes: seq<byte>)
    ensures forall items: seq<Item> |
              items != [] && (forall item <- items :: WellFormed(item)) && EncodeAll(items) == bytes ::
              Parse(bytes) == Described(items)
    ensures !(exists items: seq<Item> ::
                && items != [] && (forall item <- items :: WellFormed(item)) && EncodeAll(items) == bytes) ==>
              Parse(bytes) == Info(false, false, false, false, false)
  {
    hide Described, Run;
    forall items: seq<Item> | items != [] && (forall item <- items :: WellFormed(item)) && EncodeAll(items) == bytes
      ensures Parse(bytes) == Described(items)
    {
      HidNkro.NotEmpty(items);
      TokeniseIsInverseOfEncode(bytes, items);
      VerdictIsDescribed(items);
    }
    if bytes != [] && Tokenise(bytes).Some? { TokeniseIsInverseOfEncode(bytes, Tokenise(bytes).value); }
  }
}
