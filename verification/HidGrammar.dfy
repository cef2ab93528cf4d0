/**
 Which item sequences are accepted, said only in terms of the items that came
 before each item. Kinds and tags are written as the numbers that USB HID 1.11
 gives them: main items (0, section 6.2.2.4) are input 8, output 9,
 collection 10, feature 11 and end collection 12; global items (1, section
 6.2.2.7) are usage page 0, report size 7, report ID 8, report count 9, push 10
 and pop 11; local items (2, section 6.2.2.8) are usage 0, usage minimum 1,
 usage maximum 2 and delimiter 10.
 */
module HidGrammar {
  import opened Basics
  import opened HidItems
  import opened HidReference

  predicate Is(item: Item, kind: nat, tag: nat) {
    item.Short? && item.kind == kind && item.tag == tag
  }

  predicate IsMain(item: Item) {
    item.Short? && item.kind == 0
  }

  function Last(items: seq<Item>): Item
    requires items != []
  {
    items[|items| - 1]
  }

  function Before(items: seq<Item>): seq<Item>
    requires items != []
  {
    items[..|items| - 1]
  }

  /** Pushes minus pops. */
  function PushDepth(items: seq<Item>): int {
    if items == [] then 0
    else
      PushDepth(Before(items))
      + (if Is(Last(items), 1, 10) then 1 else if Is(Last(items), 1, 11) then -1 else 0)
  }

  /** Collections opened minus collections closed. */
  function CollectionDepth(items: seq<Item>): int {
    if items == [] then 0
    else
      CollectionDepth(Before(items))
      + (if Is(Last(items), 0, 10) then 1
         else if Is(Last(items), 0, 12) then -1 else 0)
  }

  /** The value of a global item in force, on top of the values that pushes have set aside. */
  function Settings(items: seq<Item>, tag: nat): (values: seq<uint32>)
    ensures values != []
  {
    if items == [] then [0]
    else
      var values := Settings(Before(items), tag);
      var top := |values| - 1;
      var item := Last(items);
      if Is(item, 1, 10) then values + [values[top]]
      else if Is(item, 1, 11) && top > 0 then values[..top]
      else if Is(item, 1, tag) && |item.data| <= 4 then values[top := LittleEndian(item.data)]
      else values
  }

  function Setting(items: seq<Item>, tag: nat): uint32 {
    var values := Settings(items, tag);
    values[|values| - 1]
  }

  function UsageOf(items: seq<Item>, data: seq<byte>): Usage {
    var value := LittleEndian(data);
    Usage(if |data| == 4 then value / 0x1_0000 else Setting(items, 0), value % 0x1_0000)
  }

  /** The usage minimum of this block of local items that still waits for its maximum. */
  function Pending(items: seq<Item>): Option<Usage> {
    if items == [] || IsMain(Last(items)) || Is(Last(items), 2, 2) then None
    else if Is(Last(items), 2, 1) then Some(UsageOf(Before(items), Last(items).data))
    else Pending(Before(items))
  }

  /** Some usage or usage range was given since the last main item. */
  predicate HasUsage(items: seq<Item>) {
    && items != []
    && !IsMain(Last(items))
    && (Is(Last(items), 2, 0) || Is(Last(items), 2, 2) || HasUsage(Before(items)))
  }

  predicate DelimiterOpen(items: seq<Item>) {
    && items != []
    && !IsMain(Last(items))
    && if Is(Last(items), 2, 10) then Last(items).data == [1] else DelimiterOpen(Before(items))
  }

  /** Delimited alternatives begun since the last main item. */
  function Openings(items: seq<Item>): nat {
    if items == [] || IsMain(Last(items)) then 0
    else
      Openings(Before(items))
      + if Is(Last(items), 2, 10) && Last(items).data == [1] then 1 else 0
  }

  predicate GlobalAllowed(before: seq<Item>, tag: nat, data: seq<byte>) {
    && (tag in {0, 7, 9} ==> ScalarSize(|data|))
    && (tag == 8 ==> |data| == 1 && data[0] != 0)
    && (tag == 10 ==> data == [] && PushDepth(before) < 4)
    && (tag == 11 ==> data == [] && PushDepth(before) > 0)
  }

  predicate LocalAllowed(before: seq<Item>, tag: nat, data: seq<byte>) {
    && (tag in {0, 1, 2} ==> ScalarSize(|data|))
    && (tag == 1 ==> Pending(before).None?)
    && (tag == 2 ==>
          && Pending(before).Some?
          && UsageOf(before, data).page == Pending(before).value.page
          && UsageOf(before, data).id >= Pending(before).value.id)
    && (tag == 10 ==>
          && Pending(before).None?
          && (data == [1] || data == [0])
          && (data == [1] <==> !DelimiterOpen(before))
          && (data == [1] ==> Openings(before) < 3))
  }

  predicate MainAllowed(before: seq<Item>, tag: nat, data: seq<byte>) {
    && !DelimiterOpen(before)
    && Pending(before).None?
    && (tag in {8, 9, 11} ==> ScalarSize(|data|))
    && (tag == 10 ==> |data| == 1 && HasUsage(before))
    && (tag == 12 ==> data == [] && CollectionDepth(before) > 0)
  }

  predicate Allowed(before: seq<Item>, item: Item) {
    item.Short? ==>
      && (item.kind == 1 ==> GlobalAllowed(before, item.tag, item.data))
      && (item.kind == 2 ==> LocalAllowed(before, item.tag, item.data))
      && (item.kind == 0 ==> MainAllowed(before, item.tag, item.data))
  }

  /** Every item is allowed where it stands. */
  predicate AllAllowed(items: seq<Item>) {
    forall n | 0 <= n < |items| :: Allowed(items[..n], items[n])
  }

  /** Nothing is left open. */
  predicate Closed(items: seq<Item>) {
    && PushDepth(items) == 0
    && CollectionDepth(items) == 0
    && !DelimiterOpen(items)
    && Pending(items).None?
  }

  /** The settings in force and those set aside, oldest first. */
  ghost predicate AgreeOnGlobals(items: seq<Item>, globals: seq<Globals>) {
    && |Settings(items, 0)| == |Settings(items, 7)| == |Settings(items, 9)| == |globals|
    && forall i | 0 <= i < |globals| ::
         globals[i] == Globals(Settings(items, 0)[i], Settings(items, 7)[i], Settings(items, 9)[i])
  }

  /** The part of a reference state that decides acceptance is a function of the items so far. */
  ghost predicate Agrees(items: seq<Item>, st: State) {
    && PushDepth(items) == |st.saved| <= STACK_DEPTH
    && CollectionDepth(items) == |st.nesting.open|
    && AgreeOnGlobals(items, st.saved + [st.globals])
    && Pending(items) == st.locals.minimum
    && HasUsage(items) == SomeUsage(st.locals.alternatives)
    && DelimiterOpen(items) == st.locals.delimiterOpen
    && Openings(items) == |st.locals.alternatives| - 1
  }

  lemma {:induction false} RunOfConcat(st: State, items: seq<Item>, more: seq<Item>)
    ensures Run(st, items + more) == match Run(st, items)
                                     case None => None
                                     case Some(end) => Run(end, more)
    decreases |items|
  {
    hide Step;
    if items == [] {
      assert items + more == more;
    } else {
      assert (items + more)[1..] == items[1..] + more;
      match Step(st, items[0])
      case None =>
      case Some(next) => RunOfConcat(next, items[1..], more);
    }
  }

  lemma RunOfSnoc(st: State, items: seq<Item>, item: Item)
    ensures Run(st, items + [item]) == match Run(st, items)
                                       case None => None
                                       case Some(end) => Step(end, item)
  {
    RunOfConcat(st, items, [item]);
    if Run(st, items).Some? { RunOfOne(Run(st, items).value, item); }
  }

  lemma RunOfOne(st: State, item: Item)
    ensures Run(st, [item]) == Step(st, item)
  {
    hide Step;
    if Step(st, item).Some? { assert Run(Step(st, item).value, []) == Step(st, item); }
  }

  lemma SettingsInForce(items: seq<Item>, st: State)
    requires AgreeOnGlobals(items, st.saved + [st.globals])
    ensures st.globals == Globals(Setting(items, 0), Setting(items, 7), Setting(items, 9))
  {
    hide Settings;
    assert (st.saved + [st.globals])[|st.saved|] == st.globals;
  }

  lemma SettingsKept(items: seq<Item>, item: Item, globals: seq<Globals>)
    requires AgreeOnGlobals(items, globals) && (item.Short? ==> item.kind != 1)
    ensures AgreeOnGlobals(items + [item], globals)
  {
    var longer := items + [item];
    assert Before(longer) == items && Last(longer) == item;
    assert forall tag :: Settings(longer, tag) == Settings(items, tag);
  }

  /** How one global item moves the settings. */
  lemma SettingsMove(items: seq<Item>, tag: nat, data: seq<byte>, setting: nat)
    requires setting in {0, 7, 9} && |data| <= 4
    ensures var before, after := Settings(items, setting), Settings(items + [Short(1, tag, data)], setting);
            var top := |before| - 1;
            after == if tag == 10 then before + [before[top]]
                     else if tag == 11 && top > 0 then before[..top]
                     else if tag == setting then before[top := LittleEndian(data)]
                     else before
  {
    var longer := items + [Short(1, tag, data)];
    assert Before(longer) == items && Last(longer) == Short(1, tag, data);
  }

  lemma AllSettingsMove(items: seq<Item>, tag: nat, data: seq<byte>)
    requires |data| <= 4
    ensures forall setting | setting in {0, 7, 9} ::
              var before, after := Settings(items, setting), Settings(items + [Short(1, tag, data)], setting);
              var top := |before| - 1;
              after == if tag == 10 then before + [before[top]]
                       else if tag == 11 && top > 0 then before[..top]
                       else if tag == setting then before[top := LittleEndian(data)]
                       else before
  {
    hide Settings, LittleEndian;
    SettingsMove(items, tag, data, 0);
    SettingsMove(items, tag, data, 7);
    SettingsMove(items, tag, data, 9);
  }

  lemma PushMoves(items: seq<Item>, globals: seq<Globals>)
    requires AgreeOnGlobals(items, globals) && globals != []
    ensures AgreeOnGlobals(items + [Short(1, 10, [])], globals + [globals[|globals| - 1]])
  {
    AllSettingsMove(items, 10, []);
    hide Settings;
  }

  lemma PopMoves(items: seq<Item>, globals: seq<Globals>)
    requires AgreeOnGlobals(items, globals) && |globals| > 1
    ensures AgreeOnGlobals(items + [Short(1, 11, [])], globals[..|globals| - 1])
  {
    AllSettingsMove(items, 11, []);
    hide Settings;
  }

  lemma OneMoves(items: seq<Item>, globals: seq<Globals>, tag: nat, data: seq<byte>, last: Globals)
    requires AgreeOnGlobals(items, globals) && globals != [] && tag != 10 && tag != 11 && |data| <= 4
    requires last == var g := globals[|globals| - 1];
                     if tag == 0 then g.(usagePage := LittleEndian(data))
                     else if tag == 7 then g.(reportSize := LittleEndian(data))
                     else if tag == 9 then g.(reportCount := LittleEndian(data))
                     else g
    ensures AgreeOnGlobals(items + [Short(1, tag, data)], globals[|globals| - 1 := last])
  {
    AllSettingsMove(items, tag, data);
    hide Settings, LittleEndian;
  }

  /** Items of other global kinds, with data of any size. */
  lemma OthersStay(items: seq<Item>, globals: seq<Globals>, tag: nat, data: seq<byte>)
    requires AgreeOnGlobals(items, globals) && tag !in {0, 7, 9, 10, 11}
    ensures AgreeOnGlobals(items + [Short(1, tag, data)], globals)
  {
    var longer := items + [Short(1, tag, data)];
    assert Before(longer) == items && Last(longer) == Short(1, tag, data);
    assert Settings(longer, 0) == Settings(items, 0);
    assert Settings(longer, 7) == Settings(items, 7);
    assert Settings(longer, 9) == Settings(items, 9);
    hide Settings;
  }

  lemma GlobalsMove(items: seq<Item>, st: State, tag: nat, data: seq<byte>)
    requires AgreeOnGlobals(items, st.saved + [st.globals]) && StepGlobal(st, tag, data).Some?
    ensures var next := StepGlobal(st, tag, data).value;
            AgreeOnGlobals(items + [Short(1, tag, data)], next.saved + [next.globals])
  {
    var globals, next := st.saved + [st.globals], StepGlobal(st, tag, data).value;
    GlobalSteps(st, tag, data);
    hide *;
    if tag == 10 {
      PushMoves(items, globals);
    } else if tag == 11 {
      PopMoves(items, globals);
    } else if tag in {0, 7, 9} {
      OneMoves(items, globals, tag, data, next.globals);
    } else {
      OthersStay(items, globals, tag, data);
    }
  }

  /** The settings in force and set aside, as one list. */
  lemma GlobalSteps(st: State, tag: nat, data: seq<byte>)
    requires StepGlobal(st, tag, data).Some?
    ensures var globals, next := st.saved + [st.globals], StepGlobal(st, tag, data).value;
            var after := next.saved + [next.globals];
            && (tag == 10 ==> data == [] && after == globals + [globals[|globals| - 1]])
            && (tag == 11 ==> data == [] && |globals| > 1 && after == globals[..|globals| - 1])
            && (tag in {0, 7, 9} ==> |data| <= 4 && after == globals[|globals| - 1 := next.globals])
            && (tag !in {0, 7, 9, 10, 11} ==> after == globals)
            && (tag == 0 ==> next.globals == st.globals.(usagePage := LittleEndian(data)))
            && (tag == 7 ==> next.globals == st.globals.(reportSize := LittleEndian(data)))
            && (tag == 9 ==> next.globals == st.globals.(reportCount := LittleEndian(data)))
            && globals[|globals| - 1] == st.globals
  {
    hide LittleEndian;
    var next := StepGlobal(st, tag, data).value;
    LastReplaced(st.saved, st.globals, next.globals);
    if st.saved != [] { LastJoined(st.saved); }
  }

  lemma LastReplaced<T>(s: seq<T>, x: T, y: T)
    ensures (s + [x])[|s|] == x && (s + [x])[..|s|] == s && (s + [x])[|s| := y] == s + [y]
  {
  }

  lemma LastJoined<T>(s: seq<T>)
    requires s != []
    ensures s[..|s| - 1] + [s[|s| - 1]] == s
  {
  }

  /** Global items leave the local part alone. */
  lemma GlobalKeepsLocals(items: seq<Item>, tag: nat, data: seq<byte>)
    ensures var longer := items + [Short(1, tag, data)];
            && Pending(longer) == Pending(items) && HasUsage(longer) == HasUsage(items)
            && DelimiterOpen(longer) == DelimiterOpen(items) && Openings(longer) == Openings(items)
            && CollectionDepth(longer) == CollectionDepth(items)
            && PushDepth(longer) == PushDepth(items) + (if tag == 10 then 1 else if tag == 11 then -1 else 0)
  {
    var longer := items + [Short(1, tag, data)];
    assert Before(longer) == items && Last(longer) == Short(1, tag, data);
    hide UsageOf;
  }

  lemma StepAgreesGlobal(items: seq<Item>, st: State, tag: nat, data: seq<byte>)
    requires Agrees(items, st)
    ensures StepGlobal(st, tag, data).Some? <==> GlobalAllowed(items, tag, data)
    ensures StepGlobal(st, tag, data).Some? ==>
              Agrees(items + [Short(GLOBAL, tag, data)], StepGlobal(st, tag, data).value)
  {
    GlobalKeepsLocals(items, tag, data);
    GlobalAllows(items, st, tag, data);
    hide AgreeOnGlobals, SomeUsage, Pending, HasUsage, DelimiterOpen, Openings, CollectionDepth, PushDepth,
         GlobalAllowed;
    if StepGlobal(st, tag, data).Some? {
      GlobalsMove(items, st, tag, data);
      GlobalDepth(st, tag, data);
      hide StepGlobal;
    }
  }

  lemma GlobalAllows(items: seq<Item>, st: State, tag: nat, data: seq<byte>)
    requires PushDepth(items) == |st.saved| <= STACK_DEPTH
    ensures StepGlobal(st, tag, data).Some? <==> GlobalAllowed(items, tag, data)
  {
    hide PushDepth;
  }

  lemma GlobalDepth(st: State, tag: nat, data: seq<byte>)
    requires StepGlobal(st, tag, data).Some? && |st.saved| <= STACK_DEPTH
    ensures |StepGlobal(st, tag, data).value.saved|
         == |st.saved| + (if tag == 10 then 1 else if tag == 11 then -1 else 0) <= STACK_DEPTH
  {
    hide LittleEndian;
  }

  lemma AddingUsages(locals: Locals, usages: seq<Usage>)
    requires usages != []
    ensures SomeUsage(AddUsages(locals, usages).alternatives)
    ensures |AddUsages(locals, usages).alternatives| == |locals.alternatives|
    ensures AddUsages(locals, usages).minimum == locals.minimum
    ensures AddUsages(locals, usages).delimiterOpen == locals.delimiterOpen
  {
    assert AddUsages(locals, usages).alternatives[Target(locals)] != [];
  }

  lemma OpeningAlternative(alternatives: seq<seq<Usage>>)
    ensures SomeUsage(alternatives + [[]]) == SomeUsage(alternatives)
  {
    var longer := alternatives + [[]];
    if SomeUsage(alternatives) {
      var i :| 0 <= i < |alternatives| && alternatives[i] != [];
      assert longer[i] != [];
    }
  }

  /** An item that is neither global nor main, as far as it leaves counts alone. */
  lemma LocalKeeps(items: seq<Item>, st: State, item: Item)
    requires Agrees(items, st) && item.Short? && item.kind == 2
    ensures PushDepth(items + [item]) == |st.saved| <= STACK_DEPTH
    ensures CollectionDepth(items + [item]) == |st.nesting.open|
    ensures AgreeOnGlobals(items + [item], st.saved + [st.globals])
  {
    hide AgreeOnGlobals;
    assert Before(items + [item]) == items;
    SettingsKept(items, item, st.saved + [st.globals]);
  }

  lemma StepAgreesDelimiter(items: seq<Item>, st: State, data: seq<byte>)
    requires Agrees(items, st)
    ensures StepDelimiter(st.locals, data).Some? <==> LocalAllowed(items, 10, data)
    ensures StepDelimiter(st.locals, data).Some? ==>
              Agrees(items + [Short(2, 10, data)], st.(locals := StepDelimiter(st.locals, data).value))
  {
    hide SomeUsage, AgreeOnGlobals;
    assert Before(items + [Short(2, 10, data)]) == items;
    LocalKeeps(items, st, Short(2, 10, data));
    OpeningAlternative(st.locals.alternatives);
    hide Settings, PushDepth, CollectionDepth;
  }

  lemma StepAgreesUsage(items: seq<Item>, st: State, tag: nat, data: seq<byte>)
    requires Agrees(items, st) && tag in {0, 1, 2}
    ensures StepUsage(st.globals, st.locals, tag, data).Some? <==> LocalAllowed(items, tag, data)
    ensures StepUsage(st.globals, st.locals, tag, data).Some? ==>
              Agrees(items + [Short(2, tag, data)],
                     st.(locals := StepUsage(st.globals, st.locals, tag, data).value))
  {
    hide SomeUsage, AddUsages, AgreeOnGlobals;
    var item := Short(2, tag, data);
    assert Before(items + [item]) == items;
    SettingsInForce(items, st);
    LocalKeeps(items, st, item);
    assert UsageOf(items, data) == Qualified(st.globals, data);
    AddingUsages(st.locals, [UsageOf(items, data)]);
    if tag == 2 && LocalAllowed(items, tag, data) {
      AddingUsages(st.locals, Range(UsageOf(items, data).page, Pending(items).value.id, UsageOf(items, data).id));
    }
    hide Settings, PushDepth, CollectionDepth, UsageOf, Qualified;
  }

  lemma StepAgreesLocal(items: seq<Item>, st: State, tag: nat, data: seq<byte>)
    requires Agrees(items, st)
    ensures Step(st, Short(LOCAL, tag, data)).Some? <==> LocalAllowed(items, tag, data)
    ensures Step(st, Short(LOCAL, tag, data)).Some? ==>
              Agrees(items + [Short(LOCAL, tag, data)], Step(st, Short(LOCAL, tag, data)).value)
  {
    if tag == TAG_DELIMITER {
      StepAgreesDelimiter(items, st, data);
      hide Agrees, LocalAllowed, StepDelimiter;
    } else if tag in {TAG_USAGE, TAG_USAGE_MINIMUM, TAG_USAGE_MAXIMUM} {
      StepAgreesUsage(items, st, tag, data);
      hide Agrees, LocalAllowed, StepUsage;
    } else {
      hide SomeUsage, AgreeOnGlobals;
      assert Before(items + [Short(LOCAL, tag, data)]) == items;
      LocalKeeps(items, st, Short(LOCAL, tag, data));
    }
  }

  lemma StepAgreesMain(items: seq<Item>, st: State, tag: nat, data: seq<byte>)
    requires Agrees(items, st)
    ensures StepMain(st, tag, data).Some? <==> MainAllowed(items, tag, data)
    ensures StepMain(st, tag, data).Some? ==>
              Agrees(items + [Short(MAIN, tag, data)], StepMain(st, tag, data).value)
  {
    var longer := items + [Short(MAIN, tag, data)];
    assert Before(longer) == items;
  }

  lemma StepAgrees(items: seq<Item>, st: State, item: Item)
    requires Agrees(items, st)
    ensures Step(st, item).Some? <==> Allowed(items, item)
    ensures Step(st, item).Some? ==> Agrees(items + [item], Step(st, item).value)
  {
    var longer := items + [item];
    assert Before(longer) == items && Last(longer) == item;
    if item.Short? && item.kind in {GLOBAL, LOCAL, MAIN} {
      hide Agrees, StepGlobal, StepMain, Step, GlobalAllowed, LocalAllowed, MainAllowed;
      if item.kind == GLOBAL { StepAgreesGlobal(items, st, item.tag, item.data); StepIs(st, item); }
      if item.kind == LOCAL { StepAgreesLocal(items, st, item.tag, item.data); }
      if item.kind == MAIN { StepAgreesMain(items, st, item.tag, item.data); StepIs(st, item); }
    }
  }

  lemma StepIs(st: State, item: Item)
    requires item.Short?
    ensures item.kind == GLOBAL ==> Step(st, item) == StepGlobal(st, item.tag, item.data)
    ensures item.kind == MAIN ==> Step(st, item) == StepMain(st, item.tag, item.data)
  {
  }

  lemma {:induction false} RunAgrees(items: seq<Item>)
    ensures Run(INITIAL, items).Some? <==> AllAllowed(items)
    ensures Run(INITIAL, items).Some? ==> Agrees(items, Run(INITIAL, items).value)
    decreases |items|
  {
    if items == [] {
      assert !SomeUsage([[]]);
    } else {
      hide Agrees, Step, Allowed;
      var before := Before(items);
      RunAgrees(before);
      assert items == before + [Last(items)];
      RunOfSnoc(INITIAL, before, Last(items));
      if Run(INITIAL, before).Some? { StepAgrees(before, Run(INITIAL, before).value, Last(items)); }
      AllAllowedSnoc(before, Last(items));
    }
  }

  lemma AllAllowedSnoc(items: seq<Item>, item: Item)
    ensures AllAllowed(items + [item]) <==> AllAllowed(items) && Allowed(items, item)
  {
    hide Allowed;
    var longer := items + [item];
    assert forall n | 0 <= n <= |items| :: longer[..n] == items[..n];
    assert items[..|items|] == items;
    if AllAllowed(longer) {
      assert Allowed(longer[..|items|], longer[|items|]);
      assert forall n | 0 <= n < |items| :: longer[n] == items[n];
      forall n | 0 <= n < |items| ensures Allowed(items[..n], items[n]) {
        assert Allowed(longer[..n], longer[n]);
      }
    }
  }

  /**
   Acceptance is exactly this grammar: items tile the non-empty input, each one
   is allowed where it stands, and nothing is left open.
   */
  lemma AcceptanceIsGrammar(bytes: seq<byte>)
    ensures Parse(bytes).valid
       <==> bytes != []
            && exists items: seq<Item> ::
                 && (forall item <- items :: WellFormed(item))
                 && EncodeAll(items) == bytes
                 && AllAllowed(items)
                 && Closed(items)
  {
    hide AllAllowed, Step, Closed;
    if Parse(bytes).valid {
      var items := Tokenise(bytes).value;
      TokeniseIsInverseOfEncode(bytes, items);
      ItemsDecide(items);
    }
    forall items: seq<Item> | bytes != [] && (forall item <- items :: WellFormed(item)) && EncodeAll(items) == bytes
                              && AllAllowed(items) && Closed(items)
      ensures Parse(bytes).valid
    {
      TokeniseIsInverseOfEncode(bytes, items);
      ItemsDecide(items);
    }
  }

  lemma ItemsDecide(items: seq<Item>)
    ensures Verdict(Run(INITIAL, items)).valid <==> AllAllowed(items) && Closed(items)
  {
    hide AllAllowed, Step;
    RunAgrees(items);
  }

  ghost predicate Reported(st: State) {
    && (st.nesting.latestKeyboard.Some? ==> st.info.hasKeyboard)
    && (st.info.hasNkroKeyboard ==> st.info.hasKeyboard)
  }

  lemma {:induction false} RunReports(items: seq<Item>)
    ensures Run(INITIAL, items).Some? ==> Reported(Run(INITIAL, items).value)
    decreases |items|
  {
    if items != [] {
      RunReports(Before(items));
      assert items == Before(items) + [Last(items)];
      RunOfSnoc(INITIAL, Before(items), Last(items));
      hide IsNkroField, IsConsumerField, StartsWith, SomeUsage;
    }
  }

  /** A rejected descriptor reports nothing at all, and an NKRO field needs a keyboard collection. */
  lemma ReportIsCautious(bytes: seq<byte>)
    ensures !Parse(bytes).valid ==> Parse(bytes) == NOTHING
    ensures Parse(bytes).hasNkroKeyboard ==> Parse(bytes).hasKeyboard
  {
    if bytes != [] && Tokenise(bytes).Some? { RunReports(Tokenise(bytes).value); }
  }

  // ------------------------------------------------------------------------
  // Nested keyboard collections

  /** Some open collection, at whatever depth, is a keyboard application. */
  predicate InsideSomeKeyboard(nesting: Nesting) {
    exists i :: 0 <= i < |nesting.open| && nesting.open[i].keyboard
  }

  /** The keyboard collection opened last is the only one that can be open. */
  ghost predicate Alone(nesting: Nesting) {
    && Ordered(nesting)
    && forall i | 0 <= i < |nesting.open| ::
         nesting.open[i].keyboard <==> nesting.latestKeyboard == Some(nesting.open[i].serial)
  }

  /** A keyboard application collection begins inside another one. */
  predicate NestsKeyboard(st: State, item: Item) {
    && Step(st, item).Some?
    && InsideSomeKeyboard(st.nesting)
    && Step(st, item).value.nesting.latestKeyboard != st.nesting.latestKeyboard
  }

  predicate NestsKeyboards(items: seq<Item>) {
    exists n :: 0 <= n < |items| && Run(INITIAL, items[..n]).Some?
                && NestsKeyboard(Run(INITIAL, items[..n]).value, items[n])
  }

  /** At every point the parser's idea of being inside a keyboard collection is the structural one. */
  predicate TracksKeyboards(items: seq<Item>) {
    forall n | 0 <= n <= |items| ::
      Run(INITIAL, items[..n]).Some? ==>
        (InsideKeyboard(Run(INITIAL, items[..n]).value.nesting)
         <==> InsideSomeKeyboard(Run(INITIAL, items[..n]).value.nesting))
  }

  /** An item leaves the nesting alone, opens one collection, or closes the innermost one. */
  lemma NestingSteps(st: State, item: Item)
    requires Step(st, item).Some?
    ensures var next := Step(st, item).value.nesting;
            || next == st.nesting
            || (exists keyboard :: next == Open(st.nesting, keyboard))
            || (st.nesting.open != [] && next == Close(st.nesting))
  {
    var next := Step(st, item).value.nesting;
    if item.Short? && item.kind == MAIN && item.tag == TAG_COLLECTION {
      hide SomeStartsWith, SomeUsage;
      var keyboard := LittleEndian(item.data) == COLLECTION_APPLICATION
                      && SomeStartsWith(st.locals.alternatives, KEYBOARD_APPLICATION);
      assert next == Open(st.nesting, keyboard);
    }
  }

  lemma StepKeepsAlone(st: State, item: Item)
    requires Alone(st.nesting) && Step(st, item).Some? && !NestsKeyboard(st, item)
    ensures Alone(Step(st, item).value.nesting)
  {
    NestingSteps(st, item);
    hide Step;
  }

  lemma StepKeepsOrdered(st: State, item: Item)
    requires Ordered(st.nesting) && Step(st, item).Some?
    ensures Ordered(Step(st, item).value.nesting)
  {
    NestingSteps(st, item);
    hide Step;
  }

  lemma {:induction false} RunKeepsOrdered(items: seq<Item>)
    ensures Run(INITIAL, items).Some? ==> Ordered(Run(INITIAL, items).value.nesting)
    decreases |items|
  {
    if items != [] {
      hide Step, Ordered;
      RunKeepsOrdered(Before(items));
      assert items == Before(items) + [Last(items)];
      RunOfSnoc(INITIAL, Before(items), Last(items));
      if Run(INITIAL, items).Some? { StepKeepsOrdered(Run(INITIAL, Before(items)).value, Last(items)); }
    }
  }

  lemma {:induction false} RunKeepsAlone(items: seq<Item>)
    requires !NestsKeyboards(items)
    ensures Run(INITIAL, items).Some? ==> Alone(Run(INITIAL, items).value.nesting)
    decreases |items|
  {
    if items != [] {
      hide Step, Alone, NestsKeyboard;
      var before := Before(items);
      assert forall n | 0 <= n < |before| :: before[..n] == items[..n] && before[n] == items[n];
      RunKeepsAlone(before);
      assert items == before + [Last(items)];
      RunOfSnoc(INITIAL, before, Last(items));
      if Run(INITIAL, items).Some? {
        assert items[..|before|] == before;
        StepKeepsAlone(Run(INITIAL, before).value, Last(items));
      }
    }
  }

  lemma NotNestingPrefix(items: seq<Item>, n: nat)
    requires !NestsKeyboards(items) && n <= |items|
    ensures !NestsKeyboards(items[..n])
  {
    hide NestsKeyboard;
    var prefix := items[..n];
    assert forall k | 0 <= k < n :: prefix[..k] == items[..k] && prefix[k] == items[k];
  }

  /**
   Once a keyboard collection was opened inside the one at index `a`, closing
   everything must pass a point where the parser has forgotten the outer one.
   */
  lemma {:induction false} ForgetsOuter(st: State, items: seq<Item>, a: nat, k: nat) returns (m: nat)
    requires Run(st, items).Some? && Run(st, items).value.nesting.open == []
    requires Ordered(st.nesting)
    requires a < k < |st.nesting.open| && st.nesting.open[a].keyboard
    requires st.nesting.latestKeyboard.Some?
             && st.nesting.latestKeyboard.value >= st.nesting.open[k].serial
    ensures m <= |items| && Run(st, items[..m]).Some?
    ensures var nesting := Run(st, items[..m]).value.nesting;
            InsideSomeKeyboard(nesting) && !InsideKeyboard(nesting)
    decreases |items|
  {
    var next := Step(st, items[0]).value;
    NestingSteps(st, items[0]);
    hide Step;
    assert items[..1][1..] == [];
    assert Run(next, []) == Some(next);
    if |next.nesting.open| == k {
      m := 1;
      assert next.nesting.open[a].keyboard;
    } else {
      StepKeepsOrdered(st, items[0]);
      var rest := ForgetsOuter(next, items[1..], a, k);
      m := rest + 1;
      assert items[..m][1..] == items[1..][..rest];
    }
  }

  lemma NestingIsForgotten(before: seq<Item>, item: Item, rest: seq<Item>)
    requires Verdict(Run(INITIAL, before + ([item] + rest))).valid
    requires Run(INITIAL, before).Some? && NestsKeyboard(Run(INITIAL, before).value, item)
    ensures !TracksKeyboards(before + ([item] + rest))
  {
    hide *;
    var st := Run(INITIAL, before).value;
    var a := NestingOpens(st, item);
    RunKeepsOrdered(before);
    StepKeepsOrdered(st, item);
    RunPast(before, item, rest);
    ValidRunsClose(before + ([item] + rest));
    var m := ForgetsOuter(Step(st, item).value, rest, a, |st.nesting.open|);
    RunPast(before, item, rest[..m]);
    LosesTrack(before + ([item] + rest[..m]), rest[m..]);
    RestJoins(before, item, rest, m);
  }

  lemma ValidRunsClose(items: seq<Item>)
    requires Verdict(Run(INITIAL, items)).valid
    ensures Run(INITIAL, items).Some? && Run(INITIAL, items).value.nesting.open == []
  {
    hide Run;
  }

  lemma RestJoins(before: seq<Item>, item: Item, rest: seq<Item>, m: nat)
    requires m <= |rest|
    ensures before + ([item] + rest[..m]) + rest[m..] == before + ([item] + rest)
  {
    assert rest[..m] + rest[m..] == rest;
  }

  lemma RunPast(before: seq<Item>, item: Item, rest: seq<Item>)
    requires Run(INITIAL, before).Some? && Step(Run(INITIAL, before).value, item).Some?
    ensures Run(INITIAL, before + ([item] + rest)) == Run(Step(Run(INITIAL, before).value, item).value, rest)
  {
    hide Step;
    RunOfConcat(INITIAL, before, [item] + rest);
    RunOfConcat(Run(INITIAL, before).value, [item], rest);
    RunOfOne(Run(INITIAL, before).value, item);
  }

  /** The nested collection goes on top of an open keyboard collection and becomes the latest. */
  lemma NestingOpens(st: State, item: Item) returns (a: nat)
    requires NestsKeyboard(st, item)
    ensures Step(st, item).Some?
    ensures var next := Step(st, item).value.nesting;
            && a < |st.nesting.open| < |next.open|
            && next.open[a].keyboard
            && next.latestKeyboard == Some(next.open[|st.nesting.open|].serial)
  {
    NestingSteps(st, item);
    hide Step;
    a :| 0 <= a < |st.nesting.open| && st.nesting.open[a].keyboard;
  }

  lemma LosesTrack(items: seq<Item>, rest: seq<Item>)
    requires Run(INITIAL, items).Some?
    requires InsideSomeKeyboard(Run(INITIAL, items).value.nesting)
    requires !InsideKeyboard(Run(INITIAL, items).value.nesting)
    ensures !TracksKeyboards(items + rest)
  {
    hide Step, Run;
    assert (items + rest)[..|items|] == items;
  }

  /**
   The parser tracks the structure of every complete descriptor that nests no
   keyboard collection inside another, and of no other one.
   */
  lemma TracksKeyboardsExactlyWithoutNesting(items: seq<Item>)
    requires Verdict(Run(INITIAL, items)).valid
    ensures TracksKeyboards(items) <==> !NestsKeyboards(items)
  {
    hide Step, NestsKeyboard;
    if NestsKeyboards(items) {
      var n :| 0 <= n < |items| && Run(INITIAL, items[..n]).Some?
               && NestsKeyboard(Run(INITIAL, items[..n]).value, items[n]);
      assert items == items[..n] + ([items[n]] + items[n + 1..]);
      NestingIsForgotten(items[..n], items[n], items[n + 1..]);
    } else {
      forall n | 0 <= n <= |items| && Run(INITIAL, items[..n]).Some?
        ensures InsideKeyboard(Run(INITIAL, items[..n]).value.nesting)
           <==> InsideSomeKeyboard(Run(INITIAL, items[..n]).value.nesting)
      {
        NotNestingPrefix(items, n);
        RunKeepsAlone(items[..n]);
      }
    }
  }
}
