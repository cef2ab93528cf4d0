/**
 The one-pass descriptor interpreter over its compressed workspace, proved to
 compute the reference meaning.
 */
module HidDescriptor {
  import opened Basics
  import opened HidItems
  import opened HidReference
  import opened UsageSets

  ghost predicate Separate(a: UsageSet, b: UsageSet) {
    a != b && a.keyboardPositions != b.keyboardPositions && a.nonKeyPositions != b.nonKeyPositions
  }

  ghost predicate Workspace(sets: seq<UsageSet>) {
    && |sets| == ALTERNATIVE_LIMIT
    && (forall i | 0 <= i < |sets| :: sets[i].Shaped())
    && (forall i, j | 0 <= i < j < |sets| :: Separate(sets[i], sets[j]))
  }

  class DescriptorParser {
    const usageSets: seq<UsageSet>
    const stack: array<Globals>

    var global: Globals
    var stackDepth: nat
    var usageSetCount: nat
    var currentUsageSet: nat
    var minimumPending: bool
    var minimumPage: nat
    var minimumUsage: nat
    var delimiterOpen: bool
    var collectionDepth: nat
    var keyboardDepth: nat
    var info: Info

    ghost const Sets: set<object> := set s, o | s in usageSets && o in s.Repr :: o

    /** The memory the parser owns; it says nothing about what an earlier parse left in it. */
    ghost predicate Shaped() {
      && Workspace(usageSets)
      && stack.Length == STACK_DEPTH
      && this !in Sets && stack !in Sets
    }

    ghost predicate HoldsGlobals(globals: Globals, saved: seq<Globals>)
      reads `global, `stackDepth, stack
    {
      && stack.Length == STACK_DEPTH
      && global == globals
      && stackDepth == |saved| <= STACK_DEPTH
      && stack[..stackDepth] == saved
    }

    ghost predicate HoldsNesting(nesting: Nesting)
      reads `collectionDepth, `keyboardDepth
    {
      && collectionDepth == |nesting.open|
      && Ordered(nesting)
      && keyboardDepth <= collectionDepth
      && (keyboardDepth == 0 ==> !InsideKeyboard(nesting))
      && (keyboardDepth != 0 ==> nesting.latestKeyboard == Some(nesting.open[keyboardDepth - 1].serial))
    }

    ghost predicate HoldsUsages(alternatives: Alternatives)
      reads `usageSetCount, Sets
    {
      && Workspace(usageSets)
      && usageSetCount == |alternatives|
      && (forall i | 0 <= i < ALTERNATIVE_LIMIT ::
            usageSets[i].Represents(if i < usageSetCount then alternatives[i] else []))
    }

    ghost predicate HoldsLocals(locals: Locals)
      reads `usageSetCount, `currentUsageSet, `minimumPending, `minimumPage, `minimumUsage, `delimiterOpen, Sets
    {
      && HoldsUsages(locals.alternatives)
      && currentUsageSet == Target(locals)
      && delimiterOpen == locals.delimiterOpen
      && minimumPending == locals.minimum.Some?
      && (minimumPending ==> locals.minimum.value == Usage(minimumPage, minimumUsage))
      && (delimiterOpen ==> usageSetCount > 1)
    }

    /** The C variables hold exactly the reference state `st`. */
    ghost predicate Holds(st: State)
      reads this, stack, Sets
    {
      && Shaped()
      && HoldsGlobals(st.globals, st.saved)
      && HoldsLocals(st.locals)
      && HoldsNesting(st.nesting)
      && info == st.info
    }

    constructor ()
      ensures Shaped() && fresh(stack) && fresh(Sets)
    {
      var a := new UsageSet();
      var b := new UsageSet();
      var c := new UsageSet();
      var d := new UsageSet();
      usageSets := [a, b, c, d];
      stack := new Globals[STACK_DEPTH](_ => Globals(0, 0, 0));
      global, stackDepth, info := Globals(0, 0, 0), 0, NOTHING;
      usageSetCount, currentUsageSet := 1, 0;
      minimumPending, minimumPage, minimumUsage := false, 0, 0;
      delimiterOpen, collectionDepth, keyboardDepth := false, 0, 0;
    }

    method ResetUsageSets()
      requires Workspace(usageSets)
      modifies Sets
      ensures forall i | 0 <= i < ALTERNATIVE_LIMIT :: usageSets[i].Represents([])
    {
      hide UsageSet.Represents;
      for i := 0 to ALTERNATIVE_LIMIT
        invariant forall j | 0 <= j < i :: usageSets[j].Represents([])
      {
        usageSets[i].Reset();
      }
    }

    method ClearLocalItems()
      requires Shaped() && !delimiterOpen && !minimumPending
      modifies Sets, `usageSetCount, `currentUsageSet
      ensures HoldsLocals(NO_LOCALS)
    {
      hide UsageSet.Represents;
      ResetUsageSets();
      usageSetCount, currentUsageSet := 1, 0;
    }

    method GlobalItem(tag: nat, data: seq<byte>, ghost st: State) returns (ok: bool)
      requires HoldsGlobals(st.globals, st.saved) && info == st.info
      modifies `global, `stackDepth, `info, stack
      ensures ok == StepGlobal(st, tag, data).Some?
      ensures ok ==> var next := StepGlobal(st, tag, data).value;
                     HoldsGlobals(next.globals, next.saved) && info == next.info
    {
      hide UsageSet.Represents;
      var value := LittleEndian(data);
      if tag == TAG_USAGE_PAGE {
        if !ScalarSize(|data|) { return false; }
        global := global.(usagePage := value);
      } else if tag == TAG_REPORT_SIZE {
        if !ScalarSize(|data|) { return false; }
        global := global.(reportSize := value);
      } else if tag == TAG_REPORT_COUNT {
        if !ScalarSize(|data|) { return false; }
        global := global.(reportCount := value);
      } else if tag == TAG_REPORT_ID {
        if |data| != 1 || value == 0 { return false; }
        info := info.(usesReportIds := true);
      } else if tag == TAG_PUSH {
        if |data| != 0 || stackDepth == STACK_DEPTH { return false; }
        stack[stackDepth] := global;
        stackDepth := stackDepth + 1;
      } else if tag == TAG_POP {
        if |data| != 0 || stackDepth == 0 { return false; }
        stackDepth := stackDepth - 1;
        global := stack[stackDepth];
      }
      return true;
    }

    method AppendOne(page: nat, id: nat, ghost locals: Locals)
      requires HoldsUsages(locals.alternatives) && currentUsageSet == Target(locals)
      modifies Sets
      ensures HoldsUsages(AddUsages(locals, [Usage(page, id)]).alternatives)
    {
      hide UsageSet.Represents;
      usageSets[currentUsageSet].Append(page, id, locals.alternatives[currentUsageSet]);
    }

    method AppendRange(page: nat, first: nat, last: nat, ghost locals: Locals)
      requires HoldsUsages(locals.alternatives) && currentUsageSet == Target(locals)
      requires first <= last
      modifies Sets
      ensures HoldsUsages(AddUsages(locals, Range(page, first, last)).alternatives)
    {
      hide DescriptorParser.HoldsUsages;
      ghost var now := locals;
      assert RangeBefore(page, first, first) == [];
      assert locals.alternatives[Target(locals)] + [] == locals.alternatives[Target(locals)];
      for id: nat := first to last + 1
        invariant now == AddUsages(locals, RangeBefore(page, first, id))
        invariant HoldsUsages(now.alternatives)
      {
        assert RangeBefore(page, first, id + 1) == RangeBefore(page, first, id) + [Usage(page, id)];
        AddingInTwoSteps(locals, RangeBefore(page, first, id), Usage(page, id));
        AppendOne(page, id, now);
        now := AddUsages(now, [Usage(page, id)]);
      }
      assert RangeBefore(page, first, last + 1) == Range(page, first, last);
    }

    method UsageItem(tag: nat, data: seq<byte>, ghost locals: Locals) returns (ok: bool)
      requires HoldsLocals(locals)
      requires tag in {TAG_USAGE, TAG_USAGE_MINIMUM, TAG_USAGE_MAXIMUM}
      modifies Sets, `minimumPending, `minimumPage, `minimumUsage
      ensures ok == StepUsage(global, locals, tag, data).Some?
      ensures ok ==> HoldsLocals(StepUsage(global, locals, tag, data).value)
    {
      hide DescriptorParser.HoldsUsages;
      if !ScalarSize(|data|) { return false; }
      var value := LittleEndian(data);
      var page := if |data| == 4 then value / 0x1_0000 else global.usagePage;
      var usage := value % 0x1_0000;
      if tag == TAG_USAGE {
        AppendOne(page, usage, locals);
      } else if tag == TAG_USAGE_MINIMUM {
        if minimumPending { return false; }
        minimumPending, minimumPage, minimumUsage := true, page, usage;
      } else {
        if !minimumPending || page != minimumPage || usage < minimumUsage { return false; }
        AppendRange(page, minimumUsage, usage, locals);
        minimumPending := false;
      }
      return true;
    }

    method DelimiterItem(data: seq<byte>, ghost locals: Locals) returns (ok: bool)
      requires HoldsLocals(locals)
      modifies `usageSetCount, `currentUsageSet, `delimiterOpen
      ensures ok == StepDelimiter(locals, data).Some?
      ensures ok ==> HoldsLocals(StepDelimiter(locals, data).value)
    {
      hide UsageSet.Represents;
      var value := LittleEndian(data);
      if minimumPending || |data| != 1 || (value != 0 && value != 1)
         || (value == 1 && delimiterOpen) || (value == 0 && !delimiterOpen) {
        return false;
      }
      if value == 1 {
        if usageSetCount == ALTERNATIVE_LIMIT { return false; }
        currentUsageSet := usageSetCount;
        usageSetCount := usageSetCount + 1;
        delimiterOpen := true;
      } else {
        currentUsageSet := 0;
        delimiterOpen := false;
      }
      return true;
    }

    method HasCollectionUsage(ghost alternatives: Alternatives) returns (found: bool)
      requires HoldsUsages(alternatives)
      ensures found == SomeUsage(alternatives)
    {
      hide UsageSet.Tabulates;
      found := false;
      for i := 0 to usageSetCount
        invariant found == exists j :: 0 <= j < i && alternatives[j] != []
      {
        found := found || usageSets[i].hasUsage;
      }
    }

    /** The flags and the depth take note of every alternative's first usage. */
    method DescribeApplication(ghost alternatives: Alternatives)
      requires HoldsUsages(alternatives)
      modifies `keyboardDepth, `info
      ensures keyboardDepth == if SomeStartsWith(alternatives, KEYBOARD_APPLICATION) then collectionDepth
                               else old(keyboardDepth)
      ensures info == old(info).(
                hasKeyboard := old(info).hasKeyboard || SomeStartsWith(alternatives, KEYBOARD_APPLICATION),
                hasConsumerControl :=
                  old(info).hasConsumerControl || SomeStartsWith(alternatives, CONSUMER_APPLICATION))
    {
      hide UsageSet.Tabulates, FirstConsumer, SomeStartsWith, StartsWith;
      NoneStartsWith();
      for i := 0 to usageSetCount
        invariant keyboardDepth == if SomeStartsWith(alternatives[..i], KEYBOARD_APPLICATION) then collectionDepth
                                   else old(keyboardDepth)
        invariant info == old(info).(
          hasKeyboard := old(info).hasKeyboard || SomeStartsWith(alternatives[..i], KEYBOARD_APPLICATION),
          hasConsumerControl :=
            old(info).hasConsumerControl || SomeStartsWith(alternatives[..i], CONSUMER_APPLICATION))
      {
        StartsWithGrows(alternatives, i, KEYBOARD_APPLICATION);
        StartsWithGrows(alternatives, i, CONSUMER_APPLICATION);
        if usageSets[i].firstIsKeyboardApplication {
          info := info.(hasKeyboard := true);
          keyboardDepth := collectionDepth;
        }
        if usageSets[i].firstIsConsumerApplication {
          info := info.(hasConsumerControl := true);
        }
      }
      assert alternatives[..usageSetCount] == alternatives;
    }

    method BeginCollection(value: nat, ghost st: State)
      requires HoldsUsages(st.locals.alternatives) && HoldsNesting(st.nesting) && info == st.info
      modifies `collectionDepth, `keyboardDepth, `info
      ensures HoldsNesting(OpenCollection(st, value).nesting) && info == OpenCollection(st, value).info
    {
      hide DescriptorParser.HoldsUsages, SomeStartsWith;
      OpeningKeepsDepth(st.nesting, value == COLLECTION_APPLICATION
                                    && SomeStartsWith(st.locals.alternatives, KEYBOARD_APPLICATION), keyboardDepth);
      collectionDepth := collectionDepth + 1;
      if value == COLLECTION_APPLICATION {
        DescribeApplication(st.locals.alternatives);
      }
    }

    method EndCollection(ghost nesting: Nesting)
      requires HoldsNesting(nesting) && nesting.open != []
      modifies `collectionDepth, `keyboardDepth
      ensures HoldsNesting(Close(nesting))
    {
      hide UsageSet.Represents;
      if keyboardDepth == collectionDepth { keyboardDepth := 0; }
      collectionDepth := collectionDepth - 1;
    }

    method InputItem(value: nat, ghost st: State)
      requires Holds(st)
      modifies `info
      ensures info == Input(st, value).info
    {
      InputOfNothing(st, value);
      hide UsageSet.Represents, SomeNkroField, SomeConsumerField, IsNkroField, IsConsumerField, Ordered, InsideKeyboard;
      ghost var alternatives := st.locals.alternatives;
      for i := 0 to usageSetCount
        invariant info == InputOf(st, alternatives[..i], value)
      {
        InputAlternative(i, value, st);
        InputGrows(st, alternatives, i, value);
      }
      assert alternatives[..usageSetCount] == alternatives;
    }

    /** What one alternative adds to the flags. */
    method InputAlternative(i: nat, value: nat, ghost st: State)
      requires HoldsUsages(st.locals.alternatives) && HoldsNesting(st.nesting) && global == st.globals
      requires i < usageSetCount
      modifies `info
      ensures var usages := st.locals.alternatives[i];
              info == old(info).(
                hasNkroKeyboard := old(info).hasNkroKeyboard
                                   || (InsideKeyboard(st.nesting) && IsNkroField(usages, st.globals, value)),
                hasConsumerControl := old(info).hasConsumerControl || IsConsumerField(usages, st.globals, value))
    {
      hide UsageSet.Tabulates, IsNkroField, IsConsumerField, FirstConsumer, Ordered, InsideKeyboard;
      var nkro := NkroField(i, value, st);
      if nkro {
        info := info.(hasNkroKeyboard := true);
      }
      var consumed := (value / 2) % 2 == 0 || usageSets[i].firstConsumerPosition < global.reportCount;
      ConsumerFieldByFirst(st.locals.alternatives[i], st.globals, value);
      if value % 2 == 0 && usageSets[i].hasConsumerUsage && consumed {
        info := info.(hasConsumerControl := true);
      }
    }

    method NkroField(i: nat, value: nat, ghost st: State) returns (nkro: bool)
      requires HoldsUsages(st.locals.alternatives) && HoldsNesting(st.nesting) && global == st.globals
      requires i < usageSetCount
      ensures nkro == (InsideKeyboard(st.nesting) && IsNkroField(st.locals.alternatives[i], st.globals, value))
    {
      hide UsageSet.Represents;
      ghost var usages := st.locals.alternatives[i];
      var keyCount := usageSets[i].KeyboardUsageCount(global.reportCount, usages);
      nkro := false;
      if keyboardDepth != 0 && value % 4 == 2 && global.reportSize == 1 && global.reportCount > 8
         && global.reportCount <= POSITION_LIMIT && keyCount > 8 {
        var nonKeyCount := usageSets[i].NonKeyPositionCount(global.reportCount, usages);
        NkroCountIsExact(usages, global.reportCount);
        nkro := keyCount + nonKeyCount >= global.reportCount;
      }
    }

    method MainItem(tag: nat, data: seq<byte>, ghost st: State) returns (ok: bool)
      requires Holds(st)
      modifies this, Sets
      ensures ok == StepMain(st, tag, data).Some?
      ensures ok ==> Holds(StepMain(st, tag, data).value)
    {
      hide Workspace, UsageSet.Represents, DescriptorParser.HoldsGlobals, Ordered, InsideKeyboard, Open,
           SomeStartsWith, SomeNkroField, SomeConsumerField;
      var value := LittleEndian(data);
      if delimiterOpen || minimumPending { return false; }
      if (tag == TAG_INPUT || tag == TAG_OUTPUT || tag == TAG_FEATURE) && !ScalarSize(|data|) {
        return false;
      }
      if tag == TAG_COLLECTION {
        if |data| != 1 { return false; }
        var found := HasCollectionUsage(st.locals.alternatives);
        if !found { return false; }
        BeginCollection(value, st);
      } else if tag == TAG_END_COLLECTION {
        if |data| != 0 || collectionDepth == 0 { return false; }
        EndCollection(st.nesting);
      } else if tag == TAG_INPUT {
        InputItem(value, st);
      }
      ClearLocalItems();
      return true;
    }

    method ShortItem(kind: nat, tag: nat, data: seq<byte>, ghost st: State) returns (ok: bool)
      requires Holds(st)
      modifies this, stack, Sets
      ensures ok == Step(st, Short(kind, tag, data)).Some?
      ensures ok ==> Holds(Step(st, Short(kind, tag, data)).value)
    {
      hide StepGlobal, StepUsage, StepDelimiter, StepMain, DescriptorParser.HoldsLocals, DescriptorParser.HoldsNesting;
      ok := true;
      if kind == GLOBAL {
        ok := GlobalItem(tag, data, st);
      } else if kind == LOCAL && (tag == TAG_USAGE || tag == TAG_USAGE_MINIMUM || tag == TAG_USAGE_MAXIMUM) {
        ok := UsageItem(tag, data, st.locals);
      } else if kind == LOCAL && tag == TAG_DELIMITER {
        ok := DelimiterItem(data, st.locals);
      } else if kind == MAIN {
        ok := MainItem(tag, data, st);
      }
    }

    method Begin()
      requires Shaped()
      modifies this, Sets
      ensures Holds(INITIAL)
    {
      hide DescriptorParser.HoldsUsages, DescriptorParser.HoldsLocals;
      info, global, stackDepth := NOTHING, Globals(0, 0, 0), 0;
      minimumPending, minimumPage, minimumUsage := false, 0, 0;
      delimiterOpen, collectionDepth, keyboardDepth := false, 0, 0;
      ClearLocalItems();
    }

    /**
     One pass over the bytes gives the reference meaning, whatever an earlier
     parse left in the workspace.
     */
    method Parse(descriptor: seq<byte>) returns (result: Info)
      requires Shaped()
      modifies this, stack, Sets
      ensures result == HidReference.Parse(descriptor)
    {
      hide Interpret, Step, Verdict, DescriptorParser.Holds, DescriptorParser.Shaped, UsageSet.Represents;
      var length := |descriptor|;
      if length == 0 { return NOTHING; }
      Begin();
      ghost var st := INITIAL;
      ParseIsInterpret(descriptor);
      assert descriptor[0..] == descriptor;
      var offset := 0;
      while offset < length
        invariant offset <= length
        invariant Holds(st)
        invariant Interpret(INITIAL, descriptor) == Interpret(st, descriptor[offset..])
        decreases length - offset
      {
        InterpretFrom(st, descriptor, offset);
        var prefix := descriptor[offset];
        offset := offset + 1;
        if prefix == LONG_ITEM_PREFIX {
          if offset + 2 > length { return NOTHING; }
          var longSize: nat := descriptor[offset];
          if offset + 2 + longSize > length { return NOTHING; }
          offset := offset + 2 + longSize;
          continue;
        }
        var dataSize := DataSize(prefix % 4);
        if offset + dataSize > length { return NOTHING; }
        var data := descriptor[offset..offset + dataSize];
        assert data == descriptor[offset - 1..][1..1 + dataSize];
        offset := offset + dataSize;
        var ok := ShortItem((prefix / 4) % 4, prefix / 16, data, st);
        if !ok { return NOTHING; }
        st := Step(st, Short((prefix / 4) % 4, prefix / 16, data)).value;
      }
      assert descriptor[offset..] == [];
      InterpretAtEnd(st);
      result := Finish(st);
    }

    method Finish(ghost st: State) returns (result: Info)
      requires Holds(st)
      ensures result == Verdict(Some(st))
    {
      hide DescriptorParser.HoldsUsages;
      if collectionDepth != 0 || stackDepth != 0 || delimiterOpen || minimumPending { return NOTHING; }
      result := info.(valid := true);
    }
  }

  lemma ParseIsInterpret(bytes: seq<byte>)
    requires bytes != []
    ensures HidReference.Parse(bytes) == Verdict(Interpret(INITIAL, bytes))
    ensures Verdict(None) == NOTHING
  {
    InterpretIsRunOfTokens(INITIAL, bytes);
  }

  lemma InterpretAtEnd(st: State)
    ensures Interpret(st, []) == Some(st)
  {
  }

  lemma InterpretFrom(st: State, bytes: seq<byte>, offset: nat)
    requires offset < |bytes|
    ensures match NextItem(bytes[offset..])
            case None => Interpret(st, bytes[offset..]) == None
            case Some(taken) =>
              match Step(st, taken.item)
              case None => Interpret(st, bytes[offset..]) == None
              case Some(next) => Interpret(st, bytes[offset..]) == Interpret(next, bytes[offset + taken.size..])
    ensures NextItem(bytes[offset..]).Some? && NextItem(bytes[offset..]).value.item.Long? ==>
              Step(st, NextItem(bytes[offset..]).value.item) == Some(st)
  {
    var rest := bytes[offset..];
    if NextItem(rest).Some? {
      assert rest[NextItem(rest).value.size..] == bytes[offset + NextItem(rest).value.size..];
    }
  }

  lemma NoneStartsWith()
    ensures forall usage: Usage :: !SomeStartsWith([], usage)
  {
  }

  lemma StartsWithGrows(alternatives: seq<seq<Usage>>, n: nat, usage: Usage)
    requires n < |alternatives|
    ensures SomeStartsWith(alternatives[..n + 1], usage)
       <==> SomeStartsWith(alternatives[..n], usage) || StartsWith(alternatives[n], usage)
  {
    var longer, shorter := alternatives[..n + 1], alternatives[..n];
    if SomeStartsWith(longer, usage) {
      var i :| 0 <= i < |longer| && StartsWith(longer[i], usage);
      assert i < n ==> StartsWith(shorter[i], usage);
    }
    if SomeStartsWith(shorter, usage) {
      var i :| 0 <= i < |shorter| && StartsWith(shorter[i], usage);
      assert StartsWith(longer[i], usage);
    }
    assert longer[n] == alternatives[n];
  }

  ghost function RangeBefore(page: nat, first: nat, end: nat): seq<Usage>
    requires first <= end
  {
    seq(end - first, i requires 0 <= i => Usage(page, first + i))
  }

  /** The flags after the field, as far as `alternatives` decide them. */
  ghost function InputOf(st: State, alternatives: seq<seq<Usage>>, value: nat): Info {
    st.info.(
      hasNkroKeyboard := st.info.hasNkroKeyboard
                         || (InsideKeyboard(st.nesting) && SomeNkroField(alternatives, st.globals, value)),
      hasConsumerControl := st.info.hasConsumerControl || SomeConsumerField(alternatives, st.globals, value))
  }

  lemma InputOfNothing(st: State, value: nat)
    ensures InputOf(st, [], value) == st.info
  {
  }

  lemma InputGrows(st: State, alternatives: seq<seq<Usage>>, n: nat, value: nat)
    requires n < |alternatives|
    ensures SomeNkroField(alternatives[..n + 1], st.globals, value)
       <==> SomeNkroField(alternatives[..n], st.globals, value) || IsNkroField(alternatives[n], st.globals, value)
    ensures SomeConsumerField(alternatives[..n + 1], st.globals, value)
       <==> SomeConsumerField(alternatives[..n], st.globals, value)
            || IsConsumerField(alternatives[n], st.globals, value)
  {
    hide IsNkroField, IsConsumerField;
    var longer, shorter := alternatives[..n + 1], alternatives[..n];
    assert forall i | 0 <= i < n :: longer[i] == shorter[i];
    assert longer[n] == alternatives[n];
  }

  lemma AddingInTwoSteps(locals: Locals, first: seq<Usage>, usage: Usage)
    ensures AddUsages(AddUsages(locals, first), [usage]) == AddUsages(locals, first + [usage])
  {
    var t := Target(locals);
    assert (locals.alternatives[t] + first) + [usage] == locals.alternatives[t] + (first + [usage]);
  }

  lemma OpeningKeepsDepth(nesting: Nesting, keyboard: bool, depth: nat)
    requires Ordered(nesting) && depth <= |nesting.open|
    requires depth == 0 ==> !InsideKeyboard(nesting)
    requires depth != 0 ==> nesting.latestKeyboard == Some(nesting.open[depth - 1].serial)
    ensures var next := Open(nesting, keyboard);
            && Ordered(next)
            && (!keyboard && depth == 0 ==> !InsideKeyboard(next))
            && (!keyboard && depth != 0 ==> next.latestKeyboard == Some(next.open[depth - 1].serial))
  {
  }

  lemma ConsumerFieldByFirst(usages: seq<Usage>, globals: Globals, value: nat)
    ensures IsConsumerField(usages, globals, value)
       <==> value % 2 == 0 && FirstConsumer(usages) < |usages|
            && ((value / 2) % 2 == 0 || FirstConsumer(usages) < globals.reportCount)
  {
    FirstConsumerIsFirst(usages, |usages|);
    FirstConsumerIsFirst(usages, globals.reportCount);
  }
}
