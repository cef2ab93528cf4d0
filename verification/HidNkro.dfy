/**
 What a caller learns about NKRO fields, and how a nested keyboard collection
 makes the parser miss one.
 */
module HidNkro {
  import opened Basics
  import opened HidItems
  import opened HidReference
  import opened HidGrammar
  import opened UsageSets

  /** Item `n` is an input item with an NKRO field, wherever it stands. */
  predicate NkroAt(items: seq<Item>, n: nat)
    requires n < |items|
  {
    && Is(items[n], MAIN, TAG_INPUT)
    && Run(INITIAL, items[..n]).Some?
    && var st := Run(INITIAL, items[..n]).value;
       SomeNkroField(st.locals.alternatives, st.globals, LittleEndian(items[n].data))
  }

  /** Some NKRO field stands where the parser believes to be inside a keyboard collection. */
  predicate SeenNkro(items: seq<Item>) {
    exists n :: 0 <= n < |items| && NkroAt(items, n) && InsideKeyboard(Run(INITIAL, items[..n]).value.nesting)
  }

  /** Some NKRO field stands inside a keyboard collection that is open. */
  predicate HasNkro(items: seq<Item>) {
    exists n :: 0 <= n < |items| && NkroAt(items, n) && InsideSomeKeyboard(Run(INITIAL, items[..n]).value.nesting)
  }

  lemma SeenNkroSnoc(items: seq<Item>, item: Item)
    ensures SeenNkro(items + [item])
       <==> SeenNkro(items)
            || (NkroAt(items + [item], |items|) && InsideKeyboard(Run(INITIAL, items).value.nesting))
  {
    hide InsideKeyboard, SomeNkroField, Run;
    var longer := items + [item];
    assert longer[..|items|] == items;
    assert forall n | 0 <= n < |items| :: longer[..n] == items[..n] && longer[n] == items[n];
    assert forall n | 0 <= n < |items| :: NkroAt(longer, n) == NkroAt(items, n);
  }

  /** One item sets the flag exactly when it is such a field, and nothing clears it. */
  lemma StepReportsNkro(st: State, item: Item)
    requires Step(st, item).Some?
    ensures Step(st, item).value.info.hasNkroKeyboard
       <==> || st.info.hasNkroKeyboard
            || (&& Is(item, MAIN, TAG_INPUT) && InsideKeyboard(st.nesting)
                && SomeNkroField(st.locals.alternatives, st.globals, LittleEndian(item.data)))
  {
    hide InsideKeyboard, SomeNkroField, SomeConsumerField, SomeStartsWith, SomeUsage;
  }

  /** The flag a caller sees is set exactly when an NKRO field stands where the parser sees a keyboard collection. */
  lemma {:induction false} NkroIsReportedWhereSeen(items: seq<Item>)
    requires Run(INITIAL, items).Some?
    ensures Run(INITIAL, items).value.info.hasNkroKeyboard <==> SeenNkro(items)
    decreases |items|
  {
    if items != [] {
      hide Step, SeenNkro, InsideKeyboard, SomeNkroField;
      var before := Before(items);
      assert items == before + [Last(items)];
      assert items[..|before|] == before;
      RunOfSnoc(INITIAL, before, Last(items));
      NkroIsReportedWhereSeen(before);
      StepReportsNkro(Run(INITIAL, before).value, Last(items));
      SeenNkroSnoc(before, Last(items));
    } else {
      assert !SeenNkro(items);
    }
  }

  /** What the parser remembers is a keyboard collection for as long as it is open. */
  ghost predicate Remembers(nesting: Nesting) {
    && Ordered(nesting)
    && forall i | 0 <= i < |nesting.open| ::
         nesting.latestKeyboard == Some(nesting.open[i].serial) ==> nesting.open[i].keyboard
  }

  lemma RememberedIsOpen(nesting: Nesting)
    requires Remembers(nesting) && InsideKeyboard(nesting)
    ensures InsideSomeKeyboard(nesting)
  {
  }

  lemma StepRemembers(st: State, item: Item)
    requires Remembers(st.nesting) && Step(st, item).Some?
    ensures Remembers(Step(st, item).value.nesting)
  {
    NestingSteps(st, item);
    hide Step;
  }

  lemma {:induction false} RunRemembers(items: seq<Item>)
    ensures Run(INITIAL, items).Some? ==> Remembers(Run(INITIAL, items).value.nesting)
    decreases |items|
  {
    if items != [] {
      hide Step, Remembers;
      RunRemembers(Before(items));
      assert items == Before(items) + [Last(items)];
      RunOfSnoc(INITIAL, Before(items), Last(items));
      if Run(INITIAL, items).Some? { StepRemembers(Run(INITIAL, Before(items)).value, Last(items)); }
    }
  }

  /**
   A reported NKRO field is one; without nested keyboard collections none is
   missed, and with them the flag is right exactly when one of the fields
   stands where the parser tracks its collection.
   */
  lemma NkroIsReportedExactly(items: seq<Item>)
    requires Verdict(Run(INITIAL, items)).valid
    ensures Verdict(Run(INITIAL, items)).hasNkroKeyboard ==> HasNkro(items)
    ensures !NestsKeyboards(items) ==> (Verdict(Run(INITIAL, items)).hasNkroKeyboard <==> HasNkro(items))
    ensures (Verdict(Run(INITIAL, items)).hasNkroKeyboard <==> HasNkro(items)) <==> (HasNkro(items) ==> SeenNkro(items))
  {
    ValidRunsClose(items);
    NkroIsReportedWhereSeen(items);
    hide Step, NestsKeyboards, InsideKeyboard, InsideSomeKeyboard, SomeNkroField, Run, Remembers;
    if !NestsKeyboards(items) { TracksKeyboardsExactlyWithoutNesting(items); }
    forall n | 0 <= n < |items| && NkroAt(items, n) && InsideKeyboard(Run(INITIAL, items[..n]).value.nesting)
      ensures InsideSomeKeyboard(Run(INITIAL, items[..n]).value.nesting)
    {
      RunRemembers(items[..n]);
      RememberedIsOpen(Run(INITIAL, items[..n]).value.nesting);
    }
  }

  // ------------------------------------------------------------------------
  // A descriptor with a missed field

  const KEYBOARD_PAGE := Short(GLOBAL, TAG_USAGE_PAGE, [1])
  const KEYBOARD_BEGINS := [Short(LOCAL, TAG_USAGE, [6]), Short(MAIN, TAG_COLLECTION, [1])]
  const COLLECTION_ENDS := Short(MAIN, TAG_END_COLLECTION, [])

  /** Nine bits for the keys A to I. */
  const KEY_USAGES := [
    Short(GLOBAL, TAG_USAGE_PAGE, [7]), Short(LOCAL, TAG_USAGE_MINIMUM, [4]), Short(LOCAL, TAG_USAGE_MAXIMUM, [12])]
  const KEY_SIZES := [Short(GLOBAL, TAG_REPORT_SIZE, [1]), Short(GLOBAL, TAG_REPORT_COUNT, [9])]
  const KEY_BITS := KEY_USAGES + KEY_SIZES
  const KEY_INPUT := Short(MAIN, TAG_INPUT, [2])

  /** A keyboard collection, an empty one inside it, and then a field for nine keys. */
  const NESTED_START :=
    [KEYBOARD_PAGE] + (KEYBOARD_BEGINS + (KEYBOARD_BEGINS + ([COLLECTION_ENDS] + KEY_BITS)))
  const NESTED_DESCRIPTOR := NESTED_START + [KEY_INPUT, COLLECTION_ENDS]

  lemma RunFirst(st: State, item: Item, rest: seq<Item>)
    ensures Run(st, [item] + rest) == match Step(st, item) case None => None case Some(next) => Run(next, rest)
  {
    assert ([item] + rest)[1..] == rest;
  }

  /** On the generic desktop page, a keyboard usage and a collection item open a keyboard collection. */
  lemma OpensKeyboard(st: State, rest: seq<Item>)
    requires st.globals.usagePage == 1 && st.locals == NO_LOCALS
    ensures Run(st, KEYBOARD_BEGINS + rest)
         == Run(st.(nesting := Open(st.nesting, true), info := st.info.(hasKeyboard := true)), rest)
  {
    var items := KEYBOARD_BEGINS + rest;
    var locals := AddUsages(NO_LOCALS, [KEYBOARD_APPLICATION]);
    assert locals.alternatives[0] == [KEYBOARD_APPLICATION];
    assert Step(st, items[0]) == Some(st.(locals := locals));
    assert SomeUsage(locals.alternatives);
    assert StartsWith(locals.alternatives[0], KEYBOARD_APPLICATION);
    var next := st.(nesting := Open(st.nesting, true), info := st.info.(hasKeyboard := true));
    assert !SomeStartsWith(locals.alternatives, CONSUMER_APPLICATION);
    assert Step(st.(locals := locals), items[1]) == Some(next);
    assert items[1..][0] == items[1] && items[1..][1..] == rest;
  }

  lemma KeyUsagesRun(st: State)
    requires st.locals == NO_LOCALS
    ensures Run(st, KEY_USAGES)
         == Some(st.(globals := st.globals.(usagePage := 7), locals := Locals([Range(7, 4, 12)], false, None)))
  {
    var s1 := st.(globals := st.globals.(usagePage := 7));
    var s2 := s1.(locals := NO_LOCALS.(minimum := Some(Usage(7, 4))));
    var s3 := s1.(locals := Locals([Range(7, 4, 12)], false, None));
    assert Step(st, KEY_USAGES[0]) == Some(s1);
    assert Step(s1, KEY_USAGES[1]) == Some(s2);
    assert [] + Range(7, 4, 12) == Range(7, 4, 12);
    assert AddUsages(s2.locals, Range(7, 4, 12)).alternatives == [Range(7, 4, 12)];
    assert Step(s2, KEY_USAGES[2]) == Some(s3);
    RunFirst(st, KEY_USAGES[0], KEY_USAGES[1..]);
    RunFirst(s1, KEY_USAGES[1], KEY_USAGES[2..]);
    RunFirst(s2, KEY_USAGES[2], []);
    hide Step, Run;
    assert KEY_USAGES == [KEY_USAGES[0]] + KEY_USAGES[1..];
    assert KEY_USAGES[1..] == [KEY_USAGES[1]] + KEY_USAGES[2..];
    assert KEY_USAGES[2..] == [KEY_USAGES[2]] + [];
    RunNone(s3);
  }

  lemma RunNone(st: State)
    ensures Run(st, []) == Some(st)
  {
  }

  lemma KeySizesRun(st: State)
    ensures Run(st, KEY_SIZES) == Some(st.(globals := st.globals.(reportSize := 1, reportCount := 9)))
  {
    var s1 := st.(globals := st.globals.(reportSize := 1));
    var s2 := s1.(globals := s1.globals.(reportCount := 9));
    assert Step(st, KEY_SIZES[0]) == Some(s1);
    assert Step(s1, KEY_SIZES[1]) == Some(s2);
    hide Step, Run;
    RunFirst(st, KEY_SIZES[0], [KEY_SIZES[1]]);
    RunFirst(s1, KEY_SIZES[1], []);
    assert KEY_SIZES == [KEY_SIZES[0]] + [KEY_SIZES[1]] && [KEY_SIZES[1]] + [] == [KEY_SIZES[1]];
    RunNone(s2);
  }

  /** The items of a field for nine keys, up to its input item. */
  lemma KeyBitsRun(st: State)
    requires st.locals == NO_LOCALS
    ensures Run(st, KEY_BITS)
         == Some(st.(globals := Globals(7, 1, 9), locals := Locals([Range(7, 4, 12)], false, None)))
  {
    hide Run, KEY_USAGES, KEY_SIZES;
    KeyUsagesRun(st);
    var used := st.(globals := st.globals.(usagePage := 7), locals := Locals([Range(7, 4, 12)], false, None));
    KeySizesRun(used);
    RunOfConcat(st, KEY_USAGES, KEY_SIZES);
  }

  lemma {:induction false} NoNonKeys(usages: seq<Usage>, count: nat)
    requires forall i | 0 <= i < |usages| :: IsKey(usages[i])
    ensures NonKeyCount(usages, count) == 0
  {
    if count > 0 { NoNonKeys(usages, count - 1); }
  }

  lemma KeyBitsAreNkro()
    ensures SomeNkroField([Range(7, 4, 12)], Globals(7, 1, 9), 2)
  {
    var usages := Range(7, 4, 12);
    assert forall i | 0 <= i < 9 :: usages[i] == Usage(7, 4 + i);
    assert CoversBitmap(usages, 9);
    NoNonKeys(usages, 9);
    NkroCountIsExact(usages, 9);
    assert IsNkroField([usages][0], Globals(7, 1, 9), 2);
  }

  /** Before the input item the outer collection is open, and the parser has forgotten it. */
  lemma NestedStartRuns()
    ensures var st := Run(INITIAL, NESTED_START);
            && st.Some?
            && st.value.nesting == Nesting([Collection(0, true)], 2, Some(1))
            && st.value.locals == Locals([Range(7, 4, 12)], false, None)
            && st.value.globals == Globals(7, 1, 9) && st.value.saved == []
            && st.value.info == NOTHING.(hasKeyboard := true)
  {
    var s1 := INITIAL.(globals := Globals(1, 0, 0));
    var s2 := s1.(nesting := Open(s1.nesting, true), info := NOTHING.(hasKeyboard := true));
    var s3 := s2.(nesting := Open(s2.nesting, true));
    var s4 := s3.(nesting := Close(s3.nesting));
    assert Step(INITIAL, KEYBOARD_PAGE) == Some(s1);
    assert Step(s3, COLLECTION_ENDS) == Some(s4);
    assert s3.nesting.open == [Collection(0, true), Collection(1, true)];
    assert s4.nesting.open == [Collection(0, true)];
    hide Step, Run;
    RunFirst(INITIAL, KEYBOARD_PAGE, KEYBOARD_BEGINS + (KEYBOARD_BEGINS + ([COLLECTION_ENDS] + KEY_BITS)));
    OpensKeyboard(s1, KEYBOARD_BEGINS + ([COLLECTION_ENDS] + KEY_BITS));
    OpensKeyboard(s2, [COLLECTION_ENDS] + KEY_BITS);
    RunFirst(s3, COLLECTION_ENDS, KEY_BITS);
    KeyBitsRun(s4);
  }

  /** The last two items are accepted and close everything, and the field is not reported. */
  lemma EndRuns(st: State)
    requires st.nesting == Nesting([Collection(0, true)], 2, Some(1)) && st.saved == []
    requires !st.locals.delimiterOpen && st.locals.minimum.None? && !st.info.hasNkroKeyboard
    ensures var end := Run(st, [KEY_INPUT, COLLECTION_ENDS]);
            && end.Some? && Complete(end.value)
            && !end.value.info.hasNkroKeyboard && end.value.info.hasKeyboard == st.info.hasKeyboard
  {
    var s1 := Input(st, 2).(locals := NO_LOCALS);
    assert !InsideKeyboard(st.nesting);
    assert Step(st, KEY_INPUT) == Some(s1);
    var s2 := s1.(nesting := Close(s1.nesting));
    assert Step(s1, COLLECTION_ENDS) == Some(s2);
    hide Step;
    RunFirst(st, KEY_INPUT, [COLLECTION_ENDS]);
    RunFirst(s1, COLLECTION_ENDS, []);
    assert [KEY_INPUT] + [COLLECTION_ENDS] == [KEY_INPUT, COLLECTION_ENDS];
    assert [COLLECTION_ENDS] + [] == [COLLECTION_ENDS];
  }

  /**
   A descriptor that the parser accepts, with an NKRO field inside an open
   keyboard collection that it does not report: the inner collection has made
   it forget the outer one.
   */
  lemma NestedKeyboardIsForgotten()
    ensures var info := Parse(EncodeAll(NESTED_DESCRIPTOR));
            info.valid && info.hasKeyboard && !info.hasNkroKeyboard
    ensures HasNkro(NESTED_DESCRIPTOR) && !TracksKeyboards(NESTED_DESCRIPTOR)
  {
    NestedStartRuns();
    KeyBitsAreNkro();
    NestedIsParsed();
    var st := Run(INITIAL, NESTED_START).value;
    var n := |NESTED_START|;
    EndRuns(st);
    assert st.nesting.open[0].keyboard && !InsideKeyboard(st.nesting);
    hide Step, Run, NESTED_START, SomeNkroField, Parse, EncodeAll;
    RunOfConcat(INITIAL, NESTED_START, [KEY_INPUT, COLLECTION_ENDS]);
    assert NESTED_DESCRIPTOR[..n] == NESTED_START && NESTED_DESCRIPTOR[n] == KEY_INPUT;
    assert NkroAt(NESTED_DESCRIPTOR, n);
    LosesTrack(NESTED_START, [KEY_INPUT, COLLECTION_ENDS]);
  }

  /** Every item of the descriptor can be written as bytes. */
  lemma NestedIsParsed()
    ensures NESTED_DESCRIPTOR != [] && forall item <- NESTED_DESCRIPTOR :: WellFormed(item)
    ensures Parse(EncodeAll(NESTED_DESCRIPTOR)) == Verdict(Run(INITIAL, NESTED_DESCRIPTOR))
  {
    forall item | item in NESTED_DESCRIPTOR ensures WellFormed(item) { WrittenItems(item); }
    var bytes := EncodeAll(NESTED_DESCRIPTOR);
    assert NESTED_DESCRIPTOR[0] == KEYBOARD_PAGE;
    NotEmpty(NESTED_DESCRIPTOR);
    hide Run, NESTED_DESCRIPTOR, Tokenise, EncodeAll;
    TokeniseIsInverseOfEncode(bytes, NESTED_DESCRIPTOR);
  }

  lemma WrittenItems(item: Item)
    requires item in NESTED_DESCRIPTOR
    ensures WellFormed(item)
  {
    assert item in [KEYBOARD_PAGE] || item in KEYBOARD_BEGINS || item in [COLLECTION_ENDS] || item in KEY_USAGES
        || item in KEY_SIZES || item in [KEY_INPUT, COLLECTION_ENDS];
  }

  lemma NotEmpty(items: seq<Item>)
    requires items != [] && forall item <- items :: WellFormed(item)
    ensures EncodeAll(items) != []
  {
    hide Encode;
    assert Encode(items[0]) != [];
  }
}
