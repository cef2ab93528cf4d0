/**
 What a report descriptor means, item by item. Every alternative's usages are
 kept as an explicit, unbounded list, and open collections as a stack.
 */
module HidReference {
  import opened Basics
  import opened HidItems

  const MAIN := 0
  const GLOBAL := 1
  const LOCAL := 2

  const TAG_INPUT := 8
  const TAG_OUTPUT := 9
  const TAG_COLLECTION := 10
  const TAG_FEATURE := 11
  const TAG_END_COLLECTION := 12

  const TAG_USAGE_PAGE := 0
  const TAG_REPORT_SIZE := 7
  const TAG_REPORT_ID := 8
  const TAG_REPORT_COUNT := 9
  const TAG_PUSH := 10
  const TAG_POP := 11

  const TAG_USAGE := 0
  const TAG_USAGE_MINIMUM := 1
  const TAG_USAGE_MAXIMUM := 2
  const TAG_DELIMITER := 10

  const COLLECTION_APPLICATION := 1
  const PAGE_KEYBOARD := 0x07
  const PAGE_CONSUMER := 0x0c
  const STACK_DEPTH := 4
  const ALTERNATIVE_LIMIT := 4
  const POSITION_LIMIT := 256

  datatype Usage = Usage(page: nat, id: nat)

  const KEYBOARD_APPLICATION := Usage(0x01, 0x06)
  const CONSUMER_APPLICATION := Usage(PAGE_CONSUMER, 0x01)

  datatype Globals = Globals(usagePage: uint32, reportSize: uint32, reportCount: uint32)

  datatype Info = Info(valid: bool, hasKeyboard: bool, hasConsumerControl: bool,
                       hasNkroKeyboard: bool, usesReportIds: bool)

  const NOTHING := Info(false, false, false, false, false)

  /** An open collection: the order in which it was opened, and whether it is a keyboard application. */
  datatype Collection = Collection(serial: nat, keyboard: bool)

  type Alternatives = a: seq<seq<Usage>> | 1 <= |a| <= ALTERNATIVE_LIMIT witness [[]]

  /** The local items seen since the last main item; `minimum` waits for its maximum. */
  datatype Locals = Locals(alternatives: Alternatives, delimiterOpen: bool, minimum: Option<Usage>)

  const NO_LOCALS := Locals([[]], false, None)

  /** The open collections, how many were ever opened, and the serial of the last keyboard one. */
  datatype Nesting = Nesting(open: seq<Collection>, openings: nat, latestKeyboard: Option<nat>)

  datatype State = State(globals: Globals, saved: seq<Globals>, locals: Locals, nesting: Nesting, info: Info)

  const INITIAL := State(Globals(0, 0, 0), [], NO_LOCALS, Nesting([], 0, None), NOTHING)

  predicate ScalarSize(size: nat) {
    size == 1 || size == 2 || size == 4
  }

  predicate IsKey(usage: Usage) {
    usage.page == PAGE_KEYBOARD && 4 <= usage.id <= 255
  }

  predicate IsNonKey(usage: Usage) {
    usage.page == PAGE_KEYBOARD && usage.id < 4
  }

  predicate IsConsumer(usage: Usage) {
    usage.page == PAGE_CONSUMER && usage.id != 0
  }

  /** The distinct keys among the first `count` usages. */
  function Keys(usages: seq<Usage>, count: nat): set<nat> {
    set i | 0 <= i < |usages| && i < count && IsKey(usages[i]) :: usages[i].id
  }

  /** Each of `count` report bits has a keyboard-page usage of its own; only the non-key codes may repeat. */
  predicate CoversBitmap(usages: seq<Usage>, count: nat) {
    && count <= |usages|
    && (forall i | 0 <= i < count :: IsKey(usages[i]) || IsNonKey(usages[i]))
    && (forall i, j | 0 <= i < j < count :: usages[i] == usages[j] ==> IsNonKey(usages[i]))
  }

  predicate IsNkroField(usages: seq<Usage>, globals: Globals, value: nat) {
    && value % 4 == 2
    && globals.reportSize == 1
    && 8 < globals.reportCount <= POSITION_LIMIT
    && CoversBitmap(usages, globals.reportCount)
    && |Keys(usages, globals.reportCount)| > 8
  }

  /** A data field that reports a consumer usage; a variable field has one bit group per usage. */
  predicate IsConsumerField(usages: seq<Usage>, globals: Globals, value: nat) {
    && value % 2 == 0
    && exists i :: 0 <= i < |usages| && IsConsumer(usages[i])
                   && ((value / 2) % 2 == 0 || i < globals.reportCount)
  }

  /** The keyboard application collection opened last has not been closed. */
  predicate InsideKeyboard(nesting: Nesting) {
    && nesting.latestKeyboard.Some?
    && exists i :: 0 <= i < |nesting.open| && nesting.open[i].serial == nesting.latestKeyboard.value
  }

  predicate StartsWith(usages: seq<Usage>, usage: Usage) {
    usages != [] && usages[0] == usage
  }

  function Range(page: nat, first: nat, last: nat): (usages: seq<Usage>)
    requires first <= last + 1
    ensures |usages| == last + 1 - first
  {
    seq(last + 1 - first, i requires 0 <= i => Usage(page, first + i))
  }

  /** Usages go to the alternative the open delimiter started, and to the first one otherwise. */
  function Target(locals: Locals): (index: nat)
    ensures index < |locals.alternatives|
  {
    if locals.delimiterOpen then |locals.alternatives| - 1 else 0
  }

  function AddUsages(locals: Locals, usages: seq<Usage>): Locals {
    var t := Target(locals);
    locals.(alternatives := locals.alternatives[t := locals.alternatives[t] + usages])
  }

  function StepGlobal(st: State, tag: nat, data: seq<byte>): (next: Option<State>)
    ensures next.Some? ==> next.value.locals == st.locals && next.value.nesting == st.nesting
  {
    var value := LittleEndian(data);
    if tag in {TAG_USAGE_PAGE, TAG_REPORT_SIZE, TAG_REPORT_COUNT} then
      if !ScalarSize(|data|) then None
      else if tag == TAG_USAGE_PAGE then Some(st.(globals := st.globals.(usagePage := value)))
      else if tag == TAG_REPORT_SIZE then Some(st.(globals := st.globals.(reportSize := value)))
      else Some(st.(globals := st.globals.(reportCount := value)))
    else if tag == TAG_REPORT_ID then
      if |data| != 1 || value == 0 then None
      else Some(st.(info := st.info.(usesReportIds := true)))
    else if tag == TAG_PUSH then
      if data != [] || |st.saved| == STACK_DEPTH then None
      else Some(st.(saved := st.saved + [st.globals]))
    else if tag == TAG_POP then
      if data != [] || st.saved == [] then None
      else Some(st.(globals := st.saved[|st.saved| - 1], saved := st.saved[..|st.saved| - 1]))
    else
      Some(st)
  }

  /** A four-byte usage names its own page (section 6.2.2.8). */
  function Qualified(globals: Globals, data: seq<byte>): Usage {
    var value := LittleEndian(data);
    Usage(if |data| == 4 then value / 0x1_0000 else globals.usagePage, value % 0x1_0000)
  }

  function StepUsage(globals: Globals, locals: Locals, tag: nat, data: seq<byte>): Option<Locals> {
    var usage := Qualified(globals, data);
    if !ScalarSize(|data|) then None
    else if tag == TAG_USAGE then
      Some(AddUsages(locals, [usage]))
    else if tag == TAG_USAGE_MINIMUM then
      if locals.minimum.Some? then None else Some(locals.(minimum := Some(usage)))
    else
      match locals.minimum
      case None => None
      case Some(low) =>
        if usage.page != low.page || usage.id < low.id then None
        else Some(AddUsages(locals, Range(usage.page, low.id, usage.id)).(minimum := None))
  }

  function StepDelimiter(locals: Locals, data: seq<byte>): Option<Locals> {
    if locals.minimum.Some? || |data| != 1 then None
    else if data[0] == 1 && !locals.delimiterOpen && |locals.alternatives| < ALTERNATIVE_LIMIT then
      Some(locals.(alternatives := locals.alternatives + [[]], delimiterOpen := true))
    else if data[0] == 0 && locals.delimiterOpen then
      Some(locals.(delimiterOpen := false))
    else
      None
  }

  predicate SomeStartsWith(alternatives: seq<seq<Usage>>, usage: Usage) {
    exists i :: 0 <= i < |alternatives| && StartsWith(alternatives[i], usage)
  }

  predicate SomeUsage(alternatives: seq<seq<Usage>>) {
    exists i :: 0 <= i < |alternatives| && alternatives[i] != []
  }

  predicate SomeNkroField(alternatives: seq<seq<Usage>>, globals: Globals, value: nat) {
    exists i :: 0 <= i < |alternatives| && IsNkroField(alternatives[i], globals, value)
  }

  predicate SomeConsumerField(alternatives: seq<seq<Usage>>, globals: Globals, value: nat) {
    exists i :: 0 <= i < |alternatives| && IsConsumerField(alternatives[i], globals, value)
  }

  function Open(nesting: Nesting, keyboard: bool): Nesting {
    Nesting(nesting.open + [Collection(nesting.openings, keyboard)], nesting.openings + 1,
            if keyboard then Some(nesting.openings) else nesting.latestKeyboard)
  }

  function Close(nesting: Nesting): Nesting
    requires nesting.open != []
  {
    nesting.(open := nesting.open[..|nesting.open| - 1])
  }

  /** An application collection is described by the first usage of any alternative. */
  function OpenCollection(st: State, value: nat): State {
    var application := value == COLLECTION_APPLICATION;
    var keyboard := application && SomeStartsWith(st.locals.alternatives, KEYBOARD_APPLICATION);
    var consumer := application && SomeStartsWith(st.locals.alternatives, CONSUMER_APPLICATION);
    st.(nesting := Open(st.nesting, keyboard),
        info := st.info.(hasKeyboard := st.info.hasKeyboard || keyboard,
                         hasConsumerControl := st.info.hasConsumerControl || consumer))
  }

  function Input(st: State, value: nat): State {
    var nkro := InsideKeyboard(st.nesting) && SomeNkroField(st.locals.alternatives, st.globals, value);
    var consumer := SomeConsumerField(st.locals.alternatives, st.globals, value);
    st.(info := st.info.(hasNkroKeyboard := st.info.hasNkroKeyboard || nkro,
                         hasConsumerControl := st.info.hasConsumerControl || consumer))
  }

  function StepMain(st: State, tag: nat, data: seq<byte>): Option<State> {
    var value := LittleEndian(data);
    if st.locals.delimiterOpen || st.locals.minimum.Some? then None
    else if tag in {TAG_INPUT, TAG_OUTPUT, TAG_FEATURE} && !ScalarSize(|data|) then None
    else if tag == TAG_COLLECTION then
      if |data| != 1 || !SomeUsage(st.locals.alternatives) then None
      else Some(OpenCollection(st, value).(locals := NO_LOCALS))
    else if tag == TAG_END_COLLECTION then
      if data != [] || st.nesting.open == [] then None
      else Some(st.(nesting := Close(st.nesting), locals := NO_LOCALS))
    else if tag == TAG_INPUT then
      Some(Input(st, value).(locals := NO_LOCALS))
    else
      Some(st.(locals := NO_LOCALS))
  }

  function WithLocals(st: State, locals: Option<Locals>): Option<State> {
    match locals
    case None => None
    case Some(l) => Some(st.(locals := l))
  }

  function Step(st: State, item: Item): Option<State> {
    match item
    case Long(_, _) => Some(st)
    case Short(kind, tag, data) =>
      if kind == GLOBAL then StepGlobal(st, tag, data)
      else if kind == LOCAL && tag in {TAG_USAGE, TAG_USAGE_MINIMUM, TAG_USAGE_MAXIMUM} then
        WithLocals(st, StepUsage(st.globals, st.locals, tag, data))
      else if kind == LOCAL && tag == TAG_DELIMITER then
        WithLocals(st, StepDelimiter(st.locals, data))
      else if kind == MAIN then StepMain(st, tag, data)
      else Some(st)
  }

  function Run(st: State, items: seq<Item>): Option<State>
    decreases |items|
  {
    if items == [] then Some(st)
    else
      match Step(st, items[0])
      case None => None
      case Some(next) => Run(next, items[1..])
  }

  /** Nothing is left open at the end of the descriptor. */
  predicate Complete(st: State) {
    st.nesting.open == [] && st.saved == [] && !st.locals.delimiterOpen && st.locals.minimum.None?
  }

  function Verdict(end: Option<State>): Info {
    match end
    case None => NOTHING
    case Some(st) => if Complete(st) then st.info.(valid := true) else NOTHING
  }

  /** The reference meaning of a descriptor: tokenise, then fold over the items. */
  function Parse(bytes: seq<byte>): Info {
    if bytes == [] then NOTHING
    else
      match Tokenise(bytes)
      case None => NOTHING
      case Some(items) => Verdict(Run(INITIAL, items))
  }

  /** What remains to be done with `bytes` once `st` has been reached, one item at a time. */
  function Interpret(st: State, bytes: seq<byte>): Option<State>
    decreases |bytes|
  {
    if bytes == [] then Some(st)
    else
      match NextItem(bytes)
      case None => None
      case Some(taken) =>
        match Step(st, taken.item)
        case None => None
        case Some(next) => Interpret(next, bytes[taken.size..])
  }

  /** Stopping at the first bad item gives the same answer as tokenising everything first. */
  lemma {:induction false} InterpretIsRunOfTokens(st: State, bytes: seq<byte>)
    ensures Interpret(st, bytes) == match Tokenise(bytes)
                                    case None => None
                                    case Some(items) => Run(st, items)
    decreases |bytes|
  {
    if bytes != [] && NextItem(bytes).Some? {
      var taken := NextItem(bytes).value;
      var rest := bytes[taken.size..];
      match Step(st, taken.item) {
        case None =>
        case Some(next) => InterpretIsRunOfTokens(next, rest);
      }
      if Tokenise(rest).Some? {
        assert ([taken.item] + Tokenise(rest).value)[1..] == Tokenise(rest).value;
      }
    }
  }

  /** Serial numbers grow along the stack, so the latest keyboard collection is on it at most once. */
  predicate Ordered(nesting: Nesting) {
    && (forall i, j | 0 <= i < j < |nesting.open| :: nesting.open[i].serial < nesting.open[j].serial)
    && (forall i | 0 <= i < |nesting.open| :: nesting.open[i].serial < nesting.openings)
    && (nesting.latestKeyboard.Some? ==> nesting.latestKeyboard.value < nesting.openings)
  }
}
