/** Compact JSON (RFC 8259) over bytes: values, their text, and a parser that inverts it. */
module Json {
  import opened Basics

  datatype Value =
    | Null
    | Bool(b: bool)
    | Number(n: int)
    | Text(s: seq<byte>)
    | List(items: seq<Value>)
    | Object(members: seq<Member>)

  datatype Member = Member(key: seq<byte>, value: Value)

  const QUOTE: byte := 34
  const BACKSLASH: byte := 92
  const COMMA: byte := 44
  const COLON: byte := 58
  const OPEN_LIST: byte := 91
  const CLOSE_LIST: byte := 93
  const OPEN_OBJECT: byte := 123
  const CLOSE_OBJECT: byte := 125
  const MINUS: byte := 45
  const ZERO: byte := 48
  const LETTER_U: byte := 117

  // ------------------------------------------------------------------------
  // Printing

  function LowerHex(d: nat): byte
    requires d < 16
  {
    if d < 10 then ZERO + d else 97 + d - 10
  }

  /** Quotes, backslashes and control characters are escaped (RFC 8259, section 7). */
  function EscapedByte(c: byte): (e: seq<byte>)
    ensures 1 <= |e| <= 6
  {
    if c == QUOTE || c == BACKSLASH then [BACKSLASH, c]
    else if c < 0x20 then [BACKSLASH, LETTER_U, ZERO, ZERO, LowerHex(c / 16), LowerHex(c % 16)]
    else [c]
  }

  function Escaped(s: seq<byte>): (e: seq<byte>)
    ensures |e| <= 6 * |s|
  {
    if s == [] then [] else EscapedByte(s[0]) + Escaped(s[1..])
  }

  function Quoted(s: seq<byte>): seq<byte> {
    [QUOTE] + Escaped(s) + [QUOTE]
  }

  function Digits(n: nat): (d: seq<byte>)
    ensures d != [] && forall c | c in d :: IsDigit(c)
  {
    if n < 10 then [ZERO + n] else Digits(n / 10) + [ZERO + n % 10]
  }

  function Decimal(n: int): seq<byte> {
    if n < 0 then [MINUS] + Digits(-n) else Digits(n)
  }

  function Flag(b: bool): seq<byte> {
    if b then Ascii("true") else Ascii("false")
  }

  /** The parts with commas between them. */
  function Joined(parts: seq<seq<byte>>): seq<byte> {
    if parts == [] then []
    else if |parts| == 1 then parts[0]
    else Joined(parts[..|parts| - 1]) + [COMMA] + parts[|parts| - 1]
  }

  function PrintMember(m: Member): seq<byte> {
    Quoted(m.key) + [COLON] + Print(m.value)
  }

  function PrintAll(items: seq<Value>): (parts: seq<seq<byte>>)
    ensures |parts| == |items| && forall i | 0 <= i < |items| :: parts[i] == Print(items[i])
  {
    seq(|items|, i requires 0 <= i < |items| => Print(items[i]))
  }

  function PrintMembers(members: seq<Member>): (parts: seq<seq<byte>>)
    ensures |parts| == |members| && forall i | 0 <= i < |members| :: parts[i] == PrintMember(members[i])
  {
    seq(|members|, i requires 0 <= i < |members| => PrintMember(members[i]))
  }

  function Print(v: Value): seq<byte> {
    match v
    case Null => Ascii("null")
    case Bool(b) => Flag(b)
    case Number(n) => Decimal(n)
    case Text(s) => Quoted(s)
    case List(items) => [OPEN_LIST] + Joined(PrintAll(items)) + [CLOSE_LIST]
    case Object(members) => [OPEN_OBJECT] + Joined(PrintMembers(members)) + [CLOSE_OBJECT]
  }

  /** How the values are spelled. */
  lemma Spelling(key: seq<byte>, v: Value, w: Value)
    ensures Print(Null) == Ascii("null") && Print(Bool(true)) == Ascii("true") && Print(Bool(false)) == Ascii("false")
    ensures Print(List([v, w])) == Ascii("[") + Print(v) + Ascii(",") + Print(w) + Ascii("]")
    ensures Print(Object([Member(key, v)])) == Ascii("{") + Print(Text(key)) + Ascii(":") + Print(v) + Ascii("}")
  {
    Punctuation();
    SpelledList(v, w);
    SpelledObject(key, v);
    hide Ascii;
  }

  lemma Punctuation()
    ensures Ascii("[") == [OPEN_LIST] && Ascii(",") == [COMMA] && Ascii("]") == [CLOSE_LIST]
    ensures Ascii("{") == [OPEN_OBJECT] && Ascii(":") == [COLON] && Ascii("}") == [CLOSE_OBJECT]
  {
  }

  lemma SpelledList(v: Value, w: Value)
    ensures Print(List([v, w])) == [OPEN_LIST] + Print(v) + [COMMA] + Print(w) + [CLOSE_LIST]
  {
    var parts := PrintAll([v, w]);
    assert Print(List([v, w])) == [OPEN_LIST] + Joined(parts) + [CLOSE_LIST];
    hide Print;
    assert parts[..1] == [parts[0]];
    assert Joined(parts[..1]) == parts[0];
    assert Joined(parts) == parts[0] + [COMMA] + parts[1];
  }

  lemma SpelledObject(key: seq<byte>, v: Value)
    ensures Print(Object([Member(key, v)])) == [OPEN_OBJECT] + Print(Text(key)) + [COLON] + Print(v) + [CLOSE_OBJECT]
  {
    var m := Member(key, v);
    var parts := PrintMembers([m]);
    assert Print(Object([m])) == [OPEN_OBJECT] + Joined(parts) + [CLOSE_OBJECT];
    assert Print(Text(key)) == Quoted(key);
    hide Print;
    assert Joined(parts) == PrintMember(m);
  }

  /** How characters are escaped (RFC 8259, section 7). */
  lemma Escaping(c: byte)
    ensures Print(Text([c])) == Ascii("\"") + EscapedByte(c) + Ascii("\"")
    ensures EscapedByte(34) == Ascii("\\\"") && EscapedByte(92) == Ascii("\\\\")
    ensures c < 0x20 ==>
              && EscapedByte(c)[..4] == Ascii("\\u00")
              && EscapedByte(c)[4] == Ascii("01")[c / 16] && EscapedByte(c)[5] == Ascii("0123456789abcdef")[c % 16]
    ensures c >= 0x20 && c != 34 && c != 92 ==> EscapedByte(c) == [c]
  {
    assert Ascii("\"") == [QUOTE];
    assert Escaped([c]) == EscapedByte(c) + Escaped([]);
    assert Ascii("\\u00") == [BACKSLASH, LETTER_U, ZERO, ZERO];
    if c < 0x20 {
      LowerDigits(c / 16);
      LowerDigits(c % 16);
      assert EscapedByte(c)[..4] == [BACKSLASH, LETTER_U, ZERO, ZERO];
    }
  }

  lemma LowerDigits(d: nat)
    requires d < 16
    ensures LowerHex(d) == Ascii("0123456789abcdef")[d] && (d < 2 ==> LowerHex(d) == Ascii("01")[d])
  {
  }

  // ------------------------------------------------------------------------
  // Parsing

  predicate IsDigit(c: byte) {
    ZERO <= c <= 57
  }

  function HexValue(c: byte): Option<nat> {
    if IsDigit(c) then Some(c - ZERO)
    else if 97 <= c <= 102 then Some(c - 97 + 10)
    else if 65 <= c <= 70 then Some(c - 65 + 10)
    else None
  }

  /** The byte that two hexadecimal digits stand for. */
  function HexByte(high: byte, low: byte): Option<byte> {
    match (HexValue(high), HexValue(low))
    case (Some(h), Some(l)) => if h < 16 && l < 16 then Some(16 * h + l) else None
    case _ => None
  }

  function Prefixed(c: byte, r: Option<(seq<byte>, seq<byte>)>): Option<(seq<byte>, seq<byte>)> {
    if r.Some? then Some(([c] + r.value.0, r.value.1)) else None
  }

  /** The contents of a string whose opening quote is gone, and what follows it. */
  function ParseText(b: seq<byte>): (r: Option<(seq<byte>, seq<byte>)>)
    ensures r.Some? ==> |r.value.1| < |b|
    decreases |b|
  {
    if b == [] || b[0] < 0x20 then None
    else if b[0] == QUOTE then Some(([], b[1..]))
    else if b[0] != BACKSLASH then Prefixed(b[0], ParseText(b[1..]))
    else if |b| < 2 then None
    else if b[1] == QUOTE || b[1] == BACKSLASH then Prefixed(b[1], ParseText(b[2..]))
    else if |b| < 6 || b[1..4] != [LETTER_U, ZERO, ZERO] then None
    else
      match HexByte(b[4], b[5])
      case Some(c) => Prefixed(c, ParseText(b[6..]))
      case None => None
  }

  /** The number that starts with `n` and goes on with the digits of `b`. */
  function ParseDigits(b: seq<byte>, n: nat): (r: (nat, seq<byte>))
    ensures |r.1| <= |b|
    decreases |b|
  {
    if b != [] && IsDigit(b[0]) then ParseDigits(b[1..], 10 * n + b[0] - ZERO) else (n, b)
  }

  function ParseValue(b: seq<byte>): (r: Option<(Value, seq<byte>)>)
    ensures r.Some? ==> |r.value.1| < |b|
    decreases |b|, 0
  {
    if b == [] then None
    else if b[0] == QUOTE then
      match ParseText(b[1..])
      case Some((s, rest)) => Some((Text(s), rest))
      case None => None
    else if b[0] == OPEN_LIST then
      if |b| > 1 && b[1] == CLOSE_LIST then Some((List([]), b[2..]))
      else
        match ParseItems(b[1..])
        case Some((items, rest)) => Some((List(items), rest))
        case None => None
    else if b[0] == OPEN_OBJECT then
      if |b| > 1 && b[1] == CLOSE_OBJECT then Some((Object([]), b[2..]))
      else
        match ParseMembers(b[1..])
        case Some((members, rest)) => Some((Object(members), rest))
        case None => None
    else if IsDigit(b[0]) then
      var (n, rest) := ParseDigits(b[1..], b[0] - ZERO);
      Some((Number(n), rest))
    else if b[0] == MINUS then
      if |b| > 1 && IsDigit(b[1]) then
        var (n, rest) := ParseDigits(b[1..], 0);
        Some((Number(0 - n), rest))
      else None
    else if Ascii("null") <= b then Some((Null, b[4..]))
    else if Ascii("true") <= b then Some((Bool(true), b[4..]))
    else if Ascii("false") <= b then Some((Bool(false), b[5..]))
    else None
  }

  /** One or more values with commas between them, and the closing bracket. */
  function ParseItems(b: seq<byte>): (r: Option<(seq<Value>, seq<byte>)>)
    ensures r.Some? ==> |r.value.1| < |b|
    decreases |b|, 1
  {
    match ParseValue(b)
    case None => None
    case Some((v, rest)) =>
      if rest == [] then None
      else if rest[0] == CLOSE_LIST then Some(([v], rest[1..]))
      else if rest[0] != COMMA then None
      else
        match ParseItems(rest[1..])
        case Some((items, rest')) => Some(([v] + items, rest'))
        case None => None
  }

  function ParseMember(b: seq<byte>): (r: Option<(Member, seq<byte>)>)
    ensures r.Some? ==> |r.value.1| < |b|
    decreases |b|, 0
  {
    if b == [] || b[0] != QUOTE then None
    else
      match ParseText(b[1..])
      case None => None
      case Some((key, rest)) =>
        if rest == [] || rest[0] != COLON then None
        else
          match ParseValue(rest[1..])
          case Some((v, rest')) => Some((Member(key, v), rest'))
          case None => None
  }

  function ParseMembers(b: seq<byte>): (r: Option<(seq<Member>, seq<byte>)>)
    ensures r.Some? ==> |r.value.1| < |b|
    decreases |b|, 1
  {
    match ParseMember(b)
    case None => None
    case Some((m, rest)) =>
      if rest == [] then None
      else if rest[0] == CLOSE_OBJECT then Some(([m], rest[1..]))
      else if rest[0] != COMMA then None
      else
        match ParseMembers(rest[1..])
        case Some((members, rest')) => Some(([m] + members, rest'))
        case None => None
  }

  /** A whole text is one value. */
  function Parse(b: seq<byte>): Option<Value> {
    match ParseValue(b)
    case Some((v, rest)) => if rest == [] then Some(v) else None
    case None => None
  }

  // ------------------------------------------------------------------------
  // Parsing inverts printing

  lemma ByteParses(c: byte, rest: seq<byte>)
    ensures ParseText(EscapedByte(c) + rest) == Prefixed(c, ParseText(rest))
  {
    var b := EscapedByte(c) + rest;
    assert b[|EscapedByte(c)|..] == rest;
    if c < 0x20 {
      assert c == 16 * (c / 16) + c % 16;
      assert HexByte(b[4], b[5]) == Some(c);
    }
  }

  lemma NoTextParses(rest: seq<byte>)
    ensures ParseText(Escaped([]) + [QUOTE] + rest) == Some(([], rest))
  {
    assert Escaped([]) + [QUOTE] + rest == [QUOTE] + rest;
  }

  lemma {:induction false} TextParses(s: seq<byte>, rest: seq<byte>)
    ensures ParseText(Escaped(s) + [QUOTE] + rest) == Some((s, rest))
  {
    hide ParseText, EscapedByte;
    NoTextParses(rest);
    if s != [] {
      TextParses(s[1..], rest);
      ByteParses(s[0], Escaped(s[1..]) + [QUOTE] + rest);
      assert Escaped(s) + [QUOTE] + rest == EscapedByte(s[0]) + (Escaped(s[1..]) + [QUOTE] + rest);
      assert [s[0]] + s[1..] == s;
    }
  }

  lemma {:induction false} DigitsParse(n: nat, rest: seq<byte>)
    ensures ParseDigits(Digits(n) + rest, 0) == ParseDigits(rest, n)
    ensures ParseDigits((Digits(n) + rest)[1..], Digits(n)[0] - ZERO) == ParseDigits(rest, n)
  {
    if n < 10 {
      assert ([ZERO + n] + rest)[1..] == rest;
    } else {
      var last := [ZERO + n % 10] + rest;
      DigitsParse(n / 10, last);
      assert Digits(n) + rest == Digits(n / 10) + last && last[1..] == rest;
      assert Digits(n)[0] == Digits(n / 10)[0];
    }
  }

  lemma {:induction false} JoinedFromFront(parts: seq<seq<byte>>)
    requires |parts| > 1
    ensures Joined(parts) == parts[0] + [COMMA] + Joined(parts[1..])
  {
    var n := |parts| - 1;
    if n > 1 {
      JoinedFromFront(parts[..n]);
      assert parts[..n][1..] == parts[1..][..n - 1];
    }
  }

  /** What may follow a value: anything that does not go on a number. */
  predicate Ends(rest: seq<byte>) {
    rest == [] || !IsDigit(rest[0])
  }

  lemma LiteralsParse(rest: seq<byte>)
    ensures ParseValue(Print(Null) + rest) == Some((Null, rest))
    ensures ParseValue(Print(Bool(true)) + rest) == Some((Bool(true), rest))
    ensures ParseValue(Print(Bool(false)) + rest) == Some((Bool(false), rest))
    ensures Starts(Print(Null)) && Starts(Print(Bool(true))) && Starts(Print(Bool(false)))
  {
    hide ParseText, ParseItems, ParseMembers, ParseDigits;
    var n, t, f := Ascii("null") + rest, Ascii("true") + rest, Ascii("false") + rest;
    assert n[4..] == rest && t[4..] == rest && f[5..] == rest;
    assert n[0] == 110 && t[0] == 116 && f[0] == 102;
    assert Ascii("null") <= n && Ascii("true") <= t && Ascii("false") <= f;
  }

  predicate Starts(b: seq<byte>) {
    b != [] && b[0] != CLOSE_LIST
  }

  lemma NumberParses(n: int, rest: seq<byte>)
    requires Ends(rest)
    ensures ParseValue(Decimal(n) + rest) == Some((Number(n), rest)) && Starts(Decimal(n))
  {
    hide ParseText, ParseItems, ParseMembers, Digits, ParseDigits;
    var b := Decimal(n) + rest;
    NoDigits(rest, if n < 0 then -n else n);
    if n < 0 {
      DigitsParse(-n, rest);
      assert b[1..] == Digits(-n) + rest;
      assert Digits(-n)[0] in Digits(-n);
    } else {
      DigitsParse(n, rest);
      assert Digits(n)[0] in Digits(n);
    }
  }

  lemma NoDigits(rest: seq<byte>, n: nat)
    requires Ends(rest)
    ensures ParseDigits(rest, n) == (n, rest)
  {
  }

  lemma TextValueParses(s: seq<byte>, rest: seq<byte>)
    ensures ParseValue(Quoted(s) + rest) == Some((Text(s), rest)) && Starts(Quoted(s))
  {
    hide ParseText, ParseItems, ParseMembers, ParseDigits, Escaped;
    TextParses(s, rest);
    assert (Quoted(s) + rest)[1..] == Escaped(s) + [QUOTE] + rest;
  }

  lemma ListParses(inner: seq<byte>, items: seq<Value>, rest: seq<byte>)
    requires ParseItems(inner) == Some((items, rest)) && Starts(inner)
    ensures ParseValue([OPEN_LIST] + inner) == Some((List(items), rest))
  {
    hide ParseText, ParseItems, ParseMembers, ParseDigits;
    assert ([OPEN_LIST] + inner)[1..] == inner;
  }

  lemma ObjectParses(inner: seq<byte>, members: seq<Member>, rest: seq<byte>)
    requires ParseMembers(inner) == Some((members, rest)) && inner != [] && inner[0] == QUOTE
    ensures ParseValue([OPEN_OBJECT] + inner) == Some((Object(members), rest))
  {
    hide ParseText, ParseItems, ParseMembers, ParseDigits;
    assert ([OPEN_OBJECT] + inner)[1..] == inner;
  }

  lemma EmptiesParse(rest: seq<byte>)
    ensures ParseValue(Print(List([])) + rest) == Some((List([]), rest)) && Starts(Print(List([])))
    ensures ParseValue(Print(Object([])) + rest) == Some((Object([]), rest)) && Starts(Print(Object([])))
  {
    hide ParseText, ParseItems, ParseMembers, ParseDigits;
    var l, o := [OPEN_LIST, CLOSE_LIST] + rest, [OPEN_OBJECT, CLOSE_OBJECT] + rest;
    assert Print(List([])) == [OPEN_LIST, CLOSE_LIST] && Print(Object([])) == [OPEN_OBJECT, CLOSE_OBJECT];
    assert l[2..] == rest && o[2..] == rest;
  }

  lemma {:induction false} ValueParses(v: Value, rest: seq<byte>)
    requires Ends(rest)
    ensures ParseValue(Print(v) + rest) == Some((v, rest)) && Starts(Print(v))
    decreases v, 2
  {
    hide ParseValue, ParseItems, ParseMembers, Joined, Decimal, Quoted, PrintMembers, PrintAll;
    match v
    case Null => LiteralsParse(rest);
    case Bool(_) => LiteralsParse(rest);
    case Number(n) => NumberParses(n, rest);
    case Text(s) => TextValueParses(s, rest);
    case List(items) =>
      if items == [] {
        EmptiesParse(rest);
      } else {
        ItemsParse(v, 0, rest);
        var inner := Joined(PrintAll(items)[0..]) + [CLOSE_LIST] + rest;
        ListParses(inner, items[0..], rest);
        assert PrintAll(items)[0..] == PrintAll(items) && items[0..] == items;
        assert Print(v) + rest == [OPEN_LIST] + inner;
      }
    case Object(members) =>
      if members == [] {
        EmptiesParse(rest);
      } else {
        MembersParse(v, 0, rest);
        var inner := Joined(PrintMembers(members)[0..]) + [CLOSE_OBJECT] + rest;
        ObjectParses(inner, members[0..], rest);
        assert PrintMembers(members)[0..] == PrintMembers(members) && members[0..] == members;
        assert Print(v) + rest == [OPEN_OBJECT] + inner;
      }
  }

  lemma LastItem(v: Value, rest: seq<byte>)
    requires ParseValue(Print(v) + ([CLOSE_LIST] + rest)) == Some((v, [CLOSE_LIST] + rest))
    ensures ParseItems(Print(v) + [CLOSE_LIST] + rest) == Some(([v], rest))
  {
    hide ParseValue, Print;
    assert Print(v) + [CLOSE_LIST] + rest == Print(v) + ([CLOSE_LIST] + rest);
  }

  lemma OneMoreItem(v: Value, tail: seq<byte>, items: seq<Value>, rest: seq<byte>)
    requires ParseValue(Print(v) + ([COMMA] + tail)) == Some((v, [COMMA] + tail))
    requires ParseItems(tail) == Some((items, rest))
    ensures ParseItems(Print(v) + [COMMA] + tail) == Some(([v] + items, rest))
  {
    hide ParseValue, Print;
    assert Print(v) + [COMMA] + tail == Print(v) + ([COMMA] + tail);
    assert ([COMMA] + tail)[1..] == tail;
  }

  lemma {:induction false} ItemsParse(v: Value, i: nat, rest: seq<byte>)
    requires v.List? && i < |v.items|
    ensures var text := Joined(PrintAll(v.items)[i..]) + [CLOSE_LIST] + rest;
            ParseItems(text) == Some((v.items[i..], rest)) && Starts(text)
    decreases v, 1, |v.items| - i
  {
    hide ParseValue, ParseItems, Print;
    var parts, first := PrintAll(v.items)[i..], v.items[i];
    if |parts| == 1 {
      ValueParses(first, [CLOSE_LIST] + rest);
      LastItem(first, rest);
      assert parts == [Print(first)] && v.items[i..] == [first];
    } else {
      hide Joined;
      ItemsParse(v, i + 1, rest);
      JoinedFromFront(parts);
      assert parts[1..] == PrintAll(v.items)[i + 1..];
      var tail := Joined(parts[1..]) + [CLOSE_LIST] + rest;
      ValueParses(first, [COMMA] + tail);
      OneMoreItem(first, tail, v.items[i + 1..], rest);
      assert Joined(parts) + [CLOSE_LIST] + rest == Print(first) + [COMMA] + tail;
      assert v.items[i..] == [first] + v.items[i + 1..];
    }
  }

  lemma {:induction false} MemberParses(m: Member, rest: seq<byte>)
    requires Ends(rest)
    ensures ParseMember(PrintMember(m) + rest) == Some((m, rest))
    ensures PrintMember(m) != [] && PrintMember(m)[0] == QUOTE
    decreases m, 3
  {
    hide ParseValue, ParseText, Print, Escaped;
    var b := PrintMember(m) + rest;
    var value := [COLON] + (Print(m.value) + rest);
    ValueParses(m.value, rest);
    TextParses(m.key, value);
    assert b[1..] == Escaped(m.key) + [QUOTE] + value;
    assert value[1..] == Print(m.value) + rest;
  }

  lemma LastMember(m: Member, rest: seq<byte>)
    requires ParseMember(PrintMember(m) + ([CLOSE_OBJECT] + rest)) == Some((m, [CLOSE_OBJECT] + rest))
    ensures ParseMembers(PrintMember(m) + [CLOSE_OBJECT] + rest) == Some(([m], rest))
  {
    hide ParseMember, PrintMember;
    assert PrintMember(m) + [CLOSE_OBJECT] + rest == PrintMember(m) + ([CLOSE_OBJECT] + rest);
  }

  lemma OneMoreMember(m: Member, tail: seq<byte>, members: seq<Member>, rest: seq<byte>)
    requires ParseMember(PrintMember(m) + ([COMMA] + tail)) == Some((m, [COMMA] + tail))
    requires ParseMembers(tail) == Some((members, rest))
    ensures ParseMembers(PrintMember(m) + [COMMA] + tail) == Some(([m] + members, rest))
  {
    hide ParseMember, PrintMember;
    assert PrintMember(m) + [COMMA] + tail == PrintMember(m) + ([COMMA] + tail);
    assert ([COMMA] + tail)[1..] == tail;
  }

  lemma {:induction false} MembersParse(v: Value, i: nat, rest: seq<byte>)
    requires v.Object? && i < |v.members|
    ensures var text := Joined(PrintMembers(v.members)[i..]) + [CLOSE_OBJECT] + rest;
            ParseMembers(text) == Some((v.members[i..], rest)) && text != [] && text[0] == QUOTE
    decreases v, 1, |v.members| - i
  {
    hide ParseMember, ParseMembers, PrintMember;
    var parts, first := PrintMembers(v.members)[i..], v.members[i];
    if |parts| == 1 {
      MemberParses(first, [CLOSE_OBJECT] + rest);
      LastMember(first, rest);
      assert parts == [PrintMember(first)] && v.members[i..] == [first];
    } else {
      hide Joined;
      MembersParse(v, i + 1, rest);
      JoinedFromFront(parts);
      assert parts[1..] == PrintMembers(v.members)[i + 1..];
      var tail := Joined(parts[1..]) + [CLOSE_OBJECT] + rest;
      MemberParses(first, [COMMA] + tail);
      OneMoreMember(first, tail, v.members[i + 1..], rest);
      assert Joined(parts) + [CLOSE_OBJECT] + rest == PrintMember(first) + [COMMA] + tail;
      assert v.members[i..] == [first] + v.members[i + 1..];
    }
  }

  /** Every value is what its text parses to; so no two values share a text. */
  lemma ParseIsInverseOfPrint(v: Value)
    ensures Parse(Print(v)) == Some(v)
  {
    ValueParses(v, []);
    assert Print(v) + [] == Print(v);
  }
}
