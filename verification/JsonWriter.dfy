/** The writer of control snapshots: formatted pieces into a caller's buffer of any size. */
module JsonWriter {
  import opened Basics
  import opened Json
  import opened ControlJson

  // ------------------------------------------------------------------------
  // The format strings and the JSON text

  /** A key of letters needs no escape. */
  predicate Letters(key: string) {
    forall i | 0 <= i < |key| :: 'A' <= key[i] <= 'Z' || 'a' <= key[i] <= 'z'
  }

  predicate Plain(b: seq<byte>) {
    forall i | 0 <= i < |b| :: 0x20 <= b[i] && b[i] != QUOTE && b[i] != BACKSLASH
  }

  lemma {:induction false} PlainEscaped(b: seq<byte>)
    requires Plain(b)
    ensures Escaped(b) == b
  {
    if b != [] {
      assert b[0] != QUOTE && b[0] != BACKSLASH && b[0] >= 0x20;
      PlainEscaped(b[1..]);
      assert b == [b[0]] + b[1..];
    }
  }

  lemma HexPairIsPlain(b: byte)
    ensures Plain(HexPair(b))
  {
  }

  lemma PlainColon(a: seq<byte>, b: seq<byte>)
    requires Plain(a) && Plain(b)
    ensures Plain(a + [58] + b)
  {
  }

  lemma AddressIsPlain(a: Address)
    ensures Quoted(AddressText(a)) == [QUOTE] + AddressText(a) + [QUOTE]
  {
    hide Plain, HexPair, Escaped;
    forall i | 0 <= i < 6 ensures Plain(HexPair(a[i])) { HexPairIsPlain(a[i]); }
    var text := HexPair(a[0]);
    PlainColon(text, HexPair(a[1]));
    text := text + [58] + HexPair(a[1]);
    PlainColon(text, HexPair(a[2]));
    text := text + [58] + HexPair(a[2]);
    PlainColon(text, HexPair(a[3]));
    text := text + [58] + HexPair(a[3]);
    PlainColon(text, HexPair(a[4]));
    text := text + [58] + HexPair(a[4]);
    PlainColon(text, HexPair(a[5]));
    PlainEscaped(AddressText(a));
  }

  lemma {:induction false} EscapedSnoc(s: seq<byte>, c: byte)
    ensures Escaped(s + [c]) == Escaped(s) + EscapedByte(c)
  {
    hide EscapedByte, Escaped;
    EscapedNothing();
    EscapedFirst(s + [c]);
    if s == [] {
      assert [] + [c] == [c] && [c][1..] == [];
    } else {
      EscapedFirst(s);
      EscapedSnoc(s[1..], c);
      assert (s + [c])[1..] == s[1..] + [c];
    }
  }

  lemma EscapedFirst(s: seq<byte>)
    requires s != []
    ensures Escaped(s) == EscapedByte(s[0]) + Escaped(s[1..])
  {
  }

  lemma EscapedNothing()
    ensures Escaped([]) == []
  {
  }

  lemma EscapedForms(c: byte)
    ensures EscapedByte(c)
         == if c == QUOTE || c == BACKSLASH then [BACKSLASH, c]
            else if c < 0x20 then [BACKSLASH, LETTER_U, ZERO, ZERO, LowerHex(c / 16), LowerHex(c % 16)]
            else [c]
  {
  }

  lemma {:induction false} EscapedSplit(s: seq<byte>, i: nat)
    requires i <= |s|
    ensures Escaped(s[..i]) <= Escaped(s)
    decreases |s|
  {
    if i == |s| {
      assert s[..i] == s;
    } else {
      var n := |s| - 1;
      EscapedSplit(s[..n], i);
      EscapedSnoc(s[..n], s[n]);
      assert s[..n][..i] == s[..i] && s == s[..n] + [s[n]];
    }
  }

  lemma LettersArePlain(key: string)
    requires Letters(key)
    ensures Plain(Ascii(key))
  {
    forall i | 0 <= i < |key|
      ensures 0x20 <= Ascii(key)[i] && Ascii(key)[i] != QUOTE && Ascii(key)[i] != BACKSLASH
    {
      assert 'A' <= key[i] <= 'Z' || 'a' <= key[i] <= 'z';
      assert 65 <= key[i] as int <= 90 || 97 <= key[i] as int <= 122;
    }
  }

  lemma KeyText(key: string)
    requires Letters(key)
    ensures Quoted(Ascii(key)) + [COLON] == Ascii("\"" + key + "\":")
  {
    hide Escaped, Letters, Plain;
    LettersArePlain(key);
    PlainEscaped(Ascii(key));
    assert Ascii("\"") == [QUOTE] && Ascii("\":") == [QUOTE, COLON];
    assert Ascii("\"" + key + "\":") == Ascii("\"") + Ascii(key) + Ascii("\":");
  }

  /** The text of the first `n` members. */
  function Fields(keys: seq<string>, values: seq<Value>, n: nat): seq<byte>
    requires n <= |keys| == |values|
  {
    Joined(PrintMembers(Zip(keys, values)[..n]))
  }

  lemma NoFields(keys: seq<string>, values: seq<Value>)
    requires |keys| == |values|
    ensures Fields(keys, values, 0) == []
  {
  }

  lemma AllFields(keys: seq<string>, values: seq<Value>)
    requires |keys| == |values|
    ensures Print(Object(Zip(keys, values))) == [OPEN_OBJECT] + Fields(keys, values, |keys|) + [CLOSE_OBJECT]
  {
    assert Zip(keys, values)[..|keys|] == Zip(keys, values);
  }

  /** What stands before the value of member `n` in a format string. */
  function Label(keys: seq<string>, n: nat): string
    requires n < |keys|
  {
    (if n == 0 then "" else ",") + ("\"" + keys[n] + "\":")
  }

  lemma OneMoreField(keys: seq<string>, values: seq<Value>, n: nat)
    requires n < |keys| == |values| && Letters(keys[n])
    ensures Fields(keys, values, n + 1) == Fields(keys, values, n) + Ascii(Label(keys, n)) + Print(values[n])
  {
    hide Print, Quoted, Letters;
    var members := Zip(keys, values);
    KeyText(keys[n]);
    assert PrintMembers(members[..n + 1])[..n] == PrintMembers(members[..n]);
    assert PrintMember(members[n]) == Ascii("\"" + keys[n] + "\":") + Print(values[n]);
    assert Ascii(",") == [COMMA];
    assert Ascii(Label(keys, n)) == Ascii(if n == 0 then "" else ",") + Ascii("\"" + keys[n] + "\":");
  }

  lemma StatusKeysAreLetters()
    ensures |STATUS_KEYS| == 6 && forall n | 0 <= n < 6 :: Letters(STATUS_KEYS[n])
  {
  }

  lemma DeviceKeyIsLetters(n: nat)
    requires n < 14
    ensures |DEVICE_KEYS| == 14 && Letters(DEVICE_KEYS[n])
  {
    if n < 4 {
    } else if n < 7 {
    } else if n < 10 {
    } else {
    }
  }

  /** The texts between the values in the format strings of a device and of the whole. */
  const DEVICE_FORMAT := [
    "{\"address\":", ",\"name\":", ",\"rssi\":", ",\"hasRssi\":", ",\"keyboard\":", ",\"bonded\":",
    ",\"connected\":", ",\"reportDescriptorPresent\":", ",\"reportDescriptorTooLarge\":",
    ",\"reportDescriptorValid\":", ",\"reportKeyboard\":", ",\"reportConsumerControl\":", ",\"reportNkro\":",
    ",\"reportIds\":"]

  const STATUS_FORMAT := [
    "{\"version\":", ",\"state\":", ",\"autoConnect\":", ",\"pairingPin\":", ",\"selectedDevice\":",
    ",\"devices\":"]

  /** Text `n` is a label, behind the opening brace if it is the first. */
  predicate Labels(format: seq<string>, keys: seq<string>, n: nat)
    requires n < |format| && n < |keys|
  {
    format[n] == (if n == 0 then "{" else "") + Label(keys, n)
  }

  lemma FirstDeviceLabels()
    ensures |DEVICE_KEYS| == |DEVICE_FORMAT| == 14
    ensures forall n | 0 <= n < 7 :: Labels(DEVICE_FORMAT, DEVICE_KEYS, n)
  {
  }

  lemma PresenceLabel()
    ensures |DEVICE_KEYS| == |DEVICE_FORMAT| == 14
    ensures Labels(DEVICE_FORMAT, DEVICE_KEYS, 7)
  {
  }

  lemma SizeLabel()
    ensures |DEVICE_KEYS| == |DEVICE_FORMAT| == 14 && Labels(DEVICE_FORMAT, DEVICE_KEYS, 8)
  {
  }

  lemma ValidityLabels()
    ensures |DEVICE_KEYS| == |DEVICE_FORMAT| == 14
    ensures forall n | 9 <= n < 11 :: Labels(DEVICE_FORMAT, DEVICE_KEYS, n)
  {
  }

  lemma ReportLabels()
    ensures |DEVICE_KEYS| == |DEVICE_FORMAT| == 14
    ensures forall n | 11 <= n < 14 :: Labels(DEVICE_FORMAT, DEVICE_KEYS, n)
  {
  }

  /** The format strings spell the keys, and the keys need no escapes. */
  predicate Spells(format: seq<string>, keys: seq<string>) {
    |format| == |keys| && forall n | 0 <= n < |keys| :: Letters(keys[n]) && Labels(format, keys, n)
  }

  lemma DeviceFormatSpells()
    ensures |DEVICE_KEYS| == 14 && Spells(DEVICE_FORMAT, DEVICE_KEYS)
  {
    hide Labels, Letters, DEVICE_KEYS, DEVICE_FORMAT;
    FirstDeviceLabels();
    PresenceLabel();
    SizeLabel();
    ValidityLabels();
    ReportLabels();
    forall n | 0 <= n < 14 ensures Letters(DEVICE_KEYS[n]) { DeviceKeyIsLetters(n); }
  }

  lemma StatusLabels()
    ensures |STATUS_KEYS| == |STATUS_FORMAT| == 6
    ensures forall n | 0 <= n < 6 :: Labels(STATUS_FORMAT, STATUS_KEYS, n)
  {
  }

  lemma StatusFormatSpells()
    ensures |STATUS_KEYS| == 6 && Spells(STATUS_FORMAT, STATUS_KEYS)
  {
    hide Labels, Letters, STATUS_KEYS, STATUS_FORMAT;
    StatusLabels();
    StatusKeysAreLetters();
  }

  // ------------------------------------------------------------------------
  // The writer

  /** The first member stands behind the opening brace. */
  lemma FirstField(format: seq<string>, keys: seq<string>, values: seq<Value>)
    requires 0 < |keys| == |values| && Spells(format, keys)
    ensures |format| == |keys|
    ensures Ascii(format[0]) + Print(values[0]) == [OPEN_OBJECT] + Fields(keys, values, 1)
  {
    hide Fields, Label, Print;
    OneMoreField(keys, values, 0);
    NoFields(keys, values);
    assert Labels(format, keys, 0);
    assert Ascii("{") == [OPEN_OBJECT];
    assert Ascii("{" + Label(keys, 0)) == Ascii("{") + Ascii(Label(keys, 0));
  }

  lemma SpelledLabel(format: seq<string>, keys: seq<string>, n: nat)
    requires 0 < n < |keys| && Spells(format, keys)
    ensures |format| == |keys| && Letters(keys[n]) && format[n] == Label(keys, n)
  {
    hide Letters, Label;
    assert Labels(format, keys, n);
    assert "" + Label(keys, n) == Label(keys, n);
  }

  /** One more label and value behind a text. */
  lemma FieldGrows(before: seq<byte>, line: seq<byte>, format: seq<string>, keys: seq<string>, values: seq<Value>,
                   n: nat)
    requires 0 < n < |keys| == |values| && Spells(format, keys) && before + line == Fields(keys, values, n)
    ensures |format| == |keys|
    ensures before + (line + Ascii(format[n]) + Print(values[n])) == Fields(keys, values, n + 1)
  {
    hide *;
    SpelledLabel(format, keys, n);
    OneMoreField(keys, values, n);
    Regroup(before, line, Ascii(format[n]), Print(values[n]));
  }

  /** Values 2 to 13 are those of the device. */
  predicate Describes(values: seq<Value>, d: Device) {
    && |values| == 14 && values[2] == Number(d.rssi)
    && values[3] == Bool(d.hasRssi) && values[4] == Bool(d.keyboard) && values[5] == Bool(d.bonded) &&
    values[6] == Bool(d.connected) && values[7] == Bool(d.descriptorPresent) && values[8] ==
    Bool(d.descriptorTooLarge) && values[9] == Bool(d.descriptorValid) && values[10] ==
    Bool(d.reportKeyboard) && values[11] == Bool(d.reportConsumer) && values[12] == Bool(d.reportNkro) &&
    values[13] == Bool(d.reportIds)
  }

  /** Behind `before`, the line ends where member `n` starts. */
  ghost predicate UpTo(before: seq<byte>, line: seq<byte>, keys: seq<string>, values: seq<Value>, n: nat)
    requires n <= |keys| == |values|
  {
    before + line == Fields(keys, values, n)
  }

  /** A line with one more label and flag. */
  method WithFlag(line: seq<byte>, flag: bool, ghost before: seq<byte>, format: seq<string>, ghost keys: seq<string>,
                  ghost values: seq<Value>, n: nat)
    returns (longer: seq<byte>)
    requires 0 < n < |keys| == |values| && Spells(format, keys) && values[n] == Bool(flag)
    requires UpTo(before, line, keys, values, n)
    ensures UpTo(before, longer, keys, values, n + 1)
  {
    hide Fields, Ascii, Spells, Flag;
    FieldGrows(before, line, format, keys, values, n);
    longer := line + Ascii(format[n]) + Flag(flag);
  }

  method WithStrength(rssi: int8, ghost before: seq<byte>, format: seq<string>, ghost keys: seq<string>,
                      ghost values: seq<Value>)
    returns (line: seq<byte>)
    requires 2 < |keys| == |values| && Spells(format, keys) && values[2] == Number(rssi)
    requires before == Fields(keys, values, 2)
    ensures UpTo(before, line, keys, values, 3)
  {
    hide Fields, Decimal, Ascii, Spells;
    SpelledLabel(format, keys, 2);
    assert before + [] == before;
    FieldGrows(before, [], format, keys, values, 2);
    line := Ascii(format[2]) + Decimal(rssi);
    assert [] + Ascii(format[2]) == Ascii(format[2]);
  }

  method Closed(line: seq<byte>, ghost before: seq<byte>, ghost keys: seq<string>, ghost values: seq<Value>)
    returns (longer: seq<byte>)
    requires |keys| == |values| && UpTo(before, line, keys, values, |keys|)
    ensures before + longer == Fields(keys, values, |keys|) + [CLOSE_OBJECT]
  {
    hide Fields;
    longer := line + [CLOSE_OBJECT];
  }

  /** The part about the report descriptor, up to the closing brace. */
  method WithReport(line: seq<byte>, d: Device, ghost before: seq<byte>, format: seq<string>, ghost keys: seq<string>,
                    ghost values: seq<Value>)
    returns (longer: seq<byte>)
    requires |keys| == 14 && Spells(format, keys) && Describes(values, d) && UpTo(before, line, keys, values, 7)
    ensures before + longer == Fields(keys, values, 14) + [CLOSE_OBJECT]
  {
    hide Fields, Spells, UpTo;
    longer := WithFlag(line, d.descriptorPresent, before, format, keys, values, 7);
    longer := WithFlag(longer, d.descriptorTooLarge, before, format, keys, values, 8);
    longer := WithFlag(longer, d.descriptorValid, before, format, keys, values, 9);
    longer := WithFlag(longer, d.reportKeyboard, before, format, keys, values, 10);
    longer := WithFlag(longer, d.reportConsumer, before, format, keys, values, 11);
    longer := WithFlag(longer, d.reportNkro, before, format, keys, values, 12);
    longer := WithFlag(longer, d.reportIds, before, format, keys, values, 13);
    longer := Closed(longer, before, keys, values);
  }

  /** The fixed part of a device, from its signal strength to its end. */
  method RestOfDevice(d: Device, format: seq<string>, ghost keys: seq<string>, ghost values: seq<Value>)
    returns (line: seq<byte>)
    requires |keys| == 14 && Spells(format, keys) && Describes(values, d)
    ensures Fields(keys, values, 2) + line == Fields(keys, values, 14) + [CLOSE_OBJECT]
  {
    hide Fields, Spells, UpTo;
    ghost var before := Fields(keys, values, 2);
    line := WithStrength(d.rssi, before, format, keys, values);
    line := WithFlag(line, d.hasRssi, before, format, keys, values, 3);
    line := WithFlag(line, d.keyboard, before, format, keys, values, 4);
    line := WithFlag(line, d.bonded, before, format, keys, values, 5);
    line := WithFlag(line, d.connected, before, format, keys, values, 6);
    line := WithReport(line, d, before, format, keys, values);
  }

  lemma DeviceText(d: Device)
    ensures |DEVICE_KEYS| == 14
    ensures Print(DeviceJson(d)) == [OPEN_OBJECT] + Fields(DEVICE_KEYS, DeviceValues(d), 14) + [CLOSE_OBJECT]
  {
    hide Print, Fields, DEVICE_KEYS;
    DeviceFormatSpells();
    AllFields(DEVICE_KEYS, DeviceValues(d));
  }

  lemma DeviceDescribed(d: Device)
    requires 0 in d.name
    ensures var values := DeviceValues(Shown(d));
            && Describes(values, d)
            && values[0] == Text(AddressText(d.address)) && values[1] == Text(CString(d.name))
  {
    hide AddressText, CString;
  }

  lemma StatusText(s: Status)
    ensures |STATUS_KEYS| == 6
    ensures Print(StatusJson(s)) == [OPEN_OBJECT] + Fields(STATUS_KEYS, StatusValues(s), 6) + [CLOSE_OBJECT]
  {
    hide Print, Fields, STATUS_KEYS;
    StatusFormatSpells();
    AllFields(STATUS_KEYS, StatusValues(s));
  }

  /** The list of devices as it grows. */
  function Listed(items: seq<Value>, n: nat): seq<byte>
    requires n <= |items|
  {
    Joined(PrintAll(items[..n]))
  }

  lemma OneMoreDevice(items: seq<Value>, n: nat)
    requires n < |items|
    ensures Listed(items, 0) == []
    ensures Listed(items, n + 1) == Listed(items, n) + (if n != 0 then [COMMA] else []) + Print(items[n])
    ensures n + 1 == |items| ==> Print(List(items)) == [OPEN_LIST] + Listed(items, n + 1) + [CLOSE_LIST]
  {
    hide Print;
    assert PrintAll(items[..n + 1])[..n] == PrintAll(items[..n]);
    AllListed(items);
  }

  lemma AllListed(items: seq<Value>)
    ensures Print(List(items)) == [OPEN_LIST] + Listed(items, |items|) + [CLOSE_LIST]
  {
    assert items[..|items|] == items;
  }

  /** One more label and value behind the members before it. */
  lemma NextField(start: seq<byte>, format: seq<string>, keys: seq<string>, values: seq<Value>, n: nat)
    requires 0 < n < |keys| == |values| && Spells(format, keys)
    ensures |format| == |keys|
    ensures start + Fields(keys, values, n) + (Ascii(format[n]) + Print(values[n]))
         == start + Fields(keys, values, n + 1)
    ensures start + Fields(keys, values, n) + Ascii(format[n]) + Print(values[n]) == start + Fields(keys, values, n + 1)
  {
    hide *;
    SpelledLabel(format, keys, n);
    OneMoreField(keys, values, n);
    Regroup(start, Fields(keys, values, n), Ascii(format[n]), Print(values[n]));
  }

  /**
   A buffer holds a text that was asked for: all of it and a terminator when it
   fits, else as much as fits and a terminator in the last place.
   */
  predicate Holds(buffer: seq<byte>, text: seq<byte>)
    requires buffer != []
  {
    if |text| < |buffer| then buffer[..|text|] == text && buffer[|text|] == 0
    else buffer[..|buffer| - 1] == text[..|buffer| - 1] && buffer[|buffer| - 1] == 0
  }

  class Writer {
    const buffer: array<byte>
    var length: nat
    var valid: bool
    ghost var text: seq<byte>

    ghost predicate Valid()
      reads this, buffer
    {
      && buffer.Length > 0 && Holds(buffer[..], text)
      && (valid <==> |text| < buffer.Length) && (valid ==> length == |text|)
    }

    constructor (buffer: array<byte>)
      requires buffer.Length > 0
      modifies buffer
      ensures Valid() && text == [] && this.buffer == buffer
    {
      this.buffer, length, valid, text := buffer, 0, true, [];
      new;
      buffer[0] := 0;
    }

    /** The bounded print: at most the room that is left, and always a terminator. */
    method Append(piece: seq<byte>)
      requires Valid()
      modifies this, buffer
      ensures Valid() && text == old(text) + piece
    {
      ghost var asked := text + piece;
      if !valid {
        assert asked[..buffer.Length - 1] == text[..buffer.Length - 1];
        text := asked;
        return;
      }
      var room := buffer.Length - length;
      var fits := if |piece| < room then |piece| else room - 1;
      forall i | 0 <= i < fits {
        buffer[length + i] := piece[i];
      }
      buffer[length + fits] := 0;
      assert buffer[..length] == text;
      assert buffer[length..length + fits] == piece[..fits] by {
        forall i | 0 <= i < fits ensures buffer[length..length + fits][i] == piece[i] {
          assert buffer[length + i] == piece[i];
        }
      }
      assert buffer[..length + fits] == text + piece[..fits] == asked[..length + fits];
      text := asked;
      if |piece| >= room {
        valid := false;
        return;
      }
      length := length + |piece|;
    }

    /** Nothing is written any more once the buffer has overflowed. */
    ghost method Skip(piece: seq<byte>)
      requires Valid() && !valid
      modifies this`text
      ensures Valid() && text == old(text) + piece
    {
      assert (text + piece)[..buffer.Length - 1] == text[..buffer.Length - 1];
      text := text + piece;
    }

    method AppendString(field: seq<byte>)
      requires Valid() && 0 in field
      modifies this, buffer
      ensures Valid() && text == old(text) + Quoted(CString(field))
    {
      hide Escaped, EscapedByte, Holds;
      ghost var before, value := text + [QUOTE], CString(field);
      Append([QUOTE]);
      EscapedNothing();
      var i := 0;
      while valid && field[i] != 0
        invariant Valid() && 0 <= i <= |value|
        invariant text == before + Escaped(value[..i])
        decreases |value| - i
      {
        var c := field[i];
        assert c == value[i] && value[..i + 1] == value[..i] + [c];
        EscapedSnoc(value[..i], c);
        if c == QUOTE || c == BACKSLASH {
          Append([BACKSLASH, c]);
        } else if c < 0x20 {
          Append([BACKSLASH, LETTER_U, ZERO, ZERO, LowerHex(c / 16), LowerHex(c % 16)]);
        } else {
          Append([c]);
        }
        EscapedForms(c);
        i := i + 1;
      }
      if !valid {
        EscapedSplit(value, i);
        Skip(Escaped(value)[|Escaped(value[..i])|..]);
      } else {
        assert i == |value| && value[..i] == value;
      }
      Append([QUOTE]);
    }

    method AppendAddress(address: Address)
      requires Valid()
      modifies this, buffer
      ensures Valid() && text == old(text) + Quoted(AddressText(address))
    {
      AddressIsPlain(address);
      Append([QUOTE] + AddressText(address) + [QUOTE]);
    }

    /** One device by its format, key and value tables. */
    method AppendFields(device: Device, format: seq<string>, ghost keys: seq<string>, ghost values: seq<Value>)
      requires Valid() && 0 in device.name
      requires |keys| == |values| == 14 && Spells(format, keys) && Describes(values, device)
      requires values[0] == Text(AddressText(device.address)) && values[1] == Text(CString(device.name))
      modifies this, buffer
      ensures Valid() && text == old(text) + [OPEN_OBJECT] + Fields(keys, values, 14) + [CLOSE_OBJECT]
    {
      hide Fields, Label, Letters, Ascii, Holds, Quoted, AddressText, CString, Describes;
      ghost var start := text + [OPEN_OBJECT];
      Append(Ascii(format[0]));
      AppendAddress(device.address);
      FirstField(format, keys, values);
      assert Print(values[0]) == Quoted(AddressText(device.address));
      assert text == old(text) + (Ascii(format[0]) + Print(values[0]));
      assert text == start + Fields(keys, values, 1);
      FieldGrows([], Fields(keys, values, 1), format, keys, values, 1);
      Append(Ascii(format[1]));
      AppendString(device.name);
      assert text == start + Fields(keys, values, 2);
      var rest := RestOfDevice(device, format, keys, values);
      Append(rest);
      assert text == start + (Fields(keys, values, 2) + rest);
    }

    method AppendDevice(i: nat, device: Device)
      requires Valid() && 0 in device.name
      modifies this, buffer
      ensures Valid() && text == old(text) + (if i != 0 then [COMMA] else []) + Print(DeviceJson(Shown(device)))
    {
      hide *;
      DeviceFormatSpells();
      DeviceDescribed(device);
      DeviceText(Shown(device));
      Append(if i != 0 then [COMMA] else []);
      AppendFields(device, DEVICE_FORMAT, DEVICE_KEYS, DeviceValues(Shown(device)));
    }

    /** A member whose value is a string. */
    method AppendText(n: nat, field: seq<byte>, ghost start: seq<byte>, format: seq<string>, ghost keys: seq<string>,
                      ghost values: seq<Value>)
      requires Valid() && 0 in field && 0 < n < |keys| == |values| && Spells(format, keys)
      requires values[n] == Text(CString(field)) && text == start + Fields(keys, values, n)
      modifies this, buffer
      ensures Valid() && text == start + Fields(keys, values, n + 1)
    {
      hide Fields, Spells, Holds, Quoted, Ascii, CString;
      NextField(start, format, keys, values, n);
      Append(Ascii(format[n]));
      AppendString(field);
    }

    /** Whether the keyboard connects by itself, and the PIN that pairing waits for. */
    method AppendPairing(s: Snapshot, ghost start: seq<byte>, format: seq<string>, ghost keys: seq<string>,
                         ghost values: seq<Value>)
      requires Valid() && 0 in s.pin && |keys| == |values| == 6 && Spells(format, keys)
      requires values[2] == Bool(s.autoConnect) && values[3] == if s.hasPin then Text(CString(s.pin)) else Null
      requires text == start + Fields(keys, values, 2)
      modifies this, buffer
      ensures Valid() && text == start + Fields(keys, values, 4)
    {
      hide Fields, Spells, Holds, Quoted, Ascii, CString, Flag;
      NextField(start, format, keys, values, 2);
      NextField(start, format, keys, values, 3);
      Append(Ascii(format[2]) + Flag(s.autoConnect) + Ascii(format[3]));
      if s.hasPin {
        AppendString(s.pin);
      } else {
        Append(Ascii("null"));
      }
    }

    method AppendSelected(s: Snapshot, ghost start: seq<byte>, format: seq<string>, ghost keys: seq<string>,
                          ghost values: seq<Value>)
      requires Valid() && |keys| == |values| == 6 && Spells(format, keys)
      requires values[4] == if s.hasSelected then Text(AddressText(s.selected)) else Null
      requires text == start + Fields(keys, values, 4)
      modifies this, buffer
      ensures Valid() && text == start + Fields(keys, values, 5)
    {
      hide Fields, Spells, Holds, Quoted, Ascii, AddressText;
      NextField(start, format, keys, values, 4);
      Append(Ascii(format[4]));
      if s.hasSelected {
        AppendAddress(s.selected);
      } else {
        Append(Ascii("null"));
      }
    }

    method AppendListed(i: nat, device: Device, ghost start: seq<byte>, ghost items: seq<Value>)
      requires Valid() && 0 in device.name && i < |items| && items[i] == DeviceJson(Shown(device))
      requires text == start + Listed(items, i)
      modifies this, buffer
      ensures Valid() && text == start + Listed(items, i + 1)
    {
      hide *;
      OneMoreDevice(items, i);
      AppendDevice(i, device);
    }

    /** The devices, at most as many as the array has. */
    method AppendDevices(s: Snapshot)
      requires Valid() && ValidSnapshot(s)
      modifies this, buffer
      ensures Valid() && text == old(text) + Print(List(DevicesJson(Meaning(s).devices)))
    {
      hide *;
      ghost var items := DevicesJson(Meaning(s).devices);
      ShownItems(s);
      ghost var start := text + [OPEN_LIST];
      Append([OPEN_LIST]);
      var count := Count(s);
      NothingListed(items);
      var i := 0;
      while i < count
        invariant Valid() && 0 <= i <= count == |items| && text == start + Listed(items, i)
      {
        AppendListed(i, s.devices[i], start, items);
        i := i + 1;
      }
      AllListed(items);
      Append([CLOSE_LIST]);
    }

    method AppendStatus(s: Snapshot, format: seq<string>, ghost keys: seq<string>, ghost values: seq<Value>)
      requires Valid() && ValidSnapshot(s) && |keys| == 6 && Spells(format, keys)
      requires values == StatusValues(Meaning(s))
      modifies this, buffer
      ensures Valid() && text == old(text) + ([OPEN_OBJECT] + Fields(keys, values, 6) + [CLOSE_OBJECT])
    {
      hide Fields, Spells, Holds, Quoted, Ascii, CString, Print, AddressText, DevicesJson;
      ghost var start := text + [OPEN_OBJECT];
      FirstField(format, keys, values);
      Append(Ascii(format[0]));
      AppendString(s.version);
      TextPrints(CString(s.version));
      assert text == old(text) + (Ascii(format[0]) + Print(values[0]));
      assert text == start + Fields(keys, values, 1);
      AppendText(1, s.state, start, format, keys, values);
      AppendPairing(s, start, format, keys, values);
      AppendSelected(s, start, format, keys, values);
      NextField(start, format, keys, values, 5);
      Append(Ascii(format[5]));
      AppendDevices(s);
      Append([CLOSE_OBJECT]);
    }
  }

  lemma ShownItems(s: Snapshot)
    requires ValidSnapshot(s)
    ensures var items := DevicesJson(Meaning(s).devices);
            && |items| == Count(s) <= |s.devices|
            && forall i | 0 <= i < Count(s) :: 0 in s.devices[i].name && items[i] == DeviceJson(Shown(s.devices[i]))
  {
    hide DeviceJson, CString;
    assert forall i | 0 <= i < |s.devices| :: s.devices[i] in s.devices;
  }

  lemma TextPrints(s: seq<byte>)
    ensures Print(Text(s)) == Quoted(s)
  {
  }

  lemma NothingListed(items: seq<Value>)
    ensures Listed(items, 0) == []
  {
  }

  /** The JSON text of a snapshot. */
  function Rendering(s: Snapshot): seq<byte>
    requires ValidSnapshot(s)
  {
    Print(StatusJson(Meaning(s)))
  }

  /**
   The whole text and a terminator when there is room for them, and the size of
   the text; else failure, with as much of the text as fits, terminated.
   */
  method WriteSnapshot(s: Snapshot, buffer: array<byte>) returns (ok: bool, written: nat)
    requires ValidSnapshot(s)
    modifies buffer
    ensures ok <==> |Rendering(s)| < buffer.Length
    ensures ok ==> written == |Rendering(s)|
    ensures buffer.Length > 0 ==> Holds(buffer[..], Rendering(s))
  {
    hide Fields, Spells, Holds, Print, Meaning, StatusValues, StatusJson, STATUS_KEYS, STATUS_FORMAT;
    if buffer.Length == 0 {
      return false, 0;
    }
    StatusFormatSpells();
    StatusText(Meaning(s));
    var writer := new Writer(buffer);
    writer.AppendStatus(s, STATUS_FORMAT, STATUS_KEYS, StatusValues(Meaning(s)));
    assert writer.text == Rendering(s);
    if !writer.valid {
      LastIsTerminator(buffer[..], Rendering(s));
      buffer[buffer.Length - 1] := 0;
      return false, 0;
    }
    return true, writer.length;
  }

  lemma LastIsTerminator(buffer: seq<byte>, text: seq<byte>)
    requires buffer != [] && Holds(buffer, text) && |text| >= |buffer|
    ensures buffer[|buffer| - 1 := 0] == buffer
  {
  }
}
