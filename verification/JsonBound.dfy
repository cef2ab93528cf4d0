/** The worst case of a snapshot's text: it always fits in the buffer that the callers provide. */
module JsonBound {
  import opened Basics
  import opened Json
  import opened ControlJson
  import opened JsonWriter

  lemma {:induction false} FieldSize(keys: seq<string>, values: seq<Value>, n: nat)
    requires n < |keys| == |values| && Letters(keys[n])
    ensures |Fields(keys, values, n + 1)| <= |Fields(keys, values, n)| + |keys[n]| + 4 + |Print(values[n])|
  {
    hide Fields, Print, Letters;
    OneMoreField(keys, values, n);
  }

  lemma KeySizes()
    ensures |DEVICE_KEYS| == 14 && forall n | 0 <= n < 14 :: |DEVICE_KEYS[n]| <= 24
    ensures |STATUS_KEYS| == 6 && forall n | 0 <= n < 6 :: |STATUS_KEYS[n]| <= 14
  {
  }

  lemma ShortNumber(n: int8)
    ensures |Print(Number(n))| <= 4
  {
    var m: int := n;
    ShortDigits(if m < 0 then -m else m);
  }

  lemma ShortDigits(n: nat)
    requires n <= 128
    ensures |Digits(n)| <= 3
  {
    var tens := n / 10;
    if n >= 10 && tens >= 10 {
      assert tens / 10 < 10;
      assert |Digits(tens / 10)| == 1;
    }
  }

  /** The most that value `n` of a device takes. */
  function DeviceSize(n: nat): nat {
    if n == 0 then 19 else if n == 1 then 6 * (NAME_SIZE - 1) + 2 else if n == 2 then 4 else 5
  }

  lemma FirstValues(d: Device)
    ensures DeviceValues(d)[0] == Text(AddressText(d.address))
    ensures DeviceValues(d)[1] == Text(d.name) && DeviceValues(d)[2] == Number(d.rssi)
  {
  }

  lemma OtherValues(d: Device, n: nat)
    requires 3 <= n < 14
    ensures DeviceValues(d)[n].Bool?
  {
  }

  lemma DeviceValueFits(d: Device, n: nat)
    requires n < 14 && |d.name| < NAME_SIZE
    ensures |Print(DeviceValues(d)[n])| <= DeviceSize(n)
  {
    hide Print, AddressText, DeviceValues;
    FirstValues(d);
    if n == 0 {
      AddressSize(d.address);
    } else if n == 1 {
      TextSize(d.name);
    } else if n == 2 {
      ShortNumber(d.rssi);
    } else {
      OtherValues(d, n);
      FlagSize(DeviceValues(d)[n]);
    }
  }

  lemma FlagSize(v: Value)
    requires v.Bool? || v.Null?
    ensures |Print(v)| <= 5
    ensures v.Null? ==> |Print(v)| == 4
  {
  }

  lemma AddressSize(a: Address)
    ensures |Print(Text(AddressText(a)))| == 19
  {
    AddressIsPlain(a);
  }

  lemma TextSize(s: seq<byte>)
    ensures |Print(Text(s))| <= 6 * |s| + 2
  {
  }

  lemma {:induction false} DeviceFieldsFit(d: Device, n: nat)
    requires n <= 14 && |d.name| < NAME_SIZE
    ensures |DEVICE_KEYS| == 14
    ensures |Fields(DEVICE_KEYS, DeviceValues(d), n)|
         <= 28 * n + (if n <= 3 then [0, 19, 399, 403][n] else 403 + 5 * (n - 3))
  {
    hide Fields, Print, DEVICE_KEYS, DeviceValues;
    KeySizes();
    if n == 0 {
      NoFields(DEVICE_KEYS, DeviceValues(d));
    } else {
      DeviceFieldsFit(d, n - 1);
      DeviceKeyIsLetters(n - 1);
      DeviceValueFits(d, n - 1);
      FieldSize(DEVICE_KEYS, DeviceValues(d), n - 1);
    }
  }

  lemma DeviceFits(d: Device)
    requires |d.name| < NAME_SIZE
    ensures |Print(DeviceJson(d))| <= 852
  {
    hide *;
    DeviceText(d);
    DeviceFieldsFit(d, 14);
  }

  lemma {:induction false} ListFits(items: seq<Value>, n: nat)
    requires n <= |items| && forall i | 0 <= i < |items| :: |Print(items[i])| <= 852
    ensures |Listed(items, n)| <= 853 * n
  {
    hide Listed, Print;
    if n == 0 {
      NothingListed(items);
    } else {
      ListFits(items, n - 1);
      OneMoreDevice(items, n - 1);
    }
  }

  lemma DevicesFit(s: Snapshot)
    requires ValidSnapshot(s)
    ensures |Print(List(DevicesJson(Meaning(s).devices)))| <= 853 * MAX_DEVICES + 2
  {
    ShownItems(s);
    var items := DevicesJson(Meaning(s).devices);
    forall i | 0 <= i < |items| ensures |Print(items[i])| <= 852 {
      assert s.devices[i] in s.devices && |Shown(s.devices[i]).name| < NAME_SIZE;
      DeviceFits(Shown(s.devices[i]));
    }
    hide Print, DevicesJson, Meaning, Listed;
    ListFits(items, |items|);
    AllListed(items);
  }

  /** The most that the values before `n` take together. */
  function StatusSize(n: nat): nat
    requires n <= 6
  {
    [0, 188, 328, 333, 371, 390, 392 + 853 * MAX_DEVICES][n]
  }

  lemma StatusValueFits(s: Snapshot, n: nat)
    requires n < 6 && ValidSnapshot(s)
    ensures |Print(StatusValues(Meaning(s))[n])| <= StatusSize(n + 1) - StatusSize(n)
  {
    hide Print, AddressText, DevicesJson;
    if n == 0 {
      TextSize(CString(s.version));
    } else if n == 1 {
      TextSize(CString(s.state));
    } else if n == 2 {
      FlagSize(Bool(s.autoConnect));
    } else if n == 3 {
      if s.hasPin { TextSize(CString(s.pin)); } else { FlagSize(Null); }
    } else if n == 4 {
      if s.hasSelected { AddressSize(s.selected); } else { FlagSize(Null); }
    } else {
      DevicesFit(s);
    }
  }

  lemma {:induction false} StatusFieldsFit(s: Snapshot, n: nat)
    requires n <= 6 && ValidSnapshot(s)
    ensures |STATUS_KEYS| == 6
    ensures |Fields(STATUS_KEYS, StatusValues(Meaning(s)), n)| <= 18 * n + StatusSize(n)
  {
    hide Fields, Print, STATUS_KEYS, StatusValues, Meaning;
    KeySizes();
    StatusKeysAreLetters();
    if n == 0 {
      NoFields(STATUS_KEYS, StatusValues(Meaning(s)));
    } else {
      StatusFieldsFit(s, n - 1);
      StatusValueFits(s, n - 1);
      FieldSize(STATUS_KEYS, StatusValues(Meaning(s)), n - 1);
    }
  }

  /** Every snapshot's text is shorter than the callers' buffer, whatever the strings hold. */
  lemma SnapshotFits(s: Snapshot)
    requires ValidSnapshot(s)
    ensures |Rendering(s)| < MAX_SNAPSHOT_SIZE
  {
    hide Fields, Print, STATUS_KEYS, StatusValues, Meaning;
    StatusText(Meaning(s));
    StatusFieldsFit(s, 6);
  }
}
