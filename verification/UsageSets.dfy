/**
 The compressed form of one alternative's usage list: first positions of the
 keys, a bitmap of the non-key codes, and a few flags.
 */
module UsageSets {
  import opened Basics
  import opened HidReference

  const ABSENT := U16_MAX

  function Capped(n: nat): uint32 {
    if n < U32_MAX then n else U32_MAX
  }

  /** Where key `id` first occurs below the position limit. */
  function FirstPosition(usages: seq<Usage>, id: nat): (p: uint16)
    ensures p == ABSENT || p < POSITION_LIMIT
  {
    if usages == [] then ABSENT
    else
      var n := |usages| - 1;
      var before := FirstPosition(usages[..n], id);
      if before != ABSENT then before
      else if n < POSITION_LIMIT && IsKey(usages[n]) && usages[n].id == id then n
      else ABSENT
  }

  /** The index of the first consumer usage, or the length when there is none. */
  function FirstConsumer(usages: seq<Usage>): (i: nat)
    ensures i <= |usages|
  {
    if usages == [] then 0
    else
      var n := |usages| - 1;
      var before := FirstConsumer(usages[..n]);
      if before < n then before else if IsConsumer(usages[n]) then n else n + 1
  }

  predicate NonKeyAt(usages: seq<Usage>, position: nat) {
    position < |usages| && IsNonKey(usages[position])
  }

  function NonKeyCount(usages: seq<Usage>, count: nat): (n: nat)
    ensures n <= count
  {
    if count == 0 then 0
    else NonKeyCount(usages, count - 1) + if NonKeyAt(usages, count - 1) then 1 else 0
  }

  function Bit(i: nat): bv8
    requires i < 8
  {
    [1, 2, 4, 8, 16, 32, 64, 128][i]
  }

  predicate TestBit(cell: bv8, i: nat)
    requires i < 8
  {
    cell & Bit(i) != 0
  }

  function SetBit(cell: bv8, i: nat): bv8
    requires i < 8
  {
    cell | Bit(i)
  }

  lemma SettingBits(cell: bv8, i: nat, j: nat)
    requires i < 8 && j < 8
    ensures TestBit(SetBit(cell, i), j) <==> i == j || TestBit(cell, j)
  {
  }

  lemma ZeroHasNoBits(i: nat)
    requires i < 8
    ensures !TestBit(0, i)
  {
  }

  class UsageSet {
    const keyboardPositions: array<uint16>
    const nonKeyPositions: array<bv8>
    var position: uint32
    var firstConsumerPosition: uint32
    var hasConsumerUsage: bool
    var hasUsage: bool
    var firstIsKeyboardApplication: bool
    var firstIsConsumerApplication: bool

    ghost const Repr: set<object> := {this, keyboardPositions, nonKeyPositions}

    predicate Shaped() {
      keyboardPositions.Length == 256 && nonKeyPositions.Length == 32
    }

    /** This set is the compressed form of `usages`. */
    ghost predicate Represents(usages: seq<Usage>)
      reads Repr
    {
      && Shaped()
      && position == Capped(|usages|)
      && hasUsage == (usages != [])
      && firstIsKeyboardApplication == StartsWith(usages, KEYBOARD_APPLICATION)
      && firstIsConsumerApplication == StartsWith(usages, CONSUMER_APPLICATION)
      && hasConsumerUsage == (FirstConsumer(usages) < |usages|)
      && (hasConsumerUsage ==> firstConsumerPosition == Capped(FirstConsumer(usages)))
      && Tabulates(usages)
    }

    predicate HasBit(p: nat)
      requires Shaped() && p < POSITION_LIMIT
      reads nonKeyPositions
    {
      TestBit(nonKeyPositions[p / 8], p % 8)
    }

    /** The two position tables agree with `usages`. */
    ghost predicate Tabulates(usages: seq<Usage>)
      reads keyboardPositions, nonKeyPositions
    {
      && Shaped()
      && (forall id | 0 <= id < 256 :: keyboardPositions[id] == FirstPosition(usages, id))
      && (forall p | 0 <= p < POSITION_LIMIT :: HasBit(p) == NonKeyAt(usages, p))
    }

    constructor ()
      ensures Shaped() && fresh(Repr)
    {
      keyboardPositions := new uint16[256];
      nonKeyPositions := new bv8[32];
    }

    method Reset()
      requires Shaped()
      modifies Repr
      ensures Represents([])
    {
      hide TestBit;
      for i := 0 to 32
        invariant forall p | 0 <= p < i :: nonKeyPositions[p] == 0
      {
        nonKeyPositions[i] := 0;
      }
      for i := 0 to 256
        invariant forall id | 0 <= id < i :: keyboardPositions[id] == ABSENT
        invariant forall p | 0 <= p < 32 :: nonKeyPositions[p] == 0
      {
        keyboardPositions[i] := ABSENT;
      }
      forall p | 0 <= p < POSITION_LIMIT
        ensures !HasBit(p)
      {
        ZeroHasNoBits(p % 8);
      }
      position, firstConsumerPosition := 0, 0;
      hasConsumerUsage, hasUsage := false, false;
      firstIsKeyboardApplication, firstIsConsumerApplication := false, false;
    }

    method Append(page: nat, id: nat, ghost usages: seq<Usage>)
      requires Represents(usages)
      modifies Repr
      ensures Represents(usages + [Usage(page, id)])
    {
      hide UsageSet.Tabulates;
      ghost var longer := usages + [Usage(page, id)];
      assert longer[..|usages|] == usages;
      if !hasUsage {
        hasUsage := true;
        firstIsKeyboardApplication := page == 0x01 && id == 0x06;
        firstIsConsumerApplication := page == PAGE_CONSUMER && id == 0x01;
      }
      if page == PAGE_CONSUMER && id != 0 && !hasConsumerUsage {
        hasConsumerUsage := true;
        firstConsumerPosition := position;
      }
      RecordPosition(page, id, usages);
      if position != U32_MAX { position := position + 1; }
    }

    /** The keyboard-page branch of appending: which table, if any, learns the position. */
    method RecordPosition(page: nat, id: nat, ghost usages: seq<Usage>)
      requires Tabulates(usages) && position == Capped(|usages|)
      modifies keyboardPositions, nonKeyPositions
      ensures Tabulates(usages + [Usage(page, id)])
    {
      hide UsageSet.HasBit;
      ghost var longer := usages + [Usage(page, id)];
      assert longer[..|usages|] == usages;
      if page == PAGE_KEYBOARD && id < 4 && position < POSITION_LIMIT {
        SetNonKey(position);
      } else if page == PAGE_KEYBOARD && id <= 255 && position < POSITION_LIMIT {
        if keyboardPositions[id] == ABSENT {
          keyboardPositions[id] := position;
        }
      }
    }

    method SetNonKey(p: nat)
      requires Shaped() && p < POSITION_LIMIT
      modifies nonKeyPositions
      ensures forall q | 0 <= q < POSITION_LIMIT :: HasBit(q) == (q == p || old(HasBit(q)))
    {
      hide TestBit, SetBit;
      var before := nonKeyPositions[p / 8];
      nonKeyPositions[p / 8] := SetBit(before, p % 8);
      forall q | 0 <= q < POSITION_LIMIT && q / 8 == p / 8
        ensures HasBit(q) == (q == p || TestBit(before, q % 8))
      {
        SettingBits(before, p % 8, q % 8);
      }
    }

    method NonKeyPositionCount(reportCount: nat, ghost usages: seq<Usage>) returns (count: nat)
      requires Represents(usages) && reportCount <= POSITION_LIMIT
      ensures count == NonKeyCount(usages, reportCount)
    {
      hide UsageSet.HasBit;
      count := 0;
      for p := 0 to reportCount
        invariant count == NonKeyCount(usages, p)
      {
        if HasBit(p) { count := count + 1; }
      }
    }

    /** The result means what its name says only below the limit, where the absent mark is never counted. */
    method KeyboardUsageCount(reportCount: nat, ghost usages: seq<Usage>) returns (count: nat)
      requires Represents(usages)
      ensures reportCount <= POSITION_LIMIT ==> count == |Keys(usages, reportCount)|
      ensures count <= 256
    {
      hide UsageSet.HasBit;
      hide Keys;
      count := 0;
      ghost var counted: set<nat> := {};
      for id := 0 to 256
        invariant counted == set k: nat | k < id && FirstPosition(usages, k) < reportCount
        invariant count == |counted| <= id
      {
        if keyboardPositions[id] < reportCount {
          count := count + 1;
          counted := counted + {id};
        }
      }
      if reportCount <= POSITION_LIMIT {
        KeysHavePositions(usages, reportCount);
        assert counted == Keys(usages, reportCount);
      }
    }
  }

  lemma {:induction false} FirstPositionIsFirst(usages: seq<Usage>, id: nat, count: nat)
    requires count <= POSITION_LIMIT
    ensures FirstPosition(usages, id) < count
       <==> exists i :: 0 <= i < |usages| && i < count && IsKey(usages[i]) && usages[i].id == id
  {
    if usages != [] {
      var n := |usages| - 1;
      FirstPositionIsFirst(usages[..n], id, count);
      if FirstPosition(usages, id) < count && FirstPosition(usages[..n], id) == ABSENT {
        assert IsKey(usages[n]) && usages[n].id == id && n < count;
      }
      if FirstPosition(usages[..n], id) < count {
        var i :| 0 <= i < n && i < count && IsKey(usages[..n][i]) && usages[..n][i].id == id;
        assert usages[i] == usages[..n][i];
      }
      if i :| 0 <= i < |usages| && i < count && IsKey(usages[i]) && usages[i].id == id {
        if i < n { assert usages[..n][i] == usages[i]; }
        else if FirstPosition(usages[..n], id) != ABSENT {
          FirstPositionIsFirst(usages[..n], id, POSITION_LIMIT);
          assert FirstPosition(usages, id) < count by { PositionBelowLength(usages[..n], id); }
        }
      }
    }
  }

  lemma PositionBelowLength(usages: seq<Usage>, id: nat)
    ensures FirstPosition(usages, id) == ABSENT || FirstPosition(usages, id) < |usages|
  {
  }

  lemma KeysHavePositions(usages: seq<Usage>, count: nat)
    requires count <= POSITION_LIMIT
    ensures Keys(usages, count) == set id: nat | id < 256 && FirstPosition(usages, id) < count
  {
    forall id: nat
      ensures id in Keys(usages, count) <==> id < 256 && FirstPosition(usages, id) < count
    {
      FirstPositionIsFirst(usages, id, count);
    }
  }

  /** The recursive index agrees with the quantified reading of "some consumer usage before `limit`". */
  lemma {:induction false} FirstConsumerIsFirst(usages: seq<Usage>, limit: nat)
    ensures (exists i :: 0 <= i < |usages| && IsConsumer(usages[i]) && i < limit)
       <==> FirstConsumer(usages) < |usages| && FirstConsumer(usages) < limit
  {
    if usages != [] {
      var n := |usages| - 1;
      FirstConsumerIsFirst(usages[..n], limit);
      if i :| 0 <= i < |usages| && IsConsumer(usages[i]) && i < limit {
        if i < n { assert IsConsumer(usages[..n][i]); }
      }
      if FirstConsumer(usages[..n]) < n && FirstConsumer(usages[..n]) < limit {
        var i :| 0 <= i < n && IsConsumer(usages[..n][i]) && i < limit;
        assert IsConsumer(usages[i]);
      } else if FirstConsumer(usages) == n && n < limit {
        assert IsConsumer(usages[n]);
      }
    }
  }

  lemma KeysGrow(usages: seq<Usage>, count: nat)
    ensures Keys(usages, count + 1)
         == Keys(usages, count) + if count < |usages| && IsKey(usages[count]) then {usages[count].id} else {}
  {
  }

  lemma KeyCountGrows(usages: seq<Usage>, n: nat)
    ensures |Keys(usages, n + 1)|
         == |Keys(usages, n)| + if n < |usages| && IsKey(usages[n]) && usages[n].id !in Keys(usages, n) then 1 else 0
  {
    hide Keys, IsKey;
    KeysGrow(usages, n);
  }

  lemma CoverGrows(usages: seq<Usage>, n: nat)
    ensures CoversBitmap(usages, n + 1)
       <==> CoversBitmap(usages, n) && n < |usages|
            && (IsNonKey(usages[n]) || (IsKey(usages[n]) && usages[n].id !in Keys(usages, n)))
  {
    if n < |usages| && IsKey(usages[n]) && CoversBitmap(usages, n) {
      if usages[n].id in Keys(usages, n) {
        var i :| 0 <= i < |usages| && i < n && IsKey(usages[i]) && usages[i].id == usages[n].id;
        assert usages[i] == usages[n];
      } else {
        assert forall i | 0 <= i < n :: usages[i] != usages[n];
      }
    }
  }

  /**
   Counting is exact. The keys and the non-key positions together never exceed
   the number of report bits, and they reach it exactly when every bit has a
   keyboard-page usage of its own.
   */
  lemma {:induction false} NkroCountIsExact(usages: seq<Usage>, count: nat)
    ensures |Keys(usages, count)| + NonKeyCount(usages, count) <= count
    ensures |Keys(usages, count)| + NonKeyCount(usages, count) == count <==> CoversBitmap(usages, count)
  {
    if count == 0 {
      assert Keys(usages, 0) == {};
    } else {
      hide Keys, CoversBitmap;
      NkroCountIsExact(usages, count - 1);
      KeyCountGrows(usages, count - 1);
      CoverGrows(usages, count - 1);
    }
  }
}
