/** The ring of button callbacks: registrations overwrite the oldest slots, and ids name slots. */
module Callbacks {
  import opened Options
  import opened Numbers

  /** A handler is a number here; None stands for a nil function. */
  datatype CallbackInfo = CallbackInfo(handle: Option<int>, id: string)

  datatype Outcome =
    | BadId                       // the id is not a number
    | NotRegistered
    | Calls(info: CallbackInfo)
    | Panics                      // an empty slot is dereferenced, or the index is negative

  const MAX_UINT := 0xFFFF_FFFF_FFFF_FFFF

  function Clamp(n: int): int {
    if n > MAX_INT then MAX_INT else if n < MIN_INT then MIN_INT else n
  }

  function DigitRun(s: string): (n: nat)
    ensures n <= |s| && AllDigits(s[..n]) && (n < |s| ==> !IsDigit(s[n]))
  {
    if s == "" || !IsDigit(s[0]) then 0
    else
      var n := 1 + DigitRun(s[1..]);
      assert forall k :: 0 < k < n ==> s[k] == s[1..][..n - 1][k - 1];
      n
  }

  /**
   * The number `strconv.Atoi` returns beside its error: zero for text that is no number, the nearest
   * bound for one that does not fit. Digits that overflow even an unsigned int end the reading.
   */
  function AtoiOrBound(s: string): (n: int)
    ensures MIN_INT <= n <= MAX_INT
    ensures Atoi(s).Some? ==> n == Atoi(s).value
  {
    var sign := if s != "" && s[0] == '-' then -1 else 1;
    var digits := if s != "" && (s[0] == '-' || s[0] == '+') then s[1..] else s;
    var run := DigitRun(digits);
    assert AllDigits(digits) ==> digits[..run] == digits;
    if DigitsValue(digits[..run]) > MAX_UINT then Clamp(sign * MAX_UINT)
    else if digits == "" || run < |digits| then 0
    else Clamp(sign * DigitsValue(digits[..run]))
  }

  // ---------------------------------------------------------------- what is read of a name

  /** The name taken apart: at most one sign, the digits behind it, and what follows the digits. */
  predicate TakenApart(name: string, sign: string, digits: string, tail: string) {
    && name == sign + digits + tail && AllDigits(digits) && (tail != "" ==> !IsDigit(tail[0]))
    && (sign == ['-'] || sign == ['+'] || (sign == [] && (name == "" || (name[0] != '-' && name[0] != '+'))))
  }

  lemma TakeDigits(rest: string) returns (digits: string, tail: string)
    ensures rest == digits + tail && AllDigits(digits) && (tail != "" ==> !IsDigit(tail[0]))
  {
    var n := DigitRun(rest);
    digits, tail := rest[..n], rest[n..];
  }

  lemma TakeApart(name: string) returns (sign: string, digits: string, tail: string)
    ensures TakenApart(name, sign, digits, tail)
  {
    var rest := name;
    sign := [];
    if name != "" && (name[0] == '-' || name[0] == '+') {
      sign, rest := [name[0]], name[1..];
      assert name == sign + rest;
    } else {
      assert name == sign + rest;
    }
    digits, tail := TakeDigits(rest);
    hide AllDigits;
    assert sign + digits + tail == sign + (digits + tail);
  }

  lemma {:induction false} RunOf(digits: string, tail: string)
    requires AllDigits(digits) && (tail != "" ==> !IsDigit(tail[0]))
    ensures DigitRun(digits + tail) == |digits|
  {
    var s := digits + tail;
    if digits != "" {
      assert s[0] == digits[0] && s[1..] == digits[1..] + tail;
      RunOf(digits[1..], tail);
    } else {
      assert s == tail;
    }
  }

  /** Digits beyond an unsigned int give the bound of their sign, anything else that is no number gives zero, and a number its nearest 64-bit int. */
  lemma WhatIsRead(name: string, sign: string, digits: string, tail: string)
    requires TakenApart(name, sign, digits, tail)
    ensures AtoiOrBound(name) ==
      if DigitsValue(digits) > 0xFFFF_FFFF_FFFF_FFFF then (if sign == ['-'] then -0x8000_0000_0000_0000 else 0x7FFF_FFFF_FFFF_FFFF)
      else if digits == "" || tail != "" then 0
      else if sign == ['-'] then (if DigitsValue(digits) > 0x8000_0000_0000_0000 then -0x8000_0000_0000_0000 else 0 - DigitsValue(digits))
      else if DigitsValue(digits) > 0x7FFF_FFFF_FFFF_FFFF then 0x7FFF_FFFF_FFFF_FFFF else DigitsValue(digits)
  {
    var rest := digits + tail;
    RunOf(digits, tail);
    assert rest[..|digits|] == digits;
    if sign == [] {
      assert name == rest;
    } else {
      assert name == sign + rest && name[0] == sign[0] && name[1..] == rest;
    }
    hide DigitRun, DigitsValue;
  }

  /** No number at all, with leading digits that still fit an unsigned int: a word, an empty name, or digits with something behind them. */
  ghost predicate IsNoNumber(name: string) {
    exists sign, digits, tail :: TakenApart(name, sign, digits, tail)
      && (digits == "" || tail != "") && DigitsValue(digits) <= 0xFFFF_FFFF_FFFF_FFFF
  }

  /** A name that is empty or has no digit in front, or behind one sign, is no number. */
  lemma WordsAreNoNumbers(name: string)
    requires name == "" || !IsDigit(name[0])
    requires |name| > 1 && (name[0] == '-' || name[0] == '+') ==> !IsDigit(name[1])
    ensures IsNoNumber(name)
  {
    var sign, digits, tail := TakeApart(name);
    assert sign != [] ==> sign[0] == name[0];
    assert name[|sign|..] == digits + tail;
    assert name[|sign|..] != "" ==> name[|sign|..][0] == name[|sign|];
  }

  /** The names that are read as zero are those that are no numbers, and the zeros. */
  lemma ZeroExactlyWhen(name: string)
    ensures AtoiOrBound(name) == 0 <==> IsNoNumber(name) || Atoi(name) == Some(0)
  {
    var sign, digits, tail := TakeApart(name);
    WhatIsRead(name, sign, digits, tail);
    if AtoiOrBound(name) == 0 && digits != "" && tail == "" && DigitsValue(digits) <= 0xFFFF_FFFF_FFFF_FFFF {
      assert name == sign + digits;
      assert Spells(name, digits, 0);
      AtoiReadsExactly(name, 0);
    }
    if IsNoNumber(name) {
      var s, d, t :| TakenApart(name, s, d, t) && (d == "" || t != "") && DigitsValue(d) <= 0xFFFF_FFFF_FFFF_FFFF;
      WhatIsRead(name, s, d, t);
    }
  }

  /** The remainder as the language computes it, with the sign of the dividend. */
  function Remainder(n: int, m: int): int
    requires m > 0
  {
    if n >= 0 then n % m else -((-n) % m)
  }

  function RealIndex(target: int, startId: int, startIndex: int, capacity: int): int
    requires capacity > 0
  {
    Remainder(Wrap64(target - startId + startIndex), capacity)
  }

  // ---------------------------------------------------------------- residues

  lemma NextResidue(n: nat, m: nat)
    requires m > 0
    ensures (n + 1) % m == if n % m == m - 1 then 0 else n % m + 1
  {
    var q, r := n / m, n % m;
    if r == m - 1 {
      assert m * q + m == m * (q + 1);
      DivisionIsUnique(n + 1, m, q + 1, 0);
    } else {
      DivisionIsUnique(n + 1, m, q, r + 1);
    }
  }

  lemma ResiduesDiffer(a: nat, b: nat, m: nat)
    requires a < b < a + m
    ensures a % m != b % m
  {
    var d := b / m - a / m;
    assert m * d == b - a - (b % m - a % m);
    assert d >= 1 ==> m * d >= m;
    assert d <= 0 ==> m * d <= 0;
  }

  lemma ResidueOfSum(a: int, b: int, m: int)
    requires m > 0
    ensures (a % m + b) % m == (a + b) % m
  {
    var x := a % m + b;
    assert a + b == m * (a / m + x / m) + x % m by {
      assert m * (a / m + x / m) == m * (a / m) + m * (x / m);
    }
    DivisionIsUnique(a + b, m, a / m + x / m, x % m);
  }

  // ---------------------------------------------------------------- said of the registrations

  /** The latest registration whose number leaves this residue. */
  function Held(issued: seq<CallbackInfo>, capacity: nat, slot: nat): Option<CallbackInfo>
    requires capacity > 0
  {
    if issued == [] then None
    else
      var n := |issued| - 1;
      if n % capacity == slot then Some(issued[n]) else Held(issued[..n], capacity, slot)
  }

  function NowIndex(count: nat, capacity: nat): nat
    requires capacity > 0
  {
    count % capacity
  }

  function StartIndex(count: nat, capacity: nat): nat
    requires capacity > 0
  {
    if count < capacity then 0 else (count + 1) % capacity
  }

  lemma HeldStep(issued: seq<CallbackInfo>, info: CallbackInfo, capacity: nat, slot: nat)
    requires capacity > 0
    ensures Held(issued + [info], capacity, slot) == if NowIndex(|issued|, capacity) == slot then Some(info) else Held(issued, capacity, slot)
  {
    assert (issued + [info])[..|issued|] == issued;
  }

  /** How one more registration moves the indices. */
  lemma IndicesAdvance(count: nat, capacity: nat)
    requires capacity > 0
    ensures NowIndex(count, capacity) < capacity && NowIndex(count, capacity) == count % capacity
    ensures StartIndex(count, capacity) < capacity
    ensures var next := if NowIndex(count, capacity) + 1 > capacity - 1 then 0 else NowIndex(count, capacity) + 1;
      var start := StartIndex(count, capacity);
      && NowIndex(count + 1, capacity) == next
      && StartIndex(count + 1, capacity) == if next != start then start else if start + 1 > capacity - 1 then 0 else start + 1
  {
    NextResidue(count, capacity);
    NextResidue(count + 1, capacity);
    if count < capacity {
      SmallMod(count, capacity);
    }
  }

  function Invoked(issued: seq<CallbackInfo>, capacity: nat, target: int): Outcome
    requires capacity > 0
  {
    var start := StartIndex(|issued|, capacity);
    var oldest := Held(issued, capacity, start);
    if oldest.None? then Panics
    else
      var index := RealIndex(target, AtoiOrBound(oldest.value.id), start, capacity);
      var info := if index < 0 then None else Held(issued, capacity, index);
      if info.None? then Panics else if info.value.handle.None? then NotRegistered else Calls(info.value)
  }

  /** The registrations that no later one has overwritten. */
  predicate Kept(count: nat, capacity: nat, k: int) {
    0 <= k < count && count - capacity <= k
  }

  lemma {:induction false} KeptIsHeld(issued: seq<CallbackInfo>, capacity: nat, k: nat)
    requires capacity > 0 && Kept(|issued|, capacity, k)
    ensures Held(issued, capacity, k % capacity) == Some(issued[k])
  {
    var n := |issued| - 1;
    if k < n {
      ResiduesDiffer(k, n, capacity);
      KeptIsHeld(issued[..n], capacity, k);
    }
  }

  lemma {:induction false} NothingHeldAhead(issued: seq<CallbackInfo>, capacity: nat, slot: nat)
    requires capacity > 0 && |issued| <= slot < capacity
    ensures Held(issued, capacity, slot).None?
  {
    if issued != [] {
      SmallMod(|issued| - 1, capacity);
      NothingHeldAhead(issued[..|issued| - 1], capacity, slot);
    }
  }

  /** How many registrations the window holds. */
  function LiveCount(count: nat, capacity: nat): (live: nat)
    requires capacity > 0
    ensures live <= count
  {
    if count < capacity then count else capacity - 1
  }

  lemma WindowEnd(count: nat, capacity: nat)
    requires capacity > 0
    ensures (StartIndex(count, capacity) + LiveCount(count, capacity)) % capacity == NowIndex(count, capacity)
  {
    if count >= capacity {
      ResidueOfSum(count + 1, capacity - 1, capacity);
      AddsNothing(count, capacity);
    }
  }

  lemma WindowSlot(count: nat, capacity: nat, d: nat)
    requires capacity > 0 && d < LiveCount(count, capacity)
    ensures (StartIndex(count, capacity) + d) % capacity == (count - LiveCount(count, capacity) + d) % capacity
    ensures Kept(count, capacity, count - LiveCount(count, capacity) + d)
  {
    if count >= capacity {
      ResidueOfSum(count + 1, d, capacity);
      AddsNothing(count + 1 - capacity + d, capacity);
    }
  }

  /**
   * From the start index up to the current one, around the end of the array, lie exactly the last
   * registrations: all of them while the ring fills, then all that fit but one.
   */
  lemma WindowIsTheLatest(issued: seq<CallbackInfo>, capacity: nat, d: nat)
    requires capacity > 0
    ensures var live := if |issued| < capacity then |issued| else capacity - 1;
      && (StartIndex(|issued|, capacity) + live) % capacity == NowIndex(|issued|, capacity)
      && (d < live ==>
           Held(issued, capacity, (StartIndex(|issued|, capacity) + d) % capacity) == Some(issued[|issued| - live + d]))
  {
    hide StartIndex, NowIndex, Held;
    WindowEnd(|issued|, capacity);
    if d < LiveCount(|issued|, capacity) {
      WindowSlot(|issued|, capacity, d);
      KeptIsHeld(issued, capacity, |issued| - LiveCount(|issued|, capacity) + d);
    }
  }

  lemma AddsNothing(n: nat, m: nat)
    requires m > 0
    ensures (n + m) % m == n % m
  {
    assert n + m == m * (n / m + 1) + n % m;
    DivisionIsUnique(n + m, m, n / m + 1, n % m);
  }

  lemma CongruentExactlyWhen(n: int, target: nat, m: int)
    requires target < m
    ensures n % m == target <==> (n - target) % m == 0
  {
    ResidueOfSum(n, 0 - target, m);
    var r := n % m;
    if r > target {
      SmallMod(r - target, m);
    } else if r < target {
      DivisionIsUnique(r - target, m, -1, r - target + m);
    } else {
      SmallMod(0, m);
    }
  }

  lemma NegatedMultiple(n: int, m: int)
    requires m > 0
    ensures (-n) % m == 0 <==> n % m == 0
  {
    SmallMod(0, m);
    ResidueOfSum(-n, n, m);
    ResidueOfSum(n, -n, m);
  }

  /** What the slot computation divides. */
  function Dividend(target: int, startId: int, start: int): int {
    Wrap64(target - startId + start)
  }

  /**
   * An id reaches its own slot exactly when the number in the oldest entry's id is congruent to the
   * start index, and the dividend is not negative. Slot 0 alone is also reached from below.
   */
  lemma ReachesItsOwnSlotExactlyWhen(target: nat, startId: int, start: nat, capacity: nat)
    requires target < capacity <= 0x4000_0000_0000_0000 && start < capacity
    requires MIN_INT <= startId <= MAX_INT
    ensures RealIndex(target, startId, start, capacity) == target <==>
      (Dividend(target, startId, start) - target) % capacity == 0 && (Dividend(target, startId, start) >= 0 || target == 0)
    ensures target - startId + start <= MAX_INT ==> Dividend(target, startId, start) - target == start - startId
  {
    var d := Dividend(target, startId, start);
    if target - startId + start <= MAX_INT {
      WrapFits(target - startId + start);
    }
    CongruentExactlyWhen(d, target, capacity);
    NegatedMultiple(d, capacity);
    hide Dividend;
  }

  /** Until the ring is full, and if the first name is no number (or zero), every id invokes what was registered under it. */
  lemma EveryIdWorksAtFirst(issued: seq<CallbackInfo>, capacity: nat, k: nat)
    requires k < |issued| < capacity <= 0x4000_0000_0000_0000
    requires IsNoNumber(issued[0].id) || Atoi(issued[0].id) == Some(0)
    ensures Atoi(Itoa(k % capacity)) == Some(k)
    ensures Invoked(issued, capacity, k) == if issued[k].handle.None? then NotRegistered else Calls(issued[k])
  {
    ZeroExactlyWhen(issued[0].id);
    hide AtoiOrBound, IsNoNumber, Atoi, Itoa;
    SmallMod(k, capacity);
    SmallMod(0, capacity);
    AtoiOfItoa(k);
    KeptIsHeld(issued, capacity, 0);
    KeptIsHeld(issued, capacity, k);
    WrapFits(k);
  }

  /**
   * Once it is full, and while names are no numbers, an id invokes the registration that is as many
   * slots further on as the start index: its own only when that index is back at zero.
   */
  lemma FullRingMisroutes(issued: seq<CallbackInfo>, capacity: nat, k: nat, other: nat)
    requires 1 < capacity <= |issued| && capacity <= 0x4000_0000_0000_0000
    requires IsNoNumber(issued[|issued| + 1 - capacity].id) || Atoi(issued[|issued| + 1 - capacity].id) == Some(0)
    requires Kept(|issued|, capacity, k) && Kept(|issued|, capacity, other)
    requires other % capacity == (k % capacity + StartIndex(|issued|, capacity)) % capacity
    ensures Invoked(issued, capacity, k % capacity) == if issued[other].handle.None? then NotRegistered else Calls(issued[other])
    ensures other == k <==> (|issued| + 1) % capacity == 0
  {
    ZeroExactlyWhen(issued[|issued| + 1 - capacity].id);
    hide AtoiOrBound, IsNoNumber, Atoi;
    var start := StartIndex(|issued|, capacity);
    AddsNothing(|issued| + 1 - capacity, capacity);
    KeptIsHeld(issued, capacity, |issued| + 1 - capacity);
    KeptIsHeld(issued, capacity, other);
    WrapFits(k % capacity + start);
    CongruentExactlyWhen(k % capacity + start, k % capacity, capacity);
    SmallMod(start, capacity);
    if other < k {
      ResiduesDiffer(other, k, capacity);
    } else if k < other {
      ResiduesDiffer(k, other, capacity);
    }
  }

  // ---------------------------------------------------------------- the ring

  class CallbackRing {
    const capacity: nat
    const slots: array<Option<CallbackInfo>>
    var startIndex: nat
    var nowIndex: nat
    ghost var issued: seq<CallbackInfo>

    ghost predicate Valid()
      reads this, slots
    {
      && 0 < capacity && slots.Length == capacity
      && nowIndex == NowIndex(|issued|, capacity) && startIndex == StartIndex(|issued|, capacity)
      && forall i :: 0 <= i < capacity ==> slots[i] == Held(issued, capacity, i)
    }

    constructor (capacity: nat)
      requires capacity > 0
      ensures Valid() && fresh(slots) && this.capacity == capacity && issued == []
    {
      this.capacity := capacity;
      slots := new Option<CallbackInfo>[capacity](_ => None);
      startIndex, nowIndex, issued := 0, 0, [];
      new;
      SmallMod(0, capacity);
    }

    /** Stores the callback in the next slot, over the one registered `capacity` registrations ago. */
    method RegisterCallbackFunc(id: string, handle: Option<int>) returns (realId: string)
      requires Valid()
      modifies this`startIndex, this`nowIndex, this`issued, slots
      ensures Valid()
      ensures issued == old(issued) + [CallbackInfo(handle, id)]
      ensures realId == Itoa(|old(issued)| % capacity)
    {
      IndicesAdvance(|issued|, capacity);
      forall i | 0 <= i < capacity
        ensures Held(issued + [CallbackInfo(handle, id)], capacity, i) ==
          if i == nowIndex then Some(CallbackInfo(handle, id)) else Held(issued, capacity, i)
      {
        HeldStep(issued, CallbackInfo(handle, id), capacity, i);
      }
      hide Held, NowIndex, StartIndex, Itoa;
      var n := nowIndex;
      slots[n] := Some(CallbackInfo(handle, id));
      nowIndex := nowIndex + 1;
      if nowIndex > capacity - 1 {
        nowIndex := 0;
      }
      if nowIndex == startIndex {
        startIndex := startIndex + 1;
        if startIndex > capacity - 1 {
          startIndex := 0;
        }
      }
      issued := issued + [CallbackInfo(handle, id)];
      return Itoa(n);
    }

    /** What a press of the button with this id leads to. */
    method InvokeCallback(id: string) returns (r: Outcome)
      requires Valid()
      ensures r == if Atoi(id).None? then BadId else Invoked(issued, capacity, Atoi(id).value)
    {
      var target := Atoi(id);
      if target.None? {
        return BadId;
      }
      var start := slots[startIndex];
      if start.None? {
        return Panics;
      }
      var index := RealIndex(target.value, AtoiOrBound(start.value.id), startIndex, capacity);
      if index < 0 || slots[index].None? {
        return Panics;
      }
      if slots[index].value.handle.None? {
        return NotRegistered;
      }
      return Calls(slots[index].value);
    }
  }
}
