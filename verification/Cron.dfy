/** The five-field cron parser and matcher. */
module Cron {
  import opened Options
  import opened Text
  import opened Numbers

  /** One comma-separated part: the progression from `start` to `end` in steps of `step`. */
  datatype Part = Part(start: int, end: int, step: int)

  function ParseRange(range: string, min: int, max: int): Option<(int, int)> {
    if range == "*" then Some((min, max))
    else if '-' in range then
      var i := Index(range, '-');
      var start, end := Atoi(range[..i]), Atoi(range[i + 1..]);
      if start.None? || end.None? then None else Some((start.value, end.value))
    else
      var n := Atoi(range);
      if n.None? then None else Some((n.value, n.value))
  }

  /** A part's meaning, or None where the parser reports an error. */
  function ParsePart(text: string, min: int, max: int): (r: Option<Part>)
    ensures r.Some? ==> min <= r.value.start <= r.value.end <= max && 0 < r.value.step <= MAX_INT
  {
    var part := TrimSpace(text);
    var step := if '/' in part then Atoi(part[Index(part, '/') + 1..]) else Some(1);
    var range := if '/' in part then part[..Index(part, '/')] else part;
    if part == "" || step.None? || step.value <= 0 then None
    else
      var bounds := ParseRange(range, min, max);
      if bounds.None? || bounds.value.0 < min || bounds.value.1 > max || bounds.value.0 > bounds.value.1 then None
      else Some(Part(bounds.value.0, bounds.value.1, step.value))
  }

  /** Fields are small next to the ints they are kept in. */
  const WIDE := 0x2000_0000_0000_0000

  /** Addition of 64-bit ints, for a positive second operand. */
  function Plus(v: int, step: int): (r: int)
    requires MIN_INT <= v <= MAX_INT && 0 < step <= MAX_INT
    ensures r == if v + step <= MAX_INT then v + step else v + step - 0x1_0000_0000_0000_0000
  {
    WrapOnce(v + step);
    Wrap64(v + step)
  }

  /** Bounds the rounds the loop has left: a step that wraps lowers the counter every second round. */
  function Rounds(v: int, end: int, step: int): (n: nat)
    requires MIN_INT <= v <= MAX_INT && 0 <= end < WIDE && 0 < step <= MAX_INT
  {
    if v > end then 0
    else if step <= MAX_INT - end then end - v + 1
    else if v < -WIDE then 2 * (v + step) + 32 * WIDE + 1
    else 2 * v + 32 * WIDE
  }

  /** What the loop over a part stores. */
  function Stored(v: int, end: int, step: int): (values: set<int>)
    requires MIN_INT <= v <= MAX_INT && 0 <= end < WIDE && 0 < step <= MAX_INT
    decreases Rounds(v, end, step)
  {
    if v > end then {} else {v} + Stored(Plus(v, step), end, step)
  }

  /** What it is meant to store. */
  function Progression(start: int, end: int, step: int): set<int>
    requires step > 0
    decreases end - start + 1
  {
    if start > end then {} else {start} + Progression(start + step, end, step)
  }

  /** A progression holds the numbers of its range that lie a multiple of the step above its start. */
  lemma {:induction false} ProgressionMembers(start: int, end: int, step: int, v: int)
    requires step > 0
    ensures v in Progression(start, end, step) <==> start <= v <= end && (v - start) % step == 0
    decreases end - start + 1
  {
    if start <= end {
      ProgressionMembers(start + step, end, step, v);
      ModDrop(v - start, step);
      if v < start + step && start < v {
        SmallMod(v - start, step);
      }
    }
  }

  lemma ModDrop(n: int, m: int)
    requires m > 0
    ensures n % m == (n - m) % m
  {
    var q, r := n / m, n % m;
    DivisionIsUnique(n - m, m, q - 1, r);
  }

  /** The counter of the loop over the part would leave the range of a 64-bit int. */
  predicate Wraps(p: Part)
    requires p.start <= p.end && p.step > 0
  {
    p.start + p.step > MAX_INT
  }

  predicate Fits(p: Part) {
    0 <= p.start <= p.end < WIDE && 0 < p.step <= MAX_INT
  }

  function Values(p: Part): set<int>
    requires Fits(p)
  {
    Stored(p.start, p.end, p.step)
  }

  /** Unless the counter wraps the loop stores the progression. */
  lemma {:induction false} StoredIsProgression(start: int, end: int, step: int)
    requires 0 <= start && 0 <= end < WIDE && 0 < step <= MAX_INT && start <= MAX_INT
    requires start <= end ==> start + step <= MAX_INT
    ensures Stored(start, end, step) == Progression(start, end, step)
    decreases end - start + 1
  {
    if start <= end {
      StoredIsProgression(start + step, end, step);
    }
  }

  /** The loop stays within its range exactly when the counter does not wrap, and then stores the progression. */
  lemma PartInRangeExactlyWhen(p: Part, min: int, max: int)
    requires Fits(p) && 0 <= min <= p.start && p.end <= max
    ensures (forall v :: v in Values(p) ==> min <= v <= max) <==> !Wraps(p)
    ensures !Wraps(p) ==> Values(p) == Progression(p.start, p.end, p.step)
  {
    if Wraps(p) {
      var next := Plus(p.start, p.step);
      assert next in Stored(next, p.end, p.step) && next in Values(p) && next < 0;
    } else {
      StoredIsProgression(p.start, p.end, p.step);
      forall v | v in Values(p) ensures min <= v <= max {
        ProgressionMembers(p.start, p.end, p.step, v);
      }
    }
  }

  /** A single value with the largest step also matches every second value below it. */
  lemma LargestStepStoresMore(v: int)
    requires 2 <= v < WIDE
    ensures v - 2 in Values(Part(v, v, MAX_INT))
  {
    var next := Plus(v, MAX_INT);
    assert Plus(next, MAX_INT) == v - 2;
    assert v - 2 in Stored(v - 2, v, MAX_INT);
    assert v - 2 in Stored(next, v, MAX_INT);
  }

  // ---------------------------------------------------------------- fields

  predicate IsRange(min: int, max: int) {
    0 <= min <= max < WIDE
  }

  predicate Understood(text: string, min: int, max: int) {
    ParsePart(text, min, max).Some?
  }

  predicate AllUnderstood(texts: seq<string>, min: int, max: int) {
    forall t :: t in texts ==> Understood(t, min, max)
  }

  /** Some part's counter wraps. */
  predicate SomeWraps(texts: seq<string>, min: int, max: int)
    requires AllUnderstood(texts, min, max)
  {
    exists t :: t in texts && Wraps(ParsePart(t, min, max).value)
  }

  /** What the loops over the parts store. */
  function Union(texts: seq<string>, min: int, max: int): set<int>
    requires IsRange(min, max) && AllUnderstood(texts, min, max)
  {
    if texts == [] then {}
    else
      var last := texts[|texts| - 1];
      assert Understood(last, min, max);
      Union(texts[..|texts| - 1], min, max) + Values(ParsePart(last, min, max).value)
  }

  /** The loop over one part. */
  method AddValues(p: Part, before: set<int>) returns (result: set<int>)
    requires Fits(p)
    ensures result == before + Values(p)
  {
    result := before;
    var v := p.start;
    while v <= p.end
      invariant MIN_INT <= v <= MAX_INT
      invariant result + Stored(v, p.end, p.step) == before + Values(p)
      decreases Rounds(v, p.end, p.step)
    {
      result := result + {v};
      v := Plus(v, p.step);
    }
  }

  lemma UnionSnoc(texts: seq<string>, last: string, min: int, max: int)
    requires IsRange(min, max) && AllUnderstood(texts, min, max) && Understood(last, min, max)
    ensures AllUnderstood(texts + [last], min, max)
    ensures Union(texts + [last], min, max) == Union(texts, min, max) + Values(ParsePart(last, min, max).value)
  {
    assert (texts + [last])[..|texts|] == texts;
  }

  lemma UnionOfNone(min: int, max: int)
    requires IsRange(min, max)
    ensures Union([], min, max) == {}
  {
  }

  /** A field is accepted exactly when each part is understood, and then denotes what the loops over its parts store. */
  method ParseField(field: string, min: int, max: int) returns (r: Option<set<int>>)
    requires IsRange(min, max)
    ensures r == if AllUnderstood(Split(field, ','), min, max) then Some(Union(Split(field, ','), min, max)) else None
  {
    hide ParsePart, Values, Split, Union;
    var result: set<int> := {};
    var texts := Split(field, ',');
    UnionOfNone(min, max);
    assert texts[..0] == [];
    for k := 0 to |texts|
      invariant AllUnderstood(texts[..k], min, max) && result == Union(texts[..k], min, max)
    {
      var parsed := ParsePart(texts[k], min, max);
      if parsed.None? {
        assert !Understood(texts[k], min, max);
        return None;
      }
      result := AddValues(parsed.value, result);
      UnionSnoc(texts[..k], texts[k], min, max);
      assert texts[..k + 1] == texts[..k] + [texts[k]];
    }
    assert texts[..|texts|] == texts;
    return Some(result);
  }

  /** `v` lies a multiple of the part's step above its start, and not above its end. */
  predicate PartDenotes(text: string, min: int, max: int, v: int) {
    var p := ParsePart(text, min, max);
    p.Some? && p.value.start <= v <= p.value.end && (v - p.value.start) % p.value.step == 0
  }

  lemma PartStores(text: string, p: Part, min: int, max: int)
    requires IsRange(min, max) && ParsePart(text, min, max) == Some(p)
    ensures Fits(p) && min <= p.start && p.end <= max && p.start in Values(p)
    ensures forall v :: v in Progression(p.start, p.end, p.step) <==> PartDenotes(text, min, max, v)
  {
    hide ParsePart, Progression;
    forall v ensures v in Progression(p.start, p.end, p.step) <==> PartDenotes(text, min, max, v) {
      ProgressionMembers(p.start, p.end, p.step, v);
    }
  }

  lemma PartValues(text: string, min: int, max: int)
    requires IsRange(min, max) && Understood(text, min, max)
    ensures (forall v :: v in Values(ParsePart(text, min, max).value) ==> min <= v <= max) <==> !Wraps(ParsePart(text, min, max).value)
    ensures !Wraps(ParsePart(text, min, max).value) ==>
      forall v :: v in Values(ParsePart(text, min, max).value) <==> PartDenotes(text, min, max, v)
    ensures Values(ParsePart(text, min, max).value) != {}
  {
    hide ParsePart, Wraps, Values, PartDenotes, Progression;
    var p := ParsePart(text, min, max).value;
    PartStores(text, p, min, max);
    PartInRangeExactlyWhen(p, min, max);
  }

  /** The union and the parts of a field, one part further. */
  lemma FieldStep(init: seq<string>, last: string, min: int, max: int)
    requires IsRange(min, max) && AllUnderstood(init + [last], min, max)
    ensures AllUnderstood(init, min, max) && Understood(last, min, max)
    ensures Union(init + [last], min, max) == Union(init, min, max) + Values(ParsePart(last, min, max).value)
    ensures SomeWraps(init + [last], min, max) <==> SomeWraps(init, min, max) || Wraps(ParsePart(last, min, max).value)
  {
    var texts := init + [last];
    assert last in texts && forall t :: t in init ==> t in texts;
    assert forall t :: t in texts ==> t in init || t == last;
    UnionSnoc(init, last, min, max);
    hide ParsePart, Values, Wraps, Union, Understood;
  }

  lemma FieldIsNotEmpty(texts: seq<string>, min: int, max: int)
    requires IsRange(min, max) && AllUnderstood(texts, min, max) && texts != []
    ensures Union(texts, min, max) != {}
  {
    var init, last := texts[..|texts| - 1], texts[|texts| - 1];
    assert texts == init + [last];
    FieldStep(init, last, min, max);
    PartValues(last, min, max);
    hide ParsePart, Values, Union, Understood;
  }

  lemma {:induction false} FieldInRangeExactlyWhen(texts: seq<string>, min: int, max: int)
    requires IsRange(min, max) && AllUnderstood(texts, min, max)
    ensures (forall v :: v in Union(texts, min, max) ==> min <= v <= max) <==> !SomeWraps(texts, min, max)
  {
    if texts != [] {
      var init, last := texts[..|texts| - 1], texts[|texts| - 1];
      assert texts == init + [last];
      FieldStep(init, last, min, max);
      FieldInRangeExactlyWhen(init, min, max);
      PartValues(last, min, max);
      hide ParsePart, Values, Wraps, Union, Understood, AllUnderstood, SomeWraps, PartDenotes;
    }
  }

  /** Some part of the field denotes the value. */
  predicate Denotes(texts: seq<string>, min: int, max: int, v: int) {
    exists t :: t in texts && PartDenotes(t, min, max, v)
  }

  lemma DenotesStep(init: seq<string>, last: string, min: int, max: int, v: int)
    ensures Denotes(init + [last], min, max, v) <==> Denotes(init, min, max, v) || PartDenotes(last, min, max, v)
  {
    hide PartDenotes;
    var texts := init + [last];
    assert last in texts && forall t :: t in init ==> t in texts;
    assert forall t :: t in texts ==> t in init || t == last;
  }

  lemma {:induction false} FieldMembers(texts: seq<string>, min: int, max: int, v: int)
    requires IsRange(min, max) && AllUnderstood(texts, min, max) && !SomeWraps(texts, min, max)
    ensures v in Union(texts, min, max) <==> Denotes(texts, min, max, v)
  {
    if texts != [] {
      var init, last := texts[..|texts| - 1], texts[|texts| - 1];
      assert texts == init + [last];
      FieldStep(init, last, min, max);
      FieldMembers(init, min, max, v);
      PartValues(last, min, max);
      DenotesStep(init, last, min, max, v);
      hide ParsePart, Values, Wraps, Union, Understood, AllUnderstood, SomeWraps, PartDenotes, Denotes;
    }
  }

  /**
   * An accepted field is not empty. It stays within its range exactly when no counter wraps, and
   * then denotes exactly the numbers that one of its parts denotes.
   */
  lemma FieldMeansItsParts(texts: seq<string>, min: int, max: int)
    requires IsRange(min, max) && AllUnderstood(texts, min, max)
    ensures texts != [] ==> Union(texts, min, max) != {}
    ensures (forall v :: v in Union(texts, min, max) ==> min <= v <= max) <==> !SomeWraps(texts, min, max)
    ensures !SomeWraps(texts, min, max) ==>
      forall v :: v in Union(texts, min, max) <==> Denotes(texts, min, max, v)
  {
    if texts != [] {
      FieldIsNotEmpty(texts, min, max);
    }
    FieldInRangeExactlyWhen(texts, min, max);
    if !SomeWraps(texts, min, max) {
      forall v ensures v in Union(texts, min, max) <==> Denotes(texts, min, max, v) {
        FieldMembers(texts, min, max, v);
      }
    }
    hide Union, SomeWraps, Denotes, AllUnderstood;
  }

  // ---------------------------------------------------------------- printing a field

  function Numerals(vs: seq<int>): seq<string> {
    if vs == [] then [] else Numerals(vs[..|vs| - 1]) + [Itoa(vs[|vs| - 1])]
  }

  lemma {:induction false} DigitsAreNoSpace(s: string)
    requires s != "" && AllDigits(s)
    ensures TrimSpace(s) == s
  {
    assert IsDigit(s[0]) && IsDigit(s[|s| - 1]);
  }

  lemma NumeralDenotesItself(v: int, min: int, max: int)
    requires IsRange(min, max) && min <= v <= max
    ensures ',' !in Itoa(v) && ParsePart(Itoa(v), min, max) == Some(Part(v, v, 1)) && Values(Part(v, v, 1)) == {v}
  {
    var s := Itoa(v);
    assert AllDigits(s);
    DigitsAreNoSpace(s);
    NotADigit(s);
    assert s[0] != "*"[0];
    AtoiOfItoa(v);
    hide Itoa, Atoi, TrimSpace, AllDigits;
    assert Stored(v + 1, v, 1) == {};
  }

  lemma NotADigit(s: string)
    requires AllDigits(s)
    ensures '/' !in s && '-' !in s && ',' !in s && '*' !in s
  {
    assert forall c :: c in s ==> IsDigit(c);
  }

  lemma NumeralsStep(vs: seq<int>)
    ensures Numerals(vs) == if vs == [] then [] else Numerals(vs[..|vs| - 1]) + [Itoa(vs[|vs| - 1])]
  {
  }

  lemma {:induction false} NumeralsDenote(vs: seq<int>, min: int, max: int)
    requires IsRange(min, max) && forall v :: v in vs ==> min <= v <= max
    ensures AllUnderstood(Numerals(vs), min, max) && |Numerals(vs)| == |vs|
    ensures forall t :: t in Numerals(vs) ==> ',' !in t
    ensures Union(Numerals(vs), min, max) == set v | v in vs
  {
    hide ParsePart, Values, Itoa, Union, Numerals;
    NumeralsStep(vs);
    if vs == [] {
      UnionOfNone(min, max);
    } else {
      var init, v := vs[..|vs| - 1], vs[|vs| - 1];
      assert v in vs && forall w :: w in init ==> w in vs;
      NumeralsDenote(init, min, max);
      NumeralDenotesItself(v, min, max);
      UnionSnoc(Numerals(init), Itoa(v), min, max);
      assert vs == init + [v];
      assert (set w | w in vs) == (set w | w in init) + {v};
    }
  }

  /** Every non-empty set of values of the range, printed as a comma list, parses back to itself. */
  method ReadBack(vs: seq<int>, min: int, max: int) returns (r: Option<set<int>>)
    requires vs != [] && IsRange(min, max) && forall v :: v in vs ==> min <= v <= max
    ensures r == Some(set v | v in vs)
  {
    var field := Join(Numerals(vs), ",");
    NumeralsDenote(vs, min, max);
    SplitOfSeparated(Numerals(vs), ',');
    hide Numerals, Join, Split, Union, AllUnderstood;
    r := ParseField(field, min, max);
  }

  // ---------------------------------------------------------------- the five fields

  datatype CronExpr = CronExpr(minute: set<int>, hour: set<int>, day: set<int>, month: set<int>, weekday: set<int>)

  /** What the matcher reads of a point in time; weekdays count from Sunday as 0. */
  datatype Stamp = Stamp(minute: int, hour: int, day: int, month: int, weekday: int)

  predicate Matches(c: CronExpr, t: Stamp) {
    t.minute in c.minute && t.hour in c.hour && t.day in c.day && t.month in c.month && t.weekday in c.weekday
  }

  function FieldBounds(): seq<(int, int)> {
    [(0, 59), (0, 23), (1, 31), (1, 12), (0, 6)]
  }

  predicate FieldUnderstood(field: string, bounds: (int, int)) {
    AllUnderstood(Split(field, ','), bounds.0, bounds.1)
  }

  function FieldValues(field: string, bounds: (int, int)): set<int>
    requires FieldUnderstood(field, bounds) && IsRange(bounds.0, bounds.1)
  {
    Union(Split(field, ','), bounds.0, bounds.1)
  }

  /** An expression is accepted exactly when it has five fields that are understood. */
  predicate ExprUnderstood(fields: seq<string>) {
    |fields| == 5 && forall i :: 0 <= i < 5 ==> FieldUnderstood(fields[i], FieldBounds()[i])
  }

  function ExprOf(fields: seq<string>): CronExpr
    requires ExprUnderstood(fields)
  {
    CronExpr(FieldValues(fields[0], FieldBounds()[0]), FieldValues(fields[1], FieldBounds()[1]),
             FieldValues(fields[2], FieldBounds()[2]), FieldValues(fields[3], FieldBounds()[3]),
             FieldValues(fields[4], FieldBounds()[4]))
  }

  method ParseCron(expr: string) returns (r: Option<CronExpr>)
    ensures r == if ExprUnderstood(Fields(expr)) then Some(ExprOf(Fields(expr))) else None
  {
    hide Fields, Split, ParsePart, Union, AllUnderstood;
    var fields := Fields(expr);
    if |fields| != 5 {
      return None;
    }
    var bounds := FieldBounds();
    var sets: seq<set<int>> := [];
    for k := 0 to 5
      invariant |sets| == k
      invariant forall i :: 0 <= i < k ==> FieldUnderstood(fields[i], bounds[i]) && sets[i] == FieldValues(fields[i], bounds[i])
    {
      var f := ParseField(fields[k], bounds[k].0, bounds[k].1);
      if f.None? {
        assert !FieldUnderstood(fields[k], bounds[k]);
        return None;
      }
      sets := sets + [f.value];
    }
    return Some(CronExpr(sets[0], sets[1], sets[2], sets[3], sets[4]));
  }
}
