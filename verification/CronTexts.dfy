/** What cron expressions mean, said of their texts: the six forms of a part as they are written. */
module CronTexts {
  import opened Options
  import opened Text
  import opened Numbers
  import opened Cron

  datatype Form =
    | Any                          // *
    | AnyStep(step: int)           // */s
    | One(a: int)                  // a
    | OneStep(a: int, step: int)   // a/s
    | Range(a: int, b: int)        // a-b
    | RangeStep(a: int, b: int, step: int)

  function Written(f: Form): string {
    match f
    case Any => "*"
    case AnyStep(step) => "*" + "/" + Itoa(step)
    case One(a) => Itoa(a)
    case OneStep(a, step) => Itoa(a) + "/" + Itoa(step)
    case Range(a, b) => Itoa(a) + "-" + Itoa(b)
    case RangeStep(a, b, step) => Itoa(a) + "-" + Itoa(b) + "/" + Itoa(step)
  }

  /** The form names values of the range, in order, and its step is positive. */
  predicate Fitting(f: Form, min: int, max: int) {
    match f
    case Any => min <= max
    case AnyStep(step) => min <= max && 0 < step <= MAX_INT
    case One(a) => min <= a <= max
    case OneStep(a, step) => min <= a <= max && 0 < step <= MAX_INT
    case Range(a, b) => min <= a <= b <= max
    case RangeStep(a, b, step) => min <= a <= b <= max && 0 < step <= MAX_INT
  }

  /** The value is one the form names. */
  predicate Names(f: Form, min: int, max: int, v: int) {
    match f
    case Any => min <= v <= max
    case AnyStep(step) => min <= v <= max && step > 0 && (v - min) % step == 0
    case One(a) => v == a
    case OneStep(a, step) => v == a
    case Range(a, b) => a <= v <= b
    case RangeStep(a, b, step) => a <= v <= b && step > 0 && (v - a) % step == 0
  }

  // ---------------------------------------------------------------- numbers as texts

  predicate IsPlain(s: string) {
    forall c :: c in s ==> IsDigit(c)
  }

  /** A printed number: digits, with a minus sign before them if it is negative. */
  lemma ItoaLooks(n: int)
    ensures Itoa(n) != "" && '/' !in Itoa(n) && ',' !in Itoa(n) && Itoa(n) != "*"
    ensures forall c :: c in Itoa(n) ==> !IsSpace(c)
    ensures if n < 0 then Itoa(n)[0] == '-' else IsPlain(Itoa(n)) && '-' !in Itoa(n)
  {
    var digits := Digits(if n < 0 then -n else n);
    assert forall i :: 0 <= i < |digits| ==> IsDigit(digits[i]);
    assert forall c :: c in digits ==> IsDigit(c);
    assert Itoa(n) == if n < 0 then "-" + digits else digits;
    assert IsDigit(digits[0]);
  }

  lemma NumberTooBig(n: int)
    requires n < MIN_INT || MAX_INT < n
    ensures Atoi(Itoa(n)).None?
  {
    var digits := Digits(if n < 0 then -n else n);
    ValueOfDigits(if n < 0 then -n else n);
    if n < 0 {
      assert Itoa(n)[1..] == digits;
    } else {
      assert IsDigit(digits[0]);
    }
  }

  /** A printed number is read back if it fits. */
  lemma ItoaReads(n: int)
    ensures Atoi(Itoa(n)) == if MIN_INT <= n <= MAX_INT then Some(n) else None
  {
    if MIN_INT <= n <= MAX_INT {
      AtoiOfItoa(n);
    } else {
      NumberTooBig(n);
    }
  }

  // ---------------------------------------------------------------- ranges

  lemma ReadStar(min: int, max: int)
    ensures ParseRange("*", min, max) == Some((min, max))
  {
  }

  lemma ReadOne(a: int, min: int, max: int)
    requires 0 <= min && max < MAX_INT
    ensures var r := ParseRange(Itoa(a), min, max);
      if 0 <= a <= MAX_INT then r == Some((a, a)) else r.None?
  {
    ItoaLooks(a);
    ItoaReads(a);
    hide Itoa;
    if a < 0 {
      var s := Itoa(a);
      assert Index(s, '-') == 0;
      EmptyIsNoNumber(s[..0]);
    }
  }

  lemma EmptyIsNoNumber(s: string)
    requires s == ""
    ensures Atoi(s).None?
  {
  }

  lemma ReadRange(a: int, b: int, min: int, max: int)
    ensures var r := ParseRange(Itoa(a) + "-" + Itoa(b), min, max);
      if 0 <= a <= MAX_INT && MIN_INT <= b <= MAX_INT then r == Some((a, b)) else r.None?
  {
    ItoaLooks(a);
    ItoaReads(a);
    ItoaReads(b);
    hide Itoa, Atoi;
    var s := Itoa(a) + "-" + Itoa(b);
    assert s[0] == Itoa(a)[0] && s[0] != '*' by { NoStar(a); }
    if a < 0 {
      assert s[0] == '-' && Index(s, '-') == 0;
      EmptyIsNoNumber(s[..0]);
    } else {
      IndexAfter(Itoa(a), '-', Itoa(b));
      assert Itoa(a) + ['-'] + Itoa(b) == s && s[|Itoa(a)|] == '-';
      hide Index;
      assert s[..|Itoa(a)|] == Itoa(a) && s[|Itoa(a)| + 1..] == Itoa(b);
    }
  }

  lemma NoStar(a: int)
    ensures Itoa(a) != "" && Itoa(a)[0] != '*'
  {
    ItoaLooks(a);
    hide Itoa;
    if a >= 0 {
      assert Itoa(a)[0] in Itoa(a);
    }
  }

  // ---------------------------------------------------------------- parts

  /** What a part with these bounds and this step gives. */
  function Accepted(bounds: Option<(int, int)>, step: int, min: int, max: int): Option<Part> {
    if bounds.None? || !(min <= bounds.value.0 <= bounds.value.1 <= max) || !(0 < step <= MAX_INT) then None
    else Some(Part(bounds.value.0, bounds.value.1, step))
  }

  lemma NothingToTrim(s: string)
    requires forall c :: c in s ==> !IsSpace(c)
    ensures TrimSpace(s) == s
  {
    if s != "" {
      assert s[0] in s && s[|s| - 1] in s;
    }
  }

  lemma PartWithoutStep(range: string, min: int, max: int)
    requires range != "" && '/' !in range && forall c :: c in range ==> !IsSpace(c)
    ensures ParsePart(range, min, max) == Accepted(ParseRange(range, min, max), 1, min, max)
  {
    NothingToTrim(range);
    hide TrimSpace, IsSpace, ParseRange;
  }

  lemma PartWithStep(range: string, step: int, min: int, max: int)
    requires range != "" && '/' !in range && forall c :: c in range ==> !IsSpace(c)
    ensures ParsePart(range + "/" + Itoa(step), min, max) == Accepted(ParseRange(range, min, max), step, min, max)
  {
    ItoaLooks(step);
    ItoaReads(step);
    var part := range + "/" + Itoa(step);
    hide Itoa, Atoi, ParseRange, IsSpace;
    assert forall c :: c in part ==> !IsSpace(c) by { SlashIsNoSpace(); }
    NothingToTrim(part);
    IndexAfter(range, '/', Itoa(step));
    hide TrimSpace, Index;
    assert part == range + ['/'] + Itoa(step) && part[|range|] == '/';
    assert part[..|range|] == range && part[|range| + 1..] == Itoa(step);
  }

  lemma SlashIsNoSpace()
    ensures !IsSpace('/') && !IsSpace('-') && !IsSpace('*') && !IsSpace(',')
  {
  }

  function Low(f: Form, min: int): int {
    match f
    case Any => min
    case AnyStep(_) => min
    case One(a) => a
    case OneStep(a, _) => a
    case Range(a, _) => a
    case RangeStep(a, _, _) => a
  }

  function High(f: Form, max: int): int {
    match f
    case Any => max
    case AnyStep(_) => max
    case One(a) => a
    case OneStep(a, _) => a
    case Range(_, b) => b
    case RangeStep(_, b, _) => b
  }

  function StepOf(f: Form): int {
    match f
    case AnyStep(step) => step
    case OneStep(_, step) => step
    case RangeStep(_, _, step) => step
    case _ => 1
  }

  /** The text before the step, if there is one. */
  function RangeText(f: Form): string {
    match f
    case Any => "*"
    case AnyStep(_) => "*"
    case One(a) => Itoa(a)
    case OneStep(a, _) => Itoa(a)
    case Range(a, b) => Itoa(a) + "-" + Itoa(b)
    case RangeStep(a, b, _) => Itoa(a) + "-" + Itoa(b)
  }

  predicate HasStep(f: Form) {
    f.AnyStep? || f.OneStep? || f.RangeStep?
  }

  lemma RangeTextLooks(f: Form)
    ensures RangeText(f) != "" && '/' !in RangeText(f) && ',' !in RangeText(f) && forall c :: c in RangeText(f) ==> !IsSpace(c)
    ensures Written(f) == if HasStep(f) then RangeText(f) + "/" + Itoa(StepOf(f)) else RangeText(f)
  {
    SlashIsNoSpace();
    match f {
      case Any =>
      case AnyStep(_) =>
      case One(a) => ItoaLooks(a);
      case OneStep(a, _) => ItoaLooks(a);
      case Range(a, b) => ItoaLooks(a); ItoaLooks(b);
      case RangeStep(a, b, _) => ItoaLooks(a); ItoaLooks(b);
    }
    hide Itoa, IsSpace;
  }

  lemma RangeTextReads(f: Form, min: int, max: int)
    requires IsRange(min, max)
    ensures Accepted(ParseRange(RangeText(f), min, max), StepOf(f), min, max) ==
      if Fitting(f, min, max) then Some(Part(Low(f, min), High(f, max), StepOf(f))) else None
  {
    hide ParseRange, Itoa;
    match f
    case Any => ReadStar(min, max);
    case AnyStep(_) => ReadStar(min, max);
    case One(a) => ReadOne(a, min, max);
    case OneStep(a, _) => ReadOne(a, min, max);
    case Range(a, b) => ReadRange(a, b, min, max);
    case RangeStep(a, b, _) => ReadRange(a, b, min, max);
  }

  /** Each of the six forms is understood exactly if it fits, and as what it says. */
  lemma WrittenPartIsRead(f: Form, min: int, max: int)
    requires IsRange(min, max)
    ensures ParsePart(Written(f), min, max) ==
      if Fitting(f, min, max) then Some(Part(Low(f, min), High(f, max), StepOf(f))) else None
    ensures ',' !in Written(f) && IsWord(Written(f))
  {
    RangeTextLooks(f);
    RangeTextReads(f, min, max);
    ItoaLooks(StepOf(f));
    hide RangeText, Written, ParseRange, Itoa, Fitting, IsSpace;
    SlashIsNoSpace();
    if HasStep(f) {
      PartWithStep(RangeText(f), StepOf(f), min, max);
    } else {
      assert StepOf(f) == 1;
      PartWithoutStep(RangeText(f), min, max);
    }
  }

  lemma NamesMeans(f: Form, min: int, max: int, v: int)
    requires Fitting(f, min, max)
    ensures Names(f, min, max, v) <==> Low(f, min) <= v <= High(f, max) && (v - Low(f, min)) % StepOf(f) == 0
  {
    EveryStepOfOne(v - Low(f, min));
    match f
    case Any =>
    case AnyStep(_) =>
    case One(_) =>
    case OneStep(a, step) =>
      if v == a {
        SmallMod(0, step);
      }
    case Range(_, _) =>
    case RangeStep(_, _, _) =>
  }

  lemma EveryStepOfOne(n: int)
    ensures n % 1 == 0
  {
  }

  /** A fitting form is understood, denotes the values it names, and wraps if its step leads beyond the ints. */
  lemma WrittenPartDenotes(f: Form, min: int, max: int)
    requires IsRange(min, max) && Fitting(f, min, max)
    ensures Understood(Written(f), min, max)
    ensures forall v :: PartDenotes(Written(f), min, max, v) <==> Names(f, min, max, v)
    ensures Wraps(ParsePart(Written(f), min, max).value) <==> Low(f, min) + StepOf(f) > MAX_INT
  {
    WrittenPartIsRead(f, min, max);
    hide ParsePart, Written, Names, Low, High, StepOf, Fitting;
    forall v ensures PartDenotes(Written(f), min, max, v) <==> Names(f, min, max, v) {
      NamesMeans(f, min, max, v);
    }
  }

  /** Space around a part makes no difference. */
  lemma SpaceAroundPart(text: string, min: int, max: int)
    ensures ParsePart(text, min, max) == ParsePart(TrimSpace(text), min, max)
  {
    TrimTwice(text);
    hide TrimSpace, ParseRange, Atoi;
  }

  // ---------------------------------------------------------------- fields

  function WrittenAll(fs: seq<Form>): (texts: seq<string>)
    ensures |texts| == |fs|
    ensures forall i :: 0 <= i < |fs| ==> texts[i] == Written(fs[i])
  {
    seq(|fs|, i requires 0 <= i < |fs| => Written(fs[i]))
  }

  function FieldText(fs: seq<Form>): string {
    Join(WrittenAll(fs), ",")
  }

  predicate AllFit(fs: seq<Form>, min: int, max: int) {
    forall f :: f in fs ==> Fitting(f, min, max)
  }

  /** No step is so large that the counter of a form would wrap. */
  predicate NoneWraps(fs: seq<Form>, min: int) {
    forall f :: f in fs ==> Low(f, min) + StepOf(f) <= MAX_INT
  }

  predicate SomeNames(fs: seq<Form>, min: int, max: int, v: int) {
    exists f :: f in fs && Names(f, min, max, v)
  }

  lemma FieldTextSplits(fs: seq<Form>, min: int, max: int)
    requires fs != [] && IsRange(min, max)
    ensures Split(FieldText(fs), ',') == WrittenAll(fs)
    ensures AllUnderstood(WrittenAll(fs), min, max) <==> AllFit(fs, min, max)
  {
    var texts := WrittenAll(fs);
    forall i | 0 <= i < |fs| ensures (Understood(texts[i], min, max) <==> Fitting(fs[i], min, max)) && ',' !in texts[i] {
      WrittenPartIsRead(fs[i], min, max);
    }
    hide Written, Fitting, ParsePart, Understood, Join, Split;
    SplitOfSeparated(texts, ',');
    if AllUnderstood(texts, min, max) {
      forall f | f in fs ensures Fitting(f, min, max) {
        var i :| 0 <= i < |fs| && fs[i] == f;
        assert texts[i] in texts;
      }
    }
    if AllFit(fs, min, max) {
      forall t | t in texts ensures Understood(t, min, max) {
        var i :| 0 <= i < |texts| && texts[i] == t;
        assert fs[i] in fs;
      }
    }
  }

  lemma UnderstoodMeans(text: string, min: int, max: int)
    ensures Understood(text, min, max) <==> ParsePart(text, min, max).Some?
  {
  }

  lemma FieldTextWraps(fs: seq<Form>, min: int, max: int)
    requires IsRange(min, max) && AllUnderstood(WrittenAll(fs), min, max) && AllFit(fs, min, max)
    ensures SomeWraps(WrittenAll(fs), min, max) <==> !NoneWraps(fs, min)
  {
    var texts := WrittenAll(fs);
    hide Written, Fitting, ParsePart, Wraps, Low, StepOf, PartDenotes, Names, Understood;
    forall i | 0 <= i < |fs|
      ensures Understood(texts[i], min, max) && ParsePart(texts[i], min, max).Some?
      ensures Wraps(ParsePart(texts[i], min, max).value) <==> Low(fs[i], min) + StepOf(fs[i]) > MAX_INT
    {
      assert texts[i] in texts && fs[i] in fs;
      WrittenPartDenotes(fs[i], min, max);
      UnderstoodMeans(texts[i], min, max);
    }
    if !NoneWraps(fs, min) {
      var f :| f in fs && Low(f, min) + StepOf(f) > MAX_INT;
      var i :| 0 <= i < |fs| && fs[i] == f;
      assert texts[i] in texts;
    }
    if SomeWraps(texts, min, max) {
      var t :| t in texts && Wraps(ParsePart(t, min, max).value);
      var i :| 0 <= i < |texts| && texts[i] == t;
      assert fs[i] in fs;
    }
  }

  lemma FieldTextDenotes(fs: seq<Form>, min: int, max: int, v: int)
    requires IsRange(min, max) && AllFit(fs, min, max)
    ensures Denotes(WrittenAll(fs), min, max, v) <==> SomeNames(fs, min, max, v)
  {
    var texts := WrittenAll(fs);
    forall i | 0 <= i < |fs| ensures PartDenotes(texts[i], min, max, v) <==> Names(fs[i], min, max, v) {
      assert fs[i] in fs;
      WrittenPartDenotes(fs[i], min, max);
    }
    hide Written, Fitting, PartDenotes, Names;
    if f :| f in fs && Names(f, min, max, v) {
      var i :| 0 <= i < |fs| && fs[i] == f;
      assert texts[i] in texts;
    }
    if t :| t in texts && PartDenotes(t, min, max, v) {
      var i :| 0 <= i < |texts| && texts[i] == t;
      assert fs[i] in fs;
    }
  }

  /** A comma list of the six forms is accepted exactly if all of them fit. It holds a value exactly if some form names it, unless a counter wraps. */
  method ReadField(fs: seq<Form>, min: int, max: int) returns (r: Option<set<int>>)
    requires fs != [] && IsRange(min, max)
    ensures r.Some? <==> AllFit(fs, min, max)
    ensures r.Some? && NoneWraps(fs, min) ==> forall v :: v in r.value <==> SomeNames(fs, min, max, v)
  {
    r := ParseField(FieldText(fs), min, max);
    FieldTextSplits(fs, min, max);
    hide Split, FieldText, AllUnderstood, Union;
    if r.Some? && NoneWraps(fs, min) {
      FieldTextMeans(fs, min, max);
    }
  }

  lemma FieldTextMeans(fs: seq<Form>, min: int, max: int)
    requires fs != [] && IsRange(min, max) && AllFit(fs, min, max) && NoneWraps(fs, min)
    ensures AllUnderstood(WrittenAll(fs), min, max)
    ensures forall v :: v in Union(WrittenAll(fs), min, max) <==> SomeNames(fs, min, max, v)
  {
    FieldTextSplits(fs, min, max);
    hide Split, FieldText, AllUnderstood, Union, AllFit, NoneWraps, SomeWraps, Denotes, SomeNames;
    FieldTextWraps(fs, min, max);
    FieldMeansItsParts(WrittenAll(fs), min, max);
    forall v ensures Denotes(WrittenAll(fs), min, max, v) <==> SomeNames(fs, min, max, v) {
      FieldTextDenotes(fs, min, max, v);
    }
  }

  // ---------------------------------------------------------------- expressions

  /** The five fields of an expression, each a list of forms. */
  datatype Expression = Expression(minute: seq<Form>, hour: seq<Form>, day: seq<Form>, month: seq<Form>, weekday: seq<Form>)

  function ExpressionText(e: Expression): string {
    Join(FieldTexts(e), " ")
  }

  function FieldTexts(e: Expression): seq<string> {
    [FieldText(e.minute), FieldText(e.hour), FieldText(e.day), FieldText(e.month), FieldText(e.weekday)]
  }

  predicate Complete(e: Expression) {
    e.minute != [] && e.hour != [] && e.day != [] && e.month != [] && e.weekday != []
  }

  predicate FitsCalendar(e: Expression) {
    AllFit(e.minute, 0, 59) && AllFit(e.hour, 0, 23) && AllFit(e.day, 1, 31) && AllFit(e.month, 1, 12) && AllFit(e.weekday, 0, 6)
  }

  predicate NothingWraps(e: Expression) {
    NoneWraps(e.minute, 0) && NoneWraps(e.hour, 0) && NoneWraps(e.day, 1) && NoneWraps(e.month, 1) && NoneWraps(e.weekday, 0)
  }

  /** The moment's minute, hour, day, month and weekday are each named by the field of that place. */
  predicate Means(e: Expression, t: Stamp) {
    && SomeNames(e.minute, 0, 59, t.minute) && SomeNames(e.hour, 0, 23, t.hour) && SomeNames(e.day, 1, 31, t.day)
    && SomeNames(e.month, 1, 12, t.month) && SomeNames(e.weekday, 0, 6, t.weekday)
  }

  lemma {:induction false} JoinIsWord(parts: seq<string>)
    requires parts != [] && AreWords(parts)
    ensures IsWord(Join(parts, ","))
  {
    JoinStep(parts, ",");
    assert parts[0] in parts;
    if |parts| > 1 {
      JoinIsWord(parts[1..]);
      SlashIsNoSpace();
      hide Join, IsSpace;
    }
  }

  lemma FieldTextIsWord(fs: seq<Form>)
    requires fs != []
    ensures IsWord(FieldText(fs))
  {
    var texts := WrittenAll(fs);
    forall t | t in texts ensures IsWord(t) {
      var i :| 0 <= i < |texts| && texts[i] == t;
      WrittenPartIsRead(fs[i], 0, 0);
    }
    JoinIsWord(texts);
  }

  lemma ExpressionFields(e: Expression)
    requires Complete(e)
    ensures Fields(ExpressionText(e)) == FieldTexts(e)
  {
    FieldTextIsWord(e.minute);
    FieldTextIsWord(e.hour);
    FieldTextIsWord(e.day);
    FieldTextIsWord(e.month);
    FieldTextIsWord(e.weekday);
    hide FieldText, Join, IsWord;
    FieldsOfJoin(FieldTexts(e));
  }

  lemma FieldIsUnderstood(fs: seq<Form>, min: int, max: int)
    requires fs != [] && IsRange(min, max)
    ensures FieldUnderstood(FieldText(fs), (min, max)) <==> AllFit(fs, min, max)
    ensures AllFit(fs, min, max) && NoneWraps(fs, min) ==>
      forall v :: v in FieldValues(FieldText(fs), (min, max)) <==> SomeNames(fs, min, max, v)
  {
    FieldTextSplits(fs, min, max);
    if AllFit(fs, min, max) && NoneWraps(fs, min) {
      FieldTextMeans(fs, min, max);
    }
    hide Split, FieldText, AllUnderstood, Union, AllFit, NoneWraps, SomeNames, WrittenAll;
  }

  lemma ExpressionUnderstood(e: Expression)
    requires Complete(e)
    ensures ExprUnderstood(FieldTexts(e)) <==> FitsCalendar(e)
  {
    hide FieldText, FieldUnderstood, AllFit;
    FieldIsUnderstood(e.minute, 0, 59);
    FieldIsUnderstood(e.hour, 0, 23);
    FieldIsUnderstood(e.day, 1, 31);
    FieldIsUnderstood(e.month, 1, 12);
    FieldIsUnderstood(e.weekday, 0, 6);
    var texts := FieldTexts(e);
    assert FieldUnderstood(texts[0], FieldBounds()[0]) <==> AllFit(e.minute, 0, 59);
    assert FieldUnderstood(texts[1], FieldBounds()[1]) <==> AllFit(e.hour, 0, 23);
    assert FieldUnderstood(texts[2], FieldBounds()[2]) <==> AllFit(e.day, 1, 31);
    assert FieldUnderstood(texts[3], FieldBounds()[3]) <==> AllFit(e.month, 1, 12);
    assert FieldUnderstood(texts[4], FieldBounds()[4]) <==> AllFit(e.weekday, 0, 6);
  }

  lemma ExpressionMatches(e: Expression, t: Stamp)
    requires Complete(e) && FitsCalendar(e) && NothingWraps(e) && ExprUnderstood(FieldTexts(e))
    ensures Matches(ExprOf(FieldTexts(e)), t) <==> Means(e, t)
  {
    hide FieldText, FieldUnderstood, FieldValues, AllFit, NoneWraps, SomeNames;
    FieldIsUnderstood(e.minute, 0, 59);
    FieldIsUnderstood(e.hour, 0, 23);
    FieldIsUnderstood(e.day, 1, 31);
    FieldIsUnderstood(e.month, 1, 12);
    FieldIsUnderstood(e.weekday, 0, 6);
  }

  /**
   * A written expression is accepted exactly if its minutes fit 0 to 59, its hours 0 to 23, its days 1
   * to 31, its months 1 to 12 and its weekdays 0 to 6, and then matches exactly the moments it means.
   */
  method ReadExpression(e: Expression, t: Stamp) returns (accepted: bool, matches: bool)
    requires Complete(e)
    ensures accepted <==> FitsCalendar(e)
    ensures accepted && NothingWraps(e) ==> (matches <==> Means(e, t))
  {
    ExpressionFields(e);
    ExpressionUnderstood(e);
    if FitsCalendar(e) && NothingWraps(e) {
      ExpressionMatches(e, t);
    }
    hide Fields, ExpressionText, FieldTexts, ExprUnderstood, ExprOf, FitsCalendar, NothingWraps, Means, Matches;
    var r := ParseCron(ExpressionText(e));
    return r.Some?, r.Some? && Matches(r.value, t);
  }
}
