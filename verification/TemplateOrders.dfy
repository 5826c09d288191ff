/** For which arguments the order in which a map gives its keys has no influence on filling. */
module TemplateOrders {
  import opened TemplatePieces
  import opened Templates

  predicate IsTidyTemplate(raw: string) {
    Tidy(TrimmedAll(Pieces(raw)))
  }

  /** Every tidy template is filled alike whatever the order of the keys. */
  ghost predicate OrderFree(args: map<string, string>) {
    forall raw, first, second :: IsTidyTemplate(raw) && IsOrderOf(first, args) && IsOrderOf(second, args) ==>
      Sequential(Normalised(raw), first, args) == Sequential(Normalised(raw), second, args)
  }

  /** In every tidy template all holes are filled as if at once. */
  ghost predicate AlwaysSimultaneous(args: map<string, string>) {
    forall raw, order :: IsTidyTemplate(raw) && IsOrderOf(order, args) ==>
      Sequential(Normalised(raw), order, args) == Flat(Filled(TrimmedAll(Pieces(raw)), args))
  }

  // ---------------------------------------------------------------- replacing changes something

  lemma {:induction false} ReplaceLength(s: string, pattern: string, replacement: string)
    requires pattern != ""
    ensures |replacement| >= |pattern| ==> |ReplaceAll(s, pattern, replacement)| >= |s|
    ensures |replacement| <= |pattern| ==> |ReplaceAll(s, pattern, replacement)| <= |s|
    decreases |s|
  {
    if |s| >= |pattern| {
      if pattern <= s {
        ReplaceLength(s[|pattern|..], pattern, replacement);
      } else {
        ReplaceLength(s[1..], pattern, replacement);
      }
    }
  }

  /** Replacing a pattern that occurs by anything else changes the text. */
  lemma {:induction false} ReplaceChanges(s: string, i: nat, pattern: string, replacement: string)
    requires pattern != "" && i <= |s| && pattern <= s[i..] && replacement != pattern
    ensures ReplaceAll(s, pattern, replacement) != s
    decreases |s|
  {
    if pattern <= s {
      var tail := s[|pattern|..];
      assert s == pattern + tail;
      ReplaceHit(pattern, tail, replacement);
      ReplaceLength(tail, pattern, replacement);
      hide ReplaceAll;
      var replaced := ReplaceAll(tail, pattern, replacement);
      if |replacement| == |pattern| {
        assert (replacement + replaced)[..|pattern|] == replacement && s[..|pattern|] == pattern;
      }
    } else {
      assert s[0..] == s;
      var tail := s[1..];
      assert s == [s[0]] + tail && tail[i - 1..] == s[i..];
      ReplaceChanges(tail, i - 1, pattern, replacement);
      ReplaceMiss(s[0], tail, pattern, replacement);
    }
  }

  // ---------------------------------------------------------------- ends of markers

  /** A text in which no two opening braces stand side by side, as behind the first brace of a marker. */
  predicate IsMarkerEnd(s: string) {
    forall i :: 1 <= i < |s| ==> s[i] != '{'
  }

  lemma {:induction false} TidyEnd(s: string)
    requires IsMarkerEnd(s)
    ensures Tidy(Chars(s))
  {
    if s != "" {
      TidyEnd(s[1..]);
      assert Chars(s)[1..] == Chars(s[1..]);
    }
  }

  lemma EndMiss(s: string, key: string, replacement: string)
    requires IsMarkerEnd(s)
    ensures ReplaceAll(s, Marker(key), replacement) == s
  {
    NothingToReplace(key, replacement);
    if s != "" {
      var tail := s[1..];
      assert '{' !in tail;
      PlainMiss(tail, "", key, replacement);
      hide ReplaceAll, Marker;
      assert tail + "" == tail && tail + ReplaceAll("", Marker(key), replacement) == tail;
      MarkerMiss(s[0], tail, key, replacement);
      assert s == [s[0]] + tail;
    }
  }

  /** The text of one hole and the end of a marker, under replacements for other keys and for its own. */
  lemma HoleAndEnd(name: string, end: string, key: string, replacement: string)
    requires IsName(name) && BraceFree(key) && IsMarkerEnd(end)
    ensures ReplaceAll(Marker(name) + end, Marker(key), replacement) ==
      (if key == name then replacement else Marker(name)) + end
  {
    hide ReplaceAll, Marker;
    EndMiss(end, key, replacement);
    MarkerSplit(key, "");
    if key == name {
      ReplaceHit(Marker(key), end, replacement);
    } else {
      OtherMarkerMiss(name, end, key, replacement);
    }
  }

  lemma {:induction false} OthersPass(name: string, end: string, order: seq<string>, args: map<string, string>)
    requires IsName(name) && IsMarkerEnd(end) && BraceFreeKeys(args)
    requires name !in order && forall k :: k in order ==> k in args
    ensures Sequential(Marker(name) + end, order, args) == Marker(name) + end
  {
    hide ReplaceAll, Marker, IsName, IsMarkerEnd;
    if order != [] {
      var key := order[|order| - 1];
      assert key in order;
      OthersPass(name, end, order[..|order| - 1], args);
      HoleAndEnd(name, end, key, args[key]);
    }
  }

  // ---------------------------------------------------------------- orders

  lemma {:induction false} SomeOrder(keys: set<string>) returns (order: seq<string>)
    ensures Distinct(order) && forall k :: k in order <==> k in keys
    decreases |keys|
  {
    if keys == {} {
      order := [];
    } else {
      var k :| k in keys;
      order := SomeOrder(keys - {k});
      order := order + [k];
    }
  }

  /** The keys in some order, but for these two, which come last. */
  lemma WithLastTwo(others: seq<string>, x: string, y: string, args: map<string, string>)
    requires Distinct(others) && x in args && y in args && x != y
    requires forall k :: k in others <==> k in args && k != x && k != y
    ensures IsOrderOf(others + [x] + [y], args)
  {
    assert forall k :: k in others + [x] + [y] <==> k in others || k == x || k == y;
  }

  lemma SequentialThenTwo(s: string, others: seq<string>, x: string, y: string, args: map<string, string>)
    requires IsOrderOf(others + [x] + [y], args) && x in args && y in args && forall k :: k in others ==> k in args
    ensures Sequential(s, others + [x] + [y], args) ==
      ReplaceAll(ReplaceAll(Sequential(s, others, args), Marker(x), args[x]), Marker(y), args[y])
  {
    hide ReplaceAll;
    var some := others + [x];
    assert (some + [y])[..|some|] == some && some[..|others|] == others;
  }

  // ---------------------------------------------------------------- when the order matters

  /** What completes the marker that begins in a value. */
  lemma Completion(value: string, key: string) returns (end: string, i: nat)
    requires Disturbs(value, key) && BraceFree(key)
    ensures i <= |value| && IsMarkerEnd(end) && Marker(key) <= (value + end)[i..]
  {
    var m := Marker(key);
    i :| 0 <= i < |value| && (m <= value[i..] || value[i..] < m);
    assert forall j :: 2 <= j < |m| ==> m[j] != '{' by {
      assert forall j :: 0 <= j < |key| ==> key[j] in key;
    }
    if m <= value[i..] {
      end := "";
      assert value + end == value;
    } else {
      var n := |value| - i;
      end := m[n..];
      assert m == value[i..] + end;
      assert (value + end)[i..] == value[i..] + end;
    }
  }

  lemma TidyHoleAndEnd(name: string, end: string) returns (raw: string)
    requires IsName(name) && IsMarkerEnd(end)
    ensures IsTidyTemplate(raw) && Normalised(raw) == Marker(name) + end
  {
    var ps := [Hole(name)] + Chars(end);
    raw := Flat(ps);
    TidyEnd(end);
    FlatConcat([Hole(name)], Chars(end));
    FlatOfChars(end);
    assert ps[1..] == Chars(end) && [Hole(name)][1..] == [];
    FlatStep([Hole(name)]);
    FlatStep([]);
    assert Tidy(ps);
    hide Tidy, Flat;
    PiecesOfFlat(ps);
    TidyIsTrimmed(ps);
    assert Marker(name) + [] == Marker(name);
  }

  /** Where a marker begins in the value of another key, some tidy template is filled in two ways. */
  lemma OrderMatters(args: map<string, string>, a: string, k: string) returns (raw: string, first: seq<string>, second: seq<string>)
    requires BraceFreeKeys(args) && a in args && k in args && a != k && IsName(a)
    requires args[k] != Marker(k) && Disturbs(args[a], k)
    ensures IsTidyTemplate(raw) && IsOrderOf(first, args) && IsOrderOf(second, args)
    ensures Sequential(Normalised(raw), first, args) != Sequential(Normalised(raw), second, args)
  {
    hide Tidy, ReplaceAll, Sequential, Normalised, Disturbs, IsName, IsMarkerEnd, Marker, Distinct, IsOrderOf, IsTidyTemplate;
    var end, i := Completion(args[a], k);
    raw := TidyHoleAndEnd(a, end);
    var others := SomeOrder(args.Keys - {a, k});
    first, second := others + [k] + [a], others + [a] + [k];
    WithLastTwo(others, k, a, args);
    WithLastTwo(others, a, k, args);
    OthersPass(a, end, others, args);
    SequentialThenTwo(Normalised(raw), others, k, a, args);
    SequentialThenTwo(Normalised(raw), others, a, k, args);
    HoleAndEnd(a, end, k, args[k]);
    HoleAndEnd(a, end, a, args[a]);
    MarkerSplit(k, "");
    ReplaceChanges(args[a] + end, i, Marker(k), args[k]);
  }

  /**
   * Filling does not depend on the order of the keys, and fills all holes as if at once, exactly when
   * no value that a hole can receive lets the marker of another key begin in it, keys that stand for
   * their own marker aside.
   */
  lemma OrderFreeExactlyWhenSafe(args: map<string, string>)
    requires BraceFreeKeys(args)
    ensures OrderFree(args) <==> OrderSafe(args)
    ensures AlwaysSimultaneous(args) <==> OrderSafe(args)
  {
    hide Tidy, Filled, Sequential, Normalised, Disturbs, Marker, IsName, Flat, BraceFree, Pieces, TrimmedAll;
    if OrderSafe(args) {
      forall raw, order | IsTidyTemplate(raw) && IsOrderOf(order, args)
        ensures Sequential(Normalised(raw), order, args) == Flat(Filled(TrimmedAll(Pieces(raw)), args))
      {
        SafeIsSimultaneous(raw, order, args);
      }
    } else {
      var a, k :| a in args && k in args && a != k && IsName(a) && args[k] != Marker(k) && Disturbs(args[a], k);
      var raw, first, second := OrderMatters(args, a, k);
    }
  }

  lemma SafeIsSimultaneous(raw: string, order: seq<string>, args: map<string, string>)
    requires BraceFreeKeys(args) && OrderSafe(args) && IsTidyTemplate(raw) && IsOrderOf(order, args)
    ensures Sequential(Normalised(raw), order, args) == Flat(Filled(TrimmedAll(Pieces(raw)), args))
  {
    SequentialIsSimultaneous(TrimmedAll(Pieces(raw)), order, args);
    assert Restricted(args, order) == args;
  }

  // ---------------------------------------------------------------- two sets of arguments

  /** A value that holds a marker is filled again, or not, as the order of the keys has it. */
  lemma BracesMakeOrderMatter(a: string, b: string, value: string)
    requires IsName(a) && IsName(b) && a != b && BraceFree(value)
    ensures Sequential(Marker(a), [a, b], map[a := Marker(b), b := value]) == value
    ensures Sequential(Marker(a), [b, a], map[a := Marker(b), b := value]) == Marker(b)
  {
    var args := map[a := Marker(b), b := value];
    SequentialOfTwo(Marker(a), a, b, args);
    SequentialOfTwo(Marker(a), b, a, args);
    OneMarker(a, a, Marker(b));
    OneMarker(a, b, value);
    OneMarker(b, b, value);
  }

  lemma SequentialOfTwo(s: string, a: string, b: string, args: map<string, string>)
    requires a in args && b in args
    ensures Sequential(s, [a, b], args) == ReplaceAll(ReplaceAll(s, Marker(a), args[a]), Marker(b), args[b])
  {
    hide ReplaceAll;
    assert [a, b][..1] == [a] && [a][..0] == [];
    assert Sequential(s, [a], args) == ReplaceAll(Sequential(s, [], args), Marker(a), args[a]);
  }

  lemma OneMarker(name: string, key: string, value: string)
    requires IsName(name) && BraceFree(key)
    ensures ReplaceAll(Marker(name), Marker(key), value) == if name == key then value else Marker(name)
  {
    assert Marker(name) + [] == Marker(name);
    if name == key {
      ReplaceHit(Marker(key), [], value);
      assert value + [] == value;
    } else {
      OtherMarkerMiss(name, [], key, value);
    }
  }

  lemma EndOfMarker(name: string)
    requires BraceFree(name)
    ensures IsMarkerEnd(['{'] + name + ['}', '}']) && ['{'] + (['{'] + name + ['}', '}']) == Marker(name)
  {
    assert forall j :: 0 <= j < |name| ==> name[j] in name;
  }

  /** A value that ends in an opening brace completes a marker with the text behind its hole, or does not. */
  lemma OpenBraceMakesOrderMatter(a: string, b: string, value: string)
    requires IsName(a) && IsName(b) && a != b && BraceFree(value)
    ensures var s, args := Marker(a) + (['{'] + b + ['}', '}']), map[a := ['{'], b := value];
      && Sequential(s, [a, b], args) == value
      && Sequential(s, [b, a], args) == Marker(b)
  {
    var end, args := ['{'] + b + ['}', '}'], map[a := ['{'], b := value];
    EndOfMarker(b);
    hide ReplaceAll, Marker, IsMarkerEnd, IsName, Sequential;
    SequentialOfTwo(Marker(a) + end, a, b, args);
    SequentialOfTwo(Marker(a) + end, b, a, args);
    HoleAndEnd(a, end, a, ['{']);
    HoleAndEnd(a, end, b, value);
    OneMarker(b, b, value);
  }
}
