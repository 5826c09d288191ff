/**
 * Filling a template: the arguments' markers are replaced one key after another, in whatever order a
 * map gives its keys.
 */
module Templates {
  import opened Options
  import opened TemplatePieces

  // ---------------------------------------------------------------- replacing

  function ReplaceAll(s: string, pattern: string, replacement: string): string
    requires pattern != ""
  {
    if |s| < |pattern| then s
    else if pattern <= s then replacement + ReplaceAll(s[|pattern|..], pattern, replacement)
    else [s[0]] + ReplaceAll(s[1..], pattern, replacement)
  }

  function Chars(s: string): seq<Piece> {
    seq(|s|, i requires 0 <= i < |s| => Char(s[i]))
  }

  /** All holes that have an argument replaced at once. */
  function Filled(ps: seq<Piece>, args: map<string, string>): seq<Piece> {
    if ps == [] then []
    else (if ps[0].Hole? && ps[0].name in args then Chars(args[ps[0].name]) else [ps[0]]) + Filled(ps[1..], args)
  }

  lemma {:induction false} FlatOfChars(s: string)
    ensures Flat(Chars(s)) == s
  {
    FlatStep(Chars(s));
    if s != "" {
      FlatOfChars(s[1..]);
      hide Flat;
      assert Chars(s)[1..] == Chars(s[1..]);
    }
  }

  lemma ReplaceHit(pattern: string, rest: string, replacement: string)
    requires pattern != ""
    ensures ReplaceAll(pattern + rest, pattern, replacement) == replacement + ReplaceAll(rest, pattern, replacement)
  {
    assert (pattern + rest)[|pattern|..] == rest;
  }

  lemma ReplaceMiss(c: char, rest: string, pattern: string, replacement: string)
    requires pattern != "" && !(pattern <= [c] + rest)
    ensures ReplaceAll([c] + rest, pattern, replacement) == [c] + ReplaceAll(rest, pattern, replacement)
  {
    assert ([c] + rest)[1..] == rest;
  }

  /** No marker begins with anything but two opening braces. */
  lemma MarkerMiss(c: char, rest: string, key: string, replacement: string)
    requires c != '{' || rest == "" || rest[0] != '{'
    ensures ReplaceAll([c] + rest, Marker(key), replacement) == [c] + ReplaceAll(rest, Marker(key), replacement)
  {
    var m, s := Marker(key), [c] + rest;
    assert m[0] == '{' && m[1] == '{' && |m| >= 2;
    ReplaceMiss(c, rest, Marker(key), replacement);
  }

  lemma {:induction false} PlainMiss(plain: string, rest: string, key: string, replacement: string)
    requires '{' !in plain
    ensures ReplaceAll(plain + rest, Marker(key), replacement) == plain + ReplaceAll(rest, Marker(key), replacement)
  {
    hide ReplaceAll, Marker;
    if plain == "" {
      assert plain + rest == rest;
    } else {
      PlainMiss(plain[1..], rest, key, replacement);
      MarkerMiss(plain[0], plain[1..] + rest, key, replacement);
      assert plain + rest == [plain[0]] + (plain[1..] + rest);
    }
  }

  lemma SameMarker(key: string, name: string, rest: string)
    requires BraceFree(key) && BraceFree(name) && Marker(key) <= Marker(name) + rest
    ensures key == name
  {
    var a, b := Marker(key), Marker(name) + rest;
    assert forall i :: 0 <= i < |a| ==> a[i] == b[i];
    assert forall i :: 0 <= i < |key| ==> a[i + 2] == key[i] && key[i] in key;
    assert forall i :: 0 <= i < |name| ==> b[i + 2] == name[i] && name[i] in name;
    assert a[|key| + 2] == '}' && b[|name| + 2] == '}';
    assert |key| == |name|;
    assert forall i :: 0 <= i < |key| ==> key[i] == name[i];
  }

  lemma OtherMarkerMiss(name: string, rest: string, key: string, replacement: string)
    requires BraceFree(key) && BraceFree(name) && name != "" && key != name
    ensures ReplaceAll(Marker(name) + rest, Marker(key), replacement) == Marker(name) + ReplaceAll(rest, Marker(key), replacement)
  {
    hide ReplaceAll;
    var tail := name + ['}', '}'];
    assert name[0] in name && tail[0] == name[0];
    MarkerSplit(name, rest);
    MarkerSplit(name, ReplaceAll(rest, Marker(key), replacement));
    if Marker(key) <= Marker(name) + rest {
      SameMarker(key, name, rest);
    }
    hide Marker;
    PlainMiss(tail, rest, key, replacement);
    MarkerMiss('{', tail + rest, key, replacement);
    ReplaceMiss('{', ['{'] + (tail + rest), Marker(key), replacement);
  }

  lemma MarkerSplit(name: string, rest: string)
    ensures Marker(name) + rest == ['{'] + (['{'] + (name + ['}', '}'] + rest)) && |Marker(name)| > 3
  {
  }

  /** Some occurrence of the marker begins in the value: the value contains it, or ends in a beginning of it. */
  predicate Disturbs(value: string, key: string) {
    exists i :: 0 <= i < |value| && (Marker(key) <= value[i..] || value[i..] < Marker(key))
  }

  lemma DisturbsStep(value: string, key: string, rest: string)
    requires value != ""
    ensures Disturbs(value[1..], key) ==> Disturbs(value, key)
    ensures Marker(key) <= value + rest ==> Disturbs(value, key)
  {
    hide Marker;
    if i :| 0 <= i < |value| - 1 && (Marker(key) <= value[1..][i..] || value[1..][i..] < Marker(key)) {
      assert value[1..][i..] == value[i + 1..];
    }
    if Marker(key) <= value + rest {
      assert value[0..] == value;
      assert value[0..] < Marker(key) || Marker(key) <= value[0..] by {
        PrefixesCompare(value, Marker(key), value + rest);
      }
    }
  }

  lemma PrefixesCompare(a: string, b: string, s: string)
    requires a <= s && b <= s
    ensures a < b || b <= a
  {
    assert a == s[..|a|] && b == s[..|b|];
  }

  /** A value in which no marker begins is passed over, whatever follows. */
  lemma {:induction false} ValueMiss(value: string, rest: string, key: string, replacement: string)
    requires !Disturbs(value, key)
    ensures ReplaceAll(value + rest, Marker(key), replacement) == value + ReplaceAll(rest, Marker(key), replacement)
  {
    hide ReplaceAll, Disturbs, Marker;
    if value == "" {
      assert value + rest == rest;
    } else {
      DisturbsStep(value, key, rest);
      ValueMiss(value[1..], rest, key, replacement);
      assert value + rest == [value[0]] + (value[1..] + rest);
      MarkerSplit(key, "");
      ReplaceMiss(value[0], value[1..] + rest, Marker(key), replacement) by {
        assert Marker(key) + "" == Marker(key);
      }
    }
  }

  /** What filling makes of one piece. */
  function FilledPiece(p: Piece, args: map<string, string>): string {
    if p.Hole? && p.name in args then args[p.name] else TextOf(p)
  }

  lemma FlatOfFilled(ps: seq<Piece>, args: map<string, string>)
    ensures Flat(Filled(ps, args)) == if ps == [] then "" else FilledPiece(ps[0], args) + Flat(Filled(ps[1..], args))
  {
    if ps != [] {
      var head := if ps[0].Hole? && ps[0].name in args then Chars(args[ps[0].name]) else [ps[0]];
      FlatConcat(head, Filled(ps[1..], args));
      hide Filled;
      FlatStep(head);
      if ps[0].Hole? && ps[0].name in args {
        FlatOfChars(args[ps[0].name]);
      } else {
        FlatStep(head[1..]);
      }
      hide Flat;
    }
  }

  /** A literal brace is followed by a character that is none, or by nothing. */
  lemma FilledBehindBrace(ps: seq<Piece>, args: map<string, string>)
    requires ps != [] && Tidy(ps) && ps[0] == Char('{')
    ensures var rest := Flat(Filled(ps[1..], args)); rest == "" || rest[0] != '{'
  {
    FlatOfFilled(ps[1..], args);
    hide Flat, Filled;
  }

  /**
   * Replacing one marker in a partly filled template fills the holes of that name and touches nothing
   * else, if it begins in no value filled in so far.
   */
  lemma {:induction false} ReplaceIsFilling(ps: seq<Piece>, before: map<string, string>, key: string, value: string)
    requires Tidy(ps) && BraceFree(key) && key !in before
    requires forall a :: a in before && IsName(a) ==> !Disturbs(before[a], key)
    ensures ReplaceAll(Flat(Filled(ps, before)), Marker(key), value) == Flat(Filled(ps, before[key := value]))
  {
    hide Flat, Filled, ReplaceAll, Disturbs, Marker;
    FlatOfFilled(ps, before);
    FlatOfFilled(ps, before[key := value]);
    if ps == [] {
      NothingToReplace(key, value);
    } else {
      ReplaceIsFilling(ps[1..], before, key, value);
      var rest := Flat(Filled(ps[1..], before));
      if ps[0].Char? {
        if ps[0].c == '{' {
          FilledBehindBrace(ps, before);
        }
        MarkerMiss(ps[0].c, rest, key, value);
      } else if ps[0].name in before {
        ValueMiss(before[ps[0].name], rest, key, value);
      } else if ps[0].name == key {
        MarkerSplit(key, rest);
        ReplaceHit(Marker(key), rest, value);
      } else {
        OtherMarkerMiss(ps[0].name, rest, key, value);
      }
    }
  }

  lemma NothingToReplace(key: string, value: string)
    ensures ReplaceAll("", Marker(key), value) == ""
  {
  }

  /** Replacing a marker by itself changes nothing. */
  lemma {:induction false} ReplaceByItself(s: string, pattern: string)
    requires pattern != ""
    ensures ReplaceAll(s, pattern, pattern) == s
    decreases |s|
  {
    if |s| >= |pattern| {
      if pattern <= s {
        ReplaceByItself(s[|pattern|..], pattern);
      } else {
        ReplaceByItself(s[1..], pattern);
      }
    }
  }

  /** Nor does filling a hole with its own marker. */
  lemma {:induction false} FilledByItself(ps: seq<Piece>, before: map<string, string>, key: string)
    requires key !in before
    ensures Flat(Filled(ps, before[key := Marker(key)])) == Flat(Filled(ps, before))
  {
    hide Flat, Filled, Marker;
    FlatOfFilled(ps, before);
    FlatOfFilled(ps, before[key := Marker(key)]);
    if ps != [] {
      FilledByItself(ps[1..], before, key);
    }
  }

  // ---------------------------------------------------------------- filling

  predicate BraceFreeArgs(args: map<string, string>) {
    forall k :: k in args ==> BraceFree(k) && BraceFree(args[k])
  }

  lemma {:induction false} TidyChars(s: string, ps: seq<Piece>)
    requires BraceFree(s) && Tidy(ps)
    ensures Tidy(Chars(s) + ps)
  {
    if s == "" {
      assert Chars(s) + ps == ps;
    } else {
      TidyChars(s[1..], ps);
      assert (Chars(s) + ps)[1..] == Chars(s[1..]) + ps;
      assert s[0] in s;
    }
  }

  /** Filling with brace-free values leaves a template tidy. */
  lemma {:induction false} FilledIsTidy(ps: seq<Piece>, args: map<string, string>)
    requires Tidy(ps) && BraceFreeArgs(args)
    ensures Tidy(Filled(ps, args))
  {
    if ps != [] {
      FilledIsTidy(ps[1..], args);
      var filled := Filled(ps[1..], args);
      if ps[0].Hole? && ps[0].name in args {
        TidyChars(args[ps[0].name], filled);
      } else {
        assert ([ps[0]] + filled)[1..] == filled;
        assert |ps| > 1 && ps[1].Char? ==> filled[0] == ps[1];
      }
    }
  }

  lemma {:induction false} FilledWithNothing(ps: seq<Piece>)
    ensures Filled(ps, map[]) == ps
  {
    if ps != [] {
      FilledWithNothing(ps[1..]);
    }
  }

  /** One replacement after another. */
  function Sequential(s: string, order: seq<string>, args: map<string, string>): string
    requires forall k :: k in order ==> k in args
  {
    if order == [] then s
    else
      var key := order[|order| - 1];
      ReplaceAll(Sequential(s, order[..|order| - 1], args), Marker(key), args[key])
  }

  /** An order of a map's keys. */
  predicate IsOrderOf(order: seq<string>, args: map<string, string>) {
    Distinct(order) && (forall k :: k in order ==> k in args) && (forall k :: k in args ==> k in order)
  }

  predicate Distinct(order: seq<string>) {
    forall i, j :: 0 <= i < j < |order| ==> order[i] != order[j]
  }

  function Restricted(args: map<string, string>, order: seq<string>): map<string, string> {
    map k | k in args && k in order :: args[k]
  }

  lemma RestrictedToNone(args: map<string, string>)
    ensures Restricted(args, []) == map[]
  {
  }

  lemma RestrictedToOneMore(args: map<string, string>, order: seq<string>, key: string)
    requires key in args && Distinct(order + [key])
    ensures Restricted(args, order + [key]) == Restricted(args, order)[key := args[key]] && key !in Restricted(args, order)
  {
    assert (order + [key])[|order|] == key;
    assert forall i :: 0 <= i < |order| ==> (order + [key])[i] == order[i];
  }

  predicate BraceFreeKeys(args: map<string, string>) {
    forall k :: k in args ==> BraceFree(k)
  }

  /**
   * No value that a hole can receive lets a marker of another key begin in it; keys that stand for
   * their own marker do not count, since replacing them changes nothing.
   */
  predicate OrderSafe(args: map<string, string>) {
    forall a, k :: a in args && k in args && a != k && IsName(a) && args[k] != Marker(k) ==> !Disturbs(args[a], k)
  }

  /** Replacing one key after another, in any order, is filling all holes at once. */
  lemma {:induction false} SequentialIsSimultaneous(ps: seq<Piece>, order: seq<string>, args: map<string, string>)
    requires Tidy(ps) && BraceFreeKeys(args) && OrderSafe(args)
    requires Distinct(order) && forall k :: k in order ==> k in args
    ensures Sequential(Flat(ps), order, args) == Flat(Filled(ps, Restricted(args, order)))
  {
    hide Tidy, Filled, ReplaceAll, Flat, Marker, Disturbs, IsName;
    if order == [] {
      RestrictedToNone(args);
      FilledWithNothing(ps);
    } else {
      var init, key := order[..|order| - 1], order[|order| - 1];
      SequentialIsSimultaneous(ps, init, args);
      var before := Restricted(args, init);
      RestrictedToOneMore(args, init, key);
      assert order == init + [key];
      MarkerSplit(key, "");
      if args[key] == Marker(key) {
        ReplaceByItself(Flat(Filled(ps, before)), Marker(key));
        FilledByItself(ps, before, key);
      } else {
        ReplaceIsFilling(ps, before, key, args[key]);
      }
    }
  }

  /** Without braces there is nothing to disturb. */
  lemma BraceFreeIsOrderSafe(args: map<string, string>)
    requires BraceFreeArgs(args)
    ensures BraceFreeKeys(args) && OrderSafe(args)
  {
    forall a, k | a in args && k in args ensures !Disturbs(args[a], k) {
      forall i | 0 <= i < |args[a]| ensures !(Marker(k) <= args[a][i..] || args[a][i..] < Marker(k)) {
        assert args[a][i] in args[a] && args[a][i..][0] == args[a][i] && Marker(k)[0] == '{';
      }
    }
  }

  lemma NoKeyYet(s: string, args: map<string, string>)
    ensures Distinct([]) && Sequential(s, [], args) == s
  {
  }

  lemma OneKeyMore(s: string, order: seq<string>, key: string, args: map<string, string>)
    requires key in args && key !in order && Distinct(order) && forall k :: k in order ==> k in args
    ensures Distinct(order + [key]) && forall k :: k in order + [key] ==> k in args
    ensures Sequential(s, order + [key], args) == ReplaceAll(Sequential(s, order, args), Marker(key), args[key])
  {
    hide ReplaceAll;
    assert (order + [key])[..|order|] == order;
  }

  predicate HasAll(ps: seq<Piece>, args: map<string, string>) {
    forall p :: p in ps && p.Hole? ==> p.name in args
  }

  predicate NoHoles(ps: seq<Piece>) {
    forall p :: p in ps ==> p.Char?
  }

  lemma NoHolesConcat(ps: seq<Piece>, qs: seq<Piece>)
    ensures NoHoles(ps + qs) <==> NoHoles(ps) && NoHoles(qs)
  {
    if NoHoles(ps + qs) {
      forall p | p in ps ensures p.Char? { assert p in ps + qs; }
      forall q | q in qs ensures q.Char? { assert q in ps + qs; }
    }
  }

  lemma HasAllStep(p: Piece, ps: seq<Piece>, args: map<string, string>)
    ensures HasAll([p] + ps, args) <==> (p.Hole? ==> p.name in args) && HasAll(ps, args)
  {
    if HasAll([p] + ps, args) {
      assert ([p] + ps)[0] == p;
      forall q | q in ps && q.Hole? ensures q.name in args { assert q in [p] + ps; }
    }
  }

  /** A tidy text has no names to supply exactly when it has no holes. */
  lemma {:induction false} NoNamesMeansNoHoles(ps: seq<Piece>)
    requires forall p :: p in ps && p.Hole? ==> IsName(p.name)
    ensures Names(ps) == [] <==> NoHoles(ps)
  {
    if ps != [] {
      var init, p := ps[..|ps| - 1], ps[|ps| - 1];
      NoNamesMeansNoHoles(init);
      assert ps == init + [p];
      NoHolesConcat(init, [p]);
      assert p in ps && (p.Hole? ==> IsName(p.name));
      assert [p][0] == p;
    }
  }

  lemma {:induction false} TidyHoles(ps: seq<Piece>)
    requires Tidy(ps)
    ensures forall p :: p in ps && p.Hole? ==> IsName(p.name)
  {
    if ps != [] {
      TidyHoles(ps[1..]);
      hide IsName;
      assert ps == [ps[0]] + ps[1..];
    }
  }

  lemma CharsAreNoHoles(s: string)
    ensures NoHoles(Chars(s))
  {
    assert forall i :: 0 <= i < |s| ==> Chars(s)[i].Char?;
  }

  lemma FilledNext(ps: seq<Piece>, args: map<string, string>) returns (head: seq<Piece>)
    requires ps != []
    ensures Filled(ps, args) == head + Filled(ps[1..], args)
    ensures NoHoles(head) <==> (ps[0].Hole? ==> ps[0].name in args)
  {
    head := if ps[0].Hole? && ps[0].name in args then Chars(args[ps[0].name]) else [ps[0]];
    if ps[0].Hole? && ps[0].name in args {
      CharsAreNoHoles(args[ps[0].name]);
    } else {
      assert head[0] == ps[0] && ps[0] in head;
    }
  }

  lemma {:induction false} NoHolesLeft(ps: seq<Piece>, args: map<string, string>)
    ensures HasAll(ps, args) <==> NoHoles(Filled(ps, args))
  {
    if ps != [] {
      var head := FilledNext(ps, args);
      NoHolesLeft(ps[1..], args);
      hide Filled, HasAll, NoHoles;
      NoHolesConcat(head, Filled(ps[1..], args));
      HasAllStep(ps[0], ps[1..], args);
      assert ps == [ps[0]] + ps[1..];
    }
  }

  datatype FillResult =
    | Done(text: string)
    | LostArgs(names: seq<string>)
    | NotFound
    | BadArgs

  function Checked(s: string): FillResult {
    if Names(Pieces(s)) == [] then Done(s) else LostArgs(Names(Pieces(s)))
  }

  lemma CheckedMeans(s: string)
    ensures Checked(s) == if |Names(Pieces(s))| > 0 then LostArgs(Names(Pieces(s))) else Done(s)
  {
  }

  /**
   * For a template that is tidy once normalised, and arguments without braces, filling replaces all
   * holes at once whatever the order of the keys, and succeeds exactly when every hole has an argument.
   */
  lemma FillingIsSimultaneous(raw: string, order: seq<string>, args: map<string, string>)
    requires Tidy(TrimmedAll(Pieces(raw))) && BraceFreeArgs(args)
    requires IsOrderOf(order, args)
    ensures var ps := TrimmedAll(Pieces(raw));
      Checked(Sequential(Normalised(raw), order, args)) ==
        if HasAll(ps, args) then Done(Flat(Filled(ps, args))) else LostArgs(Names(Filled(ps, args)))
  {
    var ps := TrimmedAll(Pieces(raw));
    BraceFreeIsOrderSafe(args);
    SequentialIsSimultaneous(ps, order, args);
    assert Restricted(args, order) == args;
    var filled := Filled(ps, args);
    FilledIsTidy(ps, args);
    PiecesOfFlat(filled);
    TidyHoles(filled);
    NoNamesMeansNoHoles(filled);
    NoHolesLeft(ps, args);
    hide Tidy, Filled, Names, Flat, HasAll, Sequential, TrimmedAll, NoHoles;
  }

  // ---------------------------------------------------------------- the store

  datatype Value = Str(s: string) | Number(printed: string) | Unsupported

  datatype Template = Template(id: string, template: string, args: seq<string>)

  predicate AllSupported(h: map<string, Value>) {
    forall k :: k in h ==> !h[k].Unsupported?
  }

  function PrintedValue(v: Value): string
    requires !v.Unsupported?
  {
    if v.Str? then v.s else v.printed
  }

  function Printed(h: map<string, Value>): map<string, string> {
    map k | k in h && !h[k].Unsupported? :: PrintedValue(h[k])
  }

  /** The template's text with every argument in place: a string as it is, a number as it is printed. */
  function Expected(ps: seq<Piece>, arg: map<string, Value>): string
    requires forall p :: p in ps && p.Hole? ==> p.name in arg
  {
    if ps == [] then []
    else
      var here := match ps[0]
        case Char(c) => [c]
        case Hole(name) =>
          match arg[name]
          case Str(s) => s
          case Number(printed) => printed
          case Unsupported => [];
      here + Expected(ps[1..], arg)
  }

  lemma {:induction false} FilledAsExpected(ps: seq<Piece>, arg: map<string, Value>)
    requires AllSupported(arg) && forall p :: p in ps && p.Hole? ==> p.name in arg
    ensures Flat(Filled(ps, Printed(arg))) == Expected(ps, arg)
  {
    FlatOfFilled(ps, Printed(arg));
    hide Flat, Filled;
    if ps != [] {
      assert ps[0] in ps && forall p :: p in ps[1..] ==> p in ps;
      FilledAsExpected(ps[1..], arg);
    }
  }

  /** Filling a tidy template with arguments without braces, one for every hole, puts each argument in its place. */
  lemma ArgumentsAppear(raw: string, order: seq<string>, arg: map<string, Value>)
    requires Tidy(TrimmedAll(Pieces(raw))) && AllSupported(arg) && BraceFreeArgs(Printed(arg)) && IsOrderOf(order, Printed(arg))
    requires forall p :: p in TrimmedAll(Pieces(raw)) && p.Hole? ==> p.name in arg
    ensures Checked(Sequential(Normalised(raw), order, Printed(arg))) == Done(Expected(TrimmedAll(Pieces(raw)), arg))
  {
    hide Tidy, Filled, Names, Flat, Sequential, TrimmedAll, Pieces, Checked, Expected, BraceFreeArgs, IsOrderOf;
    FillingIsSimultaneous(raw, order, Printed(arg));
    FilledAsExpected(TrimmedAll(Pieces(raw)), arg);
  }

  method ToMapString(h: map<string, Value>) returns (r: Option<map<string, string>>)
    ensures r == if AllSupported(h) then Some(Printed(h)) else None
  {
    var result: map<string, string>, todo := map[], h.Keys;
    while todo != {}
      invariant todo <= h.Keys && forall k :: k in h && k !in todo ==> !h[k].Unsupported?
      invariant result == map k | k in h && k !in todo && !h[k].Unsupported? :: PrintedValue(h[k])
      decreases |todo|
    {
      var k :| k in todo;
      todo := todo - {k};
      match h[k]
      case Str(s) => result := result[k := s];
      case Number(printed) => result := result[k := printed];
      case Unsupported => return None;
    }
    assert result == Printed(h);
    return Some(result);
  }

  predicate FirstWithId(templates: seq<Template>, id: string, i: int) {
    0 <= i < |templates| && templates[i].id == id && forall j :: 0 <= j < i ==> templates[j].id != id
  }

  class TemplateStore {
    var templates: seq<Template>

    constructor ()
      ensures templates == []
    {
      templates := [];
    }

    method NewMarkdownTemplate(id: string, template: string)
      modifies this
      ensures templates == old(templates) + [Template(id, Normalised(template), Names(Pieces(template)))]
    {
      var result, args := ProcessTemplate(template);
      templates := templates + [Template(id, result, args)];
    }

    method IsMarkdownTemplateExit(id: string) returns (found: bool)
      ensures found <==> exists i :: FirstWithId(templates, id, i)
    {
      for k := 0 to |templates|
        invariant forall j :: 0 <= j < k ==> templates[j].id != id
      {
        if templates[k].id == id {
          assert FirstWithId(templates, id, k);
          return true;
        }
      }
      return false;
    }

    /** The keys come in no particular order. */
    method FillMarkdownTemplate(id: string, arg: map<string, Value>) returns (r: FillResult)
      ensures !AllSupported(arg) ==> r == BadArgs
      ensures AllSupported(arg) && (forall i :: !FirstWithId(templates, id, i)) ==> r == NotFound
      ensures AllSupported(arg) ==> forall i :: FirstWithId(templates, id, i) ==>
        exists order :: IsOrderOf(order, Printed(arg)) && r == Checked(Sequential(templates[i].template, order, Printed(arg)))
    {
      hide Names, Pieces;
      var args := ToMapString(arg);
      if args.None? {
        return BadArgs;
      }
      for i := 0 to |templates|
        invariant forall j :: 0 <= j < i ==> templates[j].id != id
      {
        if templates[i].id == id {
          assert FirstWithId(templates, id, i);
          r := FillOne(templates[i].template, args.value);
          return;
        }
      }
      return NotFound;
    }

    /** The body of the search loop, for the template found. */
    method FillOne(text: string, args: map<string, string>) returns (r: FillResult)
      ensures exists order :: IsOrderOf(order, args) && r == Checked(Sequential(text, order, args))
    {
      hide Names, Pieces, Sequential, ReplaceAll, Distinct, Checked;
      var template, todo := text, args.Keys;
      ghost var order: seq<string> := [];
      NoKeyYet(text, args);
      while todo != {}
        invariant todo <= args.Keys && Distinct(order) && forall k :: k in order <==> k in args && k !in todo
        invariant template == Sequential(text, order, args)
        decreases |todo|
      {
        var key :| key in todo;
        todo := todo - {key};
        template := ReplaceAll(template, Marker(key), args[key]);
        OneKeyMore(text, order, key, args);
        order := order + [key];
      }
      var processed, afterDo := ProcessTemplate(template);
      CheckedMeans(template);
      if |afterDo| > 0 {
        return LostArgs(afterDo);
      }
      return Done(template);
    }
  }
}
