/** Markdown templates with {{ holes }}: what their holes are, and how they are normalised when stored. */
module TemplatePieces {
  import opened Options
  import opened Text

  /** A text as the pattern \{\{(.*?)\}\} cuts it: holes, and characters that belong to none. */
  datatype Piece = Char(c: char) | Hole(name: string)

  function Marker(name: string): string {
    ['{', '{'] + name + ['}', '}']
  }

  predicate Opens(s: string) {
    |s| >= 2 && s[0] == '{' && s[1] == '{'
  }

  predicate Closes(s: string) {
    |s| >= 2 && s[0] == '}' && s[1] == '}'
  }

  /** Where the nearest end of a hole lies, if it comes before the end of the line. */
  function ToClose(s: string): (r: Option<nat>)
    ensures r.Some? ==> r.value + 2 <= |s| && Closes(s[r.value..]) && '\n' !in s[..r.value]
    ensures r.Some? ==> forall i :: 0 <= i < r.value ==> !Closes(s[i..])
  {
    if Closes(s) then Some(0)
    else if s == "" || s[0] == '\n' then None
    else
      var r := ToClose(s[1..]);
      if r.None? then None
      else
        assert forall i :: 0 < i <= r.value ==> s[i..] == s[1..][i - 1..];
        assert s[..r.value + 1] == [s[0]] + s[1..][..r.value];
        Some(r.value + 1)
  }

  function TextOf(p: Piece): string {
    if p.Char? then [p.c] else Marker(p.name)
  }

  /** The piece a text begins with, and the rest. */
  function Cut(s: string): (r: (Piece, string))
    requires s != ""
    ensures s == TextOf(r.0) + r.1
  {
    var n := if Opens(s) then ToClose(s[2..]) else None;
    if n.Some? then
      assert s[2..][n.value..][0] == s[n.value + 2] && s[2..][n.value..][1] == s[n.value + 3];
      (Hole(s[2..n.value + 2]), s[n.value + 4..])
    else (Char(s[0]), s[1..])
  }

  function Pieces(s: string): seq<Piece> {
    if s == "" then [] else [Cut(s).0] + Pieces(Cut(s).1)
  }

  function Flat(ps: seq<Piece>): string {
    if ps == [] then "" else TextOf(ps[0]) + Flat(ps[1..])
  }

  function Trimmed(p: Piece): Piece {
    if p.Char? then p else Hole(TrimSpace(p.name))
  }

  function TrimmedAll(ps: seq<Piece>): (qs: seq<Piece>)
    ensures |qs| == |ps|
  {
    seq(|ps|, i requires 0 <= i < |ps| => Trimmed(ps[i]))
  }

  function Normalised(s: string): string {
    Flat(TrimmedAll(Pieces(s)))
  }

  /** The names to supply, each once, in the order of their first holes. */
  function Names(ps: seq<Piece>): seq<string> {
    if ps == [] then []
    else
      var names, p := Names(ps[..|ps| - 1]), Trimmed(ps[|ps| - 1]);
      if p.Char? || p.name == "" || p.name in names then names else names + [p.name]
  }

  lemma FlatStep(ps: seq<Piece>)
    ensures Flat(ps) == if ps == [] then "" else TextOf(ps[0]) + Flat(ps[1..])
  {
  }

  lemma {:induction false} FlatConcat(ps: seq<Piece>, qs: seq<Piece>)
    ensures Flat(ps + qs) == Flat(ps) + Flat(qs)
  {
    FlatStep(ps);
    FlatStep(ps + qs);
    hide Flat, TextOf;
    if ps == [] {
      assert ps + qs == qs;
    } else {
      FlatConcat(ps[1..], qs);
      assert (ps + qs)[1..] == ps[1..] + qs;
      assert TextOf(ps[0]) + (Flat(ps[1..]) + Flat(qs)) == TextOf(ps[0]) + Flat(ps[1..]) + Flat(qs);
    }
  }

  lemma FlatSnoc(ps: seq<Piece>, p: Piece)
    ensures Flat(ps + [p]) == Flat(ps) + TextOf(p)
  {
    FlatConcat(ps, [p]);
    assert [p][1..] == [];
  }

  /** Cutting a text into pieces loses nothing. */
  lemma {:induction false} FlatOfPieces(s: string)
    ensures Flat(Pieces(s)) == s
    decreases |s|
  {
    if s != "" {
      hide TextOf;
      FlatOfPieces(Cut(s).1);
      FlatStep(Pieces(s));
      assert Pieces(s)[1..] == Pieces(Cut(s).1);
      hide Flat;
    }
  }

  // ---------------------------------------------------------------- normalising

  lemma PiecesStep(s: string)
    ensures Pieces(s) == if s == "" then [] else [Cut(s).0] + Pieces(Cut(s).1)
    ensures s != "" ==> |Cut(s).1| < |s|
  {
  }

  lemma ProcessNothing()
    ensures Flat(TrimmedAll([])) == "" && Names([]) == []
  {
  }

  lemma ProcessStep(done: seq<Piece>, p: Piece)
    ensures Flat(TrimmedAll(done + [p])) == Flat(TrimmedAll(done)) + (if p.Char? then [p.c] else Marker(TrimSpace(p.name)))
    ensures Names(done + [p]) ==
      if p.Char? || TrimSpace(p.name) == "" || TrimSpace(p.name) in Names(done) then Names(done)
      else Names(done) + [TrimSpace(p.name)]
  {
    hide Flat, TrimSpace;
    FlatSnoc(TrimmedAll(done), Trimmed(p));
    assert TrimmedAll(done + [p]) == TrimmedAll(done) + [Trimmed(p)];
    assert (done + [p])[..|done|] == done;
  }

  /** Normalises a template and collects the names of its holes. */
  method ProcessTemplate(input: string) returns (result: string, args: seq<string>)
    ensures result == Flat(TrimmedAll(Pieces(input))) && args == Names(Pieces(input))
  {
    hide *;
    var seen: set<string> := {};
    result, args := "", [];
    var rest := input;
    ghost var done: seq<Piece> := [];
    ProcessNothing();
    assert [] + Pieces(input) == Pieces(input);
    while rest != ""
      invariant Pieces(input) == done + Pieces(rest)
      invariant result == Flat(TrimmedAll(done)) && args == Names(done)
      invariant seen == set a | a in args
      decreases |rest|
    {
      var (p, after) := Cut(rest);
      PiecesStep(rest);
      ProcessStep(done, p);
      assert done + ([p] + Pieces(after)) == done + [p] + Pieces(after);
      if p.Hole? {
        var trimmed := TrimSpace(p.name);
        if trimmed != "" && trimmed !in seen {
          seen := seen + {trimmed};
          args := args + [trimmed];
        }
        result := result + Marker(trimmed);
      } else {
        result := result + [p.c];
      }
      rest := after;
      done := done + [p];
    }
    PiecesStep(rest);
    assert done == Pieces(input);
  }

  /** The hole asks for this name. */
  predicate Asks(p: Piece, name: string) {
    p.Hole? && name != "" && TrimSpace(p.name) == name
  }

  predicate Asked(ps: seq<Piece>, name: string) {
    exists p :: p in ps && Asks(p, name)
  }

  lemma AskedStep(init: seq<Piece>, p: Piece, name: string)
    ensures Asked(init + [p], name) <==> Asked(init, name) || Asks(p, name)
  {
    hide Asks;
    var ps := init + [p];
    assert p in ps && forall q :: q in init ==> q in ps;
    assert forall q :: q in ps ==> q in init || q == p;
  }

  /** The names collected are those some hole asks for. */
  lemma {:induction false} NamesAreAsked(ps: seq<Piece>, name: string)
    ensures name in Names(ps) <==> Asked(ps, name)
  {
    if ps != [] {
      var init, p := ps[..|ps| - 1], ps[|ps| - 1];
      NamesAreAsked(init, name);
      NamesStep(init, p);
      assert ps == init + [p];
      AsksTrimmed(p);
      hide Names, TrimSpace, Asked, Asks;
      AskedStep(init, p, name);
    }
  }

  /** Each is collected once, and a longer text only adds names at the end. */
  lemma {:induction false} NamesAreDistinct(ps: seq<Piece>)
    ensures forall i, j :: 0 <= i < j < |Names(ps)| ==> Names(ps)[i] != Names(ps)[j]
    ensures ps != [] ==> Names(ps[..|ps| - 1]) <= Names(ps)
  {
    if ps != [] {
      var init, p := ps[..|ps| - 1], ps[|ps| - 1];
      NamesAreDistinct(init);
      NamesStep(init, p);
      assert ps == init + [p];
      hide Names, TrimSpace;
    }
  }

  lemma AsksTrimmed(p: Piece)
    ensures forall n :: Asks(p, n) <==> p.Hole? && TrimSpace(p.name) != "" && n == TrimSpace(p.name)
  {
    hide TrimSpace;
  }

  lemma NamesStep(init: seq<Piece>, p: Piece)
    ensures Names(init + [p]) ==
      if p.Char? || TrimSpace(p.name) == "" || TrimSpace(p.name) in Names(init) then Names(init)
      else Names(init) + [TrimSpace(p.name)]
  {
    hide TrimSpace;
    assert (init + [p])[..|init|] == init;
  }

  // ---------------------------------------------------------------- tidy templates

  predicate BraceFree(s: string) {
    '{' !in s && '}' !in s
  }

  /** A name that normalising leaves alone and that no marker can be mistaken for. */
  predicate IsName(s: string) {
    s != "" && BraceFree(s) && '\n' !in s && TrimSpace(s) == s
  }

  /** Holes have proper names, and no literal brace stands before another one or before a hole. */
  predicate Tidy(ps: seq<Piece>) {
    ps == [] || (
      && (ps[0].Hole? ==> IsName(ps[0].name))
      && (ps[0] == Char('{') && |ps| > 1 ==> ps[1].Char? && ps[1].c != '{')
      && Tidy(ps[1..]))
  }

  /** The braces after the name are the first that close. */
  predicate ClosesFirst(name: string, rest: string) {
    '\n' !in name && forall i :: 0 <= i < |name| && name[i] == '}' ==> (name + ['}', '}'] + rest)[i + 1] != '}'
  }

  lemma {:induction false} ClosesAfterName(name: string, rest: string)
    requires ClosesFirst(name, rest)
    ensures ToClose(name + ['}', '}'] + rest) == Some(|name|)
  {
    var s := name + ['}', '}'] + rest;
    if name == "" {
      assert Closes(s);
    } else {
      assert s[0] == name[0] && s[1..] == name[1..] + ['}', '}'] + rest;
      ClosesAfterName(name[1..], rest);
    }
  }

  lemma MarkerParts(name: string, rest: string)
    ensures var s := Marker(name) + rest;
      && Opens(s) && s[2..] == name + ['}', '}'] + rest
      && s[2..|name| + 2] == name && s[|name| + 4..] == rest
  {
  }

  lemma CutAfterName(name: string, rest: string)
    requires ClosesFirst(name, rest)
    ensures Cut(Marker(name) + rest) == (Hole(name), rest)
  {
    ClosesAfterName(name, rest);
    MarkerParts(name, rest);
    hide Marker, Opens, ToClose, ClosesFirst;
  }

  lemma CutMarker(name: string, rest: string)
    requires BraceFree(name) && '\n' !in name
    ensures Cut(Marker(name) + rest) == (Hole(name), rest)
  {
    CutAfterName(name, rest);
  }

  lemma CutChar(c: char, rest: string)
    requires c == '{' && rest != "" ==> rest[0] != '{'
    ensures Cut([c] + rest) == (Char(c), rest)
  {
    var s := [c] + rest;
    assert s[0] == c && s[1..] == rest;
    assert |s| >= 2 ==> s[1] == rest[0];
    assert !Opens(s);
  }

  lemma FlatBegins(ps: seq<Piece>)
    requires ps != [] && ps[0].Char?
    ensures Flat(ps) != "" && Flat(ps)[0] == ps[0].c
  {
  }

  /** The text of tidy pieces is cut into these pieces again. */
  lemma {:induction false} PiecesOfFlat(ps: seq<Piece>)
    requires Tidy(ps)
    ensures Pieces(Flat(ps)) == ps
  {
    FlatStep(ps);
    if ps != [] {
      PiecesOfFlat(ps[1..]);
      hide Pieces;
      var s, rest := Flat(ps), Flat(ps[1..]);
      if ps[0].Char? {
        if |ps| > 1 && ps[1].Char? {
          FlatBegins(ps[1..]);
        } else if |ps| == 1 {
          FlatStep(ps[1..]);
        }
        CutChar(ps[0].c, rest);
      } else {
        CutMarker(ps[0].name, rest);
      }
      hide Flat, Cut;
      PiecesStep(s);
      assert ps == [ps[0]] + ps[1..];
    } else {
      PiecesStep("");
    }
  }

  lemma {:induction false} TidyIsTrimmed(ps: seq<Piece>)
    requires Tidy(ps)
    ensures TrimmedAll(ps) == ps
  {
    if ps != [] {
      TidyIsTrimmed(ps[1..]);
      assert TrimmedAll(ps) == [Trimmed(ps[0])] + TrimmedAll(ps[1..]);
    }
  }

  /** Normalising a template that is tidy once normalised is final: doing it again changes nothing. */
  lemma NormalisedIsFinal(raw: string)
    requires Tidy(TrimmedAll(Pieces(raw)))
    ensures Pieces(Normalised(raw)) == TrimmedAll(Pieces(raw)) && Normalised(Normalised(raw)) == Normalised(raw)
  {
    PiecesOfFlat(TrimmedAll(Pieces(raw)));
    TidyIsTrimmed(TrimmedAll(Pieces(raw)));
  }

  lemma {:induction false} TrimLeftShrinks(s: string)
    ensures |TrimLeft(s)| <= |s| && (|TrimLeft(s)| == |s| ==> TrimLeft(s) == s)
  {
    if s != "" && IsSpace(s[0]) {
      TrimLeftShrinks(s[1..]);
    }
  }

  lemma {:induction false} TrimRightShrinks(s: string)
    ensures |TrimRight(s)| <= |s| && (|TrimRight(s)| == |s| ==> TrimRight(s) == s)
  {
    if s != "" && IsSpace(s[|s| - 1]) {
      TrimRightShrinks(s[..|s| - 1]);
    }
  }

  lemma TrimmedShrinks(p: Piece)
    ensures |TextOf(Trimmed(p))| <= |TextOf(p)|
    ensures |TextOf(Trimmed(p))| == |TextOf(p)| <==> Trimmed(p) == p
  {
    hide TrimLeft, TrimRight;
    if p.Hole? {
      TrimLeftShrinks(p.name);
      TrimRightShrinks(TrimLeft(p.name));
    }
  }

  lemma TrimmedStep(ps: seq<Piece>)
    requires ps != []
    ensures var qs := TrimmedAll(ps);
      qs[0] == Trimmed(ps[0]) && qs[1..] == TrimmedAll(ps[1..]) && qs == [qs[0]] + qs[1..]
  {
  }

  lemma {:induction false} TrimmingShrinks(ps: seq<Piece>)
    ensures |Flat(TrimmedAll(ps))| <= |Flat(ps)|
    ensures |Flat(TrimmedAll(ps))| == |Flat(ps)| <==> TrimmedAll(ps) == ps
  {
    hide Flat, TrimmedAll, Trimmed, TextOf;
    FlatStep(ps);
    FlatStep(TrimmedAll(ps));
    if ps != [] {
      TrimmingShrinks(ps[1..]);
      TrimmedShrinks(ps[0]);
      TrimmedStep(ps);
      assert ps == [ps[0]] + ps[1..];
    }
  }

  /** Normalising leaves a text as it is exactly when no hole's name has space around it. */
  lemma NormalisingIsIdentityExactlyWhen(s: string)
    ensures Normalised(s) == s <==> forall p :: p in Pieces(s) && p.Hole? ==> TrimSpace(p.name) == p.name
  {
    var ps := Pieces(s);
    FlatOfPieces(s);
    TrimmingShrinks(ps);
    hide Flat, Pieces, TrimSpace;
    if forall p :: p in ps && p.Hole? ==> TrimSpace(p.name) == p.name {
      assert forall i :: 0 <= i < |ps| ==> ps[i] in ps && TrimmedAll(ps)[i] == ps[i];
      assert TrimmedAll(ps) == ps;
    } else {
      var p :| p in ps && p.Hole? && TrimSpace(p.name) != p.name;
      var i :| 0 <= i < |ps| && ps[i] == p;
      assert TrimmedAll(ps)[i] != ps[i];
    }
  }

  // ---------------------------------------------------------------- the pattern

  /** The text begins with what the pattern matches, around this name. */
  predicate BeginsWithMatch(s: string, name: string) {
    Marker(name) <= s && '\n' !in name
  }

  lemma {:induction false} FindsClose(s: string, n: nat)
    requires n + 2 <= |s| && Closes(s[n..]) && '\n' !in s[..n]
    ensures ToClose(s).Some? && ToClose(s).value <= n
  {
    if n > 0 && !Closes(s) {
      assert s[0] in s[..n] && s[1..][n - 1..] == s[n..] && s[..n] == [s[0]] + s[1..][..n - 1];
      FindsClose(s[1..], n - 1);
    } else {
      assert s[0..] == s;
    }
  }

  lemma MarkerSpread(name: string, rest: string)
    ensures var s := Marker(name) + rest;
      Opens(s) && s[2..] == name + (['}', '}'] + rest)
  {
  }

  lemma CutIsMatch(s: string)
    requires s != "" && Cut(s).0.Hole?
    ensures BeginsWithMatch(s, Cut(s).0.name)
  {
    assert Cut(s).0.name == s[2..][..|Cut(s).0.name|];
  }

  lemma MatchIsCut(name: string, rest: string)
    requires '\n' !in name
    ensures Cut(Marker(name) + rest).0.Hole? && |Cut(Marker(name) + rest).0.name| <= |name|
  {
    MarkerSpread(name, rest);
    hide Marker, ToClose;
    var u := name + (['}', '}'] + rest);
    assert u[|name|..] == ['}', '}'] + rest && u[..|name|] == name;
    FindsClose(u, |name|);
  }

  /** A hole is cut off exactly where the pattern matches, and its name is the shortest that does. */
  lemma CutIsShortestMatch(s: string, name: string)
    requires s != ""
    ensures Cut(s).0.Hole? ==> BeginsWithMatch(s, Cut(s).0.name)
    ensures BeginsWithMatch(s, name) ==> Cut(s).0.Hole? && |Cut(s).0.name| <= |name|
  {
    hide Cut;
    if Cut(s).0.Hole? {
      CutIsMatch(s);
    }
    if BeginsWithMatch(s, name) {
      MatchIsCut(name, s[|Marker(name)|..]);
      hide Marker;
      assert s == Marker(name) + s[|Marker(name)|..];
    }
  }

  // ---------------------------------------------------------------- normalising twice

  lemma NormalisedStep(s: string)
    ensures Normalised(s) == if s == "" then "" else TextOf(Trimmed(Cut(s).0)) + Normalised(Cut(s).1)
  {
    hide Pieces, Cut, Trimmed, TextOf, Flat, TrimmedAll;
    PiecesStep(s);
    ProcessNothing();
    if s != "" {
      var ps := Pieces(s);
      TrimmedStep(ps);
      FlatStep(TrimmedAll(ps));
      assert ps[0] == Cut(s).0 && ps[1..] == Pieces(Cut(s).1);
    }
  }

  lemma NormalisedBegins(s: string)
    requires s != ""
    ensures Normalised(s) != "" && Normalised(s)[0] == s[0]
  {
    NormalisedStep(s);
    hide Normalised;
  }

  lemma ToCloseStep(c: char, rest: string)
    ensures ToClose([c] + rest).None? <==>
      !(c == '}' && rest != "" && rest[0] == '}') && (c == '\n' || ToClose(rest).None?)
  {
    assert ([c] + rest)[1..] == rest;
  }

  /** Where no hole can be closed normalising does not make it possible. */
  lemma {:induction false} StaysOpen(s: string)
    requires ToClose(s).None?
    ensures ToClose(Normalised(s)).None?
  {
    NormalisedStep(s);
    if s != "" {
      var rest := s[1..];
      assert s == [s[0]] + rest;
      ToCloseStep(s[0], rest);
      if rest != "" {
        ToCloseStep(rest[0], rest[1..]);
        assert rest == [rest[0]] + rest[1..];
        NormalisedBegins(rest);
      }
      NormalisedStep(rest);
      assert Cut(s) == (Char(s[0]), rest);
      hide Cut, Normalised, ToClose;
      ToCloseStep(s[0], Normalised(rest));
      if s[0] != '\n' {
        StaysOpen(rest);
      }
    }
  }

  lemma CutBeforeOpen(c: char, after: string)
    requires ToClose(after).None?
    ensures Cut([c] + after) == (Char(c), after)
  {
    var s := [c] + after;
    assert s[0] == c && s[1..] == after;
    if Opens(s) {
      ToCloseStep(after[0], after[1..]);
      assert after == [after[0]] + after[1..] && s[2..] == after[1..];
    }
  }

  lemma CharStaysBeforeOther(c: char, rest: string)
    requires c != '{' || rest == "" || rest[0] != '{'
    ensures Cut([c] + Normalised(rest)) == (Char(c), Normalised(rest))
  {
    NormalisedStep(rest);
    if rest != "" {
      NormalisedBegins(rest);
    }
    hide Normalised, Cut;
    CutChar(c, Normalised(rest));
  }

  lemma CharStaysBeforeOpen(after: string)
    requires ToClose(after).None?
    ensures Cut(['{'] + Normalised(['{'] + after)) == (Char('{'), Normalised(['{'] + after))
  {
    hide Normalised, Cut, ToClose;
    var n := Normalised(after);
    CutBeforeOpen('{', after);
    NormalisedStep(['{'] + after);
    assert Normalised(['{'] + after) == ['{'] + n;
    StaysOpen(after);
    ToCloseStep('{', n);
    CutBeforeOpen('{', ['{'] + n);
  }

  lemma CutCharMeans(s: string)
    requires s != "" && Cut(s).0.Char?
    ensures Cut(s) == (Char(s[0]), s[1..])
    ensures |s| >= 2 && s[0] == '{' && s[1] == '{' ==> ToClose(s[2..]).None?
  {
  }

  /** A character outside all holes is outside all holes of the normalised text. */
  lemma CharStays(s: string)
    requires s != "" && Cut(s).0.Char?
    ensures Cut(Normalised(s)) == (Cut(s).0, Normalised(Cut(s).1))
  {
    hide Normalised, Cut, ToClose;
    NormalisedStep(s);
    CutCharMeans(s);
    var c, rest := s[0], s[1..];
    if c != '{' || rest == "" || rest[0] != '{' {
      CharStaysBeforeOther(c, rest);
    } else {
      assert rest == ['{'] + s[2..];
      CharStaysBeforeOpen(s[2..]);
    }
  }

  /** No two closing braces lie in the text. */
  predicate NeverCloses(s: string) {
    forall i :: 0 <= i < |s| - 1 && s[i] == '}' ==> s[i + 1] != '}'
  }

  lemma HoleNeverCloses(s: string)
    requires s != "" && Cut(s).0.Hole?
    ensures NeverCloses(Cut(s).0.name) && '\n' !in Cut(s).0.name
  {
    var u := s[2..];
    var n: int := ToClose(u).value;
    var name := Cut(s).0.name;
    assert name == u[..n];
    forall i | 0 <= i < n - 1 && name[i] == '}' ensures name[i + 1] != '}' {
      assert !Closes(u[i..]);
      assert u[i..][0] == name[i] && u[i..][1] == name[i + 1];
    }
  }

  /** The trimmed name ends in a closing brace with white space before it. */
  predicate Unsettled(name: string) {
    var t := TrimSpace(name);
    |t| >= 2 && t[|t| - 1] == '}' && IsSpace(t[|t| - 2])
  }

  lemma NoneCloses(t: string, rest: string)
    requires NeverCloses(t) && '\n' !in t && (t == "" || t[|t| - 1] != '}')
    ensures ClosesFirst(t, rest)
  {
  }

  lemma BraceOutside(short: string, rest: string)
    ensures Marker(short + ['}']) + rest == Marker(short) + (['}'] + rest)
  {
  }

  /** How the marker of a trimmed name is cut: a closing brace at the end of the name is left outside. */
  lemma CutTrimmedMarker(t: string, rest: string)
    requires NeverCloses(t) && '\n' !in t
    ensures if t == "" || t[|t| - 1] != '}' then Cut(Marker(t) + rest) == (Hole(t), rest)
      else Cut(Marker(t) + rest) == (Hole(t[..|t| - 1]), ['}'] + rest)
  {
    hide Cut, Marker, ClosesFirst;
    if t == "" || t[|t| - 1] != '}' {
      NoneCloses(t, rest);
      CutAfterName(t, rest);
    } else {
      var short := t[..|t| - 1];
      assert t == short + ['}'];
      NoneCloses(short, ['}'] + rest);
      CutAfterName(short, ['}'] + rest);
      BraceOutside(short, rest);
    }
  }

  predicate AllSettled(ps: seq<Piece>) {
    forall p :: p in ps && p.Hole? ==> !Unsettled(p.name)
  }

  predicate AllTrimmed(ps: seq<Piece>) {
    forall p :: p in ps && p.Hole? ==> TrimSpace(p.name) == p.name
  }

  /** The name that a trimmed name's marker gives when it is cut again needs no trimming exactly when it is settled. */
  lemma ShortIsTrimmed(name: string)
    ensures HasNoOuterSpace(TrimSpace(name))
    ensures var t := TrimSpace(name);
      if t == "" || t[|t| - 1] != '}' then !Unsettled(name)
      else TrimSpace(t[..|t| - 1]) == t[..|t| - 1] <==> !Unsettled(name)
  {
    var a, b := TrimIsInside(name);
    var t := TrimSpace(name);
    if t != "" {
      FixedByTrimming(t[..|t| - 1]);
    }
  }

  lemma TrimmedNeverCloses(name: string)
    requires NeverCloses(name) && '\n' !in name
    ensures NeverCloses(TrimSpace(name)) && '\n' !in TrimSpace(name)
  {
    var a, b := TrimIsInside(name);
    var t := TrimSpace(name);
    hide TrimSpace, HasNoOuterSpace;
    assert forall i :: 0 <= i < |t| ==> name[|a| + i] == t[i];
  }

  lemma AllTrimmedStep(p: Piece, ps: seq<Piece>)
    ensures AllTrimmed([p] + ps) <==> (p.Hole? ==> TrimSpace(p.name) == p.name) && AllTrimmed(ps)
    ensures AllSettled([p] + ps) <==> (p.Hole? ==> !Unsettled(p.name)) && AllSettled(ps)
  {
    hide TrimSpace, Unsettled;
    assert ([p] + ps)[0] == p && forall q :: q in ps ==> q in [p] + ps;
  }

  /** Cutting a normalised text again gives trimmed holes exactly when all holes are settled. */
  lemma {:induction false} RecutIsTrimmed(s: string)
    ensures AllTrimmed(Pieces(Normalised(s))) <==> AllSettled(Pieces(s))
    decreases |s|
  {
    hide AllTrimmed, AllSettled, Normalised, TrimSpace, Pieces, Cut;
    PiecesStep(s);
    NormalisedStep(s);
    var n := Normalised(s);
    PiecesStep(n);
    if s != "" {
      var p, rest := Cut(s).0, Cut(s).1;
      RecutIsTrimmed(rest);
      AllTrimmedStep(p, Pieces(rest));
      NormalisedBegins(s);
      if p.Char? {
        CharStays(s);
        AllTrimmedStep(p, Pieces(Normalised(rest)));
      } else {
        HoleRecut(p.name, Normalised(rest)) by { HoleNeverCloses(s); }
      }
    } else {
      NothingToTrim();
    }
  }

  lemma NothingToTrim()
    ensures AllTrimmed([]) && AllSettled([])
  {
  }

  lemma HoleRecut(name: string, rest: string)
    requires NeverCloses(name) && '\n' !in name
    ensures AllTrimmed(Pieces(Marker(TrimSpace(name)) + rest)) <==> !Unsettled(name) && AllTrimmed(Pieces(rest))
  {
    hide NeverCloses, HasNoOuterSpace, Unsettled, AllTrimmed, AllSettled, TrimSpace, Marker, Cut, Pieces;
    var t := TrimSpace(name);
    var n := Marker(t) + rest;
    TrimmedNeverCloses(name);
    ShortIsTrimmed(name);
    FixedByTrimming(t);
    CutTrimmedMarker(t, rest);
    PiecesStep(n);
    MarkerSpread(t, rest);
    if t == "" || t[|t| - 1] != '}' {
      AllTrimmedStep(Hole(t), Pieces(rest));
    } else {
      CutChar('}', rest);
      PiecesStep(['}'] + rest);
      AllTrimmedStep(Hole(t[..|t| - 1]), Pieces(['}'] + rest));
      AllTrimmedStep(Char('}'), Pieces(rest));
    }
  }

  /**
   * Normalising twice is normalising once exactly when no hole's trimmed name ends in white space
   * and a closing brace.
   */
  lemma IdempotentExactlyWhenSettled(s: string)
    ensures Normalised(Normalised(s)) == Normalised(s) <==> AllSettled(Pieces(s))
  {
    RecutIsTrimmed(s);
    NormalisingIsIdentityExactlyWhen(Normalised(s));
  }

  /** Normalising is not idempotent on every text: trimming may leave a brace before the closing ones. */
  lemma NormalisingTwiceMayDiffer(c: char)
    requires !IsSpace(c) && BraceFree([c]) && c != '\n'
    ensures Normalised(Marker([c, ' ', '}', ' '])) == Marker([c, ' ', '}'])
    ensures Normalised(Marker([c, ' ', '}'])) != Marker([c, ' ', '}'])
  {
    hide Cut, TrimSpace, Pieces, IsSpace;
    var longer, name, shorter := [c, ' ', '}', ' '], [c, ' ', '}'], [c, ' '];
    var s, t := Marker(longer), Marker(name);
    assert s + [] == s && t == Marker(shorter) + ['}'];
    CutAfterName(longer, []);
    CutAfterName(shorter, ['}']);
    PiecesStep(s);
    PiecesStep([]);
    PiecesStep(t);
    NormalisingIsIdentityExactlyWhen(t);
    assert Pieces(s) == [Hole(longer)] && Hole(shorter) in Pieces(t);
    assert longer == name + [' '] && shorter == [c] + [' '] && !IsSpace('}') by { SpaceIsNoBrace(); }
    DropOneSpace(name);
    DropOneSpace([c]);
    assert TrimmedAll(Pieces(s)) == [Hole(name)];
    FlatStep(TrimmedAll(Pieces(s)));
    FlatStep([]);
  }

  lemma SpaceIsNoBrace()
    ensures !IsSpace('}')
  {
  }

  lemma DropOneSpace(word: string)
    requires word != "" && !IsSpace(word[0]) && !IsSpace(word[|word| - 1])
    ensures TrimSpace(word + [' ']) == word
  {
    var s := word + [' '];
    assert TrimLeft(s) == s;
    assert s[..|s| - 1] == word;
    assert TrimRight(word) == word;
  }
}
