/** The command paths a plugin offers for access rules, and their relation to the resolver. */
module CommandPaths {
  import opened Options
  import opened Text
  import opened Commands
  import opened Dispatch

  /** The commands of a tree with their paths, in the order they are collected; `path` is that of `c`. */
  function Located(c: Command, path: string): seq<(Command, string)>
    requires IsFinite(c)
    decreases c.height, |c.subs| + 1
  {
    [(c, path)] + LocatedBelow(c, |c.subs|, path)
  }

  function LocatedBelow(c: Command, k: nat, path: string): seq<(Command, string)>
    requires IsFinite(c) && k <= |c.subs|
    decreases c.height, k
  {
    if k == 0 then []
    else LocatedBelow(c, k - 1, path) + Located(c.subs[k - 1], path + " " + c.subs[k - 1].prefix)
  }

  function PathsIn(located: seq<(Command, string)>): (paths: seq<string>)
    ensures |paths| == |located|
    ensures forall i :: 0 <= i < |located| ==> paths[i] == located[i].1
  {
    seq(|located|, i requires 0 <= i < |located| => located[i].1)
  }

  method CollectCommandPaths(c: Command, path: string, result: seq<string>) returns (out: seq<string>)
    requires IsFinite(c)
    ensures out == result + PathsIn(Located(c, path))
    decreases c.height
  {
    out := result + [path];
    for k := 0 to |c.subs|
      invariant out == result + [path] + PathsIn(LocatedBelow(c, k, path))
    {
      out := CollectCommandPaths(c.subs[k], path + " " + c.subs[k].prefix, out);
    }
  }

  ghost predicate HasPath(c: Command, path: string) {
    IsFinite(c) && path in PathsIn(Located(c, c.prefix))
  }

  method CommandPathSet(plugin: Plugin) returns (paths: set<string>)
    requires forall c :: c in plugin.commands ==> IsFinite(c)
    ensures forall p :: p in paths <==> exists c :: c in plugin.commands && HasPath(c, p)
  {
    paths := {};
    var cs := plugin.commands;
    for k := 0 to |cs|
      invariant forall p :: p in paths ==> exists c :: c in cs && HasPath(c, p)
      invariant forall i, p :: 0 <= i < k && HasPath(cs[i], p) ==> p in paths
    {
      var found := CollectCommandPaths(cs[k], cs[k].prefix, []);
      assert [] + PathsIn(Located(cs[k], cs[k].prefix)) == found;
      assert forall p :: p in found <==> HasPath(cs[k], p);
      hide HasPath, IsFinite;
      paths := paths + (set p | p in found);
    }
  }

  // ---------------------------------------------------------------- from the resolver to the paths

  function Extend(path: string, tokens: seq<string>): string
    decreases |tokens|
  {
    if tokens == [] then path else Extend(path + " " + tokens[0], tokens[1..])
  }

  lemma {:induction false} ExtendIsJoin(parts: seq<string>, tokens: seq<string>)
    requires parts != []
    ensures Extend(Join(parts, " "), tokens) == Join(parts + tokens, " ")
    decreases |tokens|
  {
    if tokens == [] {
      assert parts + tokens == parts;
    } else {
      JoinSnoc(parts, tokens[0]);
      ExtendIsJoin(parts + [tokens[0]], tokens[1..]);
      assert parts + [tokens[0]] + tokens[1..] == parts + tokens;
    }
  }

  lemma {:induction false} LocatedBelowGrows(c: Command, i: nat, k: nat, path: string)
    requires IsFinite(c) && i <= k <= |c.subs|
    ensures forall l :: l in LocatedBelow(c, i, path) ==> l in LocatedBelow(c, k, path)
    decreases k
  {
    if i < k {
      LocatedBelowGrows(c, i, k - 1, path);
    }
  }

  /** Every entry of a sub-command's tree is an entry of the tree. */
  lemma LocatedInSub(c: Command, i: nat, path: string)
    requires IsFinite(c) && i < |c.subs|
    ensures IsFinite(c.subs[i])
    ensures forall l :: l in Located(c.subs[i], path + " " + c.subs[i].prefix) ==> l in Located(c, path)
  {
    LocatedBelowGrows(c, i + 1, |c.subs|, path);
  }

  lemma LocatedHere(c: Command, path: string)
    requires IsFinite(c)
    ensures (c, path) in Located(c, path)
  {
  }

  function EndPath(c: Command, tokens: seq<string>, path: string): string {
    Extend(path, Prefixes(Walked(c, tokens)[1..]))
  }

  lemma EndStep(c: Command, tokens: seq<string>, path: string)
    requires tokens != [] && FindSub(c.subs, tokens[0]).Some?
    ensures var sub := FindSub(c.subs, tokens[0]).value;
      && Target(c, tokens) == Target(sub, tokens[1..])
      && EndPath(c, tokens, path) == EndPath(sub, tokens[1..], path + " " + sub.prefix)
  {
    hide FindSub;
    var sub := FindSub(c.subs, tokens[0]).value;
    var cs, below := Walked(c, tokens), Walked(sub, tokens[1..]);
    assert cs == [c] + below && cs[1..] == below;
    hide Walked;
    var ps := Prefixes(below);
    assert ps[0] == sub.prefix && ps[1..] == Prefixes(below[1..]);
  }

  lemma EndHere(c: Command, tokens: seq<string>, path: string)
    requires tokens == [] || FindSub(c.subs, tokens[0]).None?
    ensures Target(c, tokens) == c && EndPath(c, tokens, path) == path
  {
    assert Walked(c, tokens)[1..] == [];
  }

  lemma FiniteParts(c: Command)
    requires IsFinite(c)
    ensures forall i :: 0 <= i < |c.subs| ==> IsFinite(c.subs[i]) && c.subs[i].height < c.height
  {
  }

  /** Wherever a walk ends, that command and its path are collected. */
  lemma {:induction false} WalkIsLocated(c: Command, tokens: seq<string>, path: string)
    requires IsFinite(c)
    ensures (Target(c, tokens), EndPath(c, tokens, path)) in Located(c, path)
    decreases |tokens|
  {
    hide IsFinite, Located, Target, EndPath;
    FiniteParts(c);
    if tokens == [] || FindSub(c.subs, tokens[0]).None? {
      EndHere(c, tokens, path);
      LocatedHere(c, path);
    } else {
      var sub := FindSub(c.subs, tokens[0]).value;
      EndStep(c, tokens, path);
      var i :| 0 <= i < |c.subs| && c.subs[i] == sub;
      WalkIsLocated(sub, tokens[1..], path + " " + sub.prefix);
      LocatedInSub(c, i, path);
    }
  }

  /** The path the resolver returns is one the plugin offers. */
  lemma ResolvedPathIsOffered(c: Command, raw: string)
    requires IsFinite(c)
    ensures HasPath(c, PathOf(c, Rest(Fields(FilterAt(raw)))))
  {
    var tokens := Rest(Fields(FilterAt(raw)));
    hide Fields, FilterAt, IsFinite;
    WalkIsLocated(c, tokens, c.prefix);
    var cs := Walked(c, tokens);
    ExtendIsJoin([c.prefix], Prefixes(cs[1..]));
    assert [c.prefix] + Prefixes(cs[1..]) == Prefixes(cs);
    var l := (Target(c, tokens), PathOf(c, tokens));
    var i :| 0 <= i < |Located(c, c.prefix)| && Located(c, c.prefix)[i] == l;
    assert PathsIn(Located(c, c.prefix))[i] == l.1;
  }

  // ---------------------------------------------------------------- from the paths to the resolver

  /** Names are single words, and siblings have different names. */
  ghost predicate WellNamed(c: Command)
    requires IsFinite(c)
    decreases c.height
  {
    && IsWord(c.prefix)
    && (forall i, j :: 0 <= i < j < |c.subs| ==> c.subs[i].prefix != c.subs[j].prefix)
    && (forall i :: 0 <= i < |c.subs| ==> c.subs[i].height < c.height && IsFinite(c.subs[i]) && WellNamed(c.subs[i]))
  }

  lemma {:induction false} FindOnly(subs: seq<Command>, k: nat)
    requires k < |subs| && forall i, j :: 0 <= i < j < |subs| ==> subs[i].prefix != subs[j].prefix
    ensures FindSub(subs, subs[k].prefix) == Some(subs[k])
  {
    FindFirst(subs, k);
  }

  /** The tokens that lead to a collected command and spell its path. */
  lemma {:induction false} TokensTo(c: Command, path: string, l: (Command, string)) returns (tokens: seq<string>)
    requires IsFinite(c) && WellNamed(c) && l in Located(c, path)
    ensures AreWords(tokens) && Target(c, tokens) == l.0 && Extend(path, tokens) == l.1
    ensures Prefixes(Walked(c, tokens)) == [c.prefix] + tokens
    decreases c.height, |c.subs| + 1
  {
    if l == (c, path) {
      tokens := [];
      assert Walked(c, []) == [c];
      assert Prefixes([c]) == [c.prefix] + [];
    } else {
      tokens := TokensBelow(c, |c.subs|, path, l);
    }
  }

  lemma {:induction false} TokensBelow(c: Command, k: nat, path: string, l: (Command, string)) returns (tokens: seq<string>)
    requires IsFinite(c) && WellNamed(c) && k <= |c.subs| && l in LocatedBelow(c, k, path)
    ensures AreWords(tokens) && Target(c, tokens) == l.0 && Extend(path, tokens) == l.1
    ensures Prefixes(Walked(c, tokens)) == [c.prefix] + tokens
    decreases c.height, k
  {
    var sub := c.subs[k - 1];
    hide Walked, Extend, Target;
    if l in LocatedBelow(c, k - 1, path) {
      tokens := TokensBelow(c, k - 1, path, l);
    } else {
      var rest := TokensTo(sub, path + " " + sub.prefix, l);
      hide Located, LocatedBelow;
      tokens := [sub.prefix] + rest;
      WalkInto(c, k - 1, rest, path);
      assert [c.prefix] + ([sub.prefix] + rest) == [c.prefix] + tokens;
    }
  }

  lemma WalkInto(c: Command, k: nat, rest: seq<string>, path: string)
    requires k < |c.subs| && forall i, j :: 0 <= i < j < |c.subs| ==> c.subs[i].prefix != c.subs[j].prefix
    ensures var sub := c.subs[k]; var tokens := [sub.prefix] + rest;
      && Target(c, tokens) == Target(sub, rest)
      && Prefixes(Walked(c, tokens)) == [c.prefix] + Prefixes(Walked(sub, rest))
      && Extend(path, tokens) == Extend(path + " " + sub.prefix, rest)
  {
    var sub := c.subs[k];
    var tokens := [sub.prefix] + rest;
    FindOnly(c.subs, k);
    assert tokens[1..] == rest;
    assert Walked(c, tokens) == [c] + Walked(sub, rest);
  }

  lemma JoinOne(s: string)
    ensures Join([s], " ") == s
  {
  }

  /** The tokens behind the first one of a typed text. */
  function Typed(raw: string): seq<string> {
    Rest(Fields(FilterAt(raw)))
  }

  /**
   * Typing an offered path resolves to the very command it was collected for, and to that path.
   */
  lemma PathRoundTrip(c: Command, n: Command, path: string)
    requires IsFinite(c) && WellNamed(c) && !IsMention(c.prefix) && (n, path) in Located(c, c.prefix)
    ensures Target(c, Typed(path)) == n && PathOf(c, Typed(path)) == path
  {
    var tokens := TokensTo(c, c.prefix, (n, path));
    var parts := [c.prefix] + tokens;
    ExtendIsJoin([c.prefix], tokens);
    assert AreWords(parts) && IsWord(parts[0]);
    hide IsFinite, WellNamed, Located, Fields, FilterAt, Join, Extend, Walked;
    assert path == Join(parts, " ") by { JoinOne(c.prefix); }
    FieldsOfJoin(parts);
    FilterAtOnTokens(path);
    assert Rest(parts) == tokens;
  }

  /** A mention-like root swallows its own name, so its sub-commands' paths do not lead back to them. */
  lemma RoundTripsExactlyWhen(c: Command)
    requires IsFinite(c) && WellNamed(c)
    ensures (forall l :: l in Located(c, c.prefix) ==> (Target(c, Typed(l.1)), PathOf(c, Typed(l.1))) == l)
      <==> !IsMention(c.prefix) || c.subs == []
  {
    assert IsWord(c.prefix);
    hide IsFinite, WellNamed;
    if !IsMention(c.prefix) {
      forall l | l in Located(c, c.prefix) ensures (Target(c, Typed(l.1)), PathOf(c, Typed(l.1))) == l {
        PathRoundTrip(c, l.0, l.1);
      }
    } else if c.subs == [] {
      RootRoundTrip(c);
      LeafLocated(c);
    } else {
      var l := FirstChild(c);
      MentionSwallowed(c, l.0.prefix, l.1);
      WalkNowhere(c);
    }
  }

  lemma LeafLocated(c: Command)
    requires IsFinite(c) && c.subs == []
    ensures Located(c, c.prefix) == [(c, c.prefix)]
  {
  }

  lemma WalkNowhere(c: Command)
    ensures Target(c, []) == c && PathOf(c, []) == c.prefix
  {
    assert Prefixes(Walked(c, [])) == [c.prefix];
  }

  lemma RootRoundTrip(c: Command)
    requires IsWord(c.prefix)
    ensures Target(c, Typed(c.prefix)) == c && PathOf(c, Typed(c.prefix)) == c.prefix
  {
    JoinOne(c.prefix);
    FieldsOfJoin([c.prefix]);
    FilterAtOnTokens(c.prefix);
    WalkNowhere(c);
  }

  lemma FirstChild(c: Command) returns (l: (Command, string))
    requires IsFinite(c) && WellNamed(c) && c.subs != []
    ensures l in Located(c, c.prefix) && l.0 != c && l.1 == c.prefix + " " + l.0.prefix && IsWord(l.0.prefix)
  {
    var s := c.subs[0];
    l := (s, c.prefix + " " + s.prefix);
    LocatedHere(s, l.1);
    LocatedInSub(c, 0, c.prefix);
  }

  lemma MentionSwallowed(c: Command, sub: string, path: string)
    requires IsWord(c.prefix) && IsWord(sub) && IsMention(c.prefix) && path == c.prefix + " " + sub
    ensures Typed(path) == []
  {
    var tokens := [c.prefix, sub];
    assert tokens[1..] == [sub] && Join([sub], " ") == sub;
    assert path == Join(tokens, " ");
    FieldsOfJoin(tokens);
    FilterAtOnTokens(path);
    hide Fields, FilterAt, Join;
  }
}
