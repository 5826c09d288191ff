/**
 * The two interpreters of a message: the resolver, which picks the command whose permissions are
 * checked, and the dispatcher, which picks the handler that runs.
 */
module Dispatch {
  import opened Options
  import opened Text
  import opened Commands

  // ---------------------------------------------------------------- walking the tree

  function FindSub(subs: seq<Command>, prefix: string): (r: Option<Command>)
    ensures r.Some? ==> r.value in subs && r.value.prefix == prefix
    ensures r.None? <==> forall s :: s in subs ==> s.prefix != prefix
  {
    if subs == [] then None
    else if subs[0].prefix == prefix then Some(subs[0])
    else FindSub(subs[1..], prefix)
  }

  /** The commands that a walk down the tree passes, the root first. */
  function Walked(c: Command, tokens: seq<string>): (cs: seq<Command>)
    ensures cs != [] && cs[0] == c
    decreases |tokens|
  {
    if tokens == [] || FindSub(c.subs, tokens[0]).None? then [c]
    else [c] + Walked(FindSub(c.subs, tokens[0]).value, tokens[1..])
  }

  function Target(c: Command, tokens: seq<string>): Command {
    var cs := Walked(c, tokens); cs[|cs| - 1]
  }

  function Prefixes(cs: seq<Command>): (ps: seq<string>)
    ensures |ps| == |cs|
  {
    seq(|cs|, i requires 0 <= i < |cs| => cs[i].prefix)
  }

  /** The path of the command a walk ends at. */
  function PathOf(c: Command, tokens: seq<string>): string {
    Join(Prefixes(Walked(c, tokens)), " ")
  }

  /** All but the first token, which named the root command. */
  function Rest(tokens: seq<string>): seq<string> {
    if tokens == [] then [] else tokens[1..]
  }

  lemma {:induction false} JoinSnoc(parts: seq<string>, last: string)
    requires parts != []
    ensures Join(parts + [last], " ") == Join(parts, " ") + " " + last
  {
    if |parts| == 1 {
      assert parts + [last] == [parts[0], last];
      assert [parts[0], last][1..] == [last];
    } else {
      JoinSnoc(parts[1..], last);
      assert (parts + [last])[1..] == parts[1..] + [last];
    }
  }

  /** The search returns the first command with the prefix. */
  lemma {:induction false} FindFirst(subs: seq<Command>, k: nat)
    requires k < |subs| && forall j :: 0 <= j < k ==> subs[j].prefix != subs[k].prefix
    ensures FindSub(subs, subs[k].prefix) == Some(subs[k])
  {
    if k > 0 {
      assert subs[0].prefix != subs[k].prefix;
      FindFirst(subs[1..], k - 1);
    }
  }

  /** The search loop that both interpreters contain. */
  method FindChild(c: Command, prefix: string) returns (r: Option<Command>)
    ensures r == FindSub(c.subs, prefix)
  {
    for k := 0 to |c.subs|
      invariant forall j :: 0 <= j < k ==> c.subs[j].prefix != prefix
    {
      if c.subs[k].prefix == prefix {
        FindFirst(c.subs, k);
        return Some(c.subs[k]);
      }
    }
    return None;
  }

  /** How a walk goes on from its `k`-th command. */
  lemma {:induction false} WalkStep(c: Command, tokens: seq<string>, k: nat)
    requires k < |Walked(c, tokens)|
    ensures k <= |tokens|
    ensures var cs := Walked(c, tokens);
      if k == |tokens| || FindSub(cs[k].subs, tokens[k]).None? then |cs| == k + 1
      else |cs| > k + 1 && cs[k + 1] == FindSub(cs[k].subs, tokens[k]).value
    decreases |tokens|
  {
    if k > 0 {
      WalkStep(FindSub(c.subs, tokens[0]).value, tokens[1..], k - 1);
    }
  }

  /** The path of a walk grows by one prefix a step. */
  lemma PathStep(cs: seq<Command>, k: nat)
    requires 0 < k < |cs|
    ensures Join(Prefixes(cs[..k + 1]), " ") == Join(Prefixes(cs[..k]), " ") + " " + cs[k].prefix
  {
    JoinSnoc(Prefixes(cs[..k]), cs[k].prefix);
    assert Prefixes(cs[..k + 1]) == Prefixes(cs[..k]) + [cs[k].prefix];
  }

  lemma PathOfRoot(cs: seq<Command>)
    requires cs != []
    ensures Join(Prefixes(cs[..1]), " ") == cs[0].prefix && cs[..|cs|] == cs
  {
    assert Prefixes(cs[..1]) == [cs[0].prefix];
  }

  method ResolveCommand(c: Command, raw: string) returns (current: Command, path: string)
    ensures current == Target(c, Rest(Fields(FilterAt(raw))))
    ensures path == PathOf(c, Rest(Fields(FilterAt(raw))))
  {
    path := c.prefix;
    current := c;
    var parts := Fields(FilterAt(raw));
    ghost var tokens := Rest(parts);
    ghost var walked := Walked(c, tokens);
    PathOfRoot(walked);
    hide Walked, Join, FindSub;
    var index := 1;
    while index < |parts| && |current.subs| > 0
      invariant 1 <= index <= |walked| && current == walked[index - 1]
      invariant path == Join(Prefixes(walked[..index]), " ")
      decreases |parts| - index
    {
      var next := FindChild(current, parts[index]);
      WalkStep(c, tokens, index - 1);
      if next.None? {
        break;
      }
      PathStep(walked, index);
      path := path + " " + next.value.prefix;
      current := next.value;
      index := index + 1;
    }
    WalkStep(c, tokens, index - 1);
  }

  // ---------------------------------------------------------------- the dispatcher

  class MessageContext {
    const raw: string
    const isPrivate: bool
    var pluginId: string
    var commandPath: string

    constructor (raw: string, isPrivate: bool)
      ensures this.raw == raw && this.isPrivate == isPrivate
    {
      this.raw, this.isPrivate, this.pluginId, this.commandPath := raw, isPrivate, "", "";
    }

    method BindStorage(pluginId: string, commandPath: string)
      modifies this
      ensures this.pluginId == pluginId && this.commandPath == commandPath
    {
      this.pluginId, this.commandPath := pluginId, commandPath;
    }
  }

  /** The commands the dispatcher binds: it stops before one that may not be used in private. */
  function Bound(c: Command, tokens: seq<string>, isPrivate: bool): (cs: seq<Command>)
    ensures cs != [] && cs[0] == c
    decreases |tokens|
  {
    if tokens == [] || FindSub(c.subs, tokens[0]).None? then [c]
    else
      var sub := FindSub(c.subs, tokens[0]).value;
      if isPrivate && sub.disablePrivate then [c] else [c] + Bound(sub, tokens[1..], isPrivate)
  }

  /** The walk passes a sub-command that may not be used where the message came from. */
  predicate Blocked(c: Command, tokens: seq<string>, isPrivate: bool) {
    isPrivate && exists k :: 1 <= k < |Walked(c, tokens)| && Walked(c, tokens)[k].disablePrivate
  }

  lemma {:induction false} BoundIsWalked(c: Command, tokens: seq<string>, isPrivate: bool)
    requires isPrivate ==> forall k :: 1 <= k < |Walked(c, tokens)| ==> !Walked(c, tokens)[k].disablePrivate
    ensures !Blocked(c, tokens, isPrivate) && Bound(c, tokens, isPrivate) == Walked(c, tokens)
    decreases |tokens|
  {
    if tokens != [] && FindSub(c.subs, tokens[0]).Some? {
      var sub := FindSub(c.subs, tokens[0]).value;
      assert Walked(c, tokens) == [c] + Walked(sub, tokens[1..]);
      assert Walked(c, tokens)[1] == sub;
      forall k | 1 <= k < |Walked(sub, tokens[1..])| ensures isPrivate ==> !Walked(sub, tokens[1..])[k].disablePrivate {
        assert Walked(c, tokens)[k + 1] == Walked(sub, tokens[1..])[k];
      }
      BoundIsWalked(sub, tokens[1..], isPrivate);
    }
  }

  lemma {:induction false} BoundStops(c: Command, tokens: seq<string>, k: nat)
    requires 1 <= k < |Walked(c, tokens)| && Walked(c, tokens)[k].disablePrivate
    requires forall j :: 1 <= j < k ==> !Walked(c, tokens)[j].disablePrivate
    ensures Blocked(c, tokens, true) && Bound(c, tokens, true) == Walked(c, tokens)[..k]
    decreases |tokens|
  {
    var sub := FindSub(c.subs, tokens[0]).value;
    var cs := Walked(sub, tokens[1..]);
    assert Walked(c, tokens) == [c] + cs;
    if k > 1 {
      assert Walked(c, tokens)[1] == sub;
      forall j | 1 <= j < k - 1 ensures !cs[j].disablePrivate {
        assert Walked(c, tokens)[j + 1] == cs[j];
      }
      BoundStops(sub, tokens[1..], k - 1);
    }
  }

  lemma {:induction false} WalkedInTree(c: Command, tokens: seq<string>)
    requires IsTree(c)
    ensures forall n :: n in Walked(c, tokens) ==> n in c.nodes
    decreases |tokens|
  {
    hide IsTree;
    TreeParts(c);
    if tokens != [] && FindSub(c.subs, tokens[0]).Some? {
      var sub := FindSub(c.subs, tokens[0]).value;
      NodesOfMember(c.subs, sub);
      WalkedInTree(sub, tokens[1..]);
    }
  }

  lemma WalkIsInstalled(commands: map<string, Command>, key: string, tokens: seq<string>)
    requires Ready(commands) && key in commands
    ensures commands[key].prefix == key
    ensures forall n :: n in commands[key].nodes ==> Installed(n)
    ensures forall n :: n in Walked(commands[key], tokens) ==> n in commands[key].nodes
  {
    WalkedInTree(commands[key], tokens);
    forall n | n in commands[key].nodes ensures Installed(n) {
      assert n in Reachable(commands);
    }
  }

  lemma SplitIsNotEmpty(s: string)
    ensures Split(s, ' ') != []
  {
  }

  method SubCommandHandleFunc(reg: Registry, ctx: MessageContext) returns (ran: Option<Handler>)
    requires Ready(reg.commands)
    modifies ctx
    ensures var args := Split(FilterAt(ctx.raw), ' ');
      if args[0] !in reg.commands then ran == None && unchanged(ctx)
      else
        var c, tokens := reg.commands[args[0]], args[1..];
        var bound := Bound(c, tokens, ctx.isPrivate);
        && ctx.commandPath == Join(Prefixes(bound), " ") && ctx.pluginId == bound[|bound| - 1].pluginId
        && ran == if Blocked(c, tokens, ctx.isPrivate) then None else Some(Effective(Target(c, tokens)))
  {
    hide Ready, Walked, Reachable, Join, FindSub, Bound, Blocked, Split, FilterAt, Prefixes;
    var args := Split(FilterAt(ctx.raw), ' ');
    SplitIsNotEmpty(FilterAt(ctx.raw));
    if args[0] !in reg.commands {
      return None;
    }
    WalkIsInstalled(reg.commands, args[0], args[1..]);
    var current := reg.commands[args[0]];
    ghost var root, tokens := current, args[1..];
    ghost var walked := Walked(root, tokens);
    PathOfRoot(walked);
    var commandPath := current.prefix;
    ctx.BindStorage(current.pluginId, commandPath);
    var index := 1;
    while true
      invariant 1 <= index <= |args| && index <= |walked| && current == walked[index - 1]
      invariant ctx.isPrivate ==> forall k :: 1 <= k < index ==> !walked[k].disablePrivate
      invariant commandPath == Join(Prefixes(walked[..index]), " ")
      invariant ctx.commandPath == commandPath && ctx.pluginId == current.pluginId
      invariant forall n :: n in root.nodes ==> Installed(n)
      decreases |args| - index
    {
      WalkStep(root, tokens, index - 1);
      assert current in walked && Installed(current);
      if index == |walked| {
        BoundIsWalked(root, tokens, ctx.isPrivate);
        assert walked[..index] == walked;
      }
      if current.handle == NoHandler || |current.subs| == 0 {
        return Some(current.handle);
      }
      if |args| <= index {
        if current.fallback == NoHandler { return None; }
        return Some(current.fallback);
      }
      var target := FindChild(current, args[index]);
      if target.None? {
        if current.fallback == NoHandler { return None; }
        return Some(current.fallback);
      }
      if ctx.isPrivate && target.value.disablePrivate {
        BoundStops(root, tokens, index);
        return None;
      }
      PathStep(walked, index);
      current := target.value;
      commandPath := commandPath + " " + current.prefix;
      ctx.BindStorage(current.pluginId, commandPath);
      index := index + 1;
    }
  }
}
