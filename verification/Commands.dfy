/**
 * The command tree. Registration rewrites the handlers of the tree in place; its shape never
 * changes, so everything that depends on the shape alone reads no mutable state.
 */
module Commands {
  /** What a command's handler field may hold: nothing, the built-in no-op, the dispatcher, or the plugin's own. */
  datatype Handler = NoHandler | Ignore | Dispatcher | Own(id: nat)

  function OrDefault(h: Handler): Handler {
    if h.NoHandler? then Ignore else h
  }

  class Command {
    const prefix: string
    const role: string
    const disablePrivate: bool
    const subs: seq<Command>
    const own: Handler         // the handler the plugin supplied
    const height: nat          // exceeds that of every sub-command
    const nodes: set<Command>  // the commands of the tree rooted here
    var handle: Handler
    var fallback: Handler
    var pluginId: string
    var hasParser: bool

    constructor (prefix: string, role: string, disablePrivate: bool, handle: Handler, subs: seq<Command>)
      requires forall i :: 0 <= i < |subs| ==> IsFinite(subs[i])
      ensures this.prefix == prefix && this.role == role && this.disablePrivate == disablePrivate && this.subs == subs
      ensures own == handle && Unregistered(this) && IsFinite(this) && (IsForest(subs) ==> IsTree(this))
    {
      AllNodesMembers(subs);
      this.prefix, this.role, this.disablePrivate, this.subs := prefix, role, disablePrivate, subs;
      this.handle, this.fallback, this.pluginId, this.hasParser := handle, NoHandler, "", false;
      this.own, this.height := handle, MaxHeight(subs) + 1;
      this.nodes := {this} + AllNodes(subs);
    }
  }

  function MaxHeight(cs: seq<Command>): (h: nat)
    ensures forall c :: c in cs ==> c.height <= h
  {
    if cs == [] then 0
    else var h := MaxHeight(cs[1..]);
      if cs[0].height > h then cs[0].height else h
  }

  function AllNodes(cs: seq<Command>): set<Command> {
    if cs == [] then {} else cs[0].nodes + AllNodes(cs[1..])
  }

  /** Sub-commands to a finite depth; a command object may occur in several places. */
  ghost predicate IsFinite(c: Command)
    decreases c.height
  {
    forall i :: 0 <= i < |c.subs| ==> c.subs[i].height < c.height && IsFinite(c.subs[i])
  }

  /** A finite tree in which no command object occurs twice. */
  ghost predicate IsTree(c: Command)
    decreases c.height, 1
  {
    && c.nodes == {c} + AllNodes(c.subs)
    && c !in AllNodes(c.subs)
    && (forall i :: 0 <= i < |c.subs| ==> c.subs[i].height < c.height && IsTree(c.subs[i]))
    && SharesNothing(c.subs)
  }

  lemma {:induction false} TreeIsFinite(c: Command)
    requires IsTree(c)
    ensures IsFinite(c)
    decreases c.height
  {
    forall i | 0 <= i < |c.subs| ensures c.subs[i].height < c.height && IsFinite(c.subs[i]) {
      TreeIsFinite(c.subs[i]);
    }
  }

  ghost predicate SharesNothing(cs: seq<Command>) {
    forall k :: 0 <= k < |cs| ==> AllNodes(cs[..k]) !! cs[k].nodes
  }

  /** Each command of the list is a tree of its own, sharing no command object with another. */
  ghost predicate IsForest(cs: seq<Command>) {
    (forall i :: 0 <= i < |cs| ==> IsTree(cs[i])) && SharesNothing(cs)
  }

  lemma {:induction false} AllNodesConcat(cs: seq<Command>, ds: seq<Command>)
    ensures AllNodes(cs + ds) == AllNodes(cs) + AllNodes(ds)
  {
    if cs == [] {
      assert [] + ds == ds;
    } else {
      AllNodesConcat(cs[1..], ds);
      assert (cs + ds)[1..] == cs[1..] + ds;
    }
  }

  /** What the `k`-th tree of a forest adds to the commands of the trees before it. */
  lemma ForestStep(cs: seq<Command>, k: nat)
    requires SharesNothing(cs) && k < |cs|
    ensures AllNodes(cs[..k + 1]) == AllNodes(cs[..k]) + cs[k].nodes
    ensures AllNodes(cs[..k]) !! cs[k].nodes && AllNodes(cs[..k + 1]) <= AllNodes(cs)
    ensures |AllNodes(cs[..k + 1])| == |AllNodes(cs[..k])| + |cs[k].nodes|
  {
    assert cs[..k + 1] == cs[..k] + [cs[k]];
    AllNodesConcat(cs[..k], [cs[k]]);
    assert cs == cs[..k + 1] + cs[k + 1..];
    AllNodesConcat(cs[..k + 1], cs[k + 1..]);
    assert [cs[k]][1..] == [];
  }

  lemma {:induction false} AllNodesMembers(cs: seq<Command>)
    ensures forall n :: n in AllNodes(cs) ==> exists i :: 0 <= i < |cs| && n in cs[i].nodes
  {
    if cs != [] {
      AllNodesMembers(cs[1..]);
      forall n | n in AllNodes(cs[1..]) ensures exists i :: 0 <= i < |cs| && n in cs[i].nodes {
        var i :| 0 <= i < |cs[1..]| && n in cs[1..][i].nodes;
        assert n in cs[i + 1].nodes;
      }
    }
  }

  lemma ForestEnds(cs: seq<Command>)
    ensures AllNodes(cs[..0]) == {} && cs[..|cs|] == cs
  {
  }

  lemma TreeParts(c: Command)
    requires IsTree(c)
    ensures c in c.nodes && c !in AllNodes(c.subs) && c.nodes == {c} + AllNodes(c.subs)
    ensures |c.nodes| == 1 + |AllNodes(c.subs)| && (c.subs == [] ==> c.nodes == {c})
    ensures IsForest(c.subs) && forall i :: 0 <= i < |c.subs| ==> c.subs[i].height < c.height
  {
  }

  // ---------------------------------------------------------------- registration

  /** As the plugin built it, save that a missing handler may already have been replaced by the no-op. */
  predicate Unregistered(c: Command)
    reads c
  {
    OrDefault(c.handle) == OrDefault(c.own) && c.fallback == NoHandler
  }

  /** What registration makes of a command. */
  predicate Prepared(c: Command, pluginId: string)
    reads c
  {
    && c.pluginId == pluginId && c.hasParser
    && if c.subs == [] then c.handle == OrDefault(c.own) && c.fallback == NoHandler
       else c.handle == Dispatcher && c.fallback == OrDefault(c.own)
  }

  /** The handler that answers for the command itself, as opposed to its sub-commands. */
  function Effective(c: Command): Handler
    reads c
  {
    if c.subs == [] then c.handle else c.fallback
  }

  datatype Plugin = Plugin(id: string, commands: seq<Command>)

  /** Later commands replace earlier ones of the same prefix. */
  function InsertAll(m: map<string, Command>, cs: seq<Command>): map<string, Command> {
    if cs == [] then m
    else var c := cs[|cs| - 1]; InsertAll(m, cs[..|cs| - 1])[c.prefix := c]
  }

  lemma InsertStep(m: map<string, Command>, cs: seq<Command>, k: nat)
    requires k < |cs|
    ensures InsertAll(m, cs[..k + 1]) == InsertAll(m, cs[..k])[cs[k].prefix := cs[k]]
  {
    assert cs[..k + 1][..k] == cs[..k];
  }

  lemma InsertNone(m: map<string, Command>, cs: seq<Command>)
    ensures InsertAll(m, cs[..0]) == m
  {
  }

  /** Of the commands of one prefix the last is registered. */
  lemma {:induction false} LastOfPrefixWins(m: map<string, Command>, cs: seq<Command>, k: nat)
    requires k < |cs| && forall j :: k < j < |cs| ==> cs[j].prefix != cs[k].prefix
    ensures cs[k].prefix in InsertAll(m, cs) && InsertAll(m, cs)[cs[k].prefix] == cs[k]
  {
    if k < |cs| - 1 {
      var init := cs[..|cs| - 1];
      assert init[k] == cs[k];
      LastOfPrefixWins(m, init, k);
    }
  }

  /** A prefix that does not occur keeps what it had. */
  lemma {:induction false} OthersStay(m: map<string, Command>, cs: seq<Command>, prefix: string)
    requires forall k :: 0 <= k < |cs| ==> cs[k].prefix != prefix
    ensures prefix in InsertAll(m, cs) <==> prefix in m
    ensures prefix in m ==> InsertAll(m, cs)[prefix] == m[prefix]
  {
    if cs != [] {
      OthersStay(m, cs[..|cs| - 1], prefix);
    }
  }

  class Registry {
    var commands: map<string, Command>
    var commandCount: nat

    constructor ()
      ensures commands == map[] && commandCount == 0
    {
      commands, commandCount := map[], 0;
    }

    method SubCommandHandle(c: Command, pluginId: string)
      requires IsTree(c)
      requires forall n :: n in c.nodes ==> Unregistered(n)
      modifies c.nodes, this`commandCount
      ensures forall n :: n in c.nodes ==> Prepared(n, pluginId)
      ensures commandCount == old(commandCount) + |c.nodes|
      decreases c.height, 1
    {
      hide IsTree, AllNodes, SharesNothing;
      TreeParts(c);
      c.hasParser := true;
      c.pluginId := pluginId;
      commandCount := commandCount + 1;
      if c.handle == NoHandler {
        c.handle := Ignore;
      }
      if |c.subs| > 0 {
        c.fallback := c.handle;
        c.handle := Dispatcher;
        assert Prepared(c, pluginId);
        hide Prepared;
        SubCommandsHandle(c.subs, pluginId, c.height);
      }
    }

    /** The loop over the sub-commands, all of a height below `bound`. */
    method SubCommandsHandle(subs: seq<Command>, pluginId: string, ghost bound: nat)
      requires IsForest(subs) && forall i :: 0 <= i < |subs| ==> subs[i].height < bound
      requires forall n :: n in AllNodes(subs) ==> Unregistered(n)
      modifies AllNodes(subs), this`commandCount
      ensures forall n :: n in AllNodes(subs) ==> Prepared(n, pluginId)
      ensures commandCount == old(commandCount) + |AllNodes(subs)|
      decreases bound, 0
    {
      hide IsTree, AllNodes, SharesNothing, Prepared, Unregistered;
      ForestEnds(subs);
      assert forall n :: n in AllNodes(subs) ==> allocated(n) by { AllNodesMembers(subs); }
      for k := 0 to |subs|
        invariant forall n :: n in AllNodes(subs[..k]) ==> Prepared(n, pluginId)
        invariant forall n :: n in AllNodes(subs) && n !in AllNodes(subs[..k]) ==> Unregistered(n)
        invariant commandCount == old(commandCount) + |AllNodes(subs[..k])|
      {
        ForestStep(subs, k);
        SubCommandHandle(subs[k], pluginId);
      }
    }

    /** The body of the loop in `Register`, up to the insertion into the map. */
    method PrepareRoot(v: Command, pluginId: string)
      requires IsTree(v)
      requires forall n :: n in v.nodes ==> Unregistered(n)
      modifies v.nodes, this`commandCount
      ensures forall n :: n in v.nodes ==> Prepared(n, pluginId)
      ensures commandCount == old(commandCount) + |v.nodes|
    {
      hide IsTree, AllNodes, SharesNothing;
      TreeParts(v);
      v.pluginId := pluginId;
      v.hasParser := true;
      if v.handle == NoHandler {
        v.handle := Ignore;
      }
      if |v.subs| > 0 {
        hide Prepared;
        SubCommandHandle(v, pluginId);
      } else {
        assert v.nodes == {v};
        commandCount := commandCount + 1;
      }
    }

    method Register(plugin: Plugin)
      requires IsForest(plugin.commands)
      requires forall n :: n in AllNodes(plugin.commands) ==> Unregistered(n)
      modifies this`commands, this`commandCount, AllNodes(plugin.commands)
      ensures forall n :: n in AllNodes(plugin.commands) ==> Prepared(n, plugin.id)
      ensures commands == InsertAll(old(commands), plugin.commands)
      ensures commandCount == old(commandCount) + |AllNodes(plugin.commands)|
    {
      hide IsTree, AllNodes, SharesNothing, InsertAll, Prepared, Unregistered;
      var cs := plugin.commands;
      ForestEnds(cs);
      assert forall n :: n in AllNodes(cs) ==> allocated(n) by { AllNodesMembers(cs); }
      assert InsertAll(commands, cs[..0]) == commands by { InsertNone(commands, cs); }
      for k := 0 to |cs|
        invariant forall n :: n in AllNodes(cs[..k]) ==> Prepared(n, plugin.id)
        invariant forall n :: n in AllNodes(cs) && n !in AllNodes(cs[..k]) ==> Unregistered(n)
        invariant commands == InsertAll(old(commands), cs[..k])
        invariant commandCount == old(commandCount) + |AllNodes(cs[..k])|
      {
        ForestStep(cs, k);
        PrepareRoot(cs[k], plugin.id);
        InsertStep(old(commands), cs, k);
        commands := commands[cs[k].prefix := cs[k]];
      }
    }
  }

  // ---------------------------------------------------------------- registered commands

  /** Registered, and answering with the handler its plugin gave it. */
  predicate Installed(c: Command)
    reads c
  {
    && c.hasParser
    && !c.own.Dispatcher? && Effective(c) == OrDefault(c.own)
    && (c.subs != [] ==> c.handle.Dispatcher?)
  }

  function Reachable(commands: map<string, Command>): set<Command> {
    set k, n | k in commands && n in commands[k].nodes :: n
  }

  /** Every command under its own prefix, every tree registered, and none sharing a command with another. */
  ghost predicate Ready(commands: map<string, Command>)
    reads Reachable(commands)
  {
    && (forall k :: k in commands ==> commands[k].prefix == k && IsTree(commands[k]))
    && (forall k, l :: k in commands && l in commands && k != l ==> commands[k].nodes !! commands[l].nodes)
    && (forall n :: n in Reachable(commands) ==> Installed(n))
  }

  lemma {:induction false} InsertAllMembers(m: map<string, Command>, cs: seq<Command>)
    ensures forall k :: k in InsertAll(m, cs) ==>
      (InsertAll(m, cs)[k] in cs && InsertAll(m, cs)[k].prefix == k) || (k in m && InsertAll(m, cs)[k] == m[k])
  {
    if cs != [] {
      InsertAllMembers(m, cs[..|cs| - 1]);
    }
  }

  /** Two trees, each of the forest or registered before it, share no command. */
  lemma TreesApart(before: map<string, Command>, cs: seq<Command>, c: Command, d: Command)
    requires SharesNothing(cs) && AllNodes(cs) !! Reachable(before) && c != d
    requires forall k, l :: k in before && l in before && k != l ==> before[k].nodes !! before[l].nodes
    requires c in cs || exists k :: k in before && before[k] == c
    requires d in cs || exists k :: k in before && before[k] == d
    ensures c.nodes !! d.nodes
  {
    hide AllNodes;
    if c in cs {
      NodesOfMember(cs, c);
    }
    if d in cs {
      NodesOfMember(cs, d);
    }
    if c in cs && d in cs {
      var i :| 0 <= i < |cs| && cs[i] == c;
      var j :| 0 <= j < |cs| && cs[j] == d;
      var low, high := if i < j then i else j, if i < j then j else i;
      assert cs[..high][low] == cs[low];
      NodesOfMember(cs[..high], cs[low]);
    } else if c in cs {
      assert d.nodes <= Reachable(before);
    } else if d in cs {
      assert c.nodes <= Reachable(before);
    }
  }

  /** Registering a plugin built from fresh commands leaves everything registered so far in order. */
  method Install(reg: Registry, plugin: Plugin)
    requires Ready(reg.commands) && IsForest(plugin.commands)
    requires forall n :: n in AllNodes(plugin.commands) ==> Unregistered(n) && !n.own.Dispatcher?
    requires AllNodes(plugin.commands) !! Reachable(reg.commands)
    modifies reg`commands, reg`commandCount, AllNodes(plugin.commands)
    ensures Ready(reg.commands)
    ensures forall n :: n in AllNodes(plugin.commands) ==> Effective(n) == OrDefault(n.own) && n.pluginId == plugin.id
    ensures reg.commands == InsertAll(old(reg.commands), plugin.commands)
  {
    hide IsTree, AllNodes, SharesNothing, InsertAll;
    ghost var before := reg.commands;
    reg.Register(plugin);
    InsertAllMembers(before, plugin.commands);
    forall k, l | k in reg.commands && l in reg.commands && k != l
      ensures reg.commands[k].nodes !! reg.commands[l].nodes
    {
      TreesApart(before, plugin.commands, reg.commands[k], reg.commands[l]);
    }
    forall n | n in Reachable(reg.commands) ensures Installed(n) {
      var k :| k in reg.commands && n in reg.commands[k].nodes;
      if reg.commands[k] in plugin.commands {
        NodesOfMember(plugin.commands, reg.commands[k]);
      } else {
        assert n in Reachable(before);
      }
    }
  }

  lemma {:induction false} NodesOfMember(cs: seq<Command>, c: Command)
    requires c in cs
    ensures c.nodes <= AllNodes(cs)
  {
    if cs[0] != c {
      NodesOfMember(cs[1..], c);
    }
  }
}
