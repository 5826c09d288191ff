/**
 * How a message reaches a command: the root command is looked up, the permissions of the command
 * the resolver finds are checked, and the root command's handler is called.
 */
module Middleware {
  import opened Options
  import opened Text
  import opened Commands
  import opened Dispatch
  import opened CommandPaths

  datatype AccessRule = AccessRule(mode: string, users: seq<string>, groups: seq<string>)

  datatype AccessConfig = AccessConfig(default: AccessRule, commands: map<string, AccessRule>)

  datatype Sender = Sender(role: string, userId: string, groupId: string)

  predicate RoleAllows(required: string, actual: string) {
    if required == "owner" then actual == "owner"
    else if required == "admin" then actual == "admin" || actual == "owner"
    else true
  }

  predicate Contains(ids: seq<string>, id: string) {
    id != "" && id in ids
  }

  /** The access rule of the path, or of the plugin when the path has none; no configuration allows all. */
  predicate AccessAllows(access: map<string, AccessConfig>, pluginId: string, path: string, sender: Sender) {
    pluginId in access ==>
      var config := access[pluginId];
      var rule := if path in config.commands then config.commands[path] else config.default;
      var matched := Contains(rule.users, sender.userId) || Contains(rule.groups, sender.groupId);
      if rule.mode == "whitelist" then matched
      else if rule.mode == "blacklist" then !matched
      else true
  }

  /** All checks made before a handler may run, for the command found and its path. */
  predicate Permitted(access: map<string, AccessConfig>, root: Command, target: Command, path: string, sender: Sender, isPrivate: bool)
    reads root
  {
    && RoleAllows(root.role, sender.role)
    && RoleAllows(target.role, sender.role)
    && (isPrivate ==> !root.disablePrivate && !target.disablePrivate)
    && AccessAllows(access, root.pluginId, path, sender)
  }

  /** The command whose own denial reply is used. */
  function Refused(root: Command, target: Command, sender: Sender): Command {
    if RoleAllows(root.role, sender.role) then target else root
  }

  /** The checks in their order: the root's role, the target's role, private use, the access rule. */
  method Refusal(access: map<string, AccessConfig>, root: Command, target: Command, path: string, sender: Sender, isPrivate: bool)
    returns (r: Option<Command>)
    ensures r == if Permitted(access, root, target, path, sender, isPrivate) then None else Some(Refused(root, target, sender))
  {
    if !RoleAllows(root.role, sender.role) {
      return Some(root);
    }
    if target != root && !RoleAllows(target.role, sender.role) {
      return Some(target);
    }
    if isPrivate && (root.disablePrivate || target.disablePrivate) {
      return Some(target);
    }
    if !AccessAllows(access, root.pluginId, path, sender) {
      return Some(target);
    }
    return None;
  }

  datatype Outcome = Ignored | Denied(command: Command) | Unparsed | Dispatched(ran: Option<Handler>)

  /** What was checked for a message, and what came of it. */
  datatype Result = Result(outcome: Outcome, root: Option<Command>, target: Option<Command>, path: string)

  /** No root command could be taken for a mention of the bot. */
  predicate NoMentionKeys(commands: map<string, Command>) {
    forall k :: k in commands ==> !IsMention(k)
  }

  /** The message names the command in its first token, once a mention is taken off. */
  predicate NamedFirst(root: Command, raw: string) {
    Split(FilterAt(raw), ' ')[0] == root.prefix
  }

  /** The token that selects the root command of a group message: the second one after two mentions. */
  function GroupPrefix(content: string): string {
    var msgs := Split(content, ' ');
    if |msgs| > 1 && HasPrefix(msgs[0], "<@") && HasSuffix(msgs[0], ">") then msgs[1] else msgs[0]
  }

  /** The command a walk ends at, with its path. */
  function Found(c: Command, tokens: seq<string>): (Command, string) {
    (Target(c, tokens), PathOf(c, tokens))
  }

  /**
   * The command whose handler answers when the handler of `root` is called, and the path storage is
   * bound to. A root with sub-commands has the dispatcher look at the message's own first token.
   */
  function Answering(commands: map<string, Command>, root: Command, args: seq<string>, isPrivate: bool): Option<(Command, string)>
    requires args != []
  {
    if root.subs == [] then Some((root, root.prefix))
    else if args[0] !in commands || Blocked(commands[args[0]], args[1..], isPrivate) then None
    else Some(Found(commands[args[0]], args[1..]))
  }

  function HandlerOf(answer: Option<(Command, string)>): Option<Handler> {
    if answer.None? then None else Some(OrDefault(answer.value.0.own))
  }

  /** The space-separated pieces the dispatcher looks at. */
  function Args(raw: string): (args: seq<string>)
    ensures args != []
  {
    SplitIsNotEmpty(FilterAt(raw));
    Split(FilterAt(raw), ' ')
  }

  /** `messageRecoveryFunc`: the root command's own handler, which is the dispatcher if it has sub-commands. */
  method Run(reg: Registry, cmd: Command, ctx: MessageContext) returns (ran: Option<Handler>)
    requires Ready(reg.commands) && cmd.prefix in reg.commands && reg.commands[cmd.prefix] == cmd
    modifies ctx
    ensures ran == HandlerOf(Answering(reg.commands, cmd, Args(ctx.raw), ctx.isPrivate))
    ensures ran.Some? ==>
      var answer := Answering(reg.commands, cmd, Args(ctx.raw), ctx.isPrivate).value;
      if cmd.subs == [] then unchanged(ctx) && answer == (cmd, cmd.prefix)
      else ctx.commandPath == answer.1 && ctx.pluginId == answer.0.pluginId
  {
    ReadyIsInstalled(reg.commands, cmd.prefix);
    var args := Args(ctx.raw);
    assert args == Split(FilterAt(ctx.raw), ' ');
    hide Args, Split, FilterAt, Prefixes, Join, Ready, IsTree, Walked, Blocked, Bound;
    if cmd.handle == Dispatcher {
      ran := SubCommandHandleFunc(reg, ctx);
      if args[0] in reg.commands {
        TargetIsInstalled(reg.commands, args[0], args[1..]);
      }
      if ran.Some? {
        UnblockedIsBound(reg.commands[args[0]], args[1..], ctx.isPrivate);
      }
    } else {
      ran := Some(cmd.handle);
    }
  }

  lemma TargetIsInstalled(commands: map<string, Command>, key: string, tokens: seq<string>)
    requires Ready(commands) && key in commands
    ensures Installed(Target(commands[key], tokens)) && Target(commands[key], tokens) in commands[key].nodes
  {
    WalkIsInstalled(commands, key, tokens);
    var walked := Walked(commands[key], tokens);
    assert walked[|walked| - 1] in walked;
  }

  lemma ReadyIsInstalled(commands: map<string, Command>, key: string)
    requires Ready(commands) && key in commands
    ensures Installed(commands[key]) && IsTree(commands[key]) && commands[key].prefix == key
  {
    TreeParts(commands[key]);
    assert commands[key] in Reachable(commands);
  }

  lemma UnblockedIsBound(c: Command, tokens: seq<string>, isPrivate: bool)
    requires !Blocked(c, tokens, isPrivate)
    ensures Bound(c, tokens, isPrivate) == Walked(c, tokens)
  {
    BoundIsWalked(c, tokens, isPrivate);
  }

  /**
   * The resolver filters the already filtered text once more, and the dispatcher the original
   * text; unless a command is named like a mention, both see the same sub-command tokens.
   */
  lemma SameTokens(raw: string, key: string)
    requires !IsMention(key) && Split(FilterAt(raw), ' ')[0] == key
    ensures Rest(Fields(FilterAt(FilterAt(raw)))) == Split(FilterAt(raw), ' ')[1..]
  {
    FilterAtOnTokens(raw);
    FilterAtOnTokens(FilterAt(raw));
  }

  lemma LeafTarget(c: Command, tokens: seq<string>)
    ensures c.subs == [] ==> Target(c, tokens) == c && PathOf(c, tokens) == c.prefix
  {
    assert c.subs == [] ==> Walked(c, tokens) == [c];
    assert Prefixes([c]) == [c.prefix];
  }

  // ---------------------------------------------------------------- group messages

  /** The command that the resolver finds for a group message, after its root was found in the filtered text. */
  function GroupChecked(root: Command, raw: string): (Command, string) {
    Found(root, Rest(Fields(FilterAt(FilterAt(raw)))))
  }

  /** The path checked is one that the root offers for access rules. */
  lemma CheckedPathIsOffered(commands: map<string, Command>, key: string, raw: string)
    requires Ready(commands) && key in commands
    ensures HasPath(commands[key], GroupChecked(commands[key], raw).1)
    ensures HasPath(commands[key], PrivateChecked(commands[key], raw).1)
  {
    TreeIsFinite(commands[key]);
    hide IsFinite, IsTree, HasPath, FilterAt, TrimSpace, Fields, PathOf;
    ResolvedPathIsOffered(commands[key], FilterAt(raw));
    ResolvedPathIsOffered(commands[key], TrimSpace(raw));
  }

  /** If a handler answers a group message it is that of the command checked, with storage bound to the path checked. */
  predicate GroupAgrees(commands: map<string, Command>, raw: string) {
    var key := GroupPrefix(FilterAt(raw));
    key in commands ==>
      var answer := Answering(commands, commands[key], Args(raw), false);
      answer.Some? ==> answer.value == GroupChecked(commands[key], raw)
  }

  /** With one space-separated look at the message the dispatcher finds the resolver's root and tokens, or no command at all. */
  lemma GroupTokensAgree(commands: map<string, Command>, raw: string)
    requires NoMentionKeys(commands) && GroupPrefix(FilterAt(raw)) in commands
    ensures var args := Split(FilterAt(raw), ' ');
      if args[0] == GroupPrefix(FilterAt(raw)) then Rest(Fields(FilterAt(FilterAt(raw)))) == args[1..]
      else args[0] !in commands
  {
    hide FilterAt, Fields, Split;
    var args := Split(FilterAt(raw), ' ');
    SplitIsNotEmpty(FilterAt(raw));
    if args[0] == GroupPrefix(FilterAt(raw)) {
      SameTokens(raw, args[0]);
    } else {
      assert IsMention(args[0]);
    }
  }

  /** Without mention-like names a root with sub-commands answers exactly the messages that name it first. */
  lemma GroupWithoutMentions(commands: map<string, Command>, raw: string)
    requires NoMentionKeys(commands) && GroupPrefix(FilterAt(raw)) in commands
    requires commands[GroupPrefix(FilterAt(raw))].prefix == GroupPrefix(FilterAt(raw))
    ensures GroupAgrees(commands, raw)
    ensures var root := commands[GroupPrefix(FilterAt(raw))];
      Answering(commands, root, Args(raw), false).Some? <==> root.subs == [] || NamedFirst(root, raw)
  {
    hide Split, FilterAt, Fields, Target, PathOf;
    GroupTokensAgree(commands, raw);
    LeafTarget(commands[GroupPrefix(FilterAt(raw))], Rest(Fields(FilterAt(FilterAt(raw)))));
  }

  method SelectRoot(content: string) returns (key: string)
    ensures key == GroupPrefix(content)
  {
    hide Split;
    var msgs := Split(content, ' ');
    SplitIsNotEmpty(content);
    key := msgs[0];
    if |msgs| > 1 && HasPrefix(msgs[0], "<@") && HasSuffix(msgs[0], ">") {
      key := msgs[1];
    }
  }

  /**
   * A group message. Whatever the names, the handler that runs is the one its plugin gave the
   * answering command; where the message agrees, that is the very command that was checked.
   */
  method ProcessGroupMessage(reg: Registry, access: map<string, AccessConfig>, raw: string, sender: Sender, parses: bool)
    returns (res: Result, ctx: MessageContext)
    requires Ready(reg.commands)
    ensures fresh(ctx)
    ensures var key := GroupPrefix(FilterAt(raw));
      if key !in reg.commands then res == Result(Ignored, None, None, "")
      else
        var root := reg.commands[key];
        var (target, path) := GroupChecked(root, raw);
        && res.root == Some(root) && res.target == Some(target) && res.path == path && HasPath(root, path)
        && (res.outcome.Denied? <==> !Permitted(access, root, target, path, sender, false))
        && (res.outcome.Denied? ==> res.outcome.command == Refused(root, target, sender))
        && (res.outcome.Unparsed? <==> Permitted(access, root, target, path, sender, false) && !parses)
        && (res.outcome.Dispatched? <==> Permitted(access, root, target, path, sender, false) && parses)
    ensures res.outcome.Dispatched? ==>
      var answer := Answering(reg.commands, res.root.value, Args(raw), false);
      && res.outcome.ran == HandlerOf(answer)
      && (answer.Some? ==> ctx.pluginId == answer.value.0.pluginId && ctx.commandPath == answer.value.1)
    ensures GroupAgrees(reg.commands, raw) && res.outcome.Dispatched? && res.outcome.ran.Some? ==>
      var target := res.target.value;
      && res.outcome.ran.value == OrDefault(target.own) == Effective(target)
      && ctx.commandPath == res.path && ctx.pluginId == target.pluginId
    ensures NoMentionKeys(reg.commands) && res.outcome.Dispatched? ==>
      && GroupAgrees(reg.commands, raw)
      && (res.outcome.ran.Some? <==> res.root.value.subs == [] || NamedFirst(res.root.value, raw))
  {
    hide Split, FilterAt, Fields, Walked, Join, Prefixes, IsMention, AccessAllows, RoleAllows, Target, PathOf;
    hide IsTree, NoMentionKeys, Rest, Answering, Args, HasPath, Blocked, Permitted, Refused, GroupPrefix, NamedFirst;
    ctx := new MessageContext(raw, false);
    var content := FilterAt(raw);
    var key := SelectRoot(content);
    if key !in reg.commands {
      return Result(Ignored, None, None, ""), ctx;
    }
    var cmd := reg.commands[key];
    ReadyIsInstalled(reg.commands, key);
    ctx.BindStorage(cmd.pluginId, cmd.prefix);
    var target, path := ResolveCommand(cmd, content);
    TargetIsInstalled(reg.commands, key, Rest(Fields(FilterAt(content))));
    CheckedPathIsOffered(reg.commands, key, raw);
    res := Result(Unparsed, Some(cmd), Some(target), path);
    var refusal := Refusal(access, cmd, target, path, sender, false);
    if refusal.Some? {
      return res.(outcome := Denied(refusal.value)), ctx;
    }
    if !parses {
      return res, ctx;
    }
    var ran := Run(reg, cmd, ctx);
    if NoMentionKeys(reg.commands) {
      GroupWithoutMentions(reg.commands, raw);
    }
    res := res.(outcome := Dispatched(ran));
  }

  // ---------------------------------------------------------------- private messages

  function PrivateChecked(root: Command, raw: string): (Command, string) {
    Found(root, Rest(Fields(FilterAt(TrimSpace(raw)))))
  }

  predicate PrivateAgrees(commands: map<string, Command>, raw: string) {
    var tokens := Fields(TrimSpace(raw));
    tokens != [] && tokens[0] in commands ==>
      var root := commands[tokens[0]];
      var answer := Answering(commands, root, Args(raw), true);
      answer.Some? ==> answer.value == PrivateChecked(root, raw)
  }

  lemma PrivateTokens(raw: string)
    ensures Fields(TrimSpace(raw)) == Fields(raw) && (TrimSpace(raw) != "" <==> Fields(raw) != [])
    ensures FilterAt(TrimSpace(raw)) == FilterAt(raw)
  {
    FieldsOfTrimSpace(raw);
    BlankHasNoFields(raw);
  }

  lemma PrivateTokensAgree(raw: string)
    requires TrimSpace(raw) != ""
    ensures Fields(TrimSpace(raw)) != [] && FilterAt(TrimSpace(raw)) == FilterAt(raw)
    ensures var key := Fields(TrimSpace(raw))[0];
      !IsMention(key) ==>
        && Split(FilterAt(raw), ' ')[0] == key
        && Rest(Fields(FilterAt(TrimSpace(raw)))) == Split(FilterAt(raw), ' ')[1..]
  {
    FieldsOfTrimSpace(raw);
    BlankHasNoFields(raw);
    FilterAtOnTokens(raw);
  }

  lemma PrivateWithoutMentions(commands: map<string, Command>, raw: string)
    requires NoMentionKeys(commands) && TrimSpace(raw) != ""
    ensures Fields(TrimSpace(raw)) != [] && PrivateAgrees(commands, raw)
    ensures var key := Fields(TrimSpace(raw))[0];
      key in commands ==>
        (Answering(commands, commands[key], Args(raw), true).Some? <==>
          commands[key].subs == [] || !Blocked(commands[key], Split(FilterAt(raw), ' ')[1..], true))
  {
    hide Split, FilterAt, Fields, Target, PathOf, TrimSpace, Blocked;
    PrivateTokensAgree(raw);
    var key := Fields(TrimSpace(raw))[0];
    if key in commands {
      LeafTarget(commands[key], Rest(Fields(FilterAt(TrimSpace(raw)))));
    }
  }

  /**
   * A private message. The dispatcher also refuses to pass through commands that are not meant
   * for private use; the checks themselves look only at the root and at the target.
   */
  method ProcessPrivateMessage(reg: Registry, access: map<string, AccessConfig>, raw: string, sender: Sender, parses: bool)
    returns (res: Result, ctx: MessageContext)
    requires Ready(reg.commands) && sender.groupId == ""
    ensures fresh(ctx)
    ensures TrimSpace(raw) == "" ==> res == Result(Ignored, None, None, "")
    ensures TrimSpace(raw) != "" ==>
      && Fields(TrimSpace(raw)) != []
      && var key := Fields(TrimSpace(raw))[0];
         if key !in reg.commands then res == Result(Ignored, None, None, "")
         else
           var root := reg.commands[key];
           var (target, path) := PrivateChecked(root, raw);
           && res.root == Some(root) && res.target == Some(target) && res.path == path && HasPath(root, path)
           && (res.outcome.Denied? <==> !Permitted(access, root, target, path, sender, true))
           && (res.outcome.Denied? ==> res.outcome.command == Refused(root, target, sender))
           && (res.outcome.Unparsed? <==> Permitted(access, root, target, path, sender, true) && !parses)
           && (res.outcome.Dispatched? <==> Permitted(access, root, target, path, sender, true) && parses)
    ensures res.outcome.Dispatched? ==>
      var answer := Answering(reg.commands, res.root.value, Args(raw), true);
      && res.outcome.ran == HandlerOf(answer)
      && (answer.Some? ==> ctx.pluginId == answer.value.0.pluginId && ctx.commandPath == answer.value.1)
    ensures PrivateAgrees(reg.commands, raw) && res.outcome.Dispatched? && res.outcome.ran.Some? ==>
      var target := res.target.value;
      && res.outcome.ran.value == OrDefault(target.own) == Effective(target)
      && ctx.commandPath == res.path && ctx.pluginId == target.pluginId
    ensures NoMentionKeys(reg.commands) && res.outcome.Dispatched? ==>
      && PrivateAgrees(reg.commands, raw)
      && (res.outcome.ran.Some? <==> res.root.value.subs == [] || !Blocked(res.root.value, Split(FilterAt(raw), ' ')[1..], true))
  {
    hide Split, FilterAt, Fields, TrimSpace, Walked, Join, Prefixes, IsMention, AccessAllows, RoleAllows, Target, PathOf;
    hide IsTree, NoMentionKeys, Rest, Answering, Args, HasPath, Blocked, Permitted, Refused;
    ctx := new MessageContext(raw, true);
    var content := TrimSpace(raw);
    if content == "" {
      return Result(Ignored, None, None, ""), ctx;
    }
    PrivateTokensAgree(raw);
    SplitIsNotEmpty(FilterAt(raw));
    var key := Fields(content)[0];
    if key !in reg.commands {
      return Result(Ignored, None, None, ""), ctx;
    }
    var cmd := reg.commands[key];
    ReadyIsInstalled(reg.commands, key);
    ctx.BindStorage(cmd.pluginId, cmd.prefix);
    var target, path := ResolveCommand(cmd, content);
    TargetIsInstalled(reg.commands, key, Rest(Fields(FilterAt(content))));
    CheckedPathIsOffered(reg.commands, key, raw);
    res := Result(Unparsed, Some(cmd), Some(target), path);
    var refusal := Refusal(access, cmd, target, path, sender, true);
    if refusal.Some? {
      return res.(outcome := Denied(refusal.value)), ctx;
    }
    if !parses {
      return res, ctx;
    }
    var ran := Run(reg, cmd, ctx);
    if NoMentionKeys(reg.commands) {
      PrivateWithoutMentions(reg.commands, raw);
    }
    res := res.(outcome := Dispatched(ran));
  }
}
