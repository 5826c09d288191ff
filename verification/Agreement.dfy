/**
 * When the command checked is the command run: for which sets of registered names the two agree on
 * every message there is.
 */
module Agreement {
  import opened Options
  import opened Text
  import opened Commands
  import opened Dispatch
  import opened Middleware

  /** A mention in full, which selects the token behind it. */
  predicate IsBracketed(token: string) {
    HasPrefix(token, "<@") && HasSuffix(token, ">")
  }

  /**
   * No command with sub-commands is named like a mention beside another command. Only names that are
   * single words count: a message cannot spell any other.
   */
  predicate PrivateNamesSafe(commands: map<string, Command>) {
    forall k, l :: k in commands && l in commands && k != l && IsWord(k) && IsWord(l) && IsMention(k) ==>
      commands[k].subs == []
  }

  /** No sub-command can be named below a mention-like root, and beside a bracketed one nobody else has sub-commands. */
  predicate GroupNamesSafe(commands: map<string, Command>) {
    && (forall k, s :: k in commands && s in commands[k].subs && IsWord(k) && IsMention(k) ==> !IsWord(s.prefix))
    && (forall k, l :: k in commands && l in commands && k != l && IsWord(k) && IsWord(l) && IsBracketed(k) ==>
          commands[l].subs == [])
  }

  // ---------------------------------------------------------------- on tokens

  function ArgsOf(tokens: seq<string>): (args: seq<string>)
    ensures args != []
  {
    if tokens == [] then [""] else tokens
  }

  function RootToken(tokens: seq<string>): string {
    var args := ArgsOf(tokens);
    if |args| > 1 && IsBracketed(args[0]) then args[1] else args[0]
  }

  /** Agreement on a group message, said of the tokens its filtered text has. */
  predicate GroupAgreesOn(commands: map<string, Command>, tokens: seq<string>) {
    var key := RootToken(tokens);
    key in commands ==>
      var answer := Answering(commands, commands[key], ArgsOf(tokens), false);
      answer.Some? ==> answer.value == Found(commands[key], Rest(FilterTokens(tokens)))
  }

  lemma GroupOnTokens(commands: map<string, Command>, raw: string)
    ensures GroupAgrees(commands, raw) <==> GroupAgreesOn(commands, FilterTokens(Fields(raw)))
    ensures AreWords(FilterTokens(Fields(raw)))
  {
    FilterAtOnTokens(raw);
    FilterAtOnTokens(FilterAt(raw));
    FieldsAreWords(raw);
    hide Split, Fields, FilterAt, Answering, Found;
  }

  /** Agreement on a private message, said of all its tokens. */
  predicate PrivateAgreesOn(commands: map<string, Command>, tokens: seq<string>) {
    tokens != [] && tokens[0] in commands ==>
      var answer := Answering(commands, commands[tokens[0]], ArgsOf(FilterTokens(tokens)), true);
      answer.Some? ==> answer.value == Found(commands[tokens[0]], Rest(FilterTokens(tokens)))
  }

  lemma PrivateOnTokens(commands: map<string, Command>, raw: string)
    ensures PrivateAgrees(commands, raw) <==> PrivateAgreesOn(commands, Fields(raw))
    ensures AreWords(Fields(raw))
  {
    PrivateTokens(raw);
    FilterAtOnTokens(raw);
    FieldsAreWords(raw);
    hide Split, Fields, FilterAt, TrimSpace, Answering, Found;
  }

  // ---------------------------------------------------------------- walks

  lemma FoundHere(c: Command, tokens: seq<string>)
    requires tokens == [] || forall s :: s in c.subs ==> s.prefix != tokens[0]
    ensures Found(c, tokens) == (c, c.prefix)
  {
    assert Walked(c, tokens) == [c];
    assert Prefixes([c]) == [c.prefix];
  }

  lemma {:induction false} WalkGoesDown(c: Command, tokens: seq<string>)
    requires IsTree(c)
    ensures Target(c, tokens) == c || Target(c, tokens).height < c.height
    decreases |tokens|
  {
    hide IsTree;
    TreeParts(c);
    if tokens != [] && FindSub(c.subs, tokens[0]).Some? {
      WalkGoesDown(FindSub(c.subs, tokens[0]).value, tokens[1..]);
    }
  }

  /** A walk that can leave its root does. */
  lemma FoundBelow(c: Command, tokens: seq<string>, s: Command)
    requires IsTree(c) && s in c.subs && tokens != [] && tokens[0] == s.prefix
    ensures Found(c, tokens).0 != c
  {
    hide IsTree;
    TreeParts(c);
    WalkGoesDown(FindSub(c.subs, tokens[0]).value, tokens[1..]);
  }

  // ---------------------------------------------------------------- group messages

  /** Safe names make every message agree. */
  lemma GroupSafeAgrees(commands: map<string, Command>, tokens: seq<string>)
    requires GroupNamesSafe(commands) && AreWords(tokens)
    requires forall k :: k in commands ==> commands[k].prefix == k
    ensures GroupAgreesOn(commands, tokens)
  {
    var key := RootToken(tokens);
    if key in commands && tokens != [] {
      var root := commands[key];
      assert key in tokens && tokens[0] in tokens;
      hide IsMention, IsBracketed, IsWord;
      if root.subs == [] {
        FoundHere(root, Rest(FilterTokens(tokens)));
      } else if key == tokens[0] && IsMention(key) && |tokens| > 1 {
        assert IsWord(tokens[1]) && (|tokens| > 2 ==> IsWord(tokens[2]));
        FoundHere(root, tokens[1..]);
        FoundHere(root, Rest(tokens[1..]));
      }
    }
  }

  /** The message of these tokens behind one that is taken for a mention. */
  lemma GroupWitness(commands: map<string, Command>, mention: string, tokens: seq<string>) returns (raw: string)
    requires IsMention(mention) && IsWord(mention) && AreWords(tokens) && tokens != []
    ensures GroupAgrees(commands, raw) <==> GroupAgreesOn(commands, tokens)
  {
    raw := Join([mention] + tokens, " ");
    FieldsOfJoin([mention] + tokens);
    GroupOnTokens(commands, raw);
    hide Fields, Join;
    assert ([mention] + tokens)[1..] == tokens;
  }

  /** Below a mention-like root the dispatcher and the resolver start at different tokens. */
  lemma MentionRootDiverges(commands: map<string, Command>, k: string, s: Command) returns (raw: string)
    requires k in commands && IsTree(commands[k]) && s in commands[k].subs
    requires IsWord(k) && IsMention(k) && IsWord(s.prefix)
    ensures !GroupAgrees(commands, raw)
  {
    hide IsTree, IsWord, IsMention;
    var root := commands[k];
    if IsBracketed(k) && forall c :: c in root.subs ==> c.prefix != k {
      raw := GroupWitness(commands, k, [k, k, s.prefix]);
      assert [k, k, s.prefix][1..] == [k, s.prefix] && [k, s.prefix][1..] == [s.prefix];
      FoundHere(root, [k, s.prefix]);
      FoundBelow(root, [s.prefix], s);
    } else {
      var below := if IsBracketed(k) then k else s.prefix;
      var c :| c in root.subs && c.prefix == below;
      raw := GroupWitness(commands, k, [k, below]);
      assert [k, below][1..] == [below] && [below][1..] == [];
      FoundBelow(root, [below], c);
      FoundHere(root, []);
    }
  }

  /** Behind a bracketed mention the resolver looks up the next token, and the dispatcher the mention. */
  lemma BracketedRootDiverges(commands: map<string, Command>, k: string, l: string) returns (raw: string)
    requires k in commands && l in commands && IsTree(commands[k]) && IsTree(commands[l])
    requires commands[k].nodes !! commands[l].nodes
    requires IsWord(k) && IsWord(l) && IsBracketed(k) && commands[l].subs != []
    ensures !GroupAgrees(commands, raw)
  {
    hide IsTree, IsWord;
    raw := GroupWitness(commands, k, [k, l]);
    assert [k, l][1..] == [l] && [l][1..] == [];
    FoundHere(commands[l], []);
    StaysInTree(commands[k], [l]);
    TreeParts(commands[l]);
  }

  lemma StaysInTree(c: Command, tokens: seq<string>)
    requires IsTree(c)
    ensures Target(c, tokens) in c.nodes
  {
    WalkedInTree(c, tokens);
    assert Target(c, tokens) in Walked(c, tokens);
  }

  /** In groups every message agrees exactly when the names are safe. */
  lemma GroupAgreesExactlyWhenSafe(commands: map<string, Command>)
    requires Ready(commands)
    ensures (forall raw :: GroupAgrees(commands, raw)) <==> GroupNamesSafe(commands)
  {
    hide GroupAgrees, IsTree;
    if GroupNamesSafe(commands) {
      forall raw ensures GroupAgrees(commands, raw) {
        GroupOnTokens(commands, raw);
        GroupSafeAgrees(commands, FilterTokens(Fields(raw)));
      }
    } else if k, s :| k in commands && s in commands[k].subs && IsWord(k) && IsMention(k) && IsWord(s.prefix) {
      var raw := MentionRootDiverges(commands, k, s);
    } else {
      var k, l :| k in commands && l in commands && k != l && IsWord(k) && IsWord(l) && IsBracketed(k) && commands[l].subs != [];
      var raw := BracketedRootDiverges(commands, k, l);
    }
  }

  // ---------------------------------------------------------------- private messages

  lemma PrivateSafeAgrees(commands: map<string, Command>, tokens: seq<string>)
    requires PrivateNamesSafe(commands) && AreWords(tokens)
    ensures PrivateAgreesOn(commands, tokens)
  {
    if tokens != [] && tokens[0] in commands {
      var root := commands[tokens[0]];
      hide IsMention, IsWord, Blocked;
      if root.subs == [] {
        FoundHere(root, Rest(FilterTokens(tokens)));
      } else if |tokens| > 1 {
        assert tokens[1] in tokens && tokens[0] in tokens;
      }
    }
  }

  lemma WordsOf(k: string, l: string)
    requires IsWord(k) && IsWord(l)
    ensures AreWords([k, l])
  {
  }

  /** The dispatcher takes a mention-like root for a mention, and runs the command named behind it unchecked. */
  lemma PrivateMentionDiverges(commands: map<string, Command>, k: string, l: string) returns (raw: string)
    requires k in commands && l in commands && commands[k] != commands[l]
    requires IsWord(k) && IsWord(l) && IsMention(k) && commands[k].subs != []
    ensures !PrivateAgrees(commands, raw)
  {
    hide Fields, Join, IsWord, IsMention, PrivateAgrees;
    raw := Join([k, l], " ");
    FieldsOfJoin([k, l]) by { WordsOf(k, l); }
    PrivateOnTokens(commands, raw);
    assert [k, l][1..] == [l] && [l][1..] == [];
    FoundHere(commands[l], []);
    FoundHere(commands[k], []);
    assert Walked(commands[l], []) == [commands[l]];
  }

  /** In private every message agrees exactly when the names are safe. */
  lemma PrivateAgreesExactlyWhenSafe(commands: map<string, Command>)
    requires Ready(commands)
    ensures (forall raw :: PrivateAgrees(commands, raw)) <==> PrivateNamesSafe(commands)
  {
    hide PrivateAgrees, IsTree;
    if PrivateNamesSafe(commands) {
      forall raw ensures PrivateAgrees(commands, raw) {
        PrivateOnTokens(commands, raw);
        PrivateSafeAgrees(commands, Fields(raw));
      }
    } else {
      var k, l :| k in commands && l in commands && k != l && IsWord(k) && IsWord(l) && IsMention(k) && commands[k].subs != [];
      assert commands[k].prefix == k && commands[l].prefix == l;
      var raw := PrivateMentionDiverges(commands, k, l);
    }
  }

  // ---------------------------------------------------------------- two registries

  lemma MentionTokens(raw: string)
    requires Fields(raw) == ["@a", "@x", "s"]
    ensures Split(FilterAt(raw), ' ') == ["@x", "s"] && Rest(Fields(FilterAt(FilterAt(raw)))) == []
    ensures GroupPrefix(FilterAt(raw)) == "@x"
  {
    FilterAtOnTokens(raw);
    FilterAtOnTokens(FilterAt(raw));
    hide Fields, Split, FilterAt, Join;
    var tokens := ["@a", "@x", "s"];
    assert tokens[1..] == ["@x", "s"] && tokens[1..][1..] == ["s"];
    assert IsMention("@a") && IsMention("@x");
    assert "@x"[0] != "<@"[0];
  }

  lemma Single(c: Command)
    requires IsTree(c)
    ensures IsForest([c]) && AllNodes([c]) == c.nodes
  {
    assert [c][..0] == [] && [c][1..] == [];
  }

  lemma MentionTargets(root: Command, sub: Command)
    requires root.subs == [sub] && sub.prefix == "s"
    ensures Target(root, ["s"]) == sub && Target(root, []) == root
  {
    assert ["s"][1..] == [];
    assert Walked(sub, []) == [sub];
    assert Walked(root, ["s"]) == [root] + [sub];
  }

  method BuildMentionTree() returns (reg: Registry, root: Command, sub: Command)
    ensures fresh(reg) && fresh(root) && fresh(sub)
    ensures Ready(reg.commands) && reg.commands == map["@x" := root]
    ensures root.prefix == "@x" && sub.prefix == "s" && root.subs == [sub] && sub.subs == []
    ensures root.own == Own(1) && sub.own == Own(2) && root.role == "" && sub.role == "" && !root.disablePrivate
  {
    hide IsTree, IsForest, AllNodes;
    reg := new Registry();
    EmptyForest();
    sub := new Command("s", "", false, Own(2), []);
    TreeParts(sub);
    Single(sub);
    root := new Command("@x", "", false, Own(1), [sub]);
    TreeParts(root);
    Single(root);
    assert root.nodes == {root, sub};
    Install(reg, Plugin("p", [root]));
    InsertOne(root);
  }

  lemma EmptyForest()
    ensures IsForest([])
  {
  }

  lemma InsertOne(c: Command)
    ensures InsertAll(map[], [c]) == map[c.prefix := c]
  {
    assert [c][..0] == [];
  }

  /** A group message that is checked as "@x" and runs the handler of its sub-command "s". */
  method MentionNameDiverges(raw: string) returns (res: Result, root: Command, sub: Command)
    requires Fields(raw) == ["@a", "@x", "s"]
    ensures root.prefix == "@x" && sub.prefix == "s" && root.subs == [sub] && root.own == Own(1) && sub.own == Own(2)
    ensures res.target == Some(root) && res.outcome == Dispatched(Some(sub.own))
  {
    var reg;
    reg, root, sub := BuildMentionTree();
    MentionTokens(raw);
    MentionTargets(root, sub);
    hide Ready, NoMentionKeys, Fields, Split, FilterAt, Target, PathOf, GroupPrefix;
    var ctx: MessageContext;
    res, ctx := ProcessGroupMessage(reg, map[], raw, Sender("", "u", "g"), true);
  }

  lemma PrivateMentionTokens(raw: string)
    requires Fields(raw) == ["@x", "s"]
    ensures Fields(TrimSpace(raw)) == ["@x", "s"] && TrimSpace(raw) != ""
    ensures Args(raw) == ["s"] && Rest(Fields(FilterAt(TrimSpace(raw)))) == []
  {
    PrivateTokens(raw);
    FilterAtOnTokens(raw);
    hide Fields, Split, FilterAt, Join, TrimSpace;
    var tokens := ["@x", "s"];
    assert IsMention("@x") && tokens[1..] == ["s"] && tokens[1..][1..] == [];
  }

  method BuildGuardedRegistry() returns (reg: Registry, root: Command, guarded: Command)
    ensures fresh(reg) && fresh(root) && fresh(guarded)
    ensures Ready(reg.commands) && reg.commands == map["@x" := root, "s" := guarded]
    ensures root.prefix == "@x" && root.subs != [] && root.role == "" && !root.disablePrivate
    ensures guarded.prefix == "s" && guarded.subs == [] && guarded.role == "owner" && guarded.disablePrivate && guarded.own == Own(3)
  {
    var sub;
    reg, root, sub := BuildMentionTree();
    hide IsTree, IsForest, AllNodes;
    EmptyForest();
    guarded := new Command("s", "owner", true, Own(3), []);
    TreeParts(guarded);
    Single(guarded);
    Install(reg, Plugin("q", [guarded]));
    InsertStep(map["@x" := root], [guarded], 0);
  }

  lemma GuardedAnswers(commands: map<string, Command>, root: Command, guarded: Command, raw: string)
    requires commands == map["@x" := root, "s" := guarded] && root.subs != [] && guarded.subs == []
    requires Args(raw) == ["s"] && Rest(Fields(FilterAt(TrimSpace(raw)))) == []
    ensures PrivateChecked(root, raw) == (root, root.prefix)
    ensures HandlerOf(Answering(commands, root, Args(raw), true)) == Some(OrDefault(guarded.own))
  {
    hide Fields, FilterAt, TrimSpace, Args;
    FoundHere(root, []);
    FoundHere(guarded, []);
    assert Walked(guarded, []) == [guarded];
  }

  /** A private message that is checked as "@x" and runs "s", which is for owners and not for private use. */
  method GuardedCommandRuns(raw: string) returns (res: Result, root: Command, guarded: Command)
    requires Fields(raw) == ["@x", "s"]
    ensures guarded.role == "owner" && guarded.disablePrivate && guarded.own == Own(3)
    ensures res.target == Some(root) && root != guarded && res.outcome == Dispatched(Some(guarded.own))
  {
    var reg;
    reg, root, guarded := BuildGuardedRegistry();
    PrivateMentionTokens(raw);
    GuardedAnswers(reg.commands, root, guarded, raw);
    hide *;
    var ctx: MessageContext;
    res, ctx := ProcessPrivateMessage(reg, map[], raw, Sender("", "u", ""), true);
  }

}
