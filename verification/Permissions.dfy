/** What being permitted means for a sender, said of roles, lists and modes one by one. */
module Permissions {
  import opened Commands
  import opened Middleware

  // ---------------------------------------------------------------- roles

  /** An owner's command is for owners, an admin's for admins and owners, any other for everybody. */
  lemma RolesAreRanked(required: string, actual: string)
    ensures RoleAllows("owner", actual) <==> actual == "owner"
    ensures RoleAllows("admin", actual) <==> actual == "admin" || actual == "owner"
    ensures required != "owner" && required != "admin" ==> RoleAllows(required, actual)
    ensures RoleAllows("owner", actual) ==> RoleAllows(required, actual)
  {
  }

  /** Both the root's role and the target's are asked for. */
  lemma EveryRoleIsAsked(access: map<string, AccessConfig>, root: Command, target: Command, path: string, sender: Sender, isPrivate: bool)
    requires Permitted(access, root, target, path, sender, isPrivate)
    ensures root.role == "owner" || target.role == "owner" ==> sender.role == "owner"
    ensures root.role == "admin" || target.role == "admin" ==> sender.role == "admin" || sender.role == "owner"
    ensures isPrivate ==> !root.disablePrivate && !target.disablePrivate
  {
  }

  /** The root's own denial reply is used exactly if its role keeps the sender out. */
  lemma DenialNamesTheRoot(root: Command, target: Command, sender: Sender)
    ensures Refused(root, target, sender) == if
        (root.role == "owner" && sender.role != "owner") || (root.role == "admin" && sender.role != "admin" && sender.role != "owner")
      then root else target
  {
  }

  // ---------------------------------------------------------------- lists

  /** The user or the group is on the rule's lists; nobody without an id is. */
  predicate Listed(rule: AccessRule, sender: Sender) {
    || (sender.userId != "" && exists i :: 0 <= i < |rule.users| && rule.users[i] == sender.userId)
    || (sender.groupId != "" && exists i :: 0 <= i < |rule.groups| && rule.groups[i] == sender.groupId)
  }

  /** This rule decides about the path: the path's own, and the plugin's default only if the path has none. */
  predicate Governs(access: map<string, AccessConfig>, pluginId: string, path: string, rule: AccessRule) {
    pluginId in access &&
    if path in access[pluginId].commands then rule == access[pluginId].commands[path] else rule == access[pluginId].default
  }

  /** Nothing but the rule stands between the sender and the command. */
  predicate OtherwisePermitted(root: Command, target: Command, sender: Sender, isPrivate: bool) {
    && (root.role == "owner" || target.role == "owner" ==> sender.role == "owner")
    && (root.role == "admin" || target.role == "admin" ==> sender.role == "admin" || sender.role == "owner")
    && (isPrivate ==> !root.disablePrivate && !target.disablePrivate)
  }

  lemma ListedMeans(rule: AccessRule, sender: Sender)
    ensures Listed(rule, sender) <==> Contains(rule.users, sender.userId) || Contains(rule.groups, sender.groupId)
  {
  }

  /** A blacklist keeps out those it names and nobody else. */
  lemma BlacklistKeepsOut(access: map<string, AccessConfig>, root: Command, target: Command, path: string, sender: Sender,
                          isPrivate: bool, rule: AccessRule)
    requires Governs(access, root.pluginId, path, rule) && rule.mode == "blacklist"
    ensures Listed(rule, sender) ==> !Permitted(access, root, target, path, sender, isPrivate)
    ensures !Listed(rule, sender) ==>
      (Permitted(access, root, target, path, sender, isPrivate) <==> OtherwisePermitted(root, target, sender, isPrivate))
  {
    ListedMeans(rule, sender);
    hide Listed, Contains;
  }

  /** A whitelist lets in those it names and nobody else. */
  lemma WhitelistLetsIn(access: map<string, AccessConfig>, root: Command, target: Command, path: string, sender: Sender,
                        isPrivate: bool, rule: AccessRule)
    requires Governs(access, root.pluginId, path, rule) && rule.mode == "whitelist"
    ensures !Listed(rule, sender) ==> !Permitted(access, root, target, path, sender, isPrivate)
    ensures Listed(rule, sender) ==>
      (Permitted(access, root, target, path, sender, isPrivate) <==> OtherwisePermitted(root, target, sender, isPrivate))
  {
    ListedMeans(rule, sender);
    hide Listed, Contains;
  }

  /** Without a configuration, or under a rule of any other mode, the rule keeps nobody out. */
  lemma OtherRulesLetAllIn(access: map<string, AccessConfig>, root: Command, target: Command, path: string, sender: Sender,
                           isPrivate: bool, rule: AccessRule)
    requires root.pluginId !in access ||
      (Governs(access, root.pluginId, path, rule) && rule.mode != "whitelist" && rule.mode != "blacklist")
    ensures Permitted(access, root, target, path, sender, isPrivate) <==> OtherwisePermitted(root, target, sender, isPrivate)
  {
  }
}
