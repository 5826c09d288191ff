# Polarix, modelled and proved

Polarix is a bot framework. This project models the parts of it that hold state, race or parse, and
proves what they keep. Everything below is a statement about the model for all inputs, all runs or
all interleavings.

| files | what they model |
|---|---|
| SshRequest, SshApproval, SshGuarantees, SshAnswers, SshQuota, SshOrphans, SshRuns | The SSH approval protocol: each request's sending goroutine, button clicks, timer and winner, the connections' cleanup walks, the global map, the per-connection maps and the quota counter, as a transition system with one step per atomic operation |
| Text, Commands, Dispatch, Middleware, Permissions, Agreement, CommandPaths | Command trees: registration in place, the resolver whose result is checked for permissions, the dispatcher that picks the handler, the two message paths that call both, what being permitted means, and for which command names the two agree |
| Numbers, Cron, CronTexts | Decimal numbers, the cron field parser over 64-bit ints, and what expressions mean as they are written |
| Schedule, ScheduleTraces, ScheduleStart | The job table edited in place, what a job does over a whole run, and registrations racing with the start of the scheduler |
| Gateway, Liveness, Beats | The gateway client's session, as a fold over the messages of all its connections; heartbeat timeouts and the reconnection delays; what beats and openings say |
| Callbacks | The ring of button callbacks |
| Routes | Temporary web routes |
| TemplatePieces, Templates, TemplateOrders | Template normalisation, filling by repeated replacement in any key order, and for which arguments the order is of no account |

How the two kinds of concurrency are stated: where goroutines interleave between atomic operations
(the approval protocol, the start of the scheduler) a state and a step relation are given, and
theorems quantify over every sequence of steps. Where each operation is one critical section (job
table, routes, callbacks) the operation is a method of a class that edits its fields, its contract
gives the new state, and theorems quantify over every sequence of operations.

## What the proofs found

- **Orphaned requests.** A request's winner removes it from the global map first and from its
  connection's map second, and the second deletion names only the ID. Between the two, another
  request with the same ID on the same connection can enter both maps; the deletion then drops the
  newcomer's entry, and the cleanup of the closed connection never meets it. "No request outlives
  the cleanup of its connection" therefore holds exactly when the plugin admits nothing or no two
  requests of a connection share an ID (`SshOrphans.OrphanFreeExactlyWhenTagsDistinct`).
- **The command checked is the command run** depends on the registered names, and the exact condition
  differs between groups and private messages. Only names that are single words count, since a
  message can spell no other.
  - In a group every message agrees exactly when no root named like a mention (`@...` or `<@...`) has a
    sub-command, and beside a root of the shape `<@...>` no other root has sub-commands
    (`Agreement.GroupAgreesExactlyWhenSafe`). With a command `@x` and its sub-command `s` the message
    `@a @x s` is checked as `@x` and runs `s` (`Agreement.MentionNameDiverges`).
  - In private every message agrees exactly when no root named like a mention has sub-commands beside
    another root (`Agreement.PrivateAgreesExactlyWhenSafe`). With `@x` that has sub-commands and another
    root `s` the message `@x s` is checked as `@x` and runs `s`, even if `s` is for owners and not for
    private use (`Agreement.GuardedCommandRuns`).
- **Typing an offered path** of a tree with single-word names and distinct siblings leads back to its
  command, for every path, exactly when the root is not named like a mention or has no sub-commands
  (`CommandPaths.RoundTripsExactlyWhen`).
- **A cron step near the largest int** makes the loop counter wrap, and the loop then stores values
  that the field does not denote, some outside its range and some inside it. A field denotes the
  union of its parts' progressions exactly when start + step fits in 64 bits for each of them
  (`Cron.PartInRangeExactlyWhen`, `Cron.FieldMeansItsParts`, `Cron.LargestStepStoresMore`).
- **Once per minute** fails when the wall clock goes back: a job fires twice in a minute exactly when
  ticks make a minute in which it was due come back (`ScheduleTraces.TwiceExactlyWhenTimeReturns`).
- **A registration that straddles the start** leaves two loops for one interval job, and only then
  (`ScheduleStart.EveryIntervalJobHasItsLoop`, `ScheduleStart.StraddlingDoublesTheLoop`). The cron
  loop exists exactly when some cron job stood in the table when the start looked, or asked after the
  start had begun (`ScheduleStart.CronLoopExactlyWhenNeeded`). That some cron job was registered
  decides it if no entry was ever replaced or cancelled; a cron job cancelled before the start leaves
  no loop (`ScheduleStart.CancelledBeforeTheStart`).
- **Callback ids after the ring is full.** The slot is computed from the number in the oldest
  entry's own name. While names are no numbers, an id of a full ring reaches a slot shifted by the
  start index, so its own only when that index is back at zero (`Callbacks.FullRingMisroutes`).
  Slot 0 is also reached by negative dividends, since the remainder keeps the dividend's sign.
- **Template order.** For keys without braces the order in which a map gives them never matters, and
  all holes are filled as if at once, exactly when no value that a hole can receive contains the marker
  of another key or ends in a beginning of one, keys that stand for their own marker aside
  (`TemplateOrders.OrderFreeExactlyWhenSafe`). A value that is another key's marker, and a value `{`
  before the rest of a marker, are filled in two ways (`TemplateOrders.BracesMakeOrderMatter`,
  `TemplateOrders.OpenBraceMakesOrderMatter`).
- **Normalising twice** is normalising once exactly when no hole's trimmed name ends in white space
  and a closing brace (`TemplatePieces.IdempotentExactlyWhenSettled`); `{{a } }}` is such a hole
  (`TemplatePieces.NormalisingTwiceMayDiffer`).

## Reading the table

"Every run" means every sequence of enabled steps from an initial state. Specification functions
that only compute have no row of their own: the rows of the methods proved against them, and of the
lemmas about them, say what they mean.

## Model

| member | source | states |
|---|---|---|
| SshRequest.MoveKeepsReqInv | plugins/sshauth/sshauth.go:412-722 | Every atomic step of a request's sender, rivals and winner keeps the request invariant: the compare-and-swap is won once, the status follows the winner, only an authorised click writes, no timer runs after its stop, a message in the group is stored or about to be, and an ended request's message is recalled or about to be |
| SshRequest.MoveKeepsIdentity | plugins/sshauth/sshauth.go:431-461 | A step never changes a request's connection or ID, and enters or leaves the maps only at the steps that say so |
| SshApproval.StepKeepsReqs | plugins/sshauth/sshauth.go:412-722 | One step of one request keeps the invariant of all requests |
| SshApproval.StepKeepsMap | plugins/sshauth/sshauth.go:134-138 | The global map holds exactly the requests between registration and cleanup, each under its own ID, after any step |
| SshApproval.WalkKeepsConns | plugins/sshauth/sshauth.go:100-114 | A step of the walk keeps every connection's map, and whatever the walk may still be offered, made of indexed requests of that connection under their own IDs |
| SshApproval.NextKeepsInv | plugins/sshauth/sshauth.go:100-722 | Every enabled action of the whole system keeps the whole invariant, and no request or connection disappears |
| SshApproval.RunKeepsInv | plugins/sshauth/sshauth.go:100-722 | The invariant holds along every run |
| SshApproval.ReachableInv | plugins/sshauth/sshauth.go:100-722 | Every state reachable from an initial one satisfies the invariant |
| SshGuarantees.SingleWinnerAtMostOneAnswer | plugins/sshauth/sshauth.go:576-722 | In every run at most one of click, timer and invalidation takes effect; at most one response is written, by an authorised click that won, carrying its decision; none after a timeout or an invalidation |
| SshGuarantees.StatusIsFinal | plugins/sshauth/sshauth.go:648-711 | A status that has left Pending never changes again, along any continuation |
| SshGuarantees.NoStaleMessage | plugins/sshauth/sshauth.go:556-566 | A settled request that timed out, was invalidated or could not be delivered, and whose message went out with an id, has had a recall issued |
| SshGuarantees.NoLiveTimer | plugins/sshauth/sshauth.go:127-132 | Once the winner has passed its timer stop no timer runs and none can be started, whichever side entered the lock first |
| SshGuarantees.WaitingRequestHasTimer | plugins/sshauth/sshauth.go:556-570 | A registered request that nobody has won and whose sender has returned has its timer running or just going off |
| SshGuarantees.RecallsOnlyWhatIsShown | plugins/sshauth/sshauth.go:559-565 | A recall is issued only for a request that somebody has won, and only for a message that is up with an id |
| SshGuarantees.CleanupLeavesNoneOfItsKeys | plugins/sshauth/sshauth.go:106-114 | A finished cleanup has left no entry that was in its connection's map all along since it began |
| SshAnswers.ClickCountsExactlyWhen | plugins/sshauth/sshauth.go:581-607 | A click may win exactly if it comes from the configured group and, with a list, from a listed user, without one, from no role or that of an admin or the owner |
| SshAnswers.FirstClaimWins | plugins/sshauth/sshauth.go:610-722 | Over any run a request is won exactly if some action claimed it, and by the first that did |
| SshAnswers.AnswerIsTheFirstClick | plugins/sshauth/sshauth.go:576-640 | In every run, if a response was written for a request, the first claim on it was the click of somebody who may answer, and the response is that click's decision |
| SshAnswers.StatusTellsTheFirstClaim | plugins/sshauth/sshauth.go:648-711 | A timed-out request was claimed by its timer first, an invalidated one by its sender or a cleanup, one whose delivery was tried by a click |
| SshAnswers.DeliveredExactlyWhenAllPassed | plugins/sshauth/sshauth.go:84-98 | Once concluded, an answer was delivered exactly if the connection was open, still open under its lock, and took deadline and response; it failed exactly at the first of these that did not; a response was written exactly if the last was reached |
| SshAnswers.TestsSeeTheConnection | plugins/sshauth/sshauth.go:88-90 | What a check of the connection finds, before or under its lock, is what the connection then is |
| SshAnswers.ShownIsWhatWasSent | plugins/sshauth/sshauth.go:549-558 | In every run the group sees a message exactly if one was sent, with an id exactly if it was sent with one |
| SshRuns.EitherAnswerCanBeDelivered | plugins/sshauth/sshauth.go:412-675 | With a configured plugin every request has a run in which either answer of anybody who may answer is delivered |
| SshRuns.EveryRequestCanTimeOut | plugins/sshauth/sshauth.go:678-703 | And one in which nobody answers, the timer wins, nothing is written and the message is recalled once |
| SshGuarantees.UnregisterDropsOwnEntry | plugins/sshauth/sshauth.go:134-134 | The entry a winner deletes from the global map by key is its own, and every other request keeps its entry |
| SshQuota.QuotaIsConserved | plugins/sshauth/sshauth.go:431-453 | The counter always equals the number of requests holding a slot, those about to roll back included; at most the maximum are admitted, so the global map never exceeds it |
| SshQuota.QuotaReturnsToZero | plugins/sshauth/sshauth.go:127-139 | When every goroutine has returned the counter is zero and the global map empty |
| SshOrphans.UnresolvedIsCoveredOrHeld | plugins/sshauth/sshauth.go:455-461 | With distinct IDs per connection, an unresolved request on a closed connection is still to be visited by the cleanup or held by a sender about to invalidate it |
| SshOrphans.DistinctTagsAreOrphanFree | plugins/sshauth/sshauth.go:106-114 | With distinct IDs per connection no run leaves a checked, unresolved request behind a finished cleanup |
| SshOrphans.NothingWithoutConfiguration | plugins/sshauth/sshauth.go:418-429 | Switched off, without a client or without a group, no request is ever registered and no message shown |
| SshOrphans.SharedTagOrphans | plugins/sshauth/sshauth.go:134-137 | Two requests that share connection and ID always have a run that orphans one of them |
| SshOrphans.OrphanFreeExactlyWhenTagsDistinct | plugins/sshauth/sshauth.go:100-139 | No run orphans a request if and only if the configuration admits nothing or no two requests share connection and ID |
| Text.FilterAtOnTokens | lib/utils/filter.go:5-16 | Filtering drops the first token when it looks like a mention and is not the only one; splitting and re-reading the result give exactly the remaining tokens |
| Text.SpaceCodePoints | lib/utils/string.go:8-8 | Which code points separate words |
| Text.FieldsOfJoin | lib/utils/string.go:6-11 | Words joined by single spaces are read back as the same words |
| Text.SplitOfSeparated | lib/utils/filter.go:7-7 | Pieces joined by a separator that occurs in none of them are split into the same pieces |
| Commands.Registry.SubCommandHandle | lib/plugin/register.go:24-47 | Prepares every command of a tree in place: inner commands dispatch and keep their own handler as fallback, leaves keep theirs; counts each command once |
| Commands.Registry.SubCommandsHandle | lib/plugin/register.go:42-44 | The loop over the sub-commands prepares every command below and counts each once |
| Commands.Registry.PrepareRoot | lib/plugin/register.go:57-70 | The same for a root command, with or without sub-commands, whether or not its missing handler was already replaced |
| Commands.Registry.Register | lib/plugin/register.go:49-73 | All trees of a plugin are prepared, the map gains its commands with later ones winning, the count grows by the number of commands |
| Commands.LastOfPrefixWins | lib/plugin/register.go:71-71 | Of several commands of one prefix the last is registered |
| Commands.OthersStay | lib/plugin/register.go:71-71 | A prefix that the plugin does not use keeps its command |
| Commands.Install | lib/plugin/register.go:49-73 | Registering fresh trees keeps all registered trees apart and in order: every command, old or new, answers with the handler its plugin gave it |
| Dispatch.FindFirst | lib/plugin/register.go:278-287 | The sub-command found is the first one with that prefix |
| Dispatch.FindChild | lib/plugin/register.go:583-592 | The search loop of both walkers finds the same sub-command |
| Dispatch.WalkStep | lib/plugin/register.go:277-290 | How a walk goes on from its k-th command: it stops at the end of the tokens or at an unknown one, else passes to that child |
| Dispatch.ResolveCommand | lib/plugin/register.go:273-292 | Returns the command at the end of the walk over the filtered text's tokens, and the path spelled by the prefixes passed |
| Dispatch.BoundIsWalked | lib/plugin/register.go:569-610 | A dispatch that meets no command closed to the message binds every command of the walk |
| Dispatch.BoundStops | lib/plugin/register.go:601-608 | A private dispatch binds the walk up to the first command closed to private messages and runs nothing |
| Dispatch.SubCommandHandleFunc | lib/plugin/register.go:559-611 | Terminates without entering itself again; runs the effective handler of the command its own walk reaches and leaves storage bound to that command's path |
| Middleware.Run | lib/middleware/handle.go:220-231 | What calling a registered root's handler runs for any message: the root's own handler for a leaf, else the original handler of the command that the message's own first token and the tokens behind it lead to, bound to that command's path, or nothing |
| Middleware.Refusal | lib/middleware/handle.go:111-126 | The checks refuse exactly what is not permitted, and tell whose denial reply is used |
| Permissions.RolesAreRanked | lib/constant/role.go:12-25 | An owner's command is for owners, an admin's for admins and owners, any other for everybody |
| Permissions.EveryRoleIsAsked | lib/middleware/handle.go:51-60 | Being permitted needs the role of the root and that of the target, and in private neither closed |
| Permissions.DenialNamesTheRoot | lib/middleware/handle.go:51-60 | The root's own denial reply is used exactly if its role keeps the sender out |
| Permissions.BlacklistKeepsOut | lib/plugin/register.go:248-266 | Under the rule of the path, or the default if the path has none: a blacklist keeps out those it names and nobody else |
| Permissions.WhitelistLetsIn | lib/plugin/register.go:248-266 | Likewise a whitelist lets in those it names and nobody else |
| Permissions.OtherRulesLetAllIn | lib/plugin/register.go:263-265 | Without a configuration, or in any other mode, the rule keeps nobody out |
| Middleware.SelectRoot | lib/middleware/handle.go:26-30 | The token that selects the root of a group message: the second one behind a bracketed mention |
| Middleware.ProcessGroupMessage | lib/middleware/handle.go:22-86 | Denied exactly when root role, target role or access rule refuse, for a path that the root offers; the handler that runs is the one its plugin gave the answering command; where the message agrees, that is the very command checked, with storage bound to the checked path; without mention-like names every message agrees |
| Middleware.ProcessPrivateMessage | lib/middleware/handle.go:87-144 | The same for private messages, where commands closed to them are refused at the root, at the target and on the way |
| Middleware.CheckedPathIsOffered | lib/plugin/register.go:273-311 | For registered trees the path checked of a message, group or private, is one that the root offers for access rules |
| Middleware.GroupWithoutMentions | lib/middleware/handle.go:24-50 | Without mention-like names every group message agrees, and a root with sub-commands answers exactly the messages that name it first |
| Middleware.PrivateWithoutMentions | lib/middleware/handle.go:88-110 | Without mention-like names every private message agrees, and a root with sub-commands answers exactly when no command on the way is closed |
| Middleware.GroupTokensAgree | lib/middleware/handle.go:24-50 | Unless a command is named like a mention, resolver and dispatcher see the same tokens or the dispatcher finds no command |
| Middleware.PrivateTokensAgree | lib/middleware/handle.go:88-110 | The same for private messages, whose resolver and dispatcher filter different texts |
| Agreement.GroupAgreesExactlyWhenSafe | lib/middleware/handle.go:24-50 | For any registered trees: every group message agrees if and only if no mention-like root has a sub-command that can be named, and beside a bracketed one no other root has sub-commands |
| Agreement.GroupSafeAgrees | lib/plugin/register.go:559-611 | With such names resolver and dispatcher reach the same command and path on any tokens |
| Agreement.MentionRootDiverges | lib/utils/filter.go:11-12 | Any mention-like root with a sub-command that can be named has a group message on which they differ |
| Agreement.BracketedRootDiverges | lib/middleware/handle.go:27-30 | Any bracketed root beside a root with sub-commands has a group message on which they differ |
| Agreement.PrivateAgreesExactlyWhenSafe | lib/middleware/handle.go:88-110 | For any registered trees: every private message agrees if and only if no mention-like root has sub-commands beside another root |
| Agreement.PrivateMentionDiverges | lib/plugin/register.go:561-565 | Any mention-like root with sub-commands and any other root have a private message that is checked as the first and run by the second |
| Agreement.MentionNameDiverges | lib/middleware/handle.go:27-50 | A concrete registry and group message for which the checked command is not the one that runs |
| Agreement.GuardedCommandRuns | lib/middleware/handle.go:94-122 | A concrete registry in which a member's private message runs a command that is for owners and not for private use |
| CommandPaths.CollectCommandPaths | lib/plugin/register.go:294-299 | Appends the paths of all commands of the tree in preorder |
| CommandPaths.CommandPathSet | lib/plugin/register.go:301-311 | Exactly the paths of the plugin's commands |
| CommandPaths.WalkIsLocated | lib/plugin/register.go:273-299 | Wherever a walk ends, that command with its path is among the collected ones |
| CommandPaths.ResolvedPathIsOffered | lib/plugin/register.go:273-299 | Every path the resolver returns is one the plugin offers, for any text |
| CommandPaths.PathRoundTrip | lib/plugin/register.go:273-299 | With distinct siblings and single-word names, typing a collected path resolves to that very command and path |
| CommandPaths.RoundTripsExactlyWhen | lib/plugin/register.go:273-299 | All collected paths do so if and only if the root is not named like a mention or has no sub-commands |
| Numbers.AtoiOfItoa | lib/buttons/callback.go:51-57 | A printed 64-bit int is read back |
| Numbers.AtoiReadsExactly | lib/schedule/cron.go:53-77 | A text is read as a number if and only if it is digits with at most one sign before them and the number fits in 64 bits |
| Cron.ProgressionMembers | lib/schedule/cron.go:83-85 | The intended values of a part are those from start to end a multiple of the step above start |
| Cron.AddValues | lib/schedule/cron.go:83-85 | The loop terminates, wrapping counter or not, and adds exactly what its 64-bit counter passes |
| Cron.PartInRangeExactlyWhen | lib/schedule/cron.go:80-85 | A part stores only values of the range, and then its progression, if and only if start + step fits in 64 bits |
| Cron.LargestStepStoresMore | lib/schedule/cron.go:83-85 | A part of one value with the largest step also stores a smaller value |
| Cron.ParseField | lib/schedule/cron.go:41-88 | Accepted exactly when every comma part is understood; the result is what the loops over the parts store |
| Cron.FieldMeansItsParts | lib/schedule/cron.go:41-88 | An accepted field is not empty; it stays inside [min, max] if and only if no part's counter wraps, and then holds exactly the values that some part denotes |
| Cron.FieldInRangeExactlyWhen | lib/schedule/cron.go:80-85 | The in-range half of it |
| Cron.FieldMembers | lib/schedule/cron.go:43-87 | The membership half of it |
| Cron.ReadBack | lib/schedule/cron.go:41-88 | Every non-empty set of values of the range, printed as a comma list, parses to itself |
| Cron.ParseCron | lib/schedule/cron.go:16-39 | Accepts exactly five understood fields with their own bounds, and returns their sets |
| CronTexts.WrittenPartIsRead | lib/schedule/cron.go:43-82 | The texts `*`, `*/s`, `a`, `a/s`, `a-b` and `a-b/s`, for any ints, are understood exactly if they name values of the range in order with a positive step, and then give those bounds and that step |
| CronTexts.WrittenPartDenotes | lib/schedule/cron.go:43-86 | Such a part denotes exactly the values it names, and its counter wraps exactly if start + step is beyond the ints |
| CronTexts.SpaceAroundPart | lib/schedule/cron.go:44-44 | Space around a part makes no difference |
| CronTexts.ReadField | lib/schedule/cron.go:41-88 | A comma list of them is accepted exactly if all fit, and without a wrap holds exactly the values some part names |
| CronTexts.ReadExpression | lib/schedule/cron.go:16-108 | A written expression is accepted exactly if its minutes fit 0-59, hours 0-23, days 1-31, months 1-12 and weekdays 0-6, and without a wrap matches exactly the moments each of whose five values its own field names |
| Schedule.PlacedIsUpdate | lib/schedule/schedule.go:88-102 | Replacing or appending by Id is a map update and keeps Ids distinct |
| Schedule.WithoutIsRemoval | lib/schedule/schedule.go:122-134 | Removing the first entry of an Id removes it from the map and keeps Ids distinct |
| Schedule.EntriesOfMap | lib/schedule/schedule.go:45-46 | With distinct Ids the table's entries are the pairs of the map |
| Schedule.Scheduler.constructor | lib/schedule/schedule.go:44-53 | Starts with an empty table |
| Schedule.Scheduler.Exists | lib/schedule/schedule.go:177-186 | Whether the Id is in the map |
| Schedule.Scheduler.GetJobCount | lib/schedule/schedule.go:188-193 | The size of the map |
| Schedule.Scheduler.Cancel | lib/schedule/schedule.go:121-134 | Removes the Id from the map, cancels that entry for good and leaves every other job ever registered alone |
| Schedule.Scheduler.SetPaused | lib/schedule/schedule.go:136-162 | Sets the flag of the one listed job with the Id and of no other job ever registered |
| Schedule.Scheduler.Pause | lib/schedule/schedule.go:136-148 | The listed job of the Id takes the pausing step, all others none |
| Schedule.Scheduler.Resume | lib/schedule/schedule.go:150-162 | The listed job of the Id takes the resuming step, all others none |
| Schedule.Scheduler.IsPaused | lib/schedule/schedule.go:164-174 | Whether the Id is listed, and whether it is paused |
| Schedule.Scheduler.Accept | lib/schedule/schedule.go:57-86 | Which registrations are ignored; the parsed expression of the others |
| Schedule.IgnoredExactlyWhen | lib/schedule/schedule.go:57-86 | Ignored are exactly the jobs without Id, handler or both interval and expression, and those whose needed expression is malformed |
| Schedule.Scheduler.Register | lib/schedule/schedule.go:57-102 | Puts a fresh, unpaused entry into the map and cancels the one it replaces; an ignored registration changes nothing |
| Schedule.Scheduler.TryFire | lib/schedule/schedule.go:300-315 | The interval path fires exactly when the entry is neither paused nor cancelled |
| Schedule.Scheduler.CronTick | lib/schedule/schedule.go:274-296 | Selects exactly the listed, unpaused, matching jobs not yet fired in this minute, each once, and marks exactly those |
| ScheduleTraces.StateIsHistory | lib/schedule/schedule.go:121-162 | Over any run, an entry is listed exactly until its first removal, and may fire exactly when every pause has been lifted |
| ScheduleTraces.LastFireIsLatestDue | lib/schedule/schedule.go:284-290 | The stored minute is that of the latest tick at which the job was due |
| ScheduleTraces.IntervalFiresExactlyWhenAllowed | lib/schedule/schedule.go:300-315 | An interval job fires at exactly those ticks that find it registered and not paused |
| ScheduleTraces.CancellationIsFinal | lib/schedule/schedule.go:121-134 | After a cancellation or replacement no fire decision ever succeeds, on either path |
| ScheduleTraces.PausedUntilResumed | lib/schedule/schedule.go:136-162 | Between a pause and the next resumption no fire decision succeeds, on either path |
| ScheduleTraces.CronFiresExactlyWhen | lib/schedule/schedule.go:278-290 | A tick fires a job exactly when it is due and the latest earlier tick at which it was due had another minute |
| ScheduleTraces.OncePerMinute | lib/schedule/schedule.go:259-290 | For ticks whose minutes never go back a job never fires twice in a minute, and it fires in a minute exactly when some tick of that minute saw it registered, unpaused and matching |
| ScheduleTraces.TwiceExactlyWhenTimeReturns | lib/schedule/schedule.go:284-287 | For arbitrary ticks a job fires twice in one minute if and only if a minute in which it was due comes back |
| ScheduleTraces.ClockSetBackFiresTwice | lib/schedule/schedule.go:284-287 | A concrete tick stream that fires the same minute twice |
| ScheduleStart.StepKeepsEntry | lib/schedule/schedule.go:88-119 | Every step keeps: a registration that found the scheduler idle is in the starter's snapshot or out of the table |
| ScheduleStart.RunKeepsInv | lib/schedule/schedule.go:88-230 | The invariant holds along every interleaving of any number of registrations, cancellations and one start |
| ScheduleStart.ListedIsHistory | lib/schedule/schedule.go:88-135 | In any run an entry is listed exactly if it was inserted and not displaced since, and in the snapshot exactly if it was so when the start looked |
| ScheduleStart.StateIsHistory | lib/schedule/schedule.go:88-119 | What any state knows of a registration follows from the order of the steps taken: in the snapshot exactly if it stood in the table when the start looked, running exactly if it asked after the start had begun |
| ScheduleStart.EveryIntervalJobHasItsLoop | lib/schedule/schedule.go:104-118 | At quiescence every interval job in the table has one loop, and two exactly when it was inserted before the start looked and asked after the start began |
| ScheduleStart.AtMostOneCronLoop | lib/schedule/schedule.go:105-111 | Never more than one cron loop, and at quiescence the flag says whether it exists |
| ScheduleStart.CronLoopExactlyWhenNeeded | lib/schedule/schedule.go:216-229 | The cron loop is launched if and only if, by the order of the steps, some cron job stood in the table when the start looked or asked after the start had begun |
| ScheduleStart.EveryCronJobIsServed | lib/schedule/schedule.go:104-119 | A cron job in the table has its loop; while no entry has been replaced or cancelled, the loop exists if and only if some cron job was registered |
| ScheduleStart.OnlySharedIdsAreReplaced | lib/schedule/schedule.go:88-102 | With distinct Ids and no cancellation no entry ever leaves the table |
| ScheduleStart.CancelledBeforeTheStart | lib/schedule/schedule.go:121-134 | A concrete interleaving with a registered cron job and no cron loop |
| ScheduleStart.StraddlingDoublesTheLoop | lib/schedule/schedule.go:102-118 | A concrete interleaving that leaves two loops for one job |
| Gateway.SessionIsHistory | lib/gateway/client.go:402-414 | In every reachable state a non-empty session id implies that resuming is allowed, and it is the id of the latest READY not invalidated since |
| Gateway.SequenceIsHistory | lib/gateway/client.go:402-404 | The sequence number is the last positive one since the last reset, or zero |
| Gateway.ResumesExactlyTheLiveSession | lib/gateway/client.go:205-225 | A connection opens with Resume if and only if a READY, then the only live one, has set a session not since invalidated; the Resume carries that id and the last positive sequence since the last reset |
| Beats.OpeningAfterClose | lib/gateway/client.go:472-506 | After close codes 4001, 4002, 4006, 4007, 4010-4014, 4914 and 4915 the next connection opens with Identify; after any other close, 4008 and 4009 among them, and any other error, as it would have before |
| Beats.OpeningAfterFrame | lib/gateway/client.go:402-467 | Op code 9 ends the session, a readable READY begins the one it names, any other frame leaves it, and a positive number goes into the Resume |
| Beats.EndsAndAcknowledges | lib/gateway/client.go:412-433 | Op codes 7 and 9, closes and errors end a connection; op code 11 acknowledges |
| Beats.BeatExactlyWhen | lib/gateway/client.go:346-358 | A beat names a number exactly if it is the live one of the history, and none exactly if there is none |
| Beats.RepliesCarry | lib/gateway/client.go:408-411 | Every heartbeat asked for with op code 1 is answered, in order, by a beat that names the live number of that moment, and nothing else is |
| Beats.TickBeatsCarry | lib/gateway/client.go:360-385 | Every beat of the heartbeat loop names the live number of the inputs arrived by its tick |
| Gateway.SequenceNeverFalls | lib/gateway/client.go:402-404 | If the server's numbers do not fall, the client's number never falls between resets |
| Gateway.Client.constructor | lib/gateway/client.go:53-70 | A new client has no session |
| Gateway.Client.HandleDispatch | lib/gateway/client.go:445-467 | READY with readable data sets session and permission, RESUMED the permission, anything else nothing |
| Gateway.Client.HandleDisconnect | lib/gateway/client.go:472-506 | Which close codes allow resuming, which reset the session, and what any other error does |
| Gateway.Client.SendHeartbeat | lib/gateway/client.go:346-358 | The beat carries the current sequence number when it is positive |
| Gateway.Client.Receive | lib/gateway/client.go:388-438 | One input moves the session by one step of the fold, answers a requested beat, notes an acknowledgement, and tells whether the connection ends |
| Gateway.Client.ReadLoop | lib/gateway/client.go:388-440 | Reads exactly up to the first input that ends the connection; session, replies and acknowledgement time are those of the inputs read |
| Gateway.Client.Authenticate | lib/gateway/client.go:205-225 | Resume with the current session and number, or Identify |
| Gateway.Client.Connect | lib/gateway/client.go:168-235 | A whole connection as its reading goroutine sees it: how it opens follows from the history so far, nothing is written without an access token, the history grows by what was read; a failed attempt changes no session |
| Liveness.HeartbeatLoop | lib/gateway/client.go:346-385 | Closes at the first tick that finds the acknowledgement more than three intervals old or cannot write its beat; every earlier tick sends a beat with the sequence number of the inputs arrived by then |
| Liveness.SilenceIsNoticed | lib/gateway/client.go:366-379 | A connection silent since an acknowledgement is closed within four intervals of it, for any ticker started in time |
| Liveness.NeverClosedWhileAcknowledged | lib/gateway/client.go:373-377 | If the loop closes without a failed write, neither the greeting nor any acknowledgement came in the last three intervals |
| Liveness.Start | lib/gateway/client.go:73-104 | The j-th wait since the last stable connection is min(2^j, 30) seconds; the history, and the openings and replies written, are those of the connections in turn |
| Beats.BackoffInSeconds | lib/gateway/client.go:76-103 | The waits begin at one second and double up to thirty |
| Beats.StableIsMoreThanAMinute | lib/gateway/client.go:87-89 | The doubling starts again behind a connection that lasted more than a minute, and behind no other |
| Callbacks.AtoiOrBound | lib/buttons/callback.go:61-62 | The number read with its error ignored is a 64-bit int, and the true value when there is one |
| Callbacks.WhatIsRead | lib/buttons/callback.go:61-62 | What is read of any name, by its sign, its leading digits and what follows them |
| Callbacks.WordsAreNoNumbers | lib/buttons/callback.go:61-62 | A name that is empty or has no digit at its front, or behind one sign, is no number |
| Callbacks.ZeroExactlyWhen | lib/buttons/callback.go:61-62 | Zero is read exactly of names that are no numbers, unless their leading digits overflow an unsigned int, and of zeros |
| Callbacks.KeptIsHeld | lib/buttons/callback.go:30-39 | Each of the last registrations, as many as the capacity, is the one its slot holds |
| Callbacks.NothingHeldAhead | lib/buttons/callback.go:16-17 | Slots not yet reached are empty |
| Callbacks.WindowIsTheLatest | lib/buttons/callback.go:38-50 | From the start index around to the current one lie exactly the last min(N, capacity - 1) registrations, in order |
| Callbacks.ReachesItsOwnSlotExactlyWhen | lib/buttons/callback.go:61-64 | The computed slot is the id's own if and only if the oldest entry's number is congruent to the start index and the dividend is not negative, or the slot is 0 |
| Callbacks.EveryIdWorksAtFirst | lib/buttons/callback.go:54-74 | With fewer registrations than the capacity and a first name that is no number, or zero, every id invokes what was registered under it |
| Callbacks.FullRingMisroutes | lib/buttons/callback.go:61-67 | In a full ring whose oldest name is no number, or zero, which registration an id invokes, and that it is its own exactly when the start index is zero |
| Callbacks.CallbackRing.constructor | lib/buttons/callback.go:15-23 | An empty ring of any capacity |
| Callbacks.CallbackRing.RegisterCallbackFunc | lib/buttons/callback.go:30-52 | After N registrations the current index is N mod capacity, the start index 0 or (N + 1) mod capacity, each slot holds the latest registration of its residue; the id printed is the slot |
| Callbacks.CallbackRing.InvokeCallback | lib/buttons/callback.go:54-75 | What an id invokes, said of the registrations: a bad number, an empty slot, a nil handler or a callback |
| Routes.TableIsLiveRoutes | lib/context/web.go:76-97 | After any events the table holds exactly the routes registered and not spent since |
| Routes.HandlerRunsExactlyWhen | lib/context/web.go:90-108 | A request runs the handler if and only if its token was registered for that plugin and method, it is before expiry, and no removal, one-time run, expired hit or wrong-plugin hit came in between |
| Routes.AnswerExactlyWhen | lib/context/web.go:90-104 | 404 exactly without a live route of the plugin in time; 405 with the route's method exactly if only the method differs; the handler otherwise |
| Routes.OneTimeRunsOnce | lib/context/web.go:105-108 | A one-time registration runs its handler at most once over any requests |
| Routes.WrongMethodNeverConsumes | lib/context/web.go:99-104 | A request with the wrong method changes neither the table nor what is live |
| Routes.TemporaryRoutes.RegisterTemporaryRoute | lib/context/web.go:58-86 | The three refusals in order, the stored route and the returned path |
| Routes.MethodIsUpper | lib/context/web.go:69-72 | The stored method has no lower-case ASCII letter, is the given one without outer space if that has none either, and GET if it is blank |
| Routes.MethodIgnoresCase | lib/context/web.go:69-69 | Every spelling in letter case is stored as the same method |
| Routes.PluginIdCharacters | lib/context/web.go:18-18 | Which plugin ids are accepted; none contains a slash |
| Routes.TemporaryRoutes.Remove | lib/context/web.go:80-84 | Removes the token, whether or not it is still there |
| Routes.TemporaryRoutes.ServeTemporaryRoute | lib/context/web.go:90-108 | Answers as the table says, and is one event of the history |
| TemplatePieces.FindsClose | lib/templates/markdown.go:51-51 | Closing braces on the same line are found, and none nearer is passed over |
| TemplatePieces.CutIsShortestMatch | lib/templates/markdown.go:51-57 | A hole is cut off exactly where the pattern matches at the front of the text, and its name is the shortest that matches |
| TemplatePieces.FlatOfPieces | lib/templates/markdown.go:57-57 | Cutting a text into holes and characters loses nothing |
| TemplatePieces.ProcessTemplate | lib/templates/markdown.go:49-73 | The text with every hole trimmed, and each non-empty name once in order of first appearance |
| TemplatePieces.NamesAreAsked | lib/templates/markdown.go:57-67 | A name is collected exactly if it is the non-empty trimmed name of some hole |
| TemplatePieces.NamesAreDistinct | lib/templates/markdown.go:64-67 | Each once, in the order of their first holes |
| TemplatePieces.PiecesOfFlat | lib/templates/markdown.go:51-57 | The text of tidy pieces is cut into these pieces again |
| TemplatePieces.NormalisedIsFinal | lib/templates/markdown.go:49-73 | A template tidy once normalised is unchanged by normalising again |
| TemplatePieces.NormalisingIsIdentityExactlyWhen | lib/templates/markdown.go:60-69 | Normalising changes nothing if and only if no hole has space around its name |
| TemplatePieces.RecutIsTrimmed | lib/templates/markdown.go:57-70 | The holes of a normalised text need no trimming if and only if no hole's trimmed name ended in white space and a closing brace |
| TemplatePieces.IdempotentExactlyWhenSettled | lib/templates/markdown.go:49-73 | For any text: normalising twice is normalising once if and only if that is so |
| TemplatePieces.NormalisingTwiceMayDiffer | lib/templates/markdown.go:60-69 | Concrete texts on which normalising is not idempotent |
| Templates.ValueMiss | lib/templates/markdown.go:122-122 | A value in which no occurrence of the marker begins is passed over, whatever text follows it |
| Templates.ReplaceIsFilling | lib/templates/markdown.go:122-122 | In a partly filled tidy template replacing one more marker fills exactly the holes of that name, if the marker begins in no value filled in so far |
| Templates.FilledIsTidy | lib/templates/markdown.go:121-123 | Brace-free values leave the template tidy |
| Templates.SequentialIsSimultaneous | lib/templates/markdown.go:121-123 | For any keys without braces and values in which no other key's marker begins, replacing key after key, in any order, equals filling all holes at once |
| Templates.FillingIsSimultaneous | lib/templates/markdown.go:114-138 | For a template tidy once normalised and brace-free arguments, the result does not depend on the order; it succeeds exactly when every hole has an argument, and otherwise names the missing ones |
| Templates.ArgumentsAppear | lib/templates/markdown.go:32-44 | With brace-free arguments for all holes the filled text has every string argument as it is and every number as it is printed |
| TemplateOrders.OrderFreeExactlyWhenSafe | lib/templates/markdown.go:121-123 | For any keys without braces: every tidy template is filled alike in every order, and as if at once, if and only if no value that a hole can receive lets the marker of another, really replaced, key begin in it |
| TemplateOrders.OrderMatters | lib/templates/markdown.go:121-123 | Wherever a marker does begin in the value of another key, a tidy template and two orders of all the keys that give different texts |
| TemplateOrders.ReplaceChanges | lib/templates/markdown.go:122-122 | Replacing a pattern that occurs by anything else changes the text |
| TemplateOrders.BracesMakeOrderMatter | lib/templates/markdown.go:121-123 | A value that is another argument's marker gives different results for two orders of the keys |
| TemplateOrders.OpenBraceMakesOrderMatter | lib/templates/markdown.go:121-123 | So does a value that is one opening brace, before the rest of a marker |
| Templates.ToMapString | lib/templates/markdown.go:32-44 | Fails exactly when some value is of an unsupported type, else prints them all |
| Templates.TemplateStore.NewMarkdownTemplate | lib/templates/markdown.go:75-82 | Appends the normalised template with its names |
| Templates.TemplateStore.IsMarkdownTemplateExit | lib/templates/markdown.go:84-91 | Whether some template has the id |
| Templates.TemplateStore.FillMarkdownTemplate | lib/templates/markdown.go:114-141 | Fills the first template of the id by replacing the keys in some order, then checks for names left over; the errors otherwise |
| Templates.TemplateStore.FillOne | lib/templates/markdown.go:120-137 | The replacement loop over a map's keys in whatever order it gives them, and the check after it |

## Left out

- The approval protocol is stated on values, as a state and steps, not as methods on objects: the
  theorems quantify over interleavings of many goroutines, which a method body cannot show.
- `restartWorker` running beside requests in flight: it stores 0 into the counter and deletes by key,
  so quota and ownership are stated between restarts.
- The approval counter's 32-bit width: the quota keeps it between 0 and the number of requests.
- One response write (`SendResponse` under its lock) is three steps, the check that the connection is
  active, the deadline and the encoding, each of which may fail; bytes on the wire are not modelled.
- A configuration change while requests are pending; callbacks read the configuration that admitted
  the request.
- Scheduler runs that stop and start again: loops re-read the stop channel, so one epoch is modelled.
- A second `Start`, and `Start` without a client: both return before they touch the table.
- `ScheduleStart` keeps the table as the map from Id to entry that `Schedule.Scheduler` proves the
  slice to be, and visits its snapshot in any order.
- `fire`: building the context of a job's handler and running it. A decision to fire is what is proved.
- `Immediate` interval jobs: their first call takes the same decision as any other.
- The parsers of command texts: whether parsing succeeds is a parameter of the message paths.
- Handler bodies, panics recovered around them, error hooks and denial replies.
- The registry's map of plugins and the handler for joining a group, which `Register` also stores.
- Loading and saving plugin settings and access rules; access rules are read as given.
- Registering one command object twice, or two trees that share an object: the model asks for fresh trees.
- JSON decoding of gateway messages: whether a frame or READY data can be read is part of the input.
- The token request before Identify and Resume: whether a token is available is part of a connection.
- The order in which the heartbeat goroutine's beats and the reading goroutine's writes reach the
  connection: each goroutine's own writes are stated.
- Real timers: heartbeats tick at exact multiples of the interval after the ticker starts.
- The gateway URL rewriting for proxies, and event payloads handed to the message paths.
- `InvokeCallback` returns without unlocking when the id is no number; the lock is not modelled, so
  runs after such a call are those of a program that can still take it.
- Random tokens: the token is a parameter, and a repeated one simply replaces the earlier route.
- Upper-casing of request methods outside ASCII letters.
- HTTP responses written after a route's handler has run.
- `FillMarkdownTemplate` joins the missing names into one message; the model returns the list.
- `lib/templates/html.go`, which repeats the Markdown algorithm.
- Network, disk, storage, mail and images, the administration pages, and the other plugins.
