# Mythenheim services, verified

A Dafny model of the in-memory services of the Mythenheim forum: moderation, the forum store, permissions, authentication with login lockout and sessions, the session cookie, and the migration runner. Each service is a class whose methods update fields in place, as the Rust methods update the state behind their lock. Every such method is proved to do what a function on snapshots of that state says, and the properties below are proved about those functions: over all runs from the empty state, over all interleavings of the locked sections, or over all inputs. What each operation does is pinned down a second time, without its tables: `ModerationLedger` and `ForumLedger` tell from the calls made alone what took effect and what each next call must answer, and the tables are proved to follow them after every run (`ModerationHistory`, `ForumHistory`, and `AuthHistory` for accounts and logins).

`dafny verify dfyconfig.toml` checks everything.

| files | content |
|---|---|
| `Wrappers`, `Text`, `Order`, `ByteOrder`, `IdOrder`, `Indexes` | results and `u32` arithmetic; decimal ids, UTF-8, trimming; string order and sorting; string order is byte order; how numbered ids sort; lists by owner and indexes by key |
| `Moderation`, `ModerationEngine` | the moderation state, its operations as functions, and the two classes that carry them out |
| `ModerationLog`, `ModerationPoints`, `ModerationTally`, `ModerationRuns`, `ModerationTheorems` | audit replay, warning points, conservation, preservation over runs, main results |
| `ModerationLedger`, `ModerationHistory` | the service told from its calls alone, and the tables as they follow from that |
| `Slugs`, `SlugLaws`, `Forum`, `ForumEngine` | slugs and the slug search, what a slug is made of, the forum state and its sections, the class |
| `ForumInvariant`, `ForumTree`, `ForumReads`, `ForumClients`, `ForumTheorems` | the joint invariant, the category tree, read paths, interleaved callers, main results |
| `ForumLedger`, `ForumHistory`, `ForumEffects` | the forum told from its sections alone, the tables as they follow from that, what writing shows to readers |
| `Visibility` | what the forum shows of authors the moderation service has shadowbanned |
| `Permissions`, `PermissionEngine`, `PermissionTheorems` | roles and the resolver, the class, main results |
| `Auth`, `AuthEngine`, `AuthTheorems`, `AuthHistory`, `LoginBursts`, `Cookies` | accounts, lockout and sessions, the class, main results, who gets in, the worst schedules of logins, the cookie |
| `Migrations` | validator and runner |

## Where code and documentation differ

The model follows the code.

- `docs/permissions-preview.md:23` says a matching `.any` capability satisfies the own action. Only four `.own` actions have an `.any` form, and `allows` decides by ownership as soon as the `.own` capability is held, so an actor holding both may not act on another user's item. `AnySatisfiesOwnIff` gives the exact condition for every `.own` action, `MoreCapabilitiesAllowMoreIff` says when holding more helps, `GainingOwnLosesOthers` is a concrete case.
- `docs/moderation-preview.md` says users are muted at 5 and banned at 10 points. Points are summed in `u32`, which wraps at 2^32 in a build without overflow checks (the release profile sets none). `CacheExactIffBelowModulus` gives the exact conditions for points, mute and ban, `WrapUnmutes` a concrete case.
- Due jobs run in string order of their ids, which looks like the order of creation until ids differ in length. `PassInCreationOrderIff` says exactly when it is, `TenJobsRunOutOfOrder` is a run in which it is not.
- `docs/moderation-preview.md` says macro names are case-insensitively unique. Names are compared without ASCII case only: `DuplicateMacroIff` says exactly when a name is refused, and `UmlautNamesBothStored` is a run that stores an upper-case and a lower-case letter as two names.
- `docs/auth-session-plan.md` says five failed attempts lock a key for 15 minutes. The check and the record of a login are two locked sections, so logins in flight when the lock is set still record. With at most `c` of them, four failures are free and each lockout period begun allows `c` more (`LockoutBoundsFailures`), which is attained (`BoundIsReached`); five failures and then one each 15 minutes is guaranteed iff no two logins of a key overlap (`AdvertisedBoundIffNoOverlap`). The failure count also outlives the lock, so each later failure locks again at once.
- A turned-away caller is told to wait at most 900 seconds, unless its clock reading, taken before the lock, lags a second or more behind the failure that locked the key (`RetryTimeExactly`); `LaggingCheckWaitsLonger` is a schedule with a wait of 901 seconds.
- `docs/permissions-preview.md` promises that assignment never escalates. That holds for every run of assignments (`RunsDoNotEscalate`). Redefining a role can add to what is held, globally or in a category; `RedefinitionEscalatesIff` says exactly when, `RedefinitionCanEscalate` is a concrete case.

## Modelling choices

- Lock acquisition always succeeds. Ids are `kind:n` with unbounded counters; other integer widths (`u32` points, reply counts and revisions, 64-bit page arithmetic) are explicit.
- Hash maps and hash sets are iterated in an arbitrary order, so every sorted result is proved independent of that order.
- Clock readings, generated tokens and the outcome of password hashing are parameters. Password verification and SHA-256 are arbitrary functions (`Crypto`), the Markdown renderer is an arbitrary function held in the forum state, and what the permission service answers to the HTTP edit and delete handlers is an arbitrary function of the moment and the question (`Grants`).
- A migration executor is any function from the calls made so far and the next call to success or an error text.
- `hide` statements in proofs only keep definitions a step does not need from the verifier.

## Model

| member | source | states |
|---|---|---|
| Text.IdInjective | src/moderation.rs:210 | ids of one kind determine their number |
| Text.TrimSplits | src/forum.rs:660-667 | trimming takes away white space at both ends and nothing else, and leaves none there |
| ByteOrder.OrdersAgree | src/permissions.rs:447-448 | comparing strings by characters and by the bytes of their encoding gives one order |
| ModerationTheorems.AuditReplay | src/moderation.rs:1004-1024 | in every reachable state, replaying the log's state-bearing events from nothing gives exactly the user table; event i is `audit:{i+1}`; its previous state is the new state of that user's preceding such event, or the default; warnings and shadowban changes each alter only their own part |
| ModerationTheorems.HistoryOnlyGrows | src/moderation.rs:266-281 | continuing any run appends to the log; resolved, expired and finished items stay so; nothing disappears or changes its other fields |
| ModerationTheorems.ShadowbanUntouchedByWarnings | src/moderation.rs:978-1001 | the shadowban flag is the one the last shadowban event set, whatever warnings came in between |
| ModerationTheorems.PointCache | src/moderation.rs:978-1002 | every user's cached state is the one called for by the sum, modulo 2^32, over all active warnings that target them; the per-user lists partition the warnings; absent users have none |
| ModerationTheorems.CacheExactIffBelowModulus | src/moderation.rs:983-999 | the cached points are exact iff the true sum is below 2^32; mute at 5 and ban at 10 are right iff it is, or the wrapped sum is past the threshold too |
| ModerationTheorems.WrapUnmutes | src/moderation.rs:984-991 | two warnings of 2^31 points leave the default state |
| ModerationTheorems.Conservation | src/moderation.rs:724-889 | for every kind and target the log has as many events as the tables have items (reports and approvals filed and resolved, warnings issued and expired), and the log length is their sum plus the shadowban changes |
| ModerationTheorems.OpenReportsFromLog | src/moderation.rs:657-670 | the open reports on a target number those filed less those resolved |
| ModerationTheorems.MacroIsSequenceOfCalls | src/moderation.rs:891-949 | a macro succeeds iff its actions would all succeed as single calls in turn, and then ends in the same state; otherwise nothing changes |
| ModerationTheorems.MacroConcatenation | src/moderation.rs:902-944 | a macro can be split anywhere: the whole succeeds iff both parts do in turn, with the same final state |
| ModerationTheorems.MacroNamesUnique | src/moderation.rs:404-417 | no two stored macros share a trimmed name up to ASCII case |
| ModerationTheorems.DuplicateMacroIff | src/moderation.rs:386-419 | a macro with clean name, clean description and actions is refused iff a stored one has the same trimmed name up to ASCII case |
| ModerationTheorems.UmlautNamesBothStored | src/moderation.rs:974-976 | two names that differ in the case of a letter beyond ASCII are both stored |
| ModerationTheorems.JobIsAllOrNothing | src/moderation.rs:506-528 | a pending job performs its whole list as single calls would and completes, or changes only its own status and error |
| ModerationTheorems.JobsRunAtMostOnce | src/moderation.rs:487-531 | over any run each job is executed at most once, never before its tick, and the finished jobs are exactly the executed ones |
| ModerationTheorems.JobPassDrains | src/moderation.rs:492-498 | after a pass no due job is pending, and a pass at any tick not later does nothing |
| ModerationTheorems.FinishesEveryDueJob | src/moderation.rs:506-528 | a pass finishes exactly the due pending jobs and leaves every other job as it was |
| ModerationTheorems.SummaryCountsCompleted | src/moderation.rs:500-518 | the completed count is the number of due jobs that end up completed |
| IdOrder.IdOrderIff | src/moderation.rs:498 | of two ids the one with the smaller number sorts first iff that number, filled up with zeros to the length of the other, does not exceed it |
| ModerationTheorems.PassInCreationOrderIff | src/moderation.rs:492-498 | a pass runs its due jobs in the order they were created iff no due job's number, so filled up, exceeds that of a later one |
| ModerationTheorems.TenJobsRunOutOfOrder | src/moderation.rs:487-498 | in the pass over ten jobs scheduled for one tick the tenth runs before the second |
| ModerationRuns.SnapshotStaysValid | src/moderation.rs:506-509 | each id collected up front meets its job in the loop unchanged, still pending and due |
| ModerationRuns.Reachable | src/moderation.rs:164-181 | the joint invariant of all tables, indexes, caches and the log holds after any run |
| ModerationHistory.TablesFollowLedger | src/moderation.rs:164-181 | after every run reports, approvals, warnings, flags, log, jobs and macros are exactly what the calls that took effect, alone or in macros and jobs, asked for: item n as the n-th such call, closed iff a later one closed it, one event for each deed with its actor, kind, target and detail |
| ModerationHistory.AnswersFollowLedger | src/moderation.rs:198-531 | every call after every run succeeds, or fails with exactly that error, as the earlier calls call for |
| ModerationHistory.FlagFollowsCommands | src/moderation.rs:869-889 | a user's shadowban flag is the one asked for by the last shadowban change on them that took effect, and false if there was none |
| ModerationHistory.ShadowbanSetsOneFlag | src/moderation.rs:595-619 | a shadowban change sets that user's flag as asked and changes nothing else about anybody |
| ModerationHistory.JobsAsOrdered | src/moderation.rs:461-485 | job n has the actor, tick and whole action list of the n-th accepted order, and every execution of it comes at or after the tick asked |
| ModerationHistory.PassPerformsWholeOrders | src/moderation.rs:500-528 | a pass adds to what took effect the whole action lists of the due jobs that complete, in order, and nothing else |
| ModerationHistory.MacrosAsCreated | src/moderation.rs:386-419 | macro n has the trimmed texts, creator and action list of the n-th successful call |
| ModerationEngine.ModerationState.AppendAudit | src/moderation.rs:1004-1024 | appends one event under the next audit id |
| ModerationEngine.ModerationState.RecomputeUserState | src/moderation.rs:978-1002 | the loop stores the wrapped sum of the listed active warnings and keeps the shadowban flag |
| ModerationEngine.ModerationState.ResolveReportInState | src/moderation.rs:724-750 | the macro form has the same effect and errors as the public method |
| ModerationEngine.ModerationState.ResolveApprovalInState | src/moderation.rs:752-778 | the macro form has the same effect and errors as the public method |
| ModerationEngine.ModerationState.IssueWarningInState | src/moderation.rs:780-821 | the macro form has the same effect and errors as the public method |
| ModerationEngine.ModerationState.ExpireWarningInState | src/moderation.rs:823-867 | the macro form has the same effect and errors as the public method |
| ModerationEngine.ModerationState.SetShadowbannedInState | src/moderation.rs:869-889 | the macro form has the same effect as the public method |
| ModerationEngine.ModerationState.ExecuteMacroInState | src/moderation.rs:891-949 | commits all actions or none; both reported counts and the growth of the log equal the number of actions |
| ModerationEngine.ModerationService.Report | src/moderation.rs:198-228 | files an open report under a fresh id, or changes nothing |
| ModerationEngine.ModerationService.EnqueueApproval | src/moderation.rs:230-261 | queues an open approval item, or changes nothing |
| ModerationEngine.ModerationService.ResolveReport | src/moderation.rs:263-293 | closes an open report, or reports why not and changes nothing |
| ModerationEngine.ModerationService.ResolveApproval | src/moderation.rs:295-325 | closes an open approval item, or reports why not and changes nothing |
| ModerationEngine.ModerationService.IssueWarning | src/moderation.rs:327-372 | records the warning, recomputes the user and logs both states |
| ModerationEngine.ModerationService.ExpireWarning | src/moderation.rs:545-593 | deactivates the warning, recomputes the user and returns both |
| ModerationEngine.ModerationService.SetShadowbanned | src/moderation.rs:595-619 | sets the flag and logs both states |
| ModerationEngine.ModerationService.RunMacro | src/moderation.rs:374-384 | a transaction over the action list |
| ModerationEngine.ModerationService.StoreMacro | src/moderation.rs:386-419 | stores a named macro unless the name, description or list is refused |
| ModerationEngine.ModerationService.RunStoredMacro | src/moderation.rs:443-459 | runs the stored list as a transaction, with both counts equal to its length |
| ModerationEngine.ModerationService.Schedule | src/moderation.rs:461-485 | stores a pending job |
| ModerationEngine.ModerationService.RunOne | src/moderation.rs:507-527 | one job on a clone, committed or thrown away |
| ModerationEngine.ModerationService.RunDue | src/moderation.rs:487-531 | equals the fold of single jobs over the due pending ids in string order; checked is completed plus failed |
| ForumInvariant.ReachableInv | src/forum.rs:88-99 | however the sections of all callers interleave, ids, parents, list indexes, slug indexes, deletion flags and counts stay consistent |
| ForumHistory.TablesFollowSections | src/forum.rs:88-99 | after every run, however callers interleave, categories, topics, posts and lists are exactly what the sections that took effect asked for: item n as the n-th such section, a post's text that of its last edit, deleted iff it, its topic or its topic's first post was |
| ForumHistory.AnswersFollowSections | src/forum.rs:147-589 | every section after every run succeeds, or fails with exactly that error, as the earlier ones call for |
| ForumEffects.ReplyDeletionIsExact | src/forum.rs:541-551 | deleting a reply succeeds, takes exactly that post, leaves every other post and topic, and lowers the count of its topic by one |
| ForumEffects.DeletedPostStaysGone | src/forum.rs:525-554 | in no continuation of a run is a deleted post alive, readable or shown in any topic, by any reader |
| ForumEffects.DeletedTopicStaysGone | src/forum.rs:569-589 | in no continuation of a run can a deleted topic be opened, or any post of it be alive or read |
| ForumEffects.EditShowsNewText | src/forum.rs:503-513 | an edited post reads as edited, with the next revision, and every other post reads as before |
| ForumEffects.ReplyShowsLast | src/forum.rs:462-481 | a reply shows at the end of its topic, as written, to everybody who may see its author |
| ForumEffects.ListsInOrder | src/forum.rs:258-267 | the lists of topics and posts are in the order they were made |
| ForumEffects.CategorySlugIsFirstFree | src/forum.rs:166-171 | a new category's slug is the slug of its name, or that with the first number from 2 on that no category has |
| ForumEffects.TopicSlugIsFirstFree | src/forum.rs:230-240 | a new topic's slug is the slug of its title, or that with the first number from 2 on that no topic of its category has |
| ForumEffects.TargetsDescribeItems | src/forum.rs:405-443 | permission targets exist for exactly the live items and name their owner, category and first position |
| ForumInvariant.ReplyCountNeverClips | src/forum.rs:544-551 | deleting a live reply finds a live topic and, up to 2^32 posts, an exact positive count to subtract from |
| ForumTheorems.ListsPartition | src/forum.rs:258-267 | topics and posts are each listed once, under their own category and topic; no list is empty |
| ForumTheorems.LivePostAccounting | src/forum.rs:525-589 | a topic is deleted iff its first post is; a deleted topic has no live post and count 0; otherwise the count is never above the live posts less one, and equals it up to 2^32 posts |
| ForumTheorems.ReplyExactIffNotFull | src/forum.rs:462 | a reply keeps the count exact iff the counter is not at its maximum |
| ForumTheorems.AlwaysExactIffNeverOverfilled | src/forum.rs:462-551 | all along a run, through any number of posts, a topic's count is exact iff no reply met a full counter |
| ForumTheorems.FullCounterIsReached | src/forum.rs:462 | 2^32-1 replies fill the counter exactly, and the next reply goes uncounted |
| ForumTheorems.CategorySlugIndexIsBijection | src/forum.rs:168-181 | slugs and categories correspond one to one |
| ForumTheorems.TopicSlugIndexIsBijection | src/forum.rs:234-257 | composite keys and topics correspond one to one, and the key determines category and slug |
| ForumTheorems.LockErrorsNeverOccur | src/forum.rs:226-228 | no reachable state has a locked category or topic, so the two lock errors never occur |
| ForumTheorems.HtmlMatchesText | src/forum.rs:503-512 | a stored post shows the rendering of its own text |
| ForumTree.CategoryIsPrivate | src/forum.rs:704-716 | the walk up the parents ends and finds whether the category or an ancestor is private |
| ForumTree.PrivateIffMarkedAtOrAbove | src/forum.rs:704-716 | a category counts as private iff it or one of its ancestors is marked private |
| ForumTree.TreeIsLossless | src/forum.rs:726-735 | for any duplicate-free list closed under parents, with parents older than children, flattening the tree gives the list back, everything under its parent |
| ForumTree.CategoryTreeIsLossless | src/forum.rs:190-208 | the listed visible categories form such a list in every reachable state, with and without private ones |
| ForumTree.CategoryTreeIsSorted | src/forum.rs:190-208 | at every level of the tree siblings come in string order of their ids |
| ForumReads.PagesConcatenate | src/forum.rs:310-321 | pages 1 to n in a row are the first n times page-size items, with clamped sizes and saturating offsets |
| ForumReads.PageZeroIsFirst | src/forum.rs:311 | page 0 is page 1 |
| ForumReads.PageIsStretch | src/forum.rs:310-321 | page k of a size from 1 to 100 is the k-th stretch of that size; other sizes count as the nearest of those |
| ForumReads.ListingFailsIff | src/forum.rs:303-309 | listing a category fails, on every page alike, iff it is unknown or at or below a private one without the right to read it |
| ForumReads.ListingAgreesWithOpening | src/forum.rs:303-353 | a topic is on some listed page of its category, for any page size, iff the same reader can open it |
| ForumReads.PagesShowOpenableTopics | src/forum.rs:303-325 | the listing's pages 1 to n, once they cover the category, show each openable topic of it once, in list order, and nothing else |
| ForumReads.PostReadIffInTopic | src/forum.rs:382-403 | a post can be read on its own iff it shows up when its topic is opened |
| ForumReads.NothingHiddenIsShown | src/forum.rs:342-363 | an opened topic shows nothing deleted, no hidden author to others, no post of another topic, and nothing below a private category without the right to read it |
| ForumEffects.OpenedTopicShowsExactly | src/forum.rs:342-363 | a topic opens iff it is alive, its author visible and no private category at or above it in the way, and then shows exactly its live posts by visible authors, oldest first |
| Visibility.SeesAuthorIffAllowed | src/moderation.rs:629-653 | with the hidden authors taken from the moderation service, the forum shows an author to a viewer iff the moderation service allows it, which is unless the last shadowban change made on the author set the flag and the viewer is another |
| Visibility.ShadowbannedAreUnseen | src/main.rs:1235-1242 | nothing a reader so served opens, reads or lists is by an author the last shadowban change on whom set the flag, save the reader's own |
| ForumClients.StepIsStable | src/forum.rs:445-589 | no section changes authorship, topic, category or first position, and deletion is never undone |
| ForumClients.ActionsHitOwnItems | src/forum.rs:485-567 | under any interleaving of any number of callers, an edit or deletion that succeeds after its ownership check acts on a live item owned by the caller |
| ForumClients.HandlersAskedForTheRightCapability | src/main.rs:786-805 | under any interleaving, an edit or delete handler acts with a grant, given when it checked, of the capability the action needs on the item's owner and category, the topic one when the post is still the first |
| ForumClients.TopicGoesIffFirstPost | src/forum.rs:541-553 | deleting a live post deletes its topic iff it is the first post |
| ForumEngine.ForumService.CreateCategory | src/forum.rs:147-184 | stores the category under a fresh id and slug, or changes nothing |
| ForumEngine.ForumService.CreateTopic | src/forum.rs:210-275 | stores the topic with its first post, or changes nothing |
| ForumEngine.ForumService.Reply | src/forum.rs:445-483 | appends a post to a live topic and counts it, or changes nothing |
| ForumEngine.ForumService.EditPostAuthorized | src/forum.rs:498-515 | replaces text and rendering of a live post |
| ForumEngine.ForumService.DeletePostAuthorized | src/forum.rs:525-554 | deletes the whole topic with its first post, and otherwise the one reply |
| ForumEngine.ForumService.DeleteTopicLocked | src/forum.rs:569-589 | the loop marks exactly the posts of the topic |
| ForumEngine.ForumService.TopicPermissionTarget | src/forum.rs:405-418 | owner and category of a live topic |
| ForumEngine.ForumService.PostPermissionTarget | src/forum.rs:420-443 | owner, category and first position of a live post |
| ForumEngine.ForumService.EditPost | src/forum.rs:485-496 | with nothing in between, edits only the caller's own post and returns it |
| ForumEngine.ForumService.DeletePost | src/forum.rs:517-523 | with nothing in between, deletes only the caller's own post |
| ForumEngine.ForumService.DeleteTopic | src/forum.rs:556-562 | with nothing in between, deletes only the caller's own topic |
| Slugs.Slugify | src/forum.rs:737-758 | the byte loop returns the lower-case alphanumeric words joined by single dashes, or `item` |
| Slugs.SlugIsCanonical | src/forum.rs:737-758 | every slug is non-empty lower-case alphanumeric runs joined by single dashes |
| Slugs.SlugFixedPoint | src/forum.rs:740-752 | slugs are left alone, so the function is idempotent |
| SlugLaws.SlugOfTwo | src/forum.rs:740-752 | any other character parts a text in two, whose slugs are joined by a dash; a part without letters and digits adds nothing |
| SlugLaws.SlugOfWord | src/forum.rs:742-744 | letters and digits alone are their own slug, in lower case |
| SlugLaws.SlugOfNothing | src/forum.rs:753-757 | a text without letters and digits has the slug `item` |
| Slugs.FirstFree | src/forum.rs:686-689 | the search ends within the number of taken names plus one probes, at the first free candidate |
| Slugs.UniqueSlug | src/forum.rs:682-691 | the loop ends and returns the first free candidate |
| Slugs.UniqueTopicSlug | src/forum.rs:693-702 | the loop ends and returns the first candidate whose composite key is free |
| Slugs.CandidateIsSlug | src/forum.rs:687 | suffixed names stay in canonical form |
| Slugs.TopicKeyInjective | src/forum.rs:257 | a slug holds no colon, so the composite key determines both parts |
| PermissionTheorems.ResolverRefinesSets | src/permissions.rs:431-486 | resolver and effective capabilities give exactly trust grants, default and assigned roles, and the roles assigned for exactly that user and category |
| PermissionTheorems.ResolverListsRolesOnce | src/permissions.rs:436-456 | no role id comes twice among the global roles |
| PermissionTheorems.CanAssignIff | src/permissions.rs:194-208 | a role can be assigned iff all it grants is held globally; the error names exactly what is missing, sorted |
| PermissionTheorems.AssignGains | src/permissions.rs:264-327 | an assignment gives its target, in its scope only, at most what the actor holds globally; nobody loses anything |
| PermissionTheorems.AssignmentIsExact | src/permissions.rs:257-328 | an assignment is refused exactly when the role is unknown or grants something the actor does not hold globally; otherwise its target gains in its scope exactly what the role grants, and nobody else anything |
| PermissionTheorems.CategoryAssignmentIsLocal | src/permissions.rs:322-326 | a category assignment changes the result for that user in that category and nothing else |
| PermissionTheorems.RunsDoNotEscalate | src/permissions.rs:257-328 | over any run of assignments, what is held globally at the end was held globally by somebody at the start, and what is held in a category was held there by that user or globally by somebody |
| PermissionTheorems.RedefinitionEscalatesIff | src/permissions.rs:236-243 | redefining a role escalates nothing iff all it is to grant is held by somebody globally if it is in use globally, and there or by somebody globally for every user and category it is assigned in |
| PermissionTheorems.RedefinitionIsExact | src/permissions.rs:236-243 | after redefining a role everybody holds what their other sources give, and the new grants wherever the role counts for them |
| PermissionTheorems.RedefinitionCanEscalate | src/permissions.rs:236-243 | giving a capability to a role granted in a category while empty escalates |
| PermissionTheorems.AnySatisfiesOwnIff | src/permissions.rs:173-192 | with an `.any` held, the own action of the same name is allowed iff the `.own` is held too and the item is the actor's, or it is not held and the action is one of the four with an `.any` form |
| PermissionTheorems.MoreCapabilitiesAllowMoreIff | src/permissions.rs:173-192 | more capabilities keep an allowed action allowed iff they do not include that `.own` capability on another user's item |
| PermissionTheorems.DecisionIff | src/permissions.rs:173-192 | the whole decision against what the actor holds: an action that is not on one's own items iff held; a held own one iff the item is the actor's; an own one not held iff it is one of the four with an `.any` form and that is held |
| PermissionTheorems.TrustIsCumulative | src/permissions.rs:410-429 | what a trust level grants every higher one grants, from the level at which each capability comes in |
| PermissionTheorems.GainingOwnLosesOthers | src/permissions.rs:178-183 | adding `post.edit.own` to `post.edit.any` takes away editing others' posts |
| PermissionEngine.EffectiveCapabilities | src/permissions.rs:158-171 | the loops compute the union of the grants |
| PermissionEngine.PermissionService.constructor | src/permissions.rs:225-234 | default ids in order, roles under their own ids, the last of equal ids wins |
| PermissionEngine.PermissionService.DefineRole | src/permissions.rs:236-243 | overwrites the role of that id |
| PermissionEngine.PermissionService.ActorPermissionsOf | src/permissions.rs:431-486 | the loops over sorted ids give the resolver's value, whatever order the maps iterate in |
| PermissionEngine.PermissionService.AssignGlobalRole | src/permissions.rs:257-281 | adds the role to the target iff the actor may assign it |
| PermissionEngine.PermissionService.AssignCategoryRole | src/permissions.rs:303-328 | adds the role to the target in the category iff the actor may assign it |
| PermissionEngine.PermissionService.GrantGlobalRoleForBootstrap | src/permissions.rs:283-301 | adds any known role without a check |
| PermissionEngine.PermissionService.GrantCategoryRoleForBootstrap | src/permissions.rs:330-349 | adds any known role in the category without a check |
| AuthTheorems.LoginIsItsSections | src/auth/service.rs:138-191 | a login with nothing in between is its check, record and session sections in a row |
| AuthTheorems.EntryFollowsFailures | src/auth/service.rs:226-241 | under any schedule the entry of a key follows from the failures recorded since its last success: their number, and a lock of 900 seconds after the last one from the fifth on |
| AuthTheorems.FailuresAreSpaced | src/auth/service.rs:138-171 | with at most c logins of the key in flight, from the fifth failure on the c-th next one comes more than 900 seconds later |
| AuthTheorems.LockoutBoundsFailures | src/auth/service.rs:138-171 | for every schedule with at most c logins of a key in flight, the failures recorded since its last success number at most 4 + c (1 + D/900) over D seconds |
| LoginBursts.BoundIsReached | src/auth/service.rs:142-158 | that bound is attained for every c of at least 1 over any number of lockout periods below 9 * 10^11, the nanoseconds in one period |
| LoginBursts.AdvertisedBoundIffNoOverlap | src/auth/service.rs:142-158 | all schedules with at most c logins in flight keep to 5 + D/900 failures iff c is at most 1 |
| AuthTheorems.RetryTimeExactly | src/auth/service.rs:365-383 | a caller is turned away iff five or more failures stand and the reading is within 900 seconds of the last; the wait is the whole seconds left and at least 1, at most 900 iff the reading lags less than a second, and the attempt changes nothing |
| LoginBursts.LaggingCheckWaitsLonger | src/auth/service.rs:141-144 | a check whose clock reading is one second older than the fifth failure is told to wait 901 seconds |
| AuthTheorems.AccountsAreUnique | src/auth/service.rs:108-133 | user names that normalize alike and e-mail hashes identify accounts; the stored normal form is that of the stored name; both indexes find exactly the account |
| AuthHistory.AccountsFollowRegistrations | src/auth/service.rs:97-136 | over any schedule account n is the one the n-th accepted registration asked for |
| AuthHistory.RegistrationFollows | src/auth/service.rs:97-120 | a registration is refused, with exactly that error, iff the accepted ones before it call for it |
| AuthHistory.UsernameNormalForm | src/auth/service.rs:314-326 | a name is valid iff it has, trimmed, 3 to 32 letters, digits, underscores or dashes; two valid ones are the same iff they differ in case only |
| AuthHistory.EmailNormalForm | src/auth/service.rs:328-340 | two valid addresses are the same iff they differ in case only |
| AuthHistory.CheckDecides | src/auth/service.rs:138-171 | over any schedule a check of a malformed login or a locked key changes nothing; any other leaves the caller about to get a session for exactly the account that the login means and the password fits, and about to record a failure if there is none |
| AuthHistory.SessionDeserved | src/auth/service.rs:173-190 | every session was opened, for two weeks, for the account of an earlier check with an unlocked key and a fitting password |
| AuthHistory.RegisteredGetsIn | src/auth/service.rs:138-171 | whoever registered is accepted with the registered name or address and a fitting password, unless the key is locked |
| AuthHistory.KeyDeterminesAccount | src/auth/service.rs:357-363 | logins with one lockout key mean one account |
| AuthTheorems.SessionsFollowHistory | src/auth/service.rs:173-224 | under any schedule the session table follows from the events: the last login that drew a token, unless logged out since |
| AuthTheorems.AuthenticateIffGranted | src/auth/service.rs:193-213 | a token authenticates exactly the user of that login, until logout or two weeks later |
| AuthEngine.AuthService.Register | src/auth/service.rs:97-136 | adds the account and both index entries, or changes nothing |
| AuthEngine.AuthService.RecordFailedLogin | src/auth/service.rs:226-241 | counts the failure and locks from the fifth on |
| AuthEngine.AuthService.CheckLogin | src/auth/service.rs:139-171 | rejects while locked, and otherwise tells accepted from failed |
| AuthEngine.AuthService.IssueSession | src/auth/service.rs:173-190 | clears failures and opens a session, or reports that no token could be drawn |
| AuthEngine.AuthService.LogIn | src/auth/service.rs:138-191 | its sections one after the other: rejects while locked, records a failure, or clears failures and opens a session |
| AuthEngine.AuthService.LogOut | src/auth/service.rs:215-224 | revokes the session of the token |
| Cookies.HexEncode | src/auth/session.rs:67-75 | the loop writes two digits for each byte |
| Cookies.HexRoundTrip | src/auth/session.rs:67-75 | doubled length, hexadecimal digits only, and decoding gives the bytes back |
| Cookies.HexInjective | src/auth/session.rs:67-75 | different bytes give different strings |
| Cookies.TokensArePlausible | src/auth/session.rs:53-55 | every 32-byte token passes the plausibility test |
| Cookies.PlausibleIff | src/auth/session.rs:53-55 | a token is plausible iff it is 64 hexadecimal digits |
| Cookies.ExtractJoined | src/auth/service.rs:301-312 | headers joined by a semicolon are read left to right |
| Cookies.CookieRoundTrip | src/auth/service.rs:289-312 | the cookie set for any 32 bytes is read back as the same token |
| Cookies.CookieAttributes | src/auth/service.rs:289-294 | the cookie set splits into the token pair and exactly its attributes, the secure one iff asked for |
| Cookies.ExtractedWasThere | src/auth/service.rs:301-312 | whatever is taken for a token stood in the header under the cookie's name and is plausible |
| Cookies.CookieFoundAmongOthers | src/auth/service.rs:301-312 | the token is found among other cookies unless something before it already was one |
| Cookies.ShortHeaderHasNone | src/auth/service.rs:301-312 | a header shorter than name and token holds none |
| Cookies.ExpiredCookieHasNone | src/auth/service.rs:296-299 | the clearing cookie is never taken for a token, alone or after other cookies |
| Migrations.WellFormedIffFaultless | src/db/migrations.rs:52-83 | non-empty, strictly increasing versions, valid names and no blank statement, iff no single check fails |
| Migrations.ValidNameIff | src/db/migrations.rs:199-204 | a name is valid iff it is not empty and made of lower-case letters, digits, underscores and dashes |
| Migrations.Validate | src/db/migrations.rs:45-86 | succeeds iff the list is well formed, otherwise reports the first fault, and never a duplicate version |
| Migrations.Run | src/db/migrations.rs:110-137 | for any executor the nested loops follow the in-order plan up to the first failure; an invalid list makes no call |
| Migrations.TraceIsPrefix | src/db/migrations.rs:116-134 | the calls made are a prefix of the plan, all but the last succeeded, and the error is that of the last |
| Migrations.RunDoesEverything | src/db/migrations.rs:116-134 | a run that succeeds has executed every statement of every migration once, in order, and marked each after its own; one that fails stops at a prefix of that |
| Migrations.MarkedAfterEverythingBefore | src/db/migrations.rs:127-133 | a version is marked only after all its own statements and all earlier migrations |
| Migrations.StatementErrorLocates | src/db/migrations.rs:117-125 | the reported version and index are those of the failing statement, and the trace is everything planned up to it |
| Migrations.MarkErrorLocates | src/db/migrations.rs:127-133 | the reported version is that of the failing mark, and the trace is everything planned up to it |

## Left out

- HTTP routing, request and response types, status codes and the command line: plumbing around the services.
- Markdown rendering, password hashing, SHA-256, random tokens and constant-time comparison: arbitrary functions or parameters.
- Poisoned locks, and `u64` id counters and the `i32` slug suffix running over: taken not to happen.
- Single lookups and sorted listings (`job`, `macro_by_id`, `user_state`, `open_approvals` and the like), the password policy, and capability parsing: one reading of the body says it all.
- Trust thresholds in terms of activity, configuration, the schema text, `render_all`: tables and text.
- ForumReads.PagesConcatenate: takes the list to have at most 2^64-1 items, the machine's limit on an index.
- ForumTheorems.LivePostAccounting: exact counts of a single state are stated up to 2^32 posts in a topic, since the counter saturates there; `AlwaysExactIffNeverOverfilled` has the exact condition over whole runs.
- ForumReads.PagesShowOpenableTopics: and `ListingAgreesWithOpening` take a category to list at most 2^64-1 topics, likewise.
- AuthEngine.AuthService.LogIn: runs its sections with nothing in between; what holds when others come in between is proved about schedules of the same sections (`Next`).
