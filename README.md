# CAUSW backend: posts, presidential delegation, circles and forms

A Dafny model of four parts of the CAUSW student-council backend:

- **PostService.** This is the post use cases: find one post, list or search a board, create, delete, update and restore a post.
  - Every use case assembles a `ValidatorBucket` of checks: user state, role, board, post and circle deleted flags, circle membership, leader identity, admin-or-writer. It then validates the bucket, and only then touches the post.
  - The model keeps that order. The list of checks each request queues is a *plan* (`PostChecks.*Plan`).
  - A plan can itself fail before validation. That happens when a circle membership row is missing (NOT_MEMBER), or when a circle has no leader although a leader check is needed (API_NOT_ALLOWED, "not the circle leader").
  - `PostService.PostService` is an imperative class over repository snapshots. Its methods build a real bucket by `consistOf`, call `validate`, and then flip `isDeleted` or update the post. Each method is proved equal to the pure specification of its use case.
- **DelegationPresident.delegate.** It downgrades every COUNCIL and every VICE_PRESIDENT user to COMMON, then the outgoing president. The user store is a `UserPort` class holding a role per user id. Its `findByRole` is an abstract query that may answer `null`.
- **Circle.** The circle entity: `getLeader` (a nullable leader), `update`, `setLeader`, `delete`, and `from` (building it from a domain model).
- **Form.** The form entity: `Form.of` (with its null-to-empty grade default), `update` (which has no such default) and `setIsDeleted`.

Validators are known only by name and arguments. Whether a check passes is a parameter, `passes: Check -> bool`.
- The named meaning of a validator is the predicate `Validation.ChecksAsNamed`. Example: "TargetIsDeletedValidator passes iff the flag is false".
- It is used only as a premise, for the lemmas that need it.
- `validate()` is modelled as raising for the first failing check, in insertion order.

Roles are values with a string `value`; each constant's value is its name. "PRESIDENT" tests are substring tests, as in `getValue().contains("PRESIDENT")`. So VICE_PRESIDENT is exempted exactly like PRESIDENT.

## Model

| member | source | states |
|---|---|---|
| Optional.Lookup | src/main/java/net/causw/application/post/PostService.java:506-540 | a repository lookup gives the stored value exactly when the key is present |
| Strings.Contains | src/main/java/net/causw/application/post/PostService.java:90 | `contains` holds iff the pattern occurs at some position of the string |
| Strings.Pieces | src/main/java/net/causw/application/post/PostService.java:195 | splitting gives at least one piece; no piece holds the delimiter; joining the pieces with it gives the string back |
| Strings.DropTrailingEmpty | src/main/java/net/causw/application/post/PostService.java:195 | the kept pieces are a prefix of the input whose last piece, if any, is nonempty; everything dropped is empty |
| Strings.JavaSplit | src/main/java/net/causw/application/post/PostService.java:195 | Java's `split`: no piece holds the delimiter; without a delimiter the string is its only piece; otherwise the result is a prefix of the raw pieces that ends in a nonempty piece, and only empty pieces are dropped |
| Strings.PiecesOfJoin | src/main/java/net/causw/application/post/PostService.java:195 | splitting a join of delimiter-free names returns those names |
| Strings.SplitOfJoin | src/main/java/net/causw/application/post/PostService.java:195 | Java's `split(",")` undoes `String.join(",")` for a nonempty list of comma-free names whose last name is nonempty when there are two or more |
| Strings.SplitDropsTrailingEmpty | src/main/java/net/causw/application/post/PostService.java:195 | `"COMMON,".split(",")` is `["COMMON"]`: Java drops the trailing empty piece |
| Roles.RoleOf | src/main/java/net/causw/application/post/PostService.java:218-222 | `Role.of(name)` is the role whose value is that name |
| Roles.VicePresidentHasPresidentValue | src/main/java/net/causw/application/post/PostService.java:227 | VICE_PRESIDENT's value contains "PRESIDENT", so it is exempt like PRESIDENT |
| Roles.LeaderCircleHasLeaderValue | src/main/java/net/causw/application/post/PostService.java:239 | LEADER_CIRCLE's value contains "LEADER_CIRCLE" |
| Roles.PlainRolesLackPresidentValue | src/main/java/net/causw/application/post/PostService.java:227 | ADMIN, COUNCIL, LEADER_CIRCLE and COMMON values do not contain "PRESIDENT" |
| Validation.FirstFailing | src/main/java/net/causw/application/post/PostService.java:253-255 | the index found is that of a failing check with every earlier check passing; none is found iff every check passes |
| Validation.Verdict | src/main/java/net/causw/application/post/PostService.java:253-255 | no check is reported iff every check passes; a reported check fails and every check queued before it passes |
| Validation.EmptyBucketPasses | src/main/java/net/causw/application/post/PostService.java:191 | an empty bucket validates |
| Validation.VerdictOfAppend | src/main/java/net/causw/application/post/PostService.java:276-279 | validating `a` then `b` queued after it: `b` decides only when all of `a` passes |
| Validation.ValidatorBucket.Of | src/main/java/net/causw/application/post/PostService.java:191 | `ValidatorBucket.of()` is an empty bucket |
| Validation.ValidatorBucket.ConsistOf | src/main/java/net/causw/application/post/PostService.java:213-222 | `consistOf(c)` appends `c` to the queued checks |
| Validation.ValidatorBucket.Validate | src/main/java/net/causw/application/post/PostService.java:253-255 | `validate()` reports the first failing queued check, that check is in the bucket and fails, and it reports nothing when all pass |
| PostChecks.GetUser | src/main/java/net/causw/application/post/PostService.java:515-522 | a missing user raises BadRequest ROW_DOES_NOT_EXIST "user not found"; otherwise it gives the stored user |
| PostChecks.GetBoard | src/main/java/net/causw/application/post/PostService.java:524-531 | a missing board raises BadRequest ROW_DOES_NOT_EXIST "board not found"; otherwise it gives the stored board |
| PostChecks.GetPostView | src/main/java/net/causw/application/post/PostService.java:506-513 | a missing post raises BadRequest ROW_DOES_NOT_EXIST "post not found"; otherwise it gives the stored post |
| PostChecks.GetCircleMember | src/main/java/net/causw/application/post/PostService.java:533-540 | a missing membership raises Unauthorized NOT_MEMBER; otherwise it gives the stored membership |
| PostChecks.LeaderCheck | src/main/java/net/causw/application/post/PostService.java:239-250 | a leaderless circle raises API_NOT_ALLOWED "not the circle leader"; otherwise it queues one check comparing the leader's id with the login id |
| PostChecks.InitPlan | src/main/java/net/causw/application/post/PostService.java:457-478 | `initializeValidator` raises NOT_MEMBER exactly for a circle-scoped user without a membership row; otherwise it queues user state and role checks, and two circle checks more when circle-scoped |
| PostChecks.CreatePlan | src/main/java/net/causw/application/post/PostService.java:190-252 | create raises while queueing exactly for a circle-scoped creator without a membership row (NOT_MEMBER) or needing the leader check on a leaderless circle (NOT_THE_LEADER); otherwise the common checks come first and the constraint check on the new post last |
| PostChecks.DeletePlan | src/main/java/net/causw/application/post/PostService.java:264-320 | delete raises while queueing exactly when its circle branch does, with NOT_MEMBER iff the membership row is missing; otherwise the notice, state, role and post deleted checks come first |
| PostChecks.RestorePlan | src/main/java/net/causw/application/post/PostService.java:377-444 | restore raises exactly when its circle branch does; otherwise its head checks come first and the admin check with LEADER_CIRCLE override last |
| PostChecks.UpdatePlan | src/main/java/net/causw/application/post/PostService.java:332-359 | update raises NOT_MEMBER exactly when initialization does; otherwise the initialization checks come first and the constraint check on the post as loaded last |
| PostChecks.RolesOf | src/main/java/net/causw/application/post/PostService.java:218-222 | the allowed roles are the roles named by the board's comma-separated `createRoles`, one per name and in order |
| PostChecks.Decide | src/main/java/net/causw/application/post/PostService.java:253-255 | a failed plan gives its exception; otherwise the rejected check is the first failing one, every earlier check passing, and a plan whose checks all pass gives no error |
| PostChecks.Then | src/main/java/net/causw/application/post/PostService.java:321-328 | the glue of validate-then-act: the value when the gate is clear, the gate's error otherwise; the use-case property itself is stated by the `*PostSpec` functions and the `PostService` methods |
| PostChecks.CreatePostSpec | src/main/java/net/causw/application/post/PostService.java:190-261 | a missing user, then a missing board, raise "not found"; create succeeds iff both exist and the plan passes, and then yields a live post with the request's title, content and joined attachments, written by the user on that board |
| PostChecks.DeletePostSpec | src/main/java/net/causw/application/post/PostService.java:264-329 | a missing user, then a missing post, raise "not found"; delete succeeds iff the plan passes, and then yields the post marked deleted with nothing else changed |
| PostChecks.RestorePostSpec | src/main/java/net/causw/application/post/PostService.java:377-455 | a missing user, then a missing post, raise "not found"; restore succeeds iff the plan passes, and then yields the post marked live with nothing else changed |
| PostChecks.UpdatePostSpec | src/main/java/net/causw/application/post/PostService.java:332-374 | a missing user, then a missing post, raise "not found"; update succeeds iff the plan passes, and then yields the post with the new title, content and joined attachments and the rest unchanged |
| PostChecks.FindPostSpec | src/main/java/net/causw/application/post/PostService.java:62-75 | a missing user, then a missing post, raise "not found"; find succeeds iff initialization passes, and then yields the stored post |
| PostReads.IsFavorite | src/main/java/net/causw/application/post/PostService.java:499-504 | true iff some favourite of the user is a non-deleted board with that id |
| PostReads.ShowsDeleted | src/main/java/net/causw/application/post/PostService.java:89-94 | a LEADER_CIRCLE on a circle-less board dereferences null; otherwise deleted posts are shown iff the user leads the board's circle, is ADMIN or has a president role |
| PostReads.FindAllPostSpec | src/main/java/net/causw/application/post/PostService.java:78-118 | a missing user, then a missing board, raise "not found"; then a failing initialization raises its error, and a LEADER_CIRCLE reader on a board without a circle dereferences null; otherwise the listing is answered, with no keyword |
| PostReads.SearchPlan | src/main/java/net/causw/application/post/PostService.java:121-133 | search raises exactly when initialization does; otherwise it queues the initialization checks followed by the board deleted check |
| PostReads.SearchPostSpec | src/main/java/net/causw/application/post/PostService.java:121-165 | a missing user, then a missing board, raise "not found"; then a failing search plan raises its error, and a LEADER_CIRCLE reader on a board without a circle dereferences null; otherwise the search is answered, with the keyword |
| PostProperties.MissingMemberRaisesNotMember | src/main/java/net/causw/application/post/PostService.java:457-478 | for a circle-scoped user without a membership row, initializing raises NOT_MEMBER, and so do update, delete and restore, whatever the checks would decide |
| PostProperties.MissingMemberRaisesNotMemberOnCreate | src/main/java/net/causw/application/post/PostService.java:225-231 | creating a post in a circle board without a membership row raises NOT_MEMBER |
| PostProperties.InitCircleChecksExactly | src/main/java/net/causw/application/post/PostService.java:457-478 | the circle deleted check is queued iff the board has a circle and the user is neither ADMIN nor a president; it is then followed by the membership status check |
| PostProperties.VicePresidentSkipsCircleChecks | src/main/java/net/causw/application/post/PostService.java:465 | a VICE_PRESIDENT queues only the user state and role checks |
| PostProperties.DeleteQueuesInOrder | src/main/java/net/causw/application/post/PostService.java:269-279 | delete queues the notice role check first on the app-notice board, then user state, role and the post deleted check |
| PostProperties.ExemptDeleteTakesElseBranch | src/main/java/net/causw/application/post/PostService.java:281-320 | an exempt deleter queues only the admin-or-writer check after the common ones, and memberships play no part |
| PostProperties.ExemptRestoreTakesElseBranch | src/main/java/net/causw/application/post/PostService.java:395-444 | an exempt restorer queues the admin-or-writer check and the final one with LEADER_CIRCLE override, and memberships play no part |
| PostProperties.AdminAndPresidentsExempt | src/main/java/net/causw/application/post/PostService.java:283 | ADMIN, PRESIDENT and VICE_PRESIDENT are exempt from circle checks; LEADER_CIRCLE, COUNCIL and COMMON are not |
| PostProperties.ScopedLeaderCheckExactly | src/main/java/net/causw/application/post/PostService.java:300-311 | for a circle-scoped member, delete and restore each queue the leader check iff the role contains LEADER_CIRCLE and the user is not the writer; a leaderless circle then raises NOT_THE_LEADER on both |
| PostProperties.DeleteLeaderCheckExactly | src/main/java/net/causw/application/post/PostService.java:300-311 | once delete's circle branch is assembled, its bucket holds a leader check iff the role contains LEADER_CIRCLE and the user is not the writer |
| PostProperties.RestoreLeaderCheckExactly | src/main/java/net/causw/application/post/PostService.java:414-442 | the same for restore, whose leader check comes just before the final admin check |
| PostProperties.RestoreChecksDeletedAndEndsWithAdmin | src/main/java/net/causw/application/post/PostService.java:389-444 | restore checks that the post is deleted, never that it is live, and ends with the admin check that lets LEADER_CIRCLE through |
| PostProperties.CreateFirstAndLast | src/main/java/net/causw/application/post/PostService.java:196-255 | create starts with the notice role check on the app-notice board and ends with the constraint check of a non-deleted post whose attachments are joined by ":::" |
| PostProperties.CreateLeaderCheckExactly | src/main/java/net/causw/application/post/PostService.java:239-250 | for a circle-scoped creator, the leader check is needed iff the role contains LEADER_CIRCLE and COMMON is not among the create roles |
| PostProperties.TrailingCommaListsCommon | src/main/java/net/causw/application/post/PostService.java:195 | an illustration: a board whose create roles are "COMMON," lists exactly COMMON; the general fact is `CommonListedSkipsLeaderCheck` |
| PostProperties.CreateCircleChecksExactly | src/main/java/net/causw/application/post/PostService.java:225-238 | create queues the circle deleted check iff the creator is circle-scoped; then the circle deleted and membership-status checks follow the head directly |
| PostProperties.CommonListedSkipsLeaderCheck | src/main/java/net/causw/application/post/PostService.java:195 | for any comma-free role names with COMMON among them, a board whose create roles are their comma-join splits back to those names, so COMMON is listed |
| PostProperties.MutationsCircleChecksExactly | src/main/java/net/causw/application/post/PostService.java:281-298 | delete and restore queue the circle deleted check iff the actor is circle-scoped; then the circle deleted, membership-status and owner-or-admin (LEADER_CIRCLE override) checks follow the head directly |
| PostProperties.NoRoleFailsFirstOnInitAndUpdate | src/main/java/net/causw/application/post/PostService.java:340-346 | on any board, the app-notice one included, a user with a valid state and no role is rejected by the role-is-none check on initialization and update, which queue it before the notice check |
| PostProperties.NoRoleFailsFirst | src/main/java/net/causw/application/post/PostService.java:276-279 | outside the app-notice board, a user with a valid state and no role is rejected by the role-is-none check on delete, restore, update and initialization |
| PostProperties.NoRoleFailsFirstOnCreate | src/main/java/net/causw/application/post/PostService.java:213-215 | outside the app-notice board, create rejects a user with a valid state and no role at the role-is-none check |
| PostProperties.DeletingDeletedPostFails | src/main/java/net/causw/application/post/PostService.java:279 | under the named meanings, deleting an already deleted post fails |
| PostProperties.RestoringLivePostFails | src/main/java/net/causw/application/post/PostService.java:393 | under the named meanings, restoring a post that is not deleted fails |
| PostProperties.ForeignLeaderCannotDelete | src/main/java/net/causw/application/post/PostService.java:300-311 | under the named meanings, a LEADER_CIRCLE who neither leads the board's circle nor wrote the post cannot delete it |
| PostProperties.UpdateChecksIgnoreNewText | src/main/java/net/causw/application/post/PostService.java:340-359 | the checks of an update depend on the new attachments but not on the new title and content |
| PostProperties.FindPostIgnoresDeletedFlag | src/main/java/net/causw/application/post/PostService.java:62-75 | whether finding a post succeeds does not depend on the post's own deleted flag |
| PostProperties.LeaderlessCircleHasNoLeader | src/main/java/net/causw/application/post/PostService.java:90-91 | on a leaderless circle the leader test compares with "", so it holds only for an empty login id |
| PostProperties.ListingHidesDeletedUnlessPrivileged | src/main/java/net/causw/application/post/PostService.java:78-118 | a listing is of the requested board, with its favourite flag; it queries without the deleted filter iff deleted posts are shown; a deleted post appears only then |
| PostProperties.SearchHidesDeletedUnlessPrivileged | src/main/java/net/causw/application/post/PostService.java:121-165 | a search is of the requested board and keyword, with its favourite flag; it queries without the deleted filter iff deleted posts are shown; a deleted post appears only then |
| PostProperties.DeletedCircleHasNoLeader | src/main/java/net/causw/adapter/persistence/circle/Circle.java:81-84 | the post service's leader check on a deleted circle raises NOT_THE_LEADER |
| PostService.Post.Of | src/main/java/net/causw/application/post/PostService.java:204-211 | a new post holds the given fields |
| PostService.Post.SetIsDeleted | src/main/java/net/causw/application/post/PostService.java:323 | only the deleted flag changes |
| PostService.Post.Update | src/main/java/net/causw/application/post/PostService.java:361-366 | title, content and attachments are replaced; the rest stays |
| PostService.PostService.GetPost | src/main/java/net/causw/application/post/PostService.java:506-513 | answers the stored post, or "post not found" |
| PostService.PostService.InitializeValidator | src/main/java/net/causw/application/post/PostService.java:457-478 | a fresh bucket holding the initialization plan, or the plan's exception |
| PostService.PostService.QueueBranch | src/main/java/net/causw/application/post/PostService.java:281-320 | appends the delete/restore circle branch to the bucket, or raises its exception |
| PostService.PostService.QueueCreateCircle | src/main/java/net/causw/application/post/PostService.java:225-252 | appends the create circle branch to the bucket, or raises its exception |
| PostService.PostService.QueueCreateCommon | src/main/java/net/causw/application/post/PostService.java:213-222 | appends the five common checks of create, in order |
| PostService.PostService.QueueUpdateChecks | src/main/java/net/causw/application/post/PostService.java:340-359 | appends the checks update queues after initialization, in order |
| PostService.PostService.AssembleCreate | src/main/java/net/causw/application/post/PostService.java:196-252 | builds the new post and a fresh bucket holding the create plan, or raises the plan's exception |
| PostService.PostService.AssembleDelete | src/main/java/net/causw/application/post/PostService.java:269-320 | a fresh bucket holding the delete plan, or the plan's exception |
| PostService.PostService.AssembleRestore | src/main/java/net/causw/application/post/PostService.java:382-444 | a fresh bucket holding the restore plan, or the plan's exception |
| PostService.PostService.FindPostById | src/main/java/net/causw/application/post/PostService.java:62-75 | equals the find specification |
| PostService.PostService.FindAllPost | src/main/java/net/causw/application/post/PostService.java:78-118 | equals the listing specification |
| PostService.PostService.SearchPost | src/main/java/net/causw/application/post/PostService.java:121-165 | equals the search specification |
| PostService.PostService.CreatePost | src/main/java/net/causw/application/post/PostService.java:190-261 | equals the create specification; saves one fresh post with those fields on success and nothing otherwise |
| PostService.PostService.DeletePost | src/main/java/net/causw/application/post/PostService.java:264-329 | equals the delete specification; on success the post is marked deleted and saved, otherwise nothing changes |
| PostService.PostService.UpdatePost | src/main/java/net/causw/application/post/PostService.java:332-374 | equals the update specification; on success the post holds the new text and joined attachments, otherwise nothing changes |
| PostService.PostService.RestorePost | src/main/java/net/causw/application/post/PostService.java:377-455 | equals the restore specification; on success the post is marked live and saved, otherwise nothing changes |
| Delegation.WithRole | src/main/java/net/causw/application/delegation/DelegationPresident.java:29 | `updateRole` on the role map: only the given stored user changes role; a missing user changes nothing |
| Delegation.Downgrade | src/main/java/net/causw/application/delegation/DelegationPresident.java:26-31 | downgrading a list keeps the set of users and sets exactly the listed stored users to COMMON |
| Delegation.AfterCouncil | src/main/java/net/causw/application/delegation/DelegationPresident.java:26-31 | the council downgrade applies to exactly the users the COUNCIL query lists; a null answer changes nothing |
| Delegation.AfterVice | src/main/java/net/causw/application/delegation/DelegationPresident.java:33-38 | the vice-president downgrade applies to exactly the users the VICE_PRESIDENT query lists; a null answer changes nothing |
| Delegation.DelegateSpec | src/main/java/net/causw/application/delegation/DelegationPresident.java:25-46 | users stay the same; success iff the president is stored; council and vice-president users listed by the queries, and the president on success, become COMMON; everyone else keeps their role |
| Delegation.MissingPresidentKeepsDowngrades | src/main/java/net/causw/application/delegation/DelegationPresident.java:40-45 | a missing president raises INTERNAL_SERVER with the council and vice-president downgrades still applied |
| Delegation.NullListsSkipped | src/main/java/net/causw/application/delegation/DelegationPresident.java:27-34 | `null` answers from both queries change no one but the president |
| Delegation.ExactDelegateClears | src/main/java/net/causw/application/delegation/DelegationPresident.java:25-46 | with a query that lists exactly the users holding a role, no COUNCIL or VICE_PRESIDENT remains after delegating |
| Delegation.ExactDelegateNoOp | src/main/java/net/causw/application/delegation/DelegationPresident.java:25-46 | with such a query, delegating from a store without COUNCIL or VICE_PRESIDENT users, whose president is already COMMON, changes nothing |
| Delegation.ExactDelegateClearsAndIsIdempotent | src/main/java/net/causw/application/delegation/DelegationPresident.java:25-46 | with a query that lists exactly the users holding a role, no COUNCIL or VICE_PRESIDENT remains, and delegating again changes nothing |
| Delegation.UserPort.FindByRole | src/main/java/net/causw/application/delegation/DelegationPresident.java:26 | answers the port's query on the current store |
| Delegation.UserPort.UpdateRole | src/main/java/net/causw/application/delegation/DelegationPresident.java:29 | sets the role of a stored user and answers it; answers empty and changes nothing for a missing user |
| Delegation.DelegationPresident.DowngradeEach | src/main/java/net/causw/application/delegation/DelegationPresident.java:28-30 | the loop leaves the store downgraded along the whole list |
| Delegation.DelegationPresident.Delegate | src/main/java/net/causw/application/delegation/DelegationPresident.java:25-46 | the store and outcome equal the delegation specification |
| Circles.Deleted | src/main/java/net/causw/adapter/persistence/circle/Circle.java:81-84 | a deleted circle is marked deleted with no leader; name, description and image stay |
| Circles.Updated | src/main/java/net/causw/adapter/persistence/circle/Circle.java:71-75 | description, name and image become the arguments; deleted flag and leader stay |
| Circles.DeleteIdempotent | src/main/java/net/causw/adapter/persistence/circle/Circle.java:81-84 | deleting twice equals deleting once |
| Circles.UpdateCommutesWithDelete | src/main/java/net/causw/adapter/persistence/circle/Circle.java:71-84 | update and delete commute |
| Users.UserEntity.From | src/main/java/net/causw/adapter/persistence/circle/Circle.java:60-69 | the user entity built from a domain user carries that user's id |
| Circles.Circle.From | src/main/java/net/causw/adapter/persistence/circle/Circle.java:60-69 | the model's fields are stored as they are; an absent leader becomes null, a present one a new user entity with its id |
| Circles.Circle.GetLeader | src/main/java/net/causw/adapter/persistence/circle/Circle.java:40-42 | empty iff the leader field is null, otherwise that leader |
| Circles.Circle.Update | src/main/java/net/causw/adapter/persistence/circle/Circle.java:71-75 | description, name and image become the arguments; deleted flag and leader stay |
| Circles.Circle.SetLeader | src/main/java/net/causw/adapter/persistence/circle/Circle.java:77-79 | only the leader changes |
| Circles.Circle.Delete | src/main/java/net/causw/adapter/persistence/circle/Circle.java:81-84 | the circle is marked deleted and its leader dropped; nothing else changes |
| Forms.GradesOrEmpty | src/main/java/net/causw/adapter/persistence/form/Form.java:63 | a null grade set becomes the empty set; a given one is kept |
| Forms.Created | src/main/java/net/causw/adapter/persistence/form/Form.java:52-71 | a new form is not deleted, always has a grade set (the given one, or empty for null), and stores the other arguments unchanged |
| Forms.Updated | src/main/java/net/causw/adapter/persistence/form/Form.java:73-79 | update stores exactly the grade set passed, null included; deleted flag, writer and circle stay |
| Forms.CreateThenUpdateWithNullGrades | src/main/java/net/causw/adapter/persistence/form/Form.java:63-76 | `of` with null grades stores the empty set, but a later update with null grades stores null |
| Forms.UpdateCommutesWithSetIsDeleted | src/main/java/net/causw/adapter/persistence/form/Form.java:73-83 | update and setIsDeleted commute |
| Forms.Form.Of | src/main/java/net/causw/adapter/persistence/form/Form.java:52-71 | the new form's state is the creation state: defaulted grades, not deleted |
| Forms.Form.Update | src/main/java/net/causw/adapter/persistence/form/Form.java:73-79 | the five fields are replaced; deleted flag, writer and circle stay |
| Forms.Form.SetIsDeleted | src/main/java/net/causw/adapter/persistence/form/Form.java:81-83 | only the deleted flag changes |

## Left out

- Validator internals: the validator classes and `ValidatorBucket` are not part of this model. Whether a check passes is a parameter, and `validate()` is taken to raise for the first failing check, in insertion order.
- Role values: the `Role` enum is not part of this model. Each constant's value is taken to equal its name, and `Role.of(name)` is taken to be the role with that value.
- `StaticValue` is not part of this model. `StaticValue.BOARD_NAME_APP_NOTICE` is taken to be the literal "APP_NOTICE"; only equality with it is used. The validator domains are board, circle and post.
- The `Post` entity is not part of this model. It is modelled by the fields `PostService` reads and writes.
- Response building: `PostResponseDto`, `BoardPostsResponseDto` and comment counts do not appear. Each use case yields the post or the listing query it would answer.
- Paging and ordering (`pageableFactory`, `OrderByCreatedAtDesc`) are left out, and so is the title search (`searchByTitle`). A listing is modelled as its board, keyword and deleted filter.
- `findAllAppNotice` is not modelled.
- `ConstraintValidator` calls the bean-validation framework. It is a check like the others; its target is the post being built.
- Transactions, timestamps, generated ids and persistence are left out. `postRepository.save` is a log of saved posts.
- Request data is taken as read when the request starts (user, board, circle, memberships, favourites). Changes made by concurrent requests are not modelled.
- `UserPort` internals: `findByRole` is an abstract query of the stored roles that may answer `null`. `updateRole` is modelled on a role map.
- Delegation.ExactDelegateClearsAndIsIdempotent: this holds only for a query that lists exactly the users holding the role. The real query is not part of this model.
- Delegation.ExactDelegateClears: the same restriction to an exact query.
- Delegation.ExactDelegateNoOp: the same restriction to an exact query.
- Nullable `Boolean` and `List` fields of `Form` and `Circle` (`isDeleted`, `isPaid`, `questions`) are modelled as non-null values. Nullable strings, `Form.title` among them, and the nullable grade set are `Option`s.
- Null board and post fields and null request fields are not modelled. `Board.category`, `Board.createRoles`, the `isDeleted` flags of `Board` and `Post`, and the request's title, content and attachment list are non-null values here. In the source, a null here throws a `NullPointerException`: a null category at `PostService.java` lines 196, 269, 341 and 382 (create, delete, update and restore), a null `createRoles` at line 195, and a null attachment list at line 210 (in `createPost`, before any check) or line 364 (in `updatePost`, after `validate()`). The model does not capture these exceptions.
- Controllers, security expressions and DTO mapping are outside the modelled core.

## Notes on the code

- The empty-role check is not decisive on its own. NOT_MEMBER is raised while the bucket is assembled, before `validate()` runs. So a missing membership row wins over every queued check, an empty role included (`PostProperties.MissingMemberRaisesNotMember`).
- "President" tests are substring tests. So VICE_PRESIDENT is exempt from circle checks exactly as PRESIDENT is.
- `findPostById` does not check the post's own deleted flag (`PostProperties.FindPostIgnoresDeletedFlag`).
- `deletePost` does not check the board's deleted flag. `updatePost` and `restorePost` do.
- `isFavorite` is asked about `board.getId()`, while the post query uses the requested `boardId`; both name the same board once it is found.
- For a LEADER_CIRCLE user on a board without a circle, the listing's leader test dereferences null (`PostReads.ShowsDeleted`).
