/** What the post service's buckets promise, stated over the plans of `PostChecks`. */
module PostProperties {
  import opened Optional
  import opened Strings
  import opened Roles
  import opened Entities
  import opened Validation
  import opened PostChecks
  import opened PostReads
  import opened Circles

  /** Some queued check is the circle's deleted-flag check. */
  predicate QueuesCircleCheck(checks: seq<Check>) {
    exists i :: 0 <= i < |checks| && checks[i].TargetIsDeletedValidator? && checks[i].domain == DomainCircle
  }

  /** Some queued check compares a leader id with the login id. */
  predicate QueuesLeaderCheck(checks: seq<Check>, loginUserId: UserId) {
    exists i :: 0 <= i < |checks| && checks[i].UserEqualValidator? && checks[i].actualId == loginUserId
  }

  /**
   * A missing membership row raises NOT_MEMBER while the bucket is being
   * assembled, whatever the queued checks would have decided.
   */
  lemma MissingMemberRaisesNotMember(user: User, post: PostView, request: PostUpdateRequest,
                                     members: Members, loginUserId: UserId, passes: Check -> bool)
    requires CircleScoped(post.board, user.role)
    requires (user.id, post.board.circle.value.id) !in members
    ensures InitPlan(user, post.board, members) == Failure(NOT_A_MEMBER)
    ensures Decide(UpdatePlan(user, post, request, members, loginUserId), passes) == Some(NOT_A_MEMBER)
    ensures Decide(DeletePlan(user, post, members, loginUserId), passes) == Some(NOT_A_MEMBER)
    ensures Decide(RestorePlan(user, post, members, loginUserId), passes) == Some(NOT_A_MEMBER)
  {
  }

  lemma MissingMemberRaisesNotMemberOnCreate(creator: User, board: Board, request: PostCreateRequest,
                                            members: Members, loginUserId: UserId, passes: Check -> bool)
    requires CircleScoped(board, creator.role)
    requires (creator.id, board.circle.value.id) !in members
    ensures Decide(CreatePlan(creator, board, request, members, loginUserId), passes) == Some(NOT_A_MEMBER)
  {
  }

  /** `initializeValidator` queues the circle checks exactly when the circle branch is taken. */
  lemma InitCircleChecksExactly(user: User, board: Board, members: Members)
    requires InitPlan(user, board, members).Success?
    ensures QueuesCircleCheck(InitPlan(user, board, members).value) <==> CircleScoped(board, user.role)
    ensures CircleScoped(board, user.role) ==>
      InitPlan(user, board, members).value[2..] == MembershipChecks(board.circle.value, members[(user.id, board.circle.value.id)])
  {
    var checks := InitPlan(user, board, members).value;
    if CircleScoped(board, user.role) {
      assert checks[2].TargetIsDeletedValidator? && checks[2].domain == DomainCircle;
    } else {
      assert |checks| == 2;
    }
  }

  /** A VICE_PRESIDENT is exempt too: the PRESIDENT test is a substring test. */
  lemma VicePresidentSkipsCircleChecks(user: User, board: Board, members: Members)
    requires user.role == VICE_PRESIDENT
    ensures !CircleScoped(board, user.role)
    ensures InitPlan(user, board, members) == Success([UserStateValidator(user.state), UserRoleIsNoneValidator(user.role)])
  {
    VicePresidentHasPresidentValue();
  }

  /** The order `deletePost` queues its common checks in, after the APP_NOTICE role check. */
  lemma DeleteQueuesInOrder(deleter: User, post: PostView, members: Members, loginUserId: UserId)
    requires DeletePlan(deleter, post, members, loginUserId).Success?
    ensures var checks := DeletePlan(deleter, post, members, loginUserId).value;
      var k := if post.board.category == APP_NOTICE then 1 else 0;
      && |checks| > k + 3
      && (k == 1 ==> checks[0] == UserRoleValidator(deleter.role, []))
      && checks[k..k + 3] == [UserStateValidator(deleter.state), UserRoleIsNoneValidator(deleter.role),
                              TargetIsDeletedValidator(post.isDeleted, DomainPost)]
  {
  }

  /**
   * On a circle board an ADMIN or *PRESIDENT* actor takes the else branch
   * of `deletePost`: one owner-or-admin check with no override roles, and no
   * membership lookup, so the membership table does not matter.
   */
  lemma ExemptDeleteTakesElseBranch(deleter: User, post: PostView, members: Members, other: Members, loginUserId: UserId)
    requires Exempt(deleter.role)
    ensures DeletePlan(deleter, post, members, loginUserId)
         == Success(DeleteHead(deleter, post) + [ContentsAdminValidator(deleter.role, loginUserId, post.writerId, [])])
    ensures DeletePlan(deleter, post, members, loginUserId) == DeletePlan(deleter, post, other, loginUserId)
  {
  }

  lemma ExemptRestoreTakesElseBranch(restorer: User, post: PostView, members: Members, other: Members, loginUserId: UserId)
    requires Exempt(restorer.role)
    ensures RestorePlan(restorer, post, members, loginUserId)
         == Success(RestoreHead(restorer, post) + [ContentsAdminValidator(restorer.role, loginUserId, post.writerId, []),
                                                   ContentsAdminValidator(restorer.role, loginUserId, post.writerId, [LEADER_CIRCLE])])
    ensures RestorePlan(restorer, post, members, loginUserId) == RestorePlan(restorer, post, other, loginUserId)
  {
    var head := RestoreHead(restorer, post);
    var a := ContentsAdminValidator(restorer.role, loginUserId, post.writerId, []);
    var b := ContentsAdminValidator(restorer.role, loginUserId, post.writerId, [LEADER_CIRCLE]);
    assert head + [a] + [b] == head + [a, b];
  }

  /** ADMIN and every role whose value contains PRESIDENT are exempt. */
  lemma AdminAndPresidentsExempt()
    ensures Exempt(ADMIN) && Exempt(PRESIDENT) && Exempt(VICE_PRESIDENT)
    ensures !Exempt(LEADER_CIRCLE) && !Exempt(COUNCIL) && !Exempt(COMMON)
  {
    VicePresidentHasPresidentValue();
    PlainRolesLackPresidentValue();
  }

  /**
   * In the circle branch of delete and restore, the leader-equality check is
   * queued exactly when the role contains LEADER_CIRCLE and the actor is not
   * the writer; a leaderless circle then raises API_NOT_ALLOWED at once.
   */
  lemma ScopedLeaderCheckExactly(actor: User, post: PostView, members: Members, loginUserId: UserId)
    requires CircleScoped(post.board, actor.role)
    requires (actor.id, post.board.circle.value.id) in members
    ensures var wants := HasLeaderCircleValue(actor.role) && post.writerId != loginUserId;
      && (wants && post.board.circle.value.leaderId.None? ==>
            DeletePlan(actor, post, members, loginUserId) == Failure(NOT_THE_LEADER) &&
            RestorePlan(actor, post, members, loginUserId) == Failure(NOT_THE_LEADER))
      && (!wants || post.board.circle.value.leaderId.Some? ==>
            DeletePlan(actor, post, members, loginUserId).Success? &&
            RestorePlan(actor, post, members, loginUserId).Success?)
      && (DeletePlan(actor, post, members, loginUserId).Success? ==>
            (QueuesLeaderCheck(DeletePlan(actor, post, members, loginUserId).value, loginUserId) <==> wants))
      && (RestorePlan(actor, post, members, loginUserId).Success? ==>
            (QueuesLeaderCheck(RestorePlan(actor, post, members, loginUserId).value, loginUserId) <==> wants))
  {
    var circle := post.board.circle.value;
    var wants := HasLeaderCircleValue(actor.role) && post.writerId != loginUserId;
    var plan := DeletePlan(actor, post, members, loginUserId);
    if plan.Success? {
      var branch := ScopedChecks(actor, circle, post, members, loginUserId).value;
      DeleteLeaderCheckExactly(actor, post, members, loginUserId, branch);
      RestoreLeaderCheckExactly(actor, post, members, loginUserId, branch);
    }
  }

  /** `deletePost`'s half of `ScopedLeaderCheckExactly`. */
  lemma DeleteLeaderCheckExactly(actor: User, post: PostView, members: Members, loginUserId: UserId, branch: seq<Check>)
    requires CircleScoped(post.board, actor.role)
    requires ScopedChecks(actor, post.board.circle.value, post, members, loginUserId) == Success(branch)
    ensures DeletePlan(actor, post, members, loginUserId).Success?
    ensures QueuesLeaderCheck(DeletePlan(actor, post, members, loginUserId).value, loginUserId) <==>
            HasLeaderCircleValue(actor.role) && post.writerId != loginUserId
  {
    var circle := post.board.circle.value;
    var checks := DeletePlan(actor, post, members, loginUserId).value;
    var head := DeleteHead(actor, post);
    assert checks == head + branch;
    assert forall i :: 0 <= i < |head| ==> !head[i].UserEqualValidator?;
    if HasLeaderCircleValue(actor.role) && post.writerId != loginUserId {
      assert checks[|checks| - 1] == UserEqualValidator(circle.leaderId.value, loginUserId);
    } else {
      assert |branch| == 3;
      forall i | 0 <= i < |checks| ensures !checks[i].UserEqualValidator? {
        if i >= |head| { assert checks[i] == branch[i - |head|]; }
      }
    }
  }

  /** `restorePost`'s half: the leader check sits just before the final owner-or-admin check. */
  lemma RestoreLeaderCheckExactly(actor: User, post: PostView, members: Members, loginUserId: UserId, branch: seq<Check>)
    requires CircleScoped(post.board, actor.role)
    requires ScopedChecks(actor, post.board.circle.value, post, members, loginUserId) == Success(branch)
    ensures RestorePlan(actor, post, members, loginUserId).Success?
    ensures QueuesLeaderCheck(RestorePlan(actor, post, members, loginUserId).value, loginUserId) <==>
            HasLeaderCircleValue(actor.role) && post.writerId != loginUserId
  {
    var circle := post.board.circle.value;
    var checks := RestorePlan(actor, post, members, loginUserId).value;
    var head := RestoreHead(actor, post);
    var last := ContentsAdminValidator(actor.role, loginUserId, post.writerId, [LEADER_CIRCLE]);
    assert checks == head + branch + [last];
    assert forall i :: 0 <= i < |head| ==> !head[i].UserEqualValidator?;
    if HasLeaderCircleValue(actor.role) && post.writerId != loginUserId {
      assert checks[|checks| - 2] == UserEqualValidator(circle.leaderId.value, loginUserId);
    } else {
      assert |branch| == 3;
      forall i | 0 <= i < |checks| ensures !checks[i].UserEqualValidator? {
        if i < |head| { assert checks[i] == head[i]; }
        else if i < |head| + |branch| { assert checks[i] == branch[i - |head|]; }
      }
    }
  }

  /**
   * `restorePost` checks that the post IS deleted, and its last check is
   * always the owner-or-admin check with LEADER_CIRCLE as override.
   */
  lemma RestoreChecksDeletedAndEndsWithAdmin(restorer: User, post: PostView, members: Members, loginUserId: UserId)
    requires RestorePlan(restorer, post, members, loginUserId).Success?
    ensures var checks := RestorePlan(restorer, post, members, loginUserId).value;
      && TargetIsNotDeletedValidator(post.isDeleted, DomainPost) in checks
      && TargetIsDeletedValidator(post.isDeleted, DomainPost) !in checks
      && checks[|checks| - 1] == ContentsAdminValidator(restorer.role, loginUserId, post.writerId, [LEADER_CIRCLE])
  {
    var checks := RestorePlan(restorer, post, members, loginUserId).value;
    var head := RestoreHead(restorer, post);
    var branch := BranchChecks(restorer, post, members, loginUserId).value;
    assert checks == head + branch + [ContentsAdminValidator(restorer.role, loginUserId, post.writerId, [LEADER_CIRCLE])];
    assert checks[|head| - 1] == TargetIsNotDeletedValidator(post.isDeleted, DomainPost);
    forall i | 0 <= i < |checks| ensures checks[i] != TargetIsDeletedValidator(post.isDeleted, DomainPost) {
      if i < |head| {
        assert checks[i] == head[i];
      } else if i < |head| + |branch| {
        assert checks[i] == branch[i - |head|];
      }
    }
  }

  /**
   * `createPost`: on an APP_NOTICE board the first check is the role check
   * with an empty role list; the last is always the constraint check on the
   * new post, which is not deleted and carries the attachments joined by ":::".
   */
  lemma CreateFirstAndLast(creator: User, board: Board, request: PostCreateRequest, members: Members, loginUserId: UserId)
    requires CreatePlan(creator, board, request, members, loginUserId).Success?
    ensures var checks := CreatePlan(creator, board, request, members, loginUserId).value;
      && (board.category == APP_NOTICE ==> checks[0] == UserRoleValidator(creator.role, []))
      && checks[|checks| - 1] == ConstraintValidator(NewPostView(creator, board, request))
      && !checks[|checks| - 1].target.isDeleted
      && checks[|checks| - 1].target.attachments == Join(":::", request.attachmentList)
  {
  }

  /** When the role list names COMMON, a LEADER_CIRCLE creator is not compared with the leader. */
  lemma CreateLeaderCheckExactly(creator: User, board: Board, request: PostCreateRequest, members: Members, loginUserId: UserId)
    requires CircleScoped(board, creator.role)
    requires (creator.id, board.circle.value.id) in members
    ensures var wants := HasLeaderCircleValue(creator.role) && "COMMON" !in CreateRoleNames(board);
      && (wants && board.circle.value.leaderId.None? ==>
            CreatePlan(creator, board, request, members, loginUserId) == Failure(NOT_THE_LEADER))
      && (CreatePlan(creator, board, request, members, loginUserId).Success? ==>
            (QueuesLeaderCheck(CreatePlan(creator, board, request, members, loginUserId).value, loginUserId) <==> wants))
  {
    var plan := CreatePlan(creator, board, request, members, loginUserId);
    var wants := HasLeaderCircleValue(creator.role) && "COMMON" !in CreateRoleNames(board);
    if plan.Success? {
      var checks := plan.value;
      var head := CreateHead(creator, board, request);
      var circ := CreateCircleChecks(creator, board.circle.value, members, CreateRoleNames(board), loginUserId).value;
      assert checks == head + circ + [ConstraintValidator(NewPostView(creator, board, request))];
      assert forall i :: 0 <= i < |head| ==> !head[i].UserEqualValidator?;
      if wants {
        assert checks[|head| + 2] == UserEqualValidator(board.circle.value.leaderId.value, loginUserId);
      } else {
        assert |circ| == 2;
        forall i | 0 <= i < |checks| ensures !checks[i].UserEqualValidator? {
          if i < |head| { assert checks[i] == head[i]; }
          else if i < |head| + 2 { assert checks[i] == circ[i - |head|]; }
        }
      }
    }
  }

  /**
   * A board whose role list is the comma-joined `names`, with COMMON among
   * them, lets a circle leader post without the leader check.
   */
  lemma CommonListedSkipsLeaderCheck(board: Board, names: seq<string>)
    requires forall k :: 0 <= k < |names| ==> ',' !in names[k]
    requires |names| > 1 ==> names[|names| - 1] != ""
    requires "COMMON" in names
    requires board.createRoles == Join(",", names)
    ensures CreateRoleNames(board) == names
    ensures "COMMON" in CreateRoleNames(board)
  {
    SplitOfJoin(names, ',');
  }

  /** A trailing comma, as in "COMMON,", still lists COMMON: Java drops the empty last piece. */
  lemma TrailingCommaListsCommon(board: Board)
    requires board.createRoles == "COMMON,"
    ensures CreateRoleNames(board) == ["COMMON"]
  {
    SplitDropsTrailingEmpty();
  }

  /**
   * `createPost` queues the circle's deleted-flag check exactly in the circle
   * branch, where the membership-status check follows it right after the head.
   */
  lemma CreateCircleChecksExactly(creator: User, board: Board, request: PostCreateRequest, members: Members, loginUserId: UserId)
    requires CreatePlan(creator, board, request, members, loginUserId).Success?
    ensures QueuesCircleCheck(CreatePlan(creator, board, request, members, loginUserId).value) <==> CircleScoped(board, creator.role)
    ensures CircleScoped(board, creator.role) ==>
      var checks := CreatePlan(creator, board, request, members, loginUserId).value;
      var n := |CreateHead(creator, board, request)|;
      n + 2 <= |checks| &&
      checks[n..n + 2] == MembershipChecks(board.circle.value, members[(creator.id, board.circle.value.id)])
  {
    var checks := CreatePlan(creator, board, request, members, loginUserId).value;
    var head := CreateHead(creator, board, request);
    var last := ConstraintValidator(NewPostView(creator, board, request));
    if CircleScoped(board, creator.role) {
      var circ := CreateCircleChecks(creator, board.circle.value, members, CreateRoleNames(board), loginUserId).value;
      assert checks == head + circ + [last];
      assert checks[|head|] == circ[0];
      assert circ[..2] == MembershipChecks(board.circle.value, members[(creator.id, board.circle.value.id)]);
      assert checks[|head|..|head| + 2] == circ[..2];
    } else {
      assert checks == head + [] + [last];
      forall i | 0 <= i < |checks| ensures !(checks[i].TargetIsDeletedValidator? && checks[i].domain == DomainCircle) {
        if i < |head| { assert checks[i] == head[i]; }
      }
    }
  }

  /**
   * Circle checks are queued by delete and restore exactly in the circle
   * branch, which opens with the membership checks and the owner-or-admin
   * check with LEADER_CIRCLE as override.
   */
  lemma MutationsCircleChecksExactly(actor: User, post: PostView, members: Members, loginUserId: UserId)
    requires DeletePlan(actor, post, members, loginUserId).Success?
    ensures QueuesCircleCheck(DeletePlan(actor, post, members, loginUserId).value) <==> CircleScoped(post.board, actor.role)
    ensures QueuesCircleCheck(RestorePlan(actor, post, members, loginUserId).value) <==> CircleScoped(post.board, actor.role)
    ensures CircleScoped(post.board, actor.role) ==>
      var scoped := MembershipChecks(post.board.circle.value, members[(actor.id, post.board.circle.value.id)])
                    + [ContentsAdminValidator(actor.role, loginUserId, post.writerId, [LEADER_CIRCLE])];
      var d := DeletePlan(actor, post, members, loginUserId).value;
      var r := RestorePlan(actor, post, members, loginUserId).value;
      var dn, rn := |DeleteHead(actor, post)|, |RestoreHead(actor, post)|;
      && dn + 3 <= |d| && d[dn..dn + 3] == scoped
      && rn + 3 <= |r| && r[rn..rn + 3] == scoped
  {
    var branch := BranchChecks(actor, post, members, loginUserId).value;
    var d := DeletePlan(actor, post, members, loginUserId).value;
    var r := RestorePlan(actor, post, members, loginUserId).value;
    var dh, rh := DeleteHead(actor, post), RestoreHead(actor, post);
    assert d == dh + branch;
    assert r == rh + branch + [ContentsAdminValidator(actor.role, loginUserId, post.writerId, [LEADER_CIRCLE])];
    if CircleScoped(post.board, actor.role) {
      assert d[|dh|] == branch[0] && r[|rh|] == branch[0];
      assert d[|dh|..|dh| + 3] == branch[..3] && r[|rh|..|rh| + 3] == branch[..3];
    } else {
      assert |branch| == 1;
      forall i | 0 <= i < |d| ensures !(d[i].TargetIsDeletedValidator? && d[i].domain == DomainCircle) {
        if i < |dh| { assert d[i] == dh[i]; }
      }
      forall i | 0 <= i < |r| ensures !(r[i].TargetIsDeletedValidator? && r[i].domain == DomainCircle) {
        if i < |rh| { assert r[i] == rh[i]; } else if i == |rh| { assert r[i] == branch[0]; }
      }
    }
  }

  /**
   * A user whose state passes but whose role is none stops at
   * `UserRoleIsNoneValidator` before any relational check, once the bucket
   * is assembled (a missing membership row is raised before that).
   */
  lemma NoRoleFailsFirst(user: User, post: PostView, request: PostUpdateRequest, members: Members,
                         loginUserId: UserId, passes: Check -> bool)
    requires post.board.category != APP_NOTICE
    requires passes(UserStateValidator(user.state)) && !passes(UserRoleIsNoneValidator(user.role))
    requires DeletePlan(user, post, members, loginUserId).Success?
    requires InitPlan(user, post.board, members).Success?
    ensures Decide(DeletePlan(user, post, members, loginUserId), passes) == Some(Rejected(UserRoleIsNoneValidator(user.role)))
    ensures Decide(RestorePlan(user, post, members, loginUserId), passes) == Some(Rejected(UserRoleIsNoneValidator(user.role)))
    ensures Decide(InitPlan(user, post.board, members), passes) == Some(Rejected(UserRoleIsNoneValidator(user.role)))
    ensures Decide(UpdatePlan(user, post, request, members, loginUserId), passes) == Some(Rejected(UserRoleIsNoneValidator(user.role)))
  {
    FirstFailingAt(DeletePlan(user, post, members, loginUserId).value, passes, 1);
    FirstFailingAt(RestorePlan(user, post, members, loginUserId).value, passes, 1);
    var init := InitPlan(user, post.board, members).value;
    FirstFailingAt(init, passes, 1);
    var update := UpdatePlan(user, post, request, members, loginUserId).value;
    assert update[0] == init[0] && update[1] == init[1];
    FirstFailingAt(update, passes, 1);
  }

  /**
   * Initialization and update queue the role-is-none check before the
   * notice check, so there the app-notice board makes no difference.
   */
  lemma NoRoleFailsFirstOnInitAndUpdate(user: User, post: PostView, request: PostUpdateRequest, members: Members,
                                        loginUserId: UserId, passes: Check -> bool)
    requires passes(UserStateValidator(user.state)) && !passes(UserRoleIsNoneValidator(user.role))
    requires InitPlan(user, post.board, members).Success?
    ensures Decide(InitPlan(user, post.board, members), passes) == Some(Rejected(UserRoleIsNoneValidator(user.role)))
    ensures Decide(UpdatePlan(user, post, request, members, loginUserId), passes) == Some(Rejected(UserRoleIsNoneValidator(user.role)))
  {
    var init := InitPlan(user, post.board, members).value;
    FirstFailingAt(init, passes, 1);
    var update := UpdatePlan(user, post, request, members, loginUserId).value;
    assert update[0] == init[0] && update[1] == init[1];
    FirstFailingAt(update, passes, 1);
  }

  /** The same holds for `createPost` once its bucket is assembled. */
  lemma NoRoleFailsFirstOnCreate(creator: User, board: Board, request: PostCreateRequest, members: Members,
                                 loginUserId: UserId, passes: Check -> bool)
    requires board.category != APP_NOTICE
    requires passes(UserStateValidator(creator.state)) && !passes(UserRoleIsNoneValidator(creator.role))
    requires CreatePlan(creator, board, request, members, loginUserId).Success?
    ensures Decide(CreatePlan(creator, board, request, members, loginUserId), passes) == Some(Rejected(UserRoleIsNoneValidator(creator.role)))
  {
    var checks := CreatePlan(creator, board, request, members, loginUserId).value;
    var head := CreateHead(creator, board, request);
    assert checks[0] == head[0] && checks[1] == head[1];
    FirstFailingAt(checks, passes, 1);
  }

  /** Read by their names, the checks make deleting a deleted post fail (ADMIN included). */
  lemma DeletingDeletedPostFails(deleter: User, post: PostView, members: Members, loginUserId: UserId, passes: Check -> bool)
    requires ChecksAsNamed(passes)
    requires post.isDeleted
    ensures Decide(DeletePlan(deleter, post, members, loginUserId), passes).Some?
  {
    var plan := DeletePlan(deleter, post, members, loginUserId);
    if plan.Success? {
      var k := |NoticeChecks(post.board, deleter.role)|;
      assert plan.value[k + 2] == TargetIsDeletedValidator(true, DomainPost);
    }
  }

  /** ... and restoring a post that is not deleted fail. */
  lemma RestoringLivePostFails(restorer: User, post: PostView, members: Members, loginUserId: UserId, passes: Check -> bool)
    requires ChecksAsNamed(passes)
    requires !post.isDeleted
    ensures Decide(RestorePlan(restorer, post, members, loginUserId), passes).Some?
  {
    var plan := RestorePlan(restorer, post, members, loginUserId);
    if plan.Success? {
      var k := |NoticeChecks(post.board, restorer.role)|;
      assert plan.value[k + 3] == TargetIsNotDeletedValidator(false, DomainPost);
    }
  }

  /**
   * A LEADER_CIRCLE user who is not the registered leader of the board's
   * circle cannot delete another member's post there.
   */
  lemma ForeignLeaderCannotDelete(deleter: User, post: PostView, members: Members, loginUserId: UserId, passes: Check -> bool)
    requires ChecksAsNamed(passes)
    requires deleter.role == LEADER_CIRCLE
    requires post.board.circle.Some? && post.board.circle.value.leaderId != Some(loginUserId)
    requires post.writerId != loginUserId
    ensures Decide(DeletePlan(deleter, post, members, loginUserId), passes).Some?
  {
    AdminAndPresidentsExempt();
    LeaderCircleHasLeaderValue();
    var plan := DeletePlan(deleter, post, members, loginUserId);
    if plan.Success? {
      var circle := post.board.circle.value;
      var branch := ScopedChecks(deleter, circle, post, members, loginUserId).value;
      var checks := plan.value;
      assert checks == DeleteHead(deleter, post) + branch;
      var leader := UserEqualValidator(circle.leaderId.value, loginUserId);
      assert branch[|branch| - 1] == leader;
      assert checks[|checks| - 1] == leader && !passes(leader);
    }
  }

  /** The checks of `updatePost` depend on the new content only through the attachment count check. */
  lemma UpdateChecksIgnoreNewText(updater: User, post: PostView, a: PostUpdateRequest, b: PostUpdateRequest,
                                  members: Members, loginUserId: UserId)
    requires a.attachmentList == b.attachmentList
    ensures UpdatePlan(updater, post, a, members, loginUserId) == UpdatePlan(updater, post, b, members, loginUserId)
  {
  }

  /** `findPostById` queues no check on the post's own deleted flag. */
  lemma FindPostIgnoresDeletedFlag(users: map<UserId, User>, post: PostView, members: Members,
                                  loginUserId: UserId, passes: Check -> bool)
    ensures FindPostSpec(users, Some(post), members, loginUserId, passes).Success?
        <==> FindPostSpec(users, Some(post.(isDeleted := !post.isDeleted)), members, loginUserId, passes).Success?
  {
  }

  /** A leaderless circle makes nobody its leader, unless the login id is the empty string. */
  lemma LeaderlessCircleHasNoLeader(user: User, board: Board, loginUserId: UserId)
    requires HasLeaderCircleValue(user.role) && user.role != ADMIN && !HasPresidentValue(user.role)
    requires board.circle.Some? && board.circle.value.leaderId.None?
    ensures ShowsDeleted(user, board, loginUserId) == Success(loginUserId == "")
  {
  }

  /** An unprivileged listing uses the not-deleted query, which never returns a deleted post. */
  lemma ListingHidesDeletedUnlessPrivileged(users: map<UserId, User>, boards: map<BoardId, Board>, members: Members,
                                           favorites: map<UserId, seq<FavoriteBoard>>, loginUserId: UserId,
                                           boardId: BoardId, passes: Check -> bool, p: PostView)
    requires FindAllPostSpec(users, boards, members, favorites, loginUserId, boardId, passes).Success?
    ensures var listing := FindAllPostSpec(users, boards, members, favorites, loginUserId, boardId, passes).value;
      && listing.board == boards[boardId]
      && listing.isFavorite == IsFavorite(FavoritesOf(favorites, loginUserId), boards[boardId].id)
      && (listing.query.isDeleted.None? <==> ShowsDeleted(users[loginUserId], boards[boardId], loginUserId) == Success(true))
      && (Admits(listing.query, p) && p.isDeleted ==> ShowsDeleted(users[loginUserId], boards[boardId], loginUserId) == Success(true))
      && (Admits(listing.query, p) ==> p.board.id == boardId)
  {
  }

  /** The same visibility rule holds for `searchPost`, whose query also carries the keyword. */
  lemma SearchHidesDeletedUnlessPrivileged(users: map<UserId, User>, boards: map<BoardId, Board>, members: Members,
                                           favorites: map<UserId, seq<FavoriteBoard>>, loginUserId: UserId,
                                           boardId: BoardId, keyword: string, passes: Check -> bool, p: PostView)
    requires SearchPostSpec(users, boards, members, favorites, loginUserId, boardId, keyword, passes).Success?
    ensures var listing := SearchPostSpec(users, boards, members, favorites, loginUserId, boardId, keyword, passes).value;
      && listing.board == boards[boardId]
      && listing.isFavorite == IsFavorite(FavoritesOf(favorites, loginUserId), boards[boardId].id)
      && listing.query == PostQuery(boardId, Some(keyword), listing.query.isDeleted)
      && (listing.query.isDeleted.None? <==> ShowsDeleted(users[loginUserId], boards[boardId], loginUserId) == Success(true))
      && (Admits(listing.query, p) && p.isDeleted ==> ShowsDeleted(users[loginUserId], boards[boardId], loginUserId) == Success(true))
      && (Admits(listing.query, p) ==> p.board.id == boardId)
  {
  }

  /** No one passes the leader check of a deleted circle: it raises NOT_THE_LEADER. */
  lemma DeletedCircleHasNoLeader(id: CircleId, s: CircleState, loginUserId: UserId)
    ensures LeaderCheck(InfoOf(id, Deleted(s)), loginUserId) == Failure(NOT_THE_LEADER)
  {
  }
}
