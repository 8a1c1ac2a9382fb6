/**
 * `PostService` and the `Post` entity. Every operation loads what it needs,
 * fills a `ValidatorBucket` step by step, validates it, and only then
 * changes and saves the post. Each method is proved against the matching
 * specification function of `PostChecks` or `PostReads`.
 */
module PostService {
  import opened Optional
  import opened Strings
  import opened Roles
  import opened Entities
  import opened Validation
  import opened PostChecks
  import opened PostReads

  /** The `Post` entity, as far as the service uses it. */
  class Post {
    var title: string
    var content: string
    const writerId: UserId
    var isDeleted: bool
    const board: Board
    var attachments: string

    function View(): PostView
      reads this
    {
      PostView(title, content, writerId, isDeleted, board, attachments)
    }

    /** `Post.of(title, content, writer, isDeleted, board, attachments)` */
    constructor Of(title: string, content: string, writer: User, isDeleted: bool, board: Board, attachments: string)
      ensures View() == PostView(title, content, writer.id, isDeleted, board, attachments)
    {
      this.title := title;
      this.content := content;
      this.writerId := writer.id;
      this.isDeleted := isDeleted;
      this.board := board;
      this.attachments := attachments;
    }

    /** `setIsDeleted(b)`: only the deleted flag changes. */
    method SetIsDeleted(b: bool)
      modifies this`isDeleted
      ensures View() == old(View()).(isDeleted := b)
    {
      isDeleted := b;
    }

    /** `update(title, content, attachments)`: exactly those three fields change. */
    method Update(title: string, content: string, attachments: string)
      modifies this`title, this`content, this`attachments
      ensures View() == old(View()).(title := title, content := content, attachments := attachments)
    {
      this.title := title;
      this.content := content;
      this.attachments := attachments;
    }
  }

  class PostService {
    const users: map<UserId, User>
    const boards: map<BoardId, Board>
    const posts: map<PostId, Post>
    const members: Members
    const favorites: map<UserId, seq<FavoriteBoard>>
    /** Every post handed to `postRepository.save`, in order. */
    var saved: seq<Post>

    constructor (users: map<UserId, User>, boards: map<BoardId, Board>, posts: map<PostId, Post>,
                 members: Members, favorites: map<UserId, seq<FavoriteBoard>>)
      ensures this.users == users && this.boards == boards && this.posts == posts
      ensures this.members == members && this.favorites == favorites && saved == []
    {
      this.users := users;
      this.boards := boards;
      this.posts := posts;
      this.members := members;
      this.favorites := favorites;
      saved := [];
    }

    /** The fields of the stored post `postId`, if there is one. */
    function PostOf(postId: PostId): Option<PostView>
      reads posts.Values
    {
      if postId in posts then Some(posts[postId].View()) else None
    }

    /** The objects an operation on `postId` may change. */
    function Target(postId: PostId): set<Post> {
      if postId in posts then {posts[postId]} else {}
    }

    /** `getPost` */
    method GetPost(postId: PostId) returns (r: Result<Post>)
      ensures r.Success? <==> postId in posts
      ensures r.Success? ==> r.value == posts[postId]
      ensures r.Failure? ==> r.error == POST_NOT_FOUND
    {
      if postId in posts {
        r := Success(posts[postId]);
      } else {
        r := Failure(POST_NOT_FOUND);
      }
    }

    /** `initializeValidator(user, board)` */
    method InitializeValidator(user: User, board: Board) returns (r: Result<ValidatorBucket>)
      ensures r.Failure? <==> InitPlan(user, board, members).Failure?
      ensures r.Failure? ==> r.error == InitPlan(user, board, members).error
      ensures r.Success? ==> fresh(r.value) && r.value.checks == InitPlan(user, board, members).value
    {
      var bucket := new ValidatorBucket.Of();
      bucket.ConsistOf(UserStateValidator(user.state));
      bucket.ConsistOf(UserRoleIsNoneValidator(user.role));
      if CircleScoped(board, user.role) {
        var circle := board.circle.value;
        var member :- GetCircleMember(members, user.id, circle.id);
        bucket.ConsistOf(TargetIsDeletedValidator(circle.isDeleted, DomainCircle));
        bucket.ConsistOf(CircleMemberStatusValidator(member.status, [Member]));
      }
      r := Success(bucket);
    }

    /**
     * The `ifPresentOrElse` of `deletePost` and `restorePost`, queued onto
     * `bucket`; raises NOT_MEMBER or NOT_CIRCLE_LEADER while queueing.
     */
    method QueueBranch(bucket: ValidatorBucket, actor: User, post: PostView, loginUserId: UserId)
      returns (err: Option<Error>)
      modifies bucket
      ensures BranchChecks(actor, post, members, loginUserId).Failure? <==> err.Some?
      ensures err.Some? ==> err.value == BranchChecks(actor, post, members, loginUserId).error
      ensures err.None? ==> bucket.checks == old(bucket.checks) + BranchChecks(actor, post, members, loginUserId).value
    {
      err := None;
      if CircleScoped(post.board, actor.role) {
        var circle := post.board.circle.value;
        var found := GetCircleMember(members, actor.id, circle.id);
        if found.Failure? {
          return Some(found.error);
        }
        bucket.ConsistOf(TargetIsDeletedValidator(circle.isDeleted, DomainCircle));
        bucket.ConsistOf(CircleMemberStatusValidator(found.value.status, [Member]));
        bucket.ConsistOf(ContentsAdminValidator(actor.role, loginUserId, post.writerId, [LEADER_CIRCLE]));
        if HasLeaderCircleValue(actor.role) && post.writerId != loginUserId {
          if circle.leaderId.None? {
            return Some(NOT_THE_LEADER);
          }
          bucket.ConsistOf(UserEqualValidator(circle.leaderId.value, loginUserId));
        }
      } else {
        bucket.ConsistOf(ContentsAdminValidator(actor.role, loginUserId, post.writerId, []));
      }
    }

    /** The `ifPresent` branch of `createPost`, queued onto `bucket`. */
    method QueueCreateCircle(bucket: ValidatorBucket, creator: User, circle: CircleInfo, createRoles: seq<string>, loginUserId: UserId)
      returns (err: Option<Error>)
      modifies bucket
      ensures CreateCircleChecks(creator, circle, members, createRoles, loginUserId).Failure? <==> err.Some?
      ensures err.Some? ==> err.value == CreateCircleChecks(creator, circle, members, createRoles, loginUserId).error
      ensures err.None? ==> bucket.checks == old(bucket.checks) + CreateCircleChecks(creator, circle, members, createRoles, loginUserId).value
    {
      err := None;
      var found := GetCircleMember(members, creator.id, circle.id);
      if found.Failure? {
        return Some(found.error);
      }
      bucket.ConsistOf(TargetIsDeletedValidator(circle.isDeleted, DomainCircle));
      bucket.ConsistOf(CircleMemberStatusValidator(found.value.status, [Member]));
      if HasLeaderCircleValue(creator.role) && "COMMON" !in createRoles {
        if circle.leaderId.None? {
          return Some(NOT_THE_LEADER);
        }
        bucket.ConsistOf(UserEqualValidator(circle.leaderId.value, loginUserId));
      }
    }

    /** `findPostById`: a read with no state change. */
    method FindPostById(loginUserId: UserId, postId: PostId, passes: Check -> bool) returns (r: Result<PostView>)
      ensures r == FindPostSpec(users, PostOf(postId), members, loginUserId, passes)
    {
      var user :- GetUser(users, loginUserId);
      var post :- GetPost(postId);
      var bucket :- InitializeValidator(user, post.board);
      var failed := bucket.Validate(passes);
      if failed.Some? {
        return Failure(Rejected(failed.value));
      }
      r := Success(post.View());
    }

    /** `findAllPost` */
    method FindAllPost(loginUserId: UserId, boardId: BoardId, passes: Check -> bool) returns (r: Result<BoardPosts>)
      ensures r == FindAllPostSpec(users, boards, members, favorites, loginUserId, boardId, passes)
    {
      var user :- GetUser(users, loginUserId);
      var board :- GetBoard(boards, boardId);
      var bucket :- InitializeValidator(user, board);
      var failed := bucket.Validate(passes);
      if failed.Some? {
        return Failure(Rejected(failed.value));
      }
      var show :- ShowsDeleted(user, board, loginUserId);
      r := Success(Listing(user, board, boardId, favorites, loginUserId, None, show));
    }

    /** `searchPost` */
    method SearchPost(loginUserId: UserId, boardId: BoardId, keyword: string, passes: Check -> bool)
      returns (r: Result<BoardPosts>)
      ensures r == SearchPostSpec(users, boards, members, favorites, loginUserId, boardId, keyword, passes)
    {
      var user :- GetUser(users, loginUserId);
      var board :- GetBoard(boards, boardId);
      var bucket :- InitializeValidator(user, board);
      bucket.ConsistOf(TargetIsDeletedValidator(board.isDeleted, DomainBoard));
      var failed := bucket.Validate(passes);
      if failed.Some? {
        return Failure(Rejected(failed.value));
      }
      var show :- ShowsDeleted(user, board, loginUserId);
      r := Success(Listing(user, board, boardId, favorites, loginUserId, Some(keyword), show));
    }

    /** The chained `consistOf` calls of `createPost` after `Post.of`. */
    method QueueCreateCommon(bucket: ValidatorBucket, creator: User, board: Board, request: PostCreateRequest,
                             createRoles: seq<string>)
      requires createRoles == CreateRoleNames(board)
      modifies bucket
      ensures bucket.checks == old(bucket.checks) + CreateCommon(creator, board, request)
    {
      bucket.ConsistOf(UserStateValidator(creator.state));
      bucket.ConsistOf(UserRoleIsNoneValidator(creator.role));
      bucket.ConsistOf(PostNumberOfAttachmentsValidator(request.attachmentList));
      bucket.ConsistOf(TargetIsDeletedValidator(board.isDeleted, DomainBoard));
      bucket.ConsistOf(UserRoleValidator(creator.role, RolesOf(createRoles)));
    }

    /** The chained `consistOf` calls of `updatePost`; the constraint check sees the post before the update. */
    method QueueUpdateChecks(bucket: ValidatorBucket, updater: User, post: PostView, request: PostUpdateRequest,
                             loginUserId: UserId)
      modifies bucket
      ensures bucket.checks == old(bucket.checks) + UpdateTail(updater, post, request, loginUserId)
    {
      if post.board.category == APP_NOTICE {
        bucket.ConsistOf(UserRoleValidator(updater.role, []));
      }
      bucket.ConsistOf(PostNumberOfAttachmentsValidator(request.attachmentList));
      bucket.ConsistOf(TargetIsDeletedValidator(post.board.isDeleted, DomainBoard));
      bucket.ConsistOf(TargetIsDeletedValidator(post.isDeleted, DomainPost));
      bucket.ConsistOf(ContentsAdminValidator(updater.role, loginUserId, post.writerId, []));
      bucket.ConsistOf(ConstraintValidator(post));
    }

    /** The bucket `createPost` assembles, with the new post built before the checks that need it. */
    method AssembleCreate(creator: User, board: Board, request: PostCreateRequest, loginUserId: UserId)
      returns (bucket: ValidatorBucket, post: Post, err: Option<Error>)
      ensures fresh(bucket) && fresh(post)
      ensures post.View() == NewPostView(creator, board, request)
      ensures err.Some? <==> CreatePlan(creator, board, request, members, loginUserId).Failure?
      ensures err.Some? ==> err.value == CreatePlan(creator, board, request, members, loginUserId).error
      ensures err.None? ==> bucket.checks == CreatePlan(creator, board, request, members, loginUserId).value
    {
      err := None;
      bucket := new ValidatorBucket.Of();
      var createRoles := JavaSplit(board.createRoles, ',');
      if board.category == APP_NOTICE {
        bucket.ConsistOf(UserRoleValidator(creator.role, []));
      }
      post := new Post.Of(request.title, request.content, creator, false, board, Join(":::", request.attachmentList));
      QueueCreateCommon(bucket, creator, board, request, createRoles);
      assert bucket.checks == CreateHead(creator, board, request);
      if CircleScoped(board, creator.role) {
        err := QueueCreateCircle(bucket, creator, board.circle.value, createRoles, loginUserId);
        if err.Some? {
          return;
        }
      }
      bucket.ConsistOf(ConstraintValidator(post.View()));
    }

    /** `createPost`: the new post is saved only once the bucket passes. */
    method CreatePost(loginUserId: UserId, request: PostCreateRequest, passes: Check -> bool) returns (r: Result<PostView>)
      modifies this`saved
      ensures r == CreatePostSpec(users, boards, members, loginUserId, request, passes)
      ensures r.Failure? ==> saved == old(saved)
      ensures r.Success? ==> |saved| == |old(saved)| + 1 && saved[..|old(saved)|] == old(saved)
      ensures r.Success? ==> fresh(saved[|old(saved)|]) && saved[|old(saved)|].View() == r.value
    {
      var creator :- GetUser(users, loginUserId);
      var board :- GetBoard(boards, request.boardId);
      var bucket, post, err := AssembleCreate(creator, board, request, loginUserId);
      ghost var plan := CreatePlan(creator, board, request, members, loginUserId);
      if err.Some? {
        return Failure(err.value);
      }
      var failed := bucket.Validate(passes);
      assert Decide(plan, passes) == if failed.None? then None else Some(Rejected(failed.value));
      if failed.Some? {
        return Failure(Rejected(failed.value));
      }
      saved := saved + [post];
      r := Success(post.View());
    }

    /** The bucket `deletePost` assembles for the post as loaded. */
    method AssembleDelete(deleter: User, post: PostView, loginUserId: UserId) returns (bucket: ValidatorBucket, err: Option<Error>)
      ensures fresh(bucket)
      ensures err.Some? <==> DeletePlan(deleter, post, members, loginUserId).Failure?
      ensures err.Some? ==> err.value == DeletePlan(deleter, post, members, loginUserId).error
      ensures err.None? ==> bucket.checks == DeletePlan(deleter, post, members, loginUserId).value
    {
      bucket := new ValidatorBucket.Of();
      if post.board.category == APP_NOTICE {
        bucket.ConsistOf(UserRoleValidator(deleter.role, []));
      }
      bucket.ConsistOf(UserStateValidator(deleter.state));
      bucket.ConsistOf(UserRoleIsNoneValidator(deleter.role));
      bucket.ConsistOf(TargetIsDeletedValidator(post.isDeleted, DomainPost));
      assert bucket.checks == DeleteHead(deleter, post);
      err := QueueBranch(bucket, deleter, post, loginUserId);
    }

    /** The bucket `restorePost` assembles: the branch, then the owner-or-admin check with LEADER_CIRCLE as override. */
    method AssembleRestore(restorer: User, post: PostView, loginUserId: UserId) returns (bucket: ValidatorBucket, err: Option<Error>)
      ensures fresh(bucket)
      ensures err.Some? <==> RestorePlan(restorer, post, members, loginUserId).Failure?
      ensures err.Some? ==> err.value == RestorePlan(restorer, post, members, loginUserId).error
      ensures err.None? ==> bucket.checks == RestorePlan(restorer, post, members, loginUserId).value
    {
      bucket := new ValidatorBucket.Of();
      if post.board.category == APP_NOTICE {
        bucket.ConsistOf(UserRoleValidator(restorer.role, []));
      }
      bucket.ConsistOf(UserStateValidator(restorer.state));
      bucket.ConsistOf(UserRoleIsNoneValidator(restorer.role));
      bucket.ConsistOf(TargetIsDeletedValidator(post.board.isDeleted, DomainBoard));
      bucket.ConsistOf(TargetIsNotDeletedValidator(post.isDeleted, DomainPost));
      assert bucket.checks == RestoreHead(restorer, post);
      err := QueueBranch(bucket, restorer, post, loginUserId);
      if err.None? {
        bucket.ConsistOf(ContentsAdminValidator(restorer.role, loginUserId, post.writerId, [LEADER_CIRCLE]));
      }
    }

    /** `deletePost`: the flag is set, and the post saved, only after `validate()` returns. */
    method DeletePost(loginUserId: UserId, postId: PostId, passes: Check -> bool) returns (r: Result<PostView>)
      modifies this`saved, Target(postId)
      ensures r == DeletePostSpec(users, old(PostOf(postId)), members, loginUserId, passes)
      ensures r.Failure? ==> saved == old(saved) && unchanged(Target(postId))
      ensures r.Success? ==> saved == old(saved) + [posts[postId]] && posts[postId].View() == r.value
    {
      var deleter :- GetUser(users, loginUserId);
      var post :- GetPost(postId);
      var view := post.View();
      var bucket, err := AssembleDelete(deleter, view, loginUserId);
      ghost var plan := DeletePlan(deleter, view, members, loginUserId);
      if err.Some? {
        return Failure(err.value);
      }
      var failed := bucket.Validate(passes);
      assert Decide(plan, passes) == if failed.None? then None else Some(Rejected(failed.value));
      if failed.Some? {
        return Failure(Rejected(failed.value));
      }
      post.SetIsDeleted(true);
      saved := saved + [post];
      r := Success(post.View());
    }

    /** `updatePost`: the constraint check is queued with the post as it was before the update. */
    method UpdatePost(loginUserId: UserId, postId: PostId, request: PostUpdateRequest, passes: Check -> bool)
      returns (r: Result<PostView>)
      modifies this`saved, Target(postId)
      ensures r == UpdatePostSpec(users, old(PostOf(postId)), members, loginUserId, request, passes)
      ensures r.Failure? ==> saved == old(saved) && unchanged(Target(postId))
      ensures r.Success? ==> saved == old(saved) + [posts[postId]] && posts[postId].View() == r.value
    {
      var updater :- GetUser(users, loginUserId);
      var post :- GetPost(postId);
      var view := post.View();
      var bucket :- InitializeValidator(updater, post.board);
      QueueUpdateChecks(bucket, updater, view, request, loginUserId);
      ghost var plan := UpdatePlan(updater, view, request, members, loginUserId);
      assert bucket.checks == InitPlan(updater, view.board, members).value + UpdateTail(updater, view, request, loginUserId);
      assert plan.Success? && bucket.checks == plan.value;
      var failed := bucket.Validate(passes);
      assert Decide(plan, passes) == if failed.None? then None else Some(Rejected(failed.value));
      if failed.Some? {
        return Failure(Rejected(failed.value));
      }
      post.Update(request.title, request.content, Join(":::", request.attachmentList));
      saved := saved + [post];
      r := Success(post.View());
    }

    /** `restorePost`: the flag is cleared, and the post saved, only after `validate()` returns. */
    method RestorePost(loginUserId: UserId, postId: PostId, passes: Check -> bool) returns (r: Result<PostView>)
      modifies this`saved, Target(postId)
      ensures r == RestorePostSpec(users, old(PostOf(postId)), members, loginUserId, passes)
      ensures r.Failure? ==> saved == old(saved) && unchanged(Target(postId))
      ensures r.Success? ==> saved == old(saved) + [posts[postId]] && posts[postId].View() == r.value
    {
      var restorer :- GetUser(users, loginUserId);
      var post :- GetPost(postId);
      var view := post.View();
      var bucket, err := AssembleRestore(restorer, view, loginUserId);
      ghost var plan := RestorePlan(restorer, view, members, loginUserId);
      if err.Some? {
        return Failure(err.value);
      }
      var failed := bucket.Validate(passes);
      assert Decide(plan, passes) == if failed.None? then None else Some(Rejected(failed.value));
      if failed.Some? {
        return Failure(Rejected(failed.value));
      }
      post.SetIsDeleted(false);
      saved := saved + [post];
      r := Success(post.View());
    }
  }
}
