/**
 * What each `PostService` operation queues in its `ValidatorBucket`, in
 * order, and the errors it raises while queueing. These functions are the
 * specification that the imperative service methods are proved against.
 */
module PostChecks {
  import opened Optional
  import opened Strings
  import opened Roles
  import opened Entities
  import opened Validation

  /** `StaticValue.BOARD_NAME_APP_NOTICE`, taken to be the literal "APP_NOTICE"; only equality with it is used. */
  const APP_NOTICE := "APP_NOTICE"

  datatype ExceptionKind = BadRequest | Unauthorized
  datatype ErrorCode = RowDoesNotExist | NotMember | ApiNotAllowed
  datatype Message = UserNotFound | PostNotFound | BoardNotFound | CircleApplyInvalid | NotCircleLeader

  datatype Error =
    /** An exception the service throws itself. */
    | Thrown(kind: ExceptionKind, code: ErrorCode, message: Message)
    /** The exception of the first failing validator. */
    | Rejected(check: Check)
    /** `board.getCircle()` dereferenced while it is `null`. */
    | NullDereference

  const USER_NOT_FOUND := Thrown(BadRequest, RowDoesNotExist, UserNotFound)
  const POST_NOT_FOUND := Thrown(BadRequest, RowDoesNotExist, PostNotFound)
  const BOARD_NOT_FOUND := Thrown(BadRequest, RowDoesNotExist, BoardNotFound)
  const NOT_A_MEMBER := Thrown(Unauthorized, NotMember, CircleApplyInvalid)
  const NOT_THE_LEADER := Thrown(Unauthorized, ApiNotAllowed, NotCircleLeader)

  datatype Result<+T> = Success(value: T) | Failure(error: Error) {
    predicate IsFailure() { Failure? }
    function PropagateFailure<U>(): Result<U> requires Failure? { Failure(error) }
    function Extract(): T requires Success? { value }
  }

  type Members = map<(UserId, CircleId), CircleMember>

  datatype PostCreateRequest = PostCreateRequest(
    title: string, content: string, boardId: BoardId, attachmentList: seq<string>)
  datatype PostUpdateRequest = PostUpdateRequest(
    title: string, content: string, attachmentList: seq<string>)

  /** `getUser` */
  function GetUser(users: map<UserId, User>, id: UserId): (r: Result<User>)
    ensures r.Success? <==> id in users
    ensures r.Success? ==> r.value == users[id]
    ensures r.Failure? ==> r.error == USER_NOT_FOUND
  {
    match Lookup(users, id)
    case Some(user) => Success(user)
    case None => Failure(USER_NOT_FOUND)
  }

  /** `getBoard` */
  function GetBoard(boards: map<BoardId, Board>, id: BoardId): (r: Result<Board>)
    ensures r.Success? <==> id in boards
    ensures r.Success? ==> r.value == boards[id]
    ensures r.Failure? ==> r.error == BOARD_NOT_FOUND
  {
    match Lookup(boards, id)
    case Some(board) => Success(board)
    case None => Failure(BOARD_NOT_FOUND)
  }

  /** `getPost`, over the posts' fields */
  function GetPostView(post: Option<PostView>): (r: Result<PostView>)
    ensures r.Success? <==> post.Some?
    ensures r.Success? ==> r.value == post.value
    ensures r.Failure? ==> r.error == POST_NOT_FOUND
  {
    if post.Some? then Success(post.value) else Failure(POST_NOT_FOUND)
  }

  /** `getCircleMember`: a missing membership row raises NOT_MEMBER at once. */
  function GetCircleMember(members: Members, userId: UserId, circleId: CircleId): (r: Result<CircleMember>)
    ensures r.Success? <==> (userId, circleId) in members
    ensures r.Success? ==> r.value == members[(userId, circleId)]
    ensures r.Failure? ==> r.error == NOT_A_MEMBER
  {
    match Lookup(members, (userId, circleId))
    case Some(member) => Success(member)
    case None => Failure(NOT_A_MEMBER)
  }

  /** Negation of the `Optional.filter` lambda: ADMIN, or a role whose value contains "PRESIDENT". */
  predicate Exempt(role: Role) {
    role == ADMIN || HasPresidentValue(role)
  }

  /** The circle branch is taken: the board has a circle and the actor is not exempt. */
  predicate CircleScoped(board: Board, role: Role) {
    board.circle.Some? && !Exempt(role)
  }

  /** The role check that opens every bucket on an APP_NOTICE board. */
  function NoticeChecks(board: Board, role: Role): seq<Check> {
    if board.category == APP_NOTICE then [UserRoleValidator(role, [])] else []
  }

  /** The two checks queued after a successful membership lookup. */
  function MembershipChecks(circle: CircleInfo, member: CircleMember): seq<Check> {
    [TargetIsDeletedValidator(circle.isDeleted, DomainCircle), CircleMemberStatusValidator(member.status, [Member])]
  }

  /** `circle.getLeader().map(User::getId).orElseThrow(...)` fed to `UserEqualValidator`. */
  function LeaderCheck(circle: CircleInfo, loginUserId: UserId): (r: Result<seq<Check>>)
    ensures r.Failure? <==> circle.leaderId.None?
    ensures r.Failure? ==> r.error == NOT_THE_LEADER
    ensures r.Success? ==> r.value == [UserEqualValidator(circle.leaderId.value, loginUserId)]
  {
    match circle.leaderId
    case None => Failure(NOT_THE_LEADER)
    case Some(leader) => Success([UserEqualValidator(leader, loginUserId)])
  }

  /** `initializeValidator(user, board)` */
  function InitPlan(user: User, board: Board, members: Members): (r: Result<seq<Check>>)
    ensures r.Failure? <==> CircleScoped(board, user.role) && (user.id, board.circle.value.id) !in members
    ensures r.Failure? ==> r.error == NOT_A_MEMBER
    ensures r.Success? ==> |r.value| == (if CircleScoped(board, user.role) then 4 else 2)
    ensures r.Success? ==> r.value[..2] == [UserStateValidator(user.state), UserRoleIsNoneValidator(user.role)]
  {
    var base := [UserStateValidator(user.state), UserRoleIsNoneValidator(user.role)];
    if CircleScoped(board, user.role) then
      var member :- GetCircleMember(members, user.id, board.circle.value.id);
      Success(base + MembershipChecks(board.circle.value, member))
    else
      Success(base)
  }

  /** `createRoles`: the board's comma-separated role names, as Java splits them. */
  function CreateRoleNames(board: Board): seq<string> {
    JavaSplit(board.createRoles, ',')
  }

  function RolesOf(names: seq<string>): (r: seq<Role>)
    ensures |r| == |names| && forall i :: 0 <= i < |names| ==> r[i] == RoleOf(names[i])
  {
    seq(|names|, i requires 0 <= i < |names| => RoleOf(names[i]))
  }

  /** The post `createPost` builds before any check runs. */
  function NewPostView(creator: User, board: Board, request: PostCreateRequest): PostView {
    PostView(request.title, request.content, creator.id, false, board, Join(":::", request.attachmentList))
  }

  /** The circle branch of `createPost`. */
  function CreateCircleChecks(creator: User, circle: CircleInfo, members: Members, createRoles: seq<string>, loginUserId: UserId): Result<seq<Check>> {
    var member :- GetCircleMember(members, creator.id, circle.id);
    var leader :-
      if HasLeaderCircleValue(creator.role) && "COMMON" !in createRoles then LeaderCheck(circle, loginUserId)
      else Success([]);
    Success(MembershipChecks(circle, member) + leader)
  }

  /** The checks `createPost` queues after building the post and before the circle branch. */
  function CreateCommon(creator: User, board: Board, request: PostCreateRequest): seq<Check> {
    [ UserStateValidator(creator.state),
      UserRoleIsNoneValidator(creator.role),
      PostNumberOfAttachmentsValidator(request.attachmentList),
      TargetIsDeletedValidator(board.isDeleted, DomainBoard),
      UserRoleValidator(creator.role, RolesOf(CreateRoleNames(board))) ]
  }

  /** The checks `createPost` queues before the circle branch. */
  function CreateHead(creator: User, board: Board, request: PostCreateRequest): seq<Check> {
    NoticeChecks(board, creator.role) + CreateCommon(creator, board, request)
  }

  /**
   * `createPost`: it raises while queueing exactly when the creator is
   * circle-scoped and either has no membership row (NOT_MEMBER) or needs the
   * leader check on a leaderless circle (NOT_THE_LEADER); otherwise the
   * common checks come first and the constraint check on the new post last.
   */
  function CreatePlan(creator: User, board: Board, request: PostCreateRequest, members: Members, loginUserId: UserId): (r: Result<seq<Check>>)
    ensures r.Failure? <==> (CircleScoped(board, creator.role) &&
      ((creator.id, board.circle.value.id) !in members ||
       (HasLeaderCircleValue(creator.role) && "COMMON" !in CreateRoleNames(board) && board.circle.value.leaderId.None?)))
    ensures r.Failure? ==> (r.error == NOT_A_MEMBER <==> (creator.id, board.circle.value.id) !in members)
    ensures r.Failure? ==> r.error == NOT_A_MEMBER || r.error == NOT_THE_LEADER
    ensures r.Success? ==> |r.value| > |CreateHead(creator, board, request)|
    ensures r.Success? ==> r.value[..|CreateHead(creator, board, request)|] == CreateHead(creator, board, request)
    ensures r.Success? ==> r.value[|r.value| - 1] == ConstraintValidator(NewPostView(creator, board, request))
  {
    var circleChecks :-
      if CircleScoped(board, creator.role) then
        CreateCircleChecks(creator, board.circle.value, members, CreateRoleNames(board), loginUserId)
      else Success([]);
    Success(CreateHead(creator, board, request) + circleChecks + [ConstraintValidator(NewPostView(creator, board, request))])
  }

  /** The circle branch shared by `deletePost` and `restorePost`. */
  function ScopedChecks(actor: User, circle: CircleInfo, post: PostView, members: Members, loginUserId: UserId): Result<seq<Check>> {
    var member :- GetCircleMember(members, actor.id, circle.id);
    var leader :-
      if HasLeaderCircleValue(actor.role) && post.writerId != loginUserId then LeaderCheck(circle, loginUserId)
      else Success([]);
    Success(MembershipChecks(circle, member) + [ContentsAdminValidator(actor.role, loginUserId, post.writerId, [LEADER_CIRCLE])] + leader)
  }

  /**
   * When the circle branch of `deletePost` and `restorePost` raises: the
   * actor is circle-scoped and has no membership row, or needs the leader
   * check on a leaderless circle.
   */
  predicate BranchRaises(actor: User, post: PostView, members: Members, loginUserId: UserId) {
    CircleScoped(post.board, actor.role) &&
    ((actor.id, post.board.circle.value.id) !in members ||
     (HasLeaderCircleValue(actor.role) && post.writerId != loginUserId && post.board.circle.value.leaderId.None?))
  }

  /** `ifPresentOrElse` of `deletePost` and `restorePost`. */
  function BranchChecks(actor: User, post: PostView, members: Members, loginUserId: UserId): Result<seq<Check>> {
    if CircleScoped(post.board, actor.role) then ScopedChecks(actor, post.board.circle.value, post, members, loginUserId)
    else Success([ContentsAdminValidator(actor.role, loginUserId, post.writerId, [])])
  }

  function DeleteHead(deleter: User, post: PostView): seq<Check> {
    NoticeChecks(post.board, deleter.role) +
    [UserStateValidator(deleter.state), UserRoleIsNoneValidator(deleter.role), TargetIsDeletedValidator(post.isDeleted, DomainPost)]
  }

  /** `deletePost` */
  function DeletePlan(deleter: User, post: PostView, members: Members, loginUserId: UserId): (r: Result<seq<Check>>)
    ensures r.Failure? <==> BranchRaises(deleter, post, members, loginUserId)
    ensures r.Failure? ==> (r.error == NOT_A_MEMBER <==> (deleter.id, post.board.circle.value.id) !in members)
    ensures r.Failure? ==> r.error == NOT_A_MEMBER || r.error == NOT_THE_LEADER
    ensures r.Success? ==> |r.value| > |DeleteHead(deleter, post)|
    ensures r.Success? ==> r.value[..|DeleteHead(deleter, post)|] == DeleteHead(deleter, post)
  {
    var branch :- BranchChecks(deleter, post, members, loginUserId);
    Success(DeleteHead(deleter, post) + branch)
  }

  function RestoreHead(restorer: User, post: PostView): seq<Check> {
    NoticeChecks(post.board, restorer.role) +
    [ UserStateValidator(restorer.state),
      UserRoleIsNoneValidator(restorer.role),
      TargetIsDeletedValidator(post.board.isDeleted, DomainBoard),
      TargetIsNotDeletedValidator(post.isDeleted, DomainPost) ]
  }

  /** `restorePost` */
  function RestorePlan(restorer: User, post: PostView, members: Members, loginUserId: UserId): (r: Result<seq<Check>>)
    ensures r.Failure? <==> BranchRaises(restorer, post, members, loginUserId)
    ensures r.Failure? ==> (r.error == NOT_A_MEMBER <==> (restorer.id, post.board.circle.value.id) !in members)
    ensures r.Failure? ==> r.error == NOT_A_MEMBER || r.error == NOT_THE_LEADER
    ensures r.Success? ==> |r.value| > |RestoreHead(restorer, post)|
    ensures r.Success? ==> r.value[..|RestoreHead(restorer, post)|] == RestoreHead(restorer, post)
    ensures r.Success? ==> r.value[|r.value| - 1] == ContentsAdminValidator(restorer.role, loginUserId, post.writerId, [LEADER_CIRCLE])
  {
    var branch :- BranchChecks(restorer, post, members, loginUserId);
    Success(RestoreHead(restorer, post) + branch + [ContentsAdminValidator(restorer.role, loginUserId, post.writerId, [LEADER_CIRCLE])])
  }

  function UpdateTail(updater: User, post: PostView, request: PostUpdateRequest, loginUserId: UserId): seq<Check> {
    NoticeChecks(post.board, updater.role) +
    [ PostNumberOfAttachmentsValidator(request.attachmentList),
      TargetIsDeletedValidator(post.board.isDeleted, DomainBoard),
      TargetIsDeletedValidator(post.isDeleted, DomainPost),
      ContentsAdminValidator(updater.role, loginUserId, post.writerId, []),
      ConstraintValidator(post) ]
  }

  /** `updatePost`: the constraint check sees the post before the update. */
  function UpdatePlan(updater: User, post: PostView, request: PostUpdateRequest, members: Members, loginUserId: UserId): (r: Result<seq<Check>>)
    ensures r.Failure? <==> InitPlan(updater, post.board, members).Failure?
    ensures r.Failure? ==> r.error == NOT_A_MEMBER
    ensures r.Success? ==> |r.value| > |InitPlan(updater, post.board, members).value|
    ensures r.Success? ==> r.value[..|InitPlan(updater, post.board, members).value|] == InitPlan(updater, post.board, members).value
    ensures r.Success? ==> r.value[|r.value| - 1] == ConstraintValidator(post)
  {
    var init :- InitPlan(updater, post.board, members);
    Success(init + UpdateTail(updater, post, request, loginUserId))
  }

  /** The error a bucket raises, whether while it is assembled or when it is validated. */
  function Decide(plan: Result<seq<Check>>, passes: Check -> bool): (r: Option<Error>)
    ensures plan.Failure? ==> r == Some(plan.error)
    ensures plan.Success? ==> (r.None? <==> forall j :: 0 <= j < |plan.value| ==> passes(plan.value[j]))
    ensures plan.Success? && r.Some? ==> r.value.Rejected? && r.value.check in plan.value && !passes(r.value.check)
    ensures plan.Success? && r.Some? ==>
      exists k :: 0 <= k < |plan.value| && r.value == Rejected(plan.value[k]) && !passes(plan.value[k])
                  && forall j :: 0 <= j < k ==> passes(plan.value[j])
  {
    match plan
    case Failure(e) => Some(e)
    case Success(checks) =>
      match Verdict(checks, passes)
      case None => None
      case Some(c) => Some(Rejected(c))
  }

  /** `Optional`-style: `Success(v)` when the gate opens, else its error. */
  function Then<T>(gate: Option<Error>, v: T): (r: Result<T>)
    ensures gate.None? ==> r == Success(v)
    ensures gate.Some? ==> r == Failure(gate.value)
  {
    match gate
    case None => Success(v)
    case Some(e) => Failure(e)
  }

  /** `createPost`, from the lookups to the post that is saved. */
  function CreatePostSpec(users: map<UserId, User>, boards: map<BoardId, Board>, members: Members,
                          loginUserId: UserId, request: PostCreateRequest, passes: Check -> bool): (r: Result<PostView>)
    ensures loginUserId !in users ==> r == Failure(USER_NOT_FOUND)
    ensures loginUserId in users && request.boardId !in boards ==> r == Failure(BOARD_NOT_FOUND)
    ensures r.Success? <==> (loginUserId in users && request.boardId in boards &&
      Decide(CreatePlan(users[loginUserId], boards[request.boardId], request, members, loginUserId), passes).None?)
    ensures r.Success? ==>
      && r.value.title == request.title && r.value.content == request.content
      && r.value.writerId == users[loginUserId].id && !r.value.isDeleted
      && r.value.board == boards[request.boardId] && r.value.attachments == Join(":::", request.attachmentList)
  {
    var creator :- GetUser(users, loginUserId);
    var board :- GetBoard(boards, request.boardId);
    Then(Decide(CreatePlan(creator, board, request, members, loginUserId), passes), NewPostView(creator, board, request))
  }

  /** `deletePost`: the saved post, now deleted. */
  function DeletePostSpec(users: map<UserId, User>, post: Option<PostView>, members: Members,
                          loginUserId: UserId, passes: Check -> bool): (r: Result<PostView>)
    ensures loginUserId !in users ==> r == Failure(USER_NOT_FOUND)
    ensures loginUserId in users && post.None? ==> r == Failure(POST_NOT_FOUND)
    ensures r.Success? <==> (loginUserId in users && post.Some? &&
      Decide(DeletePlan(users[loginUserId], post.value, members, loginUserId), passes).None?)
    ensures r.Success? ==> r.value.isDeleted && r.value.(isDeleted := post.value.isDeleted) == post.value
  {
    var deleter :- GetUser(users, loginUserId);
    var p :- GetPostView(post);
    Then(Decide(DeletePlan(deleter, p, members, loginUserId), passes), p.(isDeleted := true))
  }

  /** `restorePost`: the saved post, no longer deleted. */
  function RestorePostSpec(users: map<UserId, User>, post: Option<PostView>, members: Members,
                           loginUserId: UserId, passes: Check -> bool): (r: Result<PostView>)
    ensures loginUserId !in users ==> r == Failure(USER_NOT_FOUND)
    ensures loginUserId in users && post.None? ==> r == Failure(POST_NOT_FOUND)
    ensures r.Success? <==> (loginUserId in users && post.Some? &&
      Decide(RestorePlan(users[loginUserId], post.value, members, loginUserId), passes).None?)
    ensures r.Success? ==> !r.value.isDeleted && r.value.(isDeleted := post.value.isDeleted) == post.value
  {
    var restorer :- GetUser(users, loginUserId);
    var p :- GetPostView(post);
    Then(Decide(RestorePlan(restorer, p, members, loginUserId), passes), p.(isDeleted := false))
  }

  /** `updatePost`: the saved post with the new title, content and joined attachments. */
  function UpdatePostSpec(users: map<UserId, User>, post: Option<PostView>, members: Members,
                          loginUserId: UserId, request: PostUpdateRequest, passes: Check -> bool): (r: Result<PostView>)
    ensures loginUserId !in users ==> r == Failure(USER_NOT_FOUND)
    ensures loginUserId in users && post.None? ==> r == Failure(POST_NOT_FOUND)
    ensures r.Success? <==> (loginUserId in users && post.Some? &&
      Decide(UpdatePlan(users[loginUserId], post.value, request, members, loginUserId), passes).None?)
    ensures r.Success? ==>
      && r.value.title == request.title && r.value.content == request.content
      && r.value.attachments == Join(":::", request.attachmentList)
      && r.value.(title := post.value.title, content := post.value.content, attachments := post.value.attachments) == post.value
  {
    var updater :- GetUser(users, loginUserId);
    var p :- GetPostView(post);
    Then(Decide(UpdatePlan(updater, p, request, members, loginUserId), passes),
         p.(title := request.title, content := request.content, attachments := Join(":::", request.attachmentList)))
  }

  /** `findPostById`: the post as stored, deleted or not. */
  function FindPostSpec(users: map<UserId, User>, post: Option<PostView>, members: Members,
                        loginUserId: UserId, passes: Check -> bool): (r: Result<PostView>)
    ensures loginUserId !in users ==> r == Failure(USER_NOT_FOUND)
    ensures loginUserId in users && post.None? ==> r == Failure(POST_NOT_FOUND)
    ensures r.Success? <==> (loginUserId in users && post.Some? &&
      Decide(InitPlan(users[loginUserId], post.value.board, members), passes).None?)
    ensures r.Success? ==> r.value == post.value
  {
    var user :- GetUser(users, loginUserId);
    var p :- GetPostView(post);
    Then(Decide(InitPlan(user, p.board, members), passes), p)
  }
}
