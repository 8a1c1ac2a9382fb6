/**
 * The read paths of `PostService`: whose listings include deleted posts,
 * which repository query is used, and whether a board is a favourite.
 * Paging, ordering and comment counts are not modelled.
 */
module PostReads {
  import opened Optional
  import opened Strings
  import opened Roles
  import opened Entities
  import opened Validation
  import opened PostChecks

  /** `isFavorite`: some favourite row of the user names the board, and that board is not deleted. */
  function IsFavorite(favorites: seq<FavoriteBoard>, boardId: BoardId): (r: bool)
    ensures r <==> exists i :: 0 <= i < |favorites| && !favorites[i].boardIsDeleted && favorites[i].boardId == boardId
    decreases |favorites|
  {
    if favorites == [] then false
    else if !favorites[0].boardIsDeleted && favorites[0].boardId == boardId then true
    else
      var r := IsFavorite(favorites[1..], boardId);
      assert forall i :: 1 <= i < |favorites| ==> favorites[1..][i - 1] == favorites[i];
      r
  }

  /** `favoriteBoardRepository.findByUser_Id`: no rows for an unknown user. */
  function FavoritesOf(favorites: map<UserId, seq<FavoriteBoard>>, userId: UserId): seq<FavoriteBoard> {
    if userId in favorites then favorites[userId] else []
  }

  /**
   * The privilege test of `findAllPost` and `searchPost`. A LEADER_CIRCLE
   * actor is compared with the board's circle leader (an absent leader reads
   * as ""), and on a board without a circle that dereferences `null`.
   */
  function ShowsDeleted(user: User, board: Board, loginUserId: UserId): (r: Result<bool>)
    ensures r.Failure? <==> HasLeaderCircleValue(user.role) && board.circle.None?
    ensures r.Failure? ==> r.error == NullDereference
    ensures r.Success? ==>
      (r.value <==> (HasLeaderCircleValue(user.role) && board.circle.value.leaderId.OrElse("") == loginUserId)
                    || user.role == ADMIN || HasPresidentValue(user.role))
  {
    var isCircleLeader :-
      if HasLeaderCircleValue(user.role) then
        if board.circle.None? then Failure(NullDereference)
        else Success(board.circle.value.leaderId.OrElse("") == loginUserId)
      else Success(false);
    Success(isCircleLeader || user.role == ADMIN || HasPresidentValue(user.role))
  }

  /**
   * The repository query a listing runs: posts of a board, optionally by
   * title keyword, and with `isDeleted = false` when that argument is passed.
   */
  datatype PostQuery = PostQuery(boardId: BoardId, keyword: Option<string>, isDeleted: Option<bool>)

  /**
   * A post the query may return. The title search itself is not shown, so
   * only its board and deleted-flag conditions are stated.
   */
  predicate Admits(q: PostQuery, p: PostView) {
    p.board.id == q.boardId && (q.isDeleted.Some? ==> p.isDeleted == q.isDeleted.value)
  }

  /** `BoardPostsResponseDto.of(board, role, isFavorite, page)`, with the page as the query that fills it. */
  datatype BoardPosts = BoardPosts(board: Board, role: Role, isFavorite: bool, query: PostQuery)

  /**
   * The listing of the requested `boardId`: the favourite flag is asked of
   * the loaded board's id, the query of the requested one.
   */
  function Listing(user: User, board: Board, boardId: BoardId, favorites: map<UserId, seq<FavoriteBoard>>,
                   loginUserId: UserId, keyword: Option<string>, showDeleted: bool): BoardPosts {
    BoardPosts(board, user.role, IsFavorite(FavoritesOf(favorites, loginUserId), board.id),
               PostQuery(boardId, keyword, if showDeleted then None else Some(false)))
  }

  /** `findAllPost` */
  function FindAllPostSpec(users: map<UserId, User>, boards: map<BoardId, Board>, members: Members,
                           favorites: map<UserId, seq<FavoriteBoard>>, loginUserId: UserId, boardId: BoardId,
                           passes: Check -> bool): (r: Result<BoardPosts>)
    ensures loginUserId !in users ==> r == Failure(USER_NOT_FOUND)
    ensures loginUserId in users && boardId !in boards ==> r == Failure(BOARD_NOT_FOUND)
    ensures r.Success? ==> loginUserId in users && boardId in boards
    ensures r.Success? ==> Decide(InitPlan(users[loginUserId], boards[boardId], members), passes).None?
    ensures loginUserId in users && boardId in boards ==>
      var gate := Decide(InitPlan(users[loginUserId], boards[boardId], members), passes);
      var show := ShowsDeleted(users[loginUserId], boards[boardId], loginUserId);
      && (gate.Some? ==> r == Failure(gate.value))
      && (gate.None? && show.Failure? ==> r == Failure(NullDereference))
      && (gate.None? && show.Success? ==> r.Success?)
    ensures r.Success? ==> r.value.query.keyword.None?
  {
    var user :- GetUser(users, loginUserId);
    var board :- GetBoard(boards, boardId);
    var _ :- Then(Decide(InitPlan(user, board, members), passes), ());
    var show :- ShowsDeleted(user, board, loginUserId);
    Success(Listing(user, board, boardId, favorites, loginUserId, None, show))
  }

  /** `searchPost`: the same, with the board's deleted check queued after `initializeValidator`. */
  function SearchPlan(user: User, board: Board, members: Members): (r: Result<seq<Check>>)
    ensures r.Failure? <==> InitPlan(user, board, members).Failure?
    ensures r.Failure? ==> r.error == NOT_A_MEMBER
    ensures r.Success? ==> |r.value| == |InitPlan(user, board, members).value| + 1
    ensures r.Success? ==> r.value[..|r.value| - 1] == InitPlan(user, board, members).value
    ensures r.Success? ==> r.value[|r.value| - 1] == TargetIsDeletedValidator(board.isDeleted, DomainBoard)
  {
    var init :- InitPlan(user, board, members);
    Success(init + [TargetIsDeletedValidator(board.isDeleted, DomainBoard)])
  }

  function SearchPostSpec(users: map<UserId, User>, boards: map<BoardId, Board>, members: Members,
                          favorites: map<UserId, seq<FavoriteBoard>>, loginUserId: UserId, boardId: BoardId,
                          keyword: string, passes: Check -> bool): (r: Result<BoardPosts>)
    ensures loginUserId !in users ==> r == Failure(USER_NOT_FOUND)
    ensures loginUserId in users && boardId !in boards ==> r == Failure(BOARD_NOT_FOUND)
    ensures r.Success? ==> loginUserId in users && boardId in boards
    ensures r.Success? ==> Decide(SearchPlan(users[loginUserId], boards[boardId], members), passes).None?
    ensures loginUserId in users && boardId in boards ==>
      var gate := Decide(SearchPlan(users[loginUserId], boards[boardId], members), passes);
      var show := ShowsDeleted(users[loginUserId], boards[boardId], loginUserId);
      && (gate.Some? ==> r == Failure(gate.value))
      && (gate.None? && show.Failure? ==> r == Failure(NullDereference))
      && (gate.None? && show.Success? ==> r.Success?)
    ensures r.Success? ==> r.value.query.keyword == Some(keyword)
  {
    var user :- GetUser(users, loginUserId);
    var board :- GetBoard(boards, boardId);
    var _ :- Then(Decide(SearchPlan(user, board, members), passes), ());
    var show :- ShowsDeleted(user, board, loginUserId);
    Success(Listing(user, board, boardId, favorites, loginUserId, Some(keyword), show))
  }
}
