/**
 * Values the post service reads: users, boards, the board's circle and
 * circle memberships, as they are when a request starts.
 */
module Entities {
  import opened Optional
  import opened Roles

  type UserId = string
  type BoardId = string
  type CircleId = string
  type PostId = string

  /** The account state enum is not part of this model; a state is known by its name. */
  datatype UserState = UserState(name: string)

  /** `CircleMemberStatus` */
  datatype MemberStatus = Await | Member | Leave | Drop | Reject

  datatype User = User(id: UserId, role: Role, state: UserState)

  /** What the services read of a board's circle: id, deleted flag, leader's id. */
  datatype CircleInfo = CircleInfo(id: CircleId, isDeleted: bool, leaderId: Option<UserId>)

  /** `circle == null` is `circle == None`. */
  datatype Board = Board(
    id: BoardId,
    category: string,
    createRoles: string,
    isDeleted: bool,
    circle: Option<CircleInfo>)

  datatype CircleMember = CircleMember(status: MemberStatus)

  /** The fields of a post. */
  datatype PostView = PostView(
    title: string,
    content: string,
    writerId: UserId,
    isDeleted: bool,
    board: Board,
    attachments: string)

  /** A favourite-board row of a user: which board, and whether that board is deleted. */
  datatype FavoriteBoard = FavoriteBoard(boardId: BoardId, boardIsDeleted: bool)
}
