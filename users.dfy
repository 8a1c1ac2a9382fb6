/** The persisted `User` as other entities refer to it. */
module Users {
  import opened Entities

  /** A user row; only its id is read here (`User.from(domainModel)`). */
  class UserEntity {
    const id: UserId

    constructor From(user: User)
      ensures id == user.id
    {
      id := user.id;
    }
  }
}
