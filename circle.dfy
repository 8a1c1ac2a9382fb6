/**
 * The `Circle` persistence entity: a club with a name, optional image and
 * description, a deleted flag and a nullable leader.
 */
module Circles {
  import opened Optional
  import opened Entities
  import opened Users

  /** `CircleDomainModel`; a nullable string is an `Option`. */
  datatype CircleModel = CircleModel(
    id: CircleId,
    name: string,
    mainImage: Option<string>,
    description: Option<string>,
    isDeleted: bool,
    leader: Option<User>)

  /** What a circle holds, with the leader known by id (`None` for `null`). */
  datatype CircleState = CircleState(
    name: string,
    mainImage: Option<string>,
    description: Option<string>,
    isDeleted: bool,
    leaderId: Option<UserId>)

  /** The state `delete()` leaves. */
  function Deleted(s: CircleState): (r: CircleState)
    ensures r.isDeleted && r.leaderId.None?
    ensures r.name == s.name && r.description == s.description && r.mainImage == s.mainImage
  {
    s.(isDeleted := true, leaderId := None)
  }

  /** The state `update(description, name, mainImage)` leaves. */
  function Updated(s: CircleState, description: Option<string>, name: string, mainImage: Option<string>): (r: CircleState)
    ensures r.description == description && r.name == name && r.mainImage == mainImage
    ensures r.isDeleted == s.isDeleted && r.leaderId == s.leaderId
  {
    s.(description := description, name := name, mainImage := mainImage)
  }

  /** What the post service reads of a circle. */
  function InfoOf(id: CircleId, s: CircleState): CircleInfo {
    CircleInfo(id, s.isDeleted, s.leaderId)
  }

  /** `delete()` twice is `delete()` once. */
  lemma DeleteIdempotent(s: CircleState)
    ensures Deleted(Deleted(s)) == Deleted(s)
  {
  }

  /** `update` and `delete` touch disjoint fields, so their order does not matter. */
  lemma UpdateCommutesWithDelete(s: CircleState, description: Option<string>, name: string, mainImage: Option<string>)
    ensures Updated(Deleted(s), description, name, mainImage) == Deleted(Updated(s, description, name, mainImage))
  {
  }

  class Circle {
    const id: CircleId
    var name: string
    var mainImage: Option<string>
    var description: Option<string>
    var isDeleted: bool
    var leader: UserEntity?

    /** The circle's fields as a value. */
    function State(): CircleState
      reads this
    {
      CircleState(name, mainImage, description, isDeleted, if leader == null then None else Some(leader.id))
    }

    /** `Circle.from(model)`: the model's fields as they are; an absent leader becomes `null`. */
    constructor From(model: CircleModel)
      ensures id == model.id && name == model.name && mainImage == model.mainImage
      ensures description == model.description && isDeleted == model.isDeleted
      ensures leader == null <==> model.leader.None?
      ensures leader != null ==> fresh(leader) && leader.id == model.leader.value.id
      ensures State().leaderId == if model.leader.None? then None else Some(model.leader.value.id)
    {
      id := model.id;
      name := model.name;
      mainImage := model.mainImage;
      description := model.description;
      isDeleted := model.isDeleted;
      if model.leader.None? {
        leader := null;
      } else {
        leader := new UserEntity.From(model.leader.value);
      }
    }

    /** `getLeader()`: `Optional.ofNullable(leader)`. */
    method GetLeader() returns (r: Option<UserEntity>)
      ensures r.None? <==> leader == null
      ensures r.Some? ==> r.value == leader
      ensures r.Some? ==> State().leaderId == Some(r.value.id)
    {
      if leader == null {
        r := None;
      } else {
        r := Some(leader);
      }
    }

    /** `update(description, name, mainImage)` */
    method Update(description: Option<string>, name: string, mainImage: Option<string>)
      modifies this`description, this`name, this`mainImage
      ensures this.description == description && this.name == name && this.mainImage == mainImage
      ensures isDeleted == old(isDeleted) && leader == old(leader)
      ensures State() == Updated(old(State()), description, name, mainImage)
    {
      this.description := description;
      this.name := name;
      this.mainImage := mainImage;
    }

    /** `setLeader(leader)`: only the leader changes. */
    method SetLeader(leader: UserEntity?)
      modifies this`leader
      ensures this.leader == leader
      ensures State() == old(State()).(leaderId := if leader == null then None else Some(leader.id))
    {
      this.leader := leader;
    }

    /** `delete()`: marks the circle deleted and drops its leader. */
    method Delete()
      modifies this`isDeleted, this`leader
      ensures isDeleted && leader == null
      ensures State() == Deleted(old(State()))
    {
      isDeleted := true;
      leader := null;
    }
  }
}
