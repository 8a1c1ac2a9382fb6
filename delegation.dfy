/**
 * `DelegationPresident.delegate`: on a presidential handover every COUNCIL
 * and every VICE_PRESIDENT user becomes COMMON, then the outgoing president
 * does. The `UserPort` is a store of roles by user id with an abstract
 * `findByRole` query, which may answer `null` (`None`).
 */
module Delegation {
  import opened Optional
  import opened Roles
  import opened Entities

  /** `userPort.findByRole(name)` as a function of the stored roles. */
  type RoleQuery = (map<UserId, Role>, string) -> Option<seq<UserId>>

  datatype Outcome = Delegated | InternalServerError

  /** `updateRole(id, role)`: a user that is not stored is left alone (the port answers empty). */
  function WithRole(roles: map<UserId, Role>, id: UserId, role: Role): (r: map<UserId, Role>)
    ensures r.Keys == roles.Keys
    ensures id in roles ==> r[id] == role
    ensures forall u :: u in roles && u != id ==> r[u] == roles[u]
  {
    if id in roles then roles[id := role] else roles
  }

  /**
   * `list.forEach(user -> updateRole(user.getId(), COMMON))`: the set of
   * users stays, and exactly the listed stored users become COMMON.
   */
  function Downgrade(roles: map<UserId, Role>, ids: seq<UserId>): (r: map<UserId, Role>)
    ensures r.Keys == roles.Keys
    ensures forall u :: u in roles ==> r[u] == if u in ids then COMMON else roles[u]
    decreases |ids|
  {
    if ids == [] then roles
    else
      var init := ids[..|ids| - 1];
      assert forall u :: u in ids <==> u in init || u == ids[|ids| - 1];
      WithRole(Downgrade(roles, init), ids[|ids| - 1], COMMON)
  }

  /** A `null` list is skipped, which is the same as an empty one. */
  function Listed(found: Option<seq<UserId>>): seq<UserId> {
    if found.None? then [] else found.value
  }

  /** The store after the council downgrades. */
  function AfterCouncil(roles: map<UserId, Role>, query: RoleQuery): (r: map<UserId, Role>)
    ensures r.Keys == roles.Keys
    ensures forall u :: u in roles ==> r[u] == if u in Listed(query(roles, "COUNCIL")) then COMMON else roles[u]
  {
    Downgrade(roles, Listed(query(roles, "COUNCIL")))
  }

  /**
   * The store after the council and vice-president downgrades: the second
   * query is asked of the store the first stage left.
   */
  function AfterVice(roles: map<UserId, Role>, query: RoleQuery): (r: map<UserId, Role>)
    ensures r.Keys == roles.Keys
    ensures forall u :: u in roles ==>
      r[u] == if u in Listed(query(roles, "COUNCIL")) || u in Listed(query(AfterCouncil(roles, query), "VICE_PRESIDENT"))
              then COMMON else roles[u]
  {
    var council := AfterCouncil(roles, query);
    Downgrade(council, Listed(query(council, "VICE_PRESIDENT")))
  }

  /**
   * The whole of `delegate`: the stored roles afterwards, and whether it
   * raised INTERNAL_SERVER. Every stored user returned by either query, and
   * the outgoing president, are COMMON; every other user keeps their role;
   * the set of users is unchanged; `targetId` plays no part.
   */
  function DelegateSpec(roles: map<UserId, Role>, currentId: UserId, query: RoleQuery): (r: (map<UserId, Role>, Outcome))
    ensures var (after, outcome) := r;
      var council := Listed(query(roles, "COUNCIL"));
      var vice := Listed(query(AfterCouncil(roles, query), "VICE_PRESIDENT"));
      && after.Keys == roles.Keys
      && (outcome == Delegated <==> currentId in roles)
      && (outcome == Delegated ==> after[currentId] == COMMON)
      && (forall u :: u in roles && u in council ==> after[u] == COMMON)
      && (forall u :: u in roles && u in vice ==> after[u] == COMMON)
      && (forall u :: u in roles && u !in council && u !in vice && u != currentId ==> after[u] == roles[u])
  {
    var before := AfterVice(roles, query);
    if currentId in before then (before[currentId := COMMON], Delegated) else (before, InternalServerError)
  }

  /**
   * When the outgoing president is not stored, `delegate` raises
   * INTERNAL_SERVER and the council and vice-president downgrades stay applied.
   */
  lemma MissingPresidentKeepsDowngrades(roles: map<UserId, Role>, currentId: UserId, query: RoleQuery)
    requires currentId !in roles
    ensures DelegateSpec(roles, currentId, query) == (AfterVice(roles, query), InternalServerError)
    ensures DelegateSpec(roles, currentId, query).0.Keys == roles.Keys
    ensures forall u :: u in roles && u in Listed(query(roles, "COUNCIL")) ==> DelegateSpec(roles, currentId, query).0[u] == COMMON
  {
  }

  /** A `null` answer from both queries leaves everyone but the president alone. */
  lemma NullListsSkipped(roles: map<UserId, Role>, currentId: UserId, query: RoleQuery)
    requires query(roles, "COUNCIL").None? && query(roles, "VICE_PRESIDENT").None?
    ensures DelegateSpec(roles, currentId, query).0 == WithRole(roles, currentId, COMMON)
  {
  }

  /** A query that answers exactly the stored users holding the named role. */
  ghost predicate ExactQuery(query: RoleQuery) {
    forall roles: map<UserId, Role>, name: string ::
      query(roles, name).Some? &&
      (forall u :: u in query(roles, name).value <==> u in roles && roles[u].value == name)
  }

  /** With an exact query, no COUNCIL or VICE_PRESIDENT user remains after `delegate`. */
  lemma ExactDelegateClears(roles: map<UserId, Role>, currentId: UserId, query: RoleQuery)
    requires ExactQuery(query)
    ensures var after := DelegateSpec(roles, currentId, query).0;
      forall u :: u in after ==> after[u] != COUNCIL && after[u] != VICE_PRESIDENT
  {
    var after := DelegateSpec(roles, currentId, query).0;
    var council := AfterCouncil(roles, query);
    var c := query(roles, "COUNCIL");
    var v := query(council, "VICE_PRESIDENT");
    assert c.Some? && forall u :: u in c.value <==> u in roles && roles[u].value == "COUNCIL";
    assert v.Some? && forall u :: u in v.value <==> u in council && council[u].value == "VICE_PRESIDENT";
    forall u | u in after ensures after[u] != COUNCIL && after[u] != VICE_PRESIDENT {
      assert u in roles;
    }
  }

  /** With an exact query, `delegate` on a store holding no COUNCIL or VICE_PRESIDENT changes nothing more. */
  lemma ExactDelegateNoOp(roles: map<UserId, Role>, currentId: UserId, query: RoleQuery)
    requires ExactQuery(query)
    requires currentId in roles && roles[currentId] == COMMON
    requires forall u :: u in roles ==> roles[u] != COUNCIL && roles[u] != VICE_PRESIDENT
    ensures DelegateSpec(roles, currentId, query) == (roles, Delegated)
  {
    var c := query(roles, "COUNCIL");
    assert c.Some? && forall u :: u in c.value <==> u in roles && roles[u].value == "COUNCIL";
    var council := AfterCouncil(roles, query);
    assert council == roles;
    var v := query(council, "VICE_PRESIDENT");
    assert v.Some? && forall u :: u in v.value <==> u in council && council[u].value == "VICE_PRESIDENT";
    assert AfterVice(roles, query) == roles;
    assert roles[currentId := COMMON] == roles;
  }

  /**
   * With an exact query no COUNCIL or VICE_PRESIDENT user remains, and
   * delegating again changes nothing.
   */
  lemma ExactDelegateClearsAndIsIdempotent(roles: map<UserId, Role>, currentId: UserId, query: RoleQuery)
    requires ExactQuery(query)
    requires currentId in roles
    ensures var after := DelegateSpec(roles, currentId, query).0;
      && (forall u :: u in after ==> after[u] != COUNCIL && after[u] != VICE_PRESIDENT)
      && DelegateSpec(after, currentId, query) == (after, Delegated)
  {
    ExactDelegateClears(roles, currentId, query);
    ExactDelegateNoOp(DelegateSpec(roles, currentId, query).0, currentId, query);
  }

  /** `UserPort`: the stored roles and the port's query. */
  class UserPort {
    var roles: map<UserId, Role>
    const query: RoleQuery

    constructor (roles: map<UserId, Role>, query: RoleQuery)
      ensures this.roles == roles && this.query == query
    {
      this.roles := roles;
      this.query := query;
    }

    /** `findByRole(name)` */
    method FindByRole(name: string) returns (found: Option<seq<UserId>>)
      ensures found == query(roles, name)
    {
      found := query(roles, name);
    }

    /** `updateRole(id, role)`: answers the user when stored, empty otherwise. */
    method UpdateRole(id: UserId, role: Role) returns (updated: Option<UserId>)
      modifies this`roles
      ensures roles == WithRole(old(roles), id, role)
      ensures updated.Some? <==> id in old(roles)
    {
      if id in roles {
        roles := roles[id := role];
        updated := Some(id);
      } else {
        updated := None;
      }
    }
  }

  class DelegationPresident {
    const userPort: UserPort

    constructor (userPort: UserPort)
      ensures this.userPort == userPort
    {
      this.userPort := userPort;
    }

    /** `list.forEach(user -> userPort.updateRole(user.getId(), Role.COMMON))` */
    method DowngradeEach(ids: seq<UserId>)
      modifies userPort`roles
      ensures userPort.roles == Downgrade(old(userPort.roles), ids)
    {
      var i := 0;
      while i < |ids|
        invariant 0 <= i <= |ids|
        invariant userPort.roles == Downgrade(old(userPort.roles), ids[..i])
      {
        assert ids[..i + 1][..i] == ids[..i];
        var _ := userPort.UpdateRole(ids[i], COMMON);
        i := i + 1;
      }
      assert ids[..i] == ids;
    }

    /** `delegate(currentId, targetId)`; `targetId` is not read. */
    method Delegate(currentId: UserId, targetId: UserId) returns (outcome: Outcome)
      modifies userPort`roles
      ensures (userPort.roles, outcome) == DelegateSpec(old(userPort.roles), currentId, userPort.query)
    {
      var councilList := userPort.FindByRole("COUNCIL");
      if councilList.Some? {
        DowngradeEach(councilList.value);
      }
      var vicePresident := userPort.FindByRole("VICE_PRESIDENT");
      if vicePresident.Some? {
        DowngradeEach(vicePresident.value);
      }
      var updated := userPort.UpdateRole(currentId, COMMON);
      if updated.None? {
        return InternalServerError;
      }
      outcome := Delegated;
    }
  }
}
