/**
 * User roles. The `Role` enum itself is not part of this model: a role is
 * identified by its string value (`Role.getValue()`), and each named constant
 * below is taken to have its own name as its value.
 */
module Roles {
  import opened Strings

  datatype Role = Role(value: string)

  const ADMIN := Role("ADMIN")
  const PRESIDENT := Role("PRESIDENT")
  const VICE_PRESIDENT := Role("VICE_PRESIDENT")
  const COUNCIL := Role("COUNCIL")
  const LEADER_CIRCLE := Role("LEADER_CIRCLE")
  const COMMON := Role("COMMON")

  /** `Role.of(name)`: the role whose value is `name`. */
  function RoleOf(name: string): (r: Role)
    ensures r.value == name
  {
    Role(name)
  }

  /** `role.getValue().contains("PRESIDENT")` */
  predicate HasPresidentValue(role: Role) {
    Contains(role.value, "PRESIDENT")
  }

  /** `role.getValue().contains("LEADER_CIRCLE")` */
  predicate HasLeaderCircleValue(role: Role) {
    Contains(role.value, "LEADER_CIRCLE")
  }

  /** The substring test lets VICE_PRESIDENT through wherever PRESIDENT is tested. */
  lemma VicePresidentHasPresidentValue()
    ensures HasPresidentValue(VICE_PRESIDENT) && HasPresidentValue(PRESIDENT)
  {
    assert OccursAt(VICE_PRESIDENT.value, "PRESIDENT", 5);
    assert OccursAt(PRESIDENT.value, "PRESIDENT", 0);
  }

  lemma LeaderCircleHasLeaderValue()
    ensures HasLeaderCircleValue(LEADER_CIRCLE)
  {
    assert OccursAt(LEADER_CIRCLE.value, "LEADER_CIRCLE", 0);
  }

  /** LEADER_CIRCLE, COUNCIL, COMMON and ADMIN get no PRESIDENT privileges. */
  lemma PlainRolesLackPresidentValue()
    ensures !HasPresidentValue(LEADER_CIRCLE) && !HasPresidentValue(COUNCIL)
    ensures !HasPresidentValue(COMMON) && !HasPresidentValue(ADMIN)
  {
    LacksPresidentWithoutP(LEADER_CIRCLE.value);
    LacksPresidentWithoutP(COUNCIL.value);
    LacksPresidentWithoutP(COMMON.value);
    LacksPresidentWithoutP(ADMIN.value);
  }

  lemma LacksPresidentWithoutP(s: string)
    requires 'P' !in s
    ensures !Contains(s, "PRESIDENT")
  {
    NotContainsByFirst(s, "PRESIDENT");
  }
}
