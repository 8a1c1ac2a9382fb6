/**
 * The validator chain. The validator classes are not part of this model:
 * each check is a tagged value carrying the arguments its `X.of(...)` factory
 * receives, and whether it passes is left to a predicate `passes` that the
 * caller supplies. `ValidatorBucket.validate` is modelled as failing on the
 * first queued check, in insertion order, that does not pass.
 */
module Validation {
  import opened Optional
  import opened Roles
  import opened Entities

  /** `StaticValue.DOMAIN_*`: what a deleted-flag check is about. */
  datatype Domain = DomainBoard | DomainCircle | DomainPost

  datatype Check =
    | UserRoleValidator(role: Role, allowed: seq<Role>)
    | UserStateValidator(state: UserState)
    | UserRoleIsNoneValidator(role: Role)
    | PostNumberOfAttachmentsValidator(attachmentList: seq<string>)
    | TargetIsDeletedValidator(isDeleted: bool, domain: Domain)
    | TargetIsNotDeletedValidator(isDeleted: bool, domain: Domain)
    | CircleMemberStatusValidator(status: MemberStatus, allowedStatus: seq<MemberStatus>)
    | ContentsAdminValidator(role: Role, loginUserId: UserId, writerId: UserId, overrideRoles: seq<Role>)
    | UserEqualValidator(expectedId: UserId, actualId: UserId)
    | ConstraintValidator(target: PostView)

  /** Index of the first check that does not pass, if there is one. */
  function FirstFailing(checks: seq<Check>, passes: Check -> bool): (r: Option<nat>)
    ensures r.Some? ==> r.value < |checks| && !passes(checks[r.value])
    ensures r.Some? ==> forall j :: 0 <= j < r.value ==> passes(checks[j])
    ensures r.None? <==> forall j :: 0 <= j < |checks| ==> passes(checks[j])
    decreases |checks|
  {
    if checks == [] then None
    else if !passes(checks[0]) then Some(0)
    else
      match FirstFailing(checks[1..], passes)
      case None => None
      case Some(k) => Some(k + 1)
  }

  /** What `validate()` raises on: the first failing check, or nothing. */
  function Verdict(checks: seq<Check>, passes: Check -> bool): (r: Option<Check>)
    ensures r.None? <==> forall j :: 0 <= j < |checks| ==> passes(checks[j])
    ensures r.Some? ==> exists k :: 0 <= k < |checks| && r.value == checks[k] && !passes(checks[k])
                                   && forall j :: 0 <= j < k ==> passes(checks[j])
  {
    match FirstFailing(checks, passes)
    case None => None
    case Some(k) => Some(checks[k])
  }

  /** An empty bucket always passes. */
  lemma EmptyBucketPasses(passes: Check -> bool)
    ensures Verdict([], passes) == None
  {
  }

  /** The first failing index is the one every earlier check passes before. */
  lemma {:induction false} FirstFailingAt(checks: seq<Check>, passes: Check -> bool, k: nat)
    requires k < |checks| && !passes(checks[k])
    requires forall j :: 0 <= j < k ==> passes(checks[j])
    ensures FirstFailing(checks, passes) == Some(k)
    decreases k
  {
    if k > 0 {
      assert forall j :: 0 <= j < k - 1 ==> checks[1..][j] == checks[j + 1];
      FirstFailingAt(checks[1..], passes, k - 1);
    }
  }

  /** Checks queued later are consulted only once everything before them passes. */
  lemma {:induction false} VerdictOfAppend(a: seq<Check>, b: seq<Check>, passes: Check -> bool)
    ensures Verdict(a + b, passes) == if Verdict(a, passes).Some? then Verdict(a, passes) else Verdict(b, passes)
  {
    var fa, fab := FirstFailing(a, passes), FirstFailing(a + b, passes);
    if fa.Some? {
      assert forall j :: 0 <= j < |a| ==> (a + b)[j] == a[j];
      FirstFailingAt(a + b, passes, fa.value);
    } else {
      var fb := FirstFailing(b, passes);
      assert forall j :: 0 <= j < |a| ==> (a + b)[j] == a[j];
      if fb.Some? {
        assert forall j :: |a| <= j < |a + b| ==> (a + b)[j] == b[j - |a|];
        FirstFailingAt(a + b, passes, |a| + fb.value);
      } else {
        forall j | 0 <= j < |a + b| ensures passes((a + b)[j]) {
          if j >= |a| { assert (a + b)[j] == b[j - |a|]; }
        }
      }
    }
  }

  /**
   * A reading of the validators by their names, used only as a premise:
   * the deleted-flag checks and the user-equality check decide as their
   * names say. The validators themselves are not part of this model.
   */
  ghost predicate ChecksAsNamed(passes: Check -> bool) {
    && (forall b: bool, d: Domain :: passes(TargetIsDeletedValidator(b, d)) == !b)
    && (forall b: bool, d: Domain :: passes(TargetIsNotDeletedValidator(b, d)) == b)
    && (forall x: UserId, y: UserId :: passes(UserEqualValidator(x, y)) == (x == y))
  }

  /** `ValidatorBucket`: an ordered list of checks, filled by `consistOf`. */
  class ValidatorBucket {
    var checks: seq<Check>

    /** `ValidatorBucket.of()` */
    constructor Of()
      ensures checks == []
    {
      checks := [];
    }

    /** `consistOf(v)`: queue `v` after everything already queued. */
    method ConsistOf(c: Check)
      modifies this
      ensures checks == old(checks) + [c]
    {
      checks := checks + [c];
    }

    /** `validate()`: consult the checks in order and stop at the first that fails. */
    method Validate(passes: Check -> bool) returns (failed: Option<Check>)
      ensures failed == Verdict(checks, passes)
      ensures failed.Some? ==> failed.value in checks && !passes(failed.value)
    {
      var i := 0;
      while i < |checks|
        invariant 0 <= i <= |checks|
        invariant forall j :: 0 <= j < i ==> passes(checks[j])
      {
        if !passes(checks[i]) {
          failed := Some(checks[i]);
          return;
        }
        i := i + 1;
      }
      failed := None;
    }
  }
}
