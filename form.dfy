/**
 * The `Form` persistence entity: an application form with allowed grades,
 * questions, an allowed academic status, a paid flag, its writer and an
 * optional circle.
 */
module Forms {
  import opened Optional
  import Circles
  import Users

  /** `AcademicStatus` */
  datatype AcademicStatus =
    | Enrolled | LeaveOfAbsence | Graduated | DroppedOut | Probation | Professor | Undetermined

  /** A question of a form; its own fields are not part of this model. */
  datatype Question = Question(questionId: string)

  /** What a form holds; a `null` title or grade set is `None`, a `null` circle is `null`. */
  datatype FormState = FormState(
    title: Option<string>,
    allowedGrades: Option<set<int>>,
    questions: seq<Question>,
    isDeleted: bool,
    allowedAcademicStatus: Option<AcademicStatus>,
    isPaid: bool,
    writer: Users.UserEntity,
    circle: Circles.Circle?)

  /** The grade set `Form.of` stores: the given one, or the empty set for `null`. */
  function GradesOrEmpty(allowedGrades: Option<set<int>>): (r: set<int>)
    ensures allowedGrades.Some? ==> r == allowedGrades.value
    ensures allowedGrades.None? ==> r == {}
  {
    allowedGrades.OrElse({})
  }

  /** The state `Form.of(...)` builds. */
  function Created(title: Option<string>, allowedGrades: Option<set<int>>, questions: seq<Question>,
                   allowedAcademicStatus: Option<AcademicStatus>, isPaid: bool,
                   writer: Users.UserEntity, circle: Circles.Circle?): (r: FormState)
    ensures !r.isDeleted && r.allowedGrades.Some?
    ensures allowedGrades.Some? ==> r.allowedGrades == allowedGrades
    ensures allowedGrades.None? ==> r.allowedGrades == Some({})
    ensures r.title == title && r.questions == questions && r.allowedAcademicStatus == allowedAcademicStatus
    ensures r.isPaid == isPaid && r.writer == writer && r.circle == circle
  {
    FormState(title, Some(GradesOrEmpty(allowedGrades)), questions, false, allowedAcademicStatus, isPaid, writer, circle)
  }

  /** The state `update(...)` leaves. */
  function Updated(s: FormState, title: Option<string>, allowedGrades: Option<set<int>>, questions: seq<Question>,
                   allowedAcademicStatus: Option<AcademicStatus>, isPaid: bool): (r: FormState)
    ensures r.title == title && r.allowedGrades == allowedGrades && r.questions == questions
    ensures r.allowedAcademicStatus == allowedAcademicStatus && r.isPaid == isPaid
    ensures r.isDeleted == s.isDeleted && r.writer == s.writer && r.circle == s.circle
  {
    s.(title := title, allowedGrades := allowedGrades, questions := questions,
       allowedAcademicStatus := allowedAcademicStatus, isPaid := isPaid)
  }

  /**
   * `update` applies no null default: `Form.of` with a `null` grade set
   * stores the empty set, but a later `update` with a `null` grade set
   * leaves the form with none.
   */
  lemma CreateThenUpdateWithNullGrades(title: Option<string>, questions: seq<Question>, isPaid: bool,
                                       writer: Users.UserEntity, circle: Circles.Circle?)
    ensures Updated(Created(title, None, questions, None, isPaid, writer, circle), title, None, questions, None, isPaid).allowedGrades.None?
    ensures Created(title, None, questions, None, isPaid, writer, circle).allowedGrades == Some({})
  {
  }

  /** `update` and `setIsDeleted` touch disjoint fields, so their order does not matter. */
  lemma UpdateCommutesWithSetIsDeleted(s: FormState, b: bool, title: Option<string>, allowedGrades: Option<set<int>>,
                                       questions: seq<Question>, allowedAcademicStatus: Option<AcademicStatus>, isPaid: bool)
    ensures Updated(s.(isDeleted := b), title, allowedGrades, questions, allowedAcademicStatus, isPaid)
         == Updated(s, title, allowedGrades, questions, allowedAcademicStatus, isPaid).(isDeleted := b)
  {
  }

  class Form {
    var title: Option<string>
    var allowedGrades: Option<set<int>>
    var questions: seq<Question>
    var isDeleted: bool
    var allowedAcademicStatus: Option<AcademicStatus>
    var isPaid: bool
    var writer: Users.UserEntity
    var circle: Circles.Circle?

    /** The form's fields as a value. */
    function State(): FormState
      reads this
    {
      FormState(title, allowedGrades, questions, isDeleted, allowedAcademicStatus, isPaid, writer, circle)
    }

    /** `Form.of(title, allowedGrades, questions, allowedAcademicStatus, isPaid, writer, circle)` */
    constructor Of(title: Option<string>, allowedGrades: Option<set<int>>, questions: seq<Question>,
                   allowedAcademicStatus: Option<AcademicStatus>, isPaid: bool,
                   writer: Users.UserEntity, circle: Circles.Circle?)
      ensures State() == Created(title, allowedGrades, questions, allowedAcademicStatus, isPaid, writer, circle)
      ensures this.allowedGrades == Some(GradesOrEmpty(allowedGrades)) && !isDeleted
    {
      this.title := title;
      this.allowedGrades := Some(GradesOrEmpty(allowedGrades));
      this.questions := questions;
      this.isDeleted := false;
      this.allowedAcademicStatus := allowedAcademicStatus;
      this.isPaid := isPaid;
      this.writer := writer;
      this.circle := circle;
    }

    /** `update(title, allowedGrades, questions, allowedAcademicStatus, isPaid)` */
    method Update(title: Option<string>, allowedGrades: Option<set<int>>, questions: seq<Question>,
                  allowedAcademicStatus: Option<AcademicStatus>, isPaid: bool)
      modifies this`title, this`allowedGrades, this`questions, this`allowedAcademicStatus, this`isPaid
      ensures State() == Updated(old(State()), title, allowedGrades, questions, allowedAcademicStatus, isPaid)
      ensures isDeleted == old(isDeleted) && writer == old(writer) && circle == old(circle)
    {
      this.title := title;
      this.allowedGrades := allowedGrades;
      this.questions := questions;
      this.allowedAcademicStatus := allowedAcademicStatus;
      this.isPaid := isPaid;
    }

    /** `setIsDeleted(isDeleted)`: only the deleted flag changes. */
    method SetIsDeleted(isDeleted: bool)
      modifies this`isDeleted
      ensures State() == old(State()).(isDeleted := isDeleted)
    {
      this.isDeleted := isDeleted;
    }
  }
}
