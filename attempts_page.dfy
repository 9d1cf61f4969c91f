/** The attempts page: which loaded attempts belong to the signed-in
    student, and whether another attempt may start
    (src/components/assessment/attempts-page.tsx). */
module AttemptsPage {
  import opened Wrappers
  import Seqs
  import AssessRunner

  /** The `role` column as read; the page compares it with `"student"`
      and treats every other value alike. */
  const StudentRole: string := "student"

  datatype Profile = Profile(id: string, role: string)

  /** A row of `assessment_attempts` as the page selects it. */
  datatype Attempt = Attempt(id: string, studentId: string)

  /** `studentAttempts`: the student's own attempts, in load order; none for
      any other role. */
  function StudentAttempts(profile: Profile, attempts: seq<Attempt>): (r: seq<Attempt>)
    ensures profile.role != StudentRole ==> r == []
    ensures profile.role == StudentRole ==> forall a :: a in r <==> a in attempts && a.studentId == profile.id
    ensures |r| <= |attempts|
  {
    if profile.role == StudentRole then Seqs.Filter((a: Attempt) => a.studentId == profile.id, attempts)
    else []
  }

  /** `canAttempt`: never for a non-student, always for a student when no
      limit is set, otherwise exactly while the student's attempts are below
      the limit (so a limit of 0 never allows an attempt). */
  function CanAttempt(profile: Profile, attempts: seq<Attempt>, attemptLimit: Option<int>): (ok: bool)
    ensures profile.role != StudentRole ==> !ok
    ensures profile.role == StudentRole && attemptLimit.None? ==> ok
    ensures profile.role == StudentRole && attemptLimit.Some? ==>
      (ok <==> |Seqs.Filter((a: Attempt) => a.studentId == profile.id, attempts)| < attemptLimit.value)
    ensures attemptLimit == Some(0) ==> !ok
  {
    profile.role == StudentRole
    && (attemptLimit.None? || |StudentAttempts(profile, attempts)| < attemptLimit.value)
  }

  /** The `attemptsUsed` prop handed to the runner. */
  function AttemptsUsed(profile: Profile, attempts: seq<Attempt>): nat {
    |StudentAttempts(profile, attempts)|
  }

  /** The filter keeps the load order: the attempts of a longer load are the
      attempts of its first part followed by those of the rest. */
  lemma StudentAttemptsAppend(profile: Profile, xs: seq<Attempt>, ys: seq<Attempt>)
    ensures StudentAttempts(profile, xs + ys) == StudentAttempts(profile, xs) + StudentAttempts(profile, ys)
  {
    if profile.role == StudentRole {
      Seqs.FilterAppend((a: Attempt) => a.studentId == profile.id, xs, ys);
    }
  }

  /** When every loaded attempt is the student's own, all of them count. */
  lemma OwnAttemptsAllCount(profile: Profile, attempts: seq<Attempt>)
    requires profile.role == StudentRole
    requires forall i :: 0 <= i < |attempts| ==> attempts[i].studentId == profile.id
    ensures StudentAttempts(profile, attempts) == attempts
  {
    Seqs.FilterKeepsAll((a: Attempt) => a.studentId == profile.id, attempts);
  }

  // ---------------------------------------------------------------------
  // The limit and the runner: `canAttempt` is handed to the runner, whose
  // props do not include it, so a submit is never refused.
  // ---------------------------------------------------------------------

  /** The loaded attempts once a new attempt of the student is inserted. */
  function WithNewAttempt(profile: Profile, attempts: seq<Attempt>, newId: string): seq<Attempt> {
    attempts + [Attempt(newId, profile.id)]
  }

  /** As written: every student is shown the runner, and a submit inserts
      its row whatever the attempts and the limit are; None when no runner
      is rendered. */
  function RunnerInsert(profile: Profile, assessmentId: string, schema: Option<AssessRunner.Schema>,
                        passingScore: Option<real>, answers: AssessRunner.Answers)
    : (row: Option<AssessRunner.AttemptRow>)
    ensures row.Some? <==> profile.role == StudentRole
    ensures row.Some? ==> row.value == AssessRunner.AttemptFor(assessmentId, profile.id, schema, passingScore, answers)
  {
    if profile.role == StudentRole then Some(AssessRunner.AttemptFor(assessmentId, profile.id, schema, passingScore, answers))
    else None
  }

  /** As written, a student who has used up the limit is refused by
      `canAttempt`, yet the runner still inserts, and the student's attempts
      then exceed the limit. */
  lemma {:induction false} LimitNotEnforced(profile: Profile, attempts: seq<Attempt>, attemptLimit: int,
                                            newId: string, assessmentId: string,
                                            schema: Option<AssessRunner.Schema>, passingScore: Option<real>,
                                            answers: AssessRunner.Answers)
    requires profile.role == StudentRole
    requires 0 <= attemptLimit <= |StudentAttempts(profile, attempts)|
    ensures !CanAttempt(profile, attempts, Some(attemptLimit))
    ensures RunnerInsert(profile, assessmentId, schema, passingScore, answers).Some?
    ensures |StudentAttempts(profile, WithNewAttempt(profile, attempts, newId))| > attemptLimit
  {
    StudentAttemptsAppend(profile, attempts, [Attempt(newId, profile.id)]);
    OwnAttemptsAllCount(profile, [Attempt(newId, profile.id)]);
  }

  /** The intended submit: the runner inserts only while `canAttempt` holds. */
  function GatedInsert(profile: Profile, attempts: seq<Attempt>, attemptLimit: Option<int>,
                       assessmentId: string, schema: Option<AssessRunner.Schema>,
                       passingScore: Option<real>, answers: AssessRunner.Answers)
    : (row: Option<AssessRunner.AttemptRow>)
    ensures row.Some? <==> CanAttempt(profile, attempts, attemptLimit)
    ensures row.Some? ==> row.value == AssessRunner.AttemptFor(assessmentId, profile.id, schema, passingScore, answers)
  {
    if CanAttempt(profile, attempts, attemptLimit) then
      Some(AssessRunner.AttemptFor(assessmentId, profile.id, schema, passingScore, answers))
    else None
  }

  /** With the gate (GatedInsert inserts exactly when CanAttempt holds), an
      insert never takes a student past the limit: after it the student has
      at most `attemptLimit` attempts. */
  lemma {:induction false} GatedInsertKeepsLimit(profile: Profile, attempts: seq<Attempt>, attemptLimit: int,
                                                 newId: string)
    requires CanAttempt(profile, attempts, Some(attemptLimit))
    ensures profile.role == StudentRole
    ensures |StudentAttempts(profile, WithNewAttempt(profile, attempts, newId))| <= attemptLimit
  {
    StudentAttemptsAppend(profile, attempts, [Attempt(newId, profile.id)]);
    OwnAttemptsAllCount(profile, [Attempt(newId, profile.id)]);
  }
}
