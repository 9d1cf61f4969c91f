/** The tutor's progress dashboard: one weighted progress value per student
    from lessons completed and assessment percentages, and the low-progress
    flag that offers an extension (src/components/progress-dashboard.tsx).
    Values are exact reals; the two-decimal rounding is not modelled. */
module ProgressDashboard {
  import opened Wrappers
  import Seqs

  /** A row of the tutor's active matches, flattened. */
  datatype StudentRow = StudentRow(studentId: string, displayName: string, subjectId: string,
                                   subjectName: string, gradeLevel: string)

  /** A `lesson_progress` row; the lesson viewer shows it as completed only
      when `completed_at` is truthy. */
  datatype LessonProgressRow = LessonProgressRow(studentId: string, subjectId: string, lessonId: string,
                                                 completedAt: Option<string>)
  datatype LessonRow = LessonRow(id: string, subjectId: string, gradeLevel: string)
  /** An assessment attempt; a null percentage adds nothing to the sum. */
  datatype AttemptRow = AttemptRow(studentId: string, percentage: Option<real>)

  /** The three tables the loop counts in. */
  datatype Tables = Tables(lessonProgress: seq<LessonProgressRow>, lessons: seq<LessonRow>,
                           attempts: seq<AttemptRow>)

  /** Below this a student is flagged and offered an extension. */
  const LowProgressThreshold: real := 60.0

  /** The `lesson_progress` count for the row's student and subject, every
      row counted whatever its `completed_at`. */
  function LessonsCompleted(s: StudentRow, t: Tables): nat {
    |Seqs.Filter((p: LessonProgressRow) => p.studentId == s.studentId && p.subjectId == s.subjectId,
                 t.lessonProgress)|
  }

  /** The `lessons` count for the row's subject and grade. */
  function TotalLessons(s: StudentRow, t: Tables): nat {
    |Seqs.Filter((l: LessonRow) => l.subjectId == s.subjectId && l.gradeLevel == s.gradeLevel, t.lessons)|
  }

  /** The percentages of all the student's attempts, whatever the subject. */
  function Percentages(s: StudentRow, t: Tables): seq<real> {
    var own := Seqs.Filter((a: AttemptRow) => a.studentId == s.studentId, t.attempts);
    seq(|own|, i requires 0 <= i < |own| => own[i].percentage.GetOr(0.0))
  }

  /** `lessonPct`: the completed fraction when there are lessons, else 0. */
  function LessonPct(completed: nat, total: nat): (pct: real)
    ensures total == 0 ==> pct == 0.0
    ensures total > 0 ==> pct * (total as real) == completed as real
    ensures completed <= total ==> 0.0 <= pct <= 1.0
  {
    if total > 0 then (completed as real) / (total as real) else 0.0
  }

  /** `reduce((a, b) => a + b, 0)`, left to right. */
  function Sum(ps: seq<real>): real {
    if ps == [] then 0.0 else Sum(ps[..|ps| - 1]) + ps[|ps| - 1]
  }

  lemma {:induction false} SumBounds(ps: seq<real>)
    requires forall i :: 0 <= i < |ps| ==> 0.0 <= ps[i] <= 100.0
    ensures 0.0 <= Sum(ps) <= 100.0 * (|ps| as real)
  {
    if ps != [] {
      SumBounds(ps[..|ps| - 1]);
    }
  }

  /** `avgScore`: the mean of the percentages, 0 without attempts. */
  function AvgScore(ps: seq<real>): (avg: real)
    ensures ps == [] ==> avg == 0.0
    ensures ps != [] ==> avg * (|ps| as real) == Sum(ps)
  {
    if |ps| > 0 then Sum(ps) / (|ps| as real) else 0.0
  }

  /** A mean of percentages is a percentage. */
  lemma AvgScoreBounds(ps: seq<real>)
    requires forall i :: 0 <= i < |ps| ==> 0.0 <= ps[i] <= 100.0
    ensures 0.0 <= AvgScore(ps) <= 100.0
  {
    if ps != [] {
      SumBounds(ps);
      var n := |ps| as real;
      var avg := AvgScore(ps);
      assert avg * n <= 100.0 * n;
      assert 0.0 <= avg * n;
    }
  }

  /** Lessons weigh 60 points (the fraction times 60), assessments 40 (the
      percentage times 0.4). */
  function Progress(lessonPct: real, avgScore: real): (p: real)
    ensures lessonPct == 1.0 && avgScore == 100.0 ==> p == 100.0
    ensures 0.0 <= lessonPct <= 1.0 && 0.0 <= avgScore <= 100.0 ==> 0.0 <= p <= 100.0
  {
    lessonPct * 60.0 + avgScore * 0.4
  }

  /** The value the loop stores for one row. */
  function StudentProgress(s: StudentRow, t: Tables): real {
    Progress(LessonPct(LessonsCompleted(s, t), TotalLessons(s, t)), AvgScore(Percentages(s, t)))
  }

  /** Attempt percentages in range stay in range after the null default. */
  lemma PercentagesInRange(s: StudentRow, t: Tables)
    requires forall i :: 0 <= i < |t.attempts| && t.attempts[i].percentage.Some? ==>
      0.0 <= t.attempts[i].percentage.value <= 100.0
    ensures forall i :: 0 <= i < |Percentages(s, t)| ==> 0.0 <= Percentages(s, t)[i] <= 100.0
  {
    var own := Seqs.Filter((a: AttemptRow) => a.studentId == s.studentId, t.attempts);
    var ps := Percentages(s, t);
    forall i | 0 <= i < |ps|
      ensures 0.0 <= ps[i] <= 100.0
    {
      assert own[i] in t.attempts;
    }
  }

  /** With no more lessons completed than there are, and percentages in
      range, a student's progress is between 0 and 100. */
  lemma StudentProgressBounds(s: StudentRow, t: Tables)
    requires LessonsCompleted(s, t) <= TotalLessons(s, t)
    requires forall i :: 0 <= i < |t.attempts| && t.attempts[i].percentage.Some? ==>
      0.0 <= t.attempts[i].percentage.value <= 100.0
    ensures 0.0 <= StudentProgress(s, t) <= 100.0
  {
    PercentagesInRange(s, t);
    AvgScoreBounds(Percentages(s, t));
  }

  /** The completed count is not bounded by the lesson count: progress rows
      are counted by student and subject only, so a completed lesson of
      another grade counts too. One lesson of the row's grade, one of
      another grade, both completed, no attempts: the value is 120. */
  lemma ProgressCanExceedHundred()
    ensures var s := StudentRow("st", "Ada", "math", "Mathematics", "Grade 5");
      var t := Tables([LessonProgressRow("st", "math", "l5", Some("2024-03-01")),
                       LessonProgressRow("st", "math", "l6", Some("2024-03-02"))],
                      [LessonRow("l5", "math", "Grade 5"), LessonRow("l6", "math", "Grade 6")], []);
      LessonsCompleted(s, t) == 2 && TotalLessons(s, t) == 1 && StudentProgress(s, t) == 120.0
  {
    var s := StudentRow("st", "Ada", "math", "Mathematics", "Grade 5");
    var p5 := LessonProgressRow("st", "math", "l5", Some("2024-03-01"));
    var p6 := LessonProgressRow("st", "math", "l6", Some("2024-03-02"));
    var l5 := LessonRow("l5", "math", "Grade 5");
    var l6 := LessonRow("l6", "math", "Grade 6");
    var t := Tables([p5, p6], [l5, l6], []);
    var ofStudent := (p: LessonProgressRow) => p.studentId == s.studentId && p.subjectId == s.subjectId;
    var ofGrade := (l: LessonRow) => l.subjectId == s.subjectId && l.gradeLevel == s.gradeLevel;
    assert [p5, p6][1..] == [p6];
    assert [l5, l6][1..] == [l6];
    assert Seqs.Filter(ofStudent, [p6]) == [p6];
    assert Seqs.Filter(ofStudent, [p5, p6]) == [p5, p6];
    assert Seqs.Filter(ofGrade, [l6]) == [];
    assert Seqs.Filter(ofGrade, [l5, l6]) == [l5];
    assert Percentages(s, t) == [];
  }

  /** A lesson of the row's subject and grade that the student completed:
      a progress row of the student for it has a truthy `completed_at`, as
      the lesson viewer requires before it shows "Completed". */
  predicate CompletedBy(l: LessonRow, s: StudentRow, t: Tables) {
    l.subjectId == s.subjectId && l.gradeLevel == s.gradeLevel
    && exists p :: p in t.lessonProgress && p.studentId == s.studentId && p.lessonId == l.id
                   && Truthy(p.completedAt)
  }

  /** The corrected count: the lessons of the row's subject and grade that
      the student completed, each lesson once. */
  function GradeLessonsCompleted(s: StudentRow, t: Tables): (n: nat)
    ensures n <= TotalLessons(s, t)
  {
    Seqs.FilterStronger((l: LessonRow) => CompletedBy(l, s, t),
                        (l: LessonRow) => l.subjectId == s.subjectId && l.gradeLevel == s.gradeLevel,
                        t.lessons);
    |Seqs.Filter((l: LessonRow) => CompletedBy(l, s, t), t.lessons)|
  }

  /** The value the loop would store with the corrected count. */
  function CorrectedProgress(s: StudentRow, t: Tables): real {
    Progress(LessonPct(GradeLessonsCompleted(s, t), TotalLessons(s, t)), AvgScore(Percentages(s, t)))
  }

  /** With the corrected count, progress is between 0 and 100 whatever the
      progress rows hold. */
  lemma CorrectedProgressBounds(s: StudentRow, t: Tables)
    requires forall i :: 0 <= i < |t.attempts| && t.attempts[i].percentage.Some? ==>
      0.0 <= t.attempts[i].percentage.value <= 100.0
    ensures 0.0 <= CorrectedProgress(s, t) <= 100.0
  {
    PercentagesInRange(s, t);
    AvgScoreBounds(Percentages(s, t));
  }

  /** `progressMap` after the loop over `rows`: one entry per student id,
      written in row order, so a later row overwrites an earlier one. */
  function ProgressMap(rows: seq<StudentRow>, t: Tables): map<string, real> {
    if rows == [] then map[]
    else ProgressMap(rows[..|rows| - 1], t)[rows[|rows| - 1].studentId := StudentProgress(rows[|rows| - 1], t)]
  }

  /** The map has an entry for exactly the students of the rows. */
  lemma {:induction false} ProgressMapKeys(rows: seq<StudentRow>, t: Tables)
    ensures forall id :: id in ProgressMap(rows, t) <==> exists i :: 0 <= i < |rows| && rows[i].studentId == id
  {
    if rows != [] {
      var init := rows[..|rows| - 1];
      ProgressMapKeys(init, t);
      assert forall i :: 0 <= i < |init| ==> init[i] == rows[i];
    }
  }

  /** A student's entry is the progress computed for their last row. */
  lemma {:induction false} ProgressMapLastWins(rows: seq<StudentRow>, t: Tables, j: nat)
    requires j < |rows|
    requires forall i :: j < i < |rows| ==> rows[i].studentId != rows[j].studentId
    ensures rows[j].studentId in ProgressMap(rows, t)
    ensures ProgressMap(rows, t)[rows[j].studentId] == StudentProgress(rows[j], t)
  {
    if j < |rows| - 1 {
      var init := rows[..|rows| - 1];
      ProgressMapLastWins(init, t, j);
    }
  }

  /** The loop of `load`, filling `progressMap` row by row. */
  method BuildProgressMap(rows: seq<StudentRow>, t: Tables) returns (progressMap: map<string, real>)
    ensures progressMap == ProgressMap(rows, t)
  {
    progressMap := map[];
    for i := 0 to |rows|
      invariant progressMap == ProgressMap(rows[..i], t)
    {
      var s := rows[i];
      var completed := LessonsCompleted(s, t);
      var total := TotalLessons(s, t);
      var lessonPct := LessonPct(completed, total);
      var avgScore := AvgScore(Percentages(s, t));
      assert rows[..i + 1][..i] == rows[..i];
      progressMap := progressMap[s.studentId := Progress(lessonPct, avgScore)];
    }
    assert rows[..|rows|] == rows;
  }

  /** The red text and the Trigger Extension button: exactly below 60. */
  predicate LowProgress(pct: real) {
    pct < LowProgressThreshold
  }

  /** `progress[s.student_id] ?? 0`: a student without an entry shows 0
      and is flagged. */
  function PctShown(progress: map<string, real>, studentId: string): (pct: real)
    ensures studentId !in progress ==> pct == 0.0 && LowProgress(pct)
    ensures studentId in progress ==> pct == progress[studentId]
  {
    if studentId in progress then progress[studentId] else 0.0
  }

  /** The dashboard's state. */
  class Dashboard {
    var students: seq<StudentRow>
    var progress: map<string, real>
    var loading: bool

    constructor ()
      ensures students == [] && progress == map[] && loading
    {
      students := [];
      progress := map[];
      loading := true;
    }

    /** `load`: without a user it returns while still loading; a failed
        match query only ends loading; otherwise the rows and their map are
        stored. `matches` are the tutor's active matches, None on error. */
    method Load(user: Option<string>, matches: Option<seq<StudentRow>>, t: Tables)
      modifies this
      ensures user.None? ==> students == old(students) && progress == old(progress) && loading
      ensures user.Some? && matches.None? ==> students == old(students) && progress == old(progress) && !loading
      ensures user.Some? && matches.Some? ==>
        students == matches.value && progress == ProgressMap(matches.value, t) && !loading
    {
      loading := true;
      if user.None? {
        return;
      }
      if matches.None? {
        loading := false;
        return;
      }
      students := matches.value;
      var progressMap := BuildProgressMap(matches.value, t);
      progress := progressMap;
      loading := false;
    }
  }
}
