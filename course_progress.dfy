/** The lesson progress viewer: which of a subject's lessons a student has
    completed, from the `lesson_progress` rows (src/components/course-progress.tsx). */
module CourseProgress {
  import opened Wrappers

  datatype Lesson = Lesson(id: string, title: string)

  /** A `lesson_progress` row; `completed_at` may be null. */
  datatype ProgressRow = ProgressRow(lessonId: string, completedAt: Option<string>)

  /** One line of the list: the title, and the completion time when shown completed. */
  datatype LessonLine = LessonLine(title: string, done: Option<string>)

  /** What the viewer renders. */
  datatype View = LoadingView | NoLessons | LessonList(lines: seq<LessonLine>)

  /** `completedMap` after the `forEach`: each row writes its lesson's
      entry, so the last row for a lesson wins. */
  function CompletedMap(rows: seq<ProgressRow>): map<string, Option<string>> {
    if rows == [] then map[]
    else CompletedMap(rows[..|rows| - 1])[rows[|rows| - 1].lessonId := rows[|rows| - 1].completedAt]
  }

  /** The map has a key for exactly each lesson id in the rows. */
  lemma {:induction false} CompletedMapKeys(rows: seq<ProgressRow>)
    ensures forall id :: id in CompletedMap(rows) <==> exists i :: 0 <= i < |rows| && rows[i].lessonId == id
  {
    if rows != [] {
      var init := rows[..|rows| - 1];
      CompletedMapKeys(init);
      assert forall i :: 0 <= i < |init| ==> init[i] == rows[i];
    }
  }

  /** For a duplicated lesson id, the last row's `completed_at` is kept. */
  lemma {:induction false} CompletedMapLastWins(rows: seq<ProgressRow>, j: nat)
    requires j < |rows|
    requires forall i :: j < i < |rows| ==> rows[i].lessonId != rows[j].lessonId
    ensures rows[j].lessonId in CompletedMap(rows)
    ensures CompletedMap(rows)[rows[j].lessonId] == rows[j].completedAt
  {
    if j < |rows| - 1 {
      CompletedMapLastWins(rows[..|rows| - 1], j);
    }
  }

  /** Rows about other lessons leave a lesson's entry as it was. */
  lemma {:induction false} CompletedMapOthers(rows: seq<ProgressRow>, extra: seq<ProgressRow>, id: string)
    requires forall i :: 0 <= i < |extra| ==> extra[i].lessonId != id
    ensures id in CompletedMap(rows + extra) <==> id in CompletedMap(rows)
    ensures id in CompletedMap(rows) ==> CompletedMap(rows + extra)[id] == CompletedMap(rows)[id]
  {
    if extra == [] {
      assert rows + extra == rows;
    } else {
      var init := extra[..|extra| - 1];
      CompletedMapOthers(rows, init, id);
      assert (rows + extra)[..|rows + extra| - 1] == rows + init;
    }
  }

  /** The loop that fills `completedMap`; no progress data gives an empty map. */
  method BuildCompletedMap(progressData: Option<seq<ProgressRow>>) returns (completedMap: map<string, Option<string>>)
    ensures completedMap == CompletedMap(progressData.GetOr([]))
  {
    completedMap := map[];
    if progressData.None? {
      return;
    }
    var rows := progressData.value;
    for i := 0 to |rows|
      invariant completedMap == CompletedMap(rows[..i])
    {
      assert rows[..i + 1][..i] == rows[..i];
      completedMap := completedMap[rows[i].lessonId := rows[i].completedAt];
    }
    assert rows[..|rows|] == rows;
  }

  /** `completed[lesson.id]` is truthy: an entry with a non-empty time. */
  predicate IsCompleted(completed: map<string, Option<string>>, lessonId: string) {
    lessonId in completed && Truthy(completed[lessonId])
  }

  function LineOf(lesson: Lesson, completed: map<string, Option<string>>): LessonLine {
    LessonLine(lesson.title, if IsCompleted(completed, lesson.id) then completed[lesson.id] else None)
  }

  /** The rendered view: a loading line, the "No lessons found" message
      exactly when there are no lessons, otherwise one line per lesson in
      order, shown completed exactly when its entry is truthy. */
  function Render(loading: bool, lessons: seq<Lesson>, completed: map<string, Option<string>>): (v: View)
    ensures loading <==> v.LoadingView?
    ensures v.NoLessons? <==> !loading && lessons == []
    ensures v.LessonList? ==> |v.lines| == |lessons| && forall i :: 0 <= i < |lessons| ==>
      v.lines[i].title == lessons[i].title && (v.lines[i].done.Some? <==> IsCompleted(completed, lessons[i].id))
  {
    if loading then LoadingView
    else if lessons == [] then NoLessons
    else LessonList(seq(|lessons|, i requires 0 <= i < |lessons| => LineOf(lessons[i], completed)))
  }

  /** Progress rows for lessons that are not in the list change nothing on screen. */
  lemma OtherLessonsIrrelevant(lessons: seq<Lesson>, rows: seq<ProgressRow>, extra: seq<ProgressRow>)
    requires forall i, k :: 0 <= i < |extra| && 0 <= k < |lessons| ==> extra[i].lessonId != lessons[k].id
    ensures Render(false, lessons, CompletedMap(rows + extra)) == Render(false, lessons, CompletedMap(rows))
  {
    forall k | 0 <= k < |lessons|
      ensures LineOf(lessons[k], CompletedMap(rows + extra)) == LineOf(lessons[k], CompletedMap(rows))
    {
      CompletedMapOthers(rows, extra, lessons[k].id);
    }
  }

  class Viewer {
    var lessons: seq<Lesson>
    var completed: map<string, Option<string>>
    var loading: bool

    constructor ()
      ensures lessons == [] && completed == map[] && loading
    {
      lessons := [];
      completed := map[];
      loading := true;
    }

    /** `load`, given the two query results (None where a query returned no data). */
    method Load(lessonsData: Option<seq<Lesson>>, progressData: Option<seq<ProgressRow>>)
      modifies this
      ensures lessons == lessonsData.GetOr([])
      ensures completed == CompletedMap(progressData.GetOr([]))
      ensures !loading
    {
      loading := true;
      var completedMap := BuildCompletedMap(progressData);
      lessons := lessonsData.GetOr([]);
      completed := completedMap;
      loading := false;
    }
  }
}
