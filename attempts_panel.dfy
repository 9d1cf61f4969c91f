/** The attempts panel's export: one record per loaded attempt, with a
    display-name fallback and `"Yes"`/`"No"` for passed
    (src/components/assessment/attempts-panel.tsx). */
module AttemptsPanel {
  import opened Wrappers

  /** A loaded attempt with the joined profile fields; `completedAt` is the
      locale string of `completed_at`, the numbers are carried as given. */
  datatype Attempt = Attempt(displayName: Option<string>, email: Option<string>,
                             studentId: string, completedAt: string,
                             score: int, percentage: real, passed: bool)

  /** A record handed to the CSV writer, in its column order. */
  datatype ExportRow = ExportRow(studentName: string, studentId: string, completedAt: string,
                                 score: int, percentage: real, passed: string)

  /** `display_name || email || "Unknown"` */
  function StudentName(a: Attempt): (name: string)
    ensures Truthy(a.displayName) ==> name == a.displayName.value
    ensures !Truthy(a.displayName) && Truthy(a.email) ==> name == a.email.value
    ensures !Truthy(a.displayName) && !Truthy(a.email) ==> name == "Unknown"
    ensures name != ""
  {
    OrElse(a.displayName, OrElse(a.email, "Unknown"))
  }

  function RowOf(a: Attempt): ExportRow {
    ExportRow(StudentName(a), a.studentId, a.completedAt, a.score, a.percentage,
              if a.passed then "Yes" else "No")
  }

  /** `exportCSV`: nothing without attempts; otherwise one record per
      attempt in load order, carrying its student, time, score and
      percentage, named by `StudentName` and with `"Yes"` exactly when passed. */
  function ExportRows(attempts: seq<Attempt>): (rows: Option<seq<ExportRow>>)
    ensures rows.None? <==> attempts == []
    ensures rows.Some? ==> |rows.value| == |attempts|
    ensures rows.Some? ==> forall i :: 0 <= i < |attempts| ==>
      var r := rows.value[i];
      var a := attempts[i];
      r.studentId == a.studentId && r.completedAt == a.completedAt
      && r.score == a.score && r.percentage == a.percentage
      && r.studentName == StudentName(a) && (r.passed == "Yes" <==> a.passed) && (r.passed == "No" <==> !a.passed)
  {
    if attempts == [] then None
    else Some(seq(|attempts|, i requires 0 <= i < |attempts| => RowOf(attempts[i])))
  }

  /** The export of a longer load is the export of its parts, one after the other. */
  lemma ExportRowsAppend(xs: seq<Attempt>, ys: seq<Attempt>)
    requires xs != [] && ys != []
    ensures ExportRows(xs + ys).value == ExportRows(xs).value + ExportRows(ys).value
  {
    var whole := ExportRows(xs + ys).value;
    var parts := ExportRows(xs).value + ExportRows(ys).value;
    assert |whole| == |parts|;
    forall i | 0 <= i < |whole|
      ensures whole[i] == parts[i]
    {
      if i < |xs| {
        assert (xs + ys)[i] == xs[i];
      } else {
        assert (xs + ys)[i] == ys[i - |xs|];
      }
    }
  }
}
