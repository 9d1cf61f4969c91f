/** The quizzes tab of a subject: what students see, and the tutor's publish
    toggle and bulk publish over the `quizzes` table, each followed by a
    reload of the list (src/components/assessment/subject-quizzes-tab.tsx). */
module SubjectQuizzesTab {
  import opened Wrappers
  import Seqs

  /** A `quizzes` row, as far as the tab reads and writes it. */
  datatype Quiz = Quiz(id: string, subjectId: string, title: string, isPublished: bool)

  /** The `quizzes` table, its rows already in the tab's order (newest
      `created_at` first). */
  class QuizTable {
    var rows: seq<Quiz>

    constructor (rows0: seq<Quiz>)
      ensures rows == rows0
    {
      rows := rows0;
    }
  }

  predicate IsPublished(q: Quiz) {
    q.isPublished
  }

  /** The quizzes the tab lists: all of them for a tutor, only the published
      ones for anyone else. */
  function Visible(rows: seq<Quiz>, isTutor: bool): (r: seq<Quiz>)
    ensures isTutor ==> r == rows
    ensures !isTutor ==> forall q :: q in r <==> q in rows && q.isPublished
  {
    if isTutor then rows else Seqs.Filter(IsPublished, rows)
  }

  /** `fetchQuizzes`: the subject's quizzes, then only the published ones
      unless the viewer is the tutor. */
  function Fetch(rows: seq<Quiz>, subjectId: string, isTutor: bool): (r: seq<Quiz>)
    ensures forall q :: q in r <==> q in rows && q.subjectId == subjectId && (isTutor || q.isPublished)
  {
    Visible(Seqs.Filter((q: Quiz) => q.subjectId == subjectId, rows), isTutor)
  }

  /** `quizzes.filter(q => !q.is_published).map(q => q.id)` */
  function DraftIds(quizzes: seq<Quiz>): (ids: seq<string>)
    ensures |ids| <= |quizzes|
    ensures forall id :: id in ids <==> exists q :: q in quizzes && !q.isPublished && q.id == id
  {
    if quizzes == [] then []
    else
      var rest := DraftIds(quizzes[1..]);
      assert forall q :: q in quizzes <==> q == quizzes[0] || q in quizzes[1..];
      (if quizzes[0].isPublished then [] else [quizzes[0].id]) + rest
  }

  /** The draft ids keep the list order. */
  lemma {:induction false} DraftIdsAppend(xs: seq<Quiz>, ys: seq<Quiz>)
    ensures DraftIds(xs + ys) == DraftIds(xs) + DraftIds(ys)
  {
    if xs == [] {
      assert xs + ys == ys;
    } else {
      assert (xs + ys)[0] == xs[0];
      assert (xs + ys)[1..] == xs[1..] + ys;
      DraftIdsAppend(xs[1..], ys);
    }
  }

  /** A list of published quizzes has no drafts. */
  lemma {:induction false} NoDraftsWhenAllPublished(quizzes: seq<Quiz>)
    requires forall i :: 0 <= i < |quizzes| ==> quizzes[i].isPublished
    ensures DraftIds(quizzes) == []
  {
    if quizzes != [] {
      NoDraftsWhenAllPublished(quizzes[1..]);
    }
  }

  /** `.update({ is_published: v }).eq("id", id)`: the rows with that id get
      the flag; nothing else in the table changes. */
  function SetFlag(rows: seq<Quiz>, id: string, v: bool): (r: seq<Quiz>)
    ensures |r| == |rows|
    ensures forall i :: 0 <= i < |rows| && rows[i].id != id ==> r[i] == rows[i]
    ensures forall i :: 0 <= i < |rows| && rows[i].id == id ==> r[i] == rows[i].(isPublished := v)
  {
    if rows == [] then []
    else [if rows[0].id == id then rows[0].(isPublished := v) else rows[0]] + SetFlag(rows[1..], id, v)
  }

  /** `.update({ is_published: true }).in("id", ids)`: the listed rows become
      published; nothing else in the table changes. */
  function PublishAll(rows: seq<Quiz>, ids: seq<string>): (r: seq<Quiz>)
    ensures |r| == |rows|
    ensures forall i :: 0 <= i < |rows| && rows[i].id !in ids ==> r[i] == rows[i]
    ensures forall i :: 0 <= i < |rows| && rows[i].id in ids ==> r[i] == rows[i].(isPublished := true)
  {
    if rows == [] then []
    else [if rows[0].id in ids then rows[0].(isPublished := true) else rows[0]] + PublishAll(rows[1..], ids)
  }

  /** After a quiz is unpublished, the reloaded list of a student no longer
      shows it. */
  lemma UnpublishedHiddenFromStudents(rows: seq<Quiz>, subjectId: string, id: string)
    ensures forall q :: q in Fetch(SetFlag(rows, id, false), subjectId, false) ==> q.id != id
  {
    var after := SetFlag(rows, id, false);
    forall q | q in Fetch(after, subjectId, false)
      ensures q.id != id
    {
      var i :| 0 <= i < |after| && after[i] == q;
      assert after[i].isPublished && after[i].id == rows[i].id;
    }
  }

  /** After a bulk publish of the drafts the tutor was shown, the tutor's
      reloaded list has no drafts left: a row that was a draft was listed,
      so its id was in the update. */
  lemma BulkPublishLeavesNoDrafts(rows: seq<Quiz>, subjectId: string)
    ensures DraftIds(Fetch(PublishAll(rows, DraftIds(Fetch(rows, subjectId, true))), subjectId, true)) == []
  {
    var shown := Fetch(rows, subjectId, true);
    var ids := DraftIds(shown);
    var after := PublishAll(rows, ids);
    var reloaded := Fetch(after, subjectId, true);
    forall k | 0 <= k < |reloaded|
      ensures reloaded[k].isPublished
    {
      assert reloaded[k] in reloaded;
      var i :| 0 <= i < |after| && after[i] == reloaded[k];
      if !rows[i].isPublished {
        assert rows[i] in shown;
        assert rows[i].id in ids;
      }
    }
    NoDraftsWhenAllPublished(reloaded);
  }

  class Tab {
    const subjectId: string
    const isTutor: bool
    var quizzes: seq<Quiz>

    constructor (subjectId0: string, isTutor0: bool)
      ensures subjectId == subjectId0 && isTutor == isTutor0 && quizzes == []
    {
      subjectId := subjectId0;
      isTutor := isTutor0;
      quizzes := [];
    }

    /** `fetchQuizzes`, run on mount and after every successful update;
        `queryOk` says whether the query returned data (`data || []` makes a
        failed query an empty list). */
    method Load(table: QuizTable, queryOk: bool)
      modifies this
      ensures quizzes == (if queryOk then Fetch(table.rows, subjectId, isTutor) else [])
    {
      quizzes := if queryOk then Fetch(table.rows, subjectId, isTutor) else [];
    }

    /** `togglePublish(quizId, currentStatus)`: after confirmation writes the
        negation of the flag the tab showed, for that id only, and reloads
        the list. `confirmed` is the answer to the dialog; `updateOk` says
        whether the update succeeded (a failed one is only alerted), and
        `reloadOk` whether the reload's query returned data. */
    method TogglePublish(table: QuizTable, quizId: string, currentStatus: bool,
                         confirmed: bool, updateOk: bool, reloadOk: bool)
      returns (updateIssued: bool)
      modifies this, table
      ensures updateIssued <==> confirmed
      ensures confirmed && updateOk ==>
        table.rows == SetFlag(old(table.rows), quizId, !currentStatus)
        && quizzes == (if reloadOk then Fetch(table.rows, subjectId, isTutor) else [])
      ensures !(confirmed && updateOk) ==> table.rows == old(table.rows) && quizzes == old(quizzes)
    {
      if !confirmed {
        return false;
      }
      updateIssued := true;
      if updateOk {
        table.rows := SetFlag(table.rows, quizId, !currentStatus);
        Load(table, reloadOk);
      }
    }

    /** `bulkPublishAll`: after confirmation publishes the drafts of the
        current list in one update and reloads the list; with no drafts no
        update is issued. Returns the id list the update was issued with;
        `reloadOk` says whether the reload's query returned data. */
    method BulkPublishAll(table: QuizTable, confirmed: bool, updateOk: bool, reloadOk: bool)
      returns (updateIssued: Option<seq<string>>)
      modifies this, table
      ensures !confirmed ==> updateIssued.None?
      ensures confirmed && DraftIds(old(quizzes)) == [] ==> updateIssued.None?
      ensures confirmed && DraftIds(old(quizzes)) != [] ==> updateIssued == Some(DraftIds(old(quizzes)))
      ensures updateIssued.Some? && updateOk ==>
        table.rows == PublishAll(old(table.rows), DraftIds(old(quizzes)))
        && quizzes == (if reloadOk then Fetch(table.rows, subjectId, isTutor) else [])
      ensures !(updateIssued.Some? && updateOk) ==> table.rows == old(table.rows) && quizzes == old(quizzes)
    {
      if !confirmed {
        return None;
      }
      var draftIds := DraftIds(quizzes);
      if draftIds == [] {
        return None;
      }
      updateIssued := Some(draftIds);
      if updateOk {
        table.rows := PublishAll(table.rows, draftIds);
        Load(table, reloadOk);
      }
    }
  }
}
