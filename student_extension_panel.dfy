/** The student's panel of pending tutor extensions, and the answer that
    settles one (src/components/student-extension-panel.tsx). */
module StudentExtensionPanel {
  import Seqs

  /** A `tutor_extensions` row, as far as the panel reads it. */
  datatype Extension = Extension(id: string, studentId: string, status: string, reason: string)

  const Pending: string := "pending"
  const Accepted: string := "accepted"
  const Declined: string := "declined"

  /** The panel's query: the student's extensions whose status is pending, in table order. */
  function PendingFor(rows: seq<Extension>, studentId: string): (r: seq<Extension>)
    ensures forall e :: e in r <==> e in rows && e.studentId == studentId && e.status == Pending
  {
    Seqs.Filter((e: Extension) => e.studentId == studentId && e.status == Pending, rows)
  }

  /** The status `respond` writes. */
  function Answer(accepted: bool): (status: string)
    ensures status != Pending
    ensures status == Accepted <==> accepted
  {
    if accepted then Accepted else Declined
  }

  /** `.update({ status }).eq("id", id)`: every row with that id gets the
      status, the rest are untouched. */
  function SetStatus(rows: seq<Extension>, id: string, status: string): (r: seq<Extension>)
    ensures |r| == |rows|
    ensures forall i :: 0 <= i < |rows| ==> r[i] == if rows[i].id == id then rows[i].(status := status) else rows[i]
  {
    if rows == [] then []
    else [if rows[0].id == id then rows[0].(status := status) else rows[0]] + SetStatus(rows[1..], id, status)
  }

  /** `e.filter(x => x.id !== id)` */
  function WithoutId(exts: seq<Extension>, id: string): (r: seq<Extension>)
    ensures forall e :: e in r <==> e in exts && e.id != id
  {
    Seqs.Filter((e: Extension) => e.id != id, exts)
  }

  /** Dropping the answered id locally agrees with loading the pending list
      again after the update: the answered extension is no longer pending,
      and the others are listed as before, in the same order. */
  lemma {:induction false} RespondMatchesReload(rows: seq<Extension>, studentId: string, id: string, accepted: bool)
    ensures PendingFor(SetStatus(rows, id, Answer(accepted)), studentId) == WithoutId(PendingFor(rows, studentId), id)
  {
    if rows != [] {
      RespondMatchesReload(rows[1..], studentId, id, accepted);
      var st := Answer(accepted);
      var r0 := rows[0];
      var after := SetStatus(rows, id, st);
      assert after[1..] == SetStatus(rows[1..], id, st);
      var keep := (e: Extension) => e.studentId == studentId && e.status == Pending;
      var drop := (e: Extension) => e.id != id;
      assert PendingFor(rows, studentId) == (if keep(r0) then [r0] else []) + PendingFor(rows[1..], studentId);
      Seqs.FilterAppend(drop, if keep(r0) then [r0] else [], PendingFor(rows[1..], studentId));
    }
  }

  /** The `tutor_extensions` table. */
  class ExtensionTable {
    var rows: seq<Extension>

    constructor (rows0: seq<Extension>)
      ensures rows == rows0
    {
      rows := rows0;
    }
  }

  class Panel {
    const studentId: string
    var extensions: seq<Extension>

    constructor (studentId0: string)
      ensures studentId == studentId0 && extensions == []
    {
      studentId := studentId0;
      extensions := [];
    }

    /** The load effect; a failed query (no data) gives an empty list. */
    method Load(table: ExtensionTable, queryOk: bool)
      modifies this
      ensures extensions == (if queryOk then PendingFor(table.rows, studentId) else [])
    {
      extensions := if queryOk then PendingFor(table.rows, studentId) else [];
    }

    /** `respond(id, accepted)`: the update's error is not looked at, so the
        extension leaves the list whether or not `updateOk`. */
    method Respond(id: string, accepted: bool, table: ExtensionTable, updateOk: bool)
      modifies this, table
      ensures updateOk ==> table.rows == SetStatus(old(table.rows), id, Answer(accepted))
      ensures !updateOk ==> table.rows == old(table.rows)
      ensures extensions == WithoutId(old(extensions), id)
      ensures forall k :: 0 <= k < |extensions| ==> extensions[k].id != id
    {
      if updateOk {
        table.rows := SetStatus(table.rows, id, Answer(accepted));
      }
      extensions := WithoutId(extensions, id);
    }

    /** The panel renders nothing exactly when the list is empty. */
    predicate RendersNothing()
      reads this
    {
      extensions == []
    }
  }
}
