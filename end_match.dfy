/** Ending a match, refused while an unexpired tutor extension exists for
    the same student, subject and grade (src/hooks/end-match.tsx). */
module EndMatch {
  import opened Wrappers

  /** A `tutor_extensions` row; `expiresAt` is the expiry instant. */
  datatype Extension = Extension(id: string, studentId: string, subjectId: string,
                                 gradeLevel: string, expiresAt: int, status: string)

  /** The status `endMatch` writes. */
  const Ended: string := "ended"

  datatype EndOutcome = Blocked | Updated

  /** Matches the extension query: same student, subject and grade, and
      expiring strictly after `now`; the status is not consulted. */
  predicate Blocks(e: Extension, studentId: string, subjectId: string, gradeLevel: string, now: int) {
    e.studentId == studentId && e.subjectId == subjectId && e.gradeLevel == gradeLevel && e.expiresAt > now
  }

  /** The extension query: the first matching row, if any. */
  function FindBlocking(exts: seq<Extension>, studentId: string, subjectId: string, gradeLevel: string, now: int)
    : (found: Option<Extension>)
    ensures found.None? <==> forall i :: 0 <= i < |exts| ==> !Blocks(exts[i], studentId, subjectId, gradeLevel, now)
    ensures found.Some? ==> found.value in exts && Blocks(found.value, studentId, subjectId, gradeLevel, now)
  {
    if exts == [] then None
    else if Blocks(exts[0], studentId, subjectId, gradeLevel, now) then Some(exts[0])
    else
      var rest := FindBlocking(exts[1..], studentId, subjectId, gradeLevel, now);
      assert forall i :: 1 <= i < |exts| ==> exts[i] == exts[1..][i - 1];
      rest
  }

  /** The extensions with every status replaced by `status`. */
  function WithStatus(exts: seq<Extension>, status: string): seq<Extension> {
    seq(|exts|, i requires 0 <= i < |exts| => exts[i].(status := status))
  }

  /** Whether a match may end does not depend on the extensions' statuses:
      with every status set to the same value (pending, declined or any
      other), the same matches are blocked. */
  lemma StatusIgnored(exts: seq<Extension>, status: string, studentId: string, subjectId: string,
                      gradeLevel: string, now: int)
    ensures FindBlocking(WithStatus(exts, status), studentId, subjectId, gradeLevel, now).Some?
        <==> FindBlocking(exts, studentId, subjectId, gradeLevel, now).Some?
  {
    var changed := WithStatus(exts, status);
    forall i | 0 <= i < |exts|
      ensures Blocks(changed[i], studentId, subjectId, gradeLevel, now) <==> Blocks(exts[i], studentId, subjectId, gradeLevel, now)
    {
    }
  }

  /** An extension that expires at `now` no longer blocks. */
  lemma ExpiredDoesNotBlock(exts: seq<Extension>, studentId: string, subjectId: string, gradeLevel: string, now: int)
    requires forall i :: 0 <= i < |exts| ==> exts[i].expiresAt <= now
    ensures FindBlocking(exts, studentId, subjectId, gradeLevel, now).None?
  {
  }

  /** The `status` column of `matches`, by match id. */
  class MatchTable {
    var status: map<string, string>

    constructor (status0: map<string, string>)
      ensures status == status0
    {
      status := status0;
    }
  }

  /** `endMatch`: throws (Blocked) without touching the matches when an
      extension blocks; otherwise writes `"ended"` to the row with
      `matchId`, if there is one, and to no other row. `extensions` is the
      `tutor_extensions` table and `now` the current instant. */
  method EndMatch(matchId: string, studentId: string, subjectId: string, gradeLevel: string,
                  now: int, extensions: seq<Extension>, matches: MatchTable)
    returns (outcome: EndOutcome)
    modifies matches
    ensures outcome == Blocked <==> exists i :: 0 <= i < |extensions| && Blocks(extensions[i], studentId, subjectId, gradeLevel, now)
    ensures outcome == Blocked ==> matches.status == old(matches.status)
    ensures outcome == Updated ==> matches.status.Keys == old(matches.status).Keys
    ensures outcome == Updated ==> matchId in old(matches.status) ==> matches.status[matchId] == Ended
    ensures forall id :: id in old(matches.status) && id != matchId ==> matches.status[id] == old(matches.status)[id]
  {
    var extension := FindBlocking(extensions, studentId, subjectId, gradeLevel, now);
    if extension.Some? {
      return Blocked;
    }
    if matchId in matches.status {
      matches.status := matches.status[matchId := Ended];
    }
    outcome := Updated;
  }
}
