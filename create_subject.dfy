/** Creating a subject: the guard on the name and tutor, the insert of the
    trimmed name, and the de-duplicated `subjects_taught` union on the
    tutor's profile (src/components/create-subject.tsx). */
module CreateSubject {
  import opened Wrappers
  import Seqs
  import Strs

  datatype Subject = Subject(id: string, name: string)

  /** A `subjects` row. */
  datatype SubjectRow = SubjectRow(id: string, name: string, tutorId: string)

  /** A profile's `subjects_taught` as read: a list, or anything else
      (including a missing profile row). */
  datatype TaughtValue = TaughtList(items: seq<string>) | NotAList

  /** `Array.isArray(v) ? v : []` */
  function Current(v: TaughtValue): seq<string> {
    if v.TaughtList? then v.items else []
  }

  /** `Array.from(new Set([...current, name]))`: the distinct names in
      first-occurrence order. That is the distinct names of `current`,
      followed by the new name unless `current` already has it; so there
      are no duplicates, the name is in it, and every current name stays. */
  function UpdatedTaught(current: seq<string>, trimmed: string): (updated: seq<string>)
    ensures updated == Seqs.Dedup(current) + (if trimmed in current then [] else [trimmed])
    ensures Seqs.NoDuplicates(updated)
    ensures trimmed in updated
    ensures forall s :: s in current ==> s in updated
    ensures forall s :: s in updated ==> s in current || s == trimmed
  {
    var xs := current + [trimmed];
    assert xs[..|xs| - 1] == current;
    Seqs.Dedup(xs)
  }

  /** When the tutor's list is already free of duplicates and has the
      name, the profile is written back unchanged. */
  lemma KnownNameLeavesListAlone(current: seq<string>, trimmed: string)
    requires Seqs.NoDuplicates(current) && trimmed in current
    ensures UpdatedTaught(current, trimmed) == current
  {
    Seqs.DedupOfDistinct(current);
  }

  /** A new name goes to the end of a duplicate-free list. */
  lemma NewNameAppended(current: seq<string>, trimmed: string)
    requires Seqs.NoDuplicates(current) && trimmed !in current
    ensures UpdatedTaught(current, trimmed) == current + [trimmed]
  {
    Seqs.DedupOfDistinct(current);
  }

  /** `!name.trim() || !tutorId`: nothing happens (an empty id is falsy too). */
  predicate Ignored(name: string, tutorId: Option<string>) {
    Strs.IsBlank(name) || !Truthy(tutorId)
  }

  /** The `subjects` table. */
  class SubjectTable {
    var rows: seq<SubjectRow>

    constructor (rows0: seq<SubjectRow>)
      ensures rows == rows0
    {
      rows := rows0;
    }
  }

  /** The `subjects_taught` column of `profiles`, by profile id. */
  class ProfileTable {
    var taught: map<string, TaughtValue>

    constructor (taught0: map<string, TaughtValue>)
      ensures taught == taught0
    {
      taught := taught0;
    }
  }

  class Form {
    var name: string
    var tutorId: Option<string>
    var subjects: seq<Subject>

    constructor (tutorId0: Option<string>, subjects0: seq<Subject>)
      ensures name == "" && tutorId == tutorId0 && subjects == subjects0
    {
      name := "";
      tutorId := tutorId0;
      subjects := subjects0;
    }

    method SetName(value: string)
      modifies this
      ensures name == value && tutorId == old(tutorId) && subjects == old(subjects)
    {
      name := value;
    }

    /** `handleCreate`. `newId` is the id the insert returned, None when it
        failed (the error is thrown and alerted: nothing else happens). The
        profile update only writes a profile row that exists. */
    method HandleCreate(newId: Option<string>, table: SubjectTable, profiles: ProfileTable)
      returns (alerted: bool)
      modifies this, table, profiles
      ensures tutorId == old(tutorId)
      ensures Ignored(old(name), tutorId) ==>
        !alerted && name == old(name) && subjects == old(subjects)
        && table.rows == old(table.rows) && profiles.taught == old(profiles.taught)
      ensures !Ignored(old(name), tutorId) && newId.None? ==>
        alerted && name == old(name) && subjects == old(subjects)
        && table.rows == old(table.rows) && profiles.taught == old(profiles.taught)
      ensures !Ignored(old(name), tutorId) && newId.Some? ==>
        var trimmed := Strs.Trim(old(name));
        var tutor := tutorId.value;
        !alerted
        && table.rows == old(table.rows) + [SubjectRow(newId.value, trimmed, tutor)]
        && (tutor in old(profiles.taught) ==>
              profiles.taught == old(profiles.taught)[tutor := TaughtList(UpdatedTaught(Current(old(profiles.taught)[tutor]), trimmed))])
        && (tutor !in old(profiles.taught) ==> profiles.taught == old(profiles.taught))
        && subjects == old(subjects) + [Subject(newId.value, trimmed)]
        && name == ""
    {
      if Strs.IsBlank(name) || !Truthy(tutorId) {
        return false;
      }
      if newId.None? {
        return true;
      }
      var trimmed := Strs.Trim(name);
      var tutor := tutorId.value;
      table.rows := table.rows + [SubjectRow(newId.value, trimmed, tutor)];
      var profileRow := if tutor in profiles.taught then profiles.taught[tutor] else NotAList;
      var updated := UpdatedTaught(Current(profileRow), trimmed);
      if tutor in profiles.taught {
        profiles.taught := profiles.taught[tutor := TaughtList(updated)];
      }
      subjects := subjects + [Subject(newId.value, trimmed)];
      name := "";
      alerted := false;
    }
  }

  /** The inserted name is never blank and has no surrounding white space. */
  lemma InsertedNameTrimmed(name: string)
    requires !Strs.IsBlank(name)
    ensures var t := Strs.Trim(name);
      t != "" && !Strs.IsSpace(t[0]) && !Strs.IsSpace(t[|t| - 1]) && Strs.Trim(t) == t
  {
    Strs.TrimIdempotent(name);
  }
}
