/** The subject viewer: the grade levels its content query accepts, how
    the stored content becomes HTML, and the once-only view record
    (src/components/subject-viewer.tsx). */
module SubjectViewer {
  import opened Wrappers
  import Seqs
  import Strs

  /** The stored `content` column as the viewer reads it: older rows hold
      the HTML as a string, newer ones an object with an `html` field;
      a missing row or any other value is OtherContent. */
  datatype Content = StringContent(s: string) | ObjectContent(html: Option<string>) | OtherContent

  /** A `subject_content` row. */
  datatype ContentRow = ContentRow(subjectId: string, tutorId: string, gradeLevel: string, content: Content)

  /** A `subject_views` row. */
  datatype ViewRow = ViewRow(studentId: string, subjectId: string, tutorId: string)

  const GradePrefix: string := "Grade "
  const Unspecified: string := "unspecified"

  /** The `grade_level` values the query accepts: the grade as given, the
      grade with its first `"Grade "` removed, and `"unspecified"`. */
  function GradeCandidates(gradeLevel: string): (c: seq<string>)
    ensures |c| == 3 && c[0] == gradeLevel && c[2] == Unspecified
  {
    [gradeLevel, Strs.ReplaceFirst(gradeLevel, GradePrefix, ""), Unspecified]
  }

  /** A grade written as `"Grade " + n` is also looked up as plain `n`;
      only that first prefix goes (so `"Grade Grade 5"` gives `"Grade 5"`). */
  lemma GradePrefixStripped(n: string)
    ensures GradeCandidates(GradePrefix + n)[1] == n
  {
    var g := GradePrefix + n;
    assert Strs.OccursAt(g, GradePrefix, 0) by {
      assert g[0..|GradePrefix|] == GradePrefix;
    }
    assert g[|GradePrefix|..] == n;
  }

  /** A grade without `"Grade "` in it is looked up once: the first two candidates agree. */
  lemma GradeWithoutPrefix(g: string)
    requires forall k :: 0 <= k <= |g| ==> !Strs.OccursAt(g, GradePrefix, k)
    ensures GradeCandidates(g)[1] == g
  {
  }

  /** The rows the content query selects: the subject's and the tutor's,
      with a grade among the candidates. */
  function Selected(rows: seq<ContentRow>, subjectId: string, tutorId: string, gradeLevel: string)
    : (r: seq<ContentRow>)
    ensures forall row :: row in r <==>
      row in rows && row.subjectId == subjectId && row.tutorId == tutorId
      && row.gradeLevel in GradeCandidates(gradeLevel)
  {
    Seqs.Filter((row: ContentRow) => row.subjectId == subjectId && row.tutorId == tutorId
                                     && row.gradeLevel in GradeCandidates(gradeLevel), rows)
  }

  /** `.maybeSingle()` on the selection: an error (None) when more than one
      row matches, no row read as OtherContent (`data?.content` is then
      undefined), otherwise the content of the one selected row. */
  function QueryContent(rows: seq<ContentRow>, subjectId: string, tutorId: string, gradeLevel: string)
    : (r: Option<Content>)
    ensures r.None? <==> |Selected(rows, subjectId, tutorId, gradeLevel)| > 1
    ensures Selected(rows, subjectId, tutorId, gradeLevel) == [] ==> r == Some(OtherContent)
    ensures r.Some? && Selected(rows, subjectId, tutorId, gradeLevel) != [] ==>
      exists row :: row in rows && row.subjectId == subjectId && row.tutorId == tutorId
                    && row.gradeLevel in GradeCandidates(gradeLevel) && row.content == r.value
  {
    var sel := Selected(rows, subjectId, tutorId, gradeLevel);
    if |sel| > 1 then None
    else if sel == [] then Some(OtherContent)
    else
      assert sel[0] in sel;
      Some(sel[0].content)
  }

  /** A row of a grade outside the candidates never changes what the query
      returns. */
  lemma OtherGradeIgnored(rows: seq<ContentRow>, row: ContentRow, subjectId: string, tutorId: string,
                          gradeLevel: string)
    requires row.gradeLevel !in GradeCandidates(gradeLevel)
    ensures QueryContent(rows + [row], subjectId, tutorId, gradeLevel) == QueryContent(rows, subjectId, tutorId, gradeLevel)
  {
    Seqs.FilterSnoc((r: ContentRow) => r.subjectId == subjectId && r.tutorId == tutorId
                                       && r.gradeLevel in GradeCandidates(gradeLevel), rows, row);
  }

  /** The HTML taken from the stored content: a string as it is, an
      object's truthy `html`, otherwise the empty string. */
  function ExtractHtml(raw: Content): (html: string)
    ensures raw.StringContent? ==> html == raw.s
    ensures raw.ObjectContent? && Truthy(raw.html) ==> html == raw.html.value
    ensures !raw.StringContent? && !(raw.ObjectContent? && Truthy(raw.html)) ==> html == ""
  {
    match raw
    case StringContent(s) => s
    case ObjectContent(h) => if Truthy(h) then h.value else ""
    case OtherContent => ""
  }

  /** "No content available yet." is shown instead of the HTML exactly when it is empty. */
  predicate ShowsPlaceholder(html: string) {
    html == ""
  }

  /** The placeholder appears exactly when the row holds no usable HTML: an
      empty string, an object without a truthy `html`, or nothing at all. */
  lemma PlaceholderIffNoHtml(raw: Content)
    ensures ShowsPlaceholder(ExtractHtml(raw)) <==>
      raw == StringContent("") || (raw.ObjectContent? && !Truthy(raw.html)) || raw.OtherContent?
  {
  }

  /** The content is fetched, and a view tracked, only with both ids non-empty. */
  predicate ShouldFetch(subjectId: string, tutorId: string) {
    subjectId != "" && tutorId != ""
  }

  /** The `subject_views` table. */
  class ViewTable {
    var rows: seq<ViewRow>

    constructor ()
      ensures rows == []
    {
      rows := [];
    }
  }

  class Viewer {
    const subjectId: string
    const tutorId: string
    const gradeLevel: string
    var html: string
    var hasTrackedView: bool
    /** How many views this instance has recorded. */
    ghost var recorded: nat

    /** At most one view, and exactly one once the flag is set. */
    ghost predicate Valid()
      reads this
    {
      recorded == (if hasTrackedView then 1 else 0)
    }

    constructor (subjectId0: string, tutorId0: string, gradeLevel0: string)
      ensures Valid()
      ensures subjectId == subjectId0 && tutorId == tutorId0 && gradeLevel == gradeLevel0
      ensures html == "" && !hasTrackedView && recorded == 0
    {
      subjectId := subjectId0;
      tutorId := tutorId0;
      gradeLevel := gradeLevel0;
      html := "";
      hasTrackedView := false;
      recorded := 0;
    }

    /** The content effect over the `subject_content` rows. `queryOk` says
        whether the request itself went through; a failed request, or more
        than one selected row, is an error and leaves the HTML as it was. */
    method FetchContent(rows: seq<ContentRow>, queryOk: bool)
      modifies this
      ensures hasTrackedView == old(hasTrackedView) && recorded == old(recorded)
      ensures var response := QueryContent(rows, subjectId, tutorId, gradeLevel);
        ShouldFetch(subjectId, tutorId) && queryOk && response.Some? ==> html == ExtractHtml(response.value)
      ensures var response := QueryContent(rows, subjectId, tutorId, gradeLevel);
        !(ShouldFetch(subjectId, tutorId) && queryOk && response.Some?) ==> html == old(html)
    {
      if !ShouldFetch(subjectId, tutorId) {
        return;
      }
      var response := if queryOk then QueryContent(rows, subjectId, tutorId, gradeLevel) else None;
      if response.None? {
        return;
      }
      html := ExtractHtml(response.value);
    }

    /** The view effect: checks the flag first, then needs a signed-in
        user, sets the flag, and inserts one view. */
    method TrackView(user: Option<string>, views: ViewTable) returns (inserted: bool)
      requires Valid()
      modifies this, views
      ensures Valid()
      ensures html == old(html)
      ensures inserted <==> ShouldFetch(subjectId, tutorId) && !old(hasTrackedView) && user.Some?
      ensures inserted ==> hasTrackedView && views.rows == old(views.rows) + [ViewRow(user.value, subjectId, tutorId)]
      ensures !inserted ==> hasTrackedView == old(hasTrackedView) && views.rows == old(views.rows)
      ensures recorded <= 1
    {
      if !ShouldFetch(subjectId, tutorId) || hasTrackedView {
        return false;
      }
      if user.None? {
        return false;
      }
      hasTrackedView := true;
      views.rows := views.rows + [ViewRow(user.value, subjectId, tutorId)];
      recorded := recorded + 1;
      inserted := true;
    }
  }
}
