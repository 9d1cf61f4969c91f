/** The scoreboard's CSV export: a fixed header line and one comma-joined
    line per attempt, lines joined by newlines, with no quoting
    (src/components/assessment/quiz-scoreboard.tsx). */
module QuizScoreboard {
  import opened Wrappers
  import Strs

  /** A loaded attempt. The numbers are given as the text `join` writes for
      them, and `date` as the locale date string of `completed_at`. */
  datatype Result = Result(fullName: Option<string>, email: Option<string>,
                           score: string, totalPoints: string, percentage: string,
                           passed: bool, date: string)

  const Headers: seq<string> :=
    ["Student Name", "Email", "Score", "Total Points", "Percentage", "Passed", "Date"]

  /** The seven cells of a result's line, in header order, with the
      `"Unknown"` and `"No Email"` fallbacks and `"Yes"`/`"No"` for passed. */
  function Cells(r: Result): (cells: seq<string>)
    ensures |cells| == |Headers|
  {
    [OrElse(r.fullName, "Unknown"), OrElse(r.email, "No Email"),
     r.score, r.totalPoints, r.percentage,
     if r.passed then "Yes" else "No", r.date]
  }

  /** The header line followed by one line per result. */
  function Lines(results: seq<Result>): (lines: seq<string>)
    ensures |lines| == |results| + 1
  {
    [Strs.Join(Headers, ',')] + seq(|results|, i requires 0 <= i < |results| => Strs.Join(Cells(results[i]), ','))
  }

  /** `exportToCSV`: nothing without results, else the file's text. */
  function ExportToCsv(results: seq<Result>): (csv: Option<string>)
    ensures csv.None? <==> results == []
  {
    if results == [] then None else Some(Strs.Join(Lines(results), '\n'))
  }

  /** A cell the format can carry: no comma and no newline. */
  predicate Plain(s: string) {
    ',' !in s && '\n' !in s
  }

  predicate PlainResult(r: Result) {
    (r.fullName.Some? ==> Plain(r.fullName.value)) && (r.email.Some? ==> Plain(r.email.value))
    && Plain(r.score) && Plain(r.totalPoints) && Plain(r.percentage) && Plain(r.date)
  }

  lemma PlainCells(r: Result)
    requires PlainResult(r)
    ensures forall k :: 0 <= k < |Cells(r)| ==> Plain(Cells(r)[k])
  {
    var cells := Cells(r);
    assert Plain("Unknown") && Plain("No Email") && Plain("Yes") && Plain("No");
  }

  /** The header line holds no newline and splits back into the header names. */
  lemma HeaderLine()
    ensures '\n' !in Strs.Join(Headers, ',')
    ensures Strs.Split(Strs.Join(Headers, ','), ',') == Headers
  {
    assert forall k :: 0 <= k < |Headers| ==> Plain(Headers[k]);
    Strs.JoinChars(Headers, ',', '\n');
    Strs.SplitJoin(Headers, ',');
  }

  /** A result's line holds no newline and splits back into its cells. */
  lemma ResultLine(r: Result)
    requires PlainResult(r)
    ensures '\n' !in Strs.Join(Cells(r), ',')
    ensures Strs.Split(Strs.Join(Cells(r), ','), ',') == Cells(r)
  {
    PlainCells(r);
    Strs.JoinChars(Cells(r), ',', '\n');
    Strs.SplitJoin(Cells(r), ',');
  }

  /** Reading the file back: splitting on newlines gives the header line and
      one line per result, and each line splits on commas into the header
      names and the result's seven cells, provided no field holds a comma or
      a newline. */
  lemma ExportRoundTrip(results: seq<Result>)
    requires results != []
    requires forall i :: 0 <= i < |results| ==> PlainResult(results[i])
    ensures var lines := Strs.Split(ExportToCsv(results).value, '\n');
      |lines| == |results| + 1
      && Strs.Split(lines[0], ',') == Headers
      && forall i :: 0 <= i < |results| ==> Strs.Split(lines[i + 1], ',') == Cells(results[i])
  {
    var lines := Lines(results);
    HeaderLine();
    forall k | 0 <= k < |lines|
      ensures '\n' !in lines[k]
      ensures k > 0 ==> Strs.Split(lines[k], ',') == Cells(results[k - 1])
    {
      if k > 0 {
        ResultLine(results[k - 1]);
      }
    }
    Strs.SplitJoin(lines, '\n');
  }

  /** Without quoting, a comma inside a name splits it into two columns and
      every later cell moves one column to the right: the line reads back as
      eight cells whose second is the rest of the name. */
  lemma CommaInNameShiftsColumns(r: Result, first: string, rest: string)
    requires r.fullName == Some(first + "," + rest)
    requires Plain(first) && Plain(rest)
    requires PlainResult(r.(fullName := None))
    ensures var cells := Strs.Split(Strs.Join(Cells(r), ','), ',');
      |cells| == |Headers| + 1 && cells[0] == first && cells[1] == rest
  {
    var cells := Cells(r);
    assert cells[0] == first + [','] + rest;
    var tail := [rest] + cells[1..];
    PlainCells(r.(fullName := None));
    assert Cells(r.(fullName := None))[1..] == cells[1..];
    assert forall k :: 0 <= k < |tail| ==> ',' !in tail[k];
    Strs.SplitJoin(tail, ',');
    assert Strs.Join(cells, ',') == first + [','] + Strs.Join(tail, ',') by {
      assert cells[1..] == tail[1..];
    }
    Strs.SplitPiece(first, ',', Strs.Join(tail, ','));
  }
}
