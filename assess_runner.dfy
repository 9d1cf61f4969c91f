/** The assessment runner: scoring a submitted survey and normalising a
    stored schema into the survey the student is shown
    (src/components/assessment/assess-runner.tsx). */
module AssessRunner {
  import opened Wrappers
  import Seqs

  /** A question in the legacy `questions` format. `correct` is None when
      the answer key is undefined; an image is shown only when truthy. */
  datatype Question = Question(id: string, prompt: string, image: Option<string>,
                               options: seq<string>, correct: Option<string>)

  /** A survey element. Html elements carry no answer key. */
  datatype Element =
    | Html(name: string, html: string)
    | RadioGroup(name: string, title: string, choices: seq<string>, correctAnswer: Option<string>)
    | OtherElement(name: string, correctAnswer: Option<string>)
  {
    function Name(): string {
      match this
      case Html(n, _) => n
      case RadioGroup(n, _, _, _) => n
      case OtherElement(n, _) => n
    }

    function AnswerKey(): Option<string> {
      match this
      case Html(_, _) => None
      case RadioGroup(_, _, _, c) => c
      case OtherElement(_, c) => c
    }
  }

  /** A survey page; `elements` may be missing. */
  datatype Page = Page(name: Option<string>, elements: Option<seq<Element>>)

  /** A stored schema: any of the three formats may be present. */
  datatype Schema = Schema(questions: Option<seq<Question>>, pages: Option<seq<Page>>,
                           elements: Option<seq<Element>>)

  /** The survey's answers, by question name. */
  type Answers = map<string, string>

  datatype Tally = Tally(correct: nat, total: nat)

  /** The row inserted into `assessment_attempts`. */
  datatype AttemptRow = AttemptRow(assessmentId: string, studentId: string,
                                   score: nat, percentage: real, passed: bool)

  const DefaultPassingScore: real := 70.0

  // ---------------------------------------------------------------------
  // Scoring, as folds over the inputs in the order `forEach` visits them.
  // ---------------------------------------------------------------------

  /** `answers[key] === expected` (a missing key reads as undefined). */
  predicate Matches(answers: Answers, key: string, expected: string) {
    key in answers && answers[key] == expected
  }

  function QuestionStep(t: Tally, q: Question, answers: Answers): Tally {
    if q.correct.Some? then
      Tally(if Matches(answers, q.id, q.correct.value) then t.correct + 1 else t.correct, t.total + 1)
    else t
  }

  function ElementStep(t: Tally, e: Element, answers: Answers): Tally {
    if e.AnswerKey().Some? then
      Tally(if Matches(answers, e.Name(), e.AnswerKey().value) then t.correct + 1 else t.correct, t.total + 1)
    else t
  }

  predicate HasAnswerKey(q: Question) {
    q.correct.Some?
  }

  /** The tally of the legacy format: `total` counts the questions with an
      answer key, `correct` those answered with it. */
  function QuestionTally(qs: seq<Question>, answers: Answers): (t: Tally)
    ensures t.correct <= t.total == |Seqs.Filter(HasAnswerKey, qs)|
  {
    if qs == [] then Tally(0, 0)
    else
      var init := qs[..|qs| - 1];
      assert qs == init + [qs[|qs| - 1]];
      Seqs.FilterSnoc(HasAnswerKey, init, qs[|qs| - 1]);
      QuestionStep(QuestionTally(init, answers), qs[|qs| - 1], answers)
  }

  /** Folds the elements of one page into the running tally `acc`. */
  function ElementFold(acc: Tally, es: seq<Element>, answers: Answers): (t: Tally)
    ensures t.correct - acc.correct <= t.total - acc.total
    ensures acc.total <= t.total <= acc.total + |es|
    ensures acc.correct <= t.correct
  {
    if es == [] then acc
    else ElementStep(ElementFold(acc, es[..|es| - 1], answers), es[|es| - 1], answers)
  }

  /** The tally of the page format; a page without elements adds nothing. */
  function PageTally(ps: seq<Page>, answers: Answers): (t: Tally)
    ensures t.correct <= t.total
  {
    if ps == [] then Tally(0, 0)
    else
      var acc := PageTally(ps[..|ps| - 1], answers);
      match ps[|ps| - 1].elements
      case None => acc
      case Some(es) => ElementFold(acc, es, answers)
  }

  /** `schema?.pages ?? [{ elements: schema?.elements ?? [] }]` */
  function ScoringPages(schema: Option<Schema>): seq<Page> {
    if schema.Some? && schema.value.pages.Some? then schema.value.pages.value
    else [Page(None, Some(if schema.Some? then schema.value.elements.GetOr([]) else []))]
  }

  predicate UsesQuestions(schema: Option<Schema>) {
    schema.Some? && schema.value.questions.Some?
  }

  /** The tally `submitAttempt` computes: the legacy `questions` whenever
      present, otherwise the pages. */
  function Score(schema: Option<Schema>, answers: Answers): (t: Tally)
    ensures t.correct <= t.total
  {
    if UsesQuestions(schema) then QuestionTally(schema.value.questions.value, answers)
    else PageTally(ScoringPages(schema), answers)
  }

  /** `total > 0 ? (correct / total) * 100 : 0`, without floating point. */
  function Percentage(t: Tally): (p: real)
    requires t.correct <= t.total
    ensures 0.0 <= p <= 100.0
    ensures t.total == 0 ==> p == 0.0
    ensures t.total > 0 ==> p * (t.total as real) == (t.correct as real) * 100.0
    ensures p == 100.0 <==> 0 < t.total == t.correct
  {
    if t.total > 0 then
      var p := (t.correct as real / t.total as real) * 100.0;
      assert p * (t.total as real) == (t.correct as real) * 100.0;
      p
    else 0.0
  }

  /** The `passingScore` prop: 70 when undefined. */
  function PassingScore(passingScore: Option<real>): real {
    passingScore.GetOr(DefaultPassingScore)
  }

  /** The legacy-format `forEach`. */
  method TallyQuestions(qs: seq<Question>, answers: Answers) returns (correct: nat, total: nat)
    ensures Tally(correct, total) == QuestionTally(qs, answers)
  {
    correct, total := 0, 0;
    for i := 0 to |qs|
      invariant Tally(correct, total) == QuestionTally(qs[..i], answers)
    {
      assert qs[..i + 1][..i] == qs[..i];
      if qs[i].correct.Some? {
        total := total + 1;
        if qs[i].id in answers && answers[qs[i].id] == qs[i].correct.value {
          correct := correct + 1;
        }
      }
    }
    assert qs[..|qs|] == qs;
  }

  /** The inner `page.elements?.forEach`, continuing the running counters. */
  method TallyElements(es: seq<Element>, answers: Answers, correct0: nat, total0: nat)
    returns (correct: nat, total: nat)
    ensures Tally(correct, total) == ElementFold(Tally(correct0, total0), es, answers)
  {
    correct, total := correct0, total0;
    for e := 0 to |es|
      invariant Tally(correct, total) == ElementFold(Tally(correct0, total0), es[..e], answers)
    {
      assert es[..e + 1][..e] == es[..e];
      var key := es[e].AnswerKey();
      if key.Some? {
        total := total + 1;
        if es[e].Name() in answers && answers[es[e].Name()] == key.value {
          correct := correct + 1;
        }
      }
    }
    assert es[..|es|] == es;
  }

  /** The outer `pages.forEach`. */
  method TallyPages(pages: seq<Page>, answers: Answers) returns (correct: nat, total: nat)
    ensures Tally(correct, total) == PageTally(pages, answers)
  {
    correct, total := 0, 0;
    for p := 0 to |pages|
      invariant Tally(correct, total) == PageTally(pages[..p], answers)
    {
      assert pages[..p + 1][..p] == pages[..p];
      if pages[p].elements.Some? {
        correct, total := TallyElements(pages[p].elements.value, answers, correct, total);
      }
    }
    assert pages[..|pages|] == pages;
  }

  /** The row `submitAttempt` inserts: the tally of the format taken, its
      percentage, and the pass mark against the passing score. */
  function AttemptFor(assessmentId: string, studentId: string, schema: Option<Schema>,
                      passingScore: Option<real>, answers: Answers): (row: AttemptRow)
    ensures row.assessmentId == assessmentId && row.studentId == studentId
    ensures row.score <= Score(schema, answers).total
    ensures 0.0 <= row.percentage <= 100.0
    ensures row.passed <==> row.percentage >= PassingScore(passingScore)
  {
    var t := Score(schema, answers);
    var percentage := Percentage(t);
    AttemptRow(assessmentId, studentId, t.correct, percentage, percentage >= PassingScore(passingScore))
  }

  /** `submitAttempt`: counts as the source does and returns the row it
      inserts into `assessment_attempts`. It has no say over whether a
      submit is allowed: the runner takes no `canAttempt`. */
  method SubmitAttempt(assessmentId: string, studentId: string, schema: Option<Schema>,
                       passingScore: Option<real>, answers: Answers)
    returns (row: AttemptRow)
    ensures UsesQuestions(schema) ==> row.score == QuestionTally(schema.value.questions.value, answers).correct
    ensures !UsesQuestions(schema) ==> row.score == PageTally(ScoringPages(schema), answers).correct
    ensures row.percentage == Percentage(Score(schema, answers))
    ensures row.passed <==> row.percentage >= PassingScore(passingScore)
    ensures row.assessmentId == assessmentId && row.studentId == studentId
    ensures row == AttemptFor(assessmentId, studentId, schema, passingScore, answers)
  {
    var correct: nat, total: nat;
    if UsesQuestions(schema) {
      correct, total := TallyQuestions(schema.value.questions.value, answers);
    } else {
      correct, total := TallyPages(ScoringPages(schema), answers);
    }
    var percentage := Percentage(Tally(correct, total));
    var passed := percentage >= PassingScore(passingScore);
    row := AttemptRow(assessmentId, studentId, correct, percentage, passed);
  }

  /** With neither pages nor elements (or no schema at all) nothing is
      scorable and the percentage is 0. */
  lemma NothingToScore(schema: Option<Schema>, answers: Answers)
    requires !UsesQuestions(schema)
    requires schema.None? || (schema.value.pages.None? && schema.value.elements.None?)
    ensures Score(schema, answers) == Tally(0, 0)
    ensures Percentage(Score(schema, answers)) == 0.0
  {
    var ps := ScoringPages(schema);
    assert ps == [Page(None, Some([]))];
    assert ps[..0] == [];
    assert PageTally(ps[..0], answers) == Tally(0, 0);
    assert ElementFold(Tally(0, 0), [], answers) == Tally(0, 0);
  }

  // ---------------------------------------------------------------------
  // Schema normalisation: the `json` the runner hands to the survey.
  // ---------------------------------------------------------------------

  const ImgPrefix: string := "<img src=\""
  const ImgSuffix: string := "\" style=\"max-width: 320px; border-radius: 8px;\" />"

  predicate HasImage(q: Question) {
    Truthy(q.image)
  }

  function ImageElement(q: Question): Element
    requires HasImage(q)
  {
    Html(q.id + "_img", ImgPrefix + q.image.value + ImgSuffix)
  }

  function RadioFor(q: Question): Element {
    RadioGroup(q.id, q.prompt, q.options, q.correct)
  }

  /** What one step of the `reduce` pushes for a question. */
  function QuestionElements(q: Question): seq<Element> {
    (if HasImage(q) then [ImageElement(q)] else []) + [RadioFor(q)]
  }

  /** The `questions.reduce(...)` fold, from the left. */
  function ConvertQuestions(qs: seq<Question>): seq<Element> {
    if qs == [] then []
    else ConvertQuestions(qs[..|qs| - 1]) + QuestionElements(qs[|qs| - 1])
  }

  /** The survey json: pages as they are; elements wrapped into one page;
      legacy questions converted into one page; anything else unchanged. */
  function SurveyJson(schema: Option<Schema>): Option<Schema> {
    if schema.None? then schema
    else if schema.value.pages.Some? then schema
    else if schema.value.elements.Some? then
      Some(Schema(None, Some([Page(Some("page1"), Some(schema.value.elements.value))]), None))
    else if schema.value.questions.Some? then
      Some(Schema(None, Some([Page(Some("page1"), Some(ConvertQuestions(schema.value.questions.value)))]), None))
    else schema
  }

  /** The fold read from the front: the first question's elements come first. */
  lemma {:induction false} ConvertCons(qs: seq<Question>)
    requires qs != []
    ensures ConvertQuestions(qs) == QuestionElements(qs[0]) + ConvertQuestions(qs[1..])
  {
    if |qs| > 1 {
      var init := qs[..|qs| - 1];
      ConvertCons(init);
      assert init[1..] == qs[1..][..|qs[1..]| - 1];
      assert init[0] == qs[0];
    } else {
      assert qs[..0] == [];
      assert qs[1..] == [];
    }
  }

  function CountImages(qs: seq<Question>): nat {
    |Seqs.Filter(HasImage, qs)|
  }

  /** One element per question plus one per truthy image. */
  lemma {:induction false} ConvertLength(qs: seq<Question>)
    ensures |ConvertQuestions(qs)| == |qs| + CountImages(qs)
  {
    if qs != [] {
      var init := qs[..|qs| - 1];
      ConvertLength(init);
      assert qs == init + [qs[|qs| - 1]];
      Seqs.FilterSnoc(HasImage, init, qs[|qs| - 1]);
    }
  }

  /** Reads the image url back out of the generated `<img>` tag. */
  function ImageUrl(html: string): Option<string> {
    if |html| >= |ImgPrefix| + |ImgSuffix| && html[..|ImgPrefix|] == ImgPrefix
       && html[|html| - |ImgSuffix|..] == ImgSuffix
    then Some(html[|ImgPrefix|..|html| - |ImgSuffix|])
    else None
  }

  /** Reads questions back out of a converted element list: an optional
      image element, then the question's radio group. */
  function RecoverQuestions(es: seq<Element>): Option<seq<Question>>
  {
    if es == [] then Some([])
    else match es[0]
      case RadioGroup(name, title, choices, key) =>
        (match RecoverQuestions(es[1..])
         case Some(rest) => Some([Question(name, title, None, choices, key)] + rest)
         case None => None)
      case Html(_, html) =>
        if |es| >= 2 && es[1].RadioGroup? && ImageUrl(html).Some? && ImageUrl(html).value != "" then
          match RecoverQuestions(es[2..])
          case Some(rest) => Some([Question(es[1].name, es[1].title, ImageUrl(html), es[1].choices, es[1].correctAnswer)] + rest)
          case None => None
        else None
      case OtherElement(_, _) => None
  }

  /** A falsy image is dropped by the conversion: it reads back as None. */
  function NormalizeImage(q: Question): Question {
    if HasImage(q) then q else q.(image := None)
  }

  function NormalizeImages(qs: seq<Question>): (r: seq<Question>)
    ensures |r| == |qs|
  {
    if qs == [] then [] else [NormalizeImage(qs[0])] + NormalizeImages(qs[1..])
  }

  lemma ImageUrlRoundTrip(url: string)
    ensures ImageUrl(ImgPrefix + url + ImgSuffix) == Some(url)
  {
    var h := ImgPrefix + url + ImgSuffix;
    assert h[..|ImgPrefix|] == ImgPrefix;
    assert h[|h| - |ImgSuffix|..] == ImgSuffix;
    assert h[|ImgPrefix|..|h| - |ImgSuffix|] == url;
  }

  /** Round trip of the conversion: every question comes back, in order, with
      its id, prompt, options, answer key and (truthy) image. */
  lemma {:induction false} ConvertRoundTrip(qs: seq<Question>)
    ensures RecoverQuestions(ConvertQuestions(qs)) == Some(NormalizeImages(qs))
  {
    if qs != [] {
      ConvertCons(qs);
      ConvertRoundTrip(qs[1..]);
      var q := qs[0];
      var es := ConvertQuestions(qs);
      var rest := ConvertQuestions(qs[1..]);
      if HasImage(q) {
        ImageUrlRoundTrip(q.image.value);
        assert es == [ImageElement(q), RadioFor(q)] + rest;
        assert es[2..] == rest;
      } else {
        assert es == [RadioFor(q)] + rest;
        assert es[1..] == rest;
      }
    }
  }

  /** The survey shown for a legacy schema scores exactly like the legacy
      schema itself, whatever the answers. */
  lemma {:induction false} ConvertedScoresAlike(qs: seq<Question>, answers: Answers, acc: Tally)
    ensures ElementFold(acc, ConvertQuestions(qs), answers)
            == Tally(acc.correct + QuestionTally(qs, answers).correct, acc.total + QuestionTally(qs, answers).total)
  {
    if qs != [] {
      var init := qs[..|qs| - 1];
      var q := qs[|qs| - 1];
      ConvertedScoresAlike(init, answers, acc);
      var front := ConvertQuestions(init);
      var mid := ElementFold(acc, front, answers);
      ElementFoldAppend(acc, front, QuestionElements(q), answers);
      if HasImage(q) {
        assert QuestionElements(q) == [ImageElement(q), RadioFor(q)];
        assert [ImageElement(q), RadioFor(q)][..1] == [ImageElement(q)];
        assert ElementFold(mid, [ImageElement(q)], answers) == mid by {
          assert [ImageElement(q)][..0] == [];
        }
      } else {
        assert QuestionElements(q)[..0] == [];
      }
    }
  }

  lemma {:induction false} ElementFoldAppend(acc: Tally, xs: seq<Element>, ys: seq<Element>, answers: Answers)
    ensures ElementFold(acc, xs + ys, answers) == ElementFold(ElementFold(acc, xs, answers), ys, answers)
  {
    if ys == [] {
      assert xs + ys == xs;
    } else {
      assert (xs + ys)[..|xs + ys| - 1] == xs + ys[..|ys| - 1];
      ElementFoldAppend(acc, xs, ys[..|ys| - 1], answers);
    }
  }

  /** A legacy schema without pages or elements: scoring the converted survey
      gives the same tally as scoring the questions. */
  lemma SurveyScoresLikeSchema(schema: Schema, answers: Answers)
    requires schema.questions.Some? && schema.pages.None? && schema.elements.None?
    ensures var shown := SurveyJson(Some(schema));
            shown.Some? && !UsesQuestions(shown)
            && Score(shown, answers) == Score(Some(schema), answers)
  {
    var qs := schema.questions.value;
    var pages := ScoringPages(SurveyJson(Some(schema)));
    assert pages == [Page(Some("page1"), Some(ConvertQuestions(qs)))];
    assert pages[..0] == [];
    assert PageTally(pages[..0], answers) == Tally(0, 0);
    ConvertedScoresAlike(qs, answers, Tally(0, 0));
    assert PageTally(pages, answers) == ElementFold(Tally(0, 0), ConvertQuestions(qs), answers);
  }

  /** Answering every question with its key scores 100% when some question
      has a key, and then passes for any passing score up to 100. */
  lemma {:induction false} AllCorrectScoresFull(qs: seq<Question>, answers: Answers)
    requires forall i :: 0 <= i < |qs| && qs[i].correct.Some? ==> Matches(answers, qs[i].id, qs[i].correct.value)
    ensures QuestionTally(qs, answers).correct == QuestionTally(qs, answers).total
  {
    if qs != [] {
      AllCorrectScoresFull(qs[..|qs| - 1], answers);
    }
  }

  /** The converse: a full score means every keyed question was answered
      with its key. */
  lemma {:induction false} FullScoreMeansAllCorrect(qs: seq<Question>, answers: Answers)
    requires QuestionTally(qs, answers).correct == QuestionTally(qs, answers).total
    ensures forall i :: 0 <= i < |qs| && qs[i].correct.Some? ==> Matches(answers, qs[i].id, qs[i].correct.value)
  {
    if qs != [] {
      var init := qs[..|qs| - 1];
      var t := QuestionTally(init, answers);
      assert QuestionTally(qs, answers) == QuestionStep(t, qs[|qs| - 1], answers);
      assert t.correct == t.total;
      FullScoreMeansAllCorrect(init, answers);
      forall i | 0 <= i < |qs| - 1
        ensures qs[i] == init[i]
      {
      }
    }
  }

  lemma PerfectSubmissionPasses(schema: Schema, answers: Answers, passingScore: Option<real>)
    requires schema.questions.Some?
    requires var qs := schema.questions.value;
             (forall i :: 0 <= i < |qs| && qs[i].correct.Some? ==> Matches(answers, qs[i].id, qs[i].correct.value))
             && (exists i :: 0 <= i < |qs| && qs[i].correct.Some?)
    requires PassingScore(passingScore) <= 100.0
    ensures Percentage(Score(Some(schema), answers)) == 100.0
    ensures Percentage(Score(Some(schema), answers)) >= PassingScore(passingScore)
  {
    var qs := schema.questions.value;
    AllCorrectScoresFull(qs, answers);
    var i :| 0 <= i < |qs| && qs[i].correct.Some?;
    assert qs[i] in Seqs.Filter(HasAnswerKey, qs);
  }
}
