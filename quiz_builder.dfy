/** The quiz builder: a tutor's editable list of questions and the save that
    writes a quiz and its ordered question rows
    (src/components/assessment/quiz-builder.tsx). */
module QuizBuilder {
  import opened Wrappers
  import Strs

  datatype Question = Question(text: string, options: seq<string>, correct: string)

  /** The row inserted into `quizzes`. */
  datatype QuizRow = QuizRow(tutorId: string, subjectId: string, gradeLevel: string,
                             title: string, isPublished: bool)

  /** A row inserted into `quiz_questions`. */
  datatype QuestionRow = QuestionRow(quizId: string, questionOrder: nat, questionText: string,
                                     questionType: string, options: seq<string>,
                                     correctAnswer: string, points: nat)

  /** The fields `updateQuestion` can name. */
  datatype Field = TextField | OptionsField | CorrectField

  /** What `handleSave` wrote and told the user. */
  datatype SaveOutcome = SaveOutcome(quizInsert: Option<QuizRow>,
                                     questionInsert: Option<seq<QuestionRow>>,
                                     alert: string, saved: bool)

  const TitleMissingAlert: string := "Please enter a quiz title."
  const SavedAlert: string := "Quiz saved successfully!"
  const FailedAlert: string := "Failed to save quiz."

  /** A fresh question: empty text, three empty options, empty answer. */
  function BlankQuestion(): Question {
    Question("", ["", "", ""], "")
  }

  /** Where `splice(index, 1)` starts: a negative index counts from the end,
      and the start is clamped to the list. */
  function SpliceStart(len: nat, index: int): (start: nat)
    ensures start <= len
    ensures 0 <= index < len ==> start == index
    ensures index >= len ==> start == len
    ensures -(len as int) <= index < 0 ==> start == len + index
  {
    if index < 0 then (if len + index < 0 then 0 else len + index)
    else if index > len then len else index
  }

  /** The list after `splice(index, 1)`: the element at the start position
      is removed when there is one; the others keep their order. */
  function SpliceOne(qs: seq<Question>, index: int): (r: seq<Question>)
    ensures SpliceStart(|qs|, index) < |qs| ==> |r| == |qs| - 1
    ensures SpliceStart(|qs|, index) == |qs| ==> r == qs
    ensures forall k :: 0 <= k < SpliceStart(|qs|, index) && k < |r| ==> r[k] == qs[k]
    ensures forall k :: SpliceStart(|qs|, index) <= k < |r| ==> r[k] == qs[k + 1]
  {
    var start := SpliceStart(|qs|, index);
    if start < |qs| then qs[..start] + qs[start + 1..] else qs
  }

  /** One `quiz_questions` row per question, numbered from 1 in list order. */
  function QuestionRows(quizId: string, qs: seq<Question>): (rows: seq<QuestionRow>)
    ensures |rows| == |qs|
  {
    seq(|qs|, i requires 0 <= i < |qs| =>
      QuestionRow(quizId, i + 1, qs[i].text, "multiple_choice", qs[i].options, qs[i].correct, 1))
  }

  /** Reads the questions back from their rows, by position. */
  function QuestionsOfRows(rows: seq<QuestionRow>): seq<Question> {
    seq(|rows|, i requires 0 <= i < |rows| =>
      Question(rows[i].questionText, rows[i].options, rows[i].correctAnswer))
  }

  /** The rows carry every question, in order, for the new quiz: each row
      belongs to `quizId`, is a one-point multiple-choice question, and
      `question_order` is its position counted from 1. */
  lemma QuestionRowsFaithful(quizId: string, qs: seq<Question>)
    ensures QuestionsOfRows(QuestionRows(quizId, qs)) == qs
    ensures forall i :: 0 <= i < |qs| ==>
      var row := QuestionRows(quizId, qs)[i];
      row.quizId == quizId && row.questionOrder == i + 1
      && row.questionType == "multiple_choice" && row.points == 1
    ensures forall i, j :: 0 <= i < j < |qs| ==>
      QuestionRows(quizId, qs)[i].questionOrder < QuestionRows(quizId, qs)[j].questionOrder
  {
  }

  class Builder {
    var title: string
    var questions: seq<Question>

    /** The list is never empty. */
    ghost predicate Valid()
      reads this
    {
      |questions| >= 1
    }

    constructor ()
      ensures Valid()
      ensures title == "" && questions == [BlankQuestion()]
    {
      title := "";
      questions := [BlankQuestion()];
    }

    /** `setTitle` from the title input. */
    method SetTitle(t: string)
      modifies this
      ensures title == t && questions == old(questions)
    {
      title := t;
    }

    /** `addQuestion`: appends one blank question. */
    method AddQuestion()
      requires Valid()
      modifies this
      ensures Valid()
      ensures questions == old(questions) + [BlankQuestion()]
      ensures title == old(title)
    {
      questions := questions + [BlankQuestion()];
    }

    /** `removeQuestion`: a no-op on the last remaining question, otherwise
      `splice(index, 1)` on a copy. */
    method RemoveQuestion(index: int)
      requires Valid()
      modifies this
      ensures Valid()
      ensures |old(questions)| == 1 ==> questions == old(questions)
      ensures |old(questions)| > 1 ==> questions == SpliceOne(old(questions), index)
      ensures title == old(title)
    {
      if |questions| > 1 {
        questions := SpliceOne(questions, index);
      }
    }

    /** `updateQuestion`: `index` outside the list makes the assignment
        throw before the state is set (`thrown`); an option edit writes one
        option, any other field is replaced. */
    method UpdateQuestion(index: int, field: Field, value: string, optIndex: Option<int>)
      returns (thrown: bool)
      requires Valid()
      requires field == OptionsField ==> optIndex.Some?
      requires field == OptionsField && 0 <= index < |questions| ==> optIndex.value < |questions[index].options|
      modifies this
      ensures Valid()
      ensures thrown <==> !(0 <= index < |old(questions)|)
      ensures thrown ==> questions == old(questions)
      ensures |questions| == |old(questions)| && title == old(title)
      ensures forall k :: 0 <= k < |questions| && k != index ==> questions[k] == old(questions)[k]
      ensures !thrown ==> var q := old(questions)[index];
        questions[index] == match field
          case TextField => q.(text := value)
          case CorrectField => q.(correct := value)
          case OptionsField =>
            if 0 <= optIndex.value then q.(options := q.options[optIndex.value := value]) else q
    {
      if !(0 <= index < |questions|) {
        return true;
      }
      var q := questions[index];
      match field {
        case TextField => q := q.(text := value);
        case CorrectField => q := q.(correct := value);
        case OptionsField =>
          // a negative index names a property, not an element of the array
          if 0 <= optIndex.value {
            q := q.(options := q.options[optIndex.value := value]);
          }
      }
      questions := questions[index := q];
      thrown := false;
    }

    /** `handleSave`: a blank title stops before any insert; the question
        rows are inserted only after the quiz insert returned the new id.
        `quizInsert` is that id, None when the insert failed;
        `questionsInsertOk` says whether the second insert succeeded. */
    method HandleSave(tutorId: string, subjectId: string, gradeLevel: string,
                      quizInsert: Option<string>, questionsInsertOk: bool)
      returns (outcome: SaveOutcome)
      ensures Strs.IsBlank(title) ==> outcome == SaveOutcome(None, None, TitleMissingAlert, false)
      ensures !Strs.IsBlank(title) ==>
        outcome.quizInsert == Some(QuizRow(tutorId, subjectId, gradeLevel, title, false))
      ensures outcome.questionInsert.Some? <==> !Strs.IsBlank(title) && quizInsert.Some?
      ensures outcome.questionInsert.Some? ==>
        outcome.questionInsert.value == QuestionRows(quizInsert.value, questions)
      ensures outcome.saved <==> !Strs.IsBlank(title) && quizInsert.Some? && questionsInsertOk
      ensures !Strs.IsBlank(title) ==> outcome.alert == (if outcome.saved then SavedAlert else FailedAlert)
    {
      if Strs.IsBlank(title) {
        return SaveOutcome(None, None, TitleMissingAlert, false);
      }
      var quiz := QuizRow(tutorId, subjectId, gradeLevel, title, false);
      if quizInsert.None? {
        return SaveOutcome(Some(quiz), None, FailedAlert, false);
      }
      var rows := QuestionRows(quizInsert.value, questions);
      if !questionsInsertOk {
        return SaveOutcome(Some(quiz), Some(rows), FailedAlert, false);
      }
      outcome := SaveOutcome(Some(quiz), Some(rows), SavedAlert, true);
    }
  }
}
