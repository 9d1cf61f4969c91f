/** The assessment builder: the tutor's list of legacy-format questions,
    edited in place and saved as `{ questions }`
    (src/components/assessment/assess-builder.tsx). */
module AssessBuilder {
  import opened Wrappers
  import Seqs
  import AssessRunner

  datatype Question = Question(id: string, prompt: string, image: Option<string>,
                               options: seq<string>, correct: string, points: int)

  /** The schema handed to `onSave`. */
  datatype SavedSchema = SavedSchema(questions: seq<Question>)

  /** The question `addQuestion` appends; its id is a fresh UUID. */
  function NewQuestion(id: string): Question {
    Question(id, "", None, ["", "", "", ""], "", 1)
  }

  /** `q.filter(question => question.id !== id)` */
  function RemoveById(qs: seq<Question>, id: string): (r: seq<Question>)
    ensures forall q :: q in r <==> q in qs && q.id != id
    ensures |r| <= |qs|
  {
    Seqs.Filter((q: Question) => q.id != id, qs)
  }

  /** An unknown id leaves the list as it is. */
  lemma RemoveUnknownId(qs: seq<Question>, id: string)
    requires forall i :: 0 <= i < |qs| ==> qs[i].id != id
    ensures RemoveById(qs, id) == qs
  {
    Seqs.FilterKeepsAll((q: Question) => q.id != id, qs);
  }

  /** Removal keeps the others in order: it works piecewise on any split. */
  lemma RemoveByIdAppend(xs: seq<Question>, ys: seq<Question>, id: string)
    ensures RemoveById(xs + ys, id) == RemoveById(xs, id) + RemoveById(ys, id)
  {
    Seqs.FilterAppend((q: Question) => q.id != id, xs, ys);
  }

  /** Nothing stops the list from becoming empty. */
  lemma RemoveCanEmpty(q: Question)
    ensures RemoveById([q], q.id) == []
  {
    assert q !in RemoveById([q], q.id);
  }

  /** A saved question as the runner reads it back: the answer key is
      always defined, `""` while no option has been selected. */
  function AsStored(q: Question): AssessRunner.Question {
    AssessRunner.Question(q.id, q.prompt, q.image, q.options, Some(q.correct))
  }

  /** The saved schema as the runner reads it: legacy `questions` only. */
  function StoredSchema(schema: SavedSchema): AssessRunner.Schema {
    AssessRunner.Schema(Some(seq(|schema.questions|, i requires 0 <= i < |schema.questions| =>
                                   AsStored(schema.questions[i]))), None, None)
  }

  /** Every saved question counts towards the runner's total, so a question
      saved without a selected answer can only be scored wrong (unless the
      answer is itself `""`). */
  lemma SavedQuestionsAllScored(schema: SavedSchema, answers: AssessRunner.Answers)
    ensures AssessRunner.Score(Some(StoredSchema(schema)), answers).total == |schema.questions|
  {
    var qs := StoredSchema(schema).questions.value;
    Seqs.FilterKeepsAll(AssessRunner.HasAnswerKey, qs);
  }

  class Builder {
    var questions: seq<Question>

    /** The initial state: the schema's questions, or none. */
    constructor (initialSchema: Option<seq<Question>>)
      ensures questions == initialSchema.GetOr([])
      ensures initialSchema.None? ==> questions == []
    {
      questions := initialSchema.GetOr([]);
    }

    /** `addQuestion`: appends one new question with the given fresh id. */
    method AddQuestion(freshId: string)
      modifies this
      ensures questions == old(questions) + [NewQuestion(freshId)]
      ensures |questions[|questions| - 1].options| == 4
    {
      questions := questions + [NewQuestion(freshId)];
    }

    /** `removeQuestion(id)`: drops every question with that id. */
    method RemoveQuestion(id: string)
      modifies this
      ensures questions == RemoveById(old(questions), id)
      ensures forall k :: 0 <= k < |questions| ==> questions[k].id != id
    {
      questions := RemoveById(questions, id);
    }

    /** The prompt textarea of question `i`. */
    method EditPrompt(i: nat, value: string)
      requires i < |questions|
      modifies this
      ensures questions == old(questions)[i := old(questions)[i].(prompt := value)]
    {
      questions := questions[i := questions[i].(prompt := value)];
    }

    /** The input of option `j` of question `i`. */
    method EditOption(i: nat, j: nat, value: string)
      requires i < |questions| && j < |questions[i].options|
      modifies this
      ensures |questions| == |old(questions)|
      ensures forall k :: 0 <= k < |questions| && k != i ==> questions[k] == old(questions)[k]
      ensures questions[i] == old(questions)[i].(options := old(questions)[i].options[j := value])
      ensures |questions[i].options| == |old(questions)[i].options|
    {
      var q := questions[i];
      questions := questions[i := q.(options := q.options[j := value])];
    }

    /** The image upload of question `i`, once the upload returned `url`. */
    method SetImage(i: nat, url: string)
      requires i < |questions|
      modifies this
      ensures questions == old(questions)[i := old(questions)[i].(image := Some(url))]
    {
      questions := questions[i := questions[i].(image := Some(url))];
    }

    /** The radio of option `j` of question `i`: the answer key becomes that
        option's current text. */
    method SelectCorrect(i: nat, j: nat)
      requires i < |questions| && j < |questions[i].options|
      modifies this
      ensures |questions| == |old(questions)|
      ensures forall k :: 0 <= k < |questions| && k != i ==> questions[k] == old(questions)[k]
      ensures questions[i] == old(questions)[i].(correct := old(questions)[i].options[j])
      ensures questions[i].correct in questions[i].options
    {
      var q := questions[i];
      questions := questions[i := q.(correct := q.options[j])];
    }

    /** `handleSave`: hands `{ questions }` to `onSave` as it is. */
    method Save() returns (schema: SavedSchema)
      ensures schema.questions == questions
    {
      schema := SavedSchema(questions);
    }
  }
}
