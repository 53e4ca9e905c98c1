/** The question bank (the questions.json document): an ordered sequence of
    questions, each with a stable id, a text and its answer choices, and the
    in-place edits the admin routes make to it. A question's position is its
    index plus one and is never stored. */
module Questions {
  import opened Seqs

  datatype Question = Question(id: string, question: string, possibleAnswers: seq<string>)

  /** The ids of the bank, in bank order. */
  function Ids(qs: seq<Question>): (r: seq<string>)
    ensures |r| == |qs|
    ensures forall j :: 0 <= j < |qs| ==> r[j] == qs[j].id
  {
    seq(|qs|, j requires 0 <= j < |qs| => qs[j].id)
  }

  /** No two questions share an id (ids are generated fresh and never reused). */
  ghost predicate UniqueIds(qs: seq<Question>)
  {
    forall i, j :: 0 <= i < j < |qs| ==> qs[i].id != qs[j].id
  }

  /** `questions.findIndex(question => question.id === id)`. */
  function IndexOfId(qs: seq<Question>, id: string): (r: int)
    ensures -1 <= r < |qs|
    ensures r >= 0 ==> qs[r].id == id && forall j :: 0 <= j < r ==> qs[j].id != id
    ensures r == -1 <==> forall j :: 0 <= j < |qs| ==> qs[j].id != id
  {
    FindIndex(qs, (q: Question) => q.id == id)
  }

  /** Replace the text of question `i`; nothing else in the bank changes. */
  function WithText(qs: seq<Question>, i: nat, text: string): (r: seq<Question>)
    requires i < |qs|
    ensures Ids(r) == Ids(qs)
    ensures r[i].question == text && r[i].possibleAnswers == qs[i].possibleAnswers
    ensures forall j :: 0 <= j < |qs| && j != i ==> r[j] == qs[j]
  {
    qs[i := qs[i].(question := text)]
  }

  /** Append an empty choice to question `i`: one choice more, the earlier
      choices unchanged, and nothing else in the bank changes. */
  function WithChoiceAppended(qs: seq<Question>, i: nat): (r: seq<Question>)
    requires i < |qs|
    ensures Ids(r) == Ids(qs)
    ensures r[i].question == qs[i].question
    ensures |r[i].possibleAnswers| == |qs[i].possibleAnswers| + 1
    ensures r[i].possibleAnswers[..|qs[i].possibleAnswers|] == qs[i].possibleAnswers
    ensures r[i].possibleAnswers[|qs[i].possibleAnswers|] == ""
    ensures forall j :: 0 <= j < |qs| && j != i ==> r[j] == qs[j]
  {
    qs[i := qs[i].(possibleAnswers := qs[i].possibleAnswers + [""])]
  }

  /** The bank as written back after `possibleAnswers[k] = text` on question
      `i`. An existing choice k is replaced. A k equal to the number of
      choices appends one. A negative k only sets an object property, which
      JSON serialisation drops, so the bank is written back as it was. */
  function WithChoice(qs: seq<Question>, i: nat, k: int, text: string): (r: seq<Question>)
    requires i < |qs| && k <= |qs[i].possibleAnswers|
    ensures Ids(r) == Ids(qs)
    ensures k < 0 ==> r == qs
    ensures r[i].question == qs[i].question
    ensures |r[i].possibleAnswers| ==
      if k == |qs[i].possibleAnswers| then |qs[i].possibleAnswers| + 1 else |qs[i].possibleAnswers|
    ensures 0 <= k ==> r[i].possibleAnswers[k] == text
    ensures forall m :: 0 <= m < |qs[i].possibleAnswers| && m != k ==>
      r[i].possibleAnswers[m] == qs[i].possibleAnswers[m]
    ensures forall j :: 0 <= j < |qs| && j != i ==> r[j] == qs[j]
  {
    var choices := qs[i].possibleAnswers;
    if k < 0 then qs
    else if k == |choices| then qs[i := qs[i].(possibleAnswers := choices + [text])]
    else qs[i := qs[i].(possibleAnswers := choices[k := text])]
  }

  /** `possibleAnswers.splice(start, 1)` on question `i`: its choices lose
      the element at the normalised start, the text and every other
      question stay as they were. */
  function WithChoiceRemoved(qs: seq<Question>, i: nat, start: int): (r: seq<Question>)
    requires i < |qs|
    ensures Ids(r) == Ids(qs)
    ensures r[i].question == qs[i].question
    ensures r[i].possibleAnswers == SpliceOne(qs[i].possibleAnswers, start)
    ensures forall j :: 0 <= j < |qs| && j != i ==> r[j] == qs[j]
  {
    qs[i := qs[i].(possibleAnswers := SpliceOne(qs[i].possibleAnswers, start))]
  }

  /** `questions.push(...)` of a new question with one empty choice. */
  function WithQuestionAdded(qs: seq<Question>, id: string, text: string): (r: seq<Question>)
    ensures |r| == |qs| + 1 && r[..|qs|] == qs
    ensures r[|qs|] == Question(id, text, [""])
  {
    qs + [Question(id, text, [""])]
  }

  /** Removing the question found by id, when ids are unique, removes
      exactly that question: ids stay unique, the id is gone, and every
      other question is still there in the same order. */
  lemma RemoveById(qs: seq<Question>, id: string)
    requires UniqueIds(qs)
    requires IndexOfId(qs, id) >= 0
    ensures var r := SpliceOne(qs, IndexOfId(qs, id));
      && |r| == |qs| - 1
      && UniqueIds(r)
      && (forall j :: 0 <= j < |r| ==> r[j].id != id)
      && (forall q :: q in qs && q.id != id ==> q in r)
      && Ids(r) == Ids(qs[..IndexOfId(qs, id)]) + Ids(qs[IndexOfId(qs, id) + 1..])
  {
    var i := IndexOfId(qs, id);
    var r := SpliceOne(qs, i);
    assert r == qs[..i] + qs[i + 1..];
    forall q | q in qs && q.id != id
      ensures q in r
    {
      var j :| 0 <= j < |qs| && qs[j] == q;
      if j < i { assert r[j] == q; } else { assert j > i; assert r[j - 1] == q; }
    }
  }

  /** Adding a question under an id not yet in the bank keeps ids unique. */
  lemma AddKeepsUniqueIds(qs: seq<Question>, id: string, text: string)
    requires UniqueIds(qs)
    requires forall j :: 0 <= j < |qs| ==> qs[j].id != id
    ensures UniqueIds(WithQuestionAdded(qs, id, text))
    ensures IndexOfId(WithQuestionAdded(qs, id, text), id) == |qs|
  {
  }

  /** An edit that keeps the id sequence keeps ids unique and keeps every
      id at its position. */
  lemma SameIdsKeepLookup(qs: seq<Question>, r: seq<Question>, id: string)
    requires Ids(r) == Ids(qs)
    ensures UniqueIds(qs) ==> UniqueIds(r)
    ensures IndexOfId(r, id) == IndexOfId(qs, id)
  {
    assert |r| == |qs|;
    assert forall j :: 0 <= j < |qs| ==> r[j].id == Ids(r)[j] == Ids(qs)[j] == qs[j].id;
  }

  /** The questions.json document, rewritten whole by every admin edit. */
  class QuestionFile {
    var questions: seq<Question>

    constructor (qs: seq<Question>)
      ensures questions == qs
    {
      questions := qs;
    }
  }
}
