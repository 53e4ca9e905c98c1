/** The survey traversal behind /questions: a submission records the
    visitor's identity and answer and redirects to the next position; showing
    a position either completes the survey, refuses the position, or makes it
    the current question and renders it with the stored answer pre-filled. */
module Survey {
  import opened Wrappers
  import opened Questions
  import opened Answers
  import opened Sessions
  import opened Http

  /** The form posted to /questions. `next` and `prev` say the button field
      was sent non-empty. */
  datatype SubmitBody = SubmitBody(
    username: Option<string>,
    renderingPreference: Option<string>,
    questionAnswer: Option<string>,
    next: bool,
    prev: bool)

  /** Where a submission redirects, decided in this order: next question,
      home when going back from the first question, previous question, the
      current question again, the first question. */
  function SubmitTarget(next: bool, prev: bool, num: Option<int>): (t: Target)
    requires next || prev ==> num.Some?
    ensures t.Home? || t.QuestionPage?
    ensures t.Home? <==> !next && prev && num == Some(1)
    ensures t.QuestionPage? && num.Some? && (next || prev || num.value != 0) ==>
      t.num == num.value + (if next then 1 else if prev then -1 else 0)
    ensures t.QuestionPage? && (num.None? || num == Some(0)) && !next && !prev ==> t.num == 1
  {
    if next then QuestionPage(num.value + 1)
    else if prev && num == Some(1) then Home
    else if prev then QuestionPage(num.value - 1)
    else if num.Some? && num.value != 0 then QuestionPage(num.value)
    else QuestionPage(1)
  }

  /** From a position `show` has set (or none yet), every submission lands
      home, on a question, or on the completion position; never on a
      position `show` refuses. */
  lemma SubmitTargetStaysInSurvey(next: bool, prev: bool, num: Option<int>, count: nat)
    requires next || prev ==> num.Some?
    requires num.Some? ==> 1 <= num.value <= count
    ensures SubmitTarget(next, prev, num) == Home <==> prev && !next && num == Some(1)
    ensures SubmitTarget(next, prev, num).QuestionPage? ==>
      1 <= SubmitTarget(next, prev, num).num <= count + 1
    ensures SubmitTarget(next, prev, num).QuestionPage? && !next ==>
      SubmitTarget(next, prev, num).num <= count || count == 0
  {
  }

  /** The choice pre-filled on a question page: the stored answer of this
      user for this question, or "" when there is none. */
  function Prefill(rows: seq<AnswerRow>, username: Option<string>, questionID: string): (r: string)
    ensures username.None? || Lookup(rows, username.value, questionID).None? ==> r == ""
    ensures username.Some? && UniqueKeys(rows) ==>
      forall row :: row in rows && HasKey(row, username.value, questionID) ==> r == row.answer
  {
    if username.None? then ""
    else
      LookupUnique(rows, username.value, questionID);
      match Lookup(rows, username.value, questionID)
      case None => ""
      case Some(row) => row.answer
  }

  /** Submitting an answer for a question makes that question's page show
      it; the pages of every other (user, question) show what they showed. */
  lemma PrefillAfterUpsert(rows: seq<AnswerRow>, u: string, q: string, a: string, u': string, q': string)
    ensures Prefill(Upsert(rows, u, q, a), Some(u), q) == a
    ensures u != u' || q != q' ==> Prefill(Upsert(rows, u, q, a), Some(u'), q') == Prefill(rows, Some(u'), q')
  {
    LookupUpsertSame(rows, u, q, a);
    if u != u' || q != q' {
      LookupUpsertOther(rows, u, q, a, u', q');
    }
  }

  /** POST /questions. */
  method Submit(verb: Verb, body: SubmitBody, session: Session, store: AnswerStore) returns (out: Outcome)
    requires verb == Post && (Truthy(body.username) || Truthy(session.username)) && (body.next || body.prev) ==>
      session.currentQuestionNum.Some?
    modifies session, store
    ensures verb != Post ==>
      && out == Failure(405, "Method not allowed for /question page. Please use POST", false)
      && unchanged(session, store)
    ensures verb == Post && !Truthy(body.username) && !Truthy(old(session.username)) ==>
      && out == Failure(408, "Session timeout! Please login again.", false)
      && unchanged(session, store)
    ensures verb == Post && (Truthy(body.username) || Truthy(old(session.username))) ==>
      && session.username == (if Truthy(body.username) then body.username else old(session.username))
      && Truthy(session.username)
      && session.renderingPreference ==
           (if Truthy(body.renderingPreference) then body.renderingPreference else old(session.renderingPreference))
      && session.currentQuestionID == old(session.currentQuestionID)
      && session.currentQuestionNum == old(session.currentQuestionNum)
      && session.isLoggedInAsAdmin == old(session.isLoggedInAsAdmin)
      && session.adminUsername == old(session.adminUsername)
      && store.rows ==
           (if Truthy(body.questionAnswer) && Truthy(session.currentQuestionID)
            then Upsert(old(store.rows), session.username.value, session.currentQuestionID.value, body.questionAnswer.value)
            else old(store.rows))
      && (UniqueKeys(old(store.rows)) ==> UniqueKeys(store.rows))
      && out == Redirect(SubmitTarget(body.next, body.prev, session.currentQuestionNum))
  {
    if verb != Post {
      return Failure(405, "Method not allowed for /question page. Please use POST", false);
    }
    if !Truthy(body.username) && !Truthy(session.username) {
      return Failure(408, "Session timeout! Please login again.", false);
    } else if Truthy(body.username) {
      session.username := body.username;
    }
    if Truthy(body.renderingPreference) {
      session.renderingPreference := body.renderingPreference;
    }
    if Truthy(body.questionAnswer) && Truthy(session.currentQuestionID) {
      store.UpdateOne(session.username.value, session.currentQuestionID.value, body.questionAnswer.value);
    }
    if body.next {
      out := Redirect(QuestionPage(session.currentQuestionNum.value + 1));
    } else if body.prev && session.currentQuestionNum == Some(1) {
      out := Redirect(Home);
    } else if body.prev {
      out := Redirect(QuestionPage(session.currentQuestionNum.value - 1));
    } else if session.currentQuestionNum.Some? && session.currentQuestionNum.value != 0 {
      out := Redirect(QuestionPage(session.currentQuestionNum.value));
    } else {
      out := Redirect(QuestionPage(1));
    }
  }

  /** GET /questions/<p>, with the bank read from its file, which it does not change. */
  method Show(verb: Verb, p: int, file: QuestionFile, session: Session, store: AnswerStore) returns (out: Outcome)
    modifies session
    ensures verb != Get ==>
      && out == Failure(405, "Method not allowed for /question/<questionNumber> page. Please use GET", false)
      && unchanged(session)
    ensures verb == Get && p - 1 == |file.questions| ==>
      && out == Redirect(ResultsPage)
      && session.currentQuestionNum == None
      && session.currentQuestionID == old(session.currentQuestionID)
      && session.username == old(session.username)
      && session.renderingPreference == old(session.renderingPreference)
      && session.isLoggedInAsAdmin == old(session.isLoggedInAsAdmin)
      && session.adminUsername == old(session.adminUsername)
    ensures verb == Get && (p - 1 < 0 || p - 1 > |file.questions|) ==>
      && out == Failure(400, "Question number " + IntToString(p) + " doesn't exist", false)
      && unchanged(session)
    ensures verb == Get && 1 <= p <= |file.questions| ==>
      && session.currentQuestionID == Some(file.questions[p - 1].id)
      && session.currentQuestionNum == Some(p)
      && session.username == old(session.username)
      && session.renderingPreference == old(session.renderingPreference)
      && session.isLoggedInAsAdmin == old(session.isLoggedInAsAdmin)
      && session.adminUsername == old(session.adminUsername)
      && out == Render(SurveyPage(p, |file.questions|, session.username, file.questions[p - 1].question,
                                  file.questions[p - 1].possibleAnswers,
                                  Prefill(store.rows, session.username, file.questions[p - 1].id),
                                  session.renderingPreference))
  {
    if verb != Get {
      return Failure(405, "Method not allowed for /question/<questionNumber> page. Please use GET", false);
    }
    var questions := file.questions;
    var index := p - 1;
    if index == |questions| {
      session.currentQuestionNum := None;
      return Redirect(ResultsPage);
    } else if index < 0 || index >= |questions| {
      return Failure(400, "Question number " + IntToString(p) + " doesn't exist", false);
    }
    var questionID := questions[index].id;
    session.currentQuestionID := Some(questionID);
    session.currentQuestionNum := Some(p);
    var previousAnswer := "";
    if session.username.Some? {
      var found := store.FindOne(session.username.value, questionID);
      if found.Some? {
        previousAnswer := found.value.answer;
      }
    }
    out := Render(SurveyPage(p, |questions|, session.username, questions[index].question,
                             questions[index].possibleAnswers, previousAnswer, session.renderingPreference));
  }

  /** A visitor whose session has expired (no username, no position) who
      presses "next" on the form is told the session timed out. */
  method ExpiredSessionTimesOut(store: AnswerStore) returns (out: Outcome)
    modifies store
    ensures out == Failure(408, "Session timeout! Please login again.", false)
    ensures unchanged(store)
  {
    var session := new Session();
    out := Submit(Post, SubmitBody(None, None, Some("red"), true, false), session, store);
  }

  /** Showing a question, answering it and submitting without moving
      redirects back to the same question, which now shows that answer. */
  method AnswerThenRevisit(file: QuestionFile, p: int, a: string, session: Session, store: AnswerStore)
    returns (moved: Outcome, shown: Outcome)
    requires 1 <= p <= |file.questions| && file.questions[p - 1].id != ""
    requires Truthy(session.username) && a != ""
    modifies session, store
    ensures moved == Redirect(QuestionPage(p))
    ensures shown.Render? && shown.view.SurveyPage? && shown.view.pageNum == p
    ensures shown.view.previousAnswer == a
    ensures session.currentQuestionNum == Some(p)
  {
    var first := Show(Get, p, file, session, store);
    moved := Submit(Post, SubmitBody(None, None, Some(a), false, false), session, store);
    PrefillAfterUpsert(old(store.rows), session.username.value, file.questions[p - 1].id, a, "", "");
    shown := Show(Get, p, file, session, store);
  }
}
