/** The admin routes: a login against a fixed account table, and edits of
    the question bank (text, choices, deletion with its answers, addition)
    that read the bank's file, change it in memory and write it back. */
module Admin {
  import opened Wrappers
  import opened Seqs
  import opened Questions
  import opened Answers
  import opened Sessions
  import opened Http

  /** The hard-coded administrator accounts: username to password. */
  const AdminAccounts: map<string, string> := map[
    "test" := "test",
    "instructor" := "pass",
    "Dr.M" := "pass",
    "anton" := "pass",
    "student" := "somePassword"
  ]

  datatype LoginCheck = Granted(admin: string) | Denied(status: nat, message: string)

  /** POST /admin/login's checks, in order: a missing field, an unknown
      username, a wrong password. */
  function CheckCredentials(username: Option<string>, password: Option<string>): (r: LoginCheck)
    ensures r.Granted? <==>
      Truthy(username) && Truthy(password) &&
      username.value in AdminAccounts && AdminAccounts[username.value] == password.value
    ensures r.Granted? ==> r.admin == username.value
    ensures r.Denied? ==> r.status == 400 || r.status == 401
    ensures r.Denied? && r.status == 400 <==> !Truthy(username) || !Truthy(password)
    ensures r.Denied? && Truthy(username) && Truthy(password) && username.value !in AdminAccounts ==>
      r.message == "Admin username does not exist. Please try again."
  {
    if !Truthy(username) || !Truthy(password) then
      Denied(400, "Username or password not sent in request. Please try again.")
    else if username.value !in AdminAccounts then
      Denied(401, "Admin username does not exist. Please try again.")
    else if AdminAccounts[username.value] != password.value then
      Denied(401, "Incorrect password. Please try again.")
    else
      Granted(username.value)
  }

  /** /admin/login: GET shows the form (or goes to the panel when already
      logged in), POST checks the credentials, anything else is 405. */
  method Login(verb: Verb, username: Option<string>, password: Option<string>, session: Session)
    returns (out: Outcome)
    modifies session
    ensures verb == Get ==>
      && out == (if old(session.isLoggedInAsAdmin) then Redirect(AdminHome) else Render(AdminLoginPage))
      && unchanged(session)
    ensures verb == OtherVerb ==>
      && out == Failure(405, "Method not allowed for admin login page. Please use GET or POST", true)
      && unchanged(session)
    ensures verb == Post && CheckCredentials(username, password).Denied? ==>
      && out == Failure(CheckCredentials(username, password).status, CheckCredentials(username, password).message, true)
      && unchanged(session)
    ensures verb == Post && CheckCredentials(username, password).Granted? ==>
      && out == Redirect(AdminHome)
      && session.isLoggedInAsAdmin
      && session.adminUsername == username
      && session.username == old(session.username)
      && session.renderingPreference == old(session.renderingPreference)
      && session.currentQuestionID == old(session.currentQuestionID)
      && session.currentQuestionNum == old(session.currentQuestionNum)
  {
    if verb == Get {
      out := if session.isLoggedInAsAdmin then Redirect(AdminHome) else Render(AdminLoginPage);
    } else if verb == Post {
      var check := CheckCredentials(username, password);
      if check.Denied? {
        return Failure(check.status, check.message, true);
      }
      session.isLoggedInAsAdmin := true;
      session.adminUsername := Some(check.admin);
      out := Redirect(AdminHome);
    } else {
      out := Failure(405, "Method not allowed for admin login page. Please use GET or POST", true);
    }
  }

  /** GET /admin/logout: ends the admin login and also forgets the survey
      username, but keeps the admin username. */
  method Logout(verb: Verb, session: Session) returns (out: Outcome)
    modifies session
    ensures verb != Get ==>
      && out == Failure(405, "Method not allowed for the admin logout page. Please use GET", true)
      && unchanged(session)
    ensures verb == Get && !old(session.isLoggedInAsAdmin) ==>
      out == Redirect(AdminLogin) && unchanged(session)
    ensures verb == Get && old(session.isLoggedInAsAdmin) ==>
      && out == Render(SuccessPage("Successfully logged out!", "/", "Go back to home page"))
      && !session.isLoggedInAsAdmin
      && session.username == None
      && session.adminUsername == old(session.adminUsername)
      && session.renderingPreference == old(session.renderingPreference)
      && session.currentQuestionID == old(session.currentQuestionID)
      && session.currentQuestionNum == old(session.currentQuestionNum)
  {
    if verb != Get {
      return Failure(405, "Method not allowed for the admin logout page. Please use GET", true);
    }
    if !session.isLoggedInAsAdmin {
      out := Redirect(AdminLogin);
    } else {
      session.isLoggedInAsAdmin := false;
      session.username := None;
      out := Render(SuccessPage("Successfully logged out!", "/", "Go back to home page"));
    }
  }

  /** GET /admin: the list of questions, for a logged-in administrator. */
  method Panel(verb: Verb, file: QuestionFile, session: Session) returns (out: Outcome)
    ensures verb != Get ==> out == Failure(405, "Method not allowed for the admin page. Please use GET", true)
    ensures verb == Get && !session.isLoggedInAsAdmin ==> out == Redirect(AdminLogin)
    ensures verb == Get && session.isLoggedInAsAdmin ==>
      out == Render(AdminPanel(file.questions, session.adminUsername))
  {
    if verb != Get {
      return Failure(405, "Method not allowed for the admin page. Please use GET", true);
    }
    if !session.isLoggedInAsAdmin {
      return Redirect(AdminLogin);
    }
    out := Render(AdminPanel(file.questions, session.adminUsername));
  }

  /** The query and form of /admin/edit. The flags say the field was sent
      non-empty; `answerIndex` is the parsed `answerIndex` query value when
      that value was sent non-empty. */
  datatype EditRequest = EditRequest(
    verb: Verb,
    id: Option<string>,
    updateQuestionText: bool,
    questionText: Option<string>,
    addAnswer: bool,
    answerIndex: Option<int>,
    editText: bool,
    answerText: Option<string>,
    delete: bool)

  /** The edit replaces a choice: it is past the access checks, found its
      question and is neither a text update nor a choice append. */
  predicate ReplacesChoice(req: EditRequest, qs: seq<Question>)
  {
    && Truthy(req.id) && IndexOfId(qs, req.id.value) >= 0
    && !(req.updateQuestionText && Truthy(req.questionText))
    && !req.addAnswer
    && req.answerIndex.Some?
    && req.editText && Truthy(req.answerText)
  }

  /** The checks /admin/edit and /admin/delete share: logged in, an id given,
      a question with that id. */
  function Locate(loggedIn: bool, id: Option<string>, qs: seq<Question>, page: string, unauthorized: string)
    : (r: Option<Outcome>)
    ensures r.None? <==> loggedIn && Truthy(id) && IndexOfId(qs, id.value) >= 0
    ensures r.Some? ==> r.value.Failure? && r.value.adminPage
    ensures !loggedIn ==> r == Some(Failure(401, unauthorized, true))
    ensures loggedIn && !Truthy(id) ==>
      r == Some(Failure(400, "The " + page + " page is only usable with an id specified in the query.", true))
    ensures loggedIn && Truthy(id) && IndexOfId(qs, id.value) < 0 ==>
      r == Some(Failure(400, "Question ID of " + id.value + " not found.", true))
  {
    if !loggedIn then
      Some(Failure(401, unauthorized, true))
    else if !Truthy(id) then
      Some(Failure(400, "The " + page + " page is only usable with an id specified in the query.", true))
    else if IndexOfId(qs, id.value) == -1 then
      Some(Failure(400, "Question ID of " + id.value + " not found.", true))
    else
      None
  }

  const EditUnauthorized := "Edit only accessible by logged-in administrators"
  const DeleteUnauthorized := "Delete pages only accessible by logged-in administrators"

  function EditLink(id: string): string { "/admin/edit?id=" + id }

  /** /admin/edit. */
  method Edit(req: EditRequest, file: QuestionFile, session: Session) returns (out: Outcome)
    requires req.verb != OtherVerb && session.isLoggedInAsAdmin && ReplacesChoice(req, file.questions) ==>
      req.answerIndex.value <= |file.questions[IndexOfId(file.questions, req.id.value)].possibleAnswers|
    modifies file
    ensures req.verb == OtherVerb ==>
      && out == Failure(405, "Method not allowed for the admin/edit page. Please use GET or POST", true)
      && unchanged(file)
    ensures req.verb != OtherVerb && Locate(session.isLoggedInAsAdmin, req.id, old(file.questions), "edit", EditUnauthorized).Some? ==>
      && out == Locate(session.isLoggedInAsAdmin, req.id, old(file.questions), "edit", EditUnauthorized).value
      && unchanged(file)
    ensures req.verb != OtherVerb && Locate(session.isLoggedInAsAdmin, req.id, old(file.questions), "edit", EditUnauthorized).None? ==>
      var qs := old(file.questions);
      var id := req.id.value;
      var i := IndexOfId(qs, id);
      var choices := qs[i].possibleAnswers;
      if req.updateQuestionText && Truthy(req.questionText) then
        && file.questions == WithText(qs, i, req.questionText.value)
        && out == Render(SuccessPage("Successfully changed the question text!", EditLink(id), "Go back to question editor"))
      else if req.addAnswer then
        && file.questions == WithChoiceAppended(qs, i)
        && out == Render(AdminEditPage(file.questions[i], session.adminUsername))
      else if req.answerIndex.Some? && req.editText && Truthy(req.answerText) then
        && file.questions == WithChoice(qs, i, req.answerIndex.value, req.answerText.value)
        && out == Render(SuccessPage("Successfully changed answer text!", EditLink(id), "Go back to question editor"))
      else if req.answerIndex.Some? && req.delete && |choices| == 1 then
        && file.questions == qs
        && out == Render(SuccessPage("Cannot delete answer because there is only 1 answer left", EditLink(id), "Go back to question editor"))
      else if req.answerIndex.Some? && req.delete then
        && file.questions == WithChoiceRemoved(qs, i, req.answerIndex.value)
        && out == Render(SuccessPage("Successfully deleted answer!", EditLink(id), "Go back to question editor"))
      else
        && file.questions == qs
        && out == Render(AdminEditPage(qs[i], session.adminUsername))
    ensures Ids(file.questions) == Ids(old(file.questions))
  {
    if req.verb == OtherVerb {
      return Failure(405, "Method not allowed for the admin/edit page. Please use GET or POST", true);
    }
    var refused := Locate(session.isLoggedInAsAdmin, req.id, file.questions, "edit", EditUnauthorized);
    if refused.Some? {
      return refused.value;
    }
    var id := req.id.value;
    var questions := file.questions;
    var i := IndexOfId(questions, id);
    if req.updateQuestionText && Truthy(req.questionText) {
      questions := WithText(questions, i, req.questionText.value);
      file.questions := questions;
      return Render(SuccessPage("Successfully changed the question text!", EditLink(id), "Go back to question editor"));
    } else if req.addAnswer {
      questions := WithChoiceAppended(questions, i);
      file.questions := questions;
    } else if req.answerIndex.Some? {
      var k := req.answerIndex.value;
      if req.editText && Truthy(req.answerText) {
        questions := WithChoice(questions, i, k, req.answerText.value);
        file.questions := questions;
        return Render(SuccessPage("Successfully changed answer text!", EditLink(id), "Go back to question editor"));
      } else if req.delete {
        if |questions[i].possibleAnswers| == 1 {
          return Render(SuccessPage("Cannot delete answer because there is only 1 answer left", EditLink(id), "Go back to question editor"));
        } else {
          questions := WithChoiceRemoved(questions, i, k);
          file.questions := questions;
          return Render(SuccessPage("Successfully deleted answer!", EditLink(id), "Go back to question editor"));
        }
      }
    }
    out := Render(AdminEditPage(questions[i], session.adminUsername));
  }

  /** A logged-out visitor's edit is refused with 401 whatever choice index
      it carries, and the bank is left alone. */
  method LoggedOutEditIsRefused(file: QuestionFile, id: string, k: int) returns (out: Outcome)
    modifies file
    ensures out == Failure(401, EditUnauthorized, true)
    ensures unchanged(file)
  {
    var session := new Session();
    var req := EditRequest(Post, Some(id), false, None, false, Some(k), true, Some("blue"), false);
    out := Edit(req, file, session);
  }

  /** /admin/delete (any verb): removes the question with the id and every
      answer given to it. */
  method Delete(id: Option<string>, file: QuestionFile, store: AnswerStore, session: Session) returns (out: Outcome)
    modifies file, store
    ensures Locate(session.isLoggedInAsAdmin, id, old(file.questions), "delete", DeleteUnauthorized).Some? ==>
      && out == Locate(session.isLoggedInAsAdmin, id, old(file.questions), "delete", DeleteUnauthorized).value
      && unchanged(file, store)
    ensures Locate(session.isLoggedInAsAdmin, id, old(file.questions), "delete", DeleteUnauthorized).None? ==>
      && file.questions == SpliceOne(old(file.questions), IndexOfId(old(file.questions), id.value))
      && store.rows == WithoutQuestion(old(store.rows), id.value)
      && (forall row :: row in store.rows ==> row.questionID != id.value)
      && (UniqueIds(old(file.questions)) ==>
            UniqueIds(file.questions) && forall j :: 0 <= j < |file.questions| ==> file.questions[j].id != id.value)
      && (UniqueKeys(old(store.rows)) ==> UniqueKeys(store.rows))
      && out == Render(SuccessPage("Successfully deleted question with id " + id.value + "!", "/admin/edit", "Go back to question editor"))
  {
    var refused := Locate(session.isLoggedInAsAdmin, id, file.questions, "delete", DeleteUnauthorized);
    if refused.Some? {
      return refused.value;
    }
    var questions := file.questions;
    var i := IndexOfId(questions, id.value);
    if UniqueIds(questions) { RemoveById(questions, id.value); }
    questions := SpliceOne(questions, i);
    file.questions := questions;
    store.DeleteMany(id.value);
    out := Render(SuccessPage("Successfully deleted question with id " + id.value + "!", "/admin/edit", "Go back to question editor"));
  }

  /** /admin/add: GET shows the form; POST with a question text appends a new
      question under `newId` and opens it in the editor. */
  method Add(verb: Verb, questionText: Option<string>, newId: string, file: QuestionFile, session: Session)
    returns (out: Outcome)
    requires forall j :: 0 <= j < |file.questions| ==> file.questions[j].id != newId
    modifies file
    ensures verb == OtherVerb ==>
      out == Failure(405, "Method not allowed for the admin/edit page. Please use GET or POST", true) && unchanged(file)
    ensures verb != OtherVerb && !session.isLoggedInAsAdmin ==>
      out == Failure(401, "Add page only accessible by logged-in administrators", true) && unchanged(file)
    ensures verb == Get && session.isLoggedInAsAdmin ==>
      out == Render(AdminAddPage(session.adminUsername)) && unchanged(file)
    ensures verb == Post && session.isLoggedInAsAdmin && !Truthy(questionText) ==>
      out == Failure(400, "Submission requires text for the new question", true) && unchanged(file)
    ensures verb == Post && session.isLoggedInAsAdmin && Truthy(questionText) ==>
      && file.questions == WithQuestionAdded(old(file.questions), newId, questionText.value)
      && IndexOfId(file.questions, newId) == |old(file.questions)|
      && (UniqueIds(old(file.questions)) ==> UniqueIds(file.questions))
      && out == Redirect(AdminEdit(newId))
  {
    if verb == OtherVerb {
      return Failure(405, "Method not allowed for the admin/edit page. Please use GET or POST", true);
    }
    if !session.isLoggedInAsAdmin {
      return Failure(401, "Add page only accessible by logged-in administrators", true);
    }
    if verb == Get {
      return Render(AdminAddPage(session.adminUsername));
    } else if !Truthy(questionText) {
      return Failure(400, "Submission requires text for the new question", true);
    }
    var questions := file.questions;
    if UniqueIds(questions) { AddKeepsUniqueIds(questions, newId, questionText.value); }
    questions := WithQuestionAdded(questions, newId, questionText.value);
    file.questions := questions;
    out := Redirect(AdminEdit(newId));
  }
}
