/** What the route handlers read from a request and what they answer with:
    a rendered view, a redirect, or an error that the error handler shows
    with its status on the generic or the admin error page. */
module Http {
  import opened Wrappers
  import opened Questions

  /** JavaScript truthiness of an optional string: present and not empty. */
  predicate Truthy(o: Option<string>)
  {
    o.Some? && o.value != ""
  }

  datatype Verb = Get | Post | OtherVerb

  /** The places a handler redirects to. */
  datatype Target =
    | Home                      // "/"
    | QuestionPage(num: int)    // "/questions/<num>"
    | ResultsPage               // "/results"
    | AdminHome                 // "/admin"
    | AdminLogin                // "/admin/login"
    | AdminEdit(id: string)     // "/admin/edit?id=<id>"

  /** The templates a handler renders, with the data handed to each. */
  datatype View =
    | SurveyPage(pageNum: int, pageCount: nat, username: Option<string>, question: string,
                 answers: seq<string>, previousAnswer: string, renderingPreference: Option<string>)
    | ResultPage(roommates: seq<(string, nat)>)
    | SuccessPage(message: string, linkRoute: string, linkText: string)
    | AdminPanel(questions: seq<Question>, username: Option<string>)
    | AdminEditPage(editing: Question, username: Option<string>)
    | AdminAddPage(username: Option<string>)
    | AdminLoginPage

  datatype Outcome =
    | Render(view: View)
    | Redirect(target: Target)
    | Failure(status: nat, message: string, adminPage: bool)

  /** Decimal text of an integer, as a template literal prints it. */
  function IntToString(n: int): string
  {
    if n < 0 then "-" + NatToString(-n) else NatToString(n)
  }

  function NatToString(n: nat): string
    decreases n
  {
    var d := ["0", "1", "2", "3", "4", "5", "6", "7", "8", "9"][n % 10];
    if n < 10 then d else NatToString(n / 10) + d
  }
}
