/** The per-visitor session. A field the source deletes or never sets is
    `None` (`false` for the admin flag). */
module Sessions {
  import opened Wrappers

  class Session {
    var username: Option<string>
    var renderingPreference: Option<string>
    var currentQuestionID: Option<string>
    var currentQuestionNum: Option<int>
    var isLoggedInAsAdmin: bool
    var adminUsername: Option<string>

    /** A fresh session holds nothing. */
    constructor ()
      ensures username == None && renderingPreference == None
      ensures currentQuestionID == None && currentQuestionNum == None
      ensures !isLoggedInAsAdmin && adminUsername == None
    {
      username, renderingPreference := None, None;
      currentQuestionID, currentQuestionNum := None, None;
      isLoggedInAsAdmin, adminUsername := false, None;
    }
  }
}
