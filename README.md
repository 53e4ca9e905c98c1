# RoommateFinder survey core, modelled in Dafny

RoommateFinder is a small Express web survey. Visitors give a username and
answer a sequence of questions, one page per position. Each answer is
upserted into a MongoDB `answers` collection keyed by (username, questionID).
A results page then ranks every other user by how many of their answers are
exactly equal to the visitor's. An admin panel behind a fixed account table
edits the question bank in `questions.json`.

This project models the three pieces of logic in the route handlers:

- **Matching engine** (`routes/results.js`, module `Results`). The answer
  rows are split into the current user's rows and everyone else's. Each
  other row is compared with the current user's first row for the same
  question. A per-user tally starts at 0 and goes up by one on an exact
  match. The tally's entries are then sorted by count, highest first.
  - The tally is a loop that builds a map (`Tally`). It is specified by a
    fold (`TallyMap`) and by per-user counts (`MatchCount`).
  - The sort is an in-place insertion sort on an array
    (`SortByCountDescending`).
  - `Ranked` collects what the page promises: a permutation of the tally,
    counts non-increasing, every other user with a row exactly once, the
    current user never, and each count bounded by that user's rows.
- **Survey traversal** (`routes/question.js`, module `Survey`).
  - The session is a `Session` object whose fields the handlers set and
    clear.
  - The answers collection is an `AnswerStore` object holding a sequence of
    rows.
  - `Submit` makes the username and rendering preference sticky,
    conditionally upserts the answer, and resolves the five-way redirect.
  - `Show` completes the survey, refuses the position, or sets the current
    question and pre-fills its stored answer.
- **Question bank editing and admin session** (`routes/admin.js`, modules
  `Questions` and `Admin`).
  - `questions.json` is a `QuestionFile` object. Each handler reads its
    sequence, edits it with one of the `With…` functions (or `SpliceOne`,
    which models JavaScript's `splice(start, 1)`), and writes it back.
  - Login checks the fixed account table in the source's order. Logout
    clears the admin flag and the survey username.

Handlers answer with an `Outcome`: a rendered view, a redirect target, or an
error with its HTTP status and its error-page flag. A request field that the
source tests for JavaScript truthiness is an `Option<string>` read through
`Truthy`, meaning present and non-empty. A button flag is a `bool` that means
"sent non-empty".

In these places the code behaves in ways a reader might not expect, and the model follows the code:

- A non-numeric position is not refused with 400. `NaN` passes both range
  tests in `routes/question.js:108-119`, and indexing then throws. Positions
  are integers here (see Left out).
- Deleting a choice is refused only when exactly one choice is left
  (`=== 1`, `routes/admin.js:134`). With zero choices, the splice runs and
  reports success.
- Logout deletes the survey `username`, not `adminUsername`
  (`routes/admin.js:341-342`).

## Model

| member | source | states |
|---|---|---|
| Seqs.FindIndex | routes/results.js:54-58 | the result is the first index whose element satisfies the predicate, and -1 exactly when no element does |
| Seqs.Filter | routes/results.js:32-39 | the result holds exactly the elements satisfying the filter and is no longer than its input |
| Seqs.FilterMultiplicity | routes/results.js:32-39 | a filter keeps each satisfying element exactly as often as it occurs in the input, and no other element |
| Seqs.SpliceOne | routes/admin.js:143 | splice(start, 1): removes the element at the normalised start (negative counts from the end). Earlier elements stay and later ones shift down by one. A start at or past the end removes nothing |
| Questions.IndexOfId | routes/admin.js:87-90 | the first position holding the id, -1 exactly when no question has it |
| Questions.WithText | routes/admin.js:100-101 | only question i's text changes; its choices, its id and every other question are unchanged |
| Questions.WithChoiceAppended | routes/admin.js:112-113 | question i gains exactly one choice, "", at the end; earlier choices, the text, ids and other questions are unchanged |
| Questions.WithChoice | routes/admin.js:119-124 | the bank as written after `possibleAnswers[k] = text`: an existing choice k becomes the text and nothing else changes; k equal to the number of choices appends the text; a negative k leaves the written bank unchanged |
| Questions.WithChoiceRemoved | routes/admin.js:143 | question i's choices become their splice(start, 1); the text, ids and other questions are unchanged |
| Questions.WithQuestionAdded | routes/admin.js:270-274 | the bank grows by one; the old questions are a prefix; the new last question has the fresh id, the text and the choices [""] |
| Questions.RemoveById | routes/admin.js:194-205 | with unique ids, removing the found question removes exactly that one. Ids stay unique, the id is gone, every other question remains, and the id order of the rest is kept |
| Questions.AddKeepsUniqueIds | routes/admin.js:264-274 | appending under an id not in the bank keeps ids unique and the new id is found at the last position |
| Questions.SameIdsKeepLookup | routes/admin.js:87-143 | an edit that keeps the id sequence keeps ids unique and keeps every id lookup |
| Answers.Lookup | routes/question.js:129-139 | a found row is in the store and has the key; nothing is found exactly when no row has the key |
| Answers.WithoutQuestion | routes/admin.js:210 | deleteMany: the rows left are exactly the old rows whose questionID differs from the deleted id, each as often as before |
| Answers.LookupUnique | routes/question.js:129-132 | with unique keys, findOne returns the one row that has the key |
| Answers.Upsert | routes/question.js:48-64 | updateOne with upsert: the new row is present, every row is an old row or the new one, and the size grows by one exactly when the key was absent |
| Answers.LookupUpsertSame | routes/question.js:46-65 | after an upsert, the key reads back the row with the answer just written |
| Answers.LookupUpsertOther | routes/question.js:46-65 | an upsert leaves every other key's lookup unchanged |
| Answers.UpsertShape | routes/question.js:48-64 | the upsert appends exactly when the key was absent; otherwise the size is kept and every row under another key is untouched |
| Answers.UpsertRows | routes/question.js:48-64 | on unique keys, the rows after an upsert are the untouched rows of other keys plus exactly the new row |
| Answers.UniqueTail | routes/question.js:48-64 | on unique keys, the rows after the first are unique and none shares the first row's key |
| Answers.UpsertKeepsUniqueKeys | routes/question.js:48-64 | upserts keep at most one row per (username, questionID) |
| Answers.UpsertLastWriteWins | routes/question.js:48-64 | two upserts of the same key equal one upsert of the later answer |
| Answers.WithoutQuestionKeepsUniqueKeys | routes/admin.js:210 | deleting a question's answers keeps at most one row per key |
| Answers.AnswerStore.UpdateOne | routes/question.js:48-64 | the store becomes the upsert of its old rows; the key reads the new answer, other keys read as before, unique keys are preserved |
| Answers.AnswerStore.DeleteMany | routes/admin.js:210 | no row of the deleted question remains, every other row does, unique keys are preserved |
| Results.OthersRows | routes/results.js:32-34 | the others' query returns exactly the rows of users other than the current one |
| Results.OwnRows | routes/results.js:37-39 | the current user's query returns exactly that user's rows |
| Results.IsMatchMeaning | routes/results.js:54-72 | another user's row matches exactly when the current user's first row for the same question holds the same answer |
| Results.Usernames | routes/results.js:61-63 | a user is listed exactly when some row belongs to them |
| Results.UserOrderMeaning | routes/results.js:61-63 | the key-creation order lists every user with a row, and no user twice |
| Results.TallyMapMeaning | routes/results.js:52-76 | TallyMap, the reduce's dictionary: the folded tally has a key for exactly the users with a row, and each value is that user's match count |
| Results.NoRowsNoMatches | routes/results.js:61-72 | a user with no rows has a match count of 0 |
| Results.MatchCount | routes/results.js:61-72 | a user's match count is at most the number of that user's rows |
| Results.MatchAgainstAgreeing | routes/results.js:54-72 | when two users agree on every question both answered, a row of one matches the other exactly when the other answered that question |
| Results.MatchCountByQuestions | routes/results.js:52-76 | with unique keys, when a user's rows match exactly on a set of questions, that user's count is the number of their questions in the set |
| Results.MatchingIsSymmetric | routes/results.js:52-76 | when two users agree on every question both answered, each one's count for the other equals the number of questions they both answered |
| Results.OthersKeepCounts | routes/results.js:32-34 | dropping the current user's rows changes no other user's count |
| Results.OthersUsernames | routes/results.js:32-34 | the users among the other rows are all users with a row except the current one |
| Results.DistinctNamesCountAtMostOne | routes/results.js:77-79 | entries with distinct names hold each pair at most once |
| Results.RepeatCountsTwice | routes/results.js:77-79 | a pair at two positions occurs at least twice in the multiset |
| Results.PermutationKeepsDistinctNames | routes/results.js:77-79 | a permutation of entries with distinct names has distinct names |
| Results.Tally | routes/results.js:52-76 | the loop yields the fold of the rows. Its keys are exactly the users with a row, in first-row order. Each value is that user's number of exactly matching rows |
| Results.SortByCountDescending | routes/results.js:77-79 | the array ends sorted by count, highest first, and is a permutation of the entries it started with |
| Results.InsertDown | routes/results.js:77-79 | one insertion step extends the sorted prefix by one entry and permutes the array |
| Results.Swap | routes/results.js:77-79 | exchanges two entries and nothing else, keeping the multiset |
| Results.SortedTallyIsRanked | routes/results.js:52-79 | any permutation of the tally entries sorted by count satisfies Ranked. Each other user with a row appears once, the current user never, and each count is the matching-row count |
| Results.ComputeMatches | routes/results.js:30-80 | the list rendered for the current user satisfies Ranked |
| Results.ExampleQueries | routes/results.js:31-39 | on the example rows the others' query returns bob's two rows and alice's query her own two |
| Results.ExampleTally | routes/results.js:52-76 | on the example rows bob is tallied with exactly one match (same answer on Q1, different on Q2) |
| Results.AliceAndBob | routes/results.js:52-79 | the ranking of the example rows for alice is exactly [("bob", 1)]; a user with no rows (carol) is never listed |
| Results.HandleResults | routes/results.js:13-84 | a verb other than GET gives 405; a missing session username gives 400 and no ranking; otherwise the ranking of the store is rendered |
| Survey.SubmitTarget | routes/question.js:67-88 | the redirect is home exactly when going back from question 1; otherwise it goes one forward with next (which wins over prev), one back with prev, stays put without a button, and starts at 1 with no position |
| Survey.SubmitTargetStaysInSurvey | routes/question.js:67-80 | from a set position, the redirect goes home exactly when going back from question 1. Otherwise it lands on a position between 1 and N+1, and only "next" reaches N+1 when N > 0 |
| Survey.Prefill | routes/question.js:128-139 | with no username or no stored row the choice is ""; with unique keys it is the answer of the one row stored for that user and question |
| Survey.PrefillAfterUpsert | routes/question.js:129-139 | after submitting answer a, that question's page pre-fills a; every other (user, question) pre-fills as before |
| Survey.Submit | routes/question.js:19-89 | non-POST gives 405. No username in the body or session gives 408 with nothing changed. Otherwise username and preference are sticky, the answer is upserted only with an answer and a current question id, no other session field changes, and the redirect follows the five-way order |
| Survey.Show | routes/question.js:91-154 | non-GET gives 405. p-1 == N clears the position and goes to results. An out-of-range p gives 400 with no change. Otherwise the current id and number are set and the page shows question p-1 with the stored answer or "". The bank file is read, never changed |
| Survey.ExpiredSessionTimesOut | routes/question.js:29-34 | a POST with next from a fresh session (no username, no position) gets 408 and changes neither the session nor the store |
| Survey.AnswerThenRevisit | routes/question.js:46-139 | show(p), submit(a) and show(p) redirect back to p and display a |
| Admin.CheckCredentials | routes/admin.js:291-314 | access is granted exactly on an exact table match. A missing field gives 400; an unknown username or a wrong password gives 401 |
| Admin.Login | routes/admin.js:284-327 | GET shows the form or redirects a logged-in admin. POST sets the admin flag and admin username only when the credentials are granted, and changes nothing otherwise. Other verbs give 405 |
| Admin.Logout | routes/admin.js:329-349 | when logged in, clears the admin flag and the survey username and keeps the admin username; otherwise redirects to login with no change |
| Admin.Panel | routes/admin.js:25-50 | non-GET gives 405, a visitor not logged in is sent to login, and an admin sees the bank |
| Admin.Locate | routes/admin.js:64-97 | the edit and delete access checks pass exactly when logged in, given an id, and the id is in the bank. Otherwise they give 401, 400, or 400 "not found" |
| Admin.Edit | routes/admin.js:53-167 | after the checks, exactly one branch applies, in source order: text update, choice append, choice replace, delete refused at one choice, choice delete, plain render. The ids never change |
| Admin.LoggedOutEditIsRefused | routes/admin.js:64-71 | a logged-out choice edit gets 401 for any choice index, with the bank unchanged |
| Admin.Delete | routes/admin.js:170-224 | after the checks, removes the question at the id's position and every answer to it. Ids stay unique and no row of the id remains |
| Admin.Add | routes/admin.js:227-281 | a POST with text appends {newId, text, [""]} at the end and redirects to its editor. Missing text gives 400, and the verb and login checks come first |

## Left out

- File I/O and JSON (de)serialisation of `questions.json`: the bank is a `QuestionFile` object whose sequence a handler reads and replaces whole.
- MongoDB: the collection is an in-memory `AnswerStore`. Its queries are `Filter`, `Lookup`, `Upsert` and `WithoutQuestion`. Storage failures, and the `catch` paths that forward them, are not modelled.
- The `Promise.all` in `/delete` writes the file and deletes the answers concurrently. It is modelled as one update after the other.
- Lost updates between concurrent admin edits, and concurrency in general: every handler runs to completion alone.
- Express routing, HTTP responses, template rendering and the error-handler middleware in server.js: outcomes are the `Outcome` datatype.
- server.js (app wiring, database connection, session configuration): session expiry after `maxAge` is represented only by the username being absent.
- routes/index.js and routes/renderingPreference.js (renders behind a verb check); `router.get` also answering HEAD.
- Id generation from the clock and `Math.random`: `Admin.Add` takes the new id as a parameter, required not to be in the bank.
- Survey.Submit: requires a current position when `next` or `prev` is sent and a username is known (so the 408 check has passed), because `undefined + 1` and `undefined - 1` then give a `NaN` position that is not modelled. An expired session with no username and no position is covered and gets 408.
- Survey.Show: the position is an integer. A non-numeric or fractional `:questionNum` (a `NaN` or non-integer index that passes the range checks and then throws) is not modelled, and the page number is rendered as that integer rather than the raw path text.
- Admin.Edit: requires the choice index to be at most the number of choices when a logged-in GET or POST replaces a choice; requests refused with 405, 401 or 400 before that point carry any index. A larger index leaves holes in the array, which JSON writes as `null` and a sequence of strings cannot hold. An index equal to the length (append) and a negative index (the file is written back unchanged) are modelled.
- Admin.Edit: `answerIndex` is an integer after `parseInt`; a `NaN` index (which `splice` treats as 0) is not modelled.
- Admin.CheckCredentials: does not model usernames that name inherited object properties (such as `constructor`). For those, `adminAccounts[u]` is truthy, so the source answers "Incorrect password" instead of "does not exist"; both are 401.
- Results.Tally: usernames are plain dictionary keys. In the source's `{}` tally two usernames behave differently. For another user named `__proto__`, the assignment `acc["__proto__"] = 0` is ignored, so that user is never listed. For another user named `hasOwnProperty`, the first row creates an own property that hides the method, and the next row's `acc.hasOwnProperty(...)` throws.
- Results.ComputeMatches: lists a user named `__proto__` with their count, whom the source never lists, and ranks normally when any row follows the first row of a user named `hasOwnProperty` among the other users' rows, where the source throws.
- Results.HandleResults: claims a rendered ranking for every GET with a username. In the source, when any row follows the first row of another user named `hasOwnProperty` among the other users' rows, whoever that row belongs to, the tally throws and the error handler answers 500.
- Results.ComputeMatches: states only that the result is a permutation sorted by count. The order of equal counts and `Object.entries`' ordering of integer-like keys are not specified.
