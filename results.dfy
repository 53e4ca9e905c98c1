/** The matching engine behind GET /results: every other user who has
    answered anything gets a tally of the answers that equal the current
    user's, and the tallies are listed by count, highest first. */
module Results {
  import opened Wrappers
  import opened Seqs
  import opened Answers
  import opened Http
  import opened Sessions

  /** The `find({username: {$ne: current}})` query. */
  function OthersRows(rows: seq<AnswerRow>, current: string): (r: seq<AnswerRow>)
    ensures forall row :: row in r <==> row in rows && row.username != current
  {
    Filter(rows, (row: AnswerRow) => row.username != current)
  }

  /** The `find({username: current})` query. */
  function OwnRows(rows: seq<AnswerRow>, current: string): (r: seq<AnswerRow>)
    ensures forall row :: row in r <==> row in rows && row.username == current
  {
    Filter(rows, (row: AnswerRow) => row.username == current)
  }

  /** The findIndex predicate: a row answering question `q`. */
  function Answering(q: string): AnswerRow -> bool
  {
    (row: AnswerRow) => row.questionID == q
  }

  /** Another user's row matches when the current user's first row for the
      same question exists and holds exactly the same answer text. */
  predicate IsMatch(mine: seq<AnswerRow>, other: AnswerRow)
  {
    var k := FindIndex(mine, Answering(other.questionID));
    k >= 0 && mine[k].answer == other.answer
  }

  /** A row matches exactly when the current user's first row for the same
      question holds the same answer. */
  lemma IsMatchMeaning(mine: seq<AnswerRow>, other: AnswerRow)
    ensures IsMatch(mine, other) <==>
      exists j :: 0 <= j < |mine| && mine[j].questionID == other.questionID && mine[j].answer == other.answer &&
        forall k :: 0 <= k < j ==> mine[k].questionID != other.questionID
  {
  }

  /** The number of u's rows in `rows` that match. */
  function MatchCount(u: string, rows: seq<AnswerRow>, mine: seq<AnswerRow>): (r: nat)
    ensures r <= RowCount(u, rows)
  {
    if rows == [] then 0
    else
      var last := rows[|rows| - 1];
      MatchCount(u, rows[..|rows| - 1], mine) + (if last.username == u && IsMatch(mine, last) then 1 else 0)
  }

  /** The number of u's rows in `rows`. */
  function RowCount(u: string, rows: seq<AnswerRow>): nat
  {
    if rows == [] then 0
    else RowCount(u, rows[..|rows| - 1]) + (if rows[|rows| - 1].username == u then 1 else 0)
  }

  /** The users that own at least one row. */
  function Usernames(rows: seq<AnswerRow>): (r: set<string>)
    ensures forall u :: u in r <==> exists row :: row in rows && row.username == u
  {
    if rows == [] then {}
    else
      assert forall row :: row in rows <==> row in rows[..|rows| - 1] || row == rows[|rows| - 1];
      Usernames(rows[..|rows| - 1]) + {rows[|rows| - 1].username}
  }

  /** The users in the order their first row appears: the order in which the
      tally's keys are created, which `Object.entries` follows. */
  function UserOrder(rows: seq<AnswerRow>): seq<string>
  {
    if rows == [] then []
    else
      var seen := UserOrder(rows[..|rows| - 1]);
      var u := rows[|rows| - 1].username;
      if u in seen then seen else seen + [u]
  }

  /** Every user with a row is listed, once. */
  lemma {:induction false} UserOrderMeaning(rows: seq<AnswerRow>)
    ensures forall u :: u in UserOrder(rows) <==> u in Usernames(rows)
    ensures forall i, j :: 0 <= i < j < |UserOrder(rows)| ==> UserOrder(rows)[i] != UserOrder(rows)[j]
  {
    if rows != [] {
      UserOrderMeaning(rows[..|rows| - 1]);
    }
  }

  /** The tally as `Object.entries` lists it: one (user, count) pair per user
      with a row, in key-creation order. */
  function TallyEntries(others: seq<AnswerRow>, mine: seq<AnswerRow>): (r: seq<(string, nat)>)
  {
    var keys := UserOrder(others);
    seq(|keys|, i requires 0 <= i < |keys| => (keys[i], MatchCount(keys[i], others, mine)))
  }

  predicate NonIncreasing(s: seq<(string, nat)>)
  {
    forall i, j :: 0 <= i < j < |s| ==> s[i].1 >= s[j].1
  }

  predicate DistinctNames(s: seq<(string, nat)>)
  {
    forall i, j :: 0 <= i < j < |s| ==> s[i].0 != s[j].0
  }

  /** What the results page lists for `current`: a permutation of the tally
      sorted by count, highest first; each other user with at least one row
      exactly once and the current user never; each count the number of
      that user's matching rows, which is at most that user's row count. */
  ghost predicate Ranked(current: string, rows: seq<AnswerRow>, roommates: seq<(string, nat)>)
  {
    var mine := OwnRows(rows, current);
    && multiset(roommates) == multiset(TallyEntries(OthersRows(rows, current), mine))
    && NonIncreasing(roommates)
    && DistinctNames(roommates)
    && (forall i :: 0 <= i < |roommates| ==> roommates[i].0 != current && roommates[i].0 in Usernames(rows))
    && (forall u :: u in Usernames(rows) && u != current ==> exists i :: 0 <= i < |roommates| && roommates[i].0 == u)
    && (forall i :: 0 <= i < |roommates| ==>
          roommates[i].1 == MatchCount(roommates[i].0, rows, mine) <= RowCount(roommates[i].0, rows))
  }

  /** Leaving out the current user's rows changes no other user's count. */
  lemma {:induction false} OthersKeepCounts(u: string, current: string, rows: seq<AnswerRow>, mine: seq<AnswerRow>)
    requires u != current
    ensures MatchCount(u, OthersRows(rows, current), mine) == MatchCount(u, rows, mine)
  {
    if rows != [] {
      var init := rows[..|rows| - 1];
      var last := rows[|rows| - 1];
      OthersKeepCounts(u, current, init, mine);
      var f := OthersRows(init, current);
      if last.username != current {
        assert OthersRows(rows, current) == f + [last];
        assert (f + [last])[..|f + [last]| - 1] == f;
      } else {
        assert OthersRows(rows, current) == f;
      }
    }
  }

  /** The users with a row among the others are all users but the current one. */
  lemma OthersUsernames(rows: seq<AnswerRow>, current: string)
    ensures Usernames(OthersRows(rows, current)) == Usernames(rows) - {current}
  {
    forall u | u in Usernames(rows) - {current}
      ensures u in Usernames(OthersRows(rows, current))
    {
      var row :| row in rows && row.username == u;
      assert row in OthersRows(rows, current);
    }
  }

  /** A sequence with distinct names holds each pair at most once. */
  lemma {:induction false} DistinctNamesCountAtMostOne(s: seq<(string, nat)>, x: (string, nat))
    requires DistinctNames(s)
    ensures multiset(s)[x] <= 1
  {
    if s != [] {
      var init := s[..|s| - 1];
      assert s == init + [s[|s| - 1]];
      assert DistinctNames(init);
      DistinctNamesCountAtMostOne(init, x);
      if x == s[|s| - 1] {
        assert x !in init;
      }
    }
  }

  /** A pair at two positions is counted at least twice. */
  lemma RepeatCountsTwice(s: seq<(string, nat)>, i: nat, j: nat)
    requires i < j < |s| && s[i] == s[j]
    ensures multiset(s)[s[i]] >= 2
  {
    assert s == s[..j] + [s[j]] + s[j + 1..];
    assert s[i] in s[..j];
  }

  /** Reordering a sequence with distinct names keeps the names distinct. */
  lemma PermutationKeepsDistinctNames(a: seq<(string, nat)>, b: seq<(string, nat)>)
    requires multiset(a) == multiset(b) && DistinctNames(b)
    ensures DistinctNames(a)
  {
    forall i, j | 0 <= i < j < |a|
      ensures a[i].0 != a[j].0
    {
      if a[i].0 == a[j].0 {
        assert a[i] in multiset(b) && a[j] in multiset(b);
        var m :| 0 <= m < |b| && b[m] == a[i];
        var n :| 0 <= n < |b| && b[n] == a[j];
        assert m == n;
        RepeatCountsTwice(a, i, j);
        DistinctNamesCountAtMostOne(b, a[i]);
      }
    }
  }

  /** The tally dictionary after folding over `rows`: a user's first row
      creates the key at 0, and every matching row adds one. */
  function TallyMap(rows: seq<AnswerRow>, mine: seq<AnswerRow>): map<string, nat>
  {
    if rows == [] then map[]
    else
      var acc := TallyMap(rows[..|rows| - 1], mine);
      var row := rows[|rows| - 1];
      var start := if row.username in acc then acc[row.username] else 0;
      acc[row.username := start + (if IsMatch(mine, row) then 1 else 0)]
  }

  /** The folded dictionary has a key for exactly the users with a row, and
      each user's tally is that user's match count. */
  lemma {:induction false} TallyMapMeaning(rows: seq<AnswerRow>, mine: seq<AnswerRow>)
    ensures TallyMap(rows, mine).Keys == Usernames(rows)
    ensures forall u :: u in TallyMap(rows, mine) ==> TallyMap(rows, mine)[u] == MatchCount(u, rows, mine)
  {
    if rows != [] {
      var init := rows[..|rows| - 1];
      TallyMapMeaning(init, mine);
      if rows[|rows| - 1].username !in TallyMap(init, mine) {
        NoRowsNoMatches(rows[|rows| - 1].username, init, mine);
      }
    }
  }

  /** A user without rows has no matches. */
  lemma {:induction false} NoRowsNoMatches(u: string, rows: seq<AnswerRow>, mine: seq<AnswerRow>)
    requires u !in Usernames(rows)
    ensures MatchCount(u, rows, mine) == 0
  {
    if rows != [] {
      NoRowsNoMatches(u, rows[..|rows| - 1], mine);
    }
  }

  /** The ids of the questions `u` has answered. */
  function QuestionsOf(rows: seq<AnswerRow>, u: string): (r: set<string>)
    ensures forall q :: q in r <==> exists row :: row in rows && row.username == u && row.questionID == q
  {
    if rows == [] then {}
    else
      var last := rows[|rows| - 1];
      assert forall row :: row in rows <==> row in rows[..|rows| - 1] || row == last;
      if last.username == u then QuestionsOf(rows[..|rows| - 1], u) + {last.questionID}
      else QuestionsOf(rows[..|rows| - 1], u)
  }

  /** `a` and `b` gave the same answer on every question both answered. */
  ghost predicate AgreeOnShared(rows: seq<AnswerRow>, a: string, b: string)
  {
    forall r, s :: r in rows && s in rows && r.username == a && s.username == b && r.questionID == s.questionID ==>
      r.answer == s.answer
  }

  /** When `a` and `b` agree, a row of `b` matches `a`'s rows exactly when `a`
      answered its question. */
  lemma MatchAgainstAgreeing(rows: seq<AnswerRow>, a: string, b: string, row: AnswerRow)
    requires AgreeOnShared(rows, a, b)
    requires row in rows && row.username == b
    ensures IsMatch(OwnRows(rows, a), row) <==> row.questionID in QuestionsOf(rows, a)
  {
    var mine := OwnRows(rows, a);
    var k := FindIndex(mine, Answering(row.questionID));
    if k >= 0 {
      assert mine[k] in mine;
    }
    if row.questionID in QuestionsOf(rows, a) {
      var r :| r in rows && r.username == a && r.questionID == row.questionID;
      assert r in mine;
      var i :| 0 <= i < |mine| && mine[i] == r;
      assert Answering(row.questionID)(mine[i]);
    }
  }

  /** When a row of `b` matches exactly when its question is in `qs`, and
      `b` answers each question once, `b`'s count is the number of `b`'s
      questions in `qs`. */
  lemma {:induction false} MatchCountByQuestions(b: string, rows: seq<AnswerRow>, mine: seq<AnswerRow>, qs: set<string>)
    requires UniqueKeys(rows)
    requires forall row :: row in rows && row.username == b ==> (IsMatch(mine, row) <==> row.questionID in qs)
    ensures MatchCount(b, rows, mine) == |QuestionsOf(rows, b) * qs|
  {
    if rows != [] {
      var init := rows[..|rows| - 1];
      var last := rows[|rows| - 1];
      LastKeyIsNew(rows);
      assert forall row :: row in init ==> row in rows;
      MatchCountByQuestions(b, init, mine, qs);
      assert MatchCount(b, rows, mine) ==
        MatchCount(b, init, mine) + (if last.username == b && IsMatch(mine, last) then 1 else 0);
      assert last.username == b ==> (IsMatch(mine, last) <==> last.questionID in qs);
      if last.username == b {
        assert QuestionsOf(rows, b) == QuestionsOf(init, b) + {last.questionID};
        AddOneShared(QuestionsOf(init, b), qs, last.questionID);
      } else {
        assert QuestionsOf(rows, b) == QuestionsOf(init, b);
      }
    }
  }

  /** With unique keys, the rows before the last are unique and the last
      row's user had not answered its question before. */
  lemma LastKeyIsNew(rows: seq<AnswerRow>)
    requires UniqueKeys(rows) && rows != []
    ensures UniqueKeys(rows[..|rows| - 1])
    ensures rows[|rows| - 1].questionID !in QuestionsOf(rows[..|rows| - 1], rows[|rows| - 1].username)
  {
    var init := rows[..|rows| - 1];
    var last := rows[|rows| - 1];
    forall r | r in init && r.username == last.username
      ensures r.questionID != last.questionID
    {
      var i :| 0 <= i < |init| && init[i] == r;
      assert rows[i] == r;
    }
  }

  /** Adding a new element to a set adds one to its intersection with `qs`
      exactly when the element is in `qs`. */
  lemma AddOneShared(x: set<string>, qs: set<string>, e: string)
    requires e !in x
    ensures |(x + {e}) * qs| == |x * qs| + (if e in qs then 1 else 0)
  {
    if e in qs {
      assert (x + {e}) * qs == x * qs + {e};
    } else {
      assert (x + {e}) * qs == x * qs;
    }
  }

  /** Matching is symmetric: when `a` and `b` agree on every question both
      answered, `a`'s count for `b` and `b`'s count for `a` are both the
      number of questions they both answered. */
  lemma MatchingIsSymmetric(rows: seq<AnswerRow>, a: string, b: string)
    requires UniqueKeys(rows)
    requires AgreeOnShared(rows, a, b)
    ensures MatchCount(b, rows, OwnRows(rows, a)) == |QuestionsOf(rows, a) * QuestionsOf(rows, b)|
    ensures MatchCount(a, rows, OwnRows(rows, b)) == |QuestionsOf(rows, a) * QuestionsOf(rows, b)|
  {
    forall row | row in rows && row.username == b
      ensures IsMatch(OwnRows(rows, a), row) <==> row.questionID in QuestionsOf(rows, a)
    {
      MatchAgainstAgreeing(rows, a, b, row);
    }
    MatchCountByQuestions(b, rows, OwnRows(rows, a), QuestionsOf(rows, a));
    assert QuestionsOf(rows, b) * QuestionsOf(rows, a) == QuestionsOf(rows, a) * QuestionsOf(rows, b);
    assert AgreeOnShared(rows, b, a);
    forall row | row in rows && row.username == a
      ensures IsMatch(OwnRows(rows, b), row) <==> row.questionID in QuestionsOf(rows, b)
    {
      MatchAgainstAgreeing(rows, b, a, row);
    }
    MatchCountByQuestions(a, rows, OwnRows(rows, b), QuestionsOf(rows, b));
  }

  /** The reduce over the other users' rows: a dictionary from username to
      tally, a key created at 0 on a user's first row and raised by one on
      each matching row. `keys` records the order keys were created in. */
  method Tally(others: seq<AnswerRow>, mine: seq<AnswerRow>) returns (acc: map<string, nat>, keys: seq<string>)
    ensures acc == TallyMap(others, mine) && keys == UserOrder(others)
    ensures acc.Keys == Usernames(others)
    ensures forall u :: u in acc ==> acc[u] == MatchCount(u, others, mine)
  {
    acc, keys := map[], [];
    var i := 0;
    while i < |others|
      invariant 0 <= i <= |others|
      invariant acc == TallyMap(others[..i], mine)
      invariant keys == UserOrder(others[..i])
      invariant forall u :: u in keys <==> u in acc
    {
      var row := others[i];
      var matched := FindIndex(mine, Answering(row.questionID));
      assert others[..i + 1][..i] == others[..i];
      if row.username !in acc {
        acc := acc[row.username := 0];
        keys := keys + [row.username];
      }
      if matched >= 0 && mine[matched].answer == row.answer {
        acc := acc[row.username := acc[row.username] + 1];
      }
      i := i + 1;
    }
    assert others[..i] == others;
    TallyMapMeaning(others, mine);
  }

  /** `sort((a, b) => b[1] - a[1])`: sorts the entries in place by count,
      highest first. */
  method SortByCountDescending(a: array<(string, nat)>)
    modifies a
    ensures NonIncreasing(a[..])
    ensures multiset(a[..]) == multiset(old(a[..]))
  {
    var i := 0;
    while i < a.Length
      invariant 0 <= i <= a.Length
      invariant NonIncreasing(a[..i])
      invariant multiset(a[..]) == multiset(old(a[..]))
    {
      InsertDown(a, i);
      i := i + 1;
    }
    assert a[..i] == a[..];
  }

  /** One insertion step: the entry at `i` moves left past every entry with
      a smaller count, so the first i + 1 entries are sorted. */
  method InsertDown(a: array<(string, nat)>, i: nat)
    requires i < a.Length
    requires NonIncreasing(a[..i])
    modifies a
    ensures NonIncreasing(a[..i + 1])
    ensures multiset(a[..]) == multiset(old(a[..]))
  {
    var j := i;
    while j > 0 && a[j - 1].1 < a[j].1
      invariant 0 <= j <= i
      invariant forall k, l :: 0 <= k < l <= i && k != j && l != j ==> a[k].1 >= a[l].1
      invariant forall l :: j < l <= i ==> a[j].1 > a[l].1
      invariant multiset(a[..]) == multiset(old(a[..]))
    {
      Swap(a, j - 1, j);
      j := j - 1;
    }
  }

  method Swap(a: array<(string, nat)>, i: nat, j: nat)
    requires i < j < a.Length
    modifies a
    ensures a[i] == old(a[j]) && a[j] == old(a[i])
    ensures forall m :: 0 <= m < a.Length && m != i && m != j ==> a[m] == old(a[m])
    ensures multiset(a[..]) == multiset(old(a[..]))
  {
    a[i], a[j] := a[j], a[i];
  }

  /** Any ordering of the tally entries by count, highest first, is a
      ranking with all the properties the results page promises. */
  lemma SortedTallyIsRanked(current: string, rows: seq<AnswerRow>, roommates: seq<(string, nat)>)
    requires multiset(roommates) == multiset(TallyEntries(OthersRows(rows, current), OwnRows(rows, current)))
    requires NonIncreasing(roommates)
    ensures Ranked(current, rows, roommates)
  {
    var others := OthersRows(rows, current);
    var mine := OwnRows(rows, current);
    var keys := UserOrder(others);
    var tally := TallyEntries(others, mine);
    UserOrderMeaning(others);
    OthersUsernames(rows, current);
    assert DistinctNames(tally);
    PermutationKeepsDistinctNames(roommates, tally);
    forall i | 0 <= i < |roommates|
      ensures roommates[i].0 != current && roommates[i].0 in Usernames(rows)
      ensures roommates[i].1 == MatchCount(roommates[i].0, rows, mine) <= RowCount(roommates[i].0, rows)
    {
      assert roommates[i] in multiset(tally);
      var k :| 0 <= k < |tally| && tally[k] == roommates[i];
      assert keys[k] in Usernames(others);
      OthersKeepCounts(keys[k], current, rows, mine);
    }
    forall u | u in Usernames(rows) && u != current
      ensures exists i :: 0 <= i < |roommates| && roommates[i].0 == u
    {
      assert u in keys;
      var k :| 0 <= k < |keys| && keys[k] == u;
      assert tally[k] in multiset(roommates);
      var i :| 0 <= i < |roommates| && roommates[i] == tally[k];
      assert roommates[i].0 == u;
    }
  }

  /** The body of the /results handler once the user is known: query the two
      row sets, fold the tally, list its entries and sort them. */
  method ComputeMatches(current: string, rows: seq<AnswerRow>) returns (roommates: seq<(string, nat)>)
    ensures Ranked(current, rows, roommates)
  {
    var others := OthersRows(rows, current);
    var mine := OwnRows(rows, current);
    var acc, keys := Tally(others, mine);
    UserOrderMeaning(others);
    var entries := new (string, nat)[|keys|](i requires 0 <= i < |keys| => (keys[i], acc[keys[i]]));
    assert entries[..] == TallyEntries(others, mine);
    SortByCountDescending(entries);
    roommates := entries[..];
    SortedTallyIsRanked(current, rows, roommates);
  }

  function ExampleRows(): seq<AnswerRow>
  {
    [AnswerRow("alice", "Q1", "red"), AnswerRow("alice", "Q2", "yes"),
     AnswerRow("bob", "Q1", "red"), AnswerRow("bob", "Q2", "no")]
  }

  /** The two queries on the example rows. */
  lemma ExampleQueries()
    ensures OthersRows(ExampleRows(), "alice") == ExampleRows()[2..]
    ensures OwnRows(ExampleRows(), "alice") == ExampleRows()[..2]
  {
    var rows := ExampleRows();
    assert rows[..3][..2] == rows[..2] && rows[..2][..1] == rows[..1] && rows[..1][..0] == [];
    assert OthersRows(rows[..1], "alice") == [];
    assert OthersRows(rows[..2], "alice") == [];
    assert OthersRows(rows[..3], "alice") == [rows[2]];
    assert OwnRows(rows[..1], "alice") == [rows[0]];
    assert OwnRows(rows[..2], "alice") == [rows[0], rows[1]];
    assert OwnRows(rows[..3], "alice") == [rows[0], rows[1]];
  }

  /** The example's tally: bob matches alice on Q1 only. */
  lemma ExampleTally()
    ensures TallyEntries(OthersRows(ExampleRows(), "alice"), OwnRows(ExampleRows(), "alice")) == [("bob", 1)]
  {
    var rows := ExampleRows();
    ExampleQueries();
    var others := rows[2..];
    var mine := rows[..2];
    assert FindIndex(mine, Answering("Q1")) == 0;
    assert FindIndex(mine, Answering("Q2")) == 1;
    assert IsMatch(mine, rows[2]) && !IsMatch(mine, rows[3]);
    assert others[..1] == [rows[2]] && others[..1][..0] == [];
    assert UserOrder(others[..1]) == ["bob"];
    assert UserOrder(others) == ["bob"];
    assert MatchCount("bob", others[..1], mine) == 1;
    assert MatchCount("bob", others, mine) == 1;
  }

  /** A worked example: alice and bob agree on Q1 and differ on Q2, so bob
      is listed with one match; carol, who has no rows, is not listed. */
  method AliceAndBob() returns (roommates: seq<(string, nat)>)
    ensures roommates == [("bob", 1)]
    ensures forall i :: 0 <= i < |roommates| ==> roommates[i].0 != "carol"
  {
    roommates := ComputeMatches("alice", ExampleRows());
    ExampleTally();
    assert |roommates| == 1 by {
      assert |multiset(roommates)| == |multiset([("bob", 1)])| == 1;
    }
    assert roommates[0] in multiset([("bob", 1)]);
  }

  /** GET /results: any other verb is refused with 405, a session without a
      username with 400, and otherwise the ranking is rendered. */
  method HandleResults(verb: Verb, session: Session, store: AnswerStore) returns (out: Outcome)
    ensures verb != Get ==>
      out == Failure(405, "Method not allowed for /results page. Please use GET", false)
    ensures verb == Get && !Truthy(session.username) ==>
      out == Failure(400, "No username found with session. Please try again with a username.", false)
    ensures out.Render? <==> verb == Get && Truthy(session.username)
    ensures out.Render? ==>
      out.view.ResultPage? && Ranked(session.username.value, store.rows, out.view.roommates)
  {
    if verb != Get {
      return Failure(405, "Method not allowed for /results page. Please use GET", false);
    }
    if !Truthy(session.username) {
      return Failure(400, "No username found with session. Please try again with a username.", false);
    }
    var roommates := ComputeMatches(session.username.value, store.rows);
    out := Render(ResultPage(roommates));
  }
}
