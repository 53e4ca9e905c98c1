/** The answers collection: one row per (username, questionID), created or
    overwritten by an upsert, read by key, and deleted by question. The
    collection is a sequence of rows in the store's natural order. */
module Answers {
  import opened Wrappers
  import opened Seqs

  datatype AnswerRow = AnswerRow(username: string, questionID: string, answer: string)

  predicate HasKey(row: AnswerRow, u: string, q: string)
  {
    row.username == u && row.questionID == q
  }

  /** At most one row per (username, questionID). */
  ghost predicate UniqueKeys(rows: seq<AnswerRow>)
  {
    forall i, j :: 0 <= i < j < |rows| ==>
      rows[i].username != rows[j].username || rows[i].questionID != rows[j].questionID
  }

  /** With unique keys, two rows under the same key are the same row. */
  lemma UniqueKeyRow(rows: seq<AnswerRow>, r1: AnswerRow, r2: AnswerRow)
    requires UniqueKeys(rows) && r1 in rows && r2 in rows
    requires r1.username == r2.username && r1.questionID == r2.questionID
    ensures r1 == r2
  {
    var i :| 0 <= i < |rows| && rows[i] == r1;
    var j :| 0 <= j < |rows| && rows[j] == r2;
  }

  /** With unique keys, the row found under a key is the one row that has it. */
  lemma LookupUnique(rows: seq<AnswerRow>, u: string, q: string)
    ensures UniqueKeys(rows) ==> forall row :: row in rows && HasKey(row, u, q) ==> Lookup(rows, u, q) == Some(row)
  {
    if UniqueKeys(rows) {
      forall row | row in rows && HasKey(row, u, q)
        ensures Lookup(rows, u, q) == Some(row)
      {
        UniqueKeyRow(rows, row, Lookup(rows, u, q).value);
      }
    }
  }

  /** `findOne({questionID: q, username: u})`: the first row with that key. */
  function Lookup(rows: seq<AnswerRow>, u: string, q: string): (r: Option<AnswerRow>)
    ensures r.Some? ==> r.value in rows && HasKey(r.value, u, q)
    ensures r.None? <==> forall j :: 0 <= j < |rows| ==> !HasKey(rows[j], u, q)
  {
    if rows == [] then None
    else if HasKey(rows[0], u, q) then Some(rows[0])
    else Lookup(rows[1..], u, q)
  }

  /** `updateOne({username: u, questionID: q}, {$set: {username, questionID,
      answer}}, {upsert: true})`: the first row with the key gets the new
      answer, and when there is none a new row is added at the end. */
  function Upsert(rows: seq<AnswerRow>, u: string, q: string, a: string): (r: seq<AnswerRow>)
    ensures AnswerRow(u, q, a) in r
    ensures forall row :: row in r ==> row in rows || row == AnswerRow(u, q, a)
    ensures |r| == if Lookup(rows, u, q).None? then |rows| + 1 else |rows|
  {
    if rows == [] then [AnswerRow(u, q, a)]
    else if HasKey(rows[0], u, q) then [AnswerRow(u, q, a)] + rows[1..]
    else [rows[0]] + Upsert(rows[1..], u, q, a)
  }

  /** `deleteMany({questionID: q})`. */
  function WithoutQuestion(rows: seq<AnswerRow>, q: string): (r: seq<AnswerRow>)
    ensures forall row :: row in r <==> row in rows && row.questionID != q
    ensures forall row :: multiset(r)[row] == if row.questionID != q then multiset(rows)[row] else 0
  {
    FilterMultiplicity(rows, (row: AnswerRow) => row.questionID != q);
    Filter(rows, (row: AnswerRow) => row.questionID != q)
  }

  /** After an upsert the key reads back the answer just written. */
  lemma {:induction false} LookupUpsertSame(rows: seq<AnswerRow>, u: string, q: string, a: string)
    ensures Lookup(Upsert(rows, u, q, a), u, q) == Some(AnswerRow(u, q, a))
  {
    if rows != [] && !HasKey(rows[0], u, q) {
      LookupUpsertSame(rows[1..], u, q, a);
      assert Upsert(rows, u, q, a)[1..] == Upsert(rows[1..], u, q, a);
    }
  }

  /** An upsert leaves every other key reading what it read before. */
  lemma {:induction false} LookupUpsertOther(rows: seq<AnswerRow>, u: string, q: string, a: string, u': string, q': string)
    requires u != u' || q != q'
    ensures Lookup(Upsert(rows, u, q, a), u', q') == Lookup(rows, u', q')
  {
    if rows == [] {
    } else if HasKey(rows[0], u, q) {
      assert Upsert(rows, u, q, a)[1..] == rows[1..];
    } else {
      LookupUpsertOther(rows[1..], u, q, a, u', q');
      assert Upsert(rows, u, q, a)[1..] == Upsert(rows[1..], u, q, a);
    }
  }

  /** An upsert adds a row exactly when the key was absent, and otherwise
      changes only the answer of the row that had the key. */
  lemma {:induction false} UpsertShape(rows: seq<AnswerRow>, u: string, q: string, a: string)
    ensures var r := Upsert(rows, u, q, a);
      && |r| == (if Lookup(rows, u, q).None? then |rows| + 1 else |rows|)
      && (Lookup(rows, u, q).None? ==> r == rows + [AnswerRow(u, q, a)])
      && forall j :: 0 <= j < |rows| && !HasKey(rows[j], u, q) ==> r[j] == rows[j]
  {
    if rows != [] && !HasKey(rows[0], u, q) {
      UpsertShape(rows[1..], u, q, a);
      var r := Upsert(rows, u, q, a);
      assert r == [rows[0]] + Upsert(rows[1..], u, q, a);
      if Lookup(rows, u, q).None? {
        assert rows == [rows[0]] + rows[1..];
      }
    }
  }

  /** The set of rows an upsert leaves behind: those not under the key, plus
      exactly one row for the key. */
  lemma {:induction false} UpsertRows(rows: seq<AnswerRow>, u: string, q: string, a: string)
    ensures forall row :: row in Upsert(rows, u, q, a) <==>
      (row in rows && !HasKey(row, u, q)) || row == AnswerRow(u, q, a)
    requires UniqueKeys(rows)
  {
    if rows != [] {
      if !HasKey(rows[0], u, q) {
        UniqueTail(rows);
        UpsertRows(rows[1..], u, q, a);
        assert Upsert(rows, u, q, a) == [rows[0]] + Upsert(rows[1..], u, q, a);
        assert forall row :: row in rows <==> row == rows[0] || row in rows[1..];
      } else {
        assert forall j :: 1 <= j < |rows| ==> !HasKey(rows[j], u, q);
        assert forall row :: row in rows <==> row == rows[0] || row in rows[1..];
      }
    }
  }

  lemma UniqueTail(rows: seq<AnswerRow>)
    requires UniqueKeys(rows) && rows != []
    ensures UniqueKeys(rows[1..])
    ensures forall j :: 1 <= j < |rows| ==> !HasKey(rows[j], rows[0].username, rows[0].questionID)
  {
    forall i, j | 0 <= i < j < |rows| - 1
      ensures rows[1..][i].username != rows[1..][j].username || rows[1..][i].questionID != rows[1..][j].questionID
    {
      assert rows[1..][i] == rows[i + 1] && rows[1..][j] == rows[j + 1];
    }
  }

  /** Upserts keep at most one row per key. */
  lemma {:induction false} UpsertKeepsUniqueKeys(rows: seq<AnswerRow>, u: string, q: string, a: string)
    requires UniqueKeys(rows)
    ensures UniqueKeys(Upsert(rows, u, q, a))
  {
    if rows != [] {
      UniqueTail(rows);
      var r := Upsert(rows, u, q, a);
      if HasKey(rows[0], u, q) {
        assert r == [AnswerRow(u, q, a)] + rows[1..];
        forall i, j | 0 <= i < j < |r|
          ensures r[i].username != r[j].username || r[i].questionID != r[j].questionID
        {
          if i > 0 { assert r[i] == rows[i] && r[j] == rows[j]; }
          else { assert r[j] == rows[j]; }
        }
      } else {
        UpsertKeepsUniqueKeys(rows[1..], u, q, a);
        UpsertRows(rows[1..], u, q, a);
        assert r == [rows[0]] + Upsert(rows[1..], u, q, a);
        forall i, j | 0 <= i < j < |r|
          ensures r[i].username != r[j].username || r[i].questionID != r[j].questionID
        {
          if i == 0 {
            assert r[j] in Upsert(rows[1..], u, q, a);
            if r[j] != AnswerRow(u, q, a) {
              assert r[j] in rows[1..];
            }
          } else {
            assert r[i] == Upsert(rows[1..], u, q, a)[i - 1];
            assert r[j] == Upsert(rows[1..], u, q, a)[j - 1];
          }
        }
      }
    }
  }

  /** Last write wins: a second upsert of the same key is as if only the
      second had happened. */
  lemma {:induction false} UpsertLastWriteWins(rows: seq<AnswerRow>, u: string, q: string, a: string, b: string)
    ensures Upsert(Upsert(rows, u, q, a), u, q, b) == Upsert(rows, u, q, b)
  {
    if rows != [] && !HasKey(rows[0], u, q) {
      UpsertLastWriteWins(rows[1..], u, q, a, b);
    }
  }

  /** Deleting a question's answers keeps at most one row per key. */
  lemma {:induction false} WithoutQuestionKeepsUniqueKeys(rows: seq<AnswerRow>, q: string)
    requires UniqueKeys(rows)
    ensures UniqueKeys(WithoutQuestion(rows, q))
  {
    if rows != [] {
      var init := rows[..|rows| - 1];
      var last := rows[|rows| - 1];
      assert UniqueKeys(init);
      WithoutQuestionKeepsUniqueKeys(init, q);
      var f := WithoutQuestion(init, q);
      assert forall row :: row in init ==> !HasKey(row, last.username, last.questionID);
      if last.questionID != q {
        assert WithoutQuestion(rows, q) == f + [last];
        forall i | 0 <= i < |f|
          ensures !HasKey(f[i], last.username, last.questionID)
        {
          assert f[i] in init;
        }
      } else {
        assert WithoutQuestion(rows, q) == f;
      }
    }
  }

  /** The answers collection, changed in place by upserts and deletes. */
  class AnswerStore {
    var rows: seq<AnswerRow>

    constructor (initial: seq<AnswerRow>)
      ensures rows == initial
    {
      rows := initial;
    }

    /** The row `findOne` returns for a key. */
    function FindOne(u: string, q: string): (r: Option<AnswerRow>)
      reads this
    {
      Lookup(rows, u, q)
    }

    method UpdateOne(u: string, q: string, a: string)
      modifies this
      ensures rows == Upsert(old(rows), u, q, a)
      ensures FindOne(u, q) == Some(AnswerRow(u, q, a))
      ensures forall u', q' :: u' != u || q' != q ==> FindOne(u', q') == old(FindOne(u', q'))
      ensures UniqueKeys(old(rows)) ==> UniqueKeys(rows)
    {
      LookupUpsertSame(rows, u, q, a);
      forall u', q' | u' != u || q' != q
        ensures Lookup(Upsert(rows, u, q, a), u', q') == Lookup(rows, u', q')
      {
        LookupUpsertOther(rows, u, q, a, u', q');
      }
      if UniqueKeys(rows) { UpsertKeepsUniqueKeys(rows, u, q, a); }
      rows := Upsert(rows, u, q, a);
    }

    method DeleteMany(q: string)
      modifies this
      ensures rows == WithoutQuestion(old(rows), q)
      ensures forall row :: row in rows ==> row.questionID != q
      ensures forall row :: row in old(rows) && row.questionID != q ==> row in rows
      ensures UniqueKeys(old(rows)) ==> UniqueKeys(rows)
    {
      if UniqueKeys(rows) { WithoutQuestionKeepsUniqueKeys(rows, q); }
      rows := WithoutQuestion(rows, q);
    }
  }
}
