/** The MongoDB database the controllers work on, as three collections kept
    in insertion (natural) order, and the shape of a controller's reply.
    `findOne` returns the first match in natural order. */
module Store {
  import opened Common
  import opened Schema

  datatype Db = Db(users: seq<User>, companies: seq<Company>, questions: seq<Question>)

  /** The schema-level invariants of the stored documents: ids unique in
      each collection, usernames unique, every stored company and question
      passes its validators. */
  ghost predicate Valid(db: Db) {
    && Unique(db.users, UserId)
    && Unique(db.users, Username)
    && (forall i :: 0 <= i < |db.users| ==> db.users[i].username != "")
    && Unique(db.companies, CompanyId)
    && (forall i :: 0 <= i < |db.companies| ==> CompanyNameValid(db.companies[i].name))
    && Unique(db.questions, QuestionId)
    && (forall i :: 0 <= i < |db.questions| ==> QuestionValid(db.questions[i].fields))
  }

  /** A fresh id is held by no element. */
  lemma FreshIdUnused<T>(s: seq<T>, key: T -> Id)
    ensures !Has(s, key, FreshId(Ids(s, key)))
  {
    var f := FreshId(Ids(s, key));
    forall i | 0 <= i < |s| ensures key(s[i]) != f {
      assert Ids(s, key)[i] == key(s[i]);
    }
  }

  /** Appending an element whose key is unused keeps keys unique. */
  lemma AppendKeepsUnique<T>(s: seq<T>, key: T -> Id, x: T)
    requires Unique(s, key) && !Has(s, key, key(x))
    ensures Unique(s + [x], key)
  {
    var t := s + [x];
    forall i, j | 0 <= i < j < |t| ensures key(t[i]) != key(t[j]) {
      if j == |s| { assert t[i] == s[i]; }
    }
  }

  /** Replacing elements by one with the same key keeps keys unique. */
  lemma ReplaceKeepsUnique<T>(s: seq<T>, key: T -> Id, y: T)
    requires Unique(s, key)
    ensures Unique(ReplaceWhere(s, key, y), key)
  {
  }

  /** Filtering keeps keys unique. */
  lemma {:induction false} RemoveKeepsUnique<T>(s: seq<T>, key: T -> Id, id: Id)
    requires Unique(s, key)
    ensures Unique(RemoveWhere(s, key, id), key)
    decreases |s|
  {
    if |s| > 0 {
      var rest := RemoveWhere(s[1..], key, id);
      assert Unique(s[1..], key) by {
        forall i, j | 0 <= i < j < |s| - 1 ensures key(s[1..][i]) != key(s[1..][j]) {
          assert s[1..][i] == s[i + 1] && s[1..][j] == s[j + 1];
        }
      }
      RemoveKeepsUnique(s[1..], key, id);
      RemoveWhereKeeps(s[1..], key, id);
      if key(s[0]) != id {
        forall x | x in s[1..] ensures key(x) != key(s[0]) {
          var k :| 0 <= k < |s| - 1 && s[1..][k] == x;
          assert s[k + 1] == x;
        }
        var t := [s[0]] + rest;
        forall i, j | 0 <= i < j < |t| ensures key(t[i]) != key(t[j]) {
          assert t[j] == rest[j - 1] && t[j] in rest;
          if i > 0 {
            assert t[i] == rest[i - 1];
          }
        }
      }
    }
  }

  /** Mongoose's `populate` of an array of references: each id is replaced
      by the referenced document; ids whose document no longer exists are
      dropped; the order of the ids is kept. */
  function Populate(ids: seq<Id>, questions: seq<Question>): (r: seq<Question>)
    ensures |r| <= |ids|
    ensures forall i :: 0 <= i < |r| ==> r[i] in questions && r[i].id in ids
    ensures (forall i :: 0 <= i < |ids| ==> Has(questions, QuestionId, ids[i])) ==> |r| == |ids|
    decreases |ids|
  {
    if |ids| == 0 then []
    else
      var rest := Populate(ids[1..], questions);
      assert forall i :: 0 < i < |ids| ==> ids[i] == ids[1..][i - 1];
      match Find(questions, QuestionId, ids[0])
      case None => rest
      case Some(q) => [q] + rest
  }

  /** Populating one id gives the first stored question with that id, or
      nothing when no stored question has it. */
  lemma PopulateOne(id: Id, questions: seq<Question>)
    ensures Populate([id], questions)
            == if Has(questions, QuestionId, id) then [questions[FindIndex(questions, QuestionId, id)]] else []
  {
    assert [id][1..] == [];
  }

  /** Populating distributes over concatenation: each id contributes its
      document in the position of the id. With `PopulateOne` this
      determines the populated list entirely. */
  lemma {:induction false} PopulateAppend(a: seq<Id>, b: seq<Id>, questions: seq<Question>)
    ensures Populate(a + b, questions) == Populate(a, questions) + Populate(b, questions)
    decreases |a|
  {
    if |a| == 0 {
      assert a + b == b;
    } else {
      assert (a + b)[0] == a[0];
      assert (a + b)[1..] == a[1..] + b;
      PopulateAppend(a[1..], b, questions);
    }
  }

  /** Storing one more question does not change the lookup of any other id. */
  lemma FindAfterAppend(questions: seq<Question>, q: Question, id: Id)
    requires id != q.id
    ensures Find(questions + [q], QuestionId, id) == Find(questions, QuestionId, id)
  {
    var t := questions + [q];
    assert forall i :: 0 <= i < |questions| ==> t[i] == questions[i];
    if Has(questions, QuestionId, id) {
      var k := FindIndex(questions, QuestionId, id);
      assert QuestionId(t[k]) == id;
      assert FindIndex(t, QuestionId, id) == k;
    } else {
      assert QuestionId(t[|questions|]) != id;
    }
  }

  /** Storing one more question does not change the population of ids that
      do not name it. */
  lemma {:induction false} PopulateIgnoresNew(ids: seq<Id>, questions: seq<Question>, q: Question)
    requires q.id !in ids
    ensures Populate(ids, questions + [q]) == Populate(ids, questions)
    decreases |ids|
  {
    if |ids| > 0 {
      assert forall x :: x in ids[1..] ==> x in ids;
      PopulateIgnoresNew(ids[1..], questions, q);
      FindAfterAppend(questions, q, ids[0]);
    }
  }

  /** Every question id some company lists, company by company. */
  function Referenced(companies: seq<Company>): seq<Id>
    decreases |companies|
  {
    if |companies| == 0 then [] else companies[0].questions + Referenced(companies[1..])
  }

  lemma {:induction false} ReferencedHas(companies: seq<Company>, k: int, id: Id)
    requires 0 <= k < |companies| && id in companies[k].questions
    ensures id in Referenced(companies)
    decreases k
  {
    if k > 0 {
      assert companies[1..][k - 1] == companies[k];
      ReferencedHas(companies[1..], k - 1, id);
    }
  }

  /** The ObjectId of a new question. ObjectIds are never reused, so it
      differs from every stored question's id and from every id a company
      still lists, including those of deleted questions. */
  function NewQuestionId(db: Db): (r: Id)
    ensures !Has(db.questions, QuestionId, r)
    ensures forall k :: 0 <= k < |db.companies| ==> r !in db.companies[k].questions
  {
    var used := Ids(db.questions, QuestionId) + Referenced(db.companies);
    var r := FreshId(used);
    assert forall i :: 0 <= i < |db.questions| ==> used[i] == QuestionId(db.questions[i]);
    assert forall x :: x in Referenced(db.companies) ==> x in used;
    forall k | 0 <= k < |db.companies| ensures r !in db.companies[k].questions {
      if r in db.companies[k].questions {
        ReferencedHas(db.companies, k, r);
      }
    }
    r
  }

  /** The reply of a controller: a success status with a body, an
      `ApiError` with a status and a message, or a Mongoose validation
      error (whose HTTP status is set by `asyncHandler` and Express's
      default error handler, neither of which is part of this model). */
  datatype Outcome<T> =
    | Done(status: int, body: T)
    | ApiError(status: int, message: string)
    | ValidationFailed

  /** A controller's effect: the database after the request, and the reply. */
  datatype Step<T> = Step(db: Db, out: Outcome<T>)
}
