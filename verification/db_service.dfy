/**
 * The mock database (services/dbService.ts): two tables kept in the browser's
 * key-value storage, one list of assignments under "cdas_assignments" and one list
 * of submissions under "cdas_submissions". Assignments are only ever appended;
 * submissions are upserted by `id`.
 */
module DbService {
  import opened Types
  import opened Lists

  const StorageKeyAssignments: string := "cdas_assignments"
  const StorageKeySubmissions: string := "cdas_submissions"

  /**
   * A storage value, already decoded from its JSON text. Keys other than the two
   * tables may hold anything the rest of the application writes there.
   */
  datatype Stored =
    | AssignmentTable(assignments: seq<Assignment>)
    | SubmissionTable(submissions: seq<Submission>)
    | OtherValue(json: string)

  function AssignmentKey(a: Assignment): string { a.id }

  function SubmissionKey(s: Submission): string { s.id }

  /** No two submissions share an id. */
  predicate UniqueIds(s: seq<Submission>) {
    forall i, j :: 0 <= i < j < |s| ==> s[i].id != s[j].id
  }

  /** The ids present in a submission list. */
  function Ids(s: seq<Submission>): set<string> {
    set i | 0 <= i < |s| :: s[i].id
  }

  /**
   * The submission list after saving `x`: the first entry with `x.id` is replaced
   * by `x` in place, or `x` is appended when no entry has that id.
   */
  function Upsert(s: seq<Submission>, x: Submission): (r: seq<Submission>)
    ensures x in r
    ensures |r| == |s| || |r| == |s| + 1
  {
    var i := IndexOfKey(s, SubmissionKey, x.id);
    if i >= 0 then assert s[i := x][i] == x; s[i := x] else s + [x]
  }

  /** Saving an id that is present overwrites the first entry with it; nothing else moves. */
  lemma UpsertReplacesFirstMatch(s: seq<Submission>, x: Submission, i: nat)
    requires i < |s| && s[i].id == x.id
    requires forall j :: 0 <= j < i ==> s[j].id != x.id
    ensures |Upsert(s, x)| == |s|
    ensures Upsert(s, x)[i] == x
    ensures forall j :: 0 <= j < |s| && j != i ==> Upsert(s, x)[j] == s[j]
  {
    assert SubmissionKey(s[i]) == x.id;
    assert forall j :: 0 <= j < i ==> SubmissionKey(s[j]) != x.id;
    assert IndexOfKey(s, SubmissionKey, x.id) == i;
  }

  /** Saving an id that is absent appends the submission at the end. */
  lemma UpsertAppendsNew(s: seq<Submission>, x: Submission)
    requires forall j :: 0 <= j < |s| ==> s[j].id != x.id
    ensures Upsert(s, x) == s + [x]
  {
    assert forall j :: 0 <= j < |s| ==> SubmissionKey(s[j]) != x.id;
    assert IndexOfKey(s, SubmissionKey, x.id) < 0;
  }

  /** Saving the same submission twice is the same as saving it once. */
  lemma UpsertIdempotent(s: seq<Submission>, x: Submission)
    ensures Upsert(Upsert(s, x), x) == Upsert(s, x)
  {
    var k := IndexOfKey(s, SubmissionKey, x.id);
    var r := Upsert(s, x);
    if k >= 0 {
      assert forall j :: 0 <= j < k ==> SubmissionKey(s[j]) != x.id;
      UpsertReplacesFirstMatch(r, x, k);
      assert r[k := x] == r;
    } else {
      assert forall j :: 0 <= j < |s| ==> SubmissionKey(s[j]) != x.id;
      UpsertReplacesFirstMatch(r, x, |s|);
      assert r[|s| := x] == r;
    }
  }

  /** Upserting keeps ids unique, and the ids afterwards are the old ones plus the saved one. */
  lemma UpsertKeepsIdsUnique(s: seq<Submission>, x: Submission)
    requires UniqueIds(s)
    ensures UniqueIds(Upsert(s, x))
    ensures Ids(Upsert(s, x)) == Ids(s) + {x.id}
  {
    var k := IndexOfKey(s, SubmissionKey, x.id);
    var r := Upsert(s, x);
    if k >= 0 {
      assert SubmissionKey(s[k]) == x.id;
      forall i, j | 0 <= i < j < |r| ensures r[i].id != r[j].id {
        assert r[i].id == s[i].id && r[j].id == s[j].id;
      }
      assert Ids(r) == Ids(s) + {x.id} by {
        forall id | id in Ids(r) ensures id in Ids(s) + {x.id} {
          var i :| 0 <= i < |r| && r[i].id == id;
          assert r[i].id == s[i].id;
        }
        forall id | id in Ids(s) ensures id in Ids(r) {
          var i :| 0 <= i < |s| && s[i].id == id;
          assert r[i].id == s[i].id;
        }
      }
    } else {
      assert forall j :: 0 <= j < |s| ==> SubmissionKey(s[j]) != x.id;
      forall i, j | 0 <= i < j < |r| ensures r[i].id != r[j].id {
        if j == |s| {
          assert r[i] == s[i];
        } else {
          assert r[i] == s[i] && r[j] == s[j];
        }
      }
      assert Ids(r) == Ids(s) + {x.id} by {
        forall id | id in Ids(r) ensures id in Ids(s) + {x.id} {
          var i :| 0 <= i < |r| && r[i].id == id;
          if i < |s| {
            assert r[i] == s[i];
          }
        }
        forall id | id in Ids(s) ensures id in Ids(r) {
          var i :| 0 <= i < |s| && s[i].id == id;
          assert r[i] == s[i];
        }
        assert r[|s|].id == x.id;
      }
    }
  }

  /** The browser storage, as the two tables see it. */
  class LocalStore {
    var items: map<string, Stored>

    /** Each table key, when present, holds its own kind of list. */
    ghost predicate Valid()
      reads this
    {
      && (StorageKeyAssignments in items ==> items[StorageKeyAssignments].AssignmentTable?)
      && (StorageKeySubmissions in items ==> items[StorageKeySubmissions].SubmissionTable?)
    }

    /** Storage on first use: nothing has been written. */
    constructor ()
      ensures Valid()
      ensures items == map[]
    {
      items := map[];
    }

    /** `getAssignments`: the stored list, or the empty list when the key was never written. */
    function Assignments(): (r: seq<Assignment>)
      reads this
      ensures StorageKeyAssignments !in items ==> r == []
      ensures StorageKeyAssignments in items && items[StorageKeyAssignments].AssignmentTable? ==>
                r == items[StorageKeyAssignments].assignments
    {
      if StorageKeyAssignments in items && items[StorageKeyAssignments].AssignmentTable?
      then items[StorageKeyAssignments].assignments
      else []
    }

    /** `getSubmissions`: the stored list, or the empty list when the key was never written. */
    function Submissions(): (r: seq<Submission>)
      reads this
      ensures StorageKeySubmissions !in items ==> r == []
      ensures StorageKeySubmissions in items && items[StorageKeySubmissions].SubmissionTable? ==>
                r == items[StorageKeySubmissions].submissions
    {
      if StorageKeySubmissions in items && items[StorageKeySubmissions].SubmissionTable?
      then items[StorageKeySubmissions].submissions
      else []
    }

    /** `getAssignmentById`: the first stored assignment with this id, if there is one. */
    function AssignmentById(id: string): (r: Option<Assignment>)
      reads this
      ensures r.None? <==> forall i :: 0 <= i < |Assignments()| ==> Assignments()[i].id != id
      ensures r.Some? ==> r.value.id == id
      ensures r.Some? ==> exists i :: 0 <= i < |Assignments()| && Assignments()[i] == r.value &&
                                      forall j :: 0 <= j < i ==> Assignments()[j].id != id
    {
      var all := Assignments();
      var i := IndexOfKey(all, AssignmentKey, id);
      if i >= 0 then
        assert forall j :: 0 <= j < i ==> AssignmentKey(all[j]) != id;
        Some(all[i])
      else
        assert forall j :: 0 <= j < |all| ==> AssignmentKey(all[j]) != id;
        None
    }

    /** `getSubmissionsByAssignmentId`: the stored submissions for one assignment, in stored order. */
    function SubmissionsByAssignmentId(assignmentId: string): (r: seq<Submission>)
      reads this
      ensures forall x :: x in r ==> x in Submissions() && x.assignmentId == assignmentId
      ensures forall x :: x in Submissions() && x.assignmentId == assignmentId ==> x in r
      ensures IsSubsequence(r, Submissions())
    {
      Filter(Submissions(), (x: Submission) => x.assignmentId == assignmentId)
    }

    /** `saveAssignment`: appends to the assignments table and writes no other key. */
    method SaveAssignment(assignment: Assignment)
      requires Valid()
      modifies this
      ensures Valid()
      ensures Assignments() == old(Assignments()) + [assignment]
      ensures Submissions() == old(Submissions())
      ensures items == old(items)[StorageKeyAssignments := AssignmentTable(old(Assignments()) + [assignment])]
    {
      var current := Assignments();
      current := current + [assignment];
      items := items[StorageKeyAssignments := AssignmentTable(current)];
    }

    /** `saveSubmission`: upserts into the submissions table and writes no other key. */
    method SaveSubmission(submission: Submission)
      requires Valid()
      modifies this
      ensures Valid()
      ensures Submissions() == Upsert(old(Submissions()), submission)
      ensures Assignments() == old(Assignments())
      ensures items == old(items)[StorageKeySubmissions := SubmissionTable(Upsert(old(Submissions()), submission))]
    {
      var current := Submissions();
      var existingIndex := FindIndex(current, SubmissionKey, submission.id);
      if existingIndex >= 0 {
        current := current[existingIndex := submission];
      } else {
        current := current + [submission];
      }
      items := items[StorageKeySubmissions := SubmissionTable(current)];
    }
  }
}
